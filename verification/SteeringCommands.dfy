/** The commands that create flow tables and flow groups on the device. */
module SteeringCommands {
  import opened Bits
  import opened Common
  import opened CommandBuffer
  import FM = FlowMatcher

  /* ---------------------------------------------------------------- create_flow_table_in */

  const OP_CREATE_FLOW_TABLE := 0x930
  const OPCODE := Field(0x0, 16)
  const OP_MOD := Field(0x30, 16)
  const TABLE_TYPE := Field(0x80, 8)
  const REFORMAT_EN := Field(0xc0, 1)
  const DECAP_EN := Field(0xc1, 1)
  const MISS_ACTION := Field(0xc4, 4)
  const LEVEL := Field(0xc8, 8)
  const LOG_SIZE := Field(0xd8, 8)
  const MISS_ID := Field(0xe8, 24)
  const TABLE_BYTES := 64

  const MISS_DEF := 0
  const MISS_FWD := 1

  /** What the command says about a table; `miss` is the id packets go to when no rule matches. */
  datatype TableSpec = TableSpec(level: u8, kind: u8, logSize: u8, decap: bool, reformat: bool, miss: Option<u24>)

  function Flag(b: bool): nat {
    if b then 1 else 0
  }

  function MissWrites(miss: Option<u24>): seq<Write> {
    match miss
    case None => [Write(MISS_ACTION, MISS_DEF)]
    case Some(id) => [Write(MISS_ACTION, MISS_FWD), Write(MISS_ID, id)]
  }

  function TableFixed(t: TableSpec): seq<Write> {
    [Write(OPCODE, OP_CREATE_FLOW_TABLE), Write(TABLE_TYPE, t.kind), Write(LEVEL, t.level),
     Write(LOG_SIZE, t.logSize), Write(DECAP_EN, Flag(t.decap)), Write(REFORMAT_EN, Flag(t.reformat))]
  }

  function TableWrites(t: TableSpec): seq<Write> {
    [Write(OP_MOD, 0)] + MissWrites(t.miss) + TableFixed(t)
  }

  lemma TableWritesOk(t: TableSpec)
    ensures AllFit(TableWrites(t), TABLE_BYTES) && PairwiseDisjoint(TableWrites(t))
  {
    hide Fits; hide Disjoint;
    TableFieldsFit();
    TableFieldsApart();
    assert TableWrites(t) == ([Write(OP_MOD, 0)] + MissWrites(t.miss)) + TableFixed(t);
    var fs := [OP_MOD, MISS_ACTION, MISS_ID, OPCODE, TABLE_TYPE, LEVEL, LOG_SIZE, DECAP_EN, REFORMAT_EN];
    var skip := if t.miss.None? then 1 else 0;
    assert forall i | 0 <= i < |TableWrites(t)| ::
        TableWrites(t)[i].f == fs[if i < 2 then i else i + skip];
  }

  lemma TableFieldsFit()
    ensures Fits(OP_MOD, TABLE_BYTES) && Fits(MISS_ACTION, TABLE_BYTES) && Fits(MISS_ID, TABLE_BYTES)
    ensures Fits(OPCODE, TABLE_BYTES) && Fits(TABLE_TYPE, TABLE_BYTES) && Fits(LEVEL, TABLE_BYTES)
    ensures Fits(LOG_SIZE, TABLE_BYTES) && Fits(DECAP_EN, TABLE_BYTES) && Fits(REFORMAT_EN, TABLE_BYTES)
  {
  }

  lemma TableFieldsApart()
    ensures var fs := [OP_MOD, MISS_ACTION, MISS_ID, OPCODE, TABLE_TYPE, LEVEL, LOG_SIZE, DECAP_EN, REFORMAT_EN];
            forall i, j | 0 <= i < j < |fs| :: Disjoint(fs[i], fs[j])
  {
  }

  function TableCommand(t: TableSpec): (s: seq<byte>)
    ensures |s| == TABLE_BYTES
  {
    TableWritesOk(t);
    PutAll(Zeros(TABLE_BYTES), TableWrites(t))
  }

  /** What the device reads. */
  function DecodeTable(s: seq<byte>): TableSpec
    requires |s| == TABLE_BYTES
  {
    ReadBound(s, LEVEL);
    ReadBound(s, TABLE_TYPE);
    ReadBound(s, LOG_SIZE);
    ReadBound(s, MISS_ID);
    Pow2Values();
    TableSpec(Read(s, LEVEL), Read(s, TABLE_TYPE), Read(s, LOG_SIZE), Read(s, DECAP_EN) != 0,
              Read(s, REFORMAT_EN) != 0,
              if Read(s, MISS_ACTION) == MISS_FWD then Some(Read(s, MISS_ID)) else None)
  }

  /** The device reads back the level, the type, the sizes and the miss table that were meant, in a
      command to create a table. */
  lemma TableRoundTrip(t: TableSpec)
    ensures DecodeTable(TableCommand(t)) == t
    ensures Read(TableCommand(t), OPCODE) == 0x930 && Read(TableCommand(t), OP_MOD) == 0
    ensures Read(TableCommand(t), MISS_ACTION) == if t.miss.Some? then 1 else 0
  {
    hide PutAll; hide Read; hide Pow2; hide Fits; hide Zeros;
    TableWritesOk(t);
    Pow2Values();
    var z, ws := Zeros(TABLE_BYTES), TableWrites(t);
    var k := if t.miss.None? then 2 else 3;
    FixedPart(t, k);
    PutAllReads(z, ws, 0);
    PutAllReads(z, ws, 1);
    PutAllReads(z, ws, k);
    PutAllReads(z, ws, k + 1);
    PutAllReads(z, ws, k + 2);
    PutAllReads(z, ws, k + 3);
    PutAllReads(z, ws, k + 4);
    PutAllReads(z, ws, k + 5);
    if t.miss.Some? {
      PutAllReads(z, ws, 2);
    }
  }

  /** Nothing else is set. */
  lemma TableElseZero(t: TableSpec, f: Field)
    requires f.off + f.width <= 8 * TABLE_BYTES
    requires forall g | g in [OP_MOD, MISS_ACTION, MISS_ID, OPCODE, TABLE_TYPE, LEVEL, LOG_SIZE, DECAP_EN,
                              REFORMAT_EN] :: Disjoint(g, f)
    ensures Read(TableCommand(t), f) == 0
  {
    hide PutAll; hide Read; hide Fits; hide Zeros; hide Disjoint;
    TableWritesOk(t);
    var fs := [OP_MOD, MISS_ACTION, MISS_ID, OPCODE, TABLE_TYPE, LEVEL, LOG_SIZE, DECAP_EN, REFORMAT_EN];
    forall i | 0 <= i < |TableWrites(t)| ensures Disjoint(TableWrites(t)[i].f, f) {
      assert TableWrites(t)[i].f in fs;
    }
    PutAllKeeps(Zeros(TABLE_BYTES), TableWrites(t), f);
    ReadOfZeros(TABLE_BYTES, f);
  }

  lemma FixedPart(t: TableSpec, k: nat)
    requires k == if t.miss.None? then 2 else 3
    ensures |TableWrites(t)| == k + 6
    ensures forall i | 0 <= i < 6 :: TableWrites(t)[k + i] == TableFixed(t)[i]
    ensures TableWrites(t)[0] == Write(OP_MOD, 0)
    ensures TableWrites(t)[1] == Write(MISS_ACTION, if t.miss.None? then MISS_DEF else MISS_FWD)
    ensures t.miss.Some? ==> TableWrites(t)[2] == Write(MISS_ID, t.miss.value)
  {
    assert TableWrites(t) == ([Write(OP_MOD, 0)] + MissWrites(t.miss)) + TableFixed(t);
  }

  /* ---------------------------------------------------------------- create_flow_group_in */

  const OP_CREATE_FLOW_GROUP := 0x933
  const TABLE_ID := Field(0xa8, 24)
  const START_INDEX := Field(0xe0, 32)
  const END_INDEX := Field(0x120, 32)
  const CRITERIA_ENABLE := Field(0x1f8, 8)
  const MATCH_CRITERIA := 0x200
  const GROUP_BYTES := 1024

  datatype GroupAttr = GroupAttr(start: u32, end: u32, matcher: FM.MatcherAttr)

  function GroupWrites(tableId: u24, g: GroupAttr): seq<Write> {
    [Write(OPCODE, OP_CREATE_FLOW_GROUP), Write(TABLE_ID, tableId), Write(START_INDEX, g.start),
     Write(END_INDEX, g.end), Write(CRITERIA_ENABLE, g.matcher.enabled)]
  }

  lemma GroupWritesOk(tableId: u24, g: GroupAttr)
    ensures AllFit(GroupWrites(tableId, g), GROUP_BYTES) && PairwiseDisjoint(GroupWrites(tableId, g))
    ensures forall i | 0 <= i < 5 ::
              GroupWrites(tableId, g)[i].f.off + GroupWrites(tableId, g)[i].f.width <= MATCH_CRITERIA
  {
    hide Fits; hide Disjoint;
    GroupFieldsFit();
    GroupFieldsApart();
    var ws, fs := GroupWrites(tableId, g), GROUP_FIELDS;
    assert forall i | 0 <= i < 5 :: ws[i].f == fs[i];
  }

  const GROUP_FIELDS := [OPCODE, TABLE_ID, START_INDEX, END_INDEX, CRITERIA_ENABLE]

  lemma GroupFieldsFit()
    ensures forall i | 0 <= i < |GROUP_FIELDS| ::
              Fits(GROUP_FIELDS[i], GROUP_BYTES) && GROUP_FIELDS[i].off + GROUP_FIELDS[i].width <= MATCH_CRITERIA
  {
  }

  lemma GroupFieldsApart()
    ensures forall i, j | 0 <= i < j < |GROUP_FIELDS| :: Disjoint(GROUP_FIELDS[i], GROUP_FIELDS[j])
  {
  }

  /** The command; the matcher's own verdict on the criteria does not keep it from being sent. */
  function GroupCommand(tableId: u24, g: GroupAttr): (s: seq<byte>)
    ensures |s| == GROUP_BYTES
  {
    GroupWritesOk(tableId, g);
    FM.ItemsAscending(g.matcher, g.matcher.criteria);
    FM.Apply(PutAll(Zeros(GROUP_BYTES), GroupWrites(tableId, g)), MATCH_CRITERIA,
             FM.Items(g.matcher, g.matcher.criteria))
  }

  /** What the device reads, next to the mask. */
  datatype GroupSpec = GroupSpec(opcode: nat, tableId: nat, start: nat, end: nat, enabled: nat)

  function DecodeGroup(s: seq<byte>): GroupSpec
    requires |s| == GROUP_BYTES
  {
    GroupSpec(Read(s, OPCODE), Read(s, TABLE_ID), Read(s, START_INDEX), Read(s, END_INDEX), Read(s, CRITERIA_ENABLE))
  }

  /** The device reads back a command to create a group, under the table's id, for the range of flows
      and the criteria that were meant; and the mask is what the matcher builds on its own. */
  lemma GroupMeaning(tableId: u24, g: GroupAttr)
    ensures DecodeGroup(GroupCommand(tableId, g)) == GroupSpec(0x933, tableId, g.start, g.end, g.matcher.enabled)
    ensures FM.HoldsBlock(GroupCommand(tableId, g), MATCH_CRITERIA, g.matcher, g.matcher.criteria)
  {
    hide PutAll; hide Fits; hide FM.Items; hide FM.Rank; hide FM.Apply; hide Read; hide Pow2; hide Zeros;
    var a, c := g.matcher, g.matcher.criteria;
    FM.ItemsAscending(a, c);
    GroupWritesOk(tableId, g);
    var z, ws := Zeros(GROUP_BYTES), GroupWrites(tableId, g);
    var s := PutAll(z, ws);
    GroupReads(z, tableId, g);
    FM.ApplyKeeps(s, MATCH_CRITERIA, a, c, OPCODE);
    FM.ApplyKeeps(s, MATCH_CRITERIA, a, c, TABLE_ID);
    FM.ApplyKeeps(s, MATCH_CRITERIA, a, c, START_INDEX);
    FM.ApplyKeeps(s, MATCH_CRITERIA, a, c, END_INDEX);
    FM.ApplyKeeps(s, MATCH_CRITERIA, a, c, CRITERIA_ENABLE);
    FM.ApplyInBlock(s, MATCH_CRITERIA, FM.Items(a, c));
    FM.WritesLeaveBlock(GROUP_BYTES, MATCH_CRITERIA, ws);
  }

  /** Nothing else is set outside the mask. */
  lemma GroupElseZero(tableId: u24, g: GroupAttr, f: Field)
    requires f.off + f.width <= MATCH_CRITERIA
             || (MATCH_CRITERIA + 8 * FM.PARAM_BYTES <= f.off && f.off + f.width <= 8 * GROUP_BYTES)
    requires forall h | h in GROUP_FIELDS :: Disjoint(h, f)
    ensures Read(GroupCommand(tableId, g), f) == 0
  {
    hide PutAll; hide Read; hide Fits; hide Zeros; hide Disjoint; hide FM.Items; hide FM.Apply;
    GroupWritesOk(tableId, g);
    var z, ws := Zeros(GROUP_BYTES), GroupWrites(tableId, g);
    var fs := GROUP_FIELDS;
    assert forall i | 0 <= i < 5 :: ws[i].f == fs[i];
    forall i | 0 <= i < |ws| ensures Disjoint(ws[i].f, f) {
      assert fs[i] in fs;
    }
    PutAllKeeps(z, ws, f);
    ReadOfZeros(GROUP_BYTES, f);
    FM.ApplyKeeps(PutAll(z, ws), MATCH_CRITERIA, g.matcher, g.matcher.criteria, f);
  }

  lemma GroupReads(z: seq<byte>, tableId: u24, g: GroupAttr)
    requires |z| == GROUP_BYTES
    ensures AllFit(GroupWrites(tableId, g), GROUP_BYTES)
    ensures DecodeGroup(PutAll(z, GroupWrites(tableId, g))) ==
            GroupSpec(0x933, tableId, g.start, g.end, g.matcher.enabled)
  {
    hide PutAll; hide Fits; hide Read; hide Pow2;
    GroupWritesOk(tableId, g);
    Pow2Values();
    var ws := GroupWrites(tableId, g);
    PutAllReads(z, ws, 0);
    PutAllReads(z, ws, 1);
    PutAllReads(z, ws, 2);
    PutAllReads(z, ws, 3);
    PutAllReads(z, ws, 4);
  }

  /* ---------------------------------------------------------------- building them in place */

  method BuildTable(t: TableSpec) returns (buf: array<byte>)
    ensures fresh(buf) && buf[..] == TableCommand(t)
  {
    hide PutAll; hide Fits;
    buf := new byte[TABLE_BYTES](_ => 0);
    ghost var z, ws := Zeros(TABLE_BYTES), TableWrites(t);
    assert buf[..] == z;
    TableWritesOk(t);
    ghost var k := if t.miss.None? then 2 else 3;
    FixedPart(t, k);
    PutNothing(z);
    assert Fits(ws[0].f, TABLE_BYTES) && Fits(ws[1].f, TABLE_BYTES);
    SetNext(buf, OP_MOD, 0, z, []);
    ghost var done := [] + [ws[0]];
    match t.miss {
      case None =>
        SetNext(buf, MISS_ACTION, MISS_DEF, z, done);
        done := done + [ws[1]];
      case Some(id) =>
        assert Fits(ws[2].f, TABLE_BYTES);
        SetNext(buf, MISS_ACTION, MISS_FWD, z, done);
        SetNext(buf, MISS_ID, id, z, done + [ws[1]]);
        done := done + [ws[1]] + [ws[2]];
    }
    assert done == ws[..k];
    FillTable(buf, t, z, k);
  }

  method FillTable(buf: array<byte>, t: TableSpec, ghost z: seq<byte>, ghost k: nat)
    requires buf.Length == TABLE_BYTES == |z| && k == (if t.miss.None? then 2 else 3)
    requires |TableWrites(t)| == k + 6 && AllFit(TableWrites(t)[..k], TABLE_BYTES)
    requires buf[..] == PutAll(z, TableWrites(t)[..k])
    modifies buf
    ensures AllFit(TableWrites(t), TABLE_BYTES) && buf[..] == PutAll(z, TableWrites(t))
  {
    hide PutAll; hide Fits;
    ghost var ws, us := TableWrites(t), TableFixed(t);
    ghost var done := ws[..k];
    TableWritesOk(t);
    FixedPart(t, k);
    assert forall i | 0 <= i < 6 :: Fits(us[i].f, TABLE_BYTES) by {
      assert forall i | 0 <= i < 6 :: us[i] == ws[k + i];
    }
    assert Fits(us[0].f, TABLE_BYTES) && Fits(us[1].f, TABLE_BYTES) && Fits(us[2].f, TABLE_BYTES);
    assert Fits(us[3].f, TABLE_BYTES) && Fits(us[4].f, TABLE_BYTES) && Fits(us[5].f, TABLE_BYTES);
    SetNext(buf, OPCODE, OP_CREATE_FLOW_TABLE, z, done);
    SetNext(buf, TABLE_TYPE, t.kind, z, done + [us[0]]);
    SetNext(buf, LEVEL, t.level, z, done + [us[0]] + [us[1]]);
    SetNext(buf, LOG_SIZE, t.logSize, z, done + [us[0]] + [us[1]] + [us[2]]);
    SetNext(buf, DECAP_EN, Flag(t.decap), z, done + [us[0]] + [us[1]] + [us[2]] + [us[3]]);
    SetNext(buf, REFORMAT_EN, Flag(t.reformat), z, done + [us[0]] + [us[1]] + [us[2]] + [us[3]] + [us[4]]);
    assert done + [us[0]] + [us[1]] + [us[2]] + [us[3]] + [us[4]] + [us[5]] == ws;
  }

  method BuildGroup(tableId: u24, g: GroupAttr, matcher: FM.Matcher) returns (buf: array<byte>)
    requires matcher.attr == g.matcher
    ensures fresh(buf) && buf[..] == GroupCommand(tableId, g)
  {
    hide PutAll; hide Fits; hide FM.Apply; hide FM.Items;
    buf := new byte[GROUP_BYTES](_ => 0);
    ghost var z, ws := Zeros(GROUP_BYTES), GroupWrites(tableId, g);
    assert buf[..] == z;
    GroupWritesOk(tableId, g);
    PutNothing(z);
    assert Fits(ws[0].f, GROUP_BYTES) && Fits(ws[1].f, GROUP_BYTES) && Fits(ws[2].f, GROUP_BYTES);
    assert Fits(ws[3].f, GROUP_BYTES) && Fits(ws[4].f, GROUP_BYTES);
    SetNext(buf, OPCODE, OP_CREATE_FLOW_GROUP, z, []);
    SetNext(buf, TABLE_ID, tableId, z, [] + [ws[0]]);
    SetNext(buf, START_INDEX, g.start, z, [] + [ws[0]] + [ws[1]]);
    SetNext(buf, END_INDEX, g.end, z, [] + [ws[0]] + [ws[1]] + [ws[2]]);
    SetNext(buf, CRITERIA_ENABLE, g.matcher.enabled, z, [] + [ws[0]] + [ws[1]] + [ws[2]] + [ws[3]]);
    assert [] + [ws[0]] + [ws[1]] + [ws[2]] + [ws[3]] + [ws[4]] == ws;
    var _ := matcher.ApplyTo(buf, MATCH_CRITERIA, g.matcher.criteria);
  }
}
