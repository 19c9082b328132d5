/** Flow rules: the flow-table entry a rule sends, and the actions that write into it.

    Every action reads and rewrites the same entry buffer, and the rule applies them in the order
    an unordered map happens to yield. */
module FlowRule {
  import opened Bits
  import opened Common
  import opened CommandBuffer
  import FM = FlowMatcher
  import MH = ModifyHeader

  /* ---------------------------------------------------------------- set_fte_in layout */

  const OP_SET_FLOW_TABLE_ENTRY := 0x936
  const OPCODE := Field(0x0, 16)
  const TABLE_TYPE := Field(0x80, 8)
  const TABLE_ID := Field(0xa8, 24)
  const FLOW_INDEX := Field(0x100, 32)
  const GROUP_ID := Field(0x220, 32)
  const FLOW_TAG := Field(0x248, 24)
  const ACTION := Field(0x270, 16)
  const DEST_LIST_SIZE := Field(0x288, 24)
  const PACKET_REFORMAT_ID := Field(0x2c0, 32)
  const MODIFY_HEADER_ID := Field(0x2e0, 32)
  const MATCH_VALUE := 0x400
  const DESTINATION := 0x1a00
  const FTE_BYTES := 832
  const DEST_BYTES := 8

  const ACTION_FWD_DEST := 0x4
  const ACTION_PACKET_REFORMAT := 0x10
  const ACTION_MOD_HDR := 0x40
  const ACTION_REPARSE := 0x8000

  function DestType(i: nat): Field {
    Field(DESTINATION + 64 * i, 8)
  }

  function DestId(i: nat): Field {
    Field(DESTINATION + 64 * i + 8, 24)
  }

  function EntryBytes(dests: nat): nat {
    FTE_BYTES + DEST_BYTES * dests
  }

  /* ---------------------------------------------------------------- what one action does */

  datatype Kind = KModify | KReformat | KTag | KFwd | KReparse

  /** A destination as resolved from a TIR or a flow table. */
  datatype Target = Target(kind: nat, id: nat)

  /** An action that was applied, with the ids it resolved to. */
  datatype Applied =
    | DoModify(id: nat)
    | DoReformat(id: nat)
    | DoTag(id: nat)
    | DoFwd(targets: seq<Target>)
    | DoReparse

  function KindOf(a: Applied): Kind {
    match a
    case DoModify(_) => KModify
    case DoReformat(_) => KReformat
    case DoTag(_) => KTag
    case DoFwd(_) => KFwd
    case DoReparse => KReparse
  }

  /** The bit a kind adds to the action word; a tag adds none. */
  function ActionBit(k: Kind): nat {
    match k
    case KModify => ACTION_MOD_HDR
    case KReformat => ACTION_PACKET_REFORMAT
    case KTag => 0
    case KFwd => ACTION_FWD_DEST
    case KReparse => ACTION_REPARSE
  }

  function TargetWrites(ts: seq<Target>, n: nat): seq<Write>
    requires n <= |ts|
  {
    if n == 0 then []
    else TargetWrites(ts, n - 1)
         + [Write(DestId(n - 1), ts[n - 1].id), Write(DestType(n - 1), ts[n - 1].kind)]
  }

  /** The writes an action makes to the fields it alone owns. */
  function Own(a: Applied): seq<Write> {
    match a
    case DoModify(id) => [Write(MODIFY_HEADER_ID, id)]
    case DoReformat(id) => [Write(PACKET_REFORMAT_ID, id)]
    case DoTag(id) => [Write(FLOW_TAG, id)]
    case DoFwd(ts) => TargetWrites(ts, |ts|) + [Write(DEST_LIST_SIZE, |ts|)]
    case DoReparse => []
  }

  predicate Owns(k: Kind, f: Field) {
    match k
    case KModify => f == MODIFY_HEADER_ID
    case KReformat => f == PACKET_REFORMAT_ID
    case KTag => f == FLOW_TAG
    case KFwd => f == DEST_LIST_SIZE || f.off >= DESTINATION
    case KReparse => false
  }

  lemma OwnedApart(k: Kind, f: Field, k': Kind, g: Field)
    requires Owns(k, f) && Owns(k', g) && k != k'
    ensures Disjoint(f, g) && Disjoint(f, ACTION) && Disjoint(g, ACTION)
  {
  }

  /** The buffer has room for everything the action writes. */
  predicate Room(a: Applied, len: nat) {
    EntryBytes(if a.DoFwd? then |a.targets| else 0) <= len
  }

  lemma {:induction false} TargetWritesOk(ts: seq<Target>, n: nat, len: nat)
    requires n <= |ts| && EntryBytes(n) <= len
    ensures AllFit(TargetWrites(ts, n), len) && PairwiseDisjoint(TargetWrites(ts, n))
    ensures forall i | 0 <= i < |TargetWrites(ts, n)| ::
              var f := TargetWrites(ts, n)[i].f; DESTINATION <= f.off && f.off + f.width <= DESTINATION + 64 * n
  {
    hide Fits;
    if n > 0 {
      TargetWritesOk(ts, n - 1, len);
      TargetFits(n - 1, len);
    }
  }

  lemma TargetFits(i: nat, len: nat)
    requires EntryBytes(i + 1) <= len
    ensures Fits(DestId(i), len) && Fits(DestType(i), len)
  {
    DivModUnique(DestId(i).off, 32, 208 + 2 * i, 8);
    DivModUnique(DestType(i).off, 32, 208 + 2 * i, 0);
  }

  /** Every write of an action is inside the buffer, and no two overlap. */
  lemma OwnOk(a: Applied, len: nat)
    requires Room(a, len)
    ensures AllFit(Own(a), len) && PairwiseDisjoint(Own(a))
    ensures forall i | 0 <= i < |Own(a)| :: Owns(KindOf(a), Own(a)[i].f)
  {
    if a.DoFwd? {
      hide Fits;
      TargetWritesOk(a.targets, |a.targets|, len);
      assert Fits(DEST_LIST_SIZE, len) by { FixedFit(len); }
    } else {
      FixedFit(len);
    }
  }

  lemma FixedFit(len: nat)
    requires FTE_BYTES <= len
    ensures Fits(MODIFY_HEADER_ID, len) && Fits(PACKET_REFORMAT_ID, len) && Fits(FLOW_TAG, len)
    ensures Fits(DEST_LIST_SIZE, len) && Fits(ACTION, len) && Fits(GROUP_ID, len)
    ensures Fits(OPCODE, len) && Fits(TABLE_TYPE, len) && Fits(TABLE_ID, len) && Fits(FLOW_INDEX, len)
  {
  }

  /** The read-modify-write of the action word. */
  function OrAction(s: seq<byte>, bits: nat): (t: seq<byte>)
    requires FTE_BYTES <= |s|
    ensures |t| == |s|
  {
    FixedFit(|s|);
    if bits == 0 then s else Put(s, ACTION, Or(Get(s, ACTION), bits))
  }

  /** The entry after one action was applied to it. */
  function Step(s: seq<byte>, a: Applied): (t: seq<byte>)
    requires Room(a, |s|)
    ensures |t| == |s|
  {
    OwnOk(a, |s|);
    PutAll(OrAction(s, ActionBit(KindOf(a))), Own(a))
  }

  function All(s: seq<byte>, acts: seq<Applied>): (t: seq<byte>)
    requires forall i | 0 <= i < |acts| :: Room(acts[i], |s|)
    ensures |t| == |s|
  {
    if acts == [] then s else Step(All(s, acts[..|acts| - 1]), acts[|acts| - 1])
  }

  /* ---------------------------------------------------------------- bit by bit */

  lemma OrActionBit(s: seq<byte>, bits: nat, k: nat)
    requires FTE_BYTES <= |s| && k < 8 * |s|
    ensures BitAt(OrAction(s, bits), k) <==>
            BitAt(s, k) || (ACTION.Has(k) && Bit(bits, ACTION.off + 15 - k))
  {
    hide Bit; hide BitAt; hide Put; hide Get; hide FieldValue; hide Or; hide Fits;
    FixedFit(|s|);
    if bits == 0 {
      if ACTION.Has(k) { BitOfZero(ACTION.off + 15 - k); }
    } else {
      PutBit(s, ACTION, Or(Get(s, ACTION), bits), k);
      if ACTION.Has(k) {
        var j := ACTION.off + 15 - k;
        BitOr(Get(s, ACTION), bits, j);
        GetIsRead(s, ACTION);
        FieldBit(s, ACTION.off, ACTION.width, j);
      }
    }
  }

  /** The bit an action gives to a position it owns, whatever the buffer held. */
  ghost predicate OwnBit(a: Applied, k: nat)
    requires Touches(Own(a), k)
  {
    var i: nat :| i < |Own(a)| && Own(a)[i].f.Has(k);
    Bit(Own(a)[i].v, Own(a)[i].f.off + Own(a)[i].f.width - 1 - k)
  }

  lemma StepBit(s: seq<byte>, a: Applied, k: nat)
    requires Room(a, |s|) && k < 8 * |s|
    ensures BitAt(Step(s, a), k) <==>
            if Touches(Own(a), k) then OwnBit(a, k)
            else BitAt(s, k) || (ACTION.Has(k) && Bit(ActionBit(KindOf(a)), ACTION.off + 15 - k))
  {
    hide Bit; hide BitAt; hide PutAll; hide OrAction; hide Own; hide Fits; hide ActionBit;
    OwnOk(a, |s|);
    var t := OrAction(s, ActionBit(KindOf(a)));
    if Touches(Own(a), k) {
      var i: nat :| i < |Own(a)| && Own(a)[i].f.Has(k)
        && (OwnBit(a, k) <==> Bit(Own(a)[i].v, Own(a)[i].f.off + Own(a)[i].f.width - 1 - k));
      PutAllBit(t, Own(a), i, k);
    } else {
      PutAllFrame(t, Own(a), k);
      OrActionBit(s, ActionBit(KindOf(a)), k);
    }
  }

  /** Positions touched by actions of different kinds are different, and none is in the action word. */
  lemma TouchApart(a: Applied, b: Applied, len: nat, k: nat)
    requires Room(a, len) && Room(b, len) && KindOf(a) != KindOf(b) && Touches(Own(a), k)
    ensures !Touches(Own(b), k) && !ACTION.Has(k)
  {
    hide Own; hide Fits; hide Owns; hide Room;
    OwnOk(a, len);
    OwnOk(b, len);
    var i: nat :| i < |Own(a)| && Own(a)[i].f.Has(k);
    OwnedFromAction(KindOf(a), Own(a)[i].f);
    forall j | 0 <= j < |Own(b)| ensures !Own(b)[j].f.Has(k) {
      OwnedApart(KindOf(a), Own(a)[i].f, KindOf(b), Own(b)[j].f);
    }
  }

  lemma OwnedFromAction(k: Kind, f: Field)
    requires Owns(k, f)
    ensures Disjoint(f, ACTION)
  {
  }

  /* ---------------------------------------------------------------- order does not matter */

  lemma StepsCommute(s: seq<byte>, a: Applied, b: Applied)
    requires Room(a, |s|) && Room(b, |s|) && KindOf(a) != KindOf(b)
    ensures Step(Step(s, a), b) == Step(Step(s, b), a)
  {
    hide Step; hide Own; hide BitAt; hide Bit; hide OwnBit; hide ActionBit;
    var t, u := Step(Step(s, a), b), Step(Step(s, b), a);
    forall k: nat | k < 8 * |s| ensures BitAt(t, k) <==> BitAt(u, k) {
      StepBit(s, a, k);
      StepBit(Step(s, a), b, k);
      StepBit(s, b, k);
      StepBit(Step(s, b), a, k);
      if Touches(Own(a), k) {
        TouchApart(a, b, |s|, k);
      } else if Touches(Own(b), k) {
        TouchApart(b, a, |s|, k);
      }
    }
    SameBuffer(t, u);
  }

  predicate DistinctKinds(acts: seq<Applied>) {
    forall i, j | 0 <= i < j < |acts| :: KindOf(acts[i]) != KindOf(acts[j])
  }

  predicate AllRoom(acts: seq<Applied>, len: nat) {
    forall i | 0 <= i < |acts| :: Room(acts[i], len)
  }

  lemma AllSnoc(s: seq<byte>, acts: seq<Applied>, a: Applied)
    requires AllRoom(acts, |s|) && Room(a, |s|)
    ensures AllRoom(acts + [a], |s|)
    ensures All(s, acts + [a]) == Step(All(s, acts), a)
  {
    hide Step; hide Room;
    assert (acts + [a])[..|acts|] == acts;
  }

  function Without(acts: seq<Applied>, j: nat): seq<Applied>
    requires j < |acts|
  {
    acts[..j] + acts[j + 1..]
  }

  /** Any action may as well be applied last. */
  lemma {:induction false} MoveToEnd(s: seq<byte>, acts: seq<Applied>, j: nat)
    requires AllRoom(acts, |s|) && DistinctKinds(acts) && j < |acts|
    ensures AllRoom(Without(acts, j), |s|)
    ensures All(s, acts) == Step(All(s, Without(acts, j)), acts[j])
    decreases |acts|
  {
    hide Step; hide Room; hide KindOf;
    var n := |acts| - 1;
    var init, last := acts[..n], acts[n];
    if j == n {
      assert Without(acts, j) == init;
    } else {
      MoveToEnd(s, init, j);
      assert Without(acts, j) == Without(init, j) + [last];
      AllSnoc(s, Without(init, j), last);
      StepsCommute(All(s, Without(init, j)), acts[j], last);
    }
  }

  predicate SameActions(acts: seq<Applied>, bs: seq<Applied>) {
    && (forall i | 0 <= i < |acts| :: acts[i] in bs)
    && (forall i | 0 <= i < |bs| :: bs[i] in acts)
  }

  lemma DropSame(acts: seq<Applied>, bs: seq<Applied>, j: nat)
    requires DistinctKinds(acts) && DistinctKinds(bs) && SameActions(acts, bs)
    requires acts != [] && j < |bs| && bs[j] == acts[|acts| - 1]
    ensures DistinctKinds(Without(bs, j)) && SameActions(acts[..|acts| - 1], Without(bs, j))
  {
    hide KindOf; hide Without; hide DistinctKinds;
    var n, ds := |acts| - 1, Without(bs, j);
    DropDistinct(bs, j);
    forall i | 0 <= i < n ensures acts[i] in ds {
      var k :| 0 <= k < |bs| && bs[k] == acts[i];
      OthersDiffer(acts, i, n);
      StillThere(bs, j, k);
    }
    forall i | 0 <= i < |ds| ensures ds[i] in acts[..n] {
      var k := WasAt(bs, j, i);
      var m :| 0 <= m < |acts| && acts[m] == bs[k];
      OthersDiffer(bs, k, j);
      assert acts[..n][m] == acts[m];
    }
  }

  lemma OthersDiffer(acts: seq<Applied>, i: nat, j: nat)
    requires DistinctKinds(acts) && i < |acts| && j < |acts| && i != j
    ensures acts[i] != acts[j]
  {
    hide KindOf;
    if i < j {
      assert KindOf(acts[i]) != KindOf(acts[j]);
    } else {
      assert KindOf(acts[j]) != KindOf(acts[i]);
    }
  }

  lemma DropDistinct(bs: seq<Applied>, j: nat)
    requires DistinctKinds(bs) && j < |bs|
    ensures DistinctKinds(Without(bs, j))
  {
    hide KindOf;
  }

  lemma StillThere(bs: seq<Applied>, j: nat, k: nat)
    requires j < |bs| && k < |bs| && k != j
    ensures bs[k] in Without(bs, j)
  {
    assert Without(bs, j)[if k < j then k else k - 1] == bs[k];
  }

  lemma WasAt(bs: seq<Applied>, j: nat, i: nat) returns (k: nat)
    requires j < |bs| && i < |Without(bs, j)|
    ensures k < |bs| && k != j && Without(bs, j)[i] == bs[k]
  {
    k := if i < j then i else i + 1;
  }

  /** Whatever order the map yields, the entry comes out the same. */
  lemma {:induction false} AnyOrderSameEntry(s: seq<byte>, acts: seq<Applied>, bs: seq<Applied>)
    requires AllRoom(acts, |s|) && AllRoom(bs, |s|)
    requires DistinctKinds(acts) && DistinctKinds(bs) && SameActions(acts, bs)
    ensures All(s, acts) == All(s, bs)
    decreases |acts|
  {
    hide Step; hide Room; hide DistinctKinds;
    if acts == [] {
      assert |bs| == 0;
    } else {
      var n := |acts| - 1;
      assert acts[n] in bs;
      var j :| 0 <= j < |bs| && bs[j] == acts[n];
      MoveToEnd(s, bs, j);
      DropSame(acts, bs, j);
      PrefixDistinct(acts);
      AnyOrderSameEntry(s, acts[..n], Without(bs, j));
    }
  }

  lemma PrefixDistinct(acts: seq<Applied>)
    requires acts != [] && DistinctKinds(acts)
    ensures DistinctKinds(acts[..|acts| - 1])
  {
  }

  /** A key order of a map: every key once. */
  predicate EnumeratesKeys(order: seq<Kind>, keys: set<Kind>) {
    && (forall i | 0 <= i < |order| :: order[i] in keys)
    && (forall k | k in keys :: k in order)
    && (forall i, j | 0 <= i < j < |order| :: order[i] != order[j])
  }

  /** The actions of a map, in a given key order. */
  function InOrder(m: map<Kind, Applied>, order: seq<Kind>): (acts: seq<Applied>)
    requires forall i | 0 <= i < |order| :: order[i] in m
    ensures |acts| == |order|
  {
    seq(|order|, i requires 0 <= i < |order| => m[order[i]])
  }

  /** For one map of applied actions, any two iteration orders leave the same entry. */
  lemma MapOrderIrrelevant(s: seq<byte>, m: map<Kind, Applied>, order: seq<Kind>, order': seq<Kind>)
    requires forall k | k in m :: KindOf(m[k]) == k && Room(m[k], |s|)
    requires EnumeratesKeys(order, m.Keys) && EnumeratesKeys(order', m.Keys)
    ensures All(s, InOrder(m, order)) == All(s, InOrder(m, order'))
  {
    hide Room; hide KindOf; hide All;
    var acts, bs := InOrder(m, order), InOrder(m, order');
    forall i | 0 <= i < |acts| ensures acts[i] in bs { Listed(m, order', order[i]); }
    forall i | 0 <= i < |bs| ensures bs[i] in acts { Listed(m, order, order'[i]); }
    AnyOrderSameEntry(s, acts, bs);
  }

  lemma Listed(m: map<Kind, Applied>, order: seq<Kind>, k: Kind)
    requires k in m && EnumeratesKeys(order, m.Keys)
    ensures m[k] in InOrder(m, order)
  {
    assert k in order;
    var i :| 0 <= i < |order| && order[i] == k;
    assert InOrder(m, order)[i] == m[k];
  }

  /* ---------------------------------------------------------------- the finished entry */

  predicate SomeBit(acts: seq<Applied>, j: nat) {
    exists i | 0 <= i < |acts| :: Bit(ActionBit(KindOf(acts[i])), j)
  }

  /** The action word is the OR of the bits of the kinds present. */
  lemma {:induction false} ActionWord(s: seq<byte>, acts: seq<Applied>, j: nat)
    requires AllRoom(acts, |s|) && FTE_BYTES <= |s| && j < 16
    ensures Bit(Read(All(s, acts), ACTION), j) <==> Bit(Read(s, ACTION), j) || SomeBit(acts, j)
    decreases |acts|
  {
    hide Bit; hide Step; hide Room; hide ActionBit; hide KindOf; hide FieldValue; hide BitAt;
    FieldBit(s, ACTION.off, ACTION.width, j);
    FieldBit(All(s, acts), ACTION.off, ACTION.width, j);
    if acts != [] {
      var n := |acts| - 1;
      var init := acts[..n];
      ActionWord(s, init, j);
      FieldBit(All(s, init), ACTION.off, ACTION.width, j);
      StepActionBit(All(s, init), acts[n], j);
      assert SomeBit(acts, j) <==> SomeBit(init, j) || Bit(ActionBit(KindOf(acts[n])), j);
    }
  }

  lemma StepActionBit(s: seq<byte>, a: Applied, j: nat)
    requires Room(a, |s|) && j < 16
    ensures BitAt(Step(s, a), ACTION.off + 15 - j) <==>
            BitAt(s, ACTION.off + 15 - j) || Bit(ActionBit(KindOf(a)), j)
  {
    hide Bit; hide Step; hide BitAt; hide Own; hide Fits;
    var k := ACTION.off + 15 - j;
    StepBit(s, a, k);
    OwnOk(a, |s|);
    if Touches(Own(a), k) {
      var i: nat :| i < |Own(a)| && Own(a)[i].f.Has(k);
      OwnedFromAction(KindOf(a), Own(a)[i].f);
    }
  }

  /** A field no action owns, outside the action word. */
  predicate Protected(g: Field) {
    || g.off + g.width <= FLOW_TAG.off
    || (MATCH_VALUE <= g.off && g.off + g.width <= DESTINATION)
  }

  /** Match values, table, group and index are left as configured. */
  lemma {:induction false} ActionsKeep(s: seq<byte>, acts: seq<Applied>, g: Field)
    requires AllRoom(acts, |s|) && FTE_BYTES <= |s| && Protected(g)
    ensures g.off + g.width <= 8 * |s|
    ensures Read(All(s, acts), g) == Read(s, g)
    decreases |acts|
  {
    hide Step; hide Room; hide Read;
    if acts != [] {
      var n := |acts| - 1;
      ActionsKeep(s, acts[..n], g);
      StepKeeps(All(s, acts[..n]), acts[n], g);
    }
  }

  lemma OwnedFromProtected(k: Kind, f: Field, g: Field)
    requires Owns(k, f) && Protected(g)
    ensures Disjoint(f, g) && Disjoint(ACTION, g)
  {
  }

  lemma StepKeeps(s: seq<byte>, a: Applied, g: Field)
    requires Room(a, |s|) && Protected(g)
    ensures Read(Step(s, a), g) == Read(s, g)
  {
    hide Own; hide Put; hide PutAll; hide Get; hide Or; hide FieldValue; hide Fits; hide Owns;
    OwnOk(a, |s|);
    FixedFit(|s|);
    var t := OrAction(s, ActionBit(KindOf(a)));
    forall i | 0 <= i < |Own(a)| ensures Disjoint(Own(a)[i].f, g) {
      OwnedFromProtected(KindOf(a), Own(a)[i].f, g);
    }
    PutAllKeeps(t, Own(a), g);
    if ActionBit(KindOf(a)) != 0 {
      ReadOfOtherPut(s, ACTION, Or(Get(s, ACTION), ActionBit(KindOf(a))), g);
    }
  }

  /** Every field an action owns holds what that action wrote. */
  lemma {:induction false} OwnedFieldsHold(s: seq<byte>, acts: seq<Applied>, i: nat, j: nat)
    requires AllRoom(acts, |s|) && DistinctKinds(acts) && i < |acts| && j < |Own(acts[i])|
    ensures Fits(Own(acts[i])[j].f, |s|)
    ensures Read(All(s, acts), Own(acts[i])[j].f) == Own(acts[i])[j].v % Pow2(Own(acts[i])[j].f.width)
  {
    hide Step; hide Room; hide Own; hide Fits; hide Read; hide Pow2; hide PutAll;
    OwnOk(acts[i], |s|);
    MoveToEnd(s, acts, i);
    StepReads(All(s, Without(acts, i)), acts[i], j);
  }

  lemma StepReads(s: seq<byte>, a: Applied, j: nat)
    requires Room(a, |s|) && j < |Own(a)|
    ensures Fits(Own(a)[j].f, |s|)
    ensures Read(Step(s, a), Own(a)[j].f) == Own(a)[j].v % Pow2(Own(a)[j].f.width)
  {
    hide Own; hide Fits; hide Read; hide Pow2; hide PutAll; hide OrAction;
    OwnOk(a, |s|);
    PutAllReads(OrAction(s, ActionBit(KindOf(a))), Own(a), j);
  }

  lemma {:induction false} TargetAt(ts: seq<Target>, n: nat, i: nat)
    requires i < n <= |ts|
    ensures |TargetWrites(ts, n)| == 2 * n
    ensures TargetWrites(ts, n)[2 * i] == Write(DestId(i), ts[i].id)
    ensures TargetWrites(ts, n)[2 * i + 1] == Write(DestType(i), ts[i].kind)
  {
    if n > 1 {
      if i < n - 1 { TargetAt(ts, n - 1, i); } else { TargetAt(ts, n - 1, 0); }
    }
  }

  /** The destination list reads back in order, with the ids cut to 24 bits and the types to 8. */
  lemma DestinationsDecode(s: seq<byte>, acts: seq<Applied>, f: nat, i: nat)
    requires AllRoom(acts, |s|) && DistinctKinds(acts)
    requires f < |acts| && acts[f].DoFwd? && i < |acts[f].targets|
    ensures Fits(DestId(i), |s|) && Fits(DestType(i), |s|)
    ensures Read(All(s, acts), DestId(i)) == acts[f].targets[i].id % 0x100_0000
    ensures Read(All(s, acts), DestType(i)) == acts[f].targets[i].kind % 0x100
  {
    hide All; hide Fits; hide Read; hide Pow2; hide Room; hide TargetWrites;
    Pow2Values();
    var ts := acts[f].targets;
    TargetAt(ts, |ts|, i);
    assert Own(acts[f])[2 * i] == TargetWrites(ts, |ts|)[2 * i];
    assert Own(acts[f])[2 * i + 1] == TargetWrites(ts, |ts|)[2 * i + 1];
    OwnedFieldsHold(s, acts, f, 2 * i);
    OwnedFieldsHold(s, acts, f, 2 * i + 1);
  }

  lemma DestinationCount(s: seq<byte>, acts: seq<Applied>, f: nat)
    requires AllRoom(acts, |s|) && DistinctKinds(acts) && f < |acts| && acts[f].DoFwd?
    ensures Fits(DEST_LIST_SIZE, |s|)
    ensures Read(All(s, acts), DEST_LIST_SIZE) == |acts[f].targets| % 0x100_0000
  {
    hide All; hide Fits; hide Read; hide Pow2; hide Room; hide TargetWrites;
    Pow2Values();
    OwnedFieldsHold(s, acts, f, |Own(acts[f])| - 1);
  }

  /* ---------------------------------------------------------------- actions as objects */

  /** A forward destination: its type, and its id once it was created. */
  datatype Dest = Dest(kind: nat, id: Option<u32>)

  datatype FlowAction =
    | Modify(obj: MH.ModifyAction)
    | Reformat(isValid: bool, id: u32)
    | Tag(id: u32)
    | Fwd(dests: seq<Dest>)
    | Reparse

  function ActionKind(a: FlowAction): Kind {
    match a
    case Modify(_) => KModify
    case Reformat(_, _) => KReformat
    case Tag(_) => KTag
    case Fwd(_) => KFwd
    case Reparse => KReparse
  }

  predicate AllCreated(dests: seq<Dest>) {
    forall i | 0 <= i < |dests| :: dests[i].id.Some?
  }

  function Targets(dests: seq<Dest>): (ts: seq<Target>)
    requires AllCreated(dests)
    ensures |ts| == |dests|
  {
    seq(|dests|, i requires 0 <= i < |dests| => Target(dests[i].kind, dests[i].id.value))
  }

  /** What applying the action writes, once the objects it names exist. */
  function Resolve(a: FlowAction): (r: Option<Applied>)
    reads if a.Modify? then {a.obj} else {}
    ensures r.Some? ==> KindOf(r.value) == ActionKind(a)
  {
    match a
    case Modify(obj) => if obj.isValid then Some(DoModify(obj.modifyId)) else None
    case Reformat(isValid, id) => if isValid then Some(DoReformat(id)) else None
    case Tag(id) => Some(DoTag(id))
    case Fwd(dests) => if AllCreated(dests) then Some(DoFwd(Targets(dests))) else None
    case Reparse => Some(DoReparse)
  }

  predicate DistinctActions(actions: seq<FlowAction>) {
    forall i, j | 0 <= i < j < |actions| :: ActionKind(actions[i]) != ActionKind(actions[j])
  }

  predicate HasForward(actions: seq<FlowAction>) {
    exists i | 0 <= i < |actions| :: actions[i].Fwd?
  }

  /** Bytes of the entry: room for the destinations of the forward action, if there is one. */
  function AllocBytes(m: map<Kind, FlowAction>): nat {
    EntryBytes(if KFwd in m && m[KFwd].Fwd? then |m[KFwd].dests| else 0)
  }

  /** A map filed under the kind of each action. */
  predicate Filed(m: map<Kind, FlowAction>) {
    forall k | k in m :: ActionKind(m[k]) == k
  }

  /** The action read, ORed and written back, then the action's own fields. */
  method OrInto(buf: array<byte>, bits: nat)
    requires FTE_BYTES <= buf.Length && bits != 0
    modifies buf
    ensures buf[..] == OrAction(old(buf[..]), bits)
  {
    hide Fits; hide Put;
    FixedFit(buf.Length);
    var enabled := Get(buf[..], ACTION);
    Set(buf, ACTION, Or(enabled, bits));
  }

  lemma OneWrite(s: seq<byte>, w: Write)
    requires Fits(w.f, |s|)
    ensures AllFit([w], |s|) && PutAll(s, [w]) == Put(s, w.f, w.v)
  {
    hide Put; hide Fits;
    assert [w][..0] == [];
    assert PutAll(s, [w][..0]) == s;
  }

  /** The destination writes and the action word can be written in either order. */
  lemma OrAfterWrites(s: seq<byte>, ws: seq<Write>, bits: nat)
    requires FTE_BYTES <= |s| && AllFit(ws, |s|)
    requires forall i | 0 <= i < |ws| :: Disjoint(ws[i].f, ACTION)
    ensures OrAction(PutAll(s, ws), bits) == PutAll(OrAction(s, bits), ws)
    decreases |ws|
  {
    hide Put; hide Fits; hide OrAction;
    if ws != [] {
      var n := |ws| - 1;
      OrAfterWrites(s, ws[..n], bits);
      OrAfterPut(PutAll(s, ws[..n]), ws[n].f, ws[n].v, bits);
    }
  }

  lemma OrAfterPut(s: seq<byte>, f: Field, v: nat, bits: nat)
    requires FTE_BYTES <= |s| && Fits(f, |s|) && Disjoint(f, ACTION)
    ensures OrAction(Put(s, f, v), bits) == Put(OrAction(s, bits), f, v)
  {
    hide Put; hide Fits; hide OrAction; hide Bit; hide BitAt;
    var t, u := OrAction(Put(s, f, v), bits), Put(OrAction(s, bits), f, v);
    forall k: nat | k < 8 * |s| ensures BitAt(t, k) <==> BitAt(u, k) {
      OrActionBit(Put(s, f, v), bits, k);
      OrActionBit(s, bits, k);
      PutBit(s, f, v, k);
      PutBit(OrAction(s, bits), f, v, k);
    }
    SameBuffer(t, u);
  }

  /** flow_action_fwd::apply */
  method ApplyFwd(dests: seq<Dest>, buf: array<byte>) returns (st: Status)
    requires EntryBytes(|dests|) <= buf.Length
    modifies buf
    ensures st == if AllCreated(dests) then Ok else ErrInvalidId
    ensures st == Ok ==> buf[..] == Step(old(buf[..]), DoFwd(Targets(dests)))
  {
    hide PutAll; hide Fits; hide Put; hide OrAction;
    ghost var s := buf[..];
    ghost var done: seq<Write> := [];
    assert PutAll(s, []) == s by { PutNothing(s); }
    for i := 0 to |dests|
      invariant AllCreated(dests[..i])
      invariant done == TargetWrites(Targets(dests[..i]), i) && AllFit(done, buf.Length)
      invariant buf[..] == PutAll(s, done)
    {
      if dests[i].id.None? {
        return ErrInvalidId;
      }
      var id := dests[i].id.value;
      TargetFits(i, buf.Length);
      SetNext(buf, DestId(i), id, s, done);
      SetNext(buf, DestType(i), dests[i].kind, s, done + [Write(DestId(i), id)]);
      NextTarget(dests, i);
      done := done + [Write(DestId(i), id)] + [Write(DestType(i), dests[i].kind)];
    }
    assert dests[..|dests|] == dests;
    OrInto(buf, ACTION_FWD_DEST);
    FixedFit(buf.Length);
    Set(buf, DEST_LIST_SIZE, |dests|);
    FwdIsStep(s, Targets(dests));
    return Ok;
  }

  lemma NextTarget(dests: seq<Dest>, i: nat)
    requires i < |dests| && AllCreated(dests[..i]) && dests[i].id.Some?
    ensures AllCreated(dests[..i + 1])
    ensures TargetWrites(Targets(dests[..i + 1]), i + 1) ==
            TargetWrites(Targets(dests[..i]), i)
            + [Write(DestId(i), dests[i].id.value)] + [Write(DestType(i), dests[i].kind)]
  {
    var ts, us := Targets(dests[..i + 1]), Targets(dests[..i]);
    assert ts[..i] == us;
    TargetPrefix(ts, i);
    assert [Write(DestId(i), ts[i].id), Write(DestType(i), ts[i].kind)] ==
           [Write(DestId(i), dests[i].id.value)] + [Write(DestType(i), dests[i].kind)];
  }

  lemma {:induction false} TargetPrefix(ts: seq<Target>, n: nat)
    requires n <= |ts|
    ensures TargetWrites(ts, n) == TargetWrites(ts[..n], n)
  {
    TargetAgree(ts, ts[..n], n);
  }

  lemma {:induction false} TargetAgree(ts: seq<Target>, us: seq<Target>, n: nat)
    requires n <= |ts| && n <= |us| && forall i | 0 <= i < n :: ts[i] == us[i]
    ensures TargetWrites(ts, n) == TargetWrites(us, n)
  {
    if n > 0 { TargetAgree(ts, us, n - 1); }
  }

  lemma FwdIsStep(s: seq<byte>, ts: seq<Target>)
    requires Room(DoFwd(ts), |s|)
    ensures AllFit(TargetWrites(ts, |ts|), |s|) && Fits(DEST_LIST_SIZE, |s|)
    ensures Put(OrAction(PutAll(s, TargetWrites(ts, |ts|)), ACTION_FWD_DEST), DEST_LIST_SIZE, |ts|) ==
            Step(s, DoFwd(ts))
  {
    hide PutAll; hide Fits; hide Put; hide OrAction;
    var ws := TargetWrites(ts, |ts|);
    TargetWritesOk(ts, |ts|, |s|);
    FixedFit(|s|);
    OwnOk(DoFwd(ts), |s|);
    OrAfterWrites(s, ws, ACTION_FWD_DEST);
    PutAllSnoc(OrAction(s, ACTION_FWD_DEST), ws, Write(DEST_LIST_SIZE, |ts|));
  }

  /** Applying the action will succeed. */
  predicate Applicable(a: FlowAction, reply: MH.Reply)
    reads if a.Modify? then {a.obj} else {}
  {
    match a
    case Modify(obj) => obj.isValid || (MH.AllKnown(obj.mods) && reply.Created?)
    case Reformat(isValid, _) => isValid
    case Fwd(dests) => AllCreated(dests)
    case _ => true
  }

  /** apply() of the five action classes. */
  method ApplyAction(a: FlowAction, buf: array<byte>, reply: MH.Reply) returns (st: Status)
    requires EntryBytes(if a.Fwd? then |a.dests| else 0) <= buf.Length
    modifies buf, if a.Modify? then {a.obj} else {}
    ensures st == Ok ==> Resolve(a).Some? && buf[..] == Step(old(buf[..]), Resolve(a).value)
    ensures st == Ok <==> old(Applicable(a, reply))
    ensures a.Reformat? && !a.isValid ==> st == ErrNotApplied
    ensures a.Fwd? && (exists i | 0 <= i < |a.dests| :: a.dests[i].id.None?) ==> st == ErrInvalidId
    ensures a.Modify? && !old(a.obj.isValid) ==>
              st == (if reply.NoMemory? then ErrNoMemory
                     else if exists i | 0 <= i < |a.obj.mods| :: a.obj.mods[i].Unknown? then ErrNoSupport
                     else if reply.Rejected? then ErrCreate else Ok)
    ensures a.Modify? && old(a.obj.isValid) ==> unchanged(a.obj)
  {
    hide PutAll; hide Fits; hide Put; hide OrAction;
    FixedFit(buf.Length);
    ghost var s := buf[..];
    match a {
      case Modify(obj) =>
        st := obj.Ensure(reply);
        if st != Ok {
          return;
        }
        OrInto(buf, ACTION_MOD_HDR);
        Set(buf, MODIFY_HEADER_ID, obj.modifyId);
        OneWrite(OrAction(s, ACTION_MOD_HDR), Write(MODIFY_HEADER_ID, obj.modifyId));
      case Reformat(isValid, id) =>
        if !isValid {
          return ErrNotApplied;
        }
        OrInto(buf, ACTION_PACKET_REFORMAT);
        Set(buf, PACKET_REFORMAT_ID, id);
        OneWrite(OrAction(s, ACTION_PACKET_REFORMAT), Write(PACKET_REFORMAT_ID, id));
        return Ok;
      case Tag(id) =>
        Set(buf, FLOW_TAG, id);
        OneWrite(s, Write(FLOW_TAG, id));
        TagIsStep(s, id);
        return Ok;
      case Fwd(dests) =>
        st := ApplyFwd(dests, buf);
      case Reparse =>
        OrInto(buf, ACTION_REPARSE);
        PutNothing(OrAction(s, ACTION_REPARSE));
        return Ok;
    }
  }

  lemma TagIsStep(s: seq<byte>, id: nat)
    requires Room(DoTag(id), |s|)
    ensures AllFit([Write(FLOW_TAG, id)], |s|)
    ensures Step(s, DoTag(id)) == PutAll(s, [Write(FLOW_TAG, id)])
  {
    hide PutAll; hide Fits; hide Put;
    FixedFit(|s|);
  }

  /* ---------------------------------------------------------------- the configured entry */

  function ConfigWrites(flowIndex: nat, tableType: nat, tableId: nat, groupId: nat): seq<Write> {
    [Write(OPCODE, OP_SET_FLOW_TABLE_ENTRY), Write(FLOW_INDEX, flowIndex),
     Write(TABLE_TYPE, tableType), Write(TABLE_ID, tableId), Write(GROUP_ID, groupId)]
  }

  lemma ConfigOk(flowIndex: nat, tableType: nat, tableId: nat, groupId: nat, len: nat)
    requires FTE_BYTES <= len
    ensures AllFit(ConfigWrites(flowIndex, tableType, tableId, groupId), len)
    ensures PairwiseDisjoint(ConfigWrites(flowIndex, tableType, tableId, groupId))
  {
    hide Fits;
    FixedFit(len);
  }

  /** Where a rule lives: its table's type and id, its group's id, and its index. */
  datatype Place = Place(tableType: nat, tableId: nat, groupId: nat, flowIndex: nat)

  /** The entry before any action: configuration, then the match value. */
  function Configured(len: nat, p: Place, a: FM.MatcherAttr, v: FM.MatchParams): (s: seq<byte>)
    requires FTE_BYTES <= len
    ensures |s| == len
  {
    ConfigOk(p.flowIndex, p.tableType, p.tableId, p.groupId, len);
    FM.ItemsAscending(a, v);
    FM.Apply(PutAll(Zeros(len), ConfigWrites(p.flowIndex, p.tableType, p.tableId, p.groupId)),
             MATCH_VALUE, FM.Items(a, v))
  }

  lemma ConfiguredReads(len: nat, p: Place, a: FM.MatcherAttr, v: FM.MatchParams)
    requires FTE_BYTES <= len
    ensures var s := Configured(len, p, a, v);
            && Read(s, TABLE_ID) == p.tableId % 0x100_0000
            && Read(s, GROUP_ID) == p.groupId % 0x1_0000_0000
            && Read(s, TABLE_TYPE) == p.tableType % 0x100
            && Read(s, FLOW_INDEX) == p.flowIndex % 0x1_0000_0000
            && Read(s, ACTION) == 0 && Read(s, FLOW_TAG) == 0 && Read(s, OPCODE) == 0x936
  {
    hide PutAll; hide Fits; hide Read; hide Pow2; hide FM.Items; hide Zeros;
    var z, ws := Zeros(len), ConfigWrites(p.flowIndex, p.tableType, p.tableId, p.groupId);
    ConfigOk(p.flowIndex, p.tableType, p.tableId, p.groupId, len);
    Pow2Values();
    PutAllReads(z, ws, 0);
    PutAllReads(z, ws, 1);
    PutAllReads(z, ws, 2);
    PutAllReads(z, ws, 3);
    PutAllReads(z, ws, 4);
    PutAllKeeps(z, ws, ACTION);
    PutAllKeeps(z, ws, FLOW_TAG);
    ZeroFields(len);
    var t := PutAll(z, ws);
    FM.ApplyKeeps(t, MATCH_VALUE, a, v, TABLE_ID);
    FM.ApplyKeeps(t, MATCH_VALUE, a, v, GROUP_ID);
    FM.ApplyKeeps(t, MATCH_VALUE, a, v, TABLE_TYPE);
    FM.ApplyKeeps(t, MATCH_VALUE, a, v, FLOW_INDEX);
    FM.ApplyKeeps(t, MATCH_VALUE, a, v, ACTION);
    FM.ApplyKeeps(t, MATCH_VALUE, a, v, FLOW_TAG);
    FM.ApplyKeeps(t, MATCH_VALUE, a, v, OPCODE);
  }

  lemma ZeroFields(len: nat)
    requires FTE_BYTES <= len
    ensures Read(Zeros(len), ACTION) == 0 && Read(Zeros(len), FLOW_TAG) == 0
  {
    ReadOfZeros(len, ACTION);
    ReadOfZeros(len, FLOW_TAG);
  }

  /** The match block of the configured entry is the block the matcher builds on its own. */
  lemma ConfiguredBlock(len: nat, p: Place, a: FM.MatcherAttr, v: FM.MatchParams)
    requires FTE_BYTES <= len
    ensures FM.AllValid(FM.Items(a, v))
    ensures FM.Block(Configured(len, p, a, v), MATCH_VALUE) ==
            FM.Apply(Zeros(FM.PARAM_BYTES), 0, FM.Items(a, v))
  {
    hide PutAll; hide Fits; hide FM.Items; hide FM.Rank; hide FM.Apply;
    FM.ItemsAscending(a, v);
    var ws := ConfigWrites(p.flowIndex, p.tableType, p.tableId, p.groupId);
    ConfigOk(p.flowIndex, p.tableType, p.tableId, p.groupId, len);
    var s := PutAll(Zeros(len), ws);
    FM.ApplyInBlock(s, MATCH_VALUE, FM.Items(a, v));
    FM.WritesLeaveBlock(len, MATCH_VALUE, ws);
  }

  lemma {:induction false} ActionsKeepBlock(s: seq<byte>, acts: seq<Applied>)
    requires AllRoom(acts, |s|) && FTE_BYTES <= |s|
    ensures FM.Block(All(s, acts), MATCH_VALUE) == FM.Block(s, MATCH_VALUE)
  {
    hide Room; hide All; hide BeValue; hide FieldValue;
    var b, c := FM.Block(All(s, acts), MATCH_VALUE), FM.Block(s, MATCH_VALUE);
    forall i | 0 <= i < FM.PARAM_BYTES ensures b[i] == c[i] {
      var o := MATCH_VALUE / 8 + i;
      ActionsKeep(s, acts, Field(8 * o, 8));
      ByteRead(s, o);
      ByteRead(All(s, acts), o);
    }
  }

  lemma ByteRead(s: seq<byte>, o: nat)
    requires o < |s|
    ensures Read(s, Field(8 * o, 8)) == s[o]
  {
    hide FieldValue;
    ReadBytes(s, o, 1);
    assert s[o..o + 1] == [s[o]];
    assert [s[o]][..0] == [];
  }

  /* ---------------------------------------------------------------- what the device makes of it */

  /** An entry as the device reads it: where it goes, and what it does with a packet. */
  datatype EntryView = EntryView(opcode: nat, tableType: nat, tableId: nat, groupId: nat, flowIndex: nat, tag: nat,
                                 forward: Option<seq<Target>>, reformat: Option<nat>, modHeader: Option<nat>,
                                 reparse: bool)

  function DecodeTargets(e: seq<byte>, n: nat): seq<Target>
    requires EntryBytes(n) <= |e|
  {
    seq(n, i requires 0 <= i < n => Target(Read(e, DestType(i)), Read(e, DestId(i))))
  }

  /** Bit 2 of the action word asks for a forward, bit 4 for a reformat, bit 6 for a header
      modification, bit 15 for a reparse. */
  function DecodeEntry(e: seq<byte>): EntryView
    requires FTE_BYTES <= |e|
  {
    var word, n := Read(e, ACTION), Read(e, DEST_LIST_SIZE);
    EntryView(Read(e, OPCODE), Read(e, TABLE_TYPE), Read(e, TABLE_ID), Read(e, GROUP_ID), Read(e, FLOW_INDEX),
              Read(e, FLOW_TAG),
              if Bit(word, 2) then Some(if EntryBytes(n) <= |e| then DecodeTargets(e, n) else []) else None,
              if Bit(word, 4) then Some(Read(e, PACKET_REFORMAT_ID)) else None,
              if Bit(word, 6) then Some(Read(e, MODIFY_HEADER_ID)) else None,
              Bit(word, 15))
  }

  /** No action of the kind is among them. */
  predicate Absent(acts: seq<Applied>, k: Kind) {
    forall i | 0 <= i < |acts| :: KindOf(acts[i]) != k
  }

  lemma KindBits(k: Kind, j: nat)
    ensures Bit(ActionBit(k), j) <==> match k case KFwd => j == 2 case KReformat => j == 4 case KModify => j == 6
                                              case KReparse => j == 15 case KTag => false
  {
    hide Bit; hide Pow2;
    Pow2Values();
    assert Pow2(16) == 2 * Pow2(15) by { HighBit(); }
    match k {
      case KModify => BitOfPower(6, j);
      case KReformat => BitOfPower(4, j);
      case KTag => BitOfZero(j);
      case KFwd => BitOfPower(2, j);
      case KReparse => BitOfPower(15, j);
    }
  }

  lemma HighBit()
    ensures Pow2(16) == 2 * Pow2(15)
  {
  }

  /** The four bits of the action word say which kinds are there. */
  lemma WordSaysKinds(s: seq<byte>, acts: seq<Applied>)
    requires AllRoom(acts, |s|) && FTE_BYTES <= |s| && Read(s, ACTION) == 0
    ensures var word := Read(All(s, acts), ACTION);
            && (Bit(word, 2) <==> !Absent(acts, KFwd)) && (Bit(word, 4) <==> !Absent(acts, KReformat))
            && (Bit(word, 6) <==> !Absent(acts, KModify)) && (Bit(word, 15) <==> !Absent(acts, KReparse))
  {
    hide All; hide Read; hide Room; hide Bit; hide ActionBit;
    OneBitSays(s, acts, 2, KFwd);
    OneBitSays(s, acts, 4, KReformat);
    OneBitSays(s, acts, 6, KModify);
    OneBitSays(s, acts, 15, KReparse);
  }

  lemma OneBitSays(s: seq<byte>, acts: seq<Applied>, j: nat, k: Kind)
    requires AllRoom(acts, |s|) && FTE_BYTES <= |s| && Read(s, ACTION) == 0
    requires (j, k) == (2, KFwd) || (j, k) == (4, KReformat) || (j, k) == (6, KModify) || (j, k) == (15, KReparse)
    ensures Bit(Read(All(s, acts), ACTION), j) <==> !Absent(acts, k)
  {
    hide All; hide Read; hide Room; hide Bit; hide ActionBit;
    ActionWord(s, acts, j);
    BitOfZero(j);
    forall i | 0 <= i < |acts| ensures Bit(ActionBit(KindOf(acts[i])), j) <==> KindOf(acts[i]) == k {
      KindBits(KindOf(acts[i]), j);
    }
  }

  /** A field that only an absent kind owns is left as it was. */
  lemma {:induction false} AbsentKeeps(s: seq<byte>, acts: seq<Applied>, k: Kind, g: Field)
    requires AllRoom(acts, |s|) && FTE_BYTES <= |s| && Absent(acts, k) && Owns(k, g) && Fits(g, |s|)
    ensures Read(All(s, acts), g) == Read(s, g)
    decreases |acts|
  {
    hide Step; hide Room; hide Read; hide Owns; hide Fits;
    if acts != [] {
      var n := |acts| - 1;
      AbsentKeeps(s, acts[..n], k, g);
      StepLeaves(All(s, acts[..n]), acts[n], k, g);
    }
  }

  lemma StepLeaves(s: seq<byte>, a: Applied, k: Kind, g: Field)
    requires Room(a, |s|) && KindOf(a) != k && Owns(k, g) && Fits(g, |s|)
    ensures Read(Step(s, a), g) == Read(s, g)
  {
    hide Own; hide Put; hide PutAll; hide Get; hide Or; hide FieldValue; hide Fits; hide Owns;
    OwnOk(a, |s|);
    FixedFit(|s|);
    OwnedFromAction(k, g);
    var t := OrAction(s, ActionBit(KindOf(a)));
    forall i | 0 <= i < |Own(a)| ensures Disjoint(Own(a)[i].f, g) {
      OwnedApart(KindOf(a), Own(a)[i].f, k, g);
    }
    PutAllKeeps(t, Own(a), g);
    if ActionBit(KindOf(a)) != 0 {
      ReadOfOtherPut(s, ACTION, Or(Get(s, ACTION), ActionBit(KindOf(a))), g);
    }
  }

  /** For distinct kinds in any order: the entry carries the ids of its header modification, its
      reformat and its tag. */
  lemma IdsDecode(s: seq<byte>, acts: seq<Applied>, i: nat)
    requires AllRoom(acts, |s|) && FTE_BYTES <= |s| && DistinctKinds(acts) && i < |acts|
    ensures acts[i].DoModify? ==> Read(All(s, acts), MODIFY_HEADER_ID) == acts[i].id % 0x1_0000_0000
    ensures acts[i].DoReformat? ==> Read(All(s, acts), PACKET_REFORMAT_ID) == acts[i].id % 0x1_0000_0000
    ensures acts[i].DoTag? ==> Read(All(s, acts), FLOW_TAG) == acts[i].id % 0x100_0000
  {
    hide All; hide Read; hide Room; hide Pow2; hide Fits;
    Pow2Values();
    if acts[i].DoModify? || acts[i].DoReformat? || acts[i].DoTag? {
      OwnedFieldsHold(s, acts, i, 0);
    }
  }

  /** Destinations as the entry can hold them. */
  function Cut(ts: seq<Target>): seq<Target> {
    var n := |ts| % 0x100_0000;
    seq(n, i requires 0 <= i < n => Target(ts[i].kind % 0x100, ts[i].id % 0x100_0000))
  }

  lemma TargetsDecode(s: seq<byte>, acts: seq<Applied>, f: nat)
    requires AllRoom(acts, |s|) && FTE_BYTES <= |s| && DistinctKinds(acts) && f < |acts| && acts[f].DoFwd?
    ensures var e := All(s, acts);
            var n := Read(e, DEST_LIST_SIZE);
            EntryBytes(n) <= |e| && DecodeTargets(e, n) == Cut(acts[f].targets)
  {
    hide All; hide Read; hide Fits; hide Pow2;
    DestinationCount(s, acts, f);
    assert Room(acts[f], |s|);
    var e, ts := All(s, acts), acts[f].targets;
    var n := Read(e, DEST_LIST_SIZE);
    forall i | 0 <= i < n ensures DecodeTargets(e, n)[i] == Cut(ts)[i] {
      DestinationsDecode(s, acts, f, i);
    }
  }

  /** Does the view show exactly these actions? */
  predicate Shows(d: EntryView, acts: seq<Applied>) {
    && (forall i | 0 <= i < |acts| ::
          match acts[i]
          case DoModify(id) => d.modHeader == Some(id % 0x1_0000_0000)
          case DoReformat(id) => d.reformat == Some(id % 0x1_0000_0000)
          case DoTag(id) => d.tag == id % 0x100_0000
          case DoFwd(ts) => d.forward == Some(Cut(ts))
          case DoReparse => d.reparse)
    && (Absent(acts, KModify) ==> d.modHeader == None) && (Absent(acts, KReformat) ==> d.reformat == None)
    && (Absent(acts, KTag) ==> d.tag == 0) && (Absent(acts, KFwd) ==> d.forward == None)
    && (Absent(acts, KReparse) ==> !d.reparse)
  }

  /** The entry is one, and names its table, its group and its index. */
  predicate PlacedAt(e: seq<byte>, p: Place)
    requires FTE_BYTES <= |e|
  {
    && Read(e, OPCODE) == 0x936 && Read(e, TABLE_ID) == p.tableId % 0x100_0000
    && Read(e, GROUP_ID) == p.groupId % 0x1_0000_0000 && Read(e, TABLE_TYPE) == p.tableType % 0x100
    && Read(e, FLOW_INDEX) == p.flowIndex % 0x1_0000_0000
  }

  lemma EntryPlaced(len: nat, p: Place, a: FM.MatcherAttr, v: FM.MatchParams, acts: seq<Applied>)
    requires FTE_BYTES <= len && AllRoom(acts, len)
    ensures PlacedAt(All(Configured(len, p, a, v), acts), p)
  {
    hide Room; hide All; hide Configured; hide Read;
    var s := Configured(len, p, a, v);
    ConfiguredReads(len, p, a, v);
    ActionsKeep(s, acts, OPCODE);
    ActionsKeep(s, acts, TABLE_ID);
    ActionsKeep(s, acts, GROUP_ID);
    ActionsKeep(s, acts, TABLE_TYPE);
    ActionsKeep(s, acts, FLOW_INDEX);
  }

  /** What the device reads from the finished entry, for distinct kinds in any order: it is placed where
      the rule was put, and it asks for exactly the actions, with their ids and destinations. */
  lemma EntryRoundTrip(len: nat, p: Place, a: FM.MatcherAttr, v: FM.MatchParams, acts: seq<Applied>)
    requires FTE_BYTES <= len && AllRoom(acts, len) && DistinctKinds(acts)
    ensures var d := DecodeEntry(All(Configured(len, p, a, v), acts));
            && d.opcode == 0x936 && d.tableType == p.tableType % 0x100 && d.tableId == p.tableId % 0x100_0000
            && d.groupId == p.groupId % 0x1_0000_0000 && d.flowIndex == p.flowIndex % 0x1_0000_0000
            && Shows(d, acts)
  {
    hide All; hide Read; hide Configured; hide Bit; hide DecodeTargets; hide Room; hide DistinctKinds; hide Shows;
    hide AllRoom;
    EntryPlaced(len, p, a, v, acts);
    EntryActions(len, p, a, v, acts, 0);
  }

  lemma ActionsShow(s: seq<byte>, acts: seq<Applied>)
    requires FTE_BYTES <= |s| && AllRoom(acts, |s|) && DistinctKinds(acts)
    requires Read(s, ACTION) == 0 && Read(s, FLOW_TAG) == 0
    ensures Shows(DecodeEntry(All(s, acts)), acts)
  {
    hide All; hide Read; hide Bit; hide Cut; hide DecodeTargets; hide DistinctKinds; hide Fits; hide Room;
    var d := DecodeEntry(All(s, acts));
    WordSaysKinds(s, acts);
    forall i | 0 <= i < |acts|
      ensures match acts[i]
              case DoModify(id) => d.modHeader == Some(id % 0x1_0000_0000)
              case DoReformat(id) => d.reformat == Some(id % 0x1_0000_0000)
              case DoTag(id) => d.tag == id % 0x100_0000
              case DoFwd(ts) => d.forward == Some(Cut(ts))
              case DoReparse => d.reparse
    {
      IdsDecode(s, acts, i);
      if acts[i].DoFwd? {
        TargetsDecode(s, acts, i);
      }
    }
    if Absent(acts, KTag) {
      FixedFit(|s|);
      AbsentKeeps(s, acts, KTag, FLOW_TAG);
    }
  }

  /** Its action word has exactly the bits of the kinds, and for distinct kinds the device reads exactly
      these actions. */
  predicate ActsAs(e: seq<byte>, acts: seq<Applied>, j: nat)
    requires FTE_BYTES <= |e|
  {
    && (Bit(Read(e, ACTION), j) <==> SomeBit(acts, j))
    && (DistinctKinds(acts) ==> Shows(DecodeEntry(e), acts))
  }

  /** The entry a rule sends, for any order of its actions: it is placed where the rule was put,
      its match block is the matcher's, its action word has exactly the bits of the kinds, and for
      distinct kinds it asks the device for exactly these actions. */
  lemma EntryMeaning(len: nat, p: Place, a: FM.MatcherAttr, v: FM.MatchParams, acts: seq<Applied>, j: nat)
    requires FTE_BYTES <= len && AllRoom(acts, len) && j < 16
    ensures var e := All(Configured(len, p, a, v), acts);
            PlacedAt(e, p) && ActsAs(e, acts, j) && FM.HoldsBlock(e, MATCH_VALUE, a, v)
  {
    hide Room; hide All; hide Configured; hide Read; hide FM.Items; hide FM.Apply; hide FM.Block; hide SomeBit;
    hide PlacedAt; hide AllRoom; hide ActsAs;
    EntryPlaced(len, p, a, v, acts);
    ConfiguredBlock(len, p, a, v);
    ActionsKeepBlock(Configured(len, p, a, v), acts);
    EntryActions(len, p, a, v, acts, j);
  }

  lemma EntryActions(len: nat, p: Place, a: FM.MatcherAttr, v: FM.MatchParams, acts: seq<Applied>, j: nat)
    requires FTE_BYTES <= len && AllRoom(acts, len) && j < 16
    ensures ActsAs(All(Configured(len, p, a, v), acts), acts, j)
  {
    hide Room; hide All; hide Configured; hide Read; hide SomeBit; hide Shows; hide DecodeEntry; hide DistinctKinds;
    hide Bit;
    var s := Configured(len, p, a, v);
    ConfiguredReads(len, p, a, v);
    ActionWord(s, acts, j);
    BitOfZero(j);
    if DistinctKinds(acts) {
      ActionsShow(s, acts);
    }
  }

  /** A field before the destinations that nothing writes. */
  predicate Untouched(g: Field) {
    && (g.off + g.width <= MATCH_VALUE || (MATCH_VALUE + 8 * FM.PARAM_BYTES <= g.off && g.off + g.width <= DESTINATION))
    && forall h | h in [OPCODE, TABLE_TYPE, TABLE_ID, FLOW_INDEX, GROUP_ID, FLOW_TAG, ACTION, DEST_LIST_SIZE,
                        PACKET_REFORMAT_ID, MODIFY_HEADER_ID] :: Disjoint(h, g)
  }

  /** Nothing else is set in an entry. */
  lemma EntryElseZero(len: nat, p: Place, a: FM.MatcherAttr, v: FM.MatchParams, acts: seq<Applied>, g: Field)
    requires FTE_BYTES <= len && AllRoom(acts, len) && Untouched(g)
    ensures Read(All(Configured(len, p, a, v), acts), g) == 0
  {
    hide PutAll; hide Fits; hide Read; hide Zeros; hide FM.Items; hide All; hide AllRoom;
    var z, ws := Zeros(len), ConfigWrites(p.flowIndex, p.tableType, p.tableId, p.groupId);
    ConfigOk(p.flowIndex, p.tableType, p.tableId, p.groupId, len);
    ReadOfZeros(len, g);
    ConfigApart(p, g);
    PutAllKeeps(z, ws, g);
    FM.ApplyKeeps(PutAll(z, ws), MATCH_VALUE, a, v, g);
    ActionsLeave(Configured(len, p, a, v), acts, g);
  }

  lemma ConfigApart(p: Place, g: Field)
    requires Untouched(g)
    ensures var ws := ConfigWrites(p.flowIndex, p.tableType, p.tableId, p.groupId);
            forall i | 0 <= i < |ws| :: Disjoint(ws[i].f, g)
  {
    hide Disjoint;
    var fs := [OPCODE, TABLE_TYPE, TABLE_ID, FLOW_INDEX, GROUP_ID, FLOW_TAG, ACTION, DEST_LIST_SIZE, PACKET_REFORMAT_ID,
               MODIFY_HEADER_ID];
    assert OPCODE in fs && TABLE_TYPE in fs && TABLE_ID in fs && FLOW_INDEX in fs && GROUP_ID in fs;
  }

  lemma {:induction false} ActionsLeave(s: seq<byte>, acts: seq<Applied>, g: Field)
    requires FTE_BYTES <= |s| && AllRoom(acts, |s|) && Untouched(g)
    ensures Read(All(s, acts), g) == Read(s, g)
    decreases |acts|
  {
    hide Step; hide Room; hide Read; hide Untouched;
    if acts != [] {
      var n := |acts| - 1;
      ActionsLeave(s, acts[..n], g);
      StepSkips(All(s, acts[..n]), acts[n], g);
    }
  }

  lemma StepSkips(s: seq<byte>, a: Applied, g: Field)
    requires Room(a, |s|) && Untouched(g)
    ensures Read(Step(s, a), g) == Read(s, g)
  {
    hide Own; hide Put; hide PutAll; hide Get; hide Or; hide FieldValue; hide Fits; hide Owns; hide Untouched;
    OwnOk(a, |s|);
    FixedFit(|s|);
    var t := OrAction(s, ActionBit(KindOf(a)));
    forall i | 0 <= i < |Own(a)| ensures Disjoint(Own(a)[i].f, g) {
      OwnedElsewhere(KindOf(a), Own(a)[i].f, g);
    }
    ActionElsewhere(g);
    PutAllKeeps(t, Own(a), g);
    if ActionBit(KindOf(a)) != 0 {
      ReadOfOtherPut(s, ACTION, Or(Get(s, ACTION), ActionBit(KindOf(a))), g);
    }
  }

  lemma OwnedElsewhere(k: Kind, f: Field, g: Field)
    requires Owns(k, f) && Untouched(g)
    ensures Disjoint(f, g)
  {
    var fs := [OPCODE, TABLE_TYPE, TABLE_ID, FLOW_INDEX, GROUP_ID, FLOW_TAG, ACTION, DEST_LIST_SIZE, PACKET_REFORMAT_ID,
               MODIFY_HEADER_ID];
    assert FLOW_TAG in fs && DEST_LIST_SIZE in fs && PACKET_REFORMAT_ID in fs && MODIFY_HEADER_ID in fs;
  }

  lemma ActionElsewhere(g: Field)
    requires Untouched(g)
    ensures Disjoint(ACTION, g) && g.off + g.width <= 8 * FTE_BYTES
  {
    var fs := [OPCODE, TABLE_TYPE, TABLE_ID, FLOW_INDEX, GROUP_ID, FLOW_TAG, ACTION, DEST_LIST_SIZE, PACKET_REFORMAT_ID,
               MODIFY_HEADER_ID];
    assert ACTION in fs;
  }

  /** The same of the action objects of a rule, filed in a map. */
  ghost predicate ShowsObjects(d: EntryView, m: map<Kind, FlowAction>)
    reads if KModify in m && m[KModify].Modify? then {m[KModify].obj} else {}
  {
    && d.modHeader == (if KModify in m && m[KModify].Modify? then Some(m[KModify].obj.modifyId as nat) else None)
    && d.reformat == (if KReformat in m && m[KReformat].Reformat? then Some(m[KReformat].id as nat) else None)
    && d.tag == (if KTag in m && m[KTag].Tag? then m[KTag].id % 0x100_0000 else 0)
    && (d.reparse <==> KReparse in m)
    && (d.forward.Some? <==> KFwd in m)
    && (KFwd in m && m[KFwd].Fwd? ==> ShowsDests(d.forward, m[KFwd].dests))
  }

  /** Destination by destination: its type and the id it was created with. */
  predicate ShowsDests(forward: Option<seq<Target>>, dests: seq<Dest>) {
    && forward.Some? && |forward.value| == |dests| % 0x100_0000
    && forall i | 0 <= i < |forward.value| ::
         && dests[i].id.Some? && forward.value[i].id == dests[i].id.value % 0x100_0000
         && forward.value[i].kind == dests[i].kind % 0x100
  }

  lemma ObjectsShow(d: EntryView, m: map<Kind, FlowAction>, order: seq<Kind>, acts: seq<Applied>)
    requires Filed(m) && EnumeratesKeys(order, m.Keys) && |acts| == |order|
    requires forall i | 0 <= i < |order| :: Resolve(m[order[i]]) == Some(acts[i])
    requires Shows(d, acts)
    ensures ShowsObjects(d, m)
  {
    hide Cut;
    forall i | 0 <= i < |order| ensures KindOf(acts[i]) == order[i] {
      assert Resolve(m[order[i]]) == Some(acts[i]);
    }
    KindShown(d, m, order, acts, KModify);
    KindShown(d, m, order, acts, KReformat);
    KindShown(d, m, order, acts, KTag);
    KindShown(d, m, order, acts, KReparse);
    KindShown(d, m, order, acts, KFwd);
    if KFwd in m {
      CutShows(m[KFwd].dests);
    }
  }

  lemma CutShows(dests: seq<Dest>)
    ensures AllCreated(dests) ==> ShowsDests(Some(Cut(Targets(dests))), dests)
  {
  }

  lemma KindShown(d: EntryView, m: map<Kind, FlowAction>, order: seq<Kind>, acts: seq<Applied>, k: Kind)
    requires Filed(m) && EnumeratesKeys(order, m.Keys) && |acts| == |order|
    requires forall i | 0 <= i < |order| :: Resolve(m[order[i]]) == Some(acts[i]) && KindOf(acts[i]) == order[i]
    requires Shows(d, acts)
    ensures k !in m ==> Absent(acts, k)
    ensures k in m ==>
              && Resolve(m[k]).Some?
              && match Resolve(m[k]).value
                 case DoModify(id) => d.modHeader == Some(id % 0x1_0000_0000)
                 case DoReformat(id) => d.reformat == Some(id % 0x1_0000_0000)
                 case DoTag(id) => d.tag == id % 0x100_0000
                 case DoFwd(ts) => d.forward == Some(Cut(ts))
                 case DoReparse => d.reparse
  {
    hide Cut; hide Resolve; hide KindOf;
    if k in m {
      var i :| 0 <= i < |order| && order[i] == k;
      assert Resolve(m[order[i]]) == Some(acts[i]);
    }
  }

  /* ---------------------------------------------------------------- flow_rule_ex */

  /** flow_rule_ex::verify_flow_actions; inserting under a kind already present does nothing. */
  method VerifyActions(actions: seq<FlowAction>) returns (ok: bool, m: map<Kind, FlowAction>)
    ensures ok <==> actions != [] && DistinctActions(actions) && HasForward(actions)
    ensures Filed(m)
    ensures ok ==> |m| == |actions|
    ensures ok ==> forall i | 0 <= i < |actions| ::
                     ActionKind(actions[i]) in m && m[ActionKind(actions[i])] == actions[i]
  {
    hide Inserted; hide ActionKind;
    m := map[];
    NothingInserted(actions);
    if actions == [] {
      return false, m;
    }
    for i := 0 to |actions|
      invariant Inserted(actions, i, m)
    {
      var k := ActionKind(actions[i]);
      InsertStep(actions, i, m);
      if k !in m {
        m := m[k := actions[i]];
      }
    }
    AllInserted(actions, m);
    if |m| != |actions| {
      return false, m;
    }
    if KFwd !in m {
      return false, m;
    }
    return true, m;
  }

  /** The map after the first `n` actions were inserted. */
  predicate Inserted(actions: seq<FlowAction>, n: nat, m: map<Kind, FlowAction>) {
    && n <= |actions| && Filed(m) && |m| <= n
    && (forall j | 0 <= j < n :: ActionKind(actions[j]) in m)
    && (forall k | k in m :: m[k] in actions[..n])
    && (|m| == n <==> DistinctUpTo(actions, n))
    && (|m| == n ==> forall j | 0 <= j < n :: m[ActionKind(actions[j])] == actions[j])
  }

  lemma NothingInserted(actions: seq<FlowAction>)
    ensures Inserted(actions, 0, map[])
  {
  }

  lemma InsertStep(actions: seq<FlowAction>, i: nat, m: map<Kind, FlowAction>)
    requires i < |actions| && Inserted(actions, i, m)
    ensures var k := ActionKind(actions[i]);
            Inserted(actions, i + 1, if k in m then m else m[k := actions[i]])
  {
    hide Inserted;
    if ActionKind(actions[i]) in m {
      InsertKnown(actions, i, m);
    } else {
      InsertNew(actions, i, m);
    }
  }

  lemma InsertKnown(actions: seq<FlowAction>, i: nat, m: map<Kind, FlowAction>)
    requires i < |actions| && Inserted(actions, i, m) && ActionKind(actions[i]) in m
    ensures Inserted(actions, i + 1, m)
  {
    hide ActionKind; hide DistinctUpTo;
    var k := ActionKind(actions[i]);
    assert actions[..i + 1] == actions[..i] + [actions[i]];
    assert m[k] in actions[..i];
    RepeatedKind(actions, i, m[k]);
  }

  lemma InsertNew(actions: seq<FlowAction>, i: nat, m: map<Kind, FlowAction>)
    requires i < |actions| && Inserted(actions, i, m) && ActionKind(actions[i]) !in m
    ensures Inserted(actions, i + 1, m[ActionKind(actions[i]) := actions[i]])
  {
    hide ActionKind; hide DistinctUpTo;
    var k := ActionKind(actions[i]);
    DistinctNext(actions, i);
    assert |m[k := actions[i]]| == |m| + 1;
    ValuesInserted(actions, i, m, m[k := actions[i]], k);
  }

  lemma ValuesInserted(actions: seq<FlowAction>, i: nat, m: map<Kind, FlowAction>, m': map<Kind, FlowAction>, k: Kind)
    requires i < |actions| && m' == m[k := actions[i]] && forall x | x in m :: m[x] in actions[..i]
    ensures forall x | x in m' :: m'[x] in actions[..i + 1]
  {
    assert actions[..i + 1] == actions[..i] + [actions[i]];
  }

  lemma AllInserted(actions: seq<FlowAction>, m: map<Kind, FlowAction>)
    requires Inserted(actions, |actions|, m)
    ensures Filed(m) && (|m| == |actions| <==> DistinctActions(actions))
    ensures KFwd in m <==> HasForward(actions)
    ensures |m| == |actions| ==>
              forall j | 0 <= j < |actions| :: ActionKind(actions[j]) in m && m[ActionKind(actions[j])] == actions[j]
  {
    hide ActionKind;
    assert actions[..|actions|] == actions;
    ForwardKey(actions, m);
  }

  predicate DistinctUpTo(actions: seq<FlowAction>, n: nat)
    requires n <= |actions|
  {
    forall i, j | 0 <= i < j < n :: ActionKind(actions[i]) != ActionKind(actions[j])
  }

  lemma DistinctNext(actions: seq<FlowAction>, i: nat)
    requires i < |actions| && forall j | 0 <= j < i :: ActionKind(actions[j]) != ActionKind(actions[i])
    ensures DistinctUpTo(actions, i + 1) <==> DistinctUpTo(actions, i)
  {
    hide ActionKind;
  }

  lemma RepeatedKind(actions: seq<FlowAction>, i: nat, a: FlowAction)
    requires i < |actions| && a in actions[..i] && ActionKind(a) == ActionKind(actions[i])
    ensures !DistinctUpTo(actions, i + 1)
  {
    hide ActionKind;
    var j :| 0 <= j < i && actions[j] == a;
    assert ActionKind(actions[j]) == ActionKind(actions[i]);
  }

  lemma ForwardKey(actions: seq<FlowAction>, m: map<Kind, FlowAction>)
    requires forall j | 0 <= j < |actions| :: ActionKind(actions[j]) in m
    requires forall k | k in m :: m[k] in actions
    requires Filed(m)
    ensures KFwd in m <==> HasForward(actions)
  {
    if KFwd in m {
      assert m[KFwd] in actions && ActionKind(m[KFwd]) == KFwd;
      var j :| 0 <= j < |actions| && actions[j] == m[KFwd];
      assert actions[j].Fwd?;
    }
    if HasForward(actions) {
      var j :| 0 <= j < |actions| && actions[j].Fwd?;
      assert ActionKind(actions[j]) == KFwd;
    }
  }

  /** How many destinations the actions forward to. */
  function Destinations(m: map<Kind, FlowAction>): nat {
    if KFwd in m && m[KFwd].Fwd? then |m[KFwd].dests| else 0
  }

  /** Everything the actions need is there or can be made: the reformat object, every destination, and
      the header modification, which is made on the way. */
  ghost predicate Ready(m: map<Kind, FlowAction>, reply: MH.Reply)
    reads if KModify in m && m[KModify].Modify? then {m[KModify].obj} else {}
  {
    && (KReformat in m && m[KReformat].Reformat? ==> m[KReformat].isValid)
    && (KFwd in m && m[KFwd].Fwd? ==> forall i | 0 <= i < |m[KFwd].dests| :: m[KFwd].dests[i].id.Some?)
    && (KModify in m && m[KModify].Modify? ==>
          || m[KModify].obj.isValid
          || (reply.Created? && forall i | 0 <= i < |m[KModify].obj.mods| :: !m[KModify].obj.mods[i].Unknown?))
  }

  lemma ReadyExactly(m: map<Kind, FlowAction>, reply: MH.Reply)
    requires Filed(m)
    ensures Ready(m, reply) <==> forall k | k in m :: Applicable(m[k], reply)
  {
    if forall k | k in m :: Applicable(m[k], reply) {
      if KReformat in m { assert Applicable(m[KReformat], reply); }
      if KFwd in m { assert Applicable(m[KFwd], reply); }
      if KModify in m { assert Applicable(m[KModify], reply); }
    }
    if Ready(m, reply) {
      forall k | k in m ensures Applicable(m[k], reply) {
        assert ActionKind(m[k]) == k;
      }
    }
  }

  lemma SentShows(e: seq<byte>, m: map<Kind, FlowAction>, order: seq<Kind>, acts: seq<Applied>, p: Place,
                  a: FM.MatcherAttr, v: FM.MatchParams)
    requires Filed(m) && EnumeratesKeys(order, m.Keys) && |acts| == |order|
    requires forall i | 0 <= i < |order| :: Resolve(m[order[i]]) == Some(acts[i])
    requires AllRoom(acts, AllocBytes(m)) && e == All(Configured(AllocBytes(m), p, a, v), acts)
    requires p.flowIndex < 0x1_0000_0000
    ensures |e| == 832 + 8 * Destinations(m)
    ensures var d := DecodeEntry(e);
            && ShowsObjects(d, m) && d.opcode == 0x936 && d.tableType == p.tableType % 0x100
            && d.tableId == p.tableId % 0x100_0000 && d.groupId == p.groupId % 0x1_0000_0000
            && d.flowIndex == p.flowIndex
  {
    hide All; hide AllRoom; hide Configured; hide DecodeEntry; hide Shows; hide ShowsObjects;
    FiledDistinct(m, order, acts);
    EntryRoundTrip(AllocBytes(m), p, a, v, acts);
    ObjectsShow(DecodeEntry(e), m, order, acts);
  }

  lemma FiledDistinct(m: map<Kind, FlowAction>, order: seq<Kind>, acts: seq<Applied>)
    requires Filed(m) && EnumeratesKeys(order, m.Keys) && |acts| == |order|
    requires forall i | 0 <= i < |order| :: Resolve(m[order[i]]) == Some(acts[i])
    ensures DistinctKinds(acts)
  {
    forall i | 0 <= i < |order| ensures KindOf(acts[i]) == order[i] {
      assert Resolve(m[order[i]]) == Some(acts[i]);
    }
  }

  class Rule {
    const matchValue: FM.MatchParams
    const flowIndex: u32
    const matcher: FM.Matcher
    const actions: map<Kind, FlowAction>
    const validActions: bool
    var isInitialized: bool

    constructor (flowIndex: u32, matchValue: FM.MatchParams, matcher: FM.Matcher, actions: seq<FlowAction>)
      ensures this.flowIndex == flowIndex && this.matchValue == matchValue && this.matcher == matcher
      ensures validActions <==> actions != [] && DistinctActions(actions) && HasForward(actions)
      ensures Filed(this.actions) && !isInitialized
      ensures validActions ==>
                forall i | 0 <= i < |actions| ::
                  ActionKind(actions[i]) in this.actions && this.actions[ActionKind(actions[i])] == actions[i]
    {
      this.flowIndex, this.matchValue, this.matcher := flowIndex, matchValue, matcher;
      isInitialized := false;
      var ok, m := VerifyActions(actions);
      validActions, this.actions := ok, m;
    }

    /** The action object a rule may create on the device while it is applied. */
    ghost function ModifyObject(): set<object> {
      if KModify in actions && actions[KModify].Modify? then {actions[KModify].obj} else {}
    }

    /** flow_rule_ex_prm::create. `table` and `group` are what the two locked objects answer,
        `order` is the order the action map yields. */
    method Create(table: Option<(nat, nat)>, group: Option<nat>, order: seq<Kind>,
                  modifyReply: MH.Reply, reply: MH.Reply)
      returns (st: Status, sent: Option<seq<byte>>, ghost acts: seq<Applied>)
      requires Filed(actions) && EnumeratesKeys(order, actions.Keys)
      modifies this`isInitialized, ModifyObject()
      ensures sent.Some? <==>
              && validActions && !reply.NoMemory? && table.Some? && group.Some?
              && FM.ApplyStatus(matcher.attr, matchValue) == Ok
              && forall k | k in actions :: old(Applicable(actions[k], modifyReply))
      ensures sent.Some? ==>
                && |acts| == |order|
                && (forall i | 0 <= i < |order| :: Resolve(actions[order[i]]) == Some(acts[i]))
                && AllRoom(acts, AllocBytes(actions))
                && sent.value == All(Configured(AllocBytes(actions),
                                                Place(table.value.0, table.value.1, group.value, flowIndex),
                                                matcher.attr, matchValue), acts)
      ensures sent.Some? <==>
              && validActions && !reply.NoMemory? && table.Some? && group.Some?
              && FM.ApplyStatus(matcher.attr, matchValue) == Ok && old(Ready(actions, modifyReply))
      ensures sent.Some? ==>
                && |sent.value| == 832 + 8 * Destinations(actions)
                && var d := DecodeEntry(sent.value);
                   && ShowsObjects(d, actions) && d.opcode == 0x936 && d.tableType == table.value.0 % 0x100
                   && d.tableId == table.value.1 % 0x100_0000 && d.groupId == group.value % 0x1_0000_0000
                   && d.flowIndex == flowIndex
      ensures st == Ok <==> sent.Some? && reply.Created?
      ensures sent.Some? && reply.Rejected? ==> st == ErrCreate
      ensures !validActions ==> st == ErrInvalidParam
      ensures validActions && reply.NoMemory? ==> st == ErrNoMemory
      ensures validActions && !reply.NoMemory? && (table.None? || group.None?) ==> st == ErrNotApplied
      ensures validActions && !reply.NoMemory? && table.Some? && group.Some? ==>
                FM.ApplyStatus(matcher.attr, matchValue) != Ok ==> st == FM.ApplyStatus(matcher.attr, matchValue)
      ensures isInitialized == (old(isInitialized) || st == Ok)
    {
      hide All; hide AllRoom; hide Configured; hide Resolve; hide FM.ApplyStatus; hide Applicable; hide DecodeEntry;
      hide ShowsObjects; hide Ready;
      acts := [];
      ReadyExactly(actions, modifyReply);
      if !validActions {
        return ErrInvalidParam, None, acts;
      }
      if reply.NoMemory? {
        return ErrNoMemory, None, acts;
      }
      var buf := new byte[AllocBytes(actions)](_ => 0);
      if table.None? {
        return ErrNotApplied, None, acts;
      }
      if group.None? {
        return ErrNotApplied, None, acts;
      }
      assert buf[..] == Zeros(AllocBytes(actions));
      st, acts := Fill(buf, table.value, group.value, order, modifyReply);
      if st != Ok {
        return st, None, acts;
      }
      sent := Some(buf[..]);
      SentShows(buf[..], actions, order, acts, Place(table.value.0, table.value.1, group.value, flowIndex),
                matcher.attr, matchValue);
      if reply.Rejected? {
        return ErrCreate, sent, acts;
      }
      isInitialized := true;
      return Ok, sent, acts;
    }

    /** The part of create() that writes the entry: configuration, match value, actions. */
    method Fill(buf: array<byte>, table: (nat, nat), group: nat, order: seq<Kind>, modifyReply: MH.Reply)
      returns (st: Status, ghost acts: seq<Applied>)
      requires Filed(actions) && EnumeratesKeys(order, actions.Keys)
      requires buf.Length == AllocBytes(actions) && buf[..] == Zeros(buf.Length)
      modifies buf, ModifyObject()
      ensures st == Ok <==>
              && FM.ApplyStatus(matcher.attr, matchValue) == Ok
              && forall k | k in actions :: old(Applicable(actions[k], modifyReply))
      ensures FM.ApplyStatus(matcher.attr, matchValue) != Ok ==> st == FM.ApplyStatus(matcher.attr, matchValue)
      ensures st == Ok ==>
                && |acts| == |order|
                && (forall i | 0 <= i < |order| :: Resolve(actions[order[i]]) == Some(acts[i]))
                && AllRoom(acts, AllocBytes(actions))
                && buf[..] == All(Configured(AllocBytes(actions), Place(table.0, table.1, group, flowIndex),
                                             matcher.attr, matchValue), acts)
    {
      hide All; hide AllRoom; hide FM.Apply; hide FM.Items; hide PutAll; hide Resolve; hide FM.ApplyStatus;
      hide Applicable;
      acts := [];
      Configure(buf, table.0, table.1, group);
      st := matcher.ApplyTo(buf, MATCH_VALUE, matchValue);
      if st != Ok {
        return;
      }
      st, acts := ApplyAll(buf, order, modifyReply);
    }

    /** The loop of create() over the action map. */
    method ApplyAll(buf: array<byte>, order: seq<Kind>, reply: MH.Reply)
      returns (st: Status, ghost acts: seq<Applied>)
      requires Filed(actions) && EnumeratesKeys(order, actions.Keys) && buf.Length == AllocBytes(actions)
      modifies buf, ModifyObject()
      ensures st == Ok <==> forall k | k in actions :: old(Applicable(actions[k], reply))
      ensures st == Ok ==>
                && |acts| == |order| && AllRoom(acts, buf.Length)
                && (forall i | 0 <= i < |order| :: Resolve(actions[order[i]]) == Some(acts[i]))
                && buf[..] == All(old(buf[..]), acts)
    {
      hide All; hide Step; hide Room; hide Applicable;
      ghost var s := buf[..];
      acts := [];
      AllNone(s);
      for i := 0 to |order|
        invariant |acts| == i && AllRoom(acts, buf.Length)
        invariant forall j | 0 <= j < i :: Resolve(actions[order[j]]) == Some(acts[j])
        invariant buf[..] == All(s, acts)
        invariant forall j | 0 <= j < i :: old(Applicable(actions[order[j]], reply))
        invariant forall j | i <= j < |order| && actions[order[j]].Modify? :: unchanged(actions[order[j]].obj)
      {
        var a := actions[order[i]];
        RoomFor(actions, order[i]);
        st := ApplyAction(a, buf, reply);
        if st != Ok {
          return;
        }
        RoomOf(actions, order[i]);
        AllSnoc(s, acts, Resolve(a).value);
        acts := acts + [Resolve(a).value];
      }
      st := Ok;
    }

    /** flow_rule_ex_prm::config_flow_rule on a zeroed buffer */
    method Configure(buf: array<byte>, tableType: nat, tableId: nat, groupId: nat)
      requires FTE_BYTES <= buf.Length && buf[..] == Zeros(buf.Length)
      modifies buf
      ensures AllFit(ConfigWrites(flowIndex, tableType, tableId, groupId), buf.Length)
      ensures buf[..] == PutAll(Zeros(buf.Length), ConfigWrites(flowIndex, tableType, tableId, groupId))
    {
      hide PutAll; hide Fits;
      ghost var z, ws := Zeros(buf.Length), ConfigWrites(flowIndex, tableType, tableId, groupId);
      PutNothing(z);
      FixedFit(buf.Length);
      SetNext(buf, OPCODE, OP_SET_FLOW_TABLE_ENTRY, z, []);
      SetNext(buf, FLOW_INDEX, flowIndex, z, [] + [ws[0]]);
      SetNext(buf, TABLE_TYPE, tableType, z, [] + [ws[0]] + [ws[1]]);
      SetNext(buf, TABLE_ID, tableId, z, [] + [ws[0]] + [ws[1]] + [ws[2]]);
      SetNext(buf, GROUP_ID, groupId, z, [] + [ws[0]] + [ws[1]] + [ws[2]] + [ws[3]]);
      assert [] + [ws[0]] + [ws[1]] + [ws[2]] + [ws[3]] + [ws[4]] == ws;
    }
  }

  lemma AllNone(s: seq<byte>)
    ensures All(s, []) == s
  {
  }

  lemma RoomFor(m: map<Kind, FlowAction>, k: Kind)
    requires Filed(m) && k in m
    ensures EntryBytes(if m[k].Fwd? then |m[k].dests| else 0) <= AllocBytes(m)
  {
  }

  lemma RoomOf(m: map<Kind, FlowAction>, k: Kind)
    requires Filed(m) && k in m && Resolve(m[k]).Some?
    ensures Room(Resolve(m[k]).value, AllocBytes(m))
  {
  }
}
