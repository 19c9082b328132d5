/** Transport interface receive objects and their attribute cache. */
module TirCache {
  import opened Bits
  import opened Common
  import opened CommandBuffer

  type u1 = x: int | 0 <= x < 2

  const ATTR_LRO := 0x2
  const ATTR_INLINE_RQN := 0x4
  const ATTR_TRANSPORT_DOMAIN := 0x8
  const ATTR_TLS := 0x10
  const ATTR_ZERO_COPY := 0x20
  const ATTR_CRC := 0x40
  const ALL_ATTRS := 0x7E

  datatype Lro = Lro(timeout: u16, enableMask: u4, maxMsgSz: u8)
  datatype Attr = Attr(flags: u32, lro: Lro, inlineRqn: u24, transportDomain: u24, tlsEn: u1,
                       zerocopyEn: u1, crcEn: u1, tagBufferTableId: u32)

  const ZERO := Attr(0, Lro(0, 0, 0), 0, 0, 0, 0, 0, 0)

  predicate Has(a: Attr, flag: nat) {
    And(a.flags, flag) != 0
  }

  /* ---------------------------------------------------------------- tirc layout */

  const TLS_EN := Field(0x24, 1)
  const ZEROCOPY_EN := Field(0x25, 1)
  const CRC_EN := Field(0x26, 1)
  const LRO_TIMEOUT := Field(0x84, 16)
  const LRO_ENABLE := Field(0x94, 4)
  const LRO_MAX := Field(0x98, 8)
  const INLINE_RQN := Field(0xe8, 24)
  const SELF_LB_BLOCK := Field(0x126, 2)
  const TRANSPORT_DOMAIN := Field(0x128, 24)
  const TAG_TABLE := Field(0x2c0, 32)
  const TIRC_BYTES := 240

  /** create_tir_in and modify_tir_in carry a context at the same offset. */
  const TIR_CONTEXT := 0x100
  const COMMAND_BYTES := 272
  const OPCODE := Field(0x0, 16)
  const OP_CREATE_TIR := 0x900
  const OP_MODIFY_TIR := 0x901
  const TIRN := Field(0x48, 24)
  const MASK_LRO := Field(0xbf, 1)

  lemma FieldsFit(base: nat, n: nat)
    requires (base == 0 && n >= TIRC_BYTES) || (base == TIR_CONTEXT && n >= COMMAND_BYTES)
    ensures Fits(TLS_EN.At(base), n) && Fits(ZEROCOPY_EN.At(base), n) && Fits(CRC_EN.At(base), n)
    ensures Fits(LRO_TIMEOUT.At(base), n) && Fits(LRO_ENABLE.At(base), n) && Fits(LRO_MAX.At(base), n)
    ensures Fits(INLINE_RQN.At(base), n) && Fits(SELF_LB_BLOCK.At(base), n)
    ensures Fits(TRANSPORT_DOMAIN.At(base), n) && Fits(TAG_TABLE.At(base), n)
  {
  }

  /* ---------------------------------------------------------------- what a context reports */

  lemma ReportBounds(s: seq<byte>, base: nat)
    requires base + 8 * TIRC_BYTES <= 8 * |s|
    ensures Read(s, LRO_TIMEOUT.At(base)) < 0x1_0000 && Read(s, LRO_ENABLE.At(base)) < 0x10
    ensures Read(s, LRO_MAX.At(base)) < 0x100
    ensures Read(s, INLINE_RQN.At(base)) < 0x100_0000 && Read(s, TRANSPORT_DOMAIN.At(base)) < 0x100_0000
    ensures Read(s, TLS_EN.At(base)) < 2 && Read(s, ZEROCOPY_EN.At(base)) < 2 && Read(s, CRC_EN.At(base)) < 2
    ensures Read(s, TAG_TABLE.At(base)) < 0x1_0000_0000
  {
    hide Read; hide Pow2;
    Pow2Values();
    ReadBound(s, LRO_TIMEOUT.At(base));
    ReadBound(s, LRO_ENABLE.At(base));
    ReadBound(s, LRO_MAX.At(base));
    ReadBound(s, INLINE_RQN.At(base));
    ReadBound(s, TRANSPORT_DOMAIN.At(base));
    ReadBound(s, TLS_EN.At(base));
    ReadBound(s, ZEROCOPY_EN.At(base));
    ReadBound(s, CRC_EN.At(base));
    ReadBound(s, TAG_TABLE.At(base));
  }

  /** The attributes a context holds at bit `base`; a query reports them all. */
  function Report(s: seq<byte>, base: nat): Attr
    requires base + 8 * TIRC_BYTES <= 8 * |s|
  {
    ReportBounds(s, base);
    Attr(ALL_ATTRS, Lro(Read(s, LRO_TIMEOUT.At(base)), Read(s, LRO_ENABLE.At(base)), Read(s, LRO_MAX.At(base))),
         Read(s, INLINE_RQN.At(base)), Read(s, TRANSPORT_DOMAIN.At(base)), Read(s, TLS_EN.At(base)),
         Read(s, ZEROCOPY_EN.At(base)), Read(s, CRC_EN.At(base)), Read(s, TAG_TABLE.At(base)))
  }

  const REPORTED := [LRO_TIMEOUT, LRO_ENABLE, LRO_MAX, INLINE_RQN, TRANSPORT_DOMAIN, TLS_EN, ZEROCOPY_EN, CRC_EN,
                     TAG_TABLE]

  /** The attributes in the order of the fields they are reported in. */
  function Values(a: Attr): seq<nat> {
    [a.lro.timeout, a.lro.enableMask, a.lro.maxMsgSz, a.inlineRqn, a.transportDomain, a.tlsEn, a.zerocopyEn,
     a.crcEn, a.tagBufferTableId]
  }

  /** The writes account for the change of a field: one of them gives its new value, or none of
      them touches it and it keeps its old one. */
  predicate Explained(ws: seq<Write>, f: Field, before: nat, after: nat) {
    || (before == after && forall j | 0 <= j < |ws| :: Disjoint(ws[j].f, f))
    || exists j | 0 <= j < |ws| :: ws[j] == Write(f, after) && after < Pow2(f.width)
  }

  /** What is reported after a group of writes that accounts for every reported field. */
  lemma GroupReports(s: seq<byte>, base: nat, ws: seq<Write>, after: Attr)
    requires base + 8 * TIRC_BYTES <= 8 * |s| && AllFit(ws, |s|) && PairwiseDisjoint(ws)
    requires after.flags == ALL_ATTRS
    requires forall i | 0 <= i < 9 ::
               Explained(ws, REPORTED[i].At(base), Values(Report(s, base))[i], Values(after)[i])
    ensures Report(PutAll(s, ws), base) == after
  {
    hide PutAll; hide Read; hide Pow2; hide Fits;
    forall i | 0 <= i < 9 ensures Values(Report(PutAll(s, ws), base))[i] == Values(after)[i] {
      var f := REPORTED[i].At(base);
      ReportedAt(s, base, i);
      ReportedAt(PutAll(s, ws), base, i);
      assert Explained(ws, f, Values(Report(s, base))[i], Values(after)[i]);
      if forall j | 0 <= j < |ws| :: Disjoint(ws[j].f, f) {
        PutAllKeeps(s, ws, f);
      }
      if j :| 0 <= j < |ws| && ws[j] == Write(f, Values(after)[i]) && Values(after)[i] < Pow2(f.width) {
        PutAllReads(s, ws, j);
        ModSmall(Values(after)[i], Pow2(f.width));
      }
    }
    SameAttr(Report(PutAll(s, ws), base), after);
  }

  lemma ReportedAt(s: seq<byte>, base: nat, i: nat)
    requires base + 8 * TIRC_BYTES <= 8 * |s| && i < 9
    ensures REPORTED[i].At(base).off + REPORTED[i].At(base).width <= 8 * |s|
    ensures Values(Report(s, base))[i] == Read(s, REPORTED[i].At(base))
  {
    hide Read;
  }

  lemma SameAttr(a: Attr, b: Attr)
    requires a.flags == b.flags && forall i | 0 <= i < 9 :: Values(a)[i] == Values(b)[i]
    ensures a == b
  {
    assert Values(a)[0] == Values(b)[0] && Values(a)[1] == Values(b)[1] && Values(a)[2] == Values(b)[2];
    assert Values(a)[3] == Values(b)[3] && Values(a)[4] == Values(b)[4] && Values(a)[5] == Values(b)[5];
    assert Values(a)[6] == Values(b)[6] && Values(a)[7] == Values(b)[7] && Values(a)[8] == Values(b)[8];
  }

  /* ---------------------------------------------------------------- the commands */

  function LroWrites(l: Lro, base: nat): seq<Write> {
    [Write(LRO_TIMEOUT.At(base), l.timeout), Write(LRO_ENABLE.At(base), l.enableMask),
     Write(LRO_MAX.At(base), l.maxMsgSz)]
  }

  function If(c: bool, ws: seq<Write>): seq<Write> {
    if c then ws else []
  }

  function ModifyWrites(tirn: u24, a: Attr): seq<Write> {
    [Write(OPCODE, OP_MODIFY_TIR), Write(TIRN, tirn)]
    + If(Has(a, ATTR_LRO), [Write(MASK_LRO, 1)] + LroWrites(a.lro, TIR_CONTEXT))
  }

  lemma ModifyOk(tirn: u24, a: Attr)
    ensures AllFit(ModifyWrites(tirn, a), COMMAND_BYTES) && PairwiseDisjoint(ModifyWrites(tirn, a))
  {
    hide Has;
  }

  function ModifyCommand(tirn: u24, a: Attr): (s: seq<byte>)
    ensures |s| == COMMAND_BYTES
  {
    ModifyOk(tirn, a);
    PutAll(Zeros(COMMAND_BYTES), ModifyWrites(tirn, a))
  }

  /** A device that accepts the command takes over the fields its mask selects, and no others. */
  function Modified(ctx: seq<byte>, cmd: seq<byte>): (r: seq<byte>)
    requires |ctx| == TIRC_BYTES && |cmd| == COMMAND_BYTES
    ensures |r| == TIRC_BYTES
  {
    ReportBounds(cmd, TIR_CONTEXT);
    LroFits(Report(cmd, TIR_CONTEXT).lro, |ctx|);
    if Read(cmd, MASK_LRO) == 1 then PutAll(ctx, LroWrites(Report(cmd, TIR_CONTEXT).lro, 0)) else ctx
  }

  lemma LroFits(l: Lro, n: nat)
    requires n >= TIRC_BYTES
    ensures AllFit(LroWrites(l, 0), n) && PairwiseDisjoint(LroWrites(l, 0))
  {
  }

  /** The modify command says what it should: the mask bit, and the LRO values when it is set. */
  lemma ModifyReads(tirn: u24, a: Attr)
    ensures Read(ModifyCommand(tirn, a), MASK_LRO) == if Has(a, ATTR_LRO) then 1 else 0
    ensures Has(a, ATTR_LRO) ==> Report(ModifyCommand(tirn, a), TIR_CONTEXT).lro == a.lro
  {
    hide Has; hide PutAll; hide Read; hide Pow2; hide Fits; hide Zeros;
    ModifyOk(tirn, a);
    Pow2Values();
    var z, ws := Zeros(COMMAND_BYTES), ModifyWrites(tirn, a);
    if Has(a, ATTR_LRO) {
      PutAllReads(z, ws, 2);
      PutAllReads(z, ws, 3);
      PutAllReads(z, ws, 4);
      PutAllReads(z, ws, 5);
    } else {
      ReadOfZeros(COMMAND_BYTES, MASK_LRO);
      PutAllKeeps(z, ws, MASK_LRO);
    }
  }

  /** Writing the LRO fields changes exactly the LRO part of what is reported. */
  lemma LroReported(s: seq<byte>, l: Lro, base: nat)
    requires (base == 0 && |s| == TIRC_BYTES) || (base == TIR_CONTEXT && |s| == COMMAND_BYTES)
    ensures AllFit(LroWrites(l, base), |s|)
    ensures Report(PutAll(s, LroWrites(l, base)), base) == Report(s, base).(lro := l)
  {
    hide PutAll; hide Report; hide Pow2; hide Fits;
    FieldsFit(base, |s|);
    FlagsReported(s, base);
    Pow2Values();
    var ws := LroWrites(l, base);
    assert ws[0].v == l.timeout && ws[1].v == l.enableMask && ws[2].v == l.maxMsgSz;
    GroupReports(s, base, ws, Report(s, base).(lro := l));
  }

  lemma FlagsReported(s: seq<byte>, base: nat)
    requires base + 8 * TIRC_BYTES <= 8 * |s|
    ensures Report(s, base).flags == ALL_ATTRS
  {
  }

  /** What the device reports after it accepted the command. */
  lemma ModifiedReports(ctx: seq<byte>, tirn: u24, a: Attr)
    requires |ctx| == TIRC_BYTES
    ensures Report(Modified(ctx, ModifyCommand(tirn, a)), 0) ==
            if Has(a, ATTR_LRO) then Report(ctx, 0).(lro := a.lro) else Report(ctx, 0)
  {
    hide Has; hide PutAll; hide Read; hide Report; hide ModifyCommand; hide Fits;
    ModifyReads(tirn, a);
    LroReported(ctx, a.lro, 0);
  }

  /* ---------------------------------------------------------------- the create command */

  function TlsWrites(a: Attr): seq<Write> {
    [Write(SELF_LB_BLOCK.At(TIR_CONTEXT), 3), Write(TLS_EN.At(TIR_CONTEXT), a.tlsEn)]
  }

  function ZeroCopyWrites(a: Attr): seq<Write> {
    [Write(SELF_LB_BLOCK.At(TIR_CONTEXT), 3), Write(ZEROCOPY_EN.At(TIR_CONTEXT), a.zerocopyEn),
     Write(TAG_TABLE.At(TIR_CONTEXT), a.tagBufferTableId)]
  }

  function CrcWrites(a: Attr): seq<Write> {
    [Write(SELF_LB_BLOCK.At(TIR_CONTEXT), 3), Write(CRC_EN.At(TIR_CONTEXT), a.crcEn)]
  }

  function RqnWrites(a: Attr): seq<Write> {
    [Write(INLINE_RQN.At(TIR_CONTEXT), a.inlineRqn)]
  }

  function DomainWrites(a: Attr): seq<Write> {
    [Write(TRANSPORT_DOMAIN.At(TIR_CONTEXT), a.transportDomain)]
  }

  lemma GroupsFit(a: Attr)
    ensures AllFit(LroWrites(a.lro, TIR_CONTEXT), COMMAND_BYTES) && PairwiseDisjoint(LroWrites(a.lro, TIR_CONTEXT))
    ensures AllFit(TlsWrites(a), COMMAND_BYTES) && PairwiseDisjoint(TlsWrites(a))
    ensures AllFit(ZeroCopyWrites(a), COMMAND_BYTES) && PairwiseDisjoint(ZeroCopyWrites(a))
    ensures AllFit(CrcWrites(a), COMMAND_BYTES) && PairwiseDisjoint(CrcWrites(a))
    ensures AllFit(RqnWrites(a), COMMAND_BYTES) && AllFit(DomainWrites(a), COMMAND_BYTES)
    ensures Fits(OPCODE, COMMAND_BYTES)
  {
    hide Fits;
    FieldsFit(TIR_CONTEXT, COMMAND_BYTES);
    OpcodeFits();
  }

  lemma OpcodeFits()
    ensures Fits(OPCODE, COMMAND_BYTES)
  {
  }

  /** The command with one group of fields filled in, when its flag is set. */
  function Filled(s: seq<byte>, c: bool, ws: seq<Write>): (t: seq<byte>)
    requires AllFit(ws, |s|)
    ensures |t| == |s|
  {
    if c then PutAll(s, ws) else s
  }

  /** create() fills in one group of fields for each flag, in this order. */
  function CreateCommand(a: Attr): (s: seq<byte>)
    ensures |s| == COMMAND_BYTES
  {
    hide Put; hide PutAll; hide Has; hide Fits; hide Zeros; hide Filled;
    GroupsFit(a);
    var s0 := Put(Zeros(COMMAND_BYTES), OPCODE, OP_CREATE_TIR);
    var s1 := Filled(s0, Has(a, ATTR_LRO), LroWrites(a.lro, TIR_CONTEXT));
    var s2 := Filled(s1, Has(a, ATTR_TLS), TlsWrites(a));
    var s3 := Filled(s2, Has(a, ATTR_INLINE_RQN), RqnWrites(a));
    var s4 := Filled(s3, Has(a, ATTR_TRANSPORT_DOMAIN), DomainWrites(a));
    var s5 := Filled(s4, Has(a, ATTR_ZERO_COPY), ZeroCopyWrites(a));
    Filled(s5, Has(a, ATTR_CRC), CrcWrites(a))
  }

  /** The attributes that were asked for; what is not flagged is left at zero. */
  function Requested(a: Attr): Attr {
    Attr(ALL_ATTRS, if Has(a, ATTR_LRO) then a.lro else Lro(0, 0, 0),
         if Has(a, ATTR_INLINE_RQN) then a.inlineRqn else 0,
         if Has(a, ATTR_TRANSPORT_DOMAIN) then a.transportDomain else 0,
         if Has(a, ATTR_TLS) then a.tlsEn else 0,
         if Has(a, ATTR_ZERO_COPY) then a.zerocopyEn else 0,
         if Has(a, ATTR_CRC) then a.crcEn else 0,
         if Has(a, ATTR_ZERO_COPY) then a.tagBufferTableId else 0)
  }

  lemma TlsReported(s: seq<byte>, a: Attr)
    requires |s| == COMMAND_BYTES
    ensures AllFit(TlsWrites(a), |s|)
    ensures Report(PutAll(s, TlsWrites(a)), TIR_CONTEXT) ==
            Report(s, TIR_CONTEXT).(tlsEn := a.tlsEn)
  {
    hide PutAll; hide Report; hide Pow2; hide Fits;
    GroupsFit(a);
    FlagsReported(s, TIR_CONTEXT);
    Pow2Values();
    var ws := TlsWrites(a);
    assert ws[1].v == a.tlsEn;
    GroupReports(s, TIR_CONTEXT, ws, Report(s, TIR_CONTEXT).(tlsEn := a.tlsEn));
  }

  lemma RqnReported(s: seq<byte>, a: Attr)
    requires |s| == COMMAND_BYTES
    ensures AllFit(RqnWrites(a), |s|)
    ensures Report(PutAll(s, RqnWrites(a)), TIR_CONTEXT) ==
            Report(s, TIR_CONTEXT).(inlineRqn := a.inlineRqn)
  {
    hide PutAll; hide Report; hide Pow2; hide Fits;
    GroupsFit(a);
    FlagsReported(s, TIR_CONTEXT);
    Pow2Values();
    var ws := RqnWrites(a);
    assert ws[0].v == a.inlineRqn;
    GroupReports(s, TIR_CONTEXT, ws, Report(s, TIR_CONTEXT).(inlineRqn := a.inlineRqn));
  }

  lemma DomainReported(s: seq<byte>, a: Attr)
    requires |s| == COMMAND_BYTES
    ensures AllFit(DomainWrites(a), |s|)
    ensures Report(PutAll(s, DomainWrites(a)), TIR_CONTEXT) ==
            Report(s, TIR_CONTEXT).(transportDomain := a.transportDomain)
  {
    hide PutAll; hide Report; hide Pow2; hide Fits;
    GroupsFit(a);
    FlagsReported(s, TIR_CONTEXT);
    Pow2Values();
    var ws := DomainWrites(a);
    assert ws[0].v == a.transportDomain;
    GroupReports(s, TIR_CONTEXT, ws, Report(s, TIR_CONTEXT).(transportDomain := a.transportDomain));
  }

  lemma ZeroCopyReported(s: seq<byte>, a: Attr)
    requires |s| == COMMAND_BYTES
    ensures AllFit(ZeroCopyWrites(a), |s|)
    ensures Report(PutAll(s, ZeroCopyWrites(a)), TIR_CONTEXT) ==
            Report(s, TIR_CONTEXT).(zerocopyEn := a.zerocopyEn, tagBufferTableId := a.tagBufferTableId)
  {
    hide PutAll; hide Report; hide Pow2; hide Fits;
    GroupsFit(a);
    FlagsReported(s, TIR_CONTEXT);
    Pow2Values();
    var ws := ZeroCopyWrites(a);
    assert ws[1].v == a.zerocopyEn && ws[2].v == a.tagBufferTableId;
    GroupReports(s, TIR_CONTEXT, ws,
                 Report(s, TIR_CONTEXT).(zerocopyEn := a.zerocopyEn, tagBufferTableId := a.tagBufferTableId));
  }

  lemma CrcReported(s: seq<byte>, a: Attr)
    requires |s| == COMMAND_BYTES
    ensures AllFit(CrcWrites(a), |s|)
    ensures Report(PutAll(s, CrcWrites(a)), TIR_CONTEXT) ==
            Report(s, TIR_CONTEXT).(crcEn := a.crcEn)
  {
    hide PutAll; hide Report; hide Pow2; hide Fits;
    GroupsFit(a);
    FlagsReported(s, TIR_CONTEXT);
    Pow2Values();
    var ws := CrcWrites(a);
    assert ws[1].v == a.crcEn;
    GroupReports(s, TIR_CONTEXT, ws, Report(s, TIR_CONTEXT).(crcEn := a.crcEn));
  }

  lemma NothingReported()
    ensures Fits(OPCODE, COMMAND_BYTES)
    ensures Report(Put(Zeros(COMMAND_BYTES), OPCODE, OP_CREATE_TIR), TIR_CONTEXT) == ZERO.(flags := ALL_ATTRS)
  {
    hide Put; hide Read; hide Zeros;
    OpcodeFits();
    var z := Zeros(COMMAND_BYTES);
    var s := Put(z, OPCODE, OP_CREATE_TIR);
    forall i | 0 <= i < 9 ensures Values(Report(s, TIR_CONTEXT))[i] == 0 {
      var f := REPORTED[i].At(TIR_CONTEXT);
      ReportedAt(s, TIR_CONTEXT, i);
      ReadOfZeros(COMMAND_BYTES, f);
      ReadOfOtherPut(z, OPCODE, OP_CREATE_TIR, f);
    }
    assert forall i | 0 <= i < 9 :: Values(ZERO)[i] == 0;
    SameAttr(Report(s, TIR_CONTEXT), ZERO.(flags := ALL_ATTRS));
  }

  /** A device that takes the command's context as it is reports exactly what was asked for. */
  lemma CreateRoundTrip(a: Attr)
    ensures Report(CreateCommand(a), TIR_CONTEXT) == Requested(a)
  {
    hide Put; hide PutAll; hide Report; hide Has; hide Fits; hide Zeros;
    hide TlsWrites; hide LroWrites; hide ZeroCopyWrites; hide CrcWrites; hide RqnWrites; hide DomainWrites;
    GroupsFit(a);
    NothingReported();
    var s0 := Put(Zeros(COMMAND_BYTES), OPCODE, OP_CREATE_TIR);
    LroReported(s0, a.lro, TIR_CONTEXT);
    var s1 := Filled(s0, Has(a, ATTR_LRO), LroWrites(a.lro, TIR_CONTEXT));
    TlsReported(s1, a);
    var s2 := Filled(s1, Has(a, ATTR_TLS), TlsWrites(a));
    RqnReported(s2, a);
    var s3 := Filled(s2, Has(a, ATTR_INLINE_RQN), RqnWrites(a));
    DomainReported(s3, a);
    var s4 := Filled(s3, Has(a, ATTR_TRANSPORT_DOMAIN), DomainWrites(a));
    ZeroCopyReported(s4, a);
    var s5 := Filled(s4, Has(a, ATTR_ZERO_COPY), ZeroCopyWrites(a));
    CrcReported(s5, a);
  }

  /* ---------------------------------------------------------------- what the commands name */

  /** A modify command names the object it is for. */
  lemma ModifyNames(tirn: u24, a: Attr)
    ensures Read(ModifyCommand(tirn, a), OPCODE) == 0x901 && Read(ModifyCommand(tirn, a), TIRN) == tirn
  {
    hide Has; hide PutAll; hide Read; hide Pow2; hide Fits; hide Zeros;
    ModifyOk(tirn, a);
    Pow2Values();
    PutAllReads(Zeros(COMMAND_BYTES), ModifyWrites(tirn, a), 0);
    PutAllReads(Zeros(COMMAND_BYTES), ModifyWrites(tirn, a), 1);
  }

  /** A create command says so, and blocks self-loopback exactly for the attributes that need it. */
  lemma CreateNames(a: Attr)
    ensures Read(CreateCommand(a), OPCODE) == 0x900
    ensures Read(CreateCommand(a), SELF_LB_BLOCK.At(TIR_CONTEXT)) ==
            if Has(a, ATTR_TLS) || Has(a, ATTR_ZERO_COPY) || Has(a, ATTR_CRC) then 3 else 0
  {
    hide Put; hide PutAll; hide Has; hide Fits; hide Zeros; hide Filled; hide Read; hide Pow2;
    hide TlsWrites; hide LroWrites; hide ZeroCopyWrites; hide CrcWrites; hide RqnWrites; hide DomainWrites;
    GroupsFit(a);
    var z := Zeros(COMMAND_BYTES);
    var s0 := Put(z, OPCODE, OP_CREATE_TIR);
    NewCommand();
    Groups(s0, a);
    var s1 := Filled(s0, Has(a, ATTR_LRO), LroWrites(a.lro, TIR_CONTEXT));
    Groups(s1, a);
    var s2 := Filled(s1, Has(a, ATTR_TLS), TlsWrites(a));
    Groups(s2, a);
    var s3 := Filled(s2, Has(a, ATTR_INLINE_RQN), RqnWrites(a));
    Groups(s3, a);
    var s4 := Filled(s3, Has(a, ATTR_TRANSPORT_DOMAIN), DomainWrites(a));
    Groups(s4, a);
    var s5 := Filled(s4, Has(a, ATTR_ZERO_COPY), ZeroCopyWrites(a));
    Groups(s5, a);
  }

  lemma NewCommand()
    ensures Fits(OPCODE, COMMAND_BYTES)
    ensures Read(Put(Zeros(COMMAND_BYTES), OPCODE, OP_CREATE_TIR), OPCODE) == 0x900
    ensures Read(Put(Zeros(COMMAND_BYTES), OPCODE, OP_CREATE_TIR), SELF_LB_BLOCK.At(TIR_CONTEXT)) == 0
  {
    hide Put; hide Read; hide Pow2; hide Zeros;
    OpcodeFits();
    Pow2Values();
    var z := Zeros(COMMAND_BYTES);
    ReadOfPut(z, OPCODE, OP_CREATE_TIR);
    ReadOfOtherPut(z, OPCODE, OP_CREATE_TIR, SELF_LB_BLOCK.At(TIR_CONTEXT));
    ReadOfZeros(COMMAND_BYTES, SELF_LB_BLOCK.At(TIR_CONTEXT));
  }

  /** What each group of fields, filled in or not, does to the opcode and the loopback bits. */
  lemma Groups(s: seq<byte>, a: Attr)
    requires |s| == COMMAND_BYTES
    ensures Sets(s, LroWrites(a.lro, TIR_CONTEXT), false) && Sets(s, TlsWrites(a), true) && Sets(s, RqnWrites(a), false)
    ensures Sets(s, DomainWrites(a), false) && Sets(s, ZeroCopyWrites(a), true) && Sets(s, CrcWrites(a), true)
  {
    hide PutAll; hide Fits; hide Read;
    GroupsFit(a);
    GroupSets(s, LroWrites(a.lro, TIR_CONTEXT), false);
    GroupSets(s, TlsWrites(a), true);
    GroupSets(s, RqnWrites(a), false);
    GroupSets(s, DomainWrites(a), false);
    GroupSets(s, ZeroCopyWrites(a), true);
    GroupSets(s, CrcWrites(a), true);
  }

  predicate Sets(s: seq<byte>, ws: seq<Write>, blocks: bool)
    requires |s| == COMMAND_BYTES
  {
    && AllFit(ws, |s|)
    && (forall c: bool ::
          && Read(Filled(s, c, ws), OPCODE) == Read(s, OPCODE)
          && Read(Filled(s, c, ws), SELF_LB_BLOCK.At(TIR_CONTEXT)) ==
             if c && blocks then 3 else Read(s, SELF_LB_BLOCK.At(TIR_CONTEXT)))
  }

  lemma GroupSets(s: seq<byte>, ws: seq<Write>, blocks: bool)
    requires |s| == COMMAND_BYTES && AllFit(ws, |s|) && PairwiseDisjoint(ws)
    requires forall j | 0 <= j < |ws| :: Disjoint(ws[j].f, OPCODE)
    requires if blocks then ws != [] && ws[0] == Write(SELF_LB_BLOCK.At(TIR_CONTEXT), 3)
             else forall j | 0 <= j < |ws| :: Disjoint(ws[j].f, SELF_LB_BLOCK.At(TIR_CONTEXT))
    ensures Sets(s, ws, blocks)
  {
    hide PutAll; hide Fits; hide Read; hide Pow2;
    Pow2Values();
    PutAllKeeps(s, ws, OPCODE);
    if blocks {
      PutAllReads(s, ws, 0);
    } else {
      PutAllKeeps(s, ws, SELF_LB_BLOCK.At(TIR_CONTEXT));
    }
  }

  /** Which bit of the flags asks for which attributes. */
  lemma FlagBits(a: Attr)
    ensures Has(a, ATTR_LRO) <==> Bit(a.flags, 1)
    ensures Has(a, ATTR_INLINE_RQN) <==> Bit(a.flags, 2)
    ensures Has(a, ATTR_TRANSPORT_DOMAIN) <==> Bit(a.flags, 3)
    ensures Has(a, ATTR_TLS) <==> Bit(a.flags, 4)
    ensures Has(a, ATTR_ZERO_COPY) <==> Bit(a.flags, 5)
    ensures Has(a, ATTR_CRC) <==> Bit(a.flags, 6)
  {
    hide And; hide Bit; hide Pow2;
    Pow2Values();
    AndPower(a.flags, 1);
    AndPower(a.flags, 2);
    AndPower(a.flags, 3);
    AndPower(a.flags, 4);
    AndPower(a.flags, 5);
    AndPower(a.flags, 6);
  }

  /* ---------------------------------------------------------------- object, cache and device */

  /** `handle` says whether the host has its wrapper of the object, `dev` what has become of the
      object itself, and `device` is the context the device has, or last had, for it. */
  datatype State = State(handle: bool, dev: DeviceObject, tirn: u24, cache: Attr, device: seq<byte>)

  const INIT := State(false, Unmade, 0, ZERO, [])

  /** What the device answers to a creation: nothing, or an object with some context. */
  datatype Creation = NoHandle | BadStatus(ctx: seq<byte>, id: u24) | Made(ctx: seq<byte>, id: u24)

  datatype Op =
    | Create(attr: Attr, reply: Creation, answers: bool)
    | Modify(attr: Attr, accepts: bool)
    | Query(answers: bool)
    | Destroy(accepts: bool)

  predicate Possible(op: Op) {
    op.Create? && !op.reply.NoHandle? ==> |op.reply.ctx| == TIRC_BYTES
  }

  /** A non-empty cache is what the device holds, or last held. */
  predicate Inv(s: State) {
    && (s.handle ==> |s.device| == TIRC_BYTES) && (s.handle <==> !s.dev.Unmade?)
    && (s.cache.flags != 0 ==> s.handle && s.cache == Report(s.device, 0))
  }

  /** query(): the cache answers once it holds anything. */
  function QueryNext(s: State, answers: bool): (State, Status, Attr)
    requires Inv(s)
  {
    if !s.handle then (s, ErrInvalidParam, ZERO)
    else if s.cache.flags != 0 then (s, Ok, s.cache)
    else if !(answers && Exists(s.dev)) then (s, ErrQuery, ZERO)
    else (s.(cache := Report(s.device, 0)), Ok, Report(s.device, 0))
  }

  function ModifyNext(s: State, a: Attr, accepts: bool): (State, Status)
    requires Inv(s)
  {
    if !s.handle then (s, ErrInvalidParam)
    else if !(accepts && Exists(s.dev)) then (s, ErrModify)
    else (s.(device := Modified(s.device, ModifyCommand(s.tirn, a)),
             cache := if Has(a, ATTR_LRO) then s.cache.(lro := a.lro) else s.cache), Ok)
  }

  /** create(): the query that follows works on the cache itself, and clears it first. */
  function CreateNext(s: State, reply: Creation, answers: bool): (State, Status)
    requires Inv(s) && (!reply.NoHandle? ==> |reply.ctx| == TIRC_BYTES)
  {
    if s.handle then (s, ErrInvalidParam)
    else
      match reply
      case NoHandle => (s, ErrCreate)
      case BadStatus(ctx, _) => (s.(handle := true, dev := Linked, device := ctx), ErrCreate)
      case Made(ctx, id) =>
        var s' := State(true, Linked, id, ZERO, ctx);
        var (t, st, _) := QueryNext(s', answers);
        (t, st)
  }

  /** obj::destroy: the wrapper stays, and so does the cache. */
  function DestroyNext(s: State, accepts: bool): State {
    s.(dev := AfterDestroy(s.dev, accepts))
  }

  function Next(s: State, op: Op): State
    requires Inv(s) && Possible(op)
  {
    match op
    case Create(_, reply, answers) => CreateNext(s, reply, answers).0
    case Modify(a, accepts) => ModifyNext(s, a, accepts).0
    case Query(answers) => QueryNext(s, answers).0
    case Destroy(accepts) => DestroyNext(s, accepts)
  }

  lemma NextKeeps(s: State, op: Op)
    requires Inv(s) && Possible(op)
    ensures Inv(Next(s, op))
  {
    hide Report; hide Modified; hide ModifyCommand; hide Has;
    if op.Modify? && s.handle {
      ModifiedReports(s.device, s.tirn, op.attr);
      FlagsReported(s.device, 0);
    }
  }

  predicate AllPossible(ops: seq<Op>) {
    forall i | 0 <= i < |ops| :: Possible(ops[i])
  }

  function Run(ops: seq<Op>): (s: State)
    requires AllPossible(ops)
    ensures Inv(s)
  {
    if ops == [] then INIT
    else
      assert AllPossible(ops[..|ops| - 1]);
      var s := Run(ops[..|ops| - 1]);
      NextKeeps(s, ops[|ops| - 1]);
      Next(s, ops[|ops| - 1])
  }

  /** Creation succeeds exactly once and when the object is made and can be queried; what is queried
      from then on is the context it was made with, and the number is the device's. A bad status leaves
      an object that counts as there. */
  lemma CreateThenQuery(s: State, a: Attr, reply: Creation, answers: bool, later: bool)
    requires Inv(s) && Possible(Create(a, reply, answers))
    ensures var (t, st) := CreateNext(s, reply, answers);
            && (st == Ok <==> !s.handle && reply.Made? && answers)
            && (s.handle ==> st == ErrInvalidParam && t == s)
            && (!s.handle && reply.NoHandle? ==> st == ErrCreate && t == s)
            && (!s.handle && reply.BadStatus? ==> st == ErrCreate && t.handle && t.dev == Linked && t.tirn == s.tirn)
            && (!s.handle && reply.Made? ==>
                  t.handle && t.dev == Linked && t.tirn == reply.id && (!answers ==> st == ErrQuery && t.cache == ZERO))
            && (!s.handle && !reply.NoHandle? ==> t.device == reply.ctx)
            && (st == Ok ==> Inv(t) && QueryNext(t, later) == (t, Ok, Report(reply.ctx, 0)))
  {
    hide Report;
    if !reply.NoHandle? {
      FlagsReported(reply.ctx, 0);
    }
  }

  /** A modify succeeds exactly when there is an object and the device accepts; what is queried from then
      on has the new LRO values, if they were flagged, and everything else as it was. */
  lemma ModifyThenQuery(s: State, a: Attr, accepts: bool)
    requires Inv(s)
    ensures var (t, st) := ModifyNext(s, a, accepts);
            && (st == Ok <==> s.handle && accepts && Exists(s.dev))
            && (!s.handle ==> st == ErrInvalidParam) && (s.handle && st != Ok ==> st == ErrModify)
            && (st != Ok ==> t == s)
            && (st == Ok ==>
                  && Inv(t) && t.tirn == s.tirn && t.dev == s.dev
                  && QueryNext(t, true).1 == Ok
                  && QueryNext(t, true).2 ==
                     if Has(a, ATTR_LRO) then Report(s.device, 0).(lro := a.lro) else Report(s.device, 0))
  {
    hide Report; hide Modified; hide ModifyCommand; hide Has;
    NextKeeps(s, Modify(a, accepts));
    if s.handle {
      ModifiedReports(s.device, s.tirn, a);
    }
  }

  /** A query asks the device at most once; after that, and only then, the cache answers. */
  lemma QueryExactly(s: State, answers: bool)
    requires Inv(s)
    ensures var (t, st, a) := QueryNext(s, answers);
            && (st == Ok <==> s.handle && (s.cache.flags != 0 || (answers && Exists(s.dev))))
            && (!s.handle ==> st == ErrInvalidParam) && (s.handle && st != Ok ==> st == ErrQuery)
            && (st != Ok ==> t == s && a == ZERO)
            && (st == Ok ==> t == s.(cache := a) && t.cache.flags != 0)
  {
    hide Report;
    if s.handle {
      FlagsReported(s.device, 0);
    }
  }

  /** destroy() was called on an object that had been made. */
  predicate Asked(ops: seq<Op>)
    requires AllPossible(ops)
  {
    ops != [] &&
    assert AllPossible(ops[..|ops| - 1]);
    (ops[|ops| - 1].Destroy? && Run(ops[..|ops| - 1]).handle) || Asked(ops[..|ops| - 1])
  }

  /** The device accepted the first such call. */
  predicate Taken(ops: seq<Op>)
    requires AllPossible(ops)
  {
    ops != [] &&
    assert AllPossible(ops[..|ops| - 1]);
    var pre := ops[..|ops| - 1];
    (ops[|ops| - 1] == Destroy(true) && Run(pre).handle && !Asked(pre)) || Taken(pre)
  }

  lemma {:induction false} ObjectGoneExactly(ops: seq<Op>)
    requires AllPossible(ops)
    ensures Run(ops).dev.Gone? <==> Taken(ops)
    ensures if Run(ops).handle then Run(ops).dev.Linked? <==> !Asked(ops) else Run(ops).dev.Unmade? && !Asked(ops)
    decreases |ops|
  {
    hide Report; hide Modified; hide ModifyCommand; hide Has; hide Inv;
    if ops != [] {
      var pre, op := ops[..|ops| - 1], ops[|ops| - 1];
      assert AllPossible(pre);
      ObjectGoneExactly(pre);
      DevStep(Run(pre), op);
    }
  }

  lemma DevStep(s: State, op: Op)
    requires Inv(s) && Possible(op)
    ensures s.handle ==> Next(s, op).handle && Next(s, op).dev ==
                         if op.Destroy? then AfterDestroy(s.dev, op.accepts) else s.dev
    ensures !s.handle && Next(s, op).handle ==> Next(s, op).dev == Linked
    ensures !s.handle && !Next(s, op).handle ==> Next(s, op).dev == Unmade
  {
    hide Report; hide Modified; hide ModifyCommand; hide Has;
  }

  /** What the device would report now, if it has the object. */
  function Now(s: State): Option<Attr>
    requires Inv(s)
  {
    if Exists(s.dev) then Some(Report(s.device, 0)) else None
  }

  /** After every run, with failures anywhere: a query that succeeds, from the cache or not, returns
      exactly what the device would report now, unless the device has accepted the first destroy();
      then, and only then, the answer is about an object the device no longer has. With anything in
      the cache the answer is the one a query of the device would give, or would have given. */
  lemma QueryIsFresh(ops: seq<Op>, answers: bool)
    requires AllPossible(ops)
    ensures var (_, st, a) := QueryNext(Run(ops), answers);
            st == Ok ==>
              && |Run(ops).device| == TIRC_BYTES && a == Report(Run(ops).device, 0)
              && (Now(Run(ops)) == Some(a) <==> !Taken(ops)) && (Now(Run(ops)) == None <==> Taken(ops))
    ensures Run(ops).cache.flags != 0 ==>
              && Run(ops).handle
              && QueryNext(Run(ops), answers) ==
                 QueryNext(Run(ops).(cache := ZERO, dev := Linked), true).(0 := Run(ops))
  {
    hide Run; hide Report; hide Taken;
    ObjectGoneExactly(ops);
  }

  /** Such an answer: for all attributes and contexts, a TIR is made, its destroy() is accepted, and
      queries go on succeeding. */
  lemma QueryOfGone(a: Attr, ctx: seq<byte>, id: u24, answers: bool)
    requires |ctx| == TIRC_BYTES
    ensures var ops := [Create(a, Made(ctx, id), true), Destroy(true)];
            && AllPossible(ops) && Now(Run(ops)) == None
            && QueryNext(Run(ops), answers) == (Run(ops), Ok, Report(ctx, 0))
  {
    hide Report;
    FlagsReported(ctx, 0);
    var p, q := Create(a, Made(ctx, id), true), Destroy(true);
    assert [p, q][..1] == [p] && [p][..0] == [];
    assert AllPossible([]) && AllPossible([p]) && AllPossible([p, q]);
    assert Run([]) == INIT;
    assert Run([p]) == Next(INIT, p);
    assert Run([p, q]) == Next(Run([p]), q);
  }

  /* ---------------------------------------------------------------- the object, updated in place */

  lemma AllFlags()
    ensures Or(Or(Or(Or(Or(Or(0, ATTR_LRO), ATTR_TLS), ATTR_INLINE_RQN), ATTR_TRANSPORT_DOMAIN), ATTR_ZERO_COPY),
               ATTR_CRC) == ALL_ATTRS
  {
    assert Or(0, 2) == 2;
    assert Or(2, 0x10) == 0x12;
    assert Or(0x12, 4) == 0x16;
    assert Or(0x16, 8) == 0x1E;
    assert Or(0x1E, 0x20) == 0x3E;
    assert Or(0x3E, 0x40) == 0x7E;
  }

  class Tir {
    var handle: bool
    var dev: DeviceObject
    var tirn: u24
    var attr: Attr
    var device: seq<byte>

    constructor ()
      ensures View() == INIT
    {
      handle, dev, tirn, attr, device := false, Unmade, 0, ZERO, [];
    }

    function View(): State
      reads this
    {
      State(handle, dev, tirn, attr, device)
    }

    /** tir::create */
    method CreateTir(a: Attr, reply: Creation, answers: bool) returns (st: Status, sent: Option<seq<byte>>)
      requires Inv(View()) && Possible(Create(a, reply, answers))
      modifies this
      ensures (View(), st) == CreateNext(old(View()), reply, answers) && Inv(View())
      ensures sent == if old(handle) then None else Some(CreateCommand(a))
    {
      hide Report; hide CreateCommand; hide Has;
      if handle {
        return ErrInvalidParam, None;
      }
      var buf := BuildCreate(a);
      sent := Some(buf[..]);
      match reply {
        case NoHandle =>
          return ErrCreate, sent;
        case BadStatus(ctx, _) =>
          handle, dev, device := true, Linked, ctx;
          return ErrCreate, sent;
        case Made(ctx, id) =>
          handle, dev, device, tirn := true, Linked, ctx, id;
          attr := ZERO;
          var cached;
          st, cached := QueryTir(answers);
      }
    }

    static method BuildCreate(a: Attr) returns (buf: array<byte>)
      ensures fresh(buf) && buf[..] == CreateCommand(a)
    {
      hide Put; hide PutAll; hide Has; hide Fits;
      buf := new byte[COMMAND_BYTES](_ => 0);
      assert buf[..] == Zeros(COMMAND_BYTES);
      GroupsFit(a);
      FieldsFit(TIR_CONTEXT, COMMAND_BYTES);
      Set(buf, OPCODE, OP_CREATE_TIR);
      if Has(a, ATTR_LRO) {
        SetLro(buf, a.lro);
      }
      if Has(a, ATTR_TLS) {
        SetBlocked(buf, TLS_EN.At(TIR_CONTEXT), a.tlsEn, TlsWrites(a));
      }
      if Has(a, ATTR_INLINE_RQN) {
        SetOne(buf, INLINE_RQN.At(TIR_CONTEXT), a.inlineRqn);
      }
      if Has(a, ATTR_TRANSPORT_DOMAIN) {
        SetOne(buf, TRANSPORT_DOMAIN.At(TIR_CONTEXT), a.transportDomain);
      }
      if Has(a, ATTR_ZERO_COPY) {
        SetZeroCopy(buf, a);
      }
      if Has(a, ATTR_CRC) {
        SetBlocked(buf, CRC_EN.At(TIR_CONTEXT), a.crcEn, CrcWrites(a));
      }
    }

    static method SetOne(buf: array<byte>, f: Field, v: nat)
      requires Fits(f, buf.Length)
      modifies buf
      ensures AllFit([Write(f, v)], buf.Length) && buf[..] == PutAll(old(buf[..]), [Write(f, v)])
    {
      hide PutAll; hide Fits;
      PutNothing(buf[..]);
      SetNext(buf, f, v, buf[..], []);
      assert [] + [Write(f, v)] == [Write(f, v)];
    }

    /** A field that the device takes only together with blocked self-loopback. */
    static method SetBlocked(buf: array<byte>, f: Field, v: nat, ghost ws: seq<Write>)
      requires buf.Length == COMMAND_BYTES && Fits(f, COMMAND_BYTES)
      requires ws == [Write(SELF_LB_BLOCK.At(TIR_CONTEXT), 3), Write(f, v)]
      modifies buf
      ensures AllFit(ws, COMMAND_BYTES) && buf[..] == PutAll(old(buf[..]), ws)
    {
      hide PutAll; hide Fits;
      ghost var s := buf[..];
      FieldsFit(TIR_CONTEXT, COMMAND_BYTES);
      PutNothing(s);
      SetNext(buf, SELF_LB_BLOCK.At(TIR_CONTEXT), 3, s, []);
      SetNext(buf, f, v, s, [] + [ws[0]]);
      assert [] + [ws[0]] + [ws[1]] == ws;
    }

    static method SetLro(buf: array<byte>, l: Lro)
      requires buf.Length == COMMAND_BYTES
      modifies buf
      ensures AllFit(LroWrites(l, TIR_CONTEXT), COMMAND_BYTES)
      ensures buf[..] == PutAll(old(buf[..]), LroWrites(l, TIR_CONTEXT))
    {
      hide PutAll; hide Fits;
      ghost var s, ws := buf[..], LroWrites(l, TIR_CONTEXT);
      FieldsFit(TIR_CONTEXT, COMMAND_BYTES);
      PutNothing(s);
      SetNext(buf, LRO_TIMEOUT.At(TIR_CONTEXT), l.timeout, s, []);
      SetNext(buf, LRO_ENABLE.At(TIR_CONTEXT), l.enableMask, s, [] + [ws[0]]);
      SetNext(buf, LRO_MAX.At(TIR_CONTEXT), l.maxMsgSz, s, [] + [ws[0]] + [ws[1]]);
      assert [] + [ws[0]] + [ws[1]] + [ws[2]] == ws;
    }

    static method SetZeroCopy(buf: array<byte>, a: Attr)
      requires buf.Length == COMMAND_BYTES
      modifies buf
      ensures AllFit(ZeroCopyWrites(a), COMMAND_BYTES) && buf[..] == PutAll(old(buf[..]), ZeroCopyWrites(a))
    {
      hide PutAll; hide Fits;
      ghost var s, ws := buf[..], ZeroCopyWrites(a);
      FieldsFit(TIR_CONTEXT, COMMAND_BYTES);
      PutNothing(s);
      SetNext(buf, SELF_LB_BLOCK.At(TIR_CONTEXT), 3, s, []);
      SetNext(buf, ZEROCOPY_EN.At(TIR_CONTEXT), a.zerocopyEn, s, [] + [ws[0]]);
      SetNext(buf, TAG_TABLE.At(TIR_CONTEXT), a.tagBufferTableId, s, [] + [ws[0]] + [ws[1]]);
      assert [] + [ws[0]] + [ws[1]] + [ws[2]] == ws;
    }

    /** tir::modify */
    method ModifyTir(a: Attr, accepts: bool) returns (st: Status)
      requires Inv(View())
      modifies this
      ensures (View(), st) == ModifyNext(old(View()), a, accepts) && Inv(View())
    {
      hide Report; hide ModifyCommand; hide Has; hide Modified;
      NextKeeps(View(), Modify(a, accepts));
      if !handle {
        return ErrInvalidParam;
      }
      var buf := BuildModify(tirn, a);
      if !(accepts && Exists(dev)) {
        return ErrModify;
      }
      device := Modified(device, buf[..]);
      if Has(a, ATTR_LRO) {
        attr := attr.(lro := a.lro);
      }
      return Ok;
    }

    static method BuildModify(tirn: u24, a: Attr) returns (buf: array<byte>)
      ensures fresh(buf) && buf[..] == ModifyCommand(tirn, a)
    {
      hide PutAll; hide Has; hide Fits;
      buf := new byte[COMMAND_BYTES](_ => 0);
      ghost var z, ws := Zeros(COMMAND_BYTES), ModifyWrites(tirn, a);
      assert buf[..] == z;
      ModifyOk(tirn, a);
      PutNothing(z);
      assert Fits(ws[0].f, COMMAND_BYTES) && Fits(ws[1].f, COMMAND_BYTES);
      SetNext(buf, OPCODE, OP_MODIFY_TIR, z, []);
      SetNext(buf, TIRN, tirn, z, [] + [ws[0]]);
      ghost var done := [] + [ws[0]] + [ws[1]];
      if Has(a, ATTR_LRO) {
        assert Fits(ws[2].f, COMMAND_BYTES);
        SetNext(buf, MASK_LRO, 1, z, done);
        done := done + [ws[2]];
        SetLro(buf, a.lro);
        PutAllConcat(z, done, LroWrites(a.lro, TIR_CONTEXT));
        done := done + LroWrites(a.lro, TIR_CONTEXT);
      }
      assert done == ws;
    }

    /** obj::destroy */
    method DestroyTir(accepts: bool) returns (st: Status)
      requires Inv(View())
      modifies this`dev
      ensures View() == DestroyNext(old(View()), accepts) && st == Ok && Inv(View())
    {
      hide Report;
      if dev.Linked? {
        dev := if accepts then Gone else Orphaned;
      }
      return Ok;
    }

    /** tir::query */
    method QueryTir(answers: bool) returns (st: Status, a: Attr)
      requires Inv(View())
      modifies this`attr
      ensures (View(), st, a) == QueryNext(old(View()), answers) && Inv(View())
    {
      hide Read; hide Get; hide Or;
      if !handle {
        return ErrInvalidParam, ZERO;
      }
      if attr.flags != 0 {
        return Ok, attr;
      }
      if !(answers && Exists(dev)) {
        return ErrQuery, ZERO;
      }
      FieldsFit(0, TIRC_BYTES);
      ReportBounds(device, 0);
      GetIsRead(device, LRO_TIMEOUT.At(0));
      GetIsRead(device, LRO_ENABLE.At(0));
      GetIsRead(device, LRO_MAX.At(0));
      GetIsRead(device, TLS_EN.At(0));
      GetIsRead(device, INLINE_RQN.At(0));
      GetIsRead(device, TRANSPORT_DOMAIN.At(0));
      GetIsRead(device, ZEROCOPY_EN.At(0));
      GetIsRead(device, TAG_TABLE.At(0));
      GetIsRead(device, CRC_EN.At(0));
      AllFlags();
      var flags: nat := Or(attr.flags, ATTR_LRO);
      var lro := Lro(Get(device, LRO_TIMEOUT.At(0)), Get(device, LRO_ENABLE.At(0)), Get(device, LRO_MAX.At(0)));
      flags := Or(flags, ATTR_TLS);
      var tlsEn := Get(device, TLS_EN.At(0));
      flags := Or(flags, ATTR_INLINE_RQN);
      var inlineRqn := Get(device, INLINE_RQN.At(0));
      flags := Or(flags, ATTR_TRANSPORT_DOMAIN);
      var transportDomain := Get(device, TRANSPORT_DOMAIN.At(0));
      flags := Or(flags, ATTR_ZERO_COPY);
      var zerocopyEn := Get(device, ZEROCOPY_EN.At(0));
      var tagBufferTableId := Get(device, TAG_TABLE.At(0));
      flags := Or(flags, ATTR_CRC);
      var crcEn := Get(device, CRC_EN.At(0));
      attr := Attr(flags, lro, inlineRqn, transportDomain, tlsEn, zerocopyEn, crcEn, tagBufferTableId);
      return Ok, attr;
    }
  }
}
