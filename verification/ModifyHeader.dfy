/** Header-modify actions and their two encodings: the command for device flow tables and the
    word array for the root table. */
module ModifyHeader {
  import opened Bits
  import opened Common
  import opened CommandBuffer

  /** One modification. `Unknown` is any type the encoders do not support. */
  datatype Mod =
    | SetField(field: nat, offset: nat, length: nat, data: nat)
    | CopyField(srcField: nat, srcOffset: nat, length: nat, dstField: nat, dstOffset: nat)
    | Unknown(kind: nat)

  /** The action with every value cut to its width: 12-bit fields, 5-bit offsets and lengths. */
  function Reduced(m: Mod): Mod {
    match m
    case SetField(field, offset, length, data) =>
      SetField(field % 0x1000, offset % 0x20, length % 0x20, data % 0x1_0000_0000)
    case CopyField(srcField, srcOffset, length, dstField, dstOffset) =>
      CopyField(srcField % 0x1000, srcOffset % 0x20, length % 0x20, dstField % 0x1000, dstOffset % 0x20)
    case Unknown(_) => m
  }

  const TYPE_SET := 0x1
  const TYPE_COPY := 0x3
  const OP_ALLOC_MODIFY_HEADER_CONTEXT := 0x940
  const HEADER_BYTES := 16
  const MOD_BYTES := 8

  const OPCODE := Field(0x0, 16)
  const TABLE_TYPE := Field(0x60, 8)
  const NUM_OF_ACTIONS := Field(0x78, 8)

  // The dwords of one action; a set action keeps its data in the second dword.
  const ACTION_TYPE := Field(0x0, 4)
  const FIELD_1 := Field(0x4, 12)
  const OFFSET_1 := Field(0x13, 5)
  const LENGTH := Field(0x1b, 5)
  const DATA := Field(0x20, 32)
  const FIELD_2 := Field(0x24, 12)
  const OFFSET_2 := Field(0x33, 5)

  /** Bit offset of the `i`-th action in the command. */
  function Base(i: nat): nat {
    8 * HEADER_BYTES + 64 * i
  }

  /** Bit offset of the `i`-th entry of the root array. */
  function Entry(i: nat): (b: nat)
    ensures b == 64 * i && b % 64 == 0
  {
    64 * i
  }

  /** What the command encoder writes for one action. */
  function PrmWrites(m: Mod, base: nat): seq<Write> {
    match m
    case SetField(field, offset, length, data) =>
      [Write(ACTION_TYPE.At(base), TYPE_SET), Write(FIELD_1.At(base), field),
       Write(OFFSET_1.At(base), offset), Write(LENGTH.At(base), length), Write(DATA.At(base), data)]
    case CopyField(srcField, srcOffset, length, dstField, dstOffset) =>
      [Write(ACTION_TYPE.At(base), TYPE_COPY), Write(FIELD_1.At(base), srcField),
       Write(OFFSET_1.At(base), srcOffset), Write(LENGTH.At(base), length),
       Write(FIELD_2.At(base), dstField), Write(OFFSET_2.At(base), dstOffset)]
    case Unknown(_) => []
  }

  /** What the root encoder assigns for one action: the destination in the first word. */
  function RootWrites(m: Mod, base: nat): seq<Write> {
    match m
    case SetField(field, offset, length, data) =>
      [Write(ACTION_TYPE.At(base), TYPE_SET), Write(FIELD_1.At(base), field),
       Write(LENGTH.At(base), length), Write(OFFSET_1.At(base), offset), Write(DATA.At(base), data)]
    case CopyField(srcField, srcOffset, length, dstField, dstOffset) =>
      [Write(ACTION_TYPE.At(base), TYPE_COPY), Write(FIELD_1.At(base), dstField),
       Write(LENGTH.At(base), length), Write(OFFSET_1.At(base), dstOffset),
       Write(FIELD_2.At(base), srcField), Write(OFFSET_2.At(base), srcOffset)]
    case Unknown(_) => []
  }

  /** The action with source and destination exchanged. */
  function Exchanged(m: Mod): Mod {
    match m
    case CopyField(sf, so, length, df, d) => CopyField(df, d, length, sf, so)
    case _ => m
  }

  predicate BlockAt(base: nat, n: nat)
    ensures BlockAt(base, n) ==> base + 64 <= 8 * n
  {
    base % 64 == 0 && base + 8 * MOD_BYTES <= 8 * n
  }

  lemma PartFits(f: Field, base: nat, n: nat)
    requires BlockAt(base, n) && IsDword(f) && f.off + f.width <= 64
    ensures Fits(f.At(base), n)
  {
    var b := base / 64;
    assert base == 64 * b;
    if f.off < 32 {
      assert f.At(base).off / 32 == 2 * b && f.At(base).off % 32 == f.off;
    } else {
      assert f.At(base).off / 32 == 2 * b + 1 && f.At(base).off % 32 == f.off - 32;
    }
  }

  lemma WritesOk(m: Mod, base: nat, n: nat)
    requires BlockAt(base, n)
    ensures AllFit(PrmWrites(m, base), n) && PairwiseDisjoint(PrmWrites(m, base))
    ensures AllFit(RootWrites(m, base), n) && PairwiseDisjoint(RootWrites(m, base))
    ensures forall i | 0 <= i < |PrmWrites(m, base)| ::
              var f := PrmWrites(m, base)[i].f; base <= f.off && f.off + f.width <= base + 64
  {
    hide Fits; hide BlockAt;
    PartFits(ACTION_TYPE, base, n);
    PartFits(FIELD_1, base, n);
    PartFits(OFFSET_1, base, n);
    PartFits(LENGTH, base, n);
    PartFits(DATA, base, n);
    PartFits(FIELD_2, base, n);
    PartFits(OFFSET_2, base, n);
  }

  /** Reserved bits of an action, counted from its first bit. */
  predicate Reserved(m: Mod, k: nat) {
    || 0x10 <= k < 0x13
    || 0x18 <= k < 0x1b
    || (m.CopyField? && (0x20 <= k < 0x24 || 0x30 <= k < 0x33 || 0x38 <= k < 0x40))
  }

  lemma TouchesExact(m: Mod, base: nat, k: nat)
    requires !m.Unknown? && k < 64
    ensures Touches(PrmWrites(m, base), base + k) <==> !Reserved(m, k)
  {
    var ws := PrmWrites(m, base);
    if !Reserved(m, k) {
      var i := if k < 4 then 0 else if k < 0x10 then 1 else if k < 0x18 then 2 else if k < 0x20 then 3
               else if m.SetField? || k < 0x30 then 4 else 5;
      assert ws[i].f.Has(base + k);
    }
  }

  /* ---------------------------------------------------------------- the root encoding */

  /** The root encoding is the command encoding of the exchanged action, written over whatever
      the words held before: it equals it outside the reserved bits and leaves those unset. */
  lemma RootIsPrm(garbage: seq<byte>, m: Mod, base: nat)
    requires !m.Unknown? && BlockAt(base, |garbage|)
    ensures Root(garbage, m, base) == Prm(garbage, Exchanged(m), base)
    ensures forall k: nat | k < 64 ::
              SameOrReserved(Root(garbage, m, base), Prm(Zeros(|garbage|), Exchanged(m), base), garbage, m, k, base)
  {
    hide SameOrReserved; hide PutAll; hide PrmWrites; hide RootWrites;
    WritesOk(m, base, |garbage|);
    WritesOk(Exchanged(m), base, |garbage|);
    SameSetOfWrites(m, base);
    PutAllAnyOrder(garbage, RootWrites(m, base), PrmWrites(Exchanged(m), base));
    forall k: nat | k < 64
      ensures SameOrReserved(Root(garbage, m, base), Prm(Zeros(|garbage|), Exchanged(m), base), garbage, m, k, base)
    {
      RootBit(garbage, m, base, k);
    }
  }

  lemma SameSetOfWrites(m: Mod, base: nat)
    ensures SameWrites(RootWrites(m, base), PrmWrites(Exchanged(m), base))
  {
    var ws, us := RootWrites(m, base), PrmWrites(Exchanged(m), base);
    if !m.Unknown? {
      assert ws[0] == us[0] && ws[1] == us[1] && ws[2] == us[3] && ws[3] == us[2] && ws[4] == us[4];
    }
    if m.CopyField? {
      assert ws[5] == us[5];
    }
  }

  function Root(garbage: seq<byte>, m: Mod, base: nat): (t: seq<byte>)
    requires BlockAt(base, |garbage|)
    ensures |t| == |garbage|
  {
    WritesOk(m, base, |garbage|);
    PutAll(garbage, RootWrites(m, base))
  }

  function Prm(s: seq<byte>, m: Mod, base: nat): (t: seq<byte>)
    requires BlockAt(base, |s|)
    ensures |t| == |s|
  {
    WritesOk(m, base, |s|);
    PutAll(s, PrmWrites(m, base))
  }

  predicate SameOrReserved(root: seq<byte>, prm: seq<byte>, garbage: seq<byte>, m: Mod, k: nat, base: nat)
    requires |root| == |prm| == |garbage| && base + k < 8 * |root|
  {
    if Reserved(m, k) then
      (BitAt(root, base + k) <==> BitAt(garbage, base + k)) && !BitAt(prm, base + k)
    else
      BitAt(root, base + k) <==> BitAt(prm, base + k)
  }

  lemma RootBit(garbage: seq<byte>, m: Mod, base: nat, k: nat)
    requires !m.Unknown? && BlockAt(base, |garbage|) && k < 64
    ensures SameOrReserved(Root(garbage, m, base), Prm(Zeros(|garbage|), Exchanged(m), base), garbage, m, k, base)
  {
    hide PutAll; hide PrmWrites; hide RootWrites; hide Bit; hide Fits;
    WritesOk(m, base, |garbage|);
    WritesOk(Exchanged(m), base, |garbage|);
    SameSetOfWrites(m, base);
    var ws, z := PrmWrites(Exchanged(m), base), Zeros(|garbage|);
    PutAllAnyOrder(garbage, RootWrites(m, base), ws);
    TouchesExact(Exchanged(m), base, k);
    if Reserved(m, k) {
      PutAllFrame(garbage, ws, base + k);
      PutAllFrame(z, ws, base + k);
      BitOfZero(7 - (base + k) % 8);
    } else {
      var i: nat :| i < |ws| && ws[i].f.Has(base + k);
      PutAllBit(garbage, ws, i, base + k);
      PutAllBit(z, ws, i, base + k);
    }
  }

  /* ---------------------------------------------------------------- the command */

  function HeaderWrites(tableType: nat, n: nat): seq<Write> {
    [Write(OPCODE, OP_ALLOC_MODIFY_HEADER_CONTEXT), Write(TABLE_TYPE, tableType), Write(NUM_OF_ACTIONS, n)]
  }

  predicate AllKnown(mods: seq<Mod>) {
    forall i | 0 <= i < |mods| :: !mods[i].Unknown?
  }

  function ModWrites(mods: seq<Mod>, n: nat): seq<Write>
    requires n <= |mods|
  {
    if n == 0 then [] else ModWrites(mods, n - 1) + PrmWrites(mods[n - 1], Base(n - 1))
  }

  function BufferBytes(mods: seq<Mod>): nat {
    HEADER_BYTES + MOD_BYTES * |mods|
  }

  lemma {:induction false} ModWritesOk(mods: seq<Mod>, n: nat)
    requires n <= |mods|
    ensures AllFit(ModWrites(mods, n), BufferBytes(mods))
    ensures forall i | 0 <= i < |ModWrites(mods, n)| ::
              var f := ModWrites(mods, n)[i].f; Base(0) <= f.off && f.off + f.width <= Base(n)
  {
    hide PrmWrites; hide Fits;
    if n > 0 {
      ModWritesOk(mods, n - 1);
      WritesOk(mods[n - 1], Base(n - 1), BufferBytes(mods));
    }
  }

  lemma HeaderFits(tableType: nat, n: nat, len: nat)
    requires HEADER_BYTES <= len
    ensures AllFit(HeaderWrites(tableType, n), len) && PairwiseDisjoint(HeaderWrites(tableType, n))
  {
  }

  /** The finished command for a list of supported actions. */
  function Encode(tableType: nat, mods: seq<Mod>): (s: seq<byte>)
    ensures |s| == BufferBytes(mods)
  {
    HeaderFits(tableType, |mods|, BufferBytes(mods));
    ModWritesOk(mods, |mods|);
    PutAll(PutAll(Zeros(BufferBytes(mods)), HeaderWrites(tableType, |mods|)), ModWrites(mods, |mods|))
  }

  /** The action a device reads at bit `base`. */
  function ModAt(s: seq<byte>, base: nat): Mod
    requires base + 64 <= 8 * |s|
  {
    var kind := Read(s, ACTION_TYPE.At(base));
    if kind == TYPE_SET then
      SetField(Read(s, FIELD_1.At(base)), Read(s, OFFSET_1.At(base)), Read(s, LENGTH.At(base)),
               Read(s, DATA.At(base)))
    else if kind == TYPE_COPY then
      CopyField(Read(s, FIELD_1.At(base)), Read(s, OFFSET_1.At(base)), Read(s, LENGTH.At(base)),
                Read(s, FIELD_2.At(base)), Read(s, OFFSET_2.At(base)))
    else Unknown(kind)
  }

  /** The list of actions a device reads. */
  function Decode(s: seq<byte>): Option<seq<Mod>>
    requires HEADER_BYTES <= |s|
  {
    var n := Read(s, NUM_OF_ACTIONS);
    if Base(n) <= 8 * |s| then Some(seq(n, i requires 0 <= i < n => ModAt(s, Base(i)))) else None
  }

  /** An action reads back from the writes that encoded it. */
  lemma ModReads(s: seq<byte>, m: Mod, base: nat)
    requires !m.Unknown? && BlockAt(base, |s|)
    ensures ModAt(Prm(s, m, base), base) == Reduced(m)
  {
    hide PutAll; hide Read; hide Pow2; hide BlockAt; hide Fits; hide PrmWrites;
    WritesOk(m, base, |s|);
    var ws := PrmWrites(m, base);
    WriteValues(m, base);
    Pow2Values();
    PutAllReads(s, ws, 0);
    PutAllReads(s, ws, 1);
    PutAllReads(s, ws, 2);
    PutAllReads(s, ws, 3);
    PutAllReads(s, ws, 4);
    if m.CopyField? { PutAllReads(s, ws, 5); }
  }

  lemma WriteValues(m: Mod, base: nat)
    requires !m.Unknown?
    ensures var ws := PrmWrites(m, base);
            && |ws| == (if m.SetField? then 5 else 6)
            && ws[0] == Write(ACTION_TYPE.At(base), if m.SetField? then TYPE_SET else TYPE_COPY)
            && ws[1] == Write(FIELD_1.At(base), if m.SetField? then m.field else m.srcField)
            && ws[2] == Write(OFFSET_1.At(base), if m.SetField? then m.offset else m.srcOffset)
            && ws[3] == Write(LENGTH.At(base), m.length)
            && (m.SetField? ==> ws[4] == Write(DATA.At(base), m.data))
            && (m.CopyField? ==> ws[4] == Write(FIELD_2.At(base), m.dstField)
                                 && ws[5] == Write(OFFSET_2.At(base), m.dstOffset))
  {
  }

  lemma ModKept(s: seq<byte>, ws: seq<Write>, base: nat)
    requires base + 64 <= 8 * |s| && AllFit(ws, |s|)
    requires forall i | 0 <= i < |ws| :: Disjoint(ws[i].f, Field(base, 64))
    ensures ModAt(PutAll(s, ws), base) == ModAt(s, base)
  {
    hide PutAll; hide Read; hide Pow2;
    PutAllKeeps(s, ws, ACTION_TYPE.At(base));
    PutAllKeeps(s, ws, FIELD_1.At(base));
    PutAllKeeps(s, ws, OFFSET_1.At(base));
    PutAllKeeps(s, ws, LENGTH.At(base));
    PutAllKeeps(s, ws, DATA.At(base));
    PutAllKeeps(s, ws, FIELD_2.At(base));
    PutAllKeeps(s, ws, OFFSET_2.At(base));
  }

  lemma {:induction false} ModsRead(s: seq<byte>, mods: seq<Mod>, n: nat, i: nat)
    requires i < n <= |mods| && AllKnown(mods) && |s| == BufferBytes(mods)
    ensures AllFit(ModWrites(mods, n), |s|)
    ensures ModAt(PutAll(s, ModWrites(mods, n)), Base(i)) == Reduced(mods[i])
  {
    hide PutAll; hide PrmWrites; hide ModAt; hide Fits;
    ModWritesOk(mods, n);
    ModWritesOk(mods, n - 1);
    var ws, us := ModWrites(mods, n - 1), PrmWrites(mods[n - 1], Base(n - 1));
    WritesOk(mods[n - 1], Base(n - 1), |s|);
    PutAllConcat(s, ws, us);
    if i == n - 1 {
      ModReads(PutAll(s, ws), mods[i], Base(i));
    } else {
      ModsRead(s, mods, n - 1, i);
      ModKept(PutAll(s, ws), us, Base(i));
    }
  }

  /** Decoding returns the list, each value cut to its width, as far as the 8-bit count reaches. */
  lemma DecodeEncode(tableType: nat, mods: seq<Mod>)
    requires AllKnown(mods)
    ensures Decode(Encode(tableType, mods)) == Some(AllReduced(Counted(mods)))
  {
    hide PutAll; hide ModAt; hide Fits; hide Pow2; hide PrmWrites; hide ModWrites; hide Reduced; hide Read;
    var n, e := |mods|, Encode(tableType, mods);
    var z, hw, ws := Zeros(BufferBytes(mods)), HeaderWrites(tableType, n), ModWrites(mods, n);
    HeaderFits(tableType, n, BufferBytes(mods));
    ModWritesOk(mods, n);
    var s := PutAll(z, hw);
    assert Read(e, NUM_OF_ACTIONS) == n % 0x100 by {
      PutAllReads(z, hw, 2);
      PutAllKeeps(s, ws, NUM_OF_ACTIONS);
      Pow2Values();
    }
    forall i | 0 <= i < n ensures ModAt(e, Base(i)) == Reduced(mods[i]) {
      ModsRead(s, mods, n, i);
    }
    var d := Decode(e);
    assert d.Some? && |d.value| == n % 0x100;
    assert d.value == AllReduced(Counted(mods));
  }

  /** The command says what it is for, how many actions follow, and is as long as they are. */
  lemma HeaderDecodes(tableType: nat, mods: seq<Mod>)
    ensures var e := Encode(tableType, mods);
            && |e| == 16 + 8 * |mods| && Read(e, OPCODE) == 0x940 && Read(e, TABLE_TYPE) == tableType % 0x100
            && Read(e, NUM_OF_ACTIONS) == |mods| % 0x100
  {
    hide PutAll; hide Read; hide Pow2; hide Fits; hide ModWrites; hide Zeros;
    var n := |mods|;
    var z, hw, ws := Zeros(BufferBytes(mods)), HeaderWrites(tableType, n), ModWrites(mods, n);
    HeaderFits(tableType, n, BufferBytes(mods));
    ModWritesOk(mods, n);
    Pow2Values();
    PutAllReads(z, hw, 0);
    PutAllReads(z, hw, 1);
    PutAllReads(z, hw, 2);
    var s := PutAll(z, hw);
    PutAllKeeps(s, ws, OPCODE);
    PutAllKeeps(s, ws, TABLE_TYPE);
    PutAllKeeps(s, ws, NUM_OF_ACTIONS);
  }

  /** The type an action is sent with: 1 for a set, 3 for a copy. */
  lemma TypeDecodes(s: seq<byte>, m: Mod, base: nat)
    requires !m.Unknown? && BlockAt(base, |s|)
    ensures Read(Prm(s, m, base), ACTION_TYPE.At(base)) == if m.SetField? then 1 else 3
  {
    hide PutAll; hide Read; hide Pow2; hide BlockAt; hide Fits; hide PrmWrites;
    WritesOk(m, base, |s|);
    WriteValues(m, base);
    Pow2Values();
    PutAllReads(s, PrmWrites(m, base), 0);
  }

  /** The actions an 8-bit count covers. */
  function Counted(mods: seq<Mod>): seq<Mod> {
    mods[..|mods| % 0x100]
  }

  function AllReduced(mods: seq<Mod>): seq<Mod> {
    seq(|mods|, i requires 0 <= i < |mods| => Reduced(mods[i]))
  }

  /** The command decodes back to the list exactly when the list has at most 255 actions and
      every value fits its width. */
  lemma RoundTripExact(tableType: nat, mods: seq<Mod>)
    requires AllKnown(mods)
    ensures Decode(Encode(tableType, mods)) == Some(mods) <==>
            |mods| <= 255 && forall i | 0 <= i < |mods| :: Reduced(mods[i]) == mods[i]
  {
    hide Decode; hide Encode; hide Reduced;
    DecodeEncode(tableType, mods);
    var front := Counted(mods);
    if |mods| <= 255 {
      assert front == mods;
      var r := AllReduced(mods);
      assert forall i | 0 <= i < |mods| :: r[i] == Reduced(mods[i]);
      if forall i | 0 <= i < |mods| :: Reduced(mods[i]) == mods[i] {
        assert r == mods;
      }
    } else {
      assert |AllReduced(front)| < |mods|;
    }
  }

  /* ---------------------------------------------------------------- the root word array */

  /** The root array after its first `n` actions were encoded over `garbage`. */
  function RootAll(garbage: seq<byte>, mods: seq<Mod>, n: nat): (t: seq<byte>)
    requires n <= |mods| && |garbage| == MOD_BYTES * |mods|
    ensures |t| == |garbage|
  {
    if n == 0 then garbage else Root(RootAll(garbage, mods, n - 1), mods[n - 1], Entry(n - 1))
  }

  lemma RootKeeps(s: seq<byte>, m: Mod, base: nat, k: nat)
    requires BlockAt(base, |s|) && k < 8 * |s| && !(base <= k < base + 64)
    ensures BitAt(Root(s, m, base), k) <==> BitAt(s, k)
  {
    hide PutAll; hide Bit; hide BitAt; hide Fits;
    WritesOk(m, base, |s|);
    PutAllFrame(s, RootWrites(m, base), k);
  }

  /** Each entry of the root array equals the command encoding of the exchanged action outside
      the reserved bits, and holds its old contents in them. */
  lemma {:induction false} RootEntries(garbage: seq<byte>, mods: seq<Mod>, n: nat, i: nat, k: nat)
    requires AllKnown(mods) && i < n <= |mods| && |garbage| == MOD_BYTES * |mods| && k < 64
    ensures SameOrReserved(RootAll(garbage, mods, n), Prm(Zeros(|garbage|), Exchanged(mods[i]), Entry(i)),
                           garbage, mods[i], k, Entry(i))
  {
    hide Root; hide Prm; hide BitAt;
    var s := RootAll(garbage, mods, n - 1);
    if i == n - 1 {
      RootBit(s, mods[i], Entry(i), k);
      RootUntouched(garbage, mods, i, Entry(i) + k);
    } else {
      RootEntries(garbage, mods, n - 1, i, k);
      RootKeeps(s, mods[n - 1], Entry(n - 1), Entry(i) + k);
    }
  }

  lemma {:induction false} RootUntouched(garbage: seq<byte>, mods: seq<Mod>, n: nat, k: nat)
    requires n <= |mods| && |garbage| == MOD_BYTES * |mods| && 64 * n <= k < 8 * |garbage|
    ensures BitAt(RootAll(garbage, mods, n), k) <==> BitAt(garbage, k)
  {
    hide Root; hide BitAt;
    if n > 0 {
      RootUntouched(garbage, mods, n - 1, k);
      RootKeeps(RootAll(garbage, mods, n - 1), mods[n - 1], Entry(n - 1), k);
    }
  }

  /** Read with the command's layout, the root array holds the exchanged actions. */
  lemma {:induction false} RootDecodes(garbage: seq<byte>, mods: seq<Mod>, n: nat, i: nat)
    requires AllKnown(mods) && i < n <= |mods| && |garbage| == MOD_BYTES * |mods|
    ensures ModAt(RootAll(garbage, mods, n), Entry(i)) == Reduced(Exchanged(mods[i]))
  {
    hide Root; hide Prm; hide ModAt; hide PutAll; hide Fits; hide RootWrites;
    var s := RootAll(garbage, mods, n - 1);
    if i == n - 1 {
      RootIsPrm(s, mods[i], Entry(i));
      ModReads(s, Exchanged(mods[i]), Entry(i));
    } else {
      RootDecodes(garbage, mods, n - 1, i);
      RootKeepsMod(s, mods[n - 1], Entry(n - 1), Entry(i));
    }
  }

  lemma RootKeepsMod(s: seq<byte>, m: Mod, base: nat, other: nat)
    requires BlockAt(base, |s|) && other + 64 <= base
    ensures ModAt(Root(s, m, base), other) == ModAt(s, other)
  {
    hide ModAt; hide PutAll; hide Fits;
    WritesOk(m, base, |s|);
    ModKept(s, RootWrites(m, base), other);
  }

  /* ---------------------------------------------------------------- words */

  /** Assigning a bit-field of a word and storing it is a write of the field. */
  lemma PutOnWord(s: seq<byte>, i: nat, w: nat, f: Field, v: nat)
    requires IsDword(f) && f.off / 32 == i && 4 * i + 4 <= |s| && w < Pow2(32)
    ensures Put(Store32(s, i, w), f, v) == Store32(s, i, Merge(w, f, v))
  {
    hide Merge; hide Pow2; hide Load32;
    LoadStore(s, i, w);
  }

  lemma StoreLoaded(s: seq<byte>, i: nat)
    requires 4 * i + 4 <= |s|
    ensures Store32(s, i, Load32(s, i)) == s
  {
    hide Pow2;
    var a: nat, b: nat, c: nat, d: nat := s[4 * i], s[4 * i + 1], s[4 * i + 2], s[4 * i + 3];
    var w := Load32(s, i);
    assert w / 0x100 == 0x100 * (0x100 * a + b) + c && w % 0x100 == d;
    assert w / 0x100 / 0x100 == 0x100 * a + b && w / 0x100 % 0x100 == c;
  }

  /** A word whose bit-fields were assigned one after the other, stored over the old word. */
  function Merged(w: nat, fs: seq<Write>): (r: nat)
    requires w < Pow2(32) && forall i | 0 <= i < |fs| :: IsDword(fs[i].f)
    ensures r < Pow2(32)
  {
    if fs == [] then w
    else Merge(Merged(w, fs[..|fs| - 1]), fs[|fs| - 1].f, fs[|fs| - 1].v)
  }

  lemma {:induction false} StoreMerged(s: seq<byte>, i: nat, ws: seq<Write>)
    requires 4 * i + 4 <= |s|
    requires forall j | 0 <= j < |ws| :: IsDword(ws[j].f) && ws[j].f.off / 32 == i
    ensures AllFit(ws, |s|)
    ensures PutAll(s, ws) == Store32(s, i, Merged(Load32(s, i), ws))
    decreases |ws|
  {
    hide Merge; hide Pow2; hide Load32; hide Store32; hide Put; hide IsDword;
    if ws == [] {
      StoreLoaded(s, i);
    } else {
      var n := |ws| - 1;
      StoreMerged(s, i, ws[..n]);
      PutOnWord(s, i, Merged(Load32(s, i), ws[..n]), ws[n].f, ws[n].v);
    }
  }

  lemma PartsFit(base: nat, n: nat)
    requires BlockAt(base, n)
    ensures Fits(ACTION_TYPE.At(base), n) && Fits(FIELD_1.At(base), n) && Fits(OFFSET_1.At(base), n)
    ensures Fits(LENGTH.At(base), n) && Fits(DATA.At(base), n)
    ensures Fits(FIELD_2.At(base), n) && Fits(OFFSET_2.At(base), n)
  {
    hide Fits; hide BlockAt;
    PartFits(ACTION_TYPE, base, n);
    PartFits(FIELD_1, base, n);
    PartFits(OFFSET_1, base, n);
    PartFits(LENGTH, base, n);
    PartFits(DATA, base, n);
    PartFits(FIELD_2, base, n);
    PartFits(OFFSET_2, base, n);
  }

  lemma StepIsConcat(s: seq<byte>, mods: seq<Mod>, i: nat, t: seq<byte>)
    requires i < |mods| && |s| == BufferBytes(mods) && AllFit(ModWrites(mods, i), |s|)
    requires t == PutAll(s, ModWrites(mods, i))
    ensures AllFit(ModWrites(mods, i + 1), |s|)
    ensures Prm(t, mods[i], Base(i)) == PutAll(s, ModWrites(mods, i + 1))
  {
    hide PutAll; hide Fits; hide PrmWrites;
    WritesOk(mods[i], Base(i), |s|);
    PutAllConcat(s, ModWrites(mods, i), PrmWrites(mods[i], Base(i)));
  }

  const WORD := Field(0, 32)

  lemma WordFields()
    ensures IsDword(ACTION_TYPE) && IsDword(FIELD_1) && IsDword(LENGTH) && IsDword(OFFSET_1) && IsDword(WORD)
  {
  }

  /** The words an entry of the root array ends up with. */
  function DstWord(w: nat, m: Mod): (r: nat)
    requires w < Pow2(32) && !m.Unknown?
    ensures r < Pow2(32)
  {
    hide Merge; hide Pow2; hide IsDword;
    WordFields();
    var field, offset := if m.SetField? then m.field else m.dstField, if m.SetField? then m.offset else m.dstOffset;
    var kind := if m.SetField? then TYPE_SET else TYPE_COPY;
    Merge(Merge(Merge(Merge(w, ACTION_TYPE, kind), FIELD_1, field), LENGTH, m.length), OFFSET_1, offset)
  }

  function SrcWord(w: nat, m: Mod): (r: nat)
    requires w < Pow2(32) && !m.Unknown?
    ensures r < Pow2(32)
  {
    hide Merge; hide Pow2; hide IsDword;
    WordFields();
    if m.SetField? then Merge(w, WORD, m.data)
    else Merge(Merge(w, FIELD_1, m.srcField), OFFSET_1, m.srcOffset)
  }

  lemma MergedSnoc(w: nat, ws: seq<Write>, x: Write)
    requires w < Pow2(32) && IsDword(x.f) && forall i | 0 <= i < |ws| :: IsDword(ws[i].f)
    ensures Merged(w, ws + [x]) == Merge(Merged(w, ws), x.f, x.v)
  {
    hide Merge; hide Pow2; hide IsDword;
    assert (ws + [x])[..|ws|] == ws;
  }

  lemma MergeMoved(w: nat, f: Field, g: Field, v: nat)
    requires w < Pow2(32) && IsDword(f) && IsDword(g) && f.width == g.width && f.off % 32 == g.off % 32
    ensures Merge(w, f, v) == Merge(w, g, v)
  {
    hide Pow2; hide And; hide Or; hide Shl;
  }

  /** A field of the root entry as a field of one of its two words. */
  lemma InWord(f: Field, g: Field, i: nat, j: nat)
    requires IsDword(f) && IsDword(g) && g.width == f.width && g.off < 32 && f.off == g.off + 32 * j && j < 2
    ensures IsDword(f.At(Entry(i))) && f.At(Entry(i)).off / 32 == 2 * i + j && f.At(Entry(i)).off % 32 == g.off
  {
    DivModUnique(f.At(Entry(i)).off, 32, 2 * i + j, g.off);
  }

  lemma MergedOne(w: nat, ws: seq<Write>, f: Field, g: Field, v: nat)
    requires w < Pow2(32) && IsDword(f) && IsDword(g) && f.width == g.width && f.off % 32 == g.off % 32
    requires forall i | 0 <= i < |ws| :: IsDword(ws[i].f)
    ensures Merged(w, ws + [Write(f, v)]) == Merge(Merged(w, ws), g, v)
  {
    hide Merge; hide Merged; hide Pow2; hide IsDword;
    MergedSnoc(w, ws, Write(f, v));
    MergeMoved(Merged(w, ws), f, g, v);
  }

  lemma DstMerged(w: nat, m: Mod, i: nat)
    requires w < Pow2(32) && !m.Unknown?
    ensures forall j | 0 <= j < 4 ::
              IsDword(RootWrites(m, Entry(i))[j].f) && RootWrites(m, Entry(i))[j].f.off / 32 == 2 * i
    ensures Merged(w, RootWrites(m, Entry(i))[..4]) == DstWord(w, m)
  {
    hide Merge; hide Pow2; hide IsDword; hide Merged; hide RootWrites;
    WordFields();
    var ws := RootWrites(m, Entry(i));
    FirstWordWrites(m, i);
    MergedNone(w);
    MergedOne(w, [], ws[0].f, ACTION_TYPE, ws[0].v);
    MergedOne(w, [] + [ws[0]], ws[1].f, FIELD_1, ws[1].v);
    MergedOne(w, [] + [ws[0]] + [ws[1]], ws[2].f, LENGTH, ws[2].v);
    MergedOne(w, [] + [ws[0]] + [ws[1]] + [ws[2]], ws[3].f, OFFSET_1, ws[3].v);
    assert ws[..4] == [] + [ws[0]] + [ws[1]] + [ws[2]] + [ws[3]];
  }

  lemma MergedNone(w: nat)
    requires w < Pow2(32)
    ensures Merged(w, []) == w
  {
  }

  lemma FirstWordWrites(m: Mod, i: nat)
    requires !m.Unknown?
    ensures |RootWrites(m, Entry(i))| >= 4
    ensures forall j | 0 <= j < 4 ::
              IsDword(RootWrites(m, Entry(i))[j].f) && RootWrites(m, Entry(i))[j].f.off / 32 == 2 * i
    ensures var ws := RootWrites(m, Entry(i));
            && ws[0] == Write(ACTION_TYPE.At(Entry(i)), if m.SetField? then TYPE_SET else TYPE_COPY)
            && ws[1] == Write(FIELD_1.At(Entry(i)), if m.SetField? then m.field else m.dstField)
            && ws[2] == Write(LENGTH.At(Entry(i)), m.length)
            && ws[3] == Write(OFFSET_1.At(Entry(i)), if m.SetField? then m.offset else m.dstOffset)
    ensures forall j | 0 <= j < 4 :: RootWrites(m, Entry(i))[j].f.off % 32 ==
              (if j == 0 then ACTION_TYPE.off else if j == 1 then FIELD_1.off
               else if j == 2 then LENGTH.off else OFFSET_1.off)
  {
    hide IsDword;
    WordFields();
    InWord(ACTION_TYPE, ACTION_TYPE, i, 0);
    InWord(FIELD_1, FIELD_1, i, 0);
    InWord(LENGTH, LENGTH, i, 0);
    InWord(OFFSET_1, OFFSET_1, i, 0);
  }

  lemma SrcMerged(w: nat, m: Mod, i: nat)
    requires w < Pow2(32) && !m.Unknown?
    ensures forall j | 4 <= j < |RootWrites(m, Entry(i))| ::
              IsDword(RootWrites(m, Entry(i))[j].f) && RootWrites(m, Entry(i))[j].f.off / 32 == 2 * i + 1
    ensures Merged(w, RootWrites(m, Entry(i))[4..]) == SrcWord(w, m)
  {
    hide Merge; hide Pow2; hide IsDword;
    WordFields();
    var ws := RootWrites(m, Entry(i));
    SecondWordFields();
    InWord(DATA, WORD, i, 1);
    InWord(FIELD_2, FIELD_1, i, 1);
    InWord(OFFSET_2, OFFSET_1, i, 1);
    if m.SetField? {
      MergedOne(w, [], ws[4].f, WORD, ws[4].v);
      assert ws[4..] == [] + [ws[4]];
    } else {
      MergedOne(w, [], ws[4].f, FIELD_1, ws[4].v);
      MergedOne(w, [] + [ws[4]], ws[5].f, OFFSET_1, ws[5].v);
      assert ws[4..] == [] + [ws[4]] + [ws[5]];
    }
  }

  lemma SecondWordFields()
    ensures IsDword(DATA) && IsDword(FIELD_2) && IsDword(OFFSET_2)
  {
  }

  lemma OtherWord(s: seq<byte>, i: nat, w: nat)
    requires 4 * i + 8 <= |s| && w < Pow2(32)
    ensures Load32(Store32(s, i, w), i + 1) == Load32(s, i + 1)
  {
  }

  /** Encoding an entry is storing its two finished words. */
  lemma RootInWords(s: seq<byte>, m: Mod, i: nat)
    requires !m.Unknown? && BlockAt(Entry(i), |s|)
    ensures Root(s, m, Entry(i)) ==
            Store32(Store32(s, 2 * i, DstWord(Load32(s, 2 * i), m)), 2 * i + 1,
                    SrcWord(Load32(s, 2 * i + 1), m))
  {
    hide Merge; hide Merged; hide Pow2; hide IsDword; hide PutAll; hide Fits; hide RootWrites;
    hide Load32; hide Store32; hide DstWord; hide SrcWord;
    var ws := RootWrites(m, Entry(i));
    var d, c := Load32(s, 2 * i), Load32(s, 2 * i + 1);
    WritesOk(m, Entry(i), |s|);
    AtLeastFour(m, Entry(i));
    DstMerged(d, m, i);
    SrcMerged(c, m, i);
    assert ws == ws[..4] + ws[4..];
    PutAllConcat(s, ws[..4], ws[4..]);
    StoreMerged(s, 2 * i, ws[..4]);
    var t := Store32(s, 2 * i, DstWord(d, m));
    StoreMerged(t, 2 * i + 1, ws[4..]);
    OtherWord(s, 2 * i, DstWord(d, m));
  }

  lemma AtLeastFour(m: Mod, base: nat)
    requires !m.Unknown?
    ensures |RootWrites(m, base)| >= 4
  {
  }

  /* ---------------------------------------------------------------- flow_action_modify */

  /** How sending a command goes: no memory for its buffer, or what the device answers to it. */
  datatype Reply = NoMemory | Rejected | Created(id: u32)

  class ModifyAction {
    const tableType: nat
    const mods: seq<Mod>
    var isValid: bool
    var modifyId: u32
    var input: array?<byte>
    var root: array?<byte>

    constructor (tableType: nat, mods: seq<Mod>)
      ensures this.tableType == tableType && this.mods == mods && !isValid && modifyId == 0
      ensures input == null && root == null
    {
      this.tableType, this.mods := tableType, mods;
      isValid, modifyId, input, root := false, 0, null, null;
    }

    /** apply_modify_set_action and apply_modify_copy_action */
    static method EncodeOne(buf: array<byte>, base: nat, m: Mod)
      requires !m.Unknown? && BlockAt(base, buf.Length)
      modifies buf
      ensures buf[..] == Prm(old(buf[..]), m, base)
    {
      hide PutAll; hide Fits; hide BlockAt; hide PrmWrites;
      ghost var s, done: seq<Write> := buf[..], [];
      WritesOk(m, base, buf.Length);
      PutNothing(s);
      PartsFit(base, buf.Length);
      match m {
        case SetField(field, offset, length, data) =>
          SetNext(buf, ACTION_TYPE.At(base), TYPE_SET, s, done);
          done := done + [Write(ACTION_TYPE.At(base), TYPE_SET)];
          SetNext(buf, FIELD_1.At(base), field, s, done);
          done := done + [Write(FIELD_1.At(base), field)];
          SetNext(buf, OFFSET_1.At(base), offset, s, done);
          done := done + [Write(OFFSET_1.At(base), offset)];
          SetNext(buf, LENGTH.At(base), length, s, done);
          done := done + [Write(LENGTH.At(base), length)];
          SetNext(buf, DATA.At(base), data, s, done);
          done := done + [Write(DATA.At(base), data)];
        case CopyField(srcField, srcOffset, length, dstField, dstOffset) =>
          SetNext(buf, ACTION_TYPE.At(base), TYPE_COPY, s, done);
          done := done + [Write(ACTION_TYPE.At(base), TYPE_COPY)];
          SetNext(buf, FIELD_1.At(base), srcField, s, done);
          done := done + [Write(FIELD_1.At(base), srcField)];
          SetNext(buf, OFFSET_1.At(base), srcOffset, s, done);
          done := done + [Write(OFFSET_1.At(base), srcOffset)];
          SetNext(buf, LENGTH.At(base), length, s, done);
          done := done + [Write(LENGTH.At(base), length)];
          SetNext(buf, FIELD_2.At(base), dstField, s, done);
          done := done + [Write(FIELD_2.At(base), dstField)];
          SetNext(buf, OFFSET_2.At(base), dstOffset, s, done);
          done := done + [Write(OFFSET_2.At(base), dstOffset)];
      }
      WriteValues(m, base);
      assert done == PrmWrites(m, base);
    }

    /** prepare_prm_modify_buff */
    method PreparePrm(memory: bool) returns (st: Status)
      modifies this`input
      ensures st == if !memory then ErrNoMemory else if AllKnown(mods) then Ok else ErrNoSupport
      ensures if memory then input != null && fresh(input) && input.Length == BufferBytes(mods) else input == null
      ensures st == Ok ==> input[..] == Encode(tableType, mods)
    {
      hide PutAll; hide Fits; hide PrmWrites; hide Prm;
      if !memory {
        input := null;
        return ErrNoMemory;
      }
      var len := BufferBytes(mods);
      var buf := new byte[len](_ => 0);
      input := buf;
      assert buf[..] == Zeros(len);
      ghost var z, hw := Zeros(len), HeaderWrites(tableType, |mods|);
      HeaderFits(tableType, |mods|, len);
      PutNothing(z);
      assert AllFit(hw, len);
      assert Fits(hw[0].f, len) && Fits(hw[1].f, len) && Fits(hw[2].f, len);
      SetNext(buf, OPCODE, OP_ALLOC_MODIFY_HEADER_CONTEXT, z, []);
      SetNext(buf, TABLE_TYPE, tableType, z, [] + [hw[0]]);
      SetNext(buf, NUM_OF_ACTIONS, |mods|, z, [] + [hw[0]] + [hw[1]]);
      assert [] + [hw[0]] + [hw[1]] + [hw[2]] == hw;
      ghost var s := buf[..];
      PutNothing(s);
      for i := 0 to |mods|
        invariant AllFit(ModWrites(mods, i), len) && AllKnown(mods[..i])
        invariant buf[..] == PutAll(s, ModWrites(mods, i))
        invariant unchanged(`isValid) && unchanged(`modifyId) && unchanged(`root) && input == buf
      {
        if mods[i].Unknown? {
          return ErrNoSupport;
        }
        ghost var t := buf[..];
        EncodeOne(buf, Base(i), mods[i]);
        StepIsConcat(s, mods, i, t);
      }
      return Ok;
    }

    /** prepare_flow_desc_buffs: the words start out as whatever the allocation holds. */
    method PrepareRoot(memory: bool) returns (st: Status, ghost garbage: seq<byte>)
      modifies this`root
      ensures st == if !memory then ErrNoMemory else if AllKnown(mods) then Ok else ErrNoSupport
      ensures st == Ok ==>
                && root != null && fresh(root) && |garbage| == MOD_BYTES * |mods|
                && root[..] == RootAll(garbage, mods, |mods|)
      ensures st != Ok ==> root == old(root)
    {
      hide Root;
      if !memory {
        return ErrNoMemory, [];
      }
      var buf := new byte[MOD_BYTES * |mods|];
      garbage := buf[..];
      for i := 0 to |mods|
        invariant AllKnown(mods[..i]) && |garbage| == buf.Length
        invariant buf[..] == RootAll(garbage, mods, i)
        invariant root == old(root)
      {
        if mods[i].Unknown? {
          return ErrNoSupport, garbage;
        }
        EncodeRootOne(buf, i, mods[i]);
      }
      root := buf;
      return Ok, garbage;
    }

    /** One entry of the root array: bit-fields are assigned, then both words byte-swapped. */
    static method EncodeRootOne(buf: array<byte>, i: nat, m: Mod)
      requires !m.Unknown? && BlockAt(Entry(i), buf.Length)
      modifies buf
      ensures buf[..] == Root(old(buf[..]), m, Entry(i))
    {
      hide Merge; hide Load32; hide Store32; hide Pow2; hide Merged; hide IsDword;
      var dst, src := Load32(buf[..], 2 * i), Load32(buf[..], 2 * i + 1);
      ghost var s := buf[..];
      RootInWords(s, m, i);
      match m {
        case SetField(field, offset, length, data) =>
          WordFields();
          dst := Merge(dst, ACTION_TYPE, TYPE_SET);
          dst := Merge(dst, FIELD_1, field);
          dst := Merge(dst, LENGTH, length);
          dst := Merge(dst, OFFSET_1, offset);
          src := Merge(src, WORD, data);
        case CopyField(srcField, srcOffset, length, dstField, dstOffset) =>
          WordFields();
          dst := Merge(dst, ACTION_TYPE, TYPE_COPY);
          dst := Merge(dst, FIELD_1, dstField);
          dst := Merge(dst, LENGTH, length);
          dst := Merge(dst, OFFSET_1, dstOffset);
          src := Merge(src, FIELD_1, srcField);
          src := Merge(src, OFFSET_1, srcOffset);
      }
      StoreWord(buf, 2 * i, dst);
      StoreWord(buf, 2 * i + 1, src);
    }

    /** The lazy part of apply(): the command is sent once, on the first use. */
    method Ensure(reply: Reply) returns (st: Status)
      modifies this`isValid, this`modifyId, this`input
      ensures old(isValid) ==> st == Ok && unchanged(this)
      ensures !old(isValid) ==>
                st == (if reply.NoMemory? then ErrNoMemory else if !AllKnown(mods) then ErrNoSupport
                       else if reply.Rejected? then ErrCreate else Ok)
      ensures st == Ok ==> isValid
      ensures st == Ok && !old(isValid) ==> modifyId == reply.id
      ensures st != Ok ==> !isValid && modifyId == old(modifyId)
      ensures !old(isValid) && (st == Ok || st == ErrCreate) ==> input != null && input[..] == Encode(tableType, mods)
    {
      if isValid {
        return Ok;
      }
      st := PreparePrm(!reply.NoMemory?);
      if st != Ok {
        return;
      }
      match reply {
        case Rejected =>
          return ErrCreate;
        case Created(id) =>
          modifyId := id;
          isValid := true;
      }
    }
  }
}
