/** The bit-field command engine: MLX5_SET, MLX5_GET, MLX5_SET64 and MLX5_GET64.

    A command is a byte buffer. A field is named by its bit offset (bit 0 is the most significant
    bit of byte 0) and its width. The macros never touch single bits: they load a big-endian
    dword, mask and shift it, and store it back. `Get` and `Put` below do the same; `BitAt` and
    `FieldValue` are the bit-by-bit reference they are proved equal to. */
module CommandBuffer {
  import opened Bits

  type byte = x: int | 0 <= x < 256

  datatype Field = Field(off: nat, width: nat) {
    /** The same field of a sub-structure that starts `base` bits into the buffer. */
    function At(base: nat): Field {
      Field(base + off, width)
    }

    predicate Has(k: nat) {
      off <= k < off + width
    }
  }

  predicate Disjoint(f: Field, g: Field) {
    f.off + f.width <= g.off || g.off + g.width <= f.off
  }

  /** What MLX5_SET and MLX5_GET demand: at most 32 bits, inside one dword. */
  predicate IsDword(f: Field) {
    1 <= f.width <= 32 && f.off % 32 + f.width <= 32
  }

  /** What MLX5_SET64 demands. */
  predicate IsQword(f: Field) {
    f.width == 64 && f.off % 64 == 0
  }

  /** `f` can be accessed in a buffer of `n` bytes. */
  predicate Fits(f: Field, n: nat)
    ensures Fits(f, n) ==> f.off + f.width <= 8 * n
  {
    || (IsDword(f) && 4 * (f.off / 32) + 4 <= n)
    || (IsQword(f) && 8 * (f.off / 64) + 8 <= n)
  }

  /* ---------------------------------------------------------------- the reference semantics */

  predicate BitAt(s: seq<byte>, k: nat)
    requires k / 8 < |s|
  {
    Bit(s[k / 8], 7 - k % 8)
  }

  /** The `width` bits from bit offset `off` read as a big-endian number. */
  function FieldValue(s: seq<byte>, off: nat, width: nat): nat
    requires off + width <= 8 * |s|
  {
    if width == 0 then 0
    else 2 * FieldValue(s, off, width - 1) + (if BitAt(s, off + width - 1) then 1 else 0)
  }

  function Read(s: seq<byte>, f: Field): nat
    requires f.off + f.width <= 8 * |s|
  {
    FieldValue(s, f.off, f.width)
  }

  function Zeros(n: nat): (s: seq<byte>)
    ensures |s| == n
  {
    seq(n, _ => 0)
  }

  /* ---------------------------------------------------------------- the engine */

  /** be32_to_cpu of the `i`-th dword. */
  function Load32(s: seq<byte>, i: nat): (w: nat)
    requires 4 * i + 4 <= |s|
    ensures w < Pow2(32)
  {
    Pow2Values();
    var a: nat, b: nat, c: nat, d: nat := s[4 * i], s[4 * i + 1], s[4 * i + 2], s[4 * i + 3];
    0x100 * (0x100 * (0x100 * a + b) + c) + d
  }

  /** Stores cpu_to_be32(w) as the `i`-th dword. */
  function Store32(s: seq<byte>, i: nat, w: nat): (t: seq<byte>)
    requires 4 * i + 4 <= |s| && w < Pow2(32)
    ensures |t| == |s|
  {
    Pow2Values();
    s[4 * i := w / 0x100 / 0x100 / 0x100][4 * i + 1 := w / 0x100 / 0x100 % 0x100]
     [4 * i + 2 := w / 0x100 % 0x100][4 * i + 3 := w % 0x100]
  }

  function Load64(s: seq<byte>, i: nat): nat
    requires 8 * i + 8 <= |s|
  {
    Shl(Load32(s, 2 * i), 32) + Load32(s, 2 * i + 1)
  }

  function Store64(s: seq<byte>, i: nat, w: nat): (t: seq<byte>)
    requires 8 * i + 8 <= |s|
    ensures |t| == |s|
  {
    LowBound(Shr(w, 32), 32);
    LowBound(w, 32);
    Store32(Store32(s, 2 * i, Low(Shr(w, 32), 32)), 2 * i + 1, Low(w, 32))
  }

  /** __mlx5_dw_bit_off */
  function DwBitOff(f: Field): nat
    requires IsDword(f)
  {
    32 - f.width - f.off % 32
  }

  /** __mlx5_mask */
  function Mask(f: Field): nat {
    ShlIsMul(1, f.width);
    Shl(1, f.width) - 1
  }

  lemma MaskBound(f: Field, x: nat)
    requires IsDword(f) && x <= Mask(f)
    ensures Shl(x, DwBitOff(f)) < Pow2(32)
  {
    hide Shl; hide Pow2;
    ShlIsMul(1, f.width);
    ShlBound(x, f.width, DwBitOff(f));
    Pow2Monotonic(f.width + DwBitOff(f), 32);
  }

  /** __mlx5_dw_mask */
  function DwMask(f: Field): (m: nat)
    requires IsDword(f)
    ensures m < Pow2(32)
  {
    MaskBound(f, Mask(f));
    Shl(Mask(f), DwBitOff(f))
  }

  /** The dword that MLX5_SET stores over `w`. */
  function Merge(w: nat, f: Field, v: nat): (r: nat)
    requires IsDword(f) && w < Pow2(32)
    ensures r < Pow2(32)
  {
    var keep := And(w, Not(DwMask(f), 32));
    var put := Shl(And(v, Mask(f)), DwBitOff(f));
    assert keep < Pow2(32) by { AndBound(w, Not(DwMask(f), 32)); }
    assert put < Pow2(32) by {
      AndBound(v, Mask(f));
      MaskBound(f, And(v, Mask(f)));
    }
    OrBound(keep, put, 32);
    Or(keep, put)
  }

  /** MLX5_SET, and MLX5_SET64 for a 64-bit field. */
  function Put(s: seq<byte>, f: Field, v: nat): (t: seq<byte>)
    requires Fits(f, |s|)
    ensures |t| == |s|
  {
    if IsQword(f) then Store64(s, f.off / 64, v)
    else Store32(s, f.off / 32, Merge(Load32(s, f.off / 32), f, v))
  }

  /** MLX5_GET, and MLX5_GET64 for a 64-bit field. */
  function Get(s: seq<byte>, f: Field): nat
    requires Fits(f, |s|)
  {
    if IsQword(f) then Load64(s, f.off / 64)
    else And(Shr(Load32(s, f.off / 32), DwBitOff(f)), Mask(f))
  }

  /* ---------------------------------------------------------------- engine = reference */

  lemma BitOfByte(hi: nat, lo: nat, j: nat)
    requires lo < 0x100
    ensures Bit(0x100 * hi + lo, j) <==> if j < 8 then Bit(lo, j) else Bit(hi, j - 8)
  {
    Pow2Values();
    ShlIsMul(hi, 8);
    BitConcat(hi, lo, 8, j);
  }

  lemma LoadBit(s: seq<byte>, i: nat, j: nat)
    requires 4 * i + 4 <= |s| && j < 32
    ensures Bit(Load32(s, i), 31 - j) <==> BitAt(s, 32 * i + j)
  {
    hide Bit; hide Pow2;
    var a: nat, b: nat, c: nat, d: nat := s[4 * i], s[4 * i + 1], s[4 * i + 2], s[4 * i + 3];
    var n := 31 - j;
    BitOfByte(0x100 * (0x100 * a + b) + c, d, n);
    if n >= 8 {
      BitOfByte(0x100 * a + b, c, n - 8);
      if n >= 16 { BitOfByte(a, b, n - 16); }
    }
    assert (32 * i + j) / 8 == 4 * i + j / 8;
    assert (32 * i + j) % 8 == j % 8;
  }

  lemma LoadStore(s: seq<byte>, i: nat, w: nat)
    requires 4 * i + 4 <= |s| && w < Pow2(32)
    ensures Load32(Store32(s, i, w), i) == w
  {
    var a, b, c := w / 0x100, w / 0x100 / 0x100, w / 0x100 / 0x100 / 0x100;
    assert w == 0x100 * a + w % 0x100 && a == 0x100 * b + a % 0x100 && b == 0x100 * c + b % 0x100;
  }

  lemma StoreBit(s: seq<byte>, i: nat, w: nat, k: nat)
    requires 4 * i + 4 <= |s| && w < Pow2(32) && k / 8 < |s|
    ensures BitAt(Store32(s, i, w), k) <==>
            if k / 32 == i then Bit(w, 31 - k % 32) else BitAt(s, k)
  {
    hide Bit; hide Pow2; hide Load32;
    if k / 32 == i {
      assert 32 * i + k % 32 == k;
      LoadStore(s, i, w);
      LoadBit(Store32(s, i, w), i, k % 32);
    } else {
      assert k / 8 / 4 == k / 32;
      assert Store32(s, i, w)[k / 8] == s[k / 8];
    }
  }

  lemma MergeBit(w: nat, f: Field, v: nat, j: nat)
    requires IsDword(f) && w < Pow2(32) && j < 32
    ensures Bit(Merge(w, f, v), j) <==>
            if DwBitOff(f) <= j < DwBitOff(f) + f.width then Bit(v, j - DwBitOff(f)) else Bit(w, j)
  {
    hide Bit; hide Pow2; hide And; hide Or; hide Shl;
    var keep := And(w, Not(DwMask(f), 32));
    var put := Shl(And(v, Mask(f)), DwBitOff(f));
    ShlIsMul(1, f.width);
    BitOr(keep, put, j);
    BitAnd(w, Not(DwMask(f), 32), j);
    BitNot(DwMask(f), 32, j);
    BitShl(Mask(f), DwBitOff(f), j);
    BitShl(And(v, Mask(f)), DwBitOff(f), j);
    if j >= DwBitOff(f) {
      BitAnd(v, Mask(f), j - DwBitOff(f));
      BitOnes(f.width, j - DwBitOff(f));
    }
  }

  /** A write changes exactly the bits of its field, to the low bits of the value. */
  lemma PutBit(s: seq<byte>, f: Field, v: nat, k: nat)
    requires Fits(f, |s|) && k / 8 < |s|
    ensures BitAt(Put(s, f, v), k) <==>
            if f.Has(k) then Bit(v, f.off + f.width - 1 - k) else BitAt(s, k)
  {
    hide Bit; hide Pow2; hide Load32; hide Merge; hide BitAt; hide Store32;
    if IsQword(f) {
      PutBit64(s, f, v, k);
    } else {
      var i := f.off / 32;
      var w := Load32(s, i);
      StoreBit(s, i, Merge(w, f, v), k);
      if k / 32 == i {
        var j := 31 - k % 32;
        assert 32 * i + k % 32 == k && 32 * i + f.off % 32 == f.off;
        MergeBit(w, f, v, j);
        LoadBit(s, i, k % 32);
      } else {
        assert !f.Has(k);
      }
    }
  }

  lemma PutBit64(s: seq<byte>, f: Field, v: nat, k: nat)
    requires IsQword(f) && Fits(f, |s|) && k / 8 < |s|
    ensures BitAt(Put(s, f, v), k) <==>
            if f.Has(k) then Bit(v, f.off + f.width - 1 - k) else BitAt(s, k)
  {
    hide Bit; hide Pow2; hide BitAt; hide Store32; hide Low; hide Shr;
    var i := f.off / 64;
    assert f.off == 64 * i;
    var hi, lo := Low(Shr(v, 32), 32), Low(v, 32);
    LowBound(Shr(v, 32), 32);
    LowBound(v, 32);
    StoreBit(s, 2 * i, hi, k);
    StoreBit(Store32(s, 2 * i, hi), 2 * i + 1, lo, k);
    var j := 31 - k % 32;
    BitLow(Shr(v, 32), 32, j);
    BitShr(v, 32, j);
    BitLow(v, 32, j);
    assert k == 32 * (k / 32) + 31 - j;
  }

  lemma {:induction false} FieldBit(s: seq<byte>, off: nat, width: nat, j: nat)
    requires off + width <= 8 * |s|
    ensures FieldValue(s, off, width) < Pow2(width)
    ensures Bit(FieldValue(s, off, width), j) <==> j < width && BitAt(s, off + width - 1 - j)
  {
    hide BitAt;
    var x := FieldValue(s, off, width);
    if width == 0 {
      BitOfZero(j);
    } else {
      var y := FieldValue(s, off, width - 1);
      assert x / 2 == y && (x % 2 == 1 <==> BitAt(s, off + width - 1));
      FieldBit(s, off, width - 1, if j == 0 then 0 else j - 1);
    }
  }

  /** The masked and shifted dword read is the big-endian value of the field's bits. */
  lemma GetIsRead(s: seq<byte>, f: Field)
    requires Fits(f, |s|)
    ensures Get(s, f) == Read(s, f)
  {
    hide Bit; hide BitAt; hide Pow2; hide And; hide Shl; hide Shr; hide Load32; hide FieldValue;
    if IsQword(f) {
      Get64IsRead(s, f);
    } else {
      var w := Load32(s, f.off / 32);
      ShlIsMul(1, f.width);
      AndBound(Shr(w, DwBitOff(f)), Mask(f));
      FieldBit(s, f.off, f.width, 0);
      forall j: nat | j < f.width ensures Bit(Get(s, f), j) <==> Bit(Read(s, f), j) {
        BitAnd(Shr(w, DwBitOff(f)), Mask(f), j);
        BitOnes(f.width, j);
        BitShr(w, DwBitOff(f), j);
        LoadBit(s, f.off / 32, 31 - j - DwBitOff(f));
        FieldBit(s, f.off, f.width, j);
      }
      SameBits(Get(s, f), Read(s, f), f.width);
    }
  }

  lemma Get64IsRead(s: seq<byte>, f: Field)
    requires IsQword(f) && Fits(f, |s|)
    ensures Get(s, f) == Read(s, f)
  {
    hide Bit; hide BitAt; hide Pow2; hide Load64; hide FieldValue;
    var i, x, y := f.off / 64, Get(s, f), Read(s, f);
    Load64Bound(s, i);
    FieldBit(s, f.off, 64, 0);
    forall j: nat | j < 64 ensures Bit(x, j) <==> Bit(y, j) {
      Load64Bit(s, i, j);
      FieldBit(s, f.off, 64, j);
      assert 64 * i + 63 - j == f.off + 64 - 1 - j;
    }
    SameBits(x, y, 64);
  }

  lemma Load64Bound(s: seq<byte>, i: nat)
    requires 8 * i + 8 <= |s|
    ensures Load64(s, i) < Pow2(64)
  {
    Pow2Values();
    ShlIsMul(Load32(s, 2 * i), 32);
  }

  lemma Load64Bit(s: seq<byte>, i: nat, j: nat)
    requires 8 * i + 8 <= |s| && j < 64
    ensures Bit(Load64(s, i), j) <==> BitAt(s, 64 * i + 63 - j)
  {
    hide Bit; hide Pow2; hide Load32; hide Shl; hide BitAt;
    BitConcat(Load32(s, 2 * i), Load32(s, 2 * i + 1), 32, j);
    if j < 32 {
      LoadBit(s, 2 * i + 1, 31 - j);
    } else {
      LoadBit(s, 2 * i, 63 - j);
    }
  }

  /** Buffers with the same bits are equal. */
  lemma SameBuffer(s: seq<byte>, t: seq<byte>)
    requires |s| == |t|
    requires forall k: nat | k < 8 * |s| :: BitAt(s, k) <==> BitAt(t, k)
    ensures s == t
  {
    forall i | 0 <= i < |s| ensures s[i] == t[i] {
      forall j: nat | j < 8 ensures Bit(s[i], j) <==> Bit(t[i], j) {
        var k := 8 * i + (7 - j);
        assert BitAt(s, k) <==> BitAt(t, k);
        assert k / 8 == i && k % 8 == 7 - j;
      }
      Pow2Values();
      SameBits(s[i], t[i], 8);
    }
  }

  lemma {:induction false} SameField(s: seq<byte>, t: seq<byte>, f: Field)
    requires |s| == |t| && f.off + f.width <= 8 * |s|
    requires forall k: nat | f.Has(k) :: BitAt(s, k) <==> BitAt(t, k)
    ensures Read(s, f) == Read(t, f)
    decreases f.width
  {
    if f.width > 0 {
      assert f.Has(f.off + f.width - 1);
      var g := Field(f.off, f.width - 1);
      forall k: nat | g.Has(k) ensures BitAt(s, k) <==> BitAt(t, k) { assert f.Has(k); }
      SameField(s, t, g);
    }
  }

  lemma {:induction false} ReadBound(s: seq<byte>, f: Field)
    requires f.off + f.width <= 8 * |s|
    ensures Read(s, f) < Pow2(f.width)
    decreases f.width
  {
    hide BitAt;
    if f.width > 0 {
      ReadBound(s, Field(f.off, f.width - 1));
    }
  }

  /** A read returns the last written value reduced to the field's width. */
  lemma ReadOfPut(s: seq<byte>, f: Field, v: nat)
    requires Fits(f, |s|)
    ensures Read(Put(s, f, v), f) == v % Pow2(f.width)
  {
    hide Bit; hide BitAt; hide Pow2; hide Put; hide FieldValue; hide Low;
    var t := Put(s, f, v);
    LowIsMod(v, f.width);
    LowBound(v, f.width);
    FieldBit(t, f.off, f.width, 0);
    forall j: nat | j < f.width ensures Bit(Read(t, f), j) <==> Bit(Low(v, f.width), j) {
      FieldBit(t, f.off, f.width, j);
      BitLow(v, f.width, j);
      PutBit(s, f, v, f.off + f.width - 1 - j);
    }
    SameBits(Read(t, f), Low(v, f.width), f.width);
  }

  /** A write leaves every disjoint field alone. */
  lemma ReadOfOtherPut(s: seq<byte>, f: Field, v: nat, g: Field)
    requires Fits(f, |s|) && g.off + g.width <= 8 * |s| && Disjoint(f, g)
    ensures Read(Put(s, f, v), g) == Read(s, g)
  {
    hide Put; hide BitAt; hide Bit; hide FieldValue;
    forall k: nat | g.Has(k) ensures BitAt(Put(s, f, v), k) <==> BitAt(s, k) {
      PutBit(s, f, v, k);
    }
    SameField(Put(s, f, v), s, g);
  }

  lemma ReadOfZeros(n: nat, f: Field)
    requires f.off + f.width <= 8 * n
    ensures Read(Zeros(n), f) == 0
    decreases f.width
  {
    if f.width > 0 {
      BitOfZero(7 - (f.off + f.width - 1) % 8);
      ReadOfZeros(n, Field(f.off, f.width - 1));
    }
  }

  /* ---------------------------------------------------------------- sequences of writes */

  datatype Write = Write(f: Field, v: nat)

  predicate AllFit(ws: seq<Write>, n: nat) {
    forall i | 0 <= i < |ws| :: Fits(ws[i].f, n)
  }

  predicate PairwiseDisjoint(ws: seq<Write>) {
    forall i, j | 0 <= i < j < |ws| :: Disjoint(ws[i].f, ws[j].f)
  }

  predicate Touches(ws: seq<Write>, k: nat) {
    exists i | 0 <= i < |ws| :: ws[i].f.Has(k)
  }

  /** The buffer after the writes, in order. */
  function PutAll(s: seq<byte>, ws: seq<Write>): (t: seq<byte>)
    requires AllFit(ws, |s|)
    ensures |t| == |s|
  {
    if ws == [] then s
    else Put(PutAll(s, ws[..|ws| - 1]), ws[|ws| - 1].f, ws[|ws| - 1].v)
  }

  lemma {:induction false} PutAllConcat(s: seq<byte>, ws: seq<Write>, us: seq<Write>)
    requires AllFit(ws, |s|) && AllFit(us, |s|)
    ensures AllFit(ws + us, |s|)
    ensures PutAll(s, ws + us) == PutAll(PutAll(s, ws), us)
    decreases |us|
  {
    hide Put; hide Fits;
    if us == [] {
      assert ws + us == ws;
    } else {
      assert (ws + us)[..|ws + us| - 1] == ws + us[..|us| - 1];
      PutAllConcat(s, ws, us[..|us| - 1]);
    }
  }

  /** Writes leave every bit outside their fields alone. */
  lemma {:induction false} PutAllFrame(s: seq<byte>, ws: seq<Write>, k: nat)
    requires AllFit(ws, |s|) && k / 8 < |s| && !Touches(ws, k)
    ensures BitAt(PutAll(s, ws), k) <==> BitAt(s, k)
    decreases |ws|
  {
    hide Put; hide Fits; hide BitAt; hide Bit;
    if ws != [] {
      var n := |ws| - 1;
      PutBit(PutAll(s, ws[..n]), ws[n].f, ws[n].v, k);
      PutAllFrame(s, ws[..n], k);
    }
  }

  /** With disjoint fields, every written bit is the bit of its own write. */
  lemma {:induction false} PutAllBit(s: seq<byte>, ws: seq<Write>, i: nat, k: nat)
    requires AllFit(ws, |s|) && PairwiseDisjoint(ws)
    requires i < |ws| && ws[i].f.Has(k) && k / 8 < |s|
    ensures BitAt(PutAll(s, ws), k) <==> Bit(ws[i].v, ws[i].f.off + ws[i].f.width - 1 - k)
    decreases |ws|
  {
    hide Put; hide Fits; hide Bit; hide BitAt;
    var n, us := |ws| - 1, ws[..|ws| - 1];
    PutBit(PutAll(s, us), ws[n].f, ws[n].v, k);
    if i < n {
      assert Disjoint(ws[i].f, ws[n].f);
      assert us[i] == ws[i];
      PutAllBit(s, us, i, k);
    }
  }

  predicate SameWrites(ws: seq<Write>, us: seq<Write>) {
    && (forall i | 0 <= i < |ws| :: ws[i] in us)
    && (forall i | 0 <= i < |us| :: us[i] in ws)
  }

  /** Disjoint writes may be done in any order. */
  lemma PutAllAnyOrder(s: seq<byte>, ws: seq<Write>, us: seq<Write>)
    requires AllFit(ws, |s|) && AllFit(us, |s|)
    requires PairwiseDisjoint(ws) && PairwiseDisjoint(us)
    requires SameWrites(ws, us)
    ensures PutAll(s, ws) == PutAll(s, us)
  {
    hide PutAll; hide Put; hide Fits;
    forall k: nat | k < 8 * |s| ensures BitAt(PutAll(s, ws), k) <==> BitAt(PutAll(s, us), k) {
      if Touches(ws, k) {
        var i: nat :| i < |ws| && ws[i].f.Has(k);
        var j := IndexOf(us, ws[i]);
        PutAllBit(s, ws, i, k);
        PutAllBit(s, us, j, k);
      } else {
        NotTouched(ws, us, k);
        PutAllFrame(s, ws, k);
        PutAllFrame(s, us, k);
      }
    }
    SameBuffer(PutAll(s, ws), PutAll(s, us));
  }

  ghost function IndexOf(ws: seq<Write>, w: Write): (i: nat)
    requires w in ws
    ensures i < |ws| && ws[i] == w
  {
    if ws[0] == w then 0 else 1 + IndexOf(ws[1..], w)
  }

  lemma NotTouched(ws: seq<Write>, us: seq<Write>, k: nat)
    requires SameWrites(ws, us) && !Touches(ws, k)
    ensures !Touches(us, k)
  {
    forall j | 0 <= j < |us| ensures !us[j].f.Has(k) {
      var i := IndexOf(ws, us[j]);
      assert !ws[i].f.Has(k);
    }
  }

  /** With disjoint fields, every written field reads back as its own value. */
  lemma PutAllReads(s: seq<byte>, ws: seq<Write>, i: nat)
    requires AllFit(ws, |s|) && PairwiseDisjoint(ws) && i < |ws|
    ensures Read(PutAll(s, ws), ws[i].f) == ws[i].v % Pow2(ws[i].f.width)
  {
    hide Put; hide Fits; hide BitAt; hide Bit; hide Pow2; hide PutAll; hide FieldValue;
    var t, f := PutAll(s, ws), ws[i].f;
    forall k: nat | f.Has(k) ensures BitAt(t, k) <==> BitAt(Put(s, f, ws[i].v), k) {
      PutAllBit(s, ws, i, k);
      PutBit(s, f, ws[i].v, k);
    }
    SameField(t, Put(s, f, ws[i].v), f);
    ReadOfPut(s, f, ws[i].v);
  }

  /** A field disjoint from all the written ones keeps its value. */
  lemma PutAllKeeps(s: seq<byte>, ws: seq<Write>, g: Field)
    requires AllFit(ws, |s|) && g.off + g.width <= 8 * |s|
    requires forall i | 0 <= i < |ws| :: Disjoint(ws[i].f, g)
    ensures Read(PutAll(s, ws), g) == Read(s, g)
  {
    hide Put; hide Fits; hide BitAt; hide Bit; hide PutAll; hide FieldValue;
    forall k: nat | g.Has(k) ensures BitAt(PutAll(s, ws), k) <==> BitAt(s, k) {
      PutAllFrame(s, ws, k);
    }
    SameField(PutAll(s, ws), s, g);
  }

  /* ---------------------------------------------------------------- layouts */

  /** A layout of pairwise disjoint fields, each accessible in a buffer of `n` bytes. */
  ghost predicate IsLayout(layout: set<Field>, n: nat) {
    && (forall f | f in layout :: Fits(f, n))
    && (forall f, g | f in layout && g in layout && f != g :: Disjoint(f, g))
  }

  /** The field-to-value map a buffer represents. */
  ghost function Abstract(s: seq<byte>, layout: set<Field>): map<Field, nat>
    requires IsLayout(layout, |s|)
  {
    map f | f in layout :: Read(s, f)
  }

  /** The writes as updates of a field-to-value map. */
  ghost function Update(m: map<Field, nat>, ws: seq<Write>): map<Field, nat> {
    if ws == [] then m
    else
      var w := ws[|ws| - 1];
      Update(m, ws[..|ws| - 1])[w.f := w.v % Pow2(w.f.width)]
  }

  /** For every layout and every run of writes to its fields, the buffer refines the map. */
  lemma {:induction false} WritesRefineMap(s: seq<byte>, layout: set<Field>, ws: seq<Write>)
    requires IsLayout(layout, |s|)
    requires forall i | 0 <= i < |ws| :: ws[i].f in layout
    ensures AllFit(ws, |s|)
    ensures Abstract(PutAll(s, ws), layout) == Update(Abstract(s, layout), ws)
    decreases |ws|
  {
    hide Put; hide Read; hide Fits; hide Disjoint; hide Pow2;
    if ws != [] {
      var n := |ws| - 1;
      WritesRefineMap(s, layout, ws[..n]);
      var t, f := PutAll(s, ws[..n]), ws[n].f;
      ReadOfPut(t, f, ws[n].v);
      forall g | g in layout && g != f ensures Read(Put(t, f, ws[n].v), g) == Read(t, g) {
        ReadOfOtherPut(t, f, ws[n].v, g);
      }
    }
  }

  ghost predicate Covers(layout: set<Field>, k: nat) {
    exists f :: f in layout && f.Has(k)
  }

  /** A buffer whose every bit belongs to the layout is determined by the map it represents. */
  lemma AbstractInjective(s: seq<byte>, t: seq<byte>, layout: set<Field>)
    requires |s| == |t| && IsLayout(layout, |s|)
    requires forall k: nat | k < 8 * |s| :: Covers(layout, k)
    requires Abstract(s, layout) == Abstract(t, layout)
    ensures s == t
  {
    hide BitAt; hide Bit; hide FieldValue; hide Pow2;
    forall k: nat | k < 8 * |s| ensures BitAt(s, k) <==> BitAt(t, k) {
      assert Covers(layout, k);
      var f :| f in layout && f.Has(k);
      assert Abstract(s, layout)[f] == Abstract(t, layout)[f];
      FieldBit(s, f.off, f.width, f.off + f.width - 1 - k);
      FieldBit(t, f.off, f.width, f.off + f.width - 1 - k);
    }
    SameBuffer(s, t);
  }

  /* ---------------------------------------------------------------- bytes stored directly */

  /** The number whose big-endian bytes are `bs` (htobe16, htobe32, htobe64 and plain copies). */
  function BeValue(bs: seq<byte>): nat {
    if bs == [] then 0
    else
      var last: nat := bs[|bs| - 1];
      0x100 * BeValue(bs[..|bs| - 1]) + last
  }

  /** `s` with the bytes from `o` on overwritten by `bs`. */
  function Splice(s: seq<byte>, o: nat, bs: seq<byte>): (t: seq<byte>)
    requires o + |bs| <= |s|
    ensures |t| == |s|
  {
    s[..o] + bs + s[o + |bs|..]
  }

  lemma {:induction false} BeBit(bs: seq<byte>, j: nat)
    requires j < 8 * |bs|
    ensures Bit(BeValue(bs), j) <==> BitAt(bs, 8 * |bs| - 1 - j)
    decreases |bs|
  {
    hide Bit;
    var n := |bs| - 1;
    BitOfByte(BeValue(bs[..n]), bs[n], j);
    var k := 8 * |bs| - 1 - j;
    if j < 8 {
      assert k / 8 == n && k % 8 == 7 - j;
    } else {
      BeBit(bs[..n], j - 8);
      assert k / 8 < n;
    }
  }

  lemma {:induction false} BeBound(bs: seq<byte>)
    ensures BeValue(bs) < Pow2(8 * |bs|)
    decreases |bs|
  {
    if bs != [] {
      BeBound(bs[..|bs| - 1]);
      Pow2Values();
      Pow2Sum(8 * (|bs| - 1), 8);
    }
  }

  /** Reading a byte-aligned field reads the big-endian value of its bytes. */
  lemma {:induction false} ReadBytes(s: seq<byte>, o: nat, n: nat)
    requires o + n <= |s|
    ensures Read(s, Field(8 * o, 8 * n)) == BeValue(s[o..o + n])
  {
    hide Bit; hide BitAt; hide FieldValue; hide BeValue; hide Pow2;
    var f, bs := Field(8 * o, 8 * n), s[o..o + n];
    BeBound(bs);
    FieldBit(s, f.off, f.width, 0);
    forall j: nat | j < 8 * n ensures Bit(Read(s, f), j) <==> Bit(BeValue(bs), j) {
      FieldBit(s, f.off, f.width, j);
      BeBit(bs, j);
      BitOfSlice(s, o, n, 8 * n - 1 - j);
    }
    SameBits(Read(s, f), BeValue(bs), 8 * n);
  }

  lemma BitOfSlice(s: seq<byte>, o: nat, n: nat, k: nat)
    requires o + n <= |s| && k < 8 * n
    ensures BitAt(s[o..o + n], k) <==> BitAt(s, 8 * o + k)
  {
    assert (8 * o + k) / 8 == o + k / 8 && (8 * o + k) % 8 == k % 8;
  }

  /** Storing bytes over a byte-aligned field is a write of their big-endian value. */
  lemma PutIsStoreBytes(s: seq<byte>, o: nat, bs: seq<byte>)
    requires Fits(Field(8 * o, 8 * |bs|), |s|)
    ensures Put(s, Field(8 * o, 8 * |bs|), BeValue(bs)) == Splice(s, o, bs)
  {
    hide Put; hide Bit; hide BeValue; hide Fits; hide BitAt; hide Splice;
    var f, v, t := Field(8 * o, 8 * |bs|), BeValue(bs), Splice(s, o, bs);
    forall k: nat | k < 8 * |s| ensures BitAt(Put(s, f, v), k) <==> BitAt(t, k) {
      PutBit(s, f, v, k);
      BitOfSplice(s, o, bs, k);
      if f.Has(k) { BeBit(bs, f.off + f.width - 1 - k); }
    }
    SameBuffer(Put(s, f, v), t);
  }

  lemma BitOfSplice(s: seq<byte>, o: nat, bs: seq<byte>, k: nat)
    requires o + |bs| <= |s| && k < 8 * |s|
    ensures BitAt(Splice(s, o, bs), k) <==>
            if 8 * o <= k < 8 * (o + |bs|) then BitAt(bs, k - 8 * o) else BitAt(s, k)
  {
    hide Bit;
    var i := k / 8;
    if o <= i < o + |bs| {
      assert (k - 8 * o) / 8 == i - o && (k - 8 * o) % 8 == k % 8;
      assert (Splice(s, o, bs))[i] == bs[i - o];
    } else {
      assert (Splice(s, o, bs))[i] == s[i];
    }
  }

  /* ---------------------------------------------------------------- the macros in place */

  /** MLX5_SET / MLX5_SET64 on a buffer in memory. */
  method Set(buf: array<byte>, f: Field, v: nat)
    requires Fits(f, buf.Length)
    modifies buf
    ensures buf[..] == Put(old(buf[..]), f, v)
  {
    if IsQword(f) {
      var w := Low(v, 64);
      LowBound(v, 64);
      Pow2Values();
      StoreWord(buf, 2 * (f.off / 64), w / 0x1_0000_0000);
      StoreWord(buf, 2 * (f.off / 64) + 1, w % 0x1_0000_0000);
      HalvesOf64(v);
    } else {
      var i := f.off / 32;
      var word := Load32(buf[..], i);
      StoreWord(buf, i, Merge(word, f, v));
    }
  }

  /** One more write of a run: the buffer keeps being `s` after the writes done so far. */
  method SetNext(buf: array<byte>, f: Field, v: nat, ghost s: seq<byte>, ghost done: seq<Write>)
    requires |s| == buf.Length && Fits(f, buf.Length) && AllFit(done, |s|)
    requires buf[..] == PutAll(s, done)
    modifies buf
    ensures AllFit(done + [Write(f, v)], |s|)
    ensures buf[..] == PutAll(s, done + [Write(f, v)])
  {
    hide Put; hide Fits;
    Set(buf, f, v);
    PutAllSnoc(s, done, Write(f, v));
  }

  lemma PutNothing(s: seq<byte>)
    ensures PutAll(s, []) == s
  {
  }

  lemma PutAllSnoc(s: seq<byte>, ws: seq<Write>, w: Write)
    requires AllFit(ws, |s|) && Fits(w.f, |s|)
    ensures AllFit(ws + [w], |s|)
    ensures PutAll(s, ws + [w]) == Put(PutAll(s, ws), w.f, w.v)
  {
    hide Put; hide Fits;
    assert (ws + [w])[..|ws|] == ws;
  }

  /** A run of bytes copied into the buffer. */
  method StoreBytes(buf: array<byte>, o: nat, bs: seq<byte>)
    requires o + |bs| <= buf.Length
    modifies buf
    ensures buf[..] == Splice(old(buf[..]), o, bs)
  {
    for i := 0 to |bs|
      invariant forall k | 0 <= k < buf.Length ::
                  buf[k] == if o <= k < o + i then bs[k - o] else old(buf[k])
    {
      buf[o + i] := bs[i];
    }
  }

  lemma HalvesOf64(v: nat)
    ensures Low(v, 64) / 0x1_0000_0000 == Low(Shr(v, 32), 32)
    ensures Low(v, 64) % 0x1_0000_0000 == Low(v, 32)
  {
    var w := Low(v, 64);
    LowBound(v, 64);
    Pow2Values();
    ShrIsDiv(w, 32);
    LowIsMod(w, 32);
    LowBound(Shr(v, 32), 32);
    LowBound(w, 32);
    LowBound(v, 32);
    forall j: nat | j < 32
      ensures Bit(Shr(w, 32), j) <==> Bit(Low(Shr(v, 32), 32), j)
      ensures Bit(Low(w, 32), j) <==> Bit(Low(v, 32), j)
    {
      BitShr(w, 32, j);
      BitLow(v, 64, j + 32);
      BitLow(Shr(v, 32), 32, j);
      BitShr(v, 32, j);
      BitLow(w, 32, j);
      BitLow(v, 64, j);
      BitLow(v, 32, j);
    }
    SameBits(Shr(w, 32), Low(Shr(v, 32), 32), 32);
    SameBits(Low(w, 32), Low(v, 32), 32);
  }

  method StoreWord(buf: array<byte>, i: nat, w: nat)
    requires 4 * i + 4 <= buf.Length && w < Pow2(32)
    modifies buf
    ensures buf[..] == Store32(old(buf[..]), i, w)
  {
    Pow2Values();
    buf[4 * i] := w / 0x100 / 0x100 / 0x100;
    buf[4 * i + 1] := w / 0x100 / 0x100 % 0x100;
    buf[4 * i + 2] := w / 0x100 % 0x100;
    buf[4 * i + 3] := w % 0x100;
  }
}
