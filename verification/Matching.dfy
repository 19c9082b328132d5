/** What a device does with a mask buffer and a value buffer, and what that means field by field. */
module Matching {
  import opened Bits
  import opened CommandBuffer

  /** A packet matches when it equals the value under the mask, byte for byte. */
  predicate Matches(packet: seq<byte>, mask: seq<byte>, value: seq<byte>)
    requires |packet| == |mask| == |value|
  {
    forall i | 0 <= i < |packet| :: And(packet[i], mask[i]) == And(value[i], mask[i])
  }

  predicate AgreesUnder(x: nat, y: nat, mask: nat) {
    And(x, mask) == And(y, mask)
  }

  predicate BitAgrees(x: nat, y: nat, mask: nat, j: nat) {
    Bit(mask, j) ==> (Bit(x, j) <==> Bit(y, j))
  }

  /** Agreement under a mask of `n` bits is agreement on the mask's bits. */
  lemma AgreesBitwise(x: nat, y: nat, mask: nat, n: nat)
    requires mask < Pow2(n)
    ensures AgreesUnder(x, y, mask) <==> forall j: nat | j < n :: BitAgrees(x, y, mask, j)
  {
    hide And; hide Pow2;
    forall j: nat | j < n
      ensures BitAgrees(x, y, mask, j) <==> (Bit(And(x, mask), j) <==> Bit(And(y, mask), j))
    {
      BitAnd(x, mask, j);
      BitAnd(y, mask, j);
    }
    AndBound(x, mask);
    AndBound(y, mask);
    if forall j: nat | j < n :: BitAgrees(x, y, mask, j) {
      SameBits(And(x, mask), And(y, mask), n);
    }
  }

  predicate AgreesAtBit(packet: seq<byte>, mask: seq<byte>, value: seq<byte>, k: nat)
    requires |packet| == |mask| == |value| && k < 8 * |packet|
  {
    BitAt(mask, k) ==> (BitAt(packet, k) <==> BitAt(value, k))
  }

  lemma MatchesBitwise(packet: seq<byte>, mask: seq<byte>, value: seq<byte>)
    requires |packet| == |mask| == |value|
    ensures Matches(packet, mask, value) <==>
            forall k: nat | k < 8 * |packet| :: AgreesAtBit(packet, mask, value, k)
  {
    hide Bit; hide And; hide Pow2;
    assert 0x100 == Pow2(8) by { Pow2Values(); }
    forall i | 0 <= i < |packet| { AgreesBitwise(packet[i], value[i], mask[i], 8); }
    if Matches(packet, mask, value) {
      forall k: nat | k < 8 * |packet| ensures AgreesAtBit(packet, mask, value, k) {
        assert BitAgrees(packet[k / 8], value[k / 8], mask[k / 8], 7 - k % 8);
      }
    } else if forall k: nat | k < 8 * |packet| :: AgreesAtBit(packet, mask, value, k) {
      forall i | 0 <= i < |packet| ensures AgreesUnder(packet[i], value[i], mask[i]) {
        forall j: nat | j < 8 ensures BitAgrees(packet[i], value[i], mask[i], j) {
          assert (8 * i + 7 - j) / 8 == i && (8 * i + 7 - j) % 8 == 7 - j;
          assert AgreesAtBit(packet, mask, value, 8 * i + 7 - j);
        }
      }
    }
  }

  /** The packet's field `f` agrees with `value` under `mask`, both reduced to the field. */
  predicate FieldAgrees(packet: seq<byte>, f: Field, mask: nat, value: nat)
    requires f.off + f.width <= 8 * |packet|
  {
    AgreesUnder(Read(packet, f), value % Pow2(f.width), mask % Pow2(f.width))
  }

  predicate FieldAgreesAt(packet: seq<byte>, f: Field, mask: nat, value: nat, k: nat)
    requires f.off + f.width <= 8 * |packet| && f.Has(k)
  {
    var j := f.off + f.width - 1 - k;
    Bit(mask, j) ==> (BitAt(packet, k) <==> Bit(value, j))
  }

  lemma FieldAgreesBitwise(packet: seq<byte>, f: Field, mask: nat, value: nat)
    requires f.off + f.width <= 8 * |packet|
    ensures FieldAgrees(packet, f, mask, value) <==>
            forall k: nat | f.Has(k) :: FieldAgreesAt(packet, f, mask, value, k)
  {
    hide Bit; hide And; hide Pow2; hide BitAt; hide FieldValue; hide Low; hide AgreesUnder;
    var w, e := f.width, f.off + f.width - 1;
    var x, y, m := Read(packet, f), Low(value, w), Low(mask, w);
    LowIsMod(mask, w);
    LowIsMod(value, w);
    LowBound(mask, w);
    AgreesBitwise(x, y, m, w);
    forall j: nat | j < w
      ensures BitAgrees(x, y, m, j) <==> FieldAgreesAt(packet, f, mask, value, e - j)
    {
      BitLow(mask, w, j);
      BitLow(value, w, j);
      FieldBit(packet, f.off, w, j);
    }
    if FieldAgrees(packet, f, mask, value) {
      forall k: nat | f.Has(k) ensures FieldAgreesAt(packet, f, mask, value, k) {
        assert BitAgrees(x, y, m, e - k);
      }
    } else {
      var j: nat :| j < w && !BitAgrees(x, y, m, j);
      assert f.Has(e - j);
    }
  }

  /** The same fields are written with masks and with values. */
  predicate SameFields(ms: seq<Write>, vs: seq<Write>) {
    && |ms| == |vs|
    && (forall i | 0 <= i < |ms| :: ms[i].f == vs[i].f)
  }

  predicate AllAgree(packet: seq<byte>, ms: seq<Write>, vs: seq<Write>)
    requires SameFields(ms, vs) && AllFit(ms, |packet|)
  {
    forall i | 0 <= i < |ms| :: FieldAgrees(packet, ms[i].f, ms[i].v, vs[i].v)
  }

  /** For any disjoint fields, matching the two buffers is agreeing on every field. */
  lemma MatchIsFieldwise(packet: seq<byte>, ms: seq<Write>, vs: seq<Write>)
    requires SameFields(ms, vs) && AllFit(ms, |packet|) && PairwiseDisjoint(ms)
    ensures AllFit(vs, |packet|)
    ensures Matches(packet, PutAll(Zeros(|packet|), ms), PutAll(Zeros(|packet|), vs)) <==>
            AllAgree(packet, ms, vs)
  {
    hide PutAll; hide FieldAgrees; hide Matches; hide BitAt; hide Bit; hide Fits;
    assert PairwiseDisjoint(vs) by {
      forall i, j | 0 <= i < j < |vs| ensures Disjoint(vs[i].f, vs[j].f) {
        assert Disjoint(ms[i].f, ms[j].f);
      }
    }
    var n := |packet|;
    var m, v := PutAll(Zeros(n), ms), PutAll(Zeros(n), vs);
    MatchesBitwise(packet, m, v);
    if AllAgree(packet, ms, vs) {
      forall k: nat | k < 8 * n ensures AgreesAtBit(packet, m, v, k) {
        AgreesFieldToBit(packet, ms, vs, k);
      }
    } else {
      var i :| 0 <= i < |ms| && !FieldAgrees(packet, ms[i].f, ms[i].v, vs[i].v);
      var k := DisagreeingBit(packet, ms, vs, i);
    }
  }

  lemma AgreesFieldToBit(packet: seq<byte>, ms: seq<Write>, vs: seq<Write>, k: nat)
    requires SameFields(ms, vs) && AllFit(ms, |packet|) && AllFit(vs, |packet|)
    requires PairwiseDisjoint(ms) && PairwiseDisjoint(vs)
    requires AllAgree(packet, ms, vs) && k < 8 * |packet|
    ensures AgreesAtBit(packet, PutAll(Zeros(|packet|), ms), PutAll(Zeros(|packet|), vs), k)
  {
    hide PutAll; hide FieldAgrees; hide Bit; hide Fits;
    var z := Zeros(|packet|);
    if Touches(ms, k) {
      var i: nat :| i < |ms| && ms[i].f.Has(k);
      PutAllBit(z, ms, i, k);
      PutAllBit(z, vs, i, k);
      FieldAgreesBitwise(packet, ms[i].f, ms[i].v, vs[i].v);
      assert FieldAgreesAt(packet, ms[i].f, ms[i].v, vs[i].v, k);
    } else {
      PutAllFrame(z, ms, k);
      BitOfZero(7 - k % 8);
    }
  }

  lemma DisagreeingBit(packet: seq<byte>, ms: seq<Write>, vs: seq<Write>, i: nat) returns (k: nat)
    requires SameFields(ms, vs) && AllFit(ms, |packet|) && AllFit(vs, |packet|)
    requires PairwiseDisjoint(ms) && PairwiseDisjoint(vs)
    requires i < |ms| && !FieldAgrees(packet, ms[i].f, ms[i].v, vs[i].v)
    ensures k < 8 * |packet|
    ensures !AgreesAtBit(packet, PutAll(Zeros(|packet|), ms), PutAll(Zeros(|packet|), vs), k)
  {
    hide PutAll; hide FieldAgrees; hide Bit; hide BitAt; hide Fits;
    var z, f := Zeros(|packet|), ms[i].f;
    FieldAgreesBitwise(packet, f, ms[i].v, vs[i].v);
    k :| f.Has(k) && !FieldAgreesAt(packet, f, ms[i].v, vs[i].v, k);
    PutAllBit(z, ms, i, k);
    PutAllBit(z, vs, i, k);
  }

  /* ---------------------------------------------------------------- byte strings under a mask */

  lemma {:induction false} AndConcat(a: nat, b: nat, c: nat, d: nat, n: nat)
    requires b < Pow2(n) && d < Pow2(n)
    ensures And(Shl(a, n) + b, Shl(c, n) + d) == Shl(And(a, c), n) + And(b, d)
  {
    hide And;
    if n == 0 {
      AndZero(b, d);
    } else {
      AndConcat(a, b / 2, c, d / 2, n - 1);
      HalfOfConcat(a, b, n);
      HalfOfConcat(c, d, n);
      AndHalves(Shl(a, n) + b, Shl(c, n) + d);
      AndHalves(b, d);
    }
  }

  lemma AndZero(b: nat, d: nat)
    requires b == 0 && d == 0
    ensures And(b, d) == 0
  {
  }

  lemma HalfOfConcat(a: nat, b: nat, n: nat)
    requires n > 0
    ensures (Shl(a, n) + b) / 2 == Shl(a, n - 1) + b / 2 && (Shl(a, n) + b) % 2 == b % 2
  {
  }

  lemma AndHalves(x: nat, y: nat)
    ensures And(x, y) == 2 * And(x / 2, y / 2) + (if x % 2 == 1 && y % 2 == 1 then 1 else 0)
  {
  }

  lemma AndBytes(a: nat, b: nat, c: nat, d: nat)
    requires b < 0x100 && d < 0x100
    ensures And(0x100 * a + b, 0x100 * c + d) == 0x100 * And(a, c) + And(b, d)
    ensures And(b, d) < 0x100
  {
    Pow2Values();
    ShlIsMul(a, 8);
    ShlIsMul(c, 8);
    ShlIsMul(And(a, c), 8);
    AndConcat(a, b, c, d, 8);
    AndBound(b, d);
  }

  /** Big-endian numbers agree under a mask exactly when their bytes do. */
  lemma {:induction false} BytesAgree(xs: seq<byte>, ys: seq<byte>, ms: seq<byte>)
    requires |xs| == |ys| == |ms|
    ensures AgreesUnder(BeValue(xs), BeValue(ys), BeValue(ms)) <==>
            forall i | 0 <= i < |xs| :: AgreesUnder(xs[i], ys[i], ms[i])
    decreases |xs|
  {
    hide And;
    if xs != [] {
      var n := |xs| - 1;
      BytesAgree(xs[..n], ys[..n], ms[..n]);
      AndBytes(BeValue(xs[..n]), xs[n], BeValue(ms[..n]), ms[n]);
      AndBytes(BeValue(ys[..n]), ys[n], BeValue(ms[..n]), ms[n]);
    }
  }

  /** A byte-aligned field agrees with given bytes exactly when the packet's bytes do. */
  lemma ByteFieldAgrees(packet: seq<byte>, o: nat, ms: seq<byte>, vs: seq<byte>)
    requires |ms| == |vs| && o + |ms| <= |packet|
    ensures FieldAgrees(packet, Field(8 * o, 8 * |ms|), BeValue(ms), BeValue(vs)) <==>
            forall i | 0 <= i < |ms| :: AgreesUnder(packet[o + i], vs[i], ms[i])
  {
    hide Pow2; hide AgreesUnder; hide BeValue; hide Read;
    var n, bs := |ms|, packet[o..o + |ms|];
    ReadBytes(packet, o, n);
    BeBound(ms);
    BeBound(vs);
    ModSmall(BeValue(ms), Pow2(8 * n));
    ModSmall(BeValue(vs), Pow2(8 * n));
    BytesAgree(bs, vs, ms);
    assert forall i | 0 <= i < n :: packet[o + i] == bs[i];
  }
}
