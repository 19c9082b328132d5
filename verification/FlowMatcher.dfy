/** flow_matcher: turns match criteria and match values into device match buffers.

    `Items` lists the fields one call of `apply` writes, in program order; the class at the end of
    the module writes them in place. The theorems say what a pair of such buffers means. */
module FlowMatcher {
  import opened Bits
  import opened Common
  import opened CommandBuffer
  import opened Matching

  /** A MAC address as the API passes it: six bytes and two of padding. */
  type Mac = s: seq<byte> | |s| == 8 witness [0, 0, 0, 0, 0, 0, 0, 0]

  const ZERO_MAC: Mac := [0, 0, 0, 0, 0, 0, 0, 0]

  datatype Lyr2 = Lyr2(srcMac: Mac, dstMac: Mac, ethertype: u16, firstVlanId: u16)
  datatype Lyr3 = Lyr3(srcIp: u32, dstIp: u32, ipProtocol: u8, ipVersion: u4)
  datatype Lyr4 = Lyr4(kind: int, srcPort: u16, dstPort: u16)
  datatype Sample = Sample(val: u32, id: u32)
  datatype MatchParams = MatchParams(lyr2: Lyr2, lyr3: Lyr3, lyr4: Lyr4,
                                     samples: seq<Sample>, metadataRegC0: u32)
  datatype MatcherAttr = MatcherAttr(criteria: MatchParams, enabled: u8)

  const L4_NONE := 0
  const L4_TCP := 1
  const L4_UDP := 2
  const MATCH_OUTER_HDR := 0x1
  const MATCH_METADATA_REG_C_0 := 0x8
  const MATCH_PARSER_FIELDS := 0x20
  const MAX_SAMPLES := 8

  /** Bytes of a match parameter block. */
  const PARAM_BYTES := 512

  predicate OuterEnabled(a: MatcherAttr) { And(a.enabled, MATCH_OUTER_HDR) != 0 }
  predicate ParserEnabled(a: MatcherAttr) { And(a.enabled, MATCH_PARSER_FIELDS) != 0 }
  predicate MetadataEnabled(a: MatcherAttr) { And(a.enabled, MATCH_METADATA_REG_C_0) != 0 }

  /* ---------------------------------------------------------------- layout */

  datatype Slot =
    | Dmac47 | Dmac15 | Smac47 | Smac15 | Ethertype | FirstVid | CvlanTag
    | DstIp | SrcIp | IpProtocol | IpVersion
    | UdpDport | UdpSport | TcpDport | TcpSport
    | SampleValue(i: nat) | SampleId(i: nat) | RegC0

  predicate ValidSlot(x: Slot) {
    (x.SampleValue? || x.SampleId?) ==> x.i < MAX_SAMPLES
  }

  function FieldOf(x: Slot): (f: Field)
    ensures ValidSlot(x) ==> f.off + f.width <= 8 * PARAM_BYTES
  {
    match x
    case Smac47 => Field(0x0, 32)
    case Smac15 => Field(0x20, 16)
    case Ethertype => Field(0x30, 16)
    case Dmac47 => Field(0x40, 32)
    case Dmac15 => Field(0x60, 16)
    case FirstVid => Field(0x74, 12)
    case IpProtocol => Field(0x80, 8)
    case CvlanTag => Field(0x90, 1)
    case IpVersion => Field(0x93, 4)
    case TcpSport => Field(0xa0, 16)
    case TcpDport => Field(0xb0, 16)
    case UdpSport => Field(0xe0, 16)
    case UdpDport => Field(0xf0, 16)
    case SrcIp => Field(0x160, 32)
    case DstIp => Field(0x1e0, 32)
    case RegC0 => Field(0x760, 32)
    case SampleValue(i) => Field(0xa00 + 64 * i, 32)
    case SampleId(i) => Field(0xa20 + 64 * i, 32)
  }

  lemma SlotFits(x: Slot, base: nat, n: nat)
    requires ValidSlot(x) && base % 32 == 0 && base / 8 + PARAM_BYTES <= n
    ensures Fits(FieldOf(x).At(base), n)
  {
    var f, b := FieldOf(x), base / 32;
    assert f.off % 32 + f.width <= 32 && f.off / 32 < 128;
    assert base == 32 * b && f.At(base).off / 32 == b + f.off / 32 && f.At(base).off % 32 == f.off % 32;
  }

  /** The slots of the layout do not overlap. */
  lemma SlotsDisjoint(x: Slot, y: Slot, base: nat)
    requires ValidSlot(x) && ValidSlot(y) && x != y
    ensures Disjoint(FieldOf(x).At(base), FieldOf(y).At(base))
  {
  }

  /* ---------------------------------------------------------------- what apply() writes */

  datatype Item = Item(slot: Slot, v: nat)

  function Opt(c: bool, items: seq<Item>): seq<Item> {
    if c then items else []
  }

  function Lyr2Items(c: Lyr2, v: Lyr2): seq<Item> {
    Opt(c.dstMac != ZERO_MAC,
        [Item(Dmac47, BeValue(v.dstMac[0..4])), Item(Dmac15, BeValue(v.dstMac[4..6]))])
    + Opt(c.srcMac != ZERO_MAC,
          [Item(Smac47, BeValue(v.srcMac[0..4])), Item(Smac15, BeValue(v.srcMac[4..6]))])
    + Opt(c.ethertype != 0, [Item(Ethertype, v.ethertype)])
    + Opt(c.firstVlanId != 0, [Item(FirstVid, v.firstVlanId), Item(CvlanTag, 1)])
  }

  function Lyr3Items(c: Lyr3, v: Lyr3): seq<Item> {
    Opt(c.dstIp != 0, [Item(DstIp, v.dstIp)])
    + Opt(c.srcIp != 0, [Item(SrcIp, v.srcIp)])
    + Opt(c.ipProtocol != 0, [Item(IpProtocol, v.ipProtocol)])
    + Opt(c.ipVersion != 0, [Item(IpVersion, v.ipVersion)])
  }

  /** The criteria's type, not the value's, selects the ports. */
  function Lyr4Items(c: Lyr4, v: Lyr4): seq<Item> {
    if c.kind == L4_UDP then
      Opt(c.dstPort != 0, [Item(UdpDport, v.dstPort)]) + Opt(c.srcPort != 0, [Item(UdpSport, v.srcPort)])
    else if c.kind == L4_TCP then
      Opt(c.dstPort != 0, [Item(TcpDport, v.dstPort)]) + Opt(c.srcPort != 0, [Item(TcpSport, v.srcPort)])
    else []
  }

  predicate L4Supported(c: Lyr4) {
    c.kind == L4_NONE || c.kind == L4_TCP || c.kind == L4_UDP
  }

  /** The fall-through switch: samples `n - 1` down to 0. */
  function SampleItems(samples: seq<Sample>, n: nat): seq<Item>
    requires n <= |samples|
  {
    if n == 0 then []
    else [Item(SampleValue(n - 1), samples[n - 1].val), Item(SampleId(n - 1), samples[n - 1].id)]
         + SampleItems(samples, n - 1)
  }

  function OuterItems(a: MatcherAttr, v: MatchParams): seq<Item> {
    Opt(OuterEnabled(a), Lyr2Items(a.criteria.lyr2, v.lyr2) + Lyr3Items(a.criteria.lyr3, v.lyr3)
                         + Lyr4Items(a.criteria.lyr4, v.lyr4))
  }

  function OuterStatus(a: MatcherAttr): Status {
    if OuterEnabled(a) && !L4Supported(a.criteria.lyr4) then ErrNoSupport else Ok
  }

  function SampleStatus(a: MatcherAttr, v: MatchParams): Status {
    if !ParserEnabled(a) then Ok
    else if |a.criteria.samples| != |v.samples| then ErrInvalidParam
    else if |a.criteria.samples| > MAX_SAMPLES then ErrOutOfRange
    else Ok
  }

  function ApplyStatus(a: MatcherAttr, v: MatchParams): Status {
    if OuterStatus(a) != Ok then OuterStatus(a) else SampleStatus(a, v)
  }

  function ParserItems(a: MatcherAttr, v: MatchParams): seq<Item> {
    if ParserEnabled(a) && SampleStatus(a, v) == Ok then SampleItems(v.samples, |v.samples|) else []
  }

  function MetadataItems(a: MatcherAttr, v: MatchParams): seq<Item> {
    Opt(MetadataEnabled(a) && a.criteria.metadataRegC0 != 0, [Item(RegC0, v.metadataRegC0)])
  }

  /** Everything one call writes; a failing call has written what came before the failure. */
  function Items(a: MatcherAttr, v: MatchParams): seq<Item> {
    OuterItems(a, v)
    + (if OuterStatus(a) == Ok then ParserItems(a, v) else [])
    + Opt(ApplyStatus(a, v) == Ok, MetadataItems(a, v))
  }

  /* ---------------------------------------------------------------- the slots written are distinct */

  /** Position of a slot in program order. */
  function Rank(x: Slot): int {
    match x
    case Dmac47 => 0 case Dmac15 => 1 case Smac47 => 2 case Smac15 => 3
    case Ethertype => 4 case FirstVid => 5 case CvlanTag => 6
    case DstIp => 7 case SrcIp => 8 case IpProtocol => 9 case IpVersion => 10
    case UdpDport => 11 case UdpSport => 12 case TcpDport => 13 case TcpSport => 14
    case SampleValue(i) => 30 - 2 * i
    case SampleId(i) => 31 - 2 * i
    case RegC0 => 32
  }

  /** Valid slots of strictly increasing rank between `lo` and `hi`. */
  predicate Ascending(items: seq<Item>, lo: int, hi: int) {
    && (forall i | 0 <= i < |items| :: ValidSlot(items[i].slot) && lo <= Rank(items[i].slot) < hi)
    && (forall i, j | 0 <= i < j < |items| :: Rank(items[i].slot) < Rank(items[j].slot))
  }

  lemma AscendingConcat(xs: seq<Item>, ys: seq<Item>, lo: int, mid: int, hi: int)
    requires Ascending(xs, lo, mid) && Ascending(ys, mid, hi) && lo <= mid <= hi
    ensures Ascending(xs + ys, lo, hi)
  {
    hide Rank; hide ValidSlot;
  }

  lemma {:induction false} SampleAscending(samples: seq<Sample>, n: nat)
    requires n <= |samples| && n <= MAX_SAMPLES
    ensures Ascending(SampleItems(samples, n), 32 - 2 * n, 32)
  {
    if n > 0 {
      SampleAscending(samples, n - 1);
      var two := [Item(SampleValue(n - 1), samples[n - 1].val), Item(SampleId(n - 1), samples[n - 1].id)];
      AscendingConcat(two, SampleItems(samples, n - 1), 32 - 2 * n, 34 - 2 * n, 32);
    }
  }

  lemma OneAscending(c: bool, x: Item, lo: int, hi: int)
    requires ValidSlot(x.slot) && lo <= Rank(x.slot) < hi
    ensures Ascending(Opt(c, [x]), lo, hi)
  {
  }

  lemma TwoAscending(c: bool, x: Item, y: Item, lo: int, hi: int)
    requires ValidSlot(x.slot) && ValidSlot(y.slot) && lo <= Rank(x.slot) < Rank(y.slot) < hi
    ensures Ascending(Opt(c, [x, y]), lo, hi)
  {
  }

  lemma Lyr2Ascending(c: Lyr2, v: Lyr2)
    ensures Ascending(Lyr2Items(c, v), 0, 7)
  {
    hide Ascending; hide BeValue; hide Opt;
    var x1, y1 := Item(Dmac47, BeValue(v.dstMac[0..4])), Item(Dmac15, BeValue(v.dstMac[4..6]));
    var x2, y2 := Item(Smac47, BeValue(v.srcMac[0..4])), Item(Smac15, BeValue(v.srcMac[4..6]));
    var a, b := Opt(c.dstMac != ZERO_MAC, [x1, y1]), Opt(c.srcMac != ZERO_MAC, [x2, y2]);
    var d := Opt(c.ethertype != 0, [Item(Ethertype, v.ethertype)]);
    var e := Opt(c.firstVlanId != 0, [Item(FirstVid, v.firstVlanId), Item(CvlanTag, 1)]);
    TwoAscending(c.dstMac != ZERO_MAC, x1, y1, 0, 2);
    TwoAscending(c.srcMac != ZERO_MAC, x2, y2, 2, 4);
    OneAscending(c.ethertype != 0, Item(Ethertype, v.ethertype), 4, 5);
    TwoAscending(c.firstVlanId != 0, Item(FirstVid, v.firstVlanId), Item(CvlanTag, 1), 5, 7);
    AscendingConcat(a, b, 0, 2, 4);
    AscendingConcat(a + b, d, 0, 4, 5);
    AscendingConcat(a + b + d, e, 0, 5, 7);
  }

  lemma Lyr3Ascending(c: Lyr3, v: Lyr3)
    ensures Ascending(Lyr3Items(c, v), 7, 11)
  {
    hide Ascending; hide Opt;
    var a, b := Opt(c.dstIp != 0, [Item(DstIp, v.dstIp)]), Opt(c.srcIp != 0, [Item(SrcIp, v.srcIp)]);
    var d := Opt(c.ipProtocol != 0, [Item(IpProtocol, v.ipProtocol)]);
    var e := Opt(c.ipVersion != 0, [Item(IpVersion, v.ipVersion)]);
    OneAscending(c.dstIp != 0, Item(DstIp, v.dstIp), 7, 8);
    OneAscending(c.srcIp != 0, Item(SrcIp, v.srcIp), 8, 9);
    OneAscending(c.ipProtocol != 0, Item(IpProtocol, v.ipProtocol), 9, 10);
    OneAscending(c.ipVersion != 0, Item(IpVersion, v.ipVersion), 10, 11);
    AscendingConcat(a, b, 7, 8, 9);
    AscendingConcat(a + b, d, 7, 9, 10);
    AscendingConcat(a + b + d, e, 7, 10, 11);
  }

  lemma OuterAscending(a: MatcherAttr, v: MatchParams)
    ensures Ascending(OuterItems(a, v), 0, 15)
  {
    hide Lyr2Items; hide Lyr3Items;
    var c := a.criteria;
    var l2, l3, l4 := Lyr2Items(c.lyr2, v.lyr2), Lyr3Items(c.lyr3, v.lyr3), Lyr4Items(c.lyr4, v.lyr4);
    Lyr2Ascending(c.lyr2, v.lyr2);
    Lyr3Ascending(c.lyr3, v.lyr3);
    AscendingConcat(l2, l3, 0, 7, 11);
    assert Ascending(l4, 11, 15);
    AscendingConcat(l2 + l3, l4, 0, 11, 15);
  }

  lemma ItemsAscending(a: MatcherAttr, v: MatchParams)
    ensures Ascending(Items(a, v), 0, 33)
  {
    hide SampleItems; hide OuterItems;
    OuterAscending(a, v);
    var outer, meta := OuterItems(a, v), Opt(ApplyStatus(a, v) == Ok, MetadataItems(a, v));
    var parser := if OuterStatus(a) == Ok then ParserItems(a, v) else [];
    if parser != [] {
      SampleAscending(v.samples, |v.samples|);
    }
    assert Ascending(parser, 15, 32);
    AscendingConcat(outer, parser, 0, 15, 32);
    AscendingConcat(outer + parser, meta, 0, 32, 33);
  }

  /* ---------------------------------------------------------------- items as writes */

  function ToWrites(items: seq<Item>, base: nat): (ws: seq<Write>)
    ensures |ws| == |items|
    ensures forall i | 0 <= i < |ws| :: ws[i] == Write(FieldOf(items[i].slot).At(base), items[i].v)
  {
    seq(|items|, i requires 0 <= i < |items| => Write(FieldOf(items[i].slot).At(base), items[i].v))
  }

  predicate AllValid(items: seq<Item>) {
    forall i | 0 <= i < |items| :: ValidSlot(items[i].slot)
  }

  /** A match parameter block can be written at bit `base` of a buffer of `n` bytes. */
  predicate BlockAt(base: nat, n: nat) {
    base % 32 == 0 && base / 8 + PARAM_BYTES <= n
  }

  lemma WritesFit(items: seq<Item>, base: nat, n: nat)
    requires AllValid(items) && BlockAt(base, n)
    ensures AllFit(ToWrites(items, base), n)
  {
    hide Fits; hide FieldOf;
    forall i | 0 <= i < |items| ensures Fits(ToWrites(items, base)[i].f, n) {
      SlotFits(items[i].slot, base, n);
    }
  }

  function Apply(s: seq<byte>, base: nat, items: seq<Item>): (t: seq<byte>)
    requires AllValid(items) && BlockAt(base, |s|)
    ensures |t| == |s|
  {
    WritesFit(items, base, |s|);
    PutAll(s, ToWrites(items, base))
  }

  lemma ApplyConcat(s: seq<byte>, base: nat, xs: seq<Item>, ys: seq<Item>)
    requires AllValid(xs) && AllValid(ys) && BlockAt(base, |s|)
    ensures AllValid(xs + ys)
    ensures Apply(s, base, xs + ys) == Apply(Apply(s, base, xs), base, ys)
  {
    hide PutAll; hide FieldOf; hide Fits;
    WritesFit(xs, base, |s|);
    WritesFit(ys, base, |s|);
    assert ToWrites(xs + ys, base) == ToWrites(xs, base) + ToWrites(ys, base);
    PutAllConcat(s, ToWrites(xs, base), ToWrites(ys, base));
  }

  /** Items of strictly increasing rank are writes to disjoint fields. */
  lemma AscendingDisjoint(items: seq<Item>, lo: int, hi: int, base: nat)
    requires Ascending(items, lo, hi)
    ensures AllValid(items) && PairwiseDisjoint(ToWrites(items, base))
  {
    hide Disjoint; hide FieldOf;
    var ws := ToWrites(items, base);
    forall i, j | 0 <= i < j < |ws| ensures Disjoint(ws[i].f, ws[j].f) {
      SlotsDisjoint(items[i].slot, items[j].slot, base);
    }
  }

  /* ---------------------------------------------------------------- what the buffers mean */

  predicate MacAgrees(packet: seq<byte>, o: nat, c: Mac, v: Mac)
    requires o + 6 <= |packet|
  {
    forall i | 0 <= i < 6 :: AgreesUnder(packet[o + i], v[i], c[i])
  }

  predicate Lyr2Agrees(packet: seq<byte>, c: Lyr2, v: Lyr2)
    requires |packet| == PARAM_BYTES
  {
    && MacAgrees(packet, 8, c.dstMac, v.dstMac)
    && MacAgrees(packet, 0, c.srcMac, v.srcMac)
    && AgreesUnder(Read(packet, FieldOf(Ethertype)), v.ethertype, c.ethertype)
    && AgreesUnder(Read(packet, FieldOf(FirstVid)), v.firstVlanId % 0x1000, c.firstVlanId % 0x1000)
    && (c.firstVlanId != 0 ==> Read(packet, FieldOf(CvlanTag)) == 1)
  }

  predicate Lyr3Agrees(packet: seq<byte>, c: Lyr3, v: Lyr3)
    requires |packet| == PARAM_BYTES
  {
    && AgreesUnder(Read(packet, FieldOf(DstIp)), v.dstIp, c.dstIp)
    && AgreesUnder(Read(packet, FieldOf(SrcIp)), v.srcIp, c.srcIp)
    && AgreesUnder(Read(packet, FieldOf(IpProtocol)), v.ipProtocol, c.ipProtocol)
    && AgreesUnder(Read(packet, FieldOf(IpVersion)), v.ipVersion, c.ipVersion)
  }

  predicate Lyr4Agrees(packet: seq<byte>, c: Lyr4, v: Lyr4)
    requires |packet| == PARAM_BYTES
  {
    && (c.kind == L4_UDP ==>
          && AgreesUnder(Read(packet, FieldOf(UdpDport)), v.dstPort, c.dstPort)
          && AgreesUnder(Read(packet, FieldOf(UdpSport)), v.srcPort, c.srcPort))
    && (c.kind == L4_TCP ==>
          && AgreesUnder(Read(packet, FieldOf(TcpDport)), v.dstPort, c.dstPort)
          && AgreesUnder(Read(packet, FieldOf(TcpSport)), v.srcPort, c.srcPort))
  }

  predicate SampleAgrees(packet: seq<byte>, i: nat, c: Sample, v: Sample)
    requires |packet| == PARAM_BYTES && i < MAX_SAMPLES
  {
    && AgreesUnder(Read(packet, FieldOf(SampleValue(i))), v.val, c.val)
    && AgreesUnder(Read(packet, FieldOf(SampleId(i))), v.id, c.id)
  }

  predicate SamplesAgree(packet: seq<byte>, cs: seq<Sample>, vs: seq<Sample>, n: nat)
    requires |packet| == PARAM_BYTES && n <= |cs| && n <= |vs| && n <= MAX_SAMPLES
  {
    forall i | 0 <= i < n :: SampleAgrees(packet, i, cs[i], vs[i])
  }

  /** The packet agrees with the values on every enabled criterion, under the criterion's mask. */
  predicate PacketAgrees(a: MatcherAttr, v: MatchParams, packet: seq<byte>)
    requires |packet| == PARAM_BYTES && ApplyStatus(a, v) == Ok
  {
    var c := a.criteria;
    && (OuterEnabled(a) ==>
          && Lyr2Agrees(packet, c.lyr2, v.lyr2)
          && Lyr3Agrees(packet, c.lyr3, v.lyr3)
          && Lyr4Agrees(packet, c.lyr4, v.lyr4))
    && (ParserEnabled(a) ==> SamplesAgree(packet, c.samples, v.samples, |c.samples|))
    && (MetadataEnabled(a) ==>
          AgreesUnder(Read(packet, FieldOf(RegC0)), v.metadataRegC0, c.metadataRegC0))
  }

  predicate SameSlots(xs: seq<Item>, ys: seq<Item>) {
    |xs| == |ys| && forall i | 0 <= i < |xs| :: xs[i].slot == ys[i].slot
  }

  /** The packet agrees with the values `ys` under the masks `xs`, slot by slot. */
  predicate ItemsAgree(packet: seq<byte>, xs: seq<Item>, ys: seq<Item>)
    requires |packet| == PARAM_BYTES && SameSlots(xs, ys) && AllValid(xs)
  {
    forall i | 0 <= i < |xs| :: FieldAgrees(packet, FieldOf(xs[i].slot), xs[i].v, ys[i].v)
  }

  /** `ItemsAgree` says `meaning`, on items that agree in their slots. */
  predicate Means(packet: seq<byte>, xs: seq<Item>, ys: seq<Item>, meaning: bool)
    requires |packet| == PARAM_BYTES
  {
    SameSlots(xs, ys) && AllValid(xs) && (ItemsAgree(packet, xs, ys) <==> meaning)
  }

  lemma MeansConcat(packet: seq<byte>, xs: seq<Item>, ys: seq<Item>, p: bool,
                    xs': seq<Item>, ys': seq<Item>, q: bool)
    requires |packet| == PARAM_BYTES && Means(packet, xs, ys, p) && Means(packet, xs', ys', q)
    ensures Means(packet, xs + xs', ys + ys', p && q)
  {
    hide FieldAgrees; hide FieldOf; hide ValidSlot;
    if ItemsAgree(packet, xs + xs', ys + ys') {
      forall i | 0 <= i < |xs|
        ensures FieldAgrees(packet, FieldOf(xs[i].slot), xs[i].v, ys[i].v)
      {
        assert (xs + xs')[i] == xs[i] && (ys + ys')[i] == ys[i];
      }
      forall i | 0 <= i < |xs'|
        ensures FieldAgrees(packet, FieldOf(xs'[i].slot), xs'[i].v, ys'[i].v)
      {
        assert (xs + xs')[|xs| + i] == xs'[i] && (ys + ys')[|xs| + i] == ys'[i];
      }
    }
  }

  lemma PlainAgrees(packet: seq<byte>, x: Slot, c: nat, v: nat)
    requires |packet| == PARAM_BYTES && ValidSlot(x)
    requires c < Pow2(FieldOf(x).width) && v < Pow2(FieldOf(x).width)
    ensures FieldAgrees(packet, FieldOf(x), c, v) <==> AgreesUnder(Read(packet, FieldOf(x)), v, c)
  {
    hide FieldOf; hide Read; hide Pow2; hide AgreesUnder;
    ModSmall(c, Pow2(FieldOf(x).width));
    ModSmall(v, Pow2(FieldOf(x).width));
  }

  /** Two fields that are always written. */
  lemma TwoAgree(packet: seq<byte>, x: Slot, c: nat, v: nat, y: Slot, d: nat, w: nat)
    requires |packet| == PARAM_BYTES && ValidSlot(x) && ValidSlot(y)
    ensures Means(packet, [Item(x, c), Item(y, d)], [Item(x, v), Item(y, w)],
                  FieldAgrees(packet, FieldOf(x), c, v) && FieldAgrees(packet, FieldOf(y), d, w))
  {
    hide FieldOf; hide FieldAgrees;
    var xs, ys := [Item(x, c), Item(y, d)], [Item(x, v), Item(y, w)];
    assert ItemsAgree(packet, xs, ys) <==>
           FieldAgrees(packet, FieldOf(xs[0].slot), xs[0].v, ys[0].v) &&
           FieldAgrees(packet, FieldOf(xs[1].slot), xs[1].v, ys[1].v);
  }

  /** One field: no write when the criterion is zero, and agreement under a zero mask is no demand. */
  lemma OneMeans(packet: seq<byte>, x: Slot, c: nat, v: nat)
    requires |packet| == PARAM_BYTES && ValidSlot(x)
    requires c < Pow2(FieldOf(x).width) && v < Pow2(FieldOf(x).width)
    ensures Means(packet, Opt(c != 0, [Item(x, c)]), Opt(c != 0, [Item(x, v)]),
                  AgreesUnder(Read(packet, FieldOf(x)), v, c))
  {
    hide FieldOf; hide Read; hide Pow2; hide AgreesUnder; hide FieldAgrees;
    var xs, ys := Opt(c != 0, [Item(x, c)]), Opt(c != 0, [Item(x, v)]);
    PlainAgrees(packet, x, c, v);
    if c != 0 {
      assert xs[0] == Item(x, c) && ys[0] == Item(x, v);
    } else {
      ZeroMask(Read(packet, FieldOf(x)), v);
    }
  }

  lemma MacMeans(packet: seq<byte>, hi: Slot, lo: Slot, o: nat, c: Mac, v: Mac)
    requires |packet| == PARAM_BYTES && ValidSlot(hi) && ValidSlot(lo) && o + 6 <= PARAM_BYTES
    requires FieldOf(hi) == Field(8 * o, 32) && FieldOf(lo) == Field(8 * (o + 4), 16)
    ensures Means(packet,
                  Opt(c != ZERO_MAC, [Item(hi, BeValue(c[0..4])), Item(lo, BeValue(c[4..6]))]),
                  Opt(c != ZERO_MAC, [Item(hi, BeValue(v[0..4])), Item(lo, BeValue(v[4..6]))]),
                  MacAgrees(packet, o, c, v))
  {
    hide FieldOf; hide BeValue; hide FieldAgrees; hide AgreesUnder;
    if c != ZERO_MAC {
      ByteFieldAgrees(packet, o, c[0..4], v[0..4]);
      ByteFieldAgrees(packet, o + 4, c[4..6], v[4..6]);
      TwoAgree(packet, hi, BeValue(c[0..4]), BeValue(v[0..4]), lo, BeValue(c[4..6]), BeValue(v[4..6]));
      MacSplit(packet, o, c, v);
    } else {
      forall i | 0 <= i < 6 ensures AgreesUnder(packet[o + i], v[i], c[i]) {
        ZeroMask(packet[o + i], v[i]);
      }
    }
  }

  lemma ZeroMask(x: nat, y: nat)
    ensures AgreesUnder(x, y, 0)
  {
  }

  lemma MacSplit(packet: seq<byte>, o: nat, c: Mac, v: Mac)
    requires o + 6 <= |packet|
    ensures MacAgrees(packet, o, c, v) <==>
            && (forall i | 0 <= i < 4 :: AgreesUnder(packet[o + i], v[0..4][i], c[0..4][i]))
            && (forall i | 0 <= i < 2 :: AgreesUnder(packet[o + 4 + i], v[4..6][i], c[4..6][i]))
  {
    hide AgreesUnder;
    if MacAgrees(packet, o, c, v) {
      forall i | 0 <= i < 4 ensures AgreesUnder(packet[o + i], v[0..4][i], c[0..4][i]) {
        assert AgreesUnder(packet[o + i], v[i], c[i]);
      }
      forall i | 0 <= i < 2 ensures AgreesUnder(packet[o + 4 + i], v[4..6][i], c[4..6][i]) {
        assert AgreesUnder(packet[o + (4 + i)], v[4 + i], c[4 + i]);
      }
    }
    if && (forall i | 0 <= i < 4 :: AgreesUnder(packet[o + i], v[0..4][i], c[0..4][i]))
       && (forall i | 0 <= i < 2 :: AgreesUnder(packet[o + 4 + i], v[4..6][i], c[4..6][i])) {
      forall i | 0 <= i < 6 ensures AgreesUnder(packet[o + i], v[i], c[i]) {
        if i < 4 {
          assert AgreesUnder(packet[o + i], v[0..4][i], c[0..4][i]);
        } else {
          assert AgreesUnder(packet[o + 4 + (i - 4)], v[4..6][i - 4], c[4..6][i - 4]);
        }
      }
    }
  }

  /** A VLAN criterion also demands the c-vlan tag. */
  lemma VlanMeans(packet: seq<byte>, c: u16, v: u16)
    requires |packet| == PARAM_BYTES
    ensures Means(packet, Opt(c != 0, [Item(FirstVid, c), Item(CvlanTag, 1)]),
                  Opt(c != 0, [Item(FirstVid, v), Item(CvlanTag, 1)]),
                  && AgreesUnder(Read(packet, FieldOf(FirstVid)), v % 0x1000, c % 0x1000)
                  && (c != 0 ==> Read(packet, FieldOf(CvlanTag)) == 1))
  {
    hide Read; hide AgreesUnder; hide Pow2; hide FieldOf;
    if c != 0 {
      TwoAgree(packet, FirstVid, c, v, CvlanTag, 1, 1);
      VidAndTag(packet, c, v);
    } else {
      ZeroMask(Read(packet, FieldOf(FirstVid)), v % 0x1000);
    }
  }

  lemma VidAndTag(packet: seq<byte>, c: u16, v: u16)
    requires |packet| == PARAM_BYTES
    ensures FieldAgrees(packet, FieldOf(FirstVid), c, v) <==>
            AgreesUnder(Read(packet, FieldOf(FirstVid)), v % 0x1000, c % 0x1000)
    ensures FieldAgrees(packet, FieldOf(CvlanTag), 1, 1) <==> Read(packet, FieldOf(CvlanTag)) == 1
  {
    hide Read; hide AgreesUnder; hide Pow2;
    Pow2Values();
    TagBit(packet);
  }

  lemma TagBit(packet: seq<byte>)
    requires |packet| == PARAM_BYTES
    ensures AgreesUnder(Read(packet, FieldOf(CvlanTag)), 1, 1) <==> Read(packet, FieldOf(CvlanTag)) == 1
  {
    hide FieldValue;
    FieldBit(packet, 0x90, 1, 0);
    OneBit(FieldValue(packet, 0x90, 1));
  }

  lemma OneBit(x: nat)
    requires x < Pow2(1)
    ensures AgreesUnder(x, 1, 1) <==> x == 1
  {
  }

  lemma Lyr2Means(packet: seq<byte>, c: Lyr2, v: Lyr2)
    requires |packet| == PARAM_BYTES
    ensures Means(packet, Lyr2Items(c, c), Lyr2Items(c, v), Lyr2Agrees(packet, c, v))
  {
    hide Means; hide BeValue; hide Opt; hide AgreesUnder; hide MacAgrees; hide Read; hide Pow2;
    Pow2Values();
    var m, e := c.dstMac != ZERO_MAC, c.srcMac != ZERO_MAC;
    var xd := Opt(m, [Item(Dmac47, BeValue(c.dstMac[0..4])), Item(Dmac15, BeValue(c.dstMac[4..6]))]);
    var yd := Opt(m, [Item(Dmac47, BeValue(v.dstMac[0..4])), Item(Dmac15, BeValue(v.dstMac[4..6]))]);
    var xs := Opt(e, [Item(Smac47, BeValue(c.srcMac[0..4])), Item(Smac15, BeValue(c.srcMac[4..6]))]);
    var ys := Opt(e, [Item(Smac47, BeValue(v.srcMac[0..4])), Item(Smac15, BeValue(v.srcMac[4..6]))]);
    var xe := Opt(c.ethertype != 0, [Item(Ethertype, c.ethertype)]);
    var ye := Opt(c.ethertype != 0, [Item(Ethertype, v.ethertype)]);
    var xv := Opt(c.firstVlanId != 0, [Item(FirstVid, c.firstVlanId), Item(CvlanTag, 1)]);
    var yv := Opt(c.firstVlanId != 0, [Item(FirstVid, v.firstVlanId), Item(CvlanTag, 1)]);
    MacMeans(packet, Dmac47, Dmac15, 8, c.dstMac, v.dstMac);
    MacMeans(packet, Smac47, Smac15, 0, c.srcMac, v.srcMac);
    OneMeans(packet, Ethertype, c.ethertype, v.ethertype);
    VlanMeans(packet, c.firstVlanId, v.firstVlanId);
    var pd, ps := MacAgrees(packet, 8, c.dstMac, v.dstMac), MacAgrees(packet, 0, c.srcMac, v.srcMac);
    var pe := AgreesUnder(Read(packet, FieldOf(Ethertype)), v.ethertype, c.ethertype);
    MeansConcat(packet, xd, yd, pd, xs, ys, ps);
    MeansConcat(packet, xd + xs, yd + ys, pd && ps, xe, ye, pe);
    MeansConcat(packet, xd + xs + xe, yd + ys + ye, pd && ps && pe, xv, yv,
                && AgreesUnder(Read(packet, FieldOf(FirstVid)), v.firstVlanId % 0x1000, c.firstVlanId % 0x1000)
                && (c.firstVlanId != 0 ==> Read(packet, FieldOf(CvlanTag)) == 1));
  }

  /** Two optional fields in a row. */
  lemma PairMeans(packet: seq<byte>, x: Slot, c: nat, v: nat, y: Slot, d: nat, w: nat)
    requires |packet| == PARAM_BYTES && ValidSlot(x) && ValidSlot(y)
    requires c < Pow2(FieldOf(x).width) && v < Pow2(FieldOf(x).width)
    requires d < Pow2(FieldOf(y).width) && w < Pow2(FieldOf(y).width)
    ensures Means(packet, Opt(c != 0, [Item(x, c)]) + Opt(d != 0, [Item(y, d)]),
                  Opt(c != 0, [Item(x, v)]) + Opt(d != 0, [Item(y, w)]),
                  && AgreesUnder(Read(packet, FieldOf(x)), v, c)
                  && AgreesUnder(Read(packet, FieldOf(y)), w, d))
  {
    hide Means; hide Opt; hide FieldOf; hide Read; hide AgreesUnder; hide Pow2;
    OneMeans(packet, x, c, v);
    OneMeans(packet, y, d, w);
    MeansConcat(packet, Opt(c != 0, [Item(x, c)]), Opt(c != 0, [Item(x, v)]),
                AgreesUnder(Read(packet, FieldOf(x)), v, c),
                Opt(d != 0, [Item(y, d)]), Opt(d != 0, [Item(y, w)]),
                AgreesUnder(Read(packet, FieldOf(y)), w, d));
  }

  lemma Lyr3Means(packet: seq<byte>, c: Lyr3, v: Lyr3)
    requires |packet| == PARAM_BYTES
    ensures Means(packet, Lyr3Items(c, c), Lyr3Items(c, v), Lyr3Agrees(packet, c, v))
  {
    hide Means; hide Opt; hide AgreesUnder; hide Read; hide Pow2;
    Pow2Values();
    PairMeans(packet, DstIp, c.dstIp, v.dstIp, SrcIp, c.srcIp, v.srcIp);
    PairMeans(packet, IpProtocol, c.ipProtocol, v.ipProtocol, IpVersion, c.ipVersion, v.ipVersion);
    var x1 := Opt(c.dstIp != 0, [Item(DstIp, c.dstIp)]) + Opt(c.srcIp != 0, [Item(SrcIp, c.srcIp)]);
    var y1 := Opt(c.dstIp != 0, [Item(DstIp, v.dstIp)]) + Opt(c.srcIp != 0, [Item(SrcIp, v.srcIp)]);
    var x2 := Opt(c.ipProtocol != 0, [Item(IpProtocol, c.ipProtocol)]);
    var x3 := Opt(c.ipVersion != 0, [Item(IpVersion, c.ipVersion)]);
    var y2 := Opt(c.ipProtocol != 0, [Item(IpProtocol, v.ipProtocol)]);
    var y3 := Opt(c.ipVersion != 0, [Item(IpVersion, v.ipVersion)]);
    MeansConcat(packet, x1, y1,
                && AgreesUnder(Read(packet, FieldOf(DstIp)), v.dstIp, c.dstIp)
                && AgreesUnder(Read(packet, FieldOf(SrcIp)), v.srcIp, c.srcIp),
                x2 + x3, y2 + y3,
                && AgreesUnder(Read(packet, FieldOf(IpProtocol)), v.ipProtocol, c.ipProtocol)
                && AgreesUnder(Read(packet, FieldOf(IpVersion)), v.ipVersion, c.ipVersion));
    assert Lyr3Items(c, c) == x1 + (x2 + x3) && Lyr3Items(c, v) == y1 + (y2 + y3);
  }

  lemma Lyr4Means(packet: seq<byte>, c: Lyr4, v: Lyr4)
    requires |packet| == PARAM_BYTES
    ensures Means(packet, Lyr4Items(c, c), Lyr4Items(c, v), Lyr4Agrees(packet, c, v))
  {
    hide Opt; hide AgreesUnder; hide Read; hide Pow2;
    Pow2Values();
    if c.kind == L4_UDP {
      PairMeans(packet, UdpDport, c.dstPort, v.dstPort, UdpSport, c.srcPort, v.srcPort);
    } else if c.kind == L4_TCP {
      PairMeans(packet, TcpDport, c.dstPort, v.dstPort, TcpSport, c.srcPort, v.srcPort);
    }
  }

  lemma {:induction false} SamplesMean(packet: seq<byte>, cs: seq<Sample>, vs: seq<Sample>, n: nat)
    requires |packet| == PARAM_BYTES && n <= |cs| && n <= |vs| && n <= MAX_SAMPLES
    ensures Means(packet, SampleItems(cs, n), SampleItems(vs, n), SamplesAgree(packet, cs, vs, n))
  {
    hide Read; hide AgreesUnder; hide FieldAgrees; hide FieldOf; hide SampleAgrees;
    if n > 0 {
      hide Means; hide SamplesAgree;
      var i := n - 1;
      SamplesMean(packet, cs, vs, i);
      var xs := [Item(SampleValue(i), cs[i].val), Item(SampleId(i), cs[i].id)];
      var ys := [Item(SampleValue(i), vs[i].val), Item(SampleId(i), vs[i].id)];
      SampleMeans(packet, i, cs[i], vs[i]);
      MeansConcat(packet, xs, ys, SampleAgrees(packet, i, cs[i], vs[i]),
                  SampleItems(cs, i), SampleItems(vs, i), SamplesAgree(packet, cs, vs, i));
      SamplesAgreeStep(packet, cs, vs, n);
    }
  }

  lemma SamplesAgreeStep(packet: seq<byte>, cs: seq<Sample>, vs: seq<Sample>, n: nat)
    requires |packet| == PARAM_BYTES && 0 < n <= |cs| && n <= |vs| && n <= MAX_SAMPLES
    ensures SamplesAgree(packet, cs, vs, n) <==>
            SampleAgrees(packet, n - 1, cs[n - 1], vs[n - 1]) && SamplesAgree(packet, cs, vs, n - 1)
  {
    hide SampleAgrees;
  }

  lemma SampleMeans(packet: seq<byte>, i: nat, c: Sample, v: Sample)
    requires |packet| == PARAM_BYTES && i < MAX_SAMPLES
    ensures Means(packet, [Item(SampleValue(i), c.val), Item(SampleId(i), c.id)],
                  [Item(SampleValue(i), v.val), Item(SampleId(i), v.id)],
                  SampleAgrees(packet, i, c, v))
  {
    hide Read; hide AgreesUnder; hide Pow2;
    Pow2Values();
    PlainAgrees(packet, SampleValue(i), c.val, v.val);
    PlainAgrees(packet, SampleId(i), c.id, v.id);
    TwoAgree(packet, SampleValue(i), c.val, v.val, SampleId(i), c.id, v.id);
  }

  lemma OuterMeans(a: MatcherAttr, v: MatchParams, packet: seq<byte>)
    requires |packet| == PARAM_BYTES
    ensures Means(packet, OuterItems(a, a.criteria), OuterItems(a, v),
                  OuterEnabled(a) ==>
                    && Lyr2Agrees(packet, a.criteria.lyr2, v.lyr2)
                    && Lyr3Agrees(packet, a.criteria.lyr3, v.lyr3)
                    && Lyr4Agrees(packet, a.criteria.lyr4, v.lyr4))
  {
    hide Lyr2Items; hide Lyr3Items; hide Lyr4Items; hide Lyr2Agrees; hide Lyr3Agrees; hide Lyr4Agrees;
    if OuterEnabled(a) {
      hide Means;
      var c := a.criteria;
      var p2, p3 := Lyr2Agrees(packet, c.lyr2, v.lyr2), Lyr3Agrees(packet, c.lyr3, v.lyr3);
      var x2, y2 := Lyr2Items(c.lyr2, c.lyr2), Lyr2Items(c.lyr2, v.lyr2);
      var x3, y3 := Lyr3Items(c.lyr3, c.lyr3), Lyr3Items(c.lyr3, v.lyr3);
      Lyr2Means(packet, c.lyr2, v.lyr2);
      Lyr3Means(packet, c.lyr3, v.lyr3);
      Lyr4Means(packet, c.lyr4, v.lyr4);
      MeansConcat(packet, x2, y2, p2, x3, y3, p3);
      MeansConcat(packet, x2 + x3, y2 + y3, p2 && p3, Lyr4Items(c.lyr4, c.lyr4),
                  Lyr4Items(c.lyr4, v.lyr4), Lyr4Agrees(packet, c.lyr4, v.lyr4));
    }
  }

  lemma ItemsMean(a: MatcherAttr, v: MatchParams, packet: seq<byte>)
    requires |packet| == PARAM_BYTES
    requires ApplyStatus(a, a.criteria) == Ok && ApplyStatus(a, v) == Ok
    ensures Means(packet, Items(a, a.criteria), Items(a, v), PacketAgrees(a, v, packet))
  {
    hide OuterItems; hide SampleItems; hide Means; hide Lyr2Agrees; hide Lyr3Agrees; hide Lyr4Agrees;
    hide SamplesAgree; hide AgreesUnder; hide Read; hide FieldOf; hide Pow2; hide OuterEnabled;
    var c := a.criteria;
    var outer := OuterEnabled(a) ==>
                   && Lyr2Agrees(packet, c.lyr2, v.lyr2)
                   && Lyr3Agrees(packet, c.lyr3, v.lyr3)
                   && Lyr4Agrees(packet, c.lyr4, v.lyr4);
    var parser := ParserEnabled(a) ==> SamplesAgree(packet, c.samples, v.samples, |c.samples|);
    OuterMeans(a, v, packet);
    ParserMeans(a, v, packet);
    MetadataMeans(a, v, packet);
    var xo, yo, xp, yp := OuterItems(a, c), OuterItems(a, v), ParserItems(a, c), ParserItems(a, v);
    MeansConcat(packet, xo, yo, outer, xp, yp, parser);
    MeansConcat(packet, xo + xp, yo + yp, outer && parser, MetadataItems(a, c), MetadataItems(a, v),
                MetadataEnabled(a) ==>
                  AgreesUnder(Read(packet, FieldOf(RegC0)), v.metadataRegC0, c.metadataRegC0));
  }

  lemma ParserMeans(a: MatcherAttr, v: MatchParams, packet: seq<byte>)
    requires |packet| == PARAM_BYTES
    requires ApplyStatus(a, a.criteria) == Ok && ApplyStatus(a, v) == Ok
    ensures Means(packet, ParserItems(a, a.criteria), ParserItems(a, v),
                  ParserEnabled(a) ==> SamplesAgree(packet, a.criteria.samples, v.samples, |a.criteria.samples|))
  {
    hide SamplesAgree; hide SampleItems; hide FieldOf;
    if ParserEnabled(a) {
      SamplesMean(packet, a.criteria.samples, v.samples, |v.samples|);
    }
  }

  lemma MetadataMeans(a: MatcherAttr, v: MatchParams, packet: seq<byte>)
    requires |packet| == PARAM_BYTES
    ensures Means(packet, MetadataItems(a, a.criteria), MetadataItems(a, v),
                  MetadataEnabled(a) ==>
                    AgreesUnder(Read(packet, FieldOf(RegC0)), v.metadataRegC0, a.criteria.metadataRegC0))
  {
    hide Read; hide AgreesUnder; hide Pow2;
    Pow2Values();
    OneMeans(packet, RegC0, a.criteria.metadataRegC0, v.metadataRegC0);
  }

  /** The buffers built for the criteria and for a value match a packet exactly when the packet
      agrees with the value on every enabled criterion. */
  lemma MatcherIsExact(a: MatcherAttr, v: MatchParams, packet: seq<byte>)
    requires |packet| == PARAM_BYTES
    requires ApplyStatus(a, a.criteria) == Ok && ApplyStatus(a, v) == Ok
    ensures AllValid(Items(a, a.criteria)) && AllValid(Items(a, v))
    ensures Matches(packet, Apply(Zeros(PARAM_BYTES), 0, Items(a, a.criteria)),
                    Apply(Zeros(PARAM_BYTES), 0, Items(a, v)))
            <==> PacketAgrees(a, v, packet)
  {
    hide Items; hide FieldOf; hide PutAll; hide PacketAgrees; hide Matches; hide FieldAgrees; hide Rank;
    hide Fits; hide Disjoint; hide ApplyStatus;
    var xs, ys := Items(a, a.criteria), Items(a, v);
    ItemsAscending(a, a.criteria);
    ItemsAscending(a, v);
    ItemsMean(a, v, packet);
    var ms, vs := ToWrites(xs, 0), ToWrites(ys, 0);
    WritesFit(xs, 0, PARAM_BYTES);
    AscendingDisjoint(xs, 0, 33, 0);
    MatchIsFieldwise(packet, ms, vs);
    assert forall i | 0 <= i < |xs| :: ms[i].f == FieldOf(xs[i].slot);
    assert AllAgree(packet, ms, vs) <==> ItemsAgree(packet, xs, ys);
  }

  /** Whether a value can be applied: the criteria can, and as many samples are given. */
  lemma ApplyStatusExact(a: MatcherAttr, v: MatchParams)
    ensures ApplyStatus(a, v) == Ok <==>
            && ApplyStatus(a, a.criteria) == Ok
            && (ParserEnabled(a) ==> |v.samples| == |a.criteria.samples|)
    ensures ApplyStatus(a, a.criteria) == Ok <==>
            && (OuterEnabled(a) ==> L4Supported(a.criteria.lyr4))
            && (ParserEnabled(a) ==> |a.criteria.samples| <= MAX_SAMPLES)
  {
  }

  /** Which bits of the enabled criteria switch on what. */
  lemma EnabledBits(a: MatcherAttr)
    ensures OuterEnabled(a) <==> Bit(a.enabled, 0)
    ensures MetadataEnabled(a) <==> Bit(a.enabled, 3)
    ensures ParserEnabled(a) <==> Bit(a.enabled, 5)
  {
    hide And; hide Bit; hide Pow2;
    Pow2Values();
    assert Pow2(0) == 1 by { FirstPower(); }
    AndPower(a.enabled, 0);
    AndPower(a.enabled, 3);
    AndPower(a.enabled, 5);
  }

  lemma FirstPower()
    ensures Pow2(0) == 1
  {
  }

  /** Every status of an apply. */
  lemma StatusExactly(a: MatcherAttr, v: MatchParams)
    ensures var c, st := a.criteria, ApplyStatus(a, v);
            var strange := Bit(a.enabled, 0) && !(0 <= c.lyr4.kind <= 2);
            && (st == ErrNoSupport <==> strange)
            && (st == ErrInvalidParam <==> !strange && Bit(a.enabled, 5) && |c.samples| != |v.samples|)
            && (st == ErrOutOfRange <==> !strange && Bit(a.enabled, 5) && |c.samples| == |v.samples| > 8)
            && (st == Ok <==> !strange && (Bit(a.enabled, 5) ==> |c.samples| == |v.samples| <= 8))
  {
    hide And; hide Bit;
    EnabledBits(a);
  }

  /** The criteria a failed apply got to: the outer headers, without the ports of an unknown type. */
  function Reached(a: MatcherAttr): MatcherAttr {
    MatcherAttr(if 0 <= a.criteria.lyr4.kind <= 2 then a.criteria
                else a.criteria.(lyr4 := a.criteria.lyr4.(kind := 0)),
                if OuterEnabled(a) then 1 else 0)
  }

  /** A failed apply has written what an apply of those criteria, which succeeds, writes. */
  lemma FailedApply(a: MatcherAttr, v: MatchParams)
    requires ApplyStatus(a, v) != Ok
    ensures ApplyStatus(Reached(a), v) == Ok && Items(a, v) == Items(Reached(a), v)
  {
    hide And; hide Lyr2Items; hide Lyr3Items;
    EnabledOuterOnly();
    var b := Reached(a);
    assert OuterEnabled(b) <==> OuterEnabled(a);
    assert !ParserEnabled(b) && !MetadataEnabled(b);
  }

  lemma EnabledOuterOnly()
    ensures And(1, MATCH_OUTER_HDR) != 0 && And(0, MATCH_OUTER_HDR) == 0
    ensures And(1, MATCH_PARSER_FIELDS) == 0 && And(0, MATCH_PARSER_FIELDS) == 0
    ensures And(1, MATCH_METADATA_REG_C_0) == 0 && And(0, MATCH_METADATA_REG_C_0) == 0
  {
  }

  /* ---------------------------------------------------------------- slot by slot */

  /** Do the criteria ask for this slot? */
  predicate Asks(a: MatcherAttr, x: Slot) {
    var c := a.criteria;
    match x
    case Dmac47 => OuterEnabled(a) && c.lyr2.dstMac != ZERO_MAC
    case Dmac15 => OuterEnabled(a) && c.lyr2.dstMac != ZERO_MAC
    case Smac47 => OuterEnabled(a) && c.lyr2.srcMac != ZERO_MAC
    case Smac15 => OuterEnabled(a) && c.lyr2.srcMac != ZERO_MAC
    case Ethertype => OuterEnabled(a) && c.lyr2.ethertype != 0
    case FirstVid => OuterEnabled(a) && c.lyr2.firstVlanId != 0
    case CvlanTag => OuterEnabled(a) && c.lyr2.firstVlanId != 0
    case DstIp => OuterEnabled(a) && c.lyr3.dstIp != 0
    case SrcIp => OuterEnabled(a) && c.lyr3.srcIp != 0
    case IpProtocol => OuterEnabled(a) && c.lyr3.ipProtocol != 0
    case IpVersion => OuterEnabled(a) && c.lyr3.ipVersion != 0
    case UdpDport => OuterEnabled(a) && c.lyr4.kind == 2 && c.lyr4.dstPort != 0
    case UdpSport => OuterEnabled(a) && c.lyr4.kind == 2 && c.lyr4.srcPort != 0
    case TcpDport => OuterEnabled(a) && c.lyr4.kind == 1 && c.lyr4.dstPort != 0
    case TcpSport => OuterEnabled(a) && c.lyr4.kind == 1 && c.lyr4.srcPort != 0
    case SampleValue(i) => ParserEnabled(a) && i < |c.samples|
    case SampleId(i) => ParserEnabled(a) && i < |c.samples|
    case RegC0 => MetadataEnabled(a) && c.metadataRegC0 != 0
  }

  /** What a value puts there. */
  function Gives(v: MatchParams, x: Slot): nat {
    match x
    case Dmac47 => BeValue(v.lyr2.dstMac[0..4])
    case Dmac15 => BeValue(v.lyr2.dstMac[4..6])
    case Smac47 => BeValue(v.lyr2.srcMac[0..4])
    case Smac15 => BeValue(v.lyr2.srcMac[4..6])
    case Ethertype => v.lyr2.ethertype
    case FirstVid => v.lyr2.firstVlanId
    case CvlanTag => 1
    case DstIp => v.lyr3.dstIp
    case SrcIp => v.lyr3.srcIp
    case IpProtocol => v.lyr3.ipProtocol
    case IpVersion => v.lyr3.ipVersion
    case UdpDport => v.lyr4.dstPort
    case UdpSport => v.lyr4.srcPort
    case TcpDport => v.lyr4.dstPort
    case TcpSport => v.lyr4.srcPort
    case SampleValue(i) => if i < |v.samples| then v.samples[i].val else 0
    case SampleId(i) => if i < |v.samples| then v.samples[i].id else 0
    case RegC0 => v.metadataRegC0
  }

  /** Among these items the slot has the one value, if it is asked for, and otherwise none. */
  predicate Lists(items: seq<Item>, x: Slot, asked: bool, v: nat) {
    && (asked ==> Item(x, v) in items)
    && (forall i | 0 <= i < |items| && items[i].slot == x :: asked && items[i].v == v)
  }

  lemma ListsConcat(xs: seq<Item>, ys: seq<Item>, x: Slot, p: bool, q: bool, v: nat)
    requires Lists(xs, x, p, v) && Lists(ys, x, q, v)
    ensures Lists(xs + ys, x, p || q, v)
  {
  }

  lemma Lyr2Lists(a: MatcherAttr, v: MatchParams, x: Slot)
    requires OuterEnabled(a)
    ensures Lists(Lyr2Items(a.criteria.lyr2, v.lyr2), x,
                  Asks(a, x) && (x.Dmac47? || x.Dmac15? || x.Smac47? || x.Smac15? || x.Ethertype? || x.FirstVid?
                                 || x.CvlanTag?), Gives(v, x))
  {
    hide BeValue; hide And; hide Lists; hide Opt;
    var c, w, g := a.criteria.lyr2, v.lyr2, Gives(v, x);
    var r := Opt(c.ethertype != 0, [Item(Ethertype, w.ethertype)]);
    var t := Opt(c.firstVlanId != 0, [Item(FirstVid, w.firstVlanId), Item(CvlanTag, 1)]);
    var inMac := Asks(a, x) && (x.Dmac47? || x.Dmac15? || x.Smac47? || x.Smac15?);
    var inR, inT := Asks(a, x) && x.Ethertype?, Asks(a, x) && (x.FirstVid? || x.CvlanTag?);
    MacLists(a, v, x);
    OneListed(c.ethertype != 0, r, x, inR, g, Item(Ethertype, w.ethertype));
    TwoListed(c.firstVlanId != 0, t, x, inT, g, Item(FirstVid, w.firstVlanId), Item(CvlanTag, 1));
    ListsConcat(MacItems(c, w), r, x, inMac, inR, g);
    ListsConcat(MacItems(c, w) + r, t, x, inMac || inR, inT, g);
  }

  /** The part of layer 2 that writes the addresses. */
  function MacItems(c: Lyr2, w: Lyr2): seq<Item> {
    Opt(c.dstMac != ZERO_MAC, [Item(Dmac47, BeValue(w.dstMac[0..4])), Item(Dmac15, BeValue(w.dstMac[4..6]))])
    + Opt(c.srcMac != ZERO_MAC, [Item(Smac47, BeValue(w.srcMac[0..4])), Item(Smac15, BeValue(w.srcMac[4..6]))])
  }

  lemma MacLists(a: MatcherAttr, v: MatchParams, x: Slot)
    requires OuterEnabled(a)
    ensures Lists(MacItems(a.criteria.lyr2, v.lyr2), x,
                  Asks(a, x) && (x.Dmac47? || x.Dmac15? || x.Smac47? || x.Smac15?), Gives(v, x))
  {
    hide BeValue; hide And; hide Lists; hide Opt;
    var c, w, g := a.criteria.lyr2, v.lyr2, Gives(v, x);
    var x1, y1 := Item(Dmac47, BeValue(w.dstMac[0..4])), Item(Dmac15, BeValue(w.dstMac[4..6]));
    var x2, y2 := Item(Smac47, BeValue(w.srcMac[0..4])), Item(Smac15, BeValue(w.srcMac[4..6]));
    var p, q := Opt(c.dstMac != ZERO_MAC, [x1, y1]), Opt(c.srcMac != ZERO_MAC, [x2, y2]);
    var inP, inQ := Asks(a, x) && (x.Dmac47? || x.Dmac15?), Asks(a, x) && (x.Smac47? || x.Smac15?);
    TwoListed(c.dstMac != ZERO_MAC, p, x, inP, g, x1, y1);
    TwoListed(c.srcMac != ZERO_MAC, q, x, inQ, g, x2, y2);
    ListsConcat(p, q, x, inP, inQ, g);
  }

  lemma OneListed(c: bool, items: seq<Item>, x: Slot, asked: bool, v: nat, y: Item)
    requires items == Opt(c, [y]) && (asked <==> c && x == y.slot) && (asked ==> v == y.v)
    ensures Lists(items, x, asked, v)
  {
  }

  lemma TwoListed(c: bool, items: seq<Item>, x: Slot, asked: bool, v: nat, y: Item, z: Item)
    requires items == Opt(c, [y, z]) && y.slot != z.slot
    requires (asked <==> c && (x == y.slot || x == z.slot)) && (asked ==> v == if x == y.slot then y.v else z.v)
    ensures Lists(items, x, asked, v)
  {
  }

  lemma Lyr3Lists(a: MatcherAttr, v: MatchParams, x: Slot)
    requires OuterEnabled(a)
    ensures Lists(Lyr3Items(a.criteria.lyr3, v.lyr3), x,
                  Asks(a, x) && (x.DstIp? || x.SrcIp? || x.IpProtocol? || x.IpVersion?), Gives(v, x))
  {
    hide And; hide Lists; hide BeValue;
    var c, w, g := a.criteria.lyr3, v.lyr3, Gives(v, x);
    var p, q := Opt(c.dstIp != 0, [Item(DstIp, w.dstIp)]), Opt(c.srcIp != 0, [Item(SrcIp, w.srcIp)]);
    var r := Opt(c.ipProtocol != 0, [Item(IpProtocol, w.ipProtocol)]);
    var t := Opt(c.ipVersion != 0, [Item(IpVersion, w.ipVersion)]);
    var inP, inQ := Asks(a, x) && x.DstIp?, Asks(a, x) && x.SrcIp?;
    var inR, inT := Asks(a, x) && x.IpProtocol?, Asks(a, x) && x.IpVersion?;
    OneListed(c.dstIp != 0, p, x, inP, g, Item(DstIp, w.dstIp));
    OneListed(c.srcIp != 0, q, x, inQ, g, Item(SrcIp, w.srcIp));
    OneListed(c.ipProtocol != 0, r, x, inR, g, Item(IpProtocol, w.ipProtocol));
    OneListed(c.ipVersion != 0, t, x, inT, g, Item(IpVersion, w.ipVersion));
    ListsConcat(p, q, x, inP, inQ, g);
    ListsConcat(p + q, r, x, inP || inQ, inR, g);
    ListsConcat(p + q + r, t, x, inP || inQ || inR, inT, g);
  }

  lemma Lyr4Lists(a: MatcherAttr, v: MatchParams, x: Slot)
    requires OuterEnabled(a)
    ensures Lists(Lyr4Items(a.criteria.lyr4, v.lyr4), x,
                  Asks(a, x) && (x.UdpDport? || x.UdpSport? || x.TcpDport? || x.TcpSport?), Gives(v, x))
  {
    hide And; hide Lists; hide BeValue;
    var c, w, g := a.criteria.lyr4, v.lyr4, Gives(v, x);
    if c.kind == L4_UDP {
      var p, q := Opt(c.dstPort != 0, [Item(UdpDport, w.dstPort)]), Opt(c.srcPort != 0, [Item(UdpSport, w.srcPort)]);
      OneListed(c.dstPort != 0, p, x, Asks(a, x) && x.UdpDport?, g, Item(UdpDport, w.dstPort));
      OneListed(c.srcPort != 0, q, x, Asks(a, x) && x.UdpSport?, g, Item(UdpSport, w.srcPort));
      ListsConcat(p, q, x, Asks(a, x) && x.UdpDport?, Asks(a, x) && x.UdpSport?, g);
    } else if c.kind == L4_TCP {
      var p, q := Opt(c.dstPort != 0, [Item(TcpDport, w.dstPort)]), Opt(c.srcPort != 0, [Item(TcpSport, w.srcPort)]);
      OneListed(c.dstPort != 0, p, x, Asks(a, x) && x.TcpDport?, g, Item(TcpDport, w.dstPort));
      OneListed(c.srcPort != 0, q, x, Asks(a, x) && x.TcpSport?, g, Item(TcpSport, w.srcPort));
      ListsConcat(p, q, x, Asks(a, x) && x.TcpDport?, Asks(a, x) && x.TcpSport?, g);
    } else {
      assert Lists([], x, false, g) by { NoneListed(x, g); }
    }
  }

  lemma NoneListed(x: Slot, v: nat)
    ensures Lists([], x, false, v)
  {
  }

  lemma {:induction false} SamplesList(samples: seq<Sample>, n: nat, x: Slot, v: nat)
    requires n <= |samples|
    requires x.SampleValue? && x.i < n ==> v == samples[x.i].val
    requires x.SampleId? && x.i < n ==> v == samples[x.i].id
    ensures Lists(SampleItems(samples, n), x, (x.SampleValue? || x.SampleId?) && x.i < n, v)
  {
    if n > 0 {
      SamplesList(samples, n - 1, x, v);
      var y, z := Item(SampleValue(n - 1), samples[n - 1].val), Item(SampleId(n - 1), samples[n - 1].id);
      var here := x == y.slot || x == z.slot;
      TwoListed(true, [y, z], x, here, v, y, z);
      ListsConcat([y, z], SampleItems(samples, n - 1), x, here, (x.SampleValue? || x.SampleId?) && x.i < n - 1, v);
    }
  }

  /** Everything a successful apply writes: for each slot asked for the value given, for no other any. */
  lemma ItemsList(a: MatcherAttr, v: MatchParams, x: Slot)
    requires ApplyStatus(a, v) == Ok
    ensures Lists(Items(a, v), x, Asks(a, x), Gives(v, x))
  {
    hide And; hide Lists; hide BeValue; hide Lyr2Items; hide Lyr3Items; hide Lyr4Items; hide SampleItems;
    var g := Gives(v, x);
    var outer := !(x.SampleValue? || x.SampleId? || x.RegC0?) && Asks(a, x);
    OuterList(a, v, x);
    var sampled := (x.SampleValue? || x.SampleId?) && Asks(a, x);
    if ParserEnabled(a) {
      SamplesList(v.samples, |v.samples|, x, g);
    } else {
      NoneListed(x, g);
    }
    assert Lists(ParserItems(a, v), x, sampled, g);
    var meta := x.RegC0? && Asks(a, x);
    OneListed(MetadataEnabled(a) && a.criteria.metadataRegC0 != 0, MetadataItems(a, v), x, meta, g,
              Item(RegC0, v.metadataRegC0));
    ListsConcat(OuterItems(a, v), ParserItems(a, v), x, outer, sampled, g);
    ListsConcat(OuterItems(a, v) + ParserItems(a, v), MetadataItems(a, v), x, outer || sampled, meta, g);
  }

  lemma OuterList(a: MatcherAttr, v: MatchParams, x: Slot)
    ensures Lists(OuterItems(a, v), x, !(x.SampleValue? || x.SampleId? || x.RegC0?) && Asks(a, x), Gives(v, x))
  {
    hide And; hide Lists; hide BeValue; hide Lyr2Items; hide Lyr3Items; hide Lyr4Items;
    var g, c := Gives(v, x), a.criteria;
    if OuterEnabled(a) {
      var p, q, r := Lyr2Items(c.lyr2, v.lyr2), Lyr3Items(c.lyr3, v.lyr3), Lyr4Items(c.lyr4, v.lyr4);
      var in2 := Asks(a, x) && (x.Dmac47? || x.Dmac15? || x.Smac47? || x.Smac15? || x.Ethertype? || x.FirstVid?
                                || x.CvlanTag?);
      var in3 := Asks(a, x) && (x.DstIp? || x.SrcIp? || x.IpProtocol? || x.IpVersion?);
      var in4 := Asks(a, x) && (x.UdpDport? || x.UdpSport? || x.TcpDport? || x.TcpSport?);
      Lyr2Lists(a, v, x);
      Lyr3Lists(a, v, x);
      Lyr4Lists(a, v, x);
      ListsConcat(p, q, x, in2, in3, g);
      ListsConcat(p + q, r, x, in2 || in3, in4, g);
    } else {
      NoneListed(x, g);
    }
  }

  /** Every slot of the block a successful apply builds: it holds what the value gives, cut to its width,
      if the criteria ask for it, and is zero otherwise. */
  lemma BlockDecodes(a: MatcherAttr, v: MatchParams, x: Slot)
    requires ApplyStatus(a, v) == Ok && ValidSlot(x)
    ensures AllValid(Items(a, v))
    ensures Read(Apply(Zeros(PARAM_BYTES), 0, Items(a, v)), FieldOf(x)) ==
            if Asks(a, x) then Gives(v, x) % Pow2(FieldOf(x).width) else 0
  {
    hide PutAll; hide FieldOf; hide Fits; hide Read; hide Items; hide Asks; hide Gives; hide Pow2; hide Zeros;
    hide ApplyStatus; hide Disjoint; hide Rank;
    var items, z := Items(a, v), Zeros(PARAM_BYTES);
    ItemsAscending(a, v);
    AscendingDisjoint(items, 0, 33, 0);
    WritesFit(items, 0, PARAM_BYTES);
    ItemsList(a, v, x);
    SlotFits(x, 0, PARAM_BYTES);
    var ws := ToWrites(items, 0);
    assert FieldOf(x).At(0) == FieldOf(x);
    if Asks(a, x) {
      var i :| 0 <= i < |items| && items[i] == Item(x, Gives(v, x));
      PutAllReads(z, ws, i);
    } else {
      forall i | 0 <= i < |ws| ensures Disjoint(ws[i].f, FieldOf(x)) {
        SlotsDisjoint(items[i].slot, x, 0);
      }
      PutAllKeeps(z, ws, FieldOf(x));
      ReadOfZeros(PARAM_BYTES, FieldOf(x));
    }
  }

  /* ---------------------------------------------------------------- the switch is a loop */

  /** Samples 0 up to `n - 1`, as a loop would write them. */
  function LoopItems(samples: seq<Sample>, n: nat): (items: seq<Item>)
    requires n <= |samples|
    ensures |items| == 2 * n
  {
    seq(2 * n, k requires 0 <= k < 2 * n =>
      if k % 2 == 0 then Item(SampleValue(k / 2), samples[k / 2].val)
      else Item(SampleId(k / 2), samples[k / 2].id))
  }

  lemma {:induction false} SwitchOrder(samples: seq<Sample>, n: nat)
    requires n <= |samples|
    ensures |SampleItems(samples, n)| == 2 * n
    ensures forall i | 0 <= i < n ::
              && SampleItems(samples, n)[2 * i] == Item(SampleValue(n - 1 - i), samples[n - 1 - i].val)
              && SampleItems(samples, n)[2 * i + 1] == Item(SampleId(n - 1 - i), samples[n - 1 - i].id)
  {
    if n > 0 {
      SwitchOrder(samples, n - 1);
      var tail := SampleItems(samples, n - 1);
      forall i | 1 <= i < n
        ensures SampleItems(samples, n)[2 * i] == Item(SampleValue(n - 1 - i), samples[n - 1 - i].val)
        ensures SampleItems(samples, n)[2 * i + 1] == Item(SampleId(n - 1 - i), samples[n - 1 - i].id)
      {
        assert SampleItems(samples, n)[2 * i] == tail[2 * (i - 1)];
        assert SampleItems(samples, n)[2 * i + 1] == tail[2 * (i - 1) + 1];
      }
    }
  }

  /** The fall-through switch leaves the buffer a loop over samples 0..n-1 would. */
  lemma SwitchIsLoop(s: seq<byte>, base: nat, samples: seq<Sample>, n: nat)
    requires n <= |samples| && n <= MAX_SAMPLES && BlockAt(base, |s|)
    ensures AllValid(SampleItems(samples, n)) && AllValid(LoopItems(samples, n))
    ensures Apply(s, base, SampleItems(samples, n)) == Apply(s, base, LoopItems(samples, n))
  {
    hide PutAll; hide FieldOf; hide Fits; hide Disjoint; hide SampleItems;
    var xs, ys := SampleItems(samples, n), LoopItems(samples, n);
    SampleAscending(samples, n);
    AscendingDisjoint(xs, 32 - 2 * n, 32, base);
    SwitchOrder(samples, n);
    var ws, us := ToWrites(xs, base), ToWrites(ys, base);
    WritesFit(xs, base, |s|);
    WritesFit(ys, base, |s|);
    LoopDisjoint(samples, n, base);
    forall k | 0 <= k < 2 * n ensures ws[k] in us && us[k] in ws {
      LoopPosition(samples, n, k);
      var k' := 2 * (n - 1 - k / 2) + k % 2;
      assert us[k'] == ws[k] && ws[k'] == us[k];
    }
    PutAllAnyOrder(s, ws, us);
  }

  lemma LoopDisjoint(samples: seq<Sample>, n: nat, base: nat)
    requires n <= |samples| && n <= MAX_SAMPLES
    ensures PairwiseDisjoint(ToWrites(LoopItems(samples, n), base))
  {
    hide Disjoint; hide FieldOf;
    var ys := LoopItems(samples, n);
    var us := ToWrites(ys, base);
    forall i, j | 0 <= i < j < |us| ensures Disjoint(us[i].f, us[j].f) {
      assert ys[i].slot != ys[j].slot;
      SlotsDisjoint(ys[i].slot, ys[j].slot, base);
    }
  }

  lemma LoopPosition(samples: seq<Sample>, n: nat, k: nat)
    requires n <= |samples| && k < 2 * n
    ensures var k' := 2 * (n - 1 - k / 2) + k % 2;
            && 0 <= k' < 2 * n && |SampleItems(samples, n)| == 2 * n
            && SampleItems(samples, n)[k] == LoopItems(samples, n)[k']
            && SampleItems(samples, n)[k'] == LoopItems(samples, n)[k]
  {
    hide SampleItems;
    SwitchOrder(samples, n);
    var i := k / 2;
    var k' := 2 * (n - 1 - i) + k % 2;
    assert k' / 2 == n - 1 - i && k' % 2 == k % 2;
    assert k == 2 * i + k % 2;
  }

  /* ---------------------------------------------------------------- a block inside a command */

  /** The match block of a command buffer, at bit `base`. */
  function Block(s: seq<byte>, base: nat): (b: seq<byte>)
    requires BlockAt(base, |s|)
    ensures |b| == PARAM_BYTES
  {
    s[base / 8..base / 8 + PARAM_BYTES]
  }

  /** The block there is the one an apply builds on its own. */
  predicate HoldsBlock(s: seq<byte>, base: nat, a: MatcherAttr, v: MatchParams)
    requires BlockAt(base, |s|)
  {
    AllValid(Items(a, v)) && Block(s, base) == Apply(Zeros(PARAM_BYTES), 0, Items(a, v))
  }

  lemma PutInBlock(s: seq<byte>, base: nat, x: Slot, v: nat)
    requires ValidSlot(x) && BlockAt(base, |s|)
    ensures Fits(FieldOf(x).At(base), |s|) && Fits(FieldOf(x), PARAM_BYTES)
    ensures Block(Put(s, FieldOf(x).At(base), v), base) == Put(Block(s, base), FieldOf(x), v)
  {
    hide FieldOf; hide Put; hide BitAt; hide Bit; hide Fits;
    SlotFits(x, base, |s|);
    SlotFits(x, 0, PARAM_BYTES);
    assert FieldOf(x).At(0) == FieldOf(x);
    var f, o := FieldOf(x), base / 8;
    var t, b := Put(s, f.At(base), v), Put(Block(s, base), f, v);
    forall k: nat | k < 8 * PARAM_BYTES ensures BitAt(Block(t, base), k) <==> BitAt(b, k) {
      BitOfSlice(t, o, PARAM_BYTES, k);
      BitOfSlice(s, o, PARAM_BYTES, k);
      PutBit(s, f.At(base), v, base + k);
      PutBit(Block(s, base), f, v, k);
      assert 8 * o == base;
    }
    SameBuffer(Block(t, base), b);
  }

  /** Writing a block inside a command is writing it on its own. */
  lemma {:induction false} ApplyInBlock(s: seq<byte>, base: nat, items: seq<Item>)
    requires AllValid(items) && BlockAt(base, |s|)
    ensures Block(Apply(s, base, items), base) == Apply(Block(s, base), 0, items)
    decreases |items|
  {
    hide FieldOf; hide Put; hide Fits; hide Block; hide PutAll;
    if items == [] {
      ApplyNone(s, base);
      ApplyNone(Block(s, base), 0);
    } else {
      var n, x := |items| - 1, items[|items| - 1];
      assert items == items[..n] + [x];
      ApplyInBlock(s, base, items[..n]);
      ApplyConcat(s, base, items[..n], [x]);
      ApplyConcat(Block(s, base), 0, items[..n], [x]);
      ApplyOne(Apply(s, base, items[..n]), base, x);
      ApplyOne(Apply(Block(s, base), 0, items[..n]), 0, x);
      PutInBlock(Apply(s, base, items[..n]), base, x.slot, x.v);
      assert FieldOf(x.slot).At(0) == FieldOf(x.slot);
    }
  }

  /** A match parameter block lies apart from a field outside its 4096 bits. */
  lemma BlockApart(x: Slot, base: nat, g: Field)
    requires ValidSlot(x) && (g.off + g.width <= base || base + 8 * PARAM_BYTES <= g.off)
    ensures Disjoint(FieldOf(x).At(base), g)
  {
  }

  /** Applying a matcher leaves every field outside its block as it was. */
  lemma ApplyKeeps(s: seq<byte>, base: nat, a: MatcherAttr, v: MatchParams, g: Field)
    requires BlockAt(base, |s|) && g.off + g.width <= 8 * |s|
    requires g.off + g.width <= base || base + 8 * PARAM_BYTES <= g.off
    ensures AllValid(Items(a, v))
    ensures Read(Apply(s, base, Items(a, v)), g) == Read(s, g)
  {
    hide PutAll; hide Fits; hide Read; hide Items; hide FieldOf; hide Rank; hide BlockAt;
    ItemsAscending(a, v);
    var items := Items(a, v);
    var ws := ToWrites(items, base);
    WritesFit(items, base, |s|);
    forall i | 0 <= i < |ws| ensures Disjoint(ws[i].f, g) {
      BlockApart(items[i].slot, base, g);
    }
    PutAllKeeps(s, ws, g);
  }

  /** A block in front of which everything was written is still all zeros. */
  lemma WritesLeaveBlock(len: nat, base: nat, ws: seq<Write>)
    requires BlockAt(base, len) && base % 8 == 0 && AllFit(ws, len)
    requires forall i | 0 <= i < |ws| :: ws[i].f.off + ws[i].f.width <= base
    ensures Block(PutAll(Zeros(len), ws), base) == Zeros(PARAM_BYTES)
  {
    hide PutAll; hide Fits; hide Bit; hide BitAt; hide Zeros; hide Block;
    var t := PutAll(Zeros(len), ws);
    forall k: nat | k < 8 * PARAM_BYTES ensures BitAt(Block(t, base), k) <==> BitAt(Zeros(PARAM_BYTES), k) {
      BlockBit(t, base, k);
      PutAllFrame(Zeros(len), ws, base + k);
      ZeroBit(len, base + k);
      ZeroBit(PARAM_BYTES, k);
    }
    SameBuffer(Block(t, base), Zeros(PARAM_BYTES));
  }

  lemma BlockBit(s: seq<byte>, base: nat, k: nat)
    requires BlockAt(base, |s|) && base % 8 == 0 && k < 8 * PARAM_BYTES
    ensures base + k < 8 * |s|
    ensures BitAt(Block(s, base), k) <==> BitAt(s, base + k)
  {
    hide Bit; hide BitAt;
    assert base == 8 * (base / 8);
    BitOfSlice(s, base / 8, PARAM_BYTES, k);
  }

  lemma ZeroBit(n: nat, k: nat)
    requires k < 8 * n
    ensures !BitAt(Zeros(n), k)
  {
    BitOfZero(7 - k % 8);
  }

  lemma ApplyNone(s: seq<byte>, base: nat)
    requires BlockAt(base, |s|)
    ensures Apply(s, base, []) == s
  {
    assert ToWrites([], base) == [];
  }

  lemma ApplyOne(s: seq<byte>, base: nat, x: Item)
    requires ValidSlot(x.slot) && BlockAt(base, |s|)
    ensures Fits(FieldOf(x.slot).At(base), |s|)
    ensures Apply(s, base, [x]) == Put(s, FieldOf(x.slot).At(base), x.v)
  {
    hide Put; hide FieldOf; hide Fits;
    SlotFits(x.slot, base, |s|);
    var ws := ToWrites([x], base);
    assert AllFit(ws, |s|);
    assert ws[..0] == [] && PutAll(s, ws[..0]) == s;
    assert PutAll(s, ws) == Put(PutAll(s, ws[..0]), ws[0].f, ws[0].v);
  }

  /* ---------------------------------------------------------------- flow_matcher in place */

  lemma ApplyOpt(s: seq<byte>, base: nat, done: seq<Item>, c: bool, items: seq<Item>)
    requires AllValid(done) && AllValid(items) && BlockAt(base, |s|)
    ensures AllValid(done + Opt(c, items))
    ensures Apply(s, base, done + Opt(c, items)) ==
            if c then Apply(Apply(s, base, done), base, items) else Apply(s, base, done)
  {
    if c {
      ApplyConcat(s, base, done, items);
    } else {
      assert done + Opt(c, items) == done;
    }
  }

  method SetSlot(buf: array<byte>, base: nat, x: Slot, v: nat)
    requires ValidSlot(x) && BlockAt(base, buf.Length)
    modifies buf
    ensures buf[..] == Apply(old(buf[..]), base, [Item(x, v)])
  {
    hide FieldOf; hide Put; hide Fits; hide PutAll;
    SlotFits(x, base, buf.Length);
    Set(buf, FieldOf(x).At(base), v);
    ApplyOne(old(buf[..]), base, Item(x, v));
  }

  /** copy_ether_mac: six bytes copied over the two MAC fields. */
  method CopyMac(buf: array<byte>, base: nat, hi: Slot, lo: Slot, mac: Mac)
    requires BlockAt(base, buf.Length)
    requires (hi == Dmac47 && lo == Dmac15) || (hi == Smac47 && lo == Smac15)
    modifies buf
    ensures buf[..] == Apply(old(buf[..]), base,
                             [Item(hi, BeValue(mac[0..4])), Item(lo, BeValue(mac[4..6]))])
  {
    hide Apply; hide BeValue; hide Splice; hide FieldOf;
    var o := (base + FieldOf(hi).off) / 8;
    MacBytes(buf[..], base, hi, lo, mac);
    StoreBytes(buf, o, mac[0..4]);
    StoreBytes(buf, o + 4, mac[4..6]);
  }

  lemma MacBytes(s: seq<byte>, base: nat, hi: Slot, lo: Slot, mac: Mac)
    requires BlockAt(base, |s|)
    requires (hi == Dmac47 && lo == Dmac15) || (hi == Smac47 && lo == Smac15)
    ensures var o := (base + FieldOf(hi).off) / 8;
            && o + 6 <= |s|
            && Splice(Splice(s, o, mac[0..4]), o + 4, mac[4..6]) ==
               Apply(s, base, [Item(hi, BeValue(mac[0..4])), Item(lo, BeValue(mac[4..6]))])
  {
    hide Apply; hide Put; hide BeValue; hide Fits; hide Splice; hide FieldOf;
    var o := (base + FieldOf(hi).off) / 8;
    SlotFits(hi, base, |s|);
    SlotFits(lo, base, |s|);
    MacFields(base, hi, lo, |s|);
    var t := Splice(s, o, mac[0..4]);
    PutIsStoreBytes(s, o, mac[0..4]);
    PutIsStoreBytes(t, o + 4, mac[4..6]);
    var x, y := Item(hi, BeValue(mac[0..4])), Item(lo, BeValue(mac[4..6]));
    ApplyOne(s, base, x);
    ApplyOne(t, base, y);
    ApplyConcat(s, base, [x], [y]);
    assert [x, y] == [x] + [y];
  }

  lemma MacFields(base: nat, hi: Slot, lo: Slot, n: nat)
    requires BlockAt(base, n)
    requires (hi == Dmac47 && lo == Dmac15) || (hi == Smac47 && lo == Smac15)
    ensures var o := (base + FieldOf(hi).off) / 8;
            o + 6 <= n && FieldOf(hi).At(base) == Field(8 * o, 32) && FieldOf(lo).At(base) == Field(8 * (o + 4), 16)
  {
    hide FieldOf;
    var d := if hi == Dmac47 then 8 else 0;
    MacAt(hi, lo, d);
    WholeBytes(base);
    DivModUnique(base + 8 * d, 8, base / 8 + d, 0);
  }

  lemma MacAt(hi: Slot, lo: Slot, d: nat)
    requires (hi == Dmac47 && lo == Dmac15 && d == 8) || (hi == Smac47 && lo == Smac15 && d == 0)
    ensures FieldOf(hi) == Field(8 * d, 32) && FieldOf(lo) == Field(8 * (d + 4), 16)
  {
  }

  lemma WholeBytes(base: nat)
    requires base % 32 == 0
    ensures base == 8 * (base / 8)
  {
    DivModUnique(base, 8, 4 * (base / 32), 0);
  }

  class Matcher {
    const attr: MatcherAttr

    constructor (attr: MatcherAttr)
      ensures this.attr == attr
    {
      this.attr := attr;
    }

    /** set_outer_header_lyr_2_fields */
    method SetLyr2(buf: array<byte>, base: nat, value: MatchParams)
      requires BlockAt(base, buf.Length)
      modifies buf
      ensures AllValid(Lyr2Items(attr.criteria.lyr2, value.lyr2))
      ensures buf[..] == Apply(old(buf[..]), base, Lyr2Items(attr.criteria.lyr2, value.lyr2))
    {
      hide Apply; hide BeValue; hide Opt;
      var c, v := attr.criteria.lyr2, value.lyr2;
      ghost var s := buf[..];
      ghost var d := [Item(Dmac47, BeValue(v.dstMac[0..4])), Item(Dmac15, BeValue(v.dstMac[4..6]))];
      ghost var m := [Item(Smac47, BeValue(v.srcMac[0..4])), Item(Smac15, BeValue(v.srcMac[4..6]))];
      ghost var e := [Item(Ethertype, v.ethertype)];
      ghost var done := Opt(c.dstMac != ZERO_MAC, d);
      ApplyNone(s, base);
      if c.dstMac != ZERO_MAC {
        CopyMac(buf, base, Dmac47, Dmac15, v.dstMac);
      }
      ApplyOpt(s, base, [], c.dstMac != ZERO_MAC, d);
      assert [] + done == done;
      if c.srcMac != ZERO_MAC {
        CopyMac(buf, base, Smac47, Smac15, v.srcMac);
      }
      ApplyOpt(s, base, done, c.srcMac != ZERO_MAC, m);
      done := done + Opt(c.srcMac != ZERO_MAC, m);
      if c.ethertype != 0 {
        SetSlot(buf, base, Ethertype, v.ethertype);
      }
      ApplyOpt(s, base, done, c.ethertype != 0, e);
      done := done + Opt(c.ethertype != 0, e);
      if c.firstVlanId != 0 {
        ghost var t := buf[..];
        SetSlot(buf, base, FirstVid, v.firstVlanId);
        SetSlot(buf, base, CvlanTag, 0x1);
        ApplyConcat(t, base, [Item(FirstVid, v.firstVlanId)], [Item(CvlanTag, 1)]);
        assert [Item(FirstVid, v.firstVlanId)] + [Item(CvlanTag, 1)] ==
               [Item(FirstVid, v.firstVlanId), Item(CvlanTag, 1)];
      }
      ApplyOpt(s, base, done, c.firstVlanId != 0, [Item(FirstVid, v.firstVlanId), Item(CvlanTag, 1)]);
    }

    /** set_outer_header_lyr_3_fields */
    method SetLyr3(buf: array<byte>, base: nat, value: MatchParams)
      requires BlockAt(base, buf.Length)
      modifies buf
      ensures AllValid(Lyr3Items(attr.criteria.lyr3, value.lyr3))
      ensures buf[..] == Apply(old(buf[..]), base, Lyr3Items(attr.criteria.lyr3, value.lyr3))
    {
      hide Apply; hide Opt;
      var c, v := attr.criteria.lyr3, value.lyr3;
      ghost var s := buf[..];
      ghost var done := Opt(c.dstIp != 0, [Item(DstIp, v.dstIp)]);
      ApplyNone(s, base);
      if c.dstIp != 0 {
        SetSlot(buf, base, DstIp, v.dstIp);
      }
      ApplyOpt(s, base, [], c.dstIp != 0, [Item(DstIp, v.dstIp)]);
      assert [] + done == done;
      if c.srcIp != 0 {
        SetSlot(buf, base, SrcIp, v.srcIp);
      }
      ApplyOpt(s, base, done, c.srcIp != 0, [Item(SrcIp, v.srcIp)]);
      done := done + Opt(c.srcIp != 0, [Item(SrcIp, v.srcIp)]);
      if c.ipProtocol != 0 {
        SetSlot(buf, base, IpProtocol, v.ipProtocol);
      }
      ApplyOpt(s, base, done, c.ipProtocol != 0, [Item(IpProtocol, v.ipProtocol)]);
      done := done + Opt(c.ipProtocol != 0, [Item(IpProtocol, v.ipProtocol)]);
      if c.ipVersion != 0 {
        SetSlot(buf, base, IpVersion, v.ipVersion);
      }
      ApplyOpt(s, base, done, c.ipVersion != 0, [Item(IpVersion, v.ipVersion)]);
    }

    method SetPorts(buf: array<byte>, base: nat, dst: Slot, src: Slot, c: Lyr4, v: Lyr4)
      requires BlockAt(base, buf.Length) && ValidSlot(dst) && ValidSlot(src)
      modifies buf
      ensures AllValid(Opt(c.dstPort != 0, [Item(dst, v.dstPort)]) + Opt(c.srcPort != 0, [Item(src, v.srcPort)]))
      ensures buf[..] == Apply(old(buf[..]), base, Opt(c.dstPort != 0, [Item(dst, v.dstPort)])
                                                   + Opt(c.srcPort != 0, [Item(src, v.srcPort)]))
    {
      hide Apply; hide Opt;
      ghost var s := buf[..];
      ApplyNone(s, base);
      if c.dstPort != 0 {
        SetSlot(buf, base, dst, v.dstPort);
      }
      ApplyOpt(s, base, [], c.dstPort != 0, [Item(dst, v.dstPort)]);
      assert [] + Opt(c.dstPort != 0, [Item(dst, v.dstPort)]) == Opt(c.dstPort != 0, [Item(dst, v.dstPort)]);
      if c.srcPort != 0 {
        SetSlot(buf, base, src, v.srcPort);
      }
      ApplyOpt(s, base, Opt(c.dstPort != 0, [Item(dst, v.dstPort)]), c.srcPort != 0, [Item(src, v.srcPort)]);
    }

    /** set_outer_header_lyr_4_fields */
    method SetLyr4(buf: array<byte>, base: nat, value: MatchParams) returns (st: Status)
      requires BlockAt(base, buf.Length)
      modifies buf
      ensures st == if L4Supported(attr.criteria.lyr4) then Ok else ErrNoSupport
      ensures AllValid(Lyr4Items(attr.criteria.lyr4, value.lyr4))
      ensures buf[..] == Apply(old(buf[..]), base, Lyr4Items(attr.criteria.lyr4, value.lyr4))
    {
      hide Apply;
      var c := attr.criteria.lyr4;
      st := Ok;
      if c.kind == L4_NONE {
        ApplyNone(buf[..], base);
      } else if c.kind == L4_UDP {
        SetPorts(buf, base, UdpDport, UdpSport, c, value.lyr4);
      } else if c.kind == L4_TCP {
        SetPorts(buf, base, TcpDport, TcpSport, c, value.lyr4);
      } else {
        ApplyNone(buf[..], base);
        st := ErrNoSupport;
      }
    }

    /** set_outer_header_fields */
    method SetOuter(buf: array<byte>, base: nat, value: MatchParams) returns (st: Status)
      requires BlockAt(base, buf.Length)
      modifies buf
      ensures st == OuterStatus(attr)
      ensures AllValid(OuterItems(attr, value))
      ensures buf[..] == Apply(old(buf[..]), base, OuterItems(attr, value))
    {
      hide Apply; hide Lyr2Items; hide Lyr3Items; hide Lyr4Items;
      ghost var s := buf[..];
      if !OuterEnabled(attr) {
        ApplyNone(s, base);
        return Ok;
      }
      SetLyr2(buf, base, value);
      SetLyr3(buf, base, value);
      st := SetLyr4(buf, base, value);
      ghost var c := attr.criteria;
      ghost var i2, i3 := Lyr2Items(c.lyr2, value.lyr2), Lyr3Items(c.lyr3, value.lyr3);
      ApplyConcat(s, base, i2, i3);
      ApplyConcat(s, base, i2 + i3, Lyr4Items(c.lyr4, value.lyr4));
    }

    method SetSample(buf: array<byte>, base: nat, i: nat, value: MatchParams, ghost s: seq<byte>, ghost n: nat)
      requires BlockAt(base, buf.Length) && BlockAt(base, |s|) && i < n <= |value.samples| && n <= MAX_SAMPLES
      requires AllValid(DoneSamples(value.samples, n, i + 1))
      requires buf[..] == Apply(s, base, DoneSamples(value.samples, n, i + 1))
      modifies buf
      ensures AllValid(DoneSamples(value.samples, n, i))
      ensures buf[..] == Apply(s, base, DoneSamples(value.samples, n, i))
    {
      hide Apply;
      ghost var t := buf[..];
      SetSlot(buf, base, SampleValue(i), value.samples[i].val);
      SetSlot(buf, base, SampleId(i), value.samples[i].id);
      ghost var x, y := Item(SampleValue(i), value.samples[i].val), Item(SampleId(i), value.samples[i].id);
      ApplyConcat(t, base, [x], [y]);
      assert [x] + [y] == [x, y];
      ApplyConcat(s, base, DoneSamples(value.samples, n, i + 1), [x, y]);
    }

    /** set_prog_sample_fileds; each `if` is a case label of the fall-through switch. */
    method SetParserSamples(buf: array<byte>, base: nat, value: MatchParams) returns (st: Status)
      requires BlockAt(base, buf.Length)
      modifies buf
      ensures st == SampleStatus(attr, value)
      ensures AllValid(ParserItems(attr, value))
      ensures buf[..] == Apply(old(buf[..]), base, ParserItems(attr, value))
    {
      hide Apply; hide SampleItems;
      ghost var s := buf[..];
      ApplyNone(s, base);
      if !ParserEnabled(attr) {
        return Ok;
      }
      if |attr.criteria.samples| != |value.samples| {
        return ErrInvalidParam;
      }
      var n := |attr.criteria.samples|;
      if n > 8 {
        return ErrOutOfRange;
      }
      if n >= 8 { SetSample(buf, base, 7, value, s, n); }
      if n >= 7 { SetSample(buf, base, 6, value, s, n); }
      if n >= 6 { SetSample(buf, base, 5, value, s, n); }
      if n >= 5 { SetSample(buf, base, 4, value, s, n); }
      if n >= 4 { SetSample(buf, base, 3, value, s, n); }
      if n >= 3 { SetSample(buf, base, 2, value, s, n); }
      if n >= 2 { SetSample(buf, base, 1, value, s, n); }
      if n >= 1 { SetSample(buf, base, 0, value, s, n); }
      DoneIsSwitch(value.samples, n);
      return Ok;
    }

    /** set_metadata_register_0_field */
    method SetMetadata(buf: array<byte>, base: nat, value: MatchParams)
      requires BlockAt(base, buf.Length)
      modifies buf
      ensures AllValid(MetadataItems(attr, value))
      ensures buf[..] == Apply(old(buf[..]), base, MetadataItems(attr, value))
    {
      hide Apply;
      ApplyNone(buf[..], base);
      if !MetadataEnabled(attr) {
        return;
      }
      if attr.criteria.metadataRegC0 != 0 {
        SetSlot(buf, base, RegC0, value.metadataRegC0);
      }
    }

    /** flow_matcher::apply */
    method ApplyTo(buf: array<byte>, base: nat, value: MatchParams) returns (st: Status)
      requires BlockAt(base, buf.Length)
      modifies buf
      ensures st == ApplyStatus(attr, value)
      ensures AllValid(Items(attr, value))
      ensures buf[..] == Apply(old(buf[..]), base, Items(attr, value))
    {
      hide Apply; hide OuterItems; hide ParserItems; hide MetadataItems; hide OuterStatus; hide SampleStatus;
      ghost var s := buf[..];
      ghost var o := OuterItems(attr, value);
      st := SetOuter(buf, base, value);
      if st != Ok {
        assert Items(attr, value) == o;
        return;
      }
      st := SetParserSamples(buf, base, value);
      ApplyConcat(s, base, o, ParserItems(attr, value));
      if st != Ok {
        assert Items(attr, value) == o + ParserItems(attr, value);
        return;
      }
      SetMetadata(buf, base, value);
      ApplyConcat(s, base, o + ParserItems(attr, value), MetadataItems(attr, value));
    }
  }

  /** The switch's writes for samples `n - 1` down to `i`. */
  ghost function DoneSamples(samples: seq<Sample>, n: nat, i: nat): seq<Item>
    requires i <= n <= |samples|
    decreases n - i
  {
    if i == n then []
    else DoneSamples(samples, n, i + 1) + [Item(SampleValue(i), samples[i].val), Item(SampleId(i), samples[i].id)]
  }

  lemma {:induction false} DoneThenRest(samples: seq<Sample>, n: nat, i: nat)
    requires i <= n <= |samples|
    ensures DoneSamples(samples, n, i) + SampleItems(samples, i) == SampleItems(samples, n)
    decreases n - i
  {
    if i < n {
      DoneThenRest(samples, n, i + 1);
      var two := [Item(SampleValue(i), samples[i].val), Item(SampleId(i), samples[i].id)];
      assert SampleItems(samples, i + 1) == two + SampleItems(samples, i);
      assert DoneSamples(samples, n, i + 1) + (two + SampleItems(samples, i)) ==
             DoneSamples(samples, n, i + 1) + two + SampleItems(samples, i);
    } else {
      assert [] + SampleItems(samples, n) == SampleItems(samples, n);
    }
  }

  lemma DoneIsSwitch(samples: seq<Sample>, n: nat)
    requires n <= |samples|
    ensures DoneSamples(samples, n, 0) == SampleItems(samples, n)
  {
    DoneThenRest(samples, n, 0);
    assert DoneSamples(samples, n, 0) + SampleItems(samples, 0) == DoneSamples(samples, n, 0);
  }
}
