/** Queue sizes: rounded-up logarithms, the work-queue fields that hold them, and the buffer. */
module QueueGeometry {
  import opened Bits
  import opened Common
  import opened CommandBuffer

  const MIN_LOG_STRIDES := 9
  const MAX_LOG_STRIDES := 16
  const MIN_LOG_STRIDE_BYTES := 6
  const MAX_LOG_STRIDE_BYTES := 13

  // Fields of the work-queue context.
  const WQ_BYTES := 192
  const LOG_WQ_STRIDE := Field(0x10c, 4)
  const LOG_WQ_SZ := Field(0x11b, 5)
  const LOG_NUM_STRIDES := Field(0x134, 4)
  const LOG_STRIDE_BYTES := Field(0x13d, 3)

  /** A conversion to a 32-bit signed integer. */
  function ToInt(x: nat): (y: int)
    ensures -0x8000_0000 <= y < 0x8000_0000 && (x - y) % 0x1_0000_0000 == 0
  {
    var y := x % 0x1_0000_0000;
    if y < 0x8000_0000 then y else y - 0x1_0000_0000
  }

  /** `e` is the least exponent whose power of two is not below `n`. */
  predicate IsLog2(n: int, e: nat) {
    n <= Pow2(e) && (e > 0 ==> Pow2(e - 1) < n)
  }

  lemma Log2Unique(n: int, e: nat, e': nat)
    requires IsLog2(n, e) && IsLog2(n, e')
    ensures e == e'
  {
    if e < e' {
      Pow2Monotonic(e, e' - 1);
    } else if e' < e {
      Pow2Monotonic(e', e - 1);
    }
  }

  lemma Log2OfPower(e: nat)
    ensures IsLog2(Pow2(e), e)
  {
    if e > 0 { Pow2Monotonic(e - 1, e); }
  }

  /** ilog2 of internal.h */
  method Ilog2(n: int) returns (e: int)
    requires n <= 0x4000_0000
    ensures n <= 0 ==> e == -1
    ensures n > 0 ==> 0 <= e <= 30 && IsLog2(n, e)
  {
    e := 0;
    if n <= 0 {
      return -1;
    }
    while Pow2(e) < n
      invariant 0 <= e <= 30 && (e > 0 ==> Pow2(e - 1) < n)
      decreases n - Pow2(e)
    {
      assert e < 30 by { Pow2Values(); }
      e := e + 1;
    }
  }

  /** The loop has an exponent to stop at, without shifting into the sign bit, exactly up to 2^30. */
  lemma Ilog2Stops(n: int)
    ensures (exists e: nat | e <= 30 :: n <= Pow2(e)) <==> n <= 0x4000_0000
  {
    hide Pow2;
    Pow2Values();
    if e: nat :| e <= 30 && n <= Pow2(e) {
      Pow2Monotonic(e, 30);
    }
    if n <= 0x4000_0000 {
      assert n <= Pow2(30);
    }
  }

  /* ---------------------------------------------------------------- striding receive queues */

  datatype RqAttr = RqAttr(strideSz: u64, strideNum: u32, wqeNum: u64, wqeSz: u64)

  /** The two values whose logarithms the stride fields hold are in the range of ilog2. */
  predicate StridesInRange(a: RqAttr) {
    ToInt(a.strideSz) <= 0x4000_0000 && ToInt(a.strideNum) <= 0x4000_0000
  }

  /** The stride parameters striding_rq::create accepts. */
  predicate StridesAccepted(a: RqAttr) {
    Pow2(MIN_LOG_STRIDES - 1) < ToInt(a.strideNum) <= Pow2(MAX_LOG_STRIDES)
    && Pow2(MIN_LOG_STRIDE_BYTES - 1) < ToInt(a.strideSz) <= Pow2(MAX_LOG_STRIDE_BYTES)
  }

  lemma Log2Between(n: int, e: nat, lo: nat, hi: nat)
    requires IsLog2(n, e) && 0 < lo <= hi
    ensures lo <= e <= hi <==> Pow2(lo - 1) < n <= Pow2(hi)
  {
    hide Pow2;
    if e < lo { Pow2Monotonic(e, lo - 1); }
    if lo <= e { Pow2Monotonic(lo - 1, e - 1); }
    if e <= hi { Pow2Monotonic(e, hi); }
    if hi < e { Pow2Monotonic(hi, e - 1); }
  }

  lemma WqFieldsFit(n: nat)
    requires WQ_BYTES <= n
    ensures Fits(LOG_WQ_STRIDE, n) && Fits(LOG_WQ_SZ, n) && Fits(LOG_NUM_STRIDES, n) && Fits(LOG_STRIDE_BYTES, n)
  {
  }

  /** The stride part of striding_rq::create: range check, bias, and the two fields. */
  method SetStrides(a: RqAttr, wq: array<byte>) returns (st: Status)
    requires StridesInRange(a) && wq.Length == WQ_BYTES
    modifies wq
    ensures st == if StridesAccepted(a) then Ok else ErrOutOfRange
    ensures st == Ok <==> 0x100 < ToInt(a.strideNum) <= 0x1_0000 && 0x20 < ToInt(a.strideSz) <= 0x2000
    ensures st == Ok ==>
              && IsLog2(ToInt(a.strideNum), Read(wq[..], LOG_NUM_STRIDES) + 9)
              && IsLog2(ToInt(a.strideSz), Read(wq[..], LOG_STRIDE_BYTES) + 6)
    ensures forall f: Field | f.off + f.width <= 8 * WQ_BYTES
                              && Disjoint(f, LOG_NUM_STRIDES) && Disjoint(f, LOG_STRIDE_BYTES) ::
              Read(wq[..], f) == Read(old(wq[..]), f)
  {
    hide Put; hide Pow2; hide Fits; hide Read; hide ToInt;
    WqFieldsFit(wq.Length);
    Pow2Values();
    StrideLimits();
    var logNum := Ilog2(ToInt(a.strideNum));
    NegativeRejected(a);
    if logNum >= 0 { Log2Between(ToInt(a.strideNum), logNum, MIN_LOG_STRIDES, MAX_LOG_STRIDES); }
    if logNum < MIN_LOG_STRIDES || logNum > MAX_LOG_STRIDES {
      return ErrOutOfRange;
    }
    Set(wq, LOG_NUM_STRIDES, logNum - MIN_LOG_STRIDES);
    ReadOfPut(old(wq[..]), LOG_NUM_STRIDES, logNum - MIN_LOG_STRIDES);
    ghost var s := wq[..];
    OthersKept(old(wq[..]), LOG_NUM_STRIDES, logNum - MIN_LOG_STRIDES);
    var logBytes := Ilog2(ToInt(a.strideSz));
    if logBytes >= 0 { Log2Between(ToInt(a.strideSz), logBytes, MIN_LOG_STRIDE_BYTES, MAX_LOG_STRIDE_BYTES); }
    if logBytes < MIN_LOG_STRIDE_BYTES || logBytes > MAX_LOG_STRIDE_BYTES {
      return ErrOutOfRange;
    }
    Set(wq, LOG_STRIDE_BYTES, logBytes - MIN_LOG_STRIDE_BYTES);
    ReadOfPut(s, LOG_STRIDE_BYTES, logBytes - MIN_LOG_STRIDE_BYTES);
    OthersKept(s, LOG_STRIDE_BYTES, logBytes - MIN_LOG_STRIDE_BYTES);
    return Ok;
  }

  lemma StrideLimits()
    ensures Pow2(MIN_LOG_STRIDES - 1) == 0x100 && Pow2(MAX_LOG_STRIDES) == 0x1_0000
    ensures Pow2(MIN_LOG_STRIDE_BYTES - 1) == 0x20 && Pow2(MAX_LOG_STRIDE_BYTES) == 0x2000
  {
    hide Pow2;
    Pow2Values();
    PowerStep(13);
  }

  /** A write leaves every other field of the context as it was. */
  lemma OthersKept(s: seq<byte>, g: Field, v: nat)
    requires Fits(g, |s|)
    ensures forall f: Field | f.off + f.width <= 8 * |s| && Disjoint(f, g) :: Read(Put(s, g, v), f) == Read(s, f)
  {
    hide Put; hide Fits; hide Read;
    forall f: Field | f.off + f.width <= 8 * |s| && Disjoint(f, g) ensures Read(Put(s, g, v), f) == Read(s, f) {
      ReadOfOtherPut(s, g, v, f);
    }
  }

  lemma NegativeRejected(a: RqAttr)
    ensures ToInt(a.strideNum) <= 0 || ToInt(a.strideSz) <= 0 ==> !StridesAccepted(a)
  {
  }

  /** What the device makes of the fields: exact for powers of two, and below twice the request. */
  lemma StridesDecode(n: int, field: nat, bias: nat)
    requires n > 0 && IsLog2(n, field + bias)
    ensures n <= Pow2(field + bias) < 2 * n
    ensures (exists k: nat :: n == Pow2(k)) <==> Pow2(field + bias) == n
  {
    hide Pow2;
    var e := field + bias;
    if e > 0 { PowerStep(e); } else { PowerZero(); }
    if k: nat :| n == Pow2(k) {
      Log2OfPower(k);
      Log2Unique(n, e, k);
    }
  }

  lemma PowerStep(e: nat)
    requires e > 0
    ensures Pow2(e) == 2 * Pow2(e - 1)
  {
  }

  lemma PowerZero()
    ensures Pow2(0) == 1
  {
  }

  /* ---------------------------------------------------------------- regular receive queues */

  /** m_wq_buf_sz_bytes: 16-byte units per entry times entries, cut to 32 bits. */
  function WqBytes(a: RqAttr): nat {
    16 * a.wqeSz * a.wqeNum % 0x1_0000_0000
  }

  /** What ilog2 returns. */
  predicate IsIlog2(n: int, e: int) {
    if n > 0 then e >= 0 && IsLog2(n, e) else e == -1
  }

  /** A logarithm as MLX5_SET takes it: -1, for a size that is not positive, becomes all ones. */
  function AsWord(e: int): (w: nat)
    requires e >= -1
    ensures e < 0x1_0000_0000 ==> w < 0x1_0000_0000 && (w - e) % 0x1_0000_0000 == 0
  {
    if e < 0 then 0xFFFF_FFFF else e
  }

  /** The entry size in bytes and the entry count are in the range of ilog2. */
  predicate SizesInRange(a: RqAttr) {
    ToInt(16 * a.wqeSz) <= 0x4000_0000 && ToInt(a.wqeNum) <= 0x4000_0000
  }

  /** The size part of regular_rq::create. */
  method SetSizes(a: RqAttr, wq: array<byte>) returns (ghost logStride: int, ghost logNum: int)
    requires SizesInRange(a) && wq.Length == WQ_BYTES
    modifies wq
    ensures IsIlog2(ToInt(16 * a.wqeSz), logStride) && IsIlog2(ToInt(a.wqeNum), logNum)
    ensures Read(wq[..], LOG_WQ_STRIDE) == AsWord(logStride) % 0x10
    ensures Read(wq[..], LOG_WQ_SZ) == AsWord(logNum) % 0x20
    ensures forall f: Field | f.off + f.width <= 8 * WQ_BYTES && Disjoint(f, LOG_WQ_STRIDE) && Disjoint(f, LOG_WQ_SZ) ::
              Read(wq[..], f) == Read(old(wq[..]), f)
  {
    hide Put; hide Pow2; hide Fits; hide Read; hide ToInt; hide IsLog2;
    WqFieldsFit(wq.Length);
    Pow2Values();
    var stride := Ilog2(ToInt(16 * a.wqeSz));
    Set(wq, LOG_WQ_STRIDE, AsWord(stride));
    ReadOfPut(old(wq[..]), LOG_WQ_STRIDE, AsWord(stride));
    OthersKept(old(wq[..]), LOG_WQ_STRIDE, AsWord(stride));
    ghost var s := wq[..];
    var num := Ilog2(ToInt(a.wqeNum));
    Set(wq, LOG_WQ_SZ, AsWord(num));
    ReadOfPut(s, LOG_WQ_SZ, AsWord(num));
    OthersKept(s, LOG_WQ_SZ, AsWord(num));
    logStride, logNum := stride, num;
  }

  /** The byte size the device derives from the two fields. */
  function DeviceBytes(logStride: nat, logNum: nat): nat {
    Pow2(logStride % 0x10 + logNum % 0x20)
  }

  lemma WqBytesOfPowers(attr: RqAttr, a: nat, b: nat)
    requires attr.wqeSz == Pow2(a) && attr.wqeNum == Pow2(b)
    ensures 16 * attr.wqeSz == Pow2(a + 4)
    ensures WqBytes(attr) == Pow2(a + 4 + b) % 0x1_0000_0000
  {
    hide Pow2;
    Pow2Values();
    Pow2Sum(a, 4);
    var x := 16 * attr.wqeSz;
    assert x == Pow2(a + 4);
    Pow2Sum(a + 4, b);
    assert x * attr.wqeNum == Pow2(a + 4) * Pow2(b);
  }

  /** For powers of two the device's size is the buffer's size exactly when the entry is at most
      32 KiB and the queue is below 4 GiB. */
  lemma RegularExact(attr: RqAttr, a: nat, b: nat)
    requires attr.wqeSz == Pow2(a) && attr.wqeNum == Pow2(b) && a + 4 <= 30 && b <= 30
    ensures IsLog2(16 * attr.wqeSz, a + 4) && IsLog2(attr.wqeNum, b)
    ensures DeviceBytes(a + 4, b) == WqBytes(attr) <==> a + 4 <= 15 && a + 4 + b <= 31
  {
    hide Pow2; hide WqBytes; hide IsLog2; hide DeviceBytes;
    WqBytesOfPowers(attr, a, b);
    Log2OfPower(a + 4);
    Log2OfPower(b);
    PowersExact(a + 4, b);
  }

  lemma PowersExact(e: nat, f: nat)
    requires e <= 30 && f <= 30
    ensures DeviceBytes(e, f) == Pow2(e + f) % 0x1_0000_0000 <==> e <= 15 && e + f <= 31
  {
    hide Pow2;
    Pow2Values();
    var n := e + f;
    if n <= 31 {
      Pow2Monotonic(n, 31);
      if e > 15 { Pow2Monotonic(n - 16, n); }
    } else {
      Pow2Sum(n - 32, 32);
      DivModUnique(Pow2(n), 0x1_0000_0000, Pow2(n - 32), 0);
    }
  }

  /** For any sizes in range the device's size is never below the buffer's. */
  lemma RegularCovers(s: nat, n: nat, e: nat, f: nat)
    requires IsLog2(s, e) && IsLog2(n, f) && e <= 15 && f <= 31
    ensures s * n <= DeviceBytes(e, f)
  {
    hide Pow2;
    Pow2Sum(e, f);
    ProductMonotonic(s, Pow2(e), n, Pow2(f));
  }

  lemma ProductMonotonic(a: nat, b: nat, c: nat, d: nat)
    requires a <= b && c <= d
    ensures a * c <= b * d
  {
    assert a * c <= b * c;
    assert b * c <= b * d;
  }

  /** allocate_wq_buf rounds the size up to pages of `Pow2(k)` bytes. */
  function Allocated(x: nat, k: nat): nat
    requires x < 0x1_0000_0000 && k <= 63
  {
    RoundingFits(x, k);
    AlignUp(x, k, 64)
  }

  /** The allocation is the least whole number of pages that holds the size. */
  lemma AllocatedLeast(x: nat, k: nat)
    requires x < 0x1_0000_0000 && k <= 63
    ensures x <= Allocated(x, k) < x + Pow2(k) && exists q: nat :: Allocated(x, k) == q * Pow2(k)
  {
    hide Pow2; hide AlignUp; hide Shr;
    RoundingFits(x, k);
    AlignUpIsLeast(x, k, 64);
  }

  lemma RoundingFits(x: nat, k: nat)
    requires x < 0x1_0000_0000 && k <= 63
    ensures x + Pow2(k) - 1 < Pow2(64)
  {
    hide Pow2;
    Pow2Values();
    Pow2Monotonic(k, 63);
    Pow2Monotonic(32, 63);
    PowerStep(64);
  }

  /** A power of two and a non-empty size rounded up to pages: the power fits exactly when it is
      within one page, or the size comes within a page of it. */
  lemma PowerFits(x: nat, m: nat, k: nat)
    requires 0 < x < 0x1_0000_0000 && k <= 63
    ensures Pow2(m) <= Allocated(x, k) <==> m <= k || x + Pow2(k) > Pow2(m)
  {
    hide Pow2; hide AlignUp;
    RoundingFits(x, k);
    AlignUpIsLeast(x, k, 64);
    if m <= k {
      WholePages(x, k);
      Pow2Monotonic(m, k);
    } else {
      Pow2Sum(m - k, k);
      LastPage(x, k, Pow2(m - k));
    }
  }

  lemma WholePages(x: nat, k: nat)
    requires 0 < x < 0x1_0000_0000 && k <= 63
    ensures Allocated(x, k) >= Pow2(k)
  {
    hide Pow2; hide AlignUp; hide Shr;
    RoundingFits(x, k);
    AlignUpIsLeast(x, k, 64);
    var q := Shr(x + Pow2(k) - 1, k);
    if q > 0 { MulAtLeast(Pow2(k), 0, q); }
  }

  /** A whole number of pages fits exactly when the size reaches into the last of them. */
  lemma LastPage(x: nat, k: nat, n: nat)
    requires 0 < x < 0x1_0000_0000 && k <= 63
    ensures n * Pow2(k) <= Allocated(x, k) <==> x + Pow2(k) > n * Pow2(k)
  {
    hide Pow2; hide AlignUp; hide Shr;
    RoundingFits(x, k);
    AlignUpIsLeast(x, k, 64);
    LeastMultiple(x, Pow2(k), Shr(x + Pow2(k) - 1, k), n);
  }

  lemma LeastMultiple(x: nat, p: nat, q: nat, n: nat)
    requires x <= q * p < x + p
    ensures n * p <= q * p <==> x + p > n * p
  {
    if q < n {
      MulAtLeast(p, q, n);
    } else if n < q {
      MulAtLeast(p, n, q);
    }
  }

  /** For every request, whatever its logarithms come to in their fields: the device stays inside
      the allocation exactly when the buffer is not empty, and the device's size is within one page
      or the requested size comes within a page of it. */
  lemma AllocationExact(attr: RqAttr, e: nat, f: nat, k: nat)
    requires k <= 63
    ensures DeviceBytes(e, f) <= Allocated(WqBytes(attr), k) <==>
            && WqBytes(attr) > 0
            && (e % 0x10 + f % 0x20 <= k || WqBytes(attr) + Pow2(k) > DeviceBytes(e, f))
  {
    hide Pow2; hide AlignUp; hide WqBytes;
    WqBytesBound(attr);
    if WqBytes(attr) > 0 {
      PowerFits(WqBytes(attr), e % 0x10 + f % 0x20, k);
    } else {
      RoundingFits(0, k);
      AlignUpIsLeast(0, k, 64);
      assert 0 * Pow2(k) == 0;
      assert Allocated(0, k) <= 0;
      Pow2Monotonic(0, e % 0x10 + f % 0x20);
      PowerZero();
    }
  }

  lemma WqBytesBound(attr: RqAttr)
    ensures WqBytes(attr) < 0x1_0000_0000
  {
  }

  /** The same on the request: an entry of at most 32 KiB and a queue below 4 GiB, of any entry
      size and count. */
  lemma RegularFits(attr: RqAttr, e: nat, f: nat, k: nat)
    requires IsLog2(16 * attr.wqeSz, e) && IsLog2(attr.wqeNum, f) && e <= 15 && k <= 63
    requires 0 < 16 * attr.wqeSz * attr.wqeNum < 0x1_0000_0000
    ensures DeviceBytes(e, f) <= Allocated(WqBytes(attr), k) <==>
            e + f <= k || 16 * attr.wqeSz * attr.wqeNum + Pow2(k) > Pow2(e + f)
  {
    hide Pow2; hide AlignUp; hide Allocated; hide WqBytes; hide IsLog2;
    AllocationExact(attr, e, f, k);
    CountIsSmall(16 * attr.wqeSz, attr.wqeNum, f);
    NotCut(attr);
  }

  lemma NotCut(attr: RqAttr)
    requires 16 * attr.wqeSz * attr.wqeNum < 0x1_0000_0000
    ensures WqBytes(attr) == 16 * attr.wqeSz * attr.wqeNum
  {
    ModSmall(16 * attr.wqeSz * attr.wqeNum, 0x1_0000_0000);
  }

  lemma CountIsSmall(s: nat, n: nat, f: nat)
    requires s > 0 && s * n < 0x1_0000_0000 && s % 16 == 0 && IsLog2(n, f)
    ensures f <= 31
  {
    hide Pow2;
    Pow2Values();
    if f > 31 {
      Pow2Monotonic(31, f - 1);
      MulAtLeast(n, 1, s);
    }
  }

  /** For powers of two in range the device never leaves the allocation. */
  lemma AllocationHolds(attr: RqAttr, a: nat, b: nat, k: nat)
    requires attr.wqeSz == Pow2(a) && attr.wqeNum == Pow2(b)
    requires a + 4 <= 15 && a + 4 + b <= 31 && b <= 30 && k <= 63
    ensures WqBytes(attr) < 0x1_0000_0000
    ensures DeviceBytes(a + 4, b) <= Allocated(WqBytes(attr), k)
  {
    hide Pow2; hide AlignUp; hide WqBytes; hide IsLog2; hide Allocated; hide DeviceBytes;
    WqBytesBound(attr);
    RegularExact(attr, a, b);
    AllocationExact(attr, a + 4, b, k);
    Positive(a + 4, b);
    Pow2Monotonic(0, k);
    PowerZero();
  }

  lemma Positive(e: nat, f: nat)
    ensures DeviceBytes(e, f) > 0
  {
    hide Pow2;
    Pow2Monotonic(0, e % 0x10 + f % 0x20);
    PowerZero();
  }

  /** One entry more than a power of two, and the device reaches beyond what was allocated. */
  lemma OddCountOverruns(attr: RqAttr)
    requires attr.wqeSz == 1 && attr.wqeNum == 4097
    ensures WqBytes(attr) == 16 * 4097 && IsLog2(16, 4) && IsLog2(4097, 13)
    ensures DeviceBytes(4, 13) > Allocated(WqBytes(attr), 12)
  {
    hide AlignUp; hide Pow2; hide Allocated;
    Pow2Values();
    PowerStep(4);
    PowerStep(13);
    PowerStep(14);
    PowerStep(17);
    Pow2Sum(13, 4);
    RegularFits(attr, 4, 13, 12);
  }
}
