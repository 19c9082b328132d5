/** Pattern memory keys: a strided region described by a repeat block of building blocks. */
module PatternMkey {
  import opened Bits
  import opened Common
  import opened CommandBuffer
  import Counter = MkeyCounter

  /** What a memory key answers when asked for its id or its address. */
  datatype Answer = Got(value: u64) | Refused(st: Status)

  /** One building block of a stride: its key's answers, the stride inside it and its length. */
  datatype Block = Block(id: Answer, addr: Answer, stride: u64, length: u64)

  /* ---------------------------------------------------------------- create_mkey_in layout */

  const OP_CREATE_MKEY := 0x200
  const OPCODE := Field(0x0, 16)
  const OCTWORDS_ACTUAL := Field(0x300, 32)
  const ACCESS_MODE_4_2 := Field(0x83, 3)
  const LOCAL_WRITE := Field(0x94, 1)
  const LOCAL_READ := Field(0x95, 1)
  const ACCESS_MODE_1_0 := Field(0x96, 2)
  const QPN := Field(0xa0, 24)
  const MKEY_7_0 := Field(0xb8, 8)
  const PD := Field(0xe8, 24)
  const START_ADDR := Field(0x100, 64)
  const LEN := Field(0x140, 64)
  const OCTWORDS := Field(0x220, 32)

  const CREATE_MKEY_BYTES := 272
  const OCTWORD_BYTES := 16

  // The repeat block starts where the fixed part ends.
  const BLOCK := 0x880
  const BYTE_COUNT := Field(0x880, 32)
  const OP := Field(0x8a0, 32)
  const REPEAT_COUNT := Field(0x8c0, 32)
  const NUM_ENT := Field(0x8f0, 16)
  const REPEAT_BLOCK_OP := 0x400

  /** Bit offset of an entry of the repeat block. */
  function EntryBase(i: nat): (b: nat)
    ensures b == 0x900 + 128 * i
  {
    0x900 + 128 * i
  }

  const E_STRIDE := Field(0x0, 16)
  const E_BYTES := Field(0x10, 16)
  const E_KEY := Field(0x20, 32)
  const E_VA := Field(0x40, 64)

  /** align(x, 4) on 32-bit words. */
  function Align4(x: u32): nat {
    And((x + 3) % 0x1_0000_0000, Not(3, 32))
  }

  lemma Align4Value(x: u32)
    ensures Align4(x) == (x + 3) % 0x1_0000_0000 / 4 * 4
  {
    hide And; hide Not; hide Pow2; hide Shl; hide Shr;
    Pow2Values();
    var y := (x + 3) % 0x1_0000_0000;
    ClearLow(y, 2, 32);
    ShrIsDiv(y, 2);
    ShlIsMul(y / 4, 2);
  }

  /** The octwords a stride of `n` blocks is given: its header and entries, aligned to 4. */
  function Octwords(n: u64): nat {
    Align4((n + 1) % 0x1_0000_0000)
  }

  /** Bytes allocated for the command: the fixed part, a header, and that many octwords; the
      size of the repeat block is kept in 32 bits. */
  function AllocBytes(n: u64): nat {
    4 * (CREATE_MKEY_BYTES / 4 + (OCTWORD_BYTES + Octwords(n) * OCTWORD_BYTES) % 0x1_0000_0000 / 4)
  }

  /** More blocks than this and the 32-bit size wraps. */
  const MAX_BLOCKS := 0xFFF_FFFB

  /** The octword count is the least multiple of 4 that holds the header and the entries. */
  lemma OctwordsLeast(n: u64)
    requires n <= MAX_BLOCKS
    ensures n + 1 <= Octwords(n) < n + 5 && Octwords(n) % 4 == 0
    ensures forall m: nat | m % 4 == 0 && n + 1 <= m :: Octwords(n) <= m
    ensures AllocBytes(n) == CREATE_MKEY_BYTES + OCTWORD_BYTES + OCTWORD_BYTES * Octwords(n)
  {
    hide Align4; hide AllocBytes;
    Align4Value(n + 1);
    var q := (n + 4) / 4;
    assert Octwords(n) == q * 4;
    AllocIs(n, q);
  }

  lemma AllocIs(n: u64, q: nat)
    requires Octwords(n) == 4 * q && q <= 0x3FF_FFFF
    ensures AllocBytes(n) == CREATE_MKEY_BYTES + OCTWORD_BYTES + OCTWORD_BYTES * (4 * q)
  {
    hide Octwords;
    ModSmall(16 + 64 * q, 0x1_0000_0000);
    DivModUnique(16 + 64 * q, 4, 4 + 16 * q, 0);
  }

  /** The buffer holds every entry exactly when the block count does not make its size wrap. */
  lemma AllocationExact(n: u64)
    ensures CREATE_MKEY_BYTES + OCTWORD_BYTES * (n + 1) <= AllocBytes(n) <==> n <= MAX_BLOCKS
  {
    hide Align4;
    if n <= MAX_BLOCKS {
      OctwordsLeast(n);
    } else {
      TooManyBlocks(n);
    }
  }

  lemma TooManyBlocks(n: u64)
    requires n > MAX_BLOCKS
    ensures AllocBytes(n) < CREATE_MKEY_BYTES + OCTWORD_BYTES * (n + 1)
  {
    hide Align4;
    var x := (n + 1) % 0x1_0000_0000;
    Align4Value(x);
    var q := (x + 3) % 0x1_0000_0000 / 4;
    var r := (OCTWORD_BYTES + Octwords(n) * OCTWORD_BYTES) % 0x1_0000_0000;
    assert Octwords(n) == 4 * q && q < 0x4000_0000;
    WrappedSize(q);
    if n == MAX_BLOCKS + 1 {
      assert q == 0x400_0000;
    }
  }

  lemma WrappedSize(q: nat)
    requires q < 0x4000_0000
    ensures (OCTWORD_BYTES + 4 * q * OCTWORD_BYTES) % 0x1_0000_0000 <= 0x1_0000_0000 - 48
    ensures q == 0x400_0000 ==> (OCTWORD_BYTES + 4 * q * OCTWORD_BYTES) % 0x1_0000_0000 == 16
  {
    DivModUnique(16 + 64 * q, 0x1_0000_0000, q / 0x400_0000, 16 + 64 * (q % 0x400_0000));
  }

  /* ---------------------------------------------------------------- what create() writes */

  function Sum(bbs: seq<Block>, n: nat): nat
    requires n <= |bbs|
  {
    if n == 0 then 0 else Sum(bbs, n - 1) + bbs[n - 1].length
  }

  /** The key's own parameters: ticket, protection domain, address, and the stride pattern. */
  datatype Params = Params(ticket: nat, pd: u32, startAddr: u64, strideSz: u64, strideNum: u64)

  function AccessWrites(p: Params, n: u64): seq<Write> {
    [Write(OCTWORDS_ACTUAL, Octwords(n)), Write(ACCESS_MODE_4_2, 0), Write(LOCAL_WRITE, 1),
     Write(LOCAL_READ, 1), Write(ACCESS_MODE_1_0, 2), Write(QPN, 0xff_ffff),
     Write(MKEY_7_0, p.ticket % 0xFF)]
  }

  function RegionWrites(p: Params, n: u64): seq<Write> {
    [Write(PD, p.pd), Write(START_ADDR, p.startAddr),
     Write(LEN, p.strideSz * p.strideNum % 0x1_0000_0000_0000_0000), Write(OCTWORDS, Octwords(n))]
  }

  function HeadWrites(p: Params, n: u64): seq<Write> {
    AccessWrites(p, n) + RegionWrites(p, n)
  }

  function BlockWrites(p: Params, n: nat): seq<Write> {
    [Write(BYTE_COUNT, p.strideSz), Write(OP, REPEAT_BLOCK_OP), Write(REPEAT_COUNT, p.strideNum),
     Write(NUM_ENT, n)]
  }

  predicate Answered(b: Block) {
    b.id.Got? && b.addr.Got?
  }

  predicate AllAnswered(bbs: seq<Block>) {
    forall i | 0 <= i < |bbs| :: Answered(bbs[i])
  }

  function EntryWrites(b: Block, base: nat): seq<Write>
    requires Answered(b)
  {
    [Write(E_STRIDE.At(base), b.stride), Write(E_BYTES.At(base), b.length),
     Write(E_KEY.At(base), b.id.value), Write(E_VA.At(base), b.addr.value)]
  }

  function AllEntryWrites(bbs: seq<Block>, n: nat): seq<Write>
    requires n <= |bbs| && AllAnswered(bbs[..n])
  {
    if n == 0 then []
    else
      assert bbs[..n][n - 1] == bbs[n - 1] && bbs[..n][..n - 1] == bbs[..n - 1];
      AllEntryWrites(bbs, n - 1) + EntryWrites(bbs[n - 1], EntryBase(n - 1))
  }

  lemma HeadOk(p: Params, n: u64, len: nat)
    requires CREATE_MKEY_BYTES <= len
    ensures AllFit(HeadWrites(p, n), len) && PairwiseDisjoint(HeadWrites(p, n))
    ensures forall i | 0 <= i < |HeadWrites(p, n)| :: HeadWrites(p, n)[i].f.off + HeadWrites(p, n)[i].f.width <= BLOCK
    ensures Fits(OPCODE, len) && forall i | 0 <= i < |HeadWrites(p, n)| :: Disjoint(HeadWrites(p, n)[i].f, OPCODE)
  {
    hide Octwords; hide Fits; hide Disjoint;
    HeadFieldsFit(len);
    HeadFieldsApart();
    var fs := HEAD_FIELDS;
    assert |HeadWrites(p, n)| == |fs| && forall i | 0 <= i < |fs| :: HeadWrites(p, n)[i].f == fs[i];
  }

  const HEAD_FIELDS := [OCTWORDS_ACTUAL, ACCESS_MODE_4_2, LOCAL_WRITE, LOCAL_READ, ACCESS_MODE_1_0, QPN, MKEY_7_0, PD,
                        START_ADDR, LEN, OCTWORDS]

  lemma HeadFieldsFit(len: nat)
    requires CREATE_MKEY_BYTES <= len
    ensures Fits(OPCODE, len) && forall i | 0 <= i < |HEAD_FIELDS| :: Fits(HEAD_FIELDS[i], len)
  {
  }

  lemma HeadFieldsApart()
    ensures forall i, j | 0 <= i < j < |HEAD_FIELDS| :: Disjoint(HEAD_FIELDS[i], HEAD_FIELDS[j])
    ensures forall i | 0 <= i < |HEAD_FIELDS| :: Disjoint(HEAD_FIELDS[i], OPCODE)
  {
  }

  lemma BlockOk(p: Params, n: nat, len: nat)
    requires CREATE_MKEY_BYTES + OCTWORD_BYTES <= len
    ensures AllFit(BlockWrites(p, n), len) && PairwiseDisjoint(BlockWrites(p, n))
    ensures forall i | 0 <= i < |BlockWrites(p, n)| ::
              var f := BlockWrites(p, n)[i].f; BLOCK <= f.off && f.off + f.width <= EntryBase(0)
  {
  }

  lemma EntryFits(i: nat, len: nat)
    requires CREATE_MKEY_BYTES + OCTWORD_BYTES * (i + 2) <= len
    ensures Fits(E_STRIDE.At(EntryBase(i)), len) && Fits(E_BYTES.At(EntryBase(i)), len)
    ensures Fits(E_KEY.At(EntryBase(i)), len) && Fits(E_VA.At(EntryBase(i)), len)
  {
    DivModUnique(E_STRIDE.At(EntryBase(i)).off, 32, 72 + 4 * i, 0);
    DivModUnique(E_BYTES.At(EntryBase(i)).off, 32, 72 + 4 * i, 16);
    DivModUnique(E_KEY.At(EntryBase(i)).off, 32, 73 + 4 * i, 0);
    DivModUnique(E_VA.At(EntryBase(i)).off, 64, 37 + 2 * i, 0);
  }

  lemma EntryOk(b: Block, i: nat, len: nat)
    requires Answered(b) && CREATE_MKEY_BYTES + OCTWORD_BYTES * (i + 2) <= len
    ensures AllFit(EntryWrites(b, EntryBase(i)), len) && PairwiseDisjoint(EntryWrites(b, EntryBase(i)))
    ensures forall k | 0 <= k < 4 ::
              var f := EntryWrites(b, EntryBase(i))[k].f; EntryBase(i) <= f.off && f.off + f.width <= EntryBase(i + 1)
  {
    hide Fits;
    EntryFits(i, len);
  }

  /** Every entry is written inside the allocated buffer, behind the block header. */
  lemma {:induction false} EntriesOk(bbs: seq<Block>, n: nat, len: nat)
    requires n <= |bbs| && AllAnswered(bbs[..n]) && CREATE_MKEY_BYTES + OCTWORD_BYTES * (n + 1) <= len
    ensures AllFit(AllEntryWrites(bbs, n), len)
    ensures forall k | 0 <= k < |AllEntryWrites(bbs, n)| ::
              var f := AllEntryWrites(bbs, n)[k].f; EntryBase(0) <= f.off && f.off + f.width <= EntryBase(n)
  {
    hide Fits; hide EntryWrites; hide EntryBase;
    if n > 0 {
      assert bbs[..n][n - 1] == bbs[n - 1] && bbs[..n][..n - 1] == bbs[..n - 1];
      EntriesOk(bbs, n - 1, len);
      EntryOk(bbs[n - 1], n - 1, len);
      FourWrites(bbs[n - 1], EntryBase(n - 1));
    }
  }

  lemma FourWrites(b: Block, base: nat)
    requires Answered(b)
    ensures |EntryWrites(b, base)| == 4
  {
  }

  /** The command as sent. */
  function Command(p: Params, bbs: seq<Block>): (s: seq<byte>)
    requires |bbs| <= MAX_BLOCKS && AllAnswered(bbs)
    ensures |s| == AllocBytes(|bbs|)
    ensures |s| >= CREATE_MKEY_BYTES + OCTWORD_BYTES * (|bbs| + 1)
  {
    var n, len := |bbs|, AllocBytes(|bbs|);
    assert bbs[..n] == bbs;
    OctwordsLeast(n);
    HeadOk(p, n, len);
    BlockOk(p, n, len);
    EntriesOk(bbs, n, len);
    Put(PutAll(PutAll(PutAll(Zeros(len), HeadWrites(p, n)), BlockWrites(p, n)), AllEntryWrites(bbs, n)),
        OPCODE, OP_CREATE_MKEY)
  }

  /* ---------------------------------------------------------------- what a device reads back */

  datatype Entry = Entry(stride: nat, bytes: nat, key: nat, va: nat)

  predicate HasEntry(i: nat, len: nat) {
    CREATE_MKEY_BYTES + OCTWORD_BYTES * (i + 2) <= len
  }

  function EntryAt(s: seq<byte>, i: nat): Entry
    requires HasEntry(i, |s|)
  {
    var b := EntryBase(i);
    Entry(Read(s, E_STRIDE.At(b)), Read(s, E_BYTES.At(b)), Read(s, E_KEY.At(b)), Read(s, E_VA.At(b)))
  }

  function Reduced(b: Block): Entry
    requires Answered(b)
  {
    Entry(b.stride % 0x1_0000, b.length % 0x1_0000, b.id.value % 0x1_0000_0000, b.addr.value)
  }

  lemma EntryReads(s: seq<byte>, b: Block, i: nat)
    requires Answered(b) && HasEntry(i, |s|)
    ensures AllFit(EntryWrites(b, EntryBase(i)), |s|)
    ensures EntryAt(PutAll(s, EntryWrites(b, EntryBase(i))), i) == Reduced(b)
  {
    hide PutAll; hide Read; hide Pow2; hide Fits; hide EntryBase;
    EntryOk(b, i, |s|);
    var ws := EntryWrites(b, EntryBase(i));
    Pow2Values();
    PutAllReads(s, ws, 0);
    PutAllReads(s, ws, 1);
    PutAllReads(s, ws, 2);
    PutAllReads(s, ws, 3);
  }

  lemma EntryKept(s: seq<byte>, ws: seq<Write>, i: nat)
    requires HasEntry(i, |s|) && AllFit(ws, |s|)
    requires forall k | 0 <= k < |ws| :: Disjoint(ws[k].f, Field(EntryBase(i), 128))
    ensures EntryAt(PutAll(s, ws), i) == EntryAt(s, i)
  {
    hide PutAll; hide Read; hide Fits; hide EntryBase;
    PutAllKeeps(s, ws, E_STRIDE.At(EntryBase(i)));
    PutAllKeeps(s, ws, E_BYTES.At(EntryBase(i)));
    PutAllKeeps(s, ws, E_KEY.At(EntryBase(i)));
    PutAllKeeps(s, ws, E_VA.At(EntryBase(i)));
  }

  lemma {:induction false} EntriesRead(s: seq<byte>, bbs: seq<Block>, n: nat, i: nat)
    requires i < n <= |bbs| && AllAnswered(bbs[..n]) && CREATE_MKEY_BYTES + OCTWORD_BYTES * (n + 1) <= |s|
    ensures AllFit(AllEntryWrites(bbs, n), |s|) && Answered(bbs[i])
    ensures EntryAt(PutAll(s, AllEntryWrites(bbs, n)), i) == Reduced(bbs[i])
  {
    hide PutAll; hide EntryWrites; hide EntryAt; hide Fits; hide EntryBase; hide Reduced;
    assert bbs[..n][n - 1] == bbs[n - 1] && bbs[..n][..n - 1] == bbs[..n - 1] && bbs[..n][i] == bbs[i];
    EntriesOk(bbs, n, |s|);
    EntriesOk(bbs, n - 1, |s|);
    var ws, us := AllEntryWrites(bbs, n - 1), EntryWrites(bbs[n - 1], EntryBase(n - 1));
    EntryOk(bbs[n - 1], n - 1, |s|);
    FourWrites(bbs[n - 1], EntryBase(n - 1));
    PutAllConcat(s, ws, us);
    if i == n - 1 {
      EntryReads(PutAll(s, ws), bbs[i], i);
    } else {
      EntriesRead(s, bbs, n - 1, i);
      EntryKept(PutAll(s, ws), us, i);
    }
  }

  /** The building blocks read back in order, cut to their field widths. */
  lemma BlocksDecode(p: Params, bbs: seq<Block>, i: nat)
    requires |bbs| <= MAX_BLOCKS && AllAnswered(bbs) && i < |bbs|
    ensures HasEntry(i, |Command(p, bbs)|)
    ensures EntryAt(Command(p, bbs), i) == Reduced(bbs[i])
  {
    hide PutAll; hide Put; hide EntryAt; hide Fits; hide AllEntryWrites; hide HeadWrites; hide BlockWrites;
    hide Reduced;
    var n, len := |bbs|, AllocBytes(|bbs|);
    assert bbs[..n] == bbs;
    OctwordsLeast(n);
    HeadOk(p, n, len);
    BlockOk(p, n, len);
    EntriesOk(bbs, n, len);
    var s := PutAll(PutAll(Zeros(len), HeadWrites(p, n)), BlockWrites(p, n));
    EntriesRead(s, bbs, n, i);
    var t := PutAll(s, AllEntryWrites(bbs, n));
    OpcodeKeepsEntry(t, i);
  }

  /** Whatever lies behind the last entry is sent as zeros. */
  lemma PaddingIsZero(p: Params, bbs: seq<Block>, f: Field)
    requires |bbs| <= MAX_BLOCKS && AllAnswered(bbs)
    requires EntryBase(|bbs|) <= f.off && f.off + f.width <= 8 * |Command(p, bbs)|
    ensures Read(Command(p, bbs), f) == 0
  {
    hide PutAll; hide Put; hide Fits; hide AllEntryWrites; hide HeadWrites; hide BlockWrites; hide Read; hide Zeros;
    hide AllocBytes; hide Octwords;
    var n, len := |bbs|, AllocBytes(|bbs|);
    assert bbs[..n] == bbs;
    OctwordsLeast(n);
    HeadOk(p, n, len);
    BlockOk(p, n, len);
    EntriesOk(bbs, n, len);
    var z := Zeros(len);
    ReadOfZeros(len, f);
    PutAllKeeps(z, HeadWrites(p, n), f);
    var h := PutAll(z, HeadWrites(p, n));
    PutAllKeeps(h, BlockWrites(p, n), f);
    var b := PutAll(h, BlockWrites(p, n));
    PutAllKeeps(b, AllEntryWrites(bbs, n), f);
    ReadOfOtherPut(PutAll(b, AllEntryWrites(bbs, n)), OPCODE, OP_CREATE_MKEY, f);
  }

  lemma OpcodeKeepsEntry(t: seq<byte>, i: nat)
    requires HasEntry(i, |t|) && Fits(OPCODE, |t|)
    ensures EntryAt(Put(t, OPCODE, OP_CREATE_MKEY), i) == EntryAt(t, i)
  {
    hide Put; hide Read; hide Fits; hide EntryBase;
    ReadOfOtherPut(t, OPCODE, OP_CREATE_MKEY, E_STRIDE.At(EntryBase(i)));
    ReadOfOtherPut(t, OPCODE, OP_CREATE_MKEY, E_BYTES.At(EntryBase(i)));
    ReadOfOtherPut(t, OPCODE, OP_CREATE_MKEY, E_KEY.At(EntryBase(i)));
    ReadOfOtherPut(t, OPCODE, OP_CREATE_MKEY, E_VA.At(EntryBase(i)));
  }

  /** A field before the entries, after everything that was written behind it. */
  lemma HeadKept(s: seq<byte>, bbs: seq<Block>, f: Field)
    requires AllAnswered(bbs) && CREATE_MKEY_BYTES + OCTWORD_BYTES * (|bbs| + 1) <= |s|
    requires f.off + f.width <= EntryBase(0) && Disjoint(f, OPCODE) && Fits(OPCODE, |s|)
    ensures bbs[..|bbs|] == bbs && AllFit(AllEntryWrites(bbs, |bbs|), |s|)
    ensures Read(Put(PutAll(s, AllEntryWrites(bbs, |bbs|)), OPCODE, OP_CREATE_MKEY), f) == Read(s, f)
  {
    hide PutAll; hide Put; hide Fits; hide AllEntryWrites; hide Read;
    assert bbs[..|bbs|] == bbs;
    EntriesOk(bbs, |bbs|, |s|);
    var ws := AllEntryWrites(bbs, |bbs|);
    PutAllKeeps(s, ws, f);
    ReadOfOtherPut(PutAll(s, ws), OPCODE, OP_CREATE_MKEY, f);
  }

  datatype Header = Header(byteCount: nat, op: nat, repeatCount: nat, numEnt: nat)

  function HeaderOf(s: seq<byte>): Header
    requires CREATE_MKEY_BYTES + OCTWORD_BYTES <= |s|
  {
    Header(Read(s, BYTE_COUNT), Read(s, OP), Read(s, REPEAT_COUNT), Read(s, NUM_ENT))
  }

  /** The repeat block's header reads back, cut to its field widths. */
  lemma HeaderDecodes(p: Params, bbs: seq<Block>)
    requires |bbs| <= MAX_BLOCKS && AllAnswered(bbs)
    ensures HeaderOf(Command(p, bbs)) == Header(p.strideSz % 0x1_0000_0000, 0x400,
                                                p.strideNum % 0x1_0000_0000, |bbs| % 0x1_0000)
  {
    hide PutAll; hide Put; hide Fits; hide AllEntryWrites; hide HeadWrites; hide Read; hide Pow2; hide AllocBytes;
    hide Octwords; hide Zeros;
    var n, len := |bbs|, AllocBytes(|bbs|);
    assert bbs[..n] == bbs;
    OctwordsLeast(n);
    HeadOk(p, n, len);
    BlockOk(p, n, len);
    var h := PutAll(Zeros(len), HeadWrites(p, n));
    HeaderReads(h, p, n);
    var s := PutAll(h, BlockWrites(p, n));
    HeadKept(s, bbs, BYTE_COUNT);
    HeadKept(s, bbs, OP);
    HeadKept(s, bbs, REPEAT_COUNT);
    HeadKept(s, bbs, NUM_ENT);
  }

  /** The command creates a key. */
  lemma OpcodeDecodes(p: Params, bbs: seq<Block>)
    requires |bbs| <= MAX_BLOCKS && AllAnswered(bbs)
    ensures Read(Command(p, bbs), OPCODE) == 0x200
  {
    hide PutAll; hide Put; hide Fits; hide AllEntryWrites; hide HeadWrites; hide BlockWrites; hide Read; hide Pow2;
    hide AllocBytes; hide Octwords; hide Zeros;
    var n, len := |bbs|, AllocBytes(|bbs|);
    assert bbs[..n] == bbs;
    OctwordsLeast(n);
    HeadOk(p, n, len);
    BlockOk(p, n, len);
    EntriesOk(bbs, n, len);
    Pow2Values();
    ReadOfPut(PutAll(PutAll(PutAll(Zeros(len), HeadWrites(p, n)), BlockWrites(p, n)), AllEntryWrites(bbs, n)), OPCODE,
              OP_CREATE_MKEY);
  }

  lemma HeaderReads(h: seq<byte>, p: Params, n: nat)
    requires CREATE_MKEY_BYTES + OCTWORD_BYTES <= |h|
    ensures AllFit(BlockWrites(p, n), |h|)
    ensures HeaderOf(PutAll(h, BlockWrites(p, n))) ==
            Header(p.strideSz % 0x1_0000_0000, REPEAT_BLOCK_OP, p.strideNum % 0x1_0000_0000, n % 0x1_0000)
  {
    hide PutAll; hide Fits; hide Read; hide Pow2;
    BlockOk(p, n, |h|);
    var ws := BlockWrites(p, n);
    Pow2Values();
    PutAllReads(h, ws, 0);
    PutAllReads(h, ws, 1);
    PutAllReads(h, ws, 2);
    PutAllReads(h, ws, 3);
  }

  datatype Context = Context(octwordsActual: nat, access: nat, localWrite: nat, localRead: nat, mode: nat, qpn: nat,
                             variant: nat, pd: nat, startAddr: nat, len: nat, octwords: nat)

  function ContextOf(s: seq<byte>): Context
    requires CREATE_MKEY_BYTES <= |s|
  {
    Context(Read(s, OCTWORDS_ACTUAL), Read(s, ACCESS_MODE_4_2), Read(s, LOCAL_WRITE), Read(s, LOCAL_READ),
            Read(s, ACCESS_MODE_1_0), Read(s, QPN), Read(s, MKEY_7_0), Read(s, PD), Read(s, START_ADDR),
            Read(s, LEN), Read(s, OCTWORDS))
  }

  /** The key context reads back: a locally writable and readable indirect key over the region. */
  lemma ContextDecodes(p: Params, bbs: seq<Block>)
    requires |bbs| <= MAX_BLOCKS && AllAnswered(bbs)
    ensures ContextOf(Command(p, bbs)) ==
            Context(Octwords(|bbs|), 0, 1, 1, 2, 0xff_ffff, p.ticket % 0xFF, p.pd % 0x100_0000, p.startAddr,
                    p.strideSz * p.strideNum % 0x1_0000_0000_0000_0000, Octwords(|bbs|))
  {
    hide PutAll; hide Put; hide Fits; hide AllEntryWrites; hide BlockWrites; hide Read; hide Pow2; hide AllocBytes;
    hide Octwords; hide HeadWrites; hide Zeros;
    var n, len := |bbs|, AllocBytes(|bbs|);
    assert bbs[..n] == bbs;
    OctwordsLeast(n);
    HeadOk(p, n, len);
    BlockOk(p, n, len);
    var z := Zeros(len);
    ContextReads(z, p, n);
    var h := PutAll(z, HeadWrites(p, n));
    BehindContext(h, p, bbs, OCTWORDS_ACTUAL);
    BehindContext(h, p, bbs, ACCESS_MODE_4_2);
    BehindContext(h, p, bbs, LOCAL_WRITE);
    BehindContext(h, p, bbs, LOCAL_READ);
    BehindContext(h, p, bbs, ACCESS_MODE_1_0);
    BehindContext(h, p, bbs, QPN);
    BehindContext(h, p, bbs, MKEY_7_0);
    BehindContext(h, p, bbs, PD);
    BehindContext(h, p, bbs, START_ADDR);
    BehindContext(h, p, bbs, LEN);
    BehindContext(h, p, bbs, OCTWORDS);
  }

  lemma ContextReads(z: seq<byte>, p: Params, n: nat)
    requires CREATE_MKEY_BYTES <= |z| && n <= MAX_BLOCKS
    ensures AllFit(HeadWrites(p, n), |z|)
    ensures ContextOf(PutAll(z, HeadWrites(p, n))) ==
            Context(Octwords(n), 0, 1, 1, 2, 0xff_ffff, p.ticket % 0xFF, p.pd % 0x100_0000, p.startAddr,
                    p.strideSz * p.strideNum % 0x1_0000_0000_0000_0000, Octwords(n))
  {
    hide PutAll; hide Fits; hide Read; hide Pow2; hide Octwords; hide AllocBytes;
    HeadOk(p, n, |z|);
    OctwordsLeast(n);
    var ws := HeadWrites(p, n);
    Pow2Values();
    PutAllReads(z, ws, 0);
    PutAllReads(z, ws, 1);
    PutAllReads(z, ws, 2);
    PutAllReads(z, ws, 3);
    PutAllReads(z, ws, 4);
    PutAllReads(z, ws, 5);
    PutAllReads(z, ws, 6);
    PutAllReads(z, ws, 7);
    PutAllReads(z, ws, 8);
    PutAllReads(z, ws, 9);
    PutAllReads(z, ws, 10);
  }

  lemma BehindContext(h: seq<byte>, p: Params, bbs: seq<Block>, f: Field)
    requires AllAnswered(bbs) && CREATE_MKEY_BYTES + OCTWORD_BYTES * (|bbs| + 1) <= |h|
    requires f.off + f.width <= BLOCK && Disjoint(f, OPCODE)
    ensures AllFit(BlockWrites(p, |bbs|), |h|) && Fits(OPCODE, |h|) && bbs[..|bbs|] == bbs
    ensures AllFit(AllEntryWrites(bbs, |bbs|), |h|)
    ensures Read(Put(PutAll(PutAll(h, BlockWrites(p, |bbs|)), AllEntryWrites(bbs, |bbs|)), OPCODE, OP_CREATE_MKEY), f)
            == Read(h, f)
  {
    hide PutAll; hide Put; hide AllEntryWrites; hide BlockWrites; hide Read;
    BlockOk(p, |bbs|, |h|);
    PutAllKeeps(h, BlockWrites(p, |bbs|), f);
    HeadKept(PutAll(h, BlockWrites(p, |bbs|)), bbs, f);
  }

  lemma CommandReads(p: Params, bbs: seq<Block>)
    requires |bbs| <= MAX_BLOCKS && AllAnswered(bbs)
    ensures var s := Command(p, bbs);
            && Read(s, OPCODE) == 0x200
            && HeaderOf(s) == Header(p.strideSz % 0x1_0000_0000, 0x400, p.strideNum % 0x1_0000_0000, |bbs| % 0x1_0000)
            && ContextOf(s).startAddr == p.startAddr && ContextOf(s).pd == p.pd % 0x100_0000
            && ContextOf(s).len == p.strideSz * p.strideNum % 0x1_0000_0000_0000_0000
            && ContextOf(s).variant == p.ticket % 0xFF
  {
    hide Command; hide HeaderOf; hide ContextOf; hide Read; hide Octwords;
    OpcodeDecodes(p, bbs);
    HeaderDecodes(p, bbs);
    ContextDecodes(p, bbs);
  }

  /* ---------------------------------------------------------------- byte counts */

  /** Sizes within their fields: block lengths of 16 bits, a stride count of 32. */
  predicate InRange(p: Params, bbs: seq<Block>) {
    && |bbs| < 0x1_0000 && AllAnswered(bbs) && p.strideNum < 0x1_0000_0000
    && (forall i | 0 <= i < |bbs| :: bbs[i].length < 0x1_0000)
    && p.strideSz == Sum(bbs, |bbs|)
  }

  function EntryByteSum(s: seq<byte>, n: nat): nat
    requires n == 0 || HasEntry(n - 1, |s|)
  {
    if n == 0 then 0 else EntryByteSum(s, n - 1) + EntryAt(s, n - 1).bytes
  }

  lemma {:induction false} SumBound(bbs: seq<Block>, n: nat)
    requires n <= |bbs| && forall i | 0 <= i < n :: bbs[i].length < 0x1_0000
    ensures Sum(bbs, n) <= n * 0xFFFF
  {
    if n > 0 { SumBound(bbs, n - 1); }
  }

  lemma {:induction false} EntrySumIs(p: Params, bbs: seq<Block>, n: nat)
    requires InRange(p, bbs) && n <= |bbs|
    ensures n == 0 || HasEntry(n - 1, |Command(p, bbs)|)
    ensures EntryByteSum(Command(p, bbs), n) == Sum(bbs, n)
  {
    hide Command; hide EntryAt; hide AllocBytes;
    if n > 0 {
      EntrySumIs(p, bbs, n - 1);
      BlocksDecode(p, bbs, n - 1);
      ModSmall(bbs[n - 1].length, 0x1_0000);
    }
  }

  /** The entries' byte counts add up to the header's, and the region is that many times the
      stride count. */
  lemma BytesAddUp(p: Params, bbs: seq<Block>)
    requires InRange(p, bbs)
    ensures HeaderOf(Command(p, bbs)).numEnt == |bbs|
    ensures |bbs| == 0 || HasEntry(|bbs| - 1, |Command(p, bbs)|)
    ensures EntryByteSum(Command(p, bbs), |bbs|) == HeaderOf(Command(p, bbs)).byteCount == p.strideSz
    ensures ContextOf(Command(p, bbs)).len ==
            HeaderOf(Command(p, bbs)).byteCount * HeaderOf(Command(p, bbs)).repeatCount
  {
    hide Command; hide EntryAt; hide EntryByteSum; hide HeaderOf; hide ContextOf; hide Octwords; hide AllocBytes;
    hide Sum;
    EntrySumIs(p, bbs, |bbs|);
    HeaderDecodes(p, bbs);
    ContextDecodes(p, bbs);
    SumBound(bbs, |bbs|);
    NoWrap(p.strideSz, p.strideNum, 0x1_0000_0000);
  }

  lemma NoWrap(a: nat, b: nat, m: nat)
    requires a < m && b < m
    ensures a % m == a && b % m == b && m * m > 0 && a * b % (m * m) == a * b
  {
    ProductBound(a, b, m);
    ModSmall(a, m);
    ModSmall(b, m);
    ModSmall(a * b, m * m);
  }

  lemma ProductBound(a: nat, b: nat, m: nat)
    requires a < m && b < m
    ensures a * b < m * m
  {
    if a > 0 {
      MulAtLeast(a, b, m);
    }
    MulAtLeast(m, a, m);
  }

  /* ---------------------------------------------------------------- the key object */

  /** A key refuses its id or its address at the first block that does. */
  function Refusal(bbs: seq<Block>, n: nat): Option<Status>
    requires n <= |bbs|
  {
    if n == 0 then None
    else if Refusal(bbs, n - 1).Some? then Refusal(bbs, n - 1)
    else if bbs[n - 1].id.Refused? then Some(bbs[n - 1].id.st)
    else if bbs[n - 1].addr.Refused? then Some(bbs[n - 1].addr.st)
    else None
  }

  /** Block `i` is the first that refuses, its id before its address. */
  predicate RefusesFirst(bbs: seq<Block>, i: nat, st: Status)
    requires i < |bbs|
  {
    && AllAnswered(bbs[..i])
    && if bbs[i].id.Refused? then bbs[i].id.st == st else bbs[i].addr.Refused? && bbs[i].addr.st == st
  }

  /** There is a refusal exactly when some block refuses, and it is the first one's. */
  lemma {:induction false} RefusalExactly(bbs: seq<Block>, n: nat, st: Status)
    requires n <= |bbs|
    ensures Refusal(bbs, n) == Some(st) <==> exists i: nat | i < n :: RefusesFirst(bbs, i, st)
    ensures Refusal(bbs, n) == None <==> AllAnswered(bbs[..n])
  {
    if n > 0 {
      RefusalExactly(bbs, n - 1, st);
      assert bbs[..n - 1] == bbs[..n][..n - 1];
      assert AllAnswered(bbs[..n]) <==> AllAnswered(bbs[..n - 1]) && Answered(bbs[n - 1]) by {
        assert forall i | 0 <= i < n - 1 :: bbs[..n][i] == bbs[..n - 1][i];
        assert bbs[..n][n - 1] == bbs[n - 1];
      }
      if AllAnswered(bbs[..n - 1]) {
        forall i: nat | i < n - 1 ensures !RefusesFirst(bbs, i, st) {
          assert bbs[..n - 1][i] == bbs[i];
        }
        assert Refusal(bbs, n) == Some(st) <==> RefusesFirst(bbs, n - 1, st);
      } else {
        assert !RefusesFirst(bbs, n - 1, st);
      }
    }
  }

  lemma {:induction false} RefusalStays(bbs: seq<Block>, n: nat, m: nat)
    requires n <= m <= |bbs| && Refusal(bbs, n).Some?
    ensures Refusal(bbs, m) == Refusal(bbs, n)
  {
    if n < m { RefusalStays(bbs, n, m - 1); }
  }

  /** What the device answers to the command. */
  datatype Reply = Rejected(st: Status) | Created(index: u24)

  /** Adding into a 64-bit size one block at a time reduces the sum once. */
  lemma AddWraps(a: nat, b: nat, m: nat)
    requires m > 0
    ensures (a % m + b) % m == (a + b) % m
  {
    var q, r := (a % m + b) / m, (a % m + b) % m;
    assert a + b == m * (a / m) + (a % m + b) == m * (a / m) + m * q + r;
    assert m * (a / m) + m * q == m * (a / m + q);
    DivModUnique(a + b, m, a / m + q, r);
  }

  class Key {
    const address: u64
    const zeroBased: bool
    const strideNum: u64
    const bbs: seq<Block>
    var strideSz: u64
    var idx: u32

    constructor (address: u64, zeroBased: bool, strideNum: u64, bbs: seq<Block>)
      ensures this.address == address && this.zeroBased == zeroBased
      ensures this.strideNum == strideNum && this.bbs == bbs && idx == 0
      ensures strideSz == Sum(bbs, |bbs|) % 0x1_0000_0000_0000_0000
    {
      this.address, this.zeroBased, this.strideNum, this.bbs := address, zeroBased, strideNum, bbs;
      idx, strideSz := 0, 0;
      new;
      for i := 0 to |bbs|
        invariant idx == 0 && strideSz == Sum(bbs, i) % 0x1_0000_0000_0000_0000
      {
        AddWraps(Sum(bbs, i), bbs[i].length, 0x1_0000_0000_0000_0000);
        strideSz := (strideSz + bbs[i].length) % 0x1_0000_0000_0000_0000;
      }
    }

    /** Where the region starts for the device: an offset into its page for a zero-based key. */
    function StartAddr(pageSize: u64): u64
      requires pageSize > 0
    {
      if zeroBased then address % pageSize else address
    }

    function ParamsOf(ticket: nat, pd: u32, pageSize: u64): Params
      requires pageSize > 0
      reads this
    {
      Params(ticket, pd, StartAddr(pageSize), strideSz, strideNum)
    }

    /** The first part of the key context, up to the ticket. */
    static method FillAccess(buf: array<byte>, p: Params, n: u64)
      requires CREATE_MKEY_BYTES <= buf.Length
      modifies buf
      ensures AllFit(AccessWrites(p, n), buf.Length) && buf[..] == PutAll(old(buf[..]), AccessWrites(p, n))
    {
      hide PutAll; hide Fits; hide Octwords;
      ghost var s, ws := buf[..], AccessWrites(p, n);
      AccessOk(p, n, buf.Length);
      PutNothing(s);
      assert Fits(ws[0].f, buf.Length) && Fits(ws[1].f, buf.Length) && Fits(ws[2].f, buf.Length);
      assert Fits(ws[3].f, buf.Length) && Fits(ws[4].f, buf.Length) && Fits(ws[5].f, buf.Length);
      assert Fits(ws[6].f, buf.Length);
      SetNext(buf, OCTWORDS_ACTUAL, Octwords(n), s, []);
      SetNext(buf, ACCESS_MODE_4_2, 0, s, [] + [ws[0]]);
      SetNext(buf, LOCAL_WRITE, 1, s, [] + [ws[0]] + [ws[1]]);
      SetNext(buf, LOCAL_READ, 1, s, [] + [ws[0]] + [ws[1]] + [ws[2]]);
      SetNext(buf, ACCESS_MODE_1_0, 2, s, [] + [ws[0]] + [ws[1]] + [ws[2]] + [ws[3]]);
      SetNext(buf, QPN, 0xff_ffff, s, [] + [ws[0]] + [ws[1]] + [ws[2]] + [ws[3]] + [ws[4]]);
      SetNext(buf, MKEY_7_0, p.ticket % 0xFF, s, [] + [ws[0]] + [ws[1]] + [ws[2]] + [ws[3]] + [ws[4]] + [ws[5]]);
      assert [] + [ws[0]] + [ws[1]] + [ws[2]] + [ws[3]] + [ws[4]] + [ws[5]] + [ws[6]] == ws;
    }

    /** The protection domain, the region, and the size of its translation. */
    static method FillRegion(buf: array<byte>, p: Params, n: u64)
      requires CREATE_MKEY_BYTES <= buf.Length
      modifies buf
      ensures AllFit(RegionWrites(p, n), buf.Length) && buf[..] == PutAll(old(buf[..]), RegionWrites(p, n))
    {
      hide PutAll; hide Fits; hide Octwords; hide AccessWrites;
      ghost var s, ws := buf[..], RegionWrites(p, n);
      RegionOk(p, n, buf.Length);
      PutNothing(s);
      assert Fits(ws[0].f, buf.Length) && Fits(ws[1].f, buf.Length);
      assert Fits(ws[2].f, buf.Length) && Fits(ws[3].f, buf.Length);
      SetNext(buf, PD, p.pd, s, []);
      SetNext(buf, START_ADDR, p.startAddr, s, [] + [ws[0]]);
      SetNext(buf, LEN, p.strideSz * p.strideNum % 0x1_0000_0000_0000_0000, s, [] + [ws[0]] + [ws[1]]);
      SetNext(buf, OCTWORDS, Octwords(n), s, [] + [ws[0]] + [ws[1]] + [ws[2]]);
      assert [] + [ws[0]] + [ws[1]] + [ws[2]] + [ws[3]] == ws;
    }

    /** The repeat block's header. */
    static method FillHeader(buf: array<byte>, p: Params, n: u64)
      requires CREATE_MKEY_BYTES + OCTWORD_BYTES <= buf.Length
      modifies buf
      ensures AllFit(BlockWrites(p, n), buf.Length) && buf[..] == PutAll(old(buf[..]), BlockWrites(p, n))
    {
      hide PutAll; hide Fits;
      ghost var s, ws := buf[..], BlockWrites(p, n);
      BlockOk(p, n, buf.Length);
      PutNothing(s);
      assert Fits(ws[0].f, buf.Length) && Fits(ws[1].f, buf.Length);
      assert Fits(ws[2].f, buf.Length) && Fits(ws[3].f, buf.Length);
      SetNext(buf, BYTE_COUNT, p.strideSz, s, []);
      SetNext(buf, OP, REPEAT_BLOCK_OP, s, [] + [ws[0]]);
      SetNext(buf, REPEAT_COUNT, p.strideNum, s, [] + [ws[0]] + [ws[1]]);
      SetNext(buf, NUM_ENT, n, s, [] + [ws[0]] + [ws[1]] + [ws[2]]);
      assert [] + [ws[0]] + [ws[1]] + [ws[2]] + [ws[3]] == ws;
    }

    /** One entry; a key that refuses its id or its address ends the whole creation. */
    static method FillEntry(buf: array<byte>, b: Block, i: nat) returns (st: Status)
      requires HasEntry(i, buf.Length)
      requires b.id.Refused? ==> b.id.st != Ok
      requires b.addr.Refused? ==> b.addr.st != Ok
      modifies buf
      ensures st == if b.id.Refused? then b.id.st else if b.addr.Refused? then b.addr.st else Ok
      ensures Answered(b) ==> AllFit(EntryWrites(b, EntryBase(i)), buf.Length)
      ensures Answered(b) ==> buf[..] == PutAll(old(buf[..]), EntryWrites(b, EntryBase(i)))
    {
      hide PutAll; hide Fits; hide EntryBase;
      ghost var s := buf[..];
      var base := EntryBase(i);
      EntryFits(i, buf.Length);
      PutNothing(s);
      ghost var w0, w1 := Write(E_STRIDE.At(base), b.stride), Write(E_BYTES.At(base), b.length);
      SetNext(buf, E_STRIDE.At(base), b.stride, s, []);
      SetNext(buf, E_BYTES.At(base), b.length, s, [] + [w0]);
      if b.id.Refused? {
        return b.id.st;
      }
      ghost var w2 := Write(E_KEY.At(base), b.id.value);
      SetNext(buf, E_KEY.At(base), b.id.value, s, [] + [w0] + [w1]);
      if b.addr.Refused? {
        return b.addr.st;
      }
      ghost var w3 := Write(E_VA.At(base), b.addr.value);
      SetNext(buf, E_VA.At(base), b.addr.value, s, [] + [w0] + [w1] + [w2]);
      assert [] + [w0] + [w1] + [w2] + [w3] == EntryWrites(b, base);
      return Ok;
    }

    /** create(): build the command and send it; the key id is the device's index and the ticket. */
    method Create(memory: bool, ticket: nat, pd: u32, pageSize: u64, reply: Reply)
        returns (st: Status, sent: Option<seq<byte>>)
      requires |bbs| <= MAX_BLOCKS && pageSize > 0
      requires forall b | b in bbs :: (b.id.Refused? ==> b.id.st != Ok) && (b.addr.Refused? ==> b.addr.st != Ok)
      requires reply.Rejected? ==> reply.st != Ok
      modifies this`idx
      ensures st == if !memory then ErrNoMemory
                    else if pd == 0 then ErrCreate
                    else if Refusal(bbs, |bbs|).Some? then Refusal(bbs, |bbs|).value
                    else if reply.Rejected? then reply.st
                    else Ok
      ensures sent.Some? <==> memory && pd != 0 && Refusal(bbs, |bbs|).None?
      ensures sent.Some? ==> AllAnswered(bbs) && sent.value == Command(ParamsOf(ticket, pd, pageSize), bbs)
      ensures sent.Some? ==>
                && Read(sent.value, OPCODE) == 0x200
                && HeaderOf(sent.value) == Header(strideSz % 0x1_0000_0000, 0x400, strideNum % 0x1_0000_0000,
                                                  |bbs| % 0x1_0000)
                && var c := ContextOf(sent.value);
                   && c.startAddr == (if zeroBased then address % pageSize else address)
                   && c.len == strideSz * strideNum % 0x1_0000_0000_0000_0000
                   && c.pd == pd % 0x100_0000 && c.variant == ticket % 0xFF
      ensures st == Ok ==> reply.Created? && idx == 0x100 * reply.index + ticket % 0xFF
      ensures st != Ok ==> idx == old(idx)
    {
      hide PutAll; hide Put; hide Fits; hide Octwords; hide AllocBytes; hide EntryWrites; hide HeadWrites;
      hide BlockWrites; hide Counter.KeyId; hide HeaderOf; hide ContextOf; hide Read;
      if !memory {
        return ErrNoMemory, None;
      }
      var n, len := |bbs|, AllocBytes(|bbs|);
      OctwordsLeast(n);
      var buf := new byte[len](_ => 0);
      assert buf[..] == Zeros(len);
      var p := ParamsOf(ticket, pd, pageSize);
      HeadOk(p, n, len);
      FillAccess(buf, p, n);
      if pd == 0 {
        return ErrCreate, None;
      }
      FillRegion(buf, p, n);
      HeadIsBoth(Zeros(len), p, n);
      FillHeader(buf, p, n);
      ghost var s := buf[..];
      PutNothing(s);
      for i := 0 to n
        invariant Refusal(bbs, i).None? && AllAnswered(bbs[..i]) && AllFit(AllEntryWrites(bbs, i), len)
        invariant buf[..] == PutAll(s, AllEntryWrites(bbs, i))
        invariant idx == old(idx)
      {
        st := FillEntry(buf, bbs[i], i);
        if st != Ok {
          RefusalStays(bbs, i + 1, n);
          return st, None;
        }
        OneMore(s, bbs, i);
      }
      assert bbs[..n] == bbs;
      Set(buf, OPCODE, OP_CREATE_MKEY);
      sent := Some(buf[..]);
      CommandReads(p, bbs);
      match reply {
        case Rejected(e) =>
          st := e;
        case Created(index) =>
          Counter.KeyIdValue(index, ticket);
          idx := Counter.KeyId(index, ticket);
          st := Ok;
      }
    }
  }

  lemma AccessOk(p: Params, n: u64, len: nat)
    requires CREATE_MKEY_BYTES <= len
    ensures AllFit(AccessWrites(p, n), len)
  {
    hide Octwords;
  }

  lemma RegionOk(p: Params, n: u64, len: nat)
    requires CREATE_MKEY_BYTES <= len
    ensures AllFit(RegionWrites(p, n), len)
  {
    hide Octwords;
  }

  lemma HeadIsBoth(z: seq<byte>, p: Params, n: u64)
    requires CREATE_MKEY_BYTES <= |z|
    ensures AllFit(AccessWrites(p, n), |z|) && AllFit(RegionWrites(p, n), |z|) && AllFit(HeadWrites(p, n), |z|)
    ensures PutAll(z, HeadWrites(p, n)) == PutAll(PutAll(z, AccessWrites(p, n)), RegionWrites(p, n))
  {
    hide PutAll; hide Fits; hide Octwords;
    AccessOk(p, n, |z|);
    RegionOk(p, n, |z|);
    PutAllConcat(z, AccessWrites(p, n), RegionWrites(p, n));
  }

  lemma OneMore(s: seq<byte>, bbs: seq<Block>, i: nat)
    requires i < |bbs| && AllAnswered(bbs[..i]) && Answered(bbs[i])
    requires AllFit(AllEntryWrites(bbs, i), |s|) && AllFit(EntryWrites(bbs[i], EntryBase(i)), |s|)
    ensures AllAnswered(bbs[..i + 1]) && AllFit(AllEntryWrites(bbs, i + 1), |s|)
    ensures PutAll(s, AllEntryWrites(bbs, i + 1)) ==
            PutAll(PutAll(s, AllEntryWrites(bbs, i)), EntryWrites(bbs[i], EntryBase(i)))
  {
    hide PutAll; hide Fits; hide EntryWrites; hide EntryBase;
    assert forall k | 0 <= k <= i :: bbs[..i + 1][k] == if k < i then bbs[..i][k] else bbs[i];
    PutAllConcat(s, AllEntryWrites(bbs, i), EntryWrites(bbs[i], EntryBase(i)));
  }
}
