/** Reference memory keys: sub-regions of other keys, nested to any depth. */
module RefMkey {
  import opened Common

  const WORD := 0x1_0000_0000_0000_0000

  datatype Range = Range(addr: u64, len: u64)

  /** One past the end, as pointer arithmetic computes it. */
  function End(r: Range): u64 {
    (r.addr + r.len) % WORD
  }

  predicate Wraps(r: Range) {
    r.addr + r.len >= WORD
  }

  predicate Inside(r: Range, outer: Range) {
    outer.addr <= r.addr && r.addr + r.len <= outer.addr + outer.len
  }

  /** The bounds check of create(). */
  predicate Accepts(parent: Range, r: Range) {
    parent.addr <= r.addr && End(r) <= End(parent)
  }

  /** Under a parent that does not wrap, the check admits a sub-region, and of what else it admits
      it is exactly the wrapping ranges that are none. */
  lemma CheckExact(parent: Range, r: Range)
    requires !Wraps(parent)
    ensures Inside(r, parent) ==> Accepts(parent, r)
    ensures Accepts(parent, r) ==> (Inside(r, parent) <==> !Wraps(r))
  {
  }

  /** A range that wraps past the end of memory and passes the check. */
  lemma WrappingRangePasses()
    ensures var parent, r := Range(0x1000, 0x1000), Range(0xFFFF_FFFF_FFFF_F000, 0x1800);
            !Wraps(parent) && Accepts(parent, r) && !Inside(r, parent)
  {
  }

  /* ---------------------------------------------------------------- keys */

  type Ref = nat

  /** A key of another kind answers for itself; a reference key copies from its parent. */
  datatype Key =
    | Root(range: Range, id: u32, flags: nat)
    | Child(parent: Ref, range: Range, id: u32, flags: nat)

  /** What a key answers when asked for its id, address, length and flags. */
  function AskId(k: Key): (Status, u32) {
    if k.Child? && k.id == 0 then (ErrCreate, 0) else (Ok, k.id)
  }

  function AskAddress(k: Key): (Status, u64) {
    if k.Child? then (if k.id == 0 then (ErrCreate, 0) else (Ok, k.range.addr))
    else if k.range.addr == 0 then (ErrNoMemory, 0) else (Ok, k.range.addr)
  }

  function AskLength(k: Key): (Status, u64) {
    if k.Child? && k.id == 0 then (ErrCreate, 0)
    else if k.range.len == 0 then (ErrOutOfRange, 0) else (Ok, k.range.len)
  }

  function AskFlags(k: Key): (Status, nat) {
    if k.Child? && k.id == 0 then (ErrCreate, 0) else (Ok, k.flags)
  }

  /** Can this key be a parent at all? */
  predicate Answers(k: Key) {
    AskId(k).0 == Ok && AskAddress(k).0 == Ok && AskLength(k).0 == Ok && AskFlags(k).0 == Ok
  }

  /** A key can be a parent exactly when it has an address and a length and, being a reference, an id;
      and it answers with what it has. */
  lemma AnswersExactly(k: Key)
    ensures Answers(k) <==> k.range.len != 0 && if k.Root? then k.range.addr != 0 else k.id != 0
    ensures Answers(k) ==>
              AskId(k).1 == k.id && AskAddress(k).1 == k.range.addr && AskLength(k).1 == k.range.len
              && AskFlags(k).1 == k.flags
    ensures k.Child? && k.id == 0 ==> AskId(k).0 == ErrCreate
    ensures k.Root? ==> AskId(k).0 == Ok && AskFlags(k).0 == Ok
    ensures k.Root? ==> (k.range.addr == 0 <==> AskAddress(k).0 == ErrNoMemory)
    ensures !(k.Child? && k.id == 0) ==> (k.range.len == 0 <==> AskLength(k).0 == ErrOutOfRange)
  {
  }

  /** The keys made so far; a reference is a position. */
  type Keys = seq<Key>

  datatype Op =
    | NewRoot(range: Range, id: u32, flags: nat)
    | NewRef(parent: Option<Ref>, range: Range, memory: bool)

  /** A parent handed in is a key that was made, or a null pointer. */
  predicate Callable(ks: Keys, op: Op) {
    op.NewRef? && op.parent.Some? ==> op.parent.value < |ks|
  }

  /** adapter::create_ref_mkey keeps the key only when create() accepts it. */
  predicate Creates(ks: Keys, p: Option<Ref>, r: Range)
    requires p.Some? ==> p.value < |ks|
  {
    && p.Some? && r.addr != 0 && r.len != 0
    && Answers(ks[p.value]) && Accepts(ks[p.value].range, r)
  }

  function Next(ks: Keys, op: Op): (Keys, Status)
    requires Callable(ks, op)
  {
    match op
    case NewRoot(range, id, flags) => (ks + [Root(range, id, flags)], Ok)
    case NewRef(p, r, memory) =>
      if !memory then (ks, ErrNoMemory)
      else if Creates(ks, p, r) then (ks + [Child(p.value, r, ks[p.value].id, ks[p.value].flags)], Ok)
      else (ks, ErrCreate)
  }

  /** A reference is made exactly for memory, a parent that can be one, and a range that is not empty,
      starts in the parent's and ends, counted modulo 2^64, no later; it has that range, and the id and
      flags of its parent. Nothing that was made before changes. */
  lemma NewRefExactly(ks: Keys, p: Option<Ref>, r: Range, memory: bool)
    requires Callable(ks, NewRef(p, r, memory))
    ensures var (ks', st) := Next(ks, NewRef(p, r, memory));
            && (st == Ok <==>
                  && memory && p.Some? && r.addr != 0 && r.len != 0 && Answers(ks[p.value])
                  && ks[p.value].range.addr <= r.addr
                  && (r.addr + r.len) % 0x1_0000_0000_0000_0000 <=
                     (ks[p.value].range.addr + ks[p.value].range.len) % 0x1_0000_0000_0000_0000)
            && (!memory <==> st == ErrNoMemory) && (memory && st != Ok ==> st == ErrCreate)
            && (st != Ok ==> ks' == ks)
            && (st == Ok ==>
                  && |ks'| == |ks| + 1 && ks'[..|ks|] == ks && ks'[|ks|].Child? && ks'[|ks|].parent == p.value
                  && ks'[|ks|].range == r && ks'[|ks|].id == ks[p.value].id && ks'[|ks|].flags == ks[p.value].flags)
  {
  }

  /* ---------------------------------------------------------------- nesting */

  predicate KeyOk(ks: Keys, k: Ref)
    requires k < |ks|
  {
    ks[k].Child? ==>
      && ks[k].parent < k && Accepts(ks[ks[k].parent].range, ks[k].range)
      && ks[k].id == ks[ks[k].parent].id && ks[k].flags == ks[ks[k].parent].flags
  }

  predicate Inv(ks: Keys) {
    forall k: Ref | k < |ks| :: KeyOk(ks, k)
  }

  lemma NextKeeps(ks: Keys, op: Op)
    requires Inv(ks) && Callable(ks, op)
    ensures Inv(Next(ks, op).0)
  {
    var ks' := Next(ks, op).0;
    forall k: Ref | k < |ks'| ensures KeyOk(ks', k) {
      if k < |ks| {
        assert KeyOk(ks, k);
      }
    }
  }

  predicate Legal(ops: seq<Op>)
    decreases |ops|, 0
  {
    ops == [] || (Legal(ops[..|ops| - 1]) && Callable(Run(ops[..|ops| - 1]), ops[|ops| - 1]))
  }

  function Run(ops: seq<Op>): (ks: Keys)
    requires Legal(ops)
    ensures Inv(ks)
    decreases |ops|, 1
  {
    if ops == [] then []
    else
      NextKeeps(Run(ops[..|ops| - 1]), ops[|ops| - 1]);
      Next(Run(ops[..|ops| - 1]), ops[|ops| - 1]).0
  }

  /** The key at the bottom of the nesting. */
  function RootOf(ks: Keys, k: Ref): (r: Ref)
    requires Inv(ks) && k < |ks|
    ensures r <= k && ks[r].Root?
  {
    assert KeyOk(ks, k);
    if ks[k].Root? then k else RootOf(ks, ks[k].parent)
  }

  /** Under a range that wraps, whatever the check accepts wraps as well. */
  lemma WrappingParent(parent: Range, r: Range)
    requires Wraps(parent) && Accepts(parent, r)
    ensures Wraps(r)
  {
  }

  /** A reference lies inside a root that does not wrap exactly when it does not wrap itself,
      whatever lies between the two. */
  lemma {:induction false} NestedExactly(ks: Keys, k: Ref)
    requires Inv(ks) && k < |ks| && !Wraps(ks[RootOf(ks, k)].range)
    ensures Inside(ks[k].range, ks[RootOf(ks, k)].range) <==> !Wraps(ks[k].range)
  {
    assert KeyOk(ks, k);
    if ks[k].Child? {
      var p := ks[k].parent;
      NestedExactly(ks, p);
      if Wraps(ks[p].range) {
        WrappingParent(ks[p].range, ks[k].range);
      } else {
        CheckExact(ks[p].range, ks[k].range);
      }
    }
  }

  lemma {:induction false} SameIdentity(ks: Keys, k: Ref)
    requires Inv(ks) && k < |ks|
    ensures ks[k].id == ks[RootOf(ks, k)].id && ks[k].flags == ks[RootOf(ks, k)].flags
  {
    assert KeyOk(ks, k);
    if ks[k].Child? {
      SameIdentity(ks, ks[k].parent);
    }
  }

  /** Reference keys made through the adapter in any run, nested to any depth: id and flags are the
      root's; and the range lies inside that of a root that does not wrap exactly when it does not
      wrap itself. */
  lemma ReferencesRoot(ops: seq<Op>, k: Ref)
    requires Legal(ops) && k < |Run(ops)|
    ensures var ks := Run(ops);
            && ks[k].id == ks[RootOf(ks, k)].id && ks[k].flags == ks[RootOf(ks, k)].flags
            && (!Wraps(ks[RootOf(ks, k)].range) ==>
                  (Inside(ks[k].range, ks[RootOf(ks, k)].range) <==> !Wraps(ks[k].range)))
  {
    hide Run;
    var ks := Run(ops);
    SameIdentity(ks, k);
    if !Wraps(ks[RootOf(ks, k)].range) {
      NestedExactly(ks, k);
    }
  }

  /* ---------------------------------------------------------------- the key object */

  class RefKey {
    const range: Range
    var idx: u32
    var flags: nat

    constructor (range: Range)
      ensures this.range == range && idx == 0 && flags == 0
    {
      this.range, idx, flags := range, 0, 0;
    }

    /** ref_mkey::create. `parent` is the key the pointer leads to, if any. */
    method Create(parent: Option<Key>) returns (st: Status)
      modifies this
      ensures st == Ok <==> parent.Some? && range.addr != 0 && range.len != 0
                            && Answers(parent.value) && Accepts(parent.value.range, range)
      ensures st == Ok ==> idx == parent.value.id && flags == parent.value.flags
      ensures parent.None? || range.addr == 0 || range.len == 0 ==> st == ErrInvalidParam && unchanged(this)
      ensures parent.Some? && range.addr != 0 && range.len != 0 && Answers(parent.value) && st != Ok
              ==> st == ErrOutOfRange
      ensures parent.Some? && range.addr != 0 && range.len != 0 && !Answers(parent.value) ==>
                st == if AskId(parent.value).0 != Ok then AskId(parent.value).0
                      else if AskAddress(parent.value).0 != Ok then AskAddress(parent.value).0
                      else if AskLength(parent.value).0 != Ok then AskLength(parent.value).0
                      else AskFlags(parent.value).0
    {
      if parent.None? || range.addr == 0 || range.len == 0 {
        return ErrInvalidParam;
      }
      var p := parent.value;
      var id, addr, len, fl;
      st, id := AskId(p).0, AskId(p).1;
      if st != Ok {
        return;
      }
      idx := id;
      st, addr := AskAddress(p).0, AskAddress(p).1;
      if st != Ok {
        return;
      }
      st, len := AskLength(p).0, AskLength(p).1;
      if st != Ok {
        return;
      }
      st, fl := AskFlags(p).0, AskFlags(p).1;
      if st != Ok {
        return;
      }
      flags := fl;
      if range.addr < addr || (range.addr + range.len) % WORD > (addr + len) % WORD {
        return ErrOutOfRange;
      }
      return Ok;
    }
  }

  /** adapter::create_ref_mkey: any refusal deletes the key again and reads as a failed creation. */
  method CreateRefKey(ks: Keys, parent: Option<Ref>, range: Range, memory: bool) returns (st: Status, out: Keys)
    requires Callable(ks, NewRef(parent, range, memory))
    ensures (out, st) == Next(ks, NewRef(parent, range, memory))
  {
    if !memory {
      return ErrNoMemory, ks;
    }
    var key := new RefKey(range);
    var p := if parent.Some? then Some(ks[parent.value]) else None;
    st := key.Create(p);
    if st != Ok {
      return ErrCreate, ks;
    }
    return Ok, ks + [Child(parent.value, range, key.idx, key.flags)];
  }
}
