/** Send queues with packet pacing: the rate handle a queue is programmed with, and its swap. */
module PacketPacing {
  import opened Bits
  import opened Common
  import opened CommandBuffer

  /* ---------------------------------------------------------------- modify_sq_in layout */

  const OP_MODIFY_SQ := 0x905
  const OPCODE := Field(0x0, 16)
  const SQ_STATE := Field(0x40, 4)
  const SQN := Field(0x48, 24)
  const BITMASK := Field(0x80, 64)
  const CTX_STATE := Field(0x108, 4)
  const RATE_INDEX := Field(0x1f0, 16)
  const SQ_RDY := 1
  const MODIFY_BYTES := 272

  function ModifyWrites(sqn: u32, index: nat): seq<Write> {
    [Write(BITMASK, 1), Write(SQN, sqn), Write(SQ_STATE, SQ_RDY), Write(CTX_STATE, SQ_RDY),
     Write(RATE_INDEX, index), Write(OPCODE, OP_MODIFY_SQ)]
  }

  lemma ModifyOk(sqn: u32, index: nat)
    ensures AllFit(ModifyWrites(sqn, index), MODIFY_BYTES) && PairwiseDisjoint(ModifyWrites(sqn, index))
  {
  }

  function ModifyCommand(sqn: u32, index: nat): (s: seq<byte>)
    ensures |s| == MODIFY_BYTES
  {
    ModifyOk(sqn, index);
    PutAll(Zeros(MODIFY_BYTES), ModifyWrites(sqn, index))
  }

  /** The rate a device that accepts the command programs: the index in it, when the mask asks. */
  function Programs(cmd: seq<byte>, now: nat): nat
    requires |cmd| == MODIFY_BYTES
  {
    if Bit(Read(cmd, BITMASK), 0) then Read(cmd, RATE_INDEX) else now
  }

  lemma ProgramsIndex(sqn: u32, index: u16, now: nat)
    ensures Programs(ModifyCommand(sqn, index), now) == index
  {
    hide PutAll; hide Read; hide Pow2; hide Fits; hide Zeros; hide ModifyWrites;
    ModifyOk(sqn, index);
    Pow2Values();
    var z, ws := Zeros(MODIFY_BYTES), ModifyWrites(sqn, index);
    FirstAndFifth(sqn, index);
    PutAllReads(z, ws, 0);
    PutAllReads(z, ws, 4);
  }

  lemma FirstAndFifth(sqn: u32, index: nat)
    ensures |ModifyWrites(sqn, index)| == 6
    ensures ModifyWrites(sqn, index)[0] == Write(BITMASK, 1) && ModifyWrites(sqn, index)[4] == Write(RATE_INDEX, index)
  {
  }

  /** The modify command names the queue, asks it to be ready, and touches nothing but the rate. */
  lemma ModifyNames(sqn: u32, index: nat)
    ensures var c := ModifyCommand(sqn, index);
            && Read(c, OPCODE) == 0x905 && Read(c, SQN) == sqn % 0x100_0000 && Read(c, BITMASK) == 1
            && Read(c, SQ_STATE) == 1 && Read(c, CTX_STATE) == 1
  {
    hide PutAll; hide Read; hide Pow2; hide Fits; hide Zeros;
    ModifyOk(sqn, index);
    Pow2Values();
    var z, ws := Zeros(MODIFY_BYTES), ModifyWrites(sqn, index);
    PutAllReads(z, ws, 0);
    PutAllReads(z, ws, 1);
    PutAllReads(z, ws, 2);
    PutAllReads(z, ws, 3);
    PutAllReads(z, ws, 5);
  }

  /** Nothing else is set in it. */
  lemma ModifyElseZero(sqn: u32, index: nat, f: Field)
    requires f.off + f.width <= 8 * MODIFY_BYTES
    requires forall g | g in [BITMASK, SQN, SQ_STATE, CTX_STATE, RATE_INDEX, OPCODE] :: Disjoint(g, f)
    ensures Read(ModifyCommand(sqn, index), f) == 0
  {
    hide PutAll; hide Read; hide Fits; hide Zeros; hide Disjoint;
    ModifyOk(sqn, index);
    var ws, fs := ModifyWrites(sqn, index), [BITMASK, SQN, SQ_STATE, CTX_STATE, RATE_INDEX, OPCODE];
    assert forall i | 0 <= i < 6 :: ws[i].f == fs[i];
    forall i | 0 <= i < |ws| ensures Disjoint(ws[i].f, f) {
      assert fs[i] in fs;
    }
    PutAllKeeps(Zeros(MODIFY_BYTES), ws, f);
    ReadOfZeros(MODIFY_BYTES, f);
  }

  /** `index & 0xFFFF` */
  lemma LowWord(index: u32)
    ensures And(index, 0xFFFF) == index % 0x1_0000
  {
    hide And; hide Pow2; hide Bit;
    Pow2Values();
    AndLow(index, 16);
  }

  lemma AndLow(x: nat, n: nat)
    ensures And(x, Pow2(n) - 1) == x % Pow2(n)
  {
    hide Bit; hide And; hide Low; hide Pow2;
    var m := Pow2(n) - 1;
    LowIsMod(x, n);
    AndBound(x, m);
    LowBound(x, n);
    forall k: nat | k < n ensures Bit(And(x, m), k) <==> Bit(Low(x, n), k) {
      BitAnd(x, m, k);
      BitOnes(n, k);
      BitLow(x, n, k);
    }
    SameBits(And(x, m), Low(x, n), n);
  }

  /* ---------------------------------------------------------------- handles and histories */

  /** A pacing handle of the device: its number, and the rate index the device gave it. */
  datatype Handle = Handle(n: nat, index: u32)

  datatype Event = Alloc(h: Handle) | Program(pp: Option<Handle>) | Free(h: Handle) | QueueGone

  function Count(log: seq<Event>, e: Event): nat {
    if log == [] then 0
    else Count(log[..|log| - 1], e) + (if log[|log| - 1] == e then 1 else 0)
  }

  /** The handle the queue on the device is programmed with, as long as there is one. */
  function InUse(log: seq<Event>): Option<Handle> {
    if log == [] then None
    else After(log[|log| - 1], InUse(log[..|log| - 1]))
  }

  function After(e: Event, was: Option<Handle>): Option<Handle> {
    if e.Program? then e.pp else if e.QueueGone? then None else was
  }

  /** No handle is freed while the queue is programmed with it. */
  predicate NotInUse(log: seq<Event>) {
    forall i | 0 <= i < |log| :: log[i].Free? ==> InUse(log[..i]) != Some(log[i].h)
  }

  /** `pp` and `idx` are what the queue remembers, `dev` and `programmed` are the device's. */
  datatype State = State(sqn: Option<u32>, dev: DeviceObject, pp: Option<Handle>, idx: u32, programmed: nat,
                         next: nat, log: seq<Event>)

  /** What allocating a pacing object answers: no memory, no handle, or a handle with an index. */
  datatype Allocation = NoMemory | NoHandle | Index(index: u32)

  /** A modify request: is the attribute a pacing one, does it ask for a rate, and how the
      allocation and the device's modify go. */
  datatype Request = Request(pacing: bool, rated: bool, alloc: Allocation, accepts: bool)

  datatype Op = Modify(req: Request) | Destroy(accepts: bool)

  predicate Usable(s: State) {
    s.sqn.Some? && s.sqn.value != 0
  }

  predicate Live(log: seq<Event>, h: Handle) {
    Count(log, Alloc(h)) > Count(log, Free(h))
  }

  /** Everything allocated is the current handle or was freed, exactly once. */
  predicate Accounted(s: State, h: Handle) {
    && Count(s.log, Alloc(h)) <= 1
    && Count(s.log, Alloc(h)) == Count(s.log, Free(h)) + (if s.pp == Some(h) then 1 else 0)
    && (h.n >= s.next ==> Count(s.log, Alloc(h)) == 0)
  }

  predicate Matched(s: State) {
    && s.idx == (if s.pp.Some? then s.pp.value.index else 0)
    && (Exists(s.dev) ==> s.programmed == s.idx % 0x1_0000)
    && InUse(s.log) == (if Exists(s.dev) then s.pp else None) && NotInUse(s.log)
  }

  ghost predicate Inv(s: State) {
    Matched(s) && forall h: Handle :: Accounted(s, h)
  }

  /** A queue that was initialised without a rate. */
  function Unpaced(sqn: u32): State {
    State(Some(sqn), Linked, None, 0, 0, 0, [])
  }

  /** A queue that was initialised with one. */
  function Paced(sqn: u32, index: u32): State {
    var h := Handle(0, index);
    State(Some(sqn), Linked, Some(h), index, index % 0x1_0000, 1, [Alloc(h), Program(Some(h))])
  }

  /** The device's answer to the modify, once a handle (or none) is at hand; it cannot accept one for
      a queue it no longer has, but it may for one whose handle was let go, where the driver goes by
      number. */
  function Swap(s: State, pp: Option<Handle>, accepts: bool): (State, Status) {
    var index := if pp.Some? then pp.value.index else 0;
    var drop := if pp.Some? then [Free(pp.value)] else [];
    if !Usable(s) then (s.(log := s.log + drop), ErrInvalidId)
    else if !(accepts && Exists(s.dev)) then (s.(log := s.log + drop), ErrModify)
    else
      var was := if s.pp.Some? then [Free(s.pp.value)] else [];
      (s.(pp := pp, idx := index, programmed := index % 0x1_0000, log := s.log + [Program(pp)] + was), Ok)
  }

  /** pp_sq::modify */
  function ModifyNext(s: State, req: Request): (State, Status) {
    if !req.pacing then (s, ErrInvalidParam)
    else if !req.rated then Swap(s, None, req.accepts)
    else
      match req.alloc
      case NoMemory => (s, ErrCreate)
      case NoHandle => (s, ErrCreate)
      case Index(i) =>
        var h := Handle(s.next, i);
        Swap(s.(next := s.next + 1, log := s.log + [Alloc(h)]), Some(h), req.accepts)
  }

  /** obj::destroy, as pp_sq::destroy calls it; the pacing object stays. */
  function DestroyNext(s: State, accepts: bool): State {
    s.(dev := AfterDestroy(s.dev, accepts), log := s.log + (if s.dev.Linked? && accepts then [QueueGone] else []))
  }

  function Next(s: State, op: Op): (State, Status) {
    match op
    case Modify(req) => ModifyNext(s, req)
    case Destroy(accepts) => (DestroyNext(s, accepts), Ok)
  }

  function Run(s: State, ops: seq<Op>): State {
    if ops == [] then s else Next(Run(s, ops[..|ops| - 1]), ops[|ops| - 1]).0
  }

  /* ---------------------------------------------------------------- one event more */

  lemma CountSnoc(log: seq<Event>, e: Event, x: Event)
    ensures Count(log + [e], x) == Count(log, x) + (if e == x then 1 else 0)
  {
    assert (log + [e])[..|log|] == log;
  }

  lemma InUseSnoc(log: seq<Event>, e: Event)
    requires NotInUse(log) && (e.Free? ==> InUse(log) != Some(e.h))
    ensures NotInUse(log + [e]) && InUse(log + [e]) == After(e, InUse(log))
  {
    assert (log + [e])[..|log|] == log;
    assert forall i | 0 <= i < |log| :: (log + [e])[..i] == log[..i];
  }

  /** A handle was allocated and is neither current nor freed. */
  ghost predicate Pending(s: State, p: Handle) {
    && Matched(s) && p.n < s.next && s.pp != Some(p)
    && Count(s.log, Alloc(p)) == 1 && Count(s.log, Free(p)) == 0
    && forall h: Handle | h != p :: Accounted(s, h)
  }

  lemma AllocPends(s: State, i: u32)
    requires Inv(s)
    ensures Pending(s.(next := s.next + 1, log := s.log + [Alloc(Handle(s.next, i))]), Handle(s.next, i))
  {
    hide Count; hide InUse; hide NotInUse;
    var p := Handle(s.next, i);
    var t := s.(next := s.next + 1, log := s.log + [Alloc(p)]);
    InUseSnoc(s.log, Alloc(p));
    assert Accounted(s, p);
    CountSnoc(s.log, Alloc(p), Alloc(p));
    CountSnoc(s.log, Alloc(p), Free(p));
    forall h: Handle | h != p ensures Accounted(t, h) {
      assert Accounted(s, h);
      CountSnoc(s.log, Alloc(p), Alloc(h));
      CountSnoc(s.log, Alloc(p), Free(h));
    }
  }

  /** Freeing the pending handle undoes the attempt. */
  lemma PendingFreed(s: State, p: Handle)
    requires Pending(s, p)
    ensures Inv(s.(log := s.log + [Free(p)]))
  {
    hide Count; hide InUse; hide NotInUse;
    var t := s.(log := s.log + [Free(p)]);
    InUseSnoc(s.log, Free(p));
    forall h: Handle ensures Accounted(t, h) {
      if h != p { assert Accounted(s, h); }
      CountSnoc(s.log, Free(p), Alloc(h));
      CountSnoc(s.log, Free(p), Free(h));
    }
  }

  /** The old handle is freed once the queue is no longer programmed with it. */
  lemma OldFreed(s: State, pp: Option<Handle>)
    requires Usable(s) && Exists(s.dev) && if pp.Some? then Pending(s, pp.value) else Inv(s)
    ensures Inv(Swap(s, pp, true).0)
  {
    hide Count; hide InUse; hide NotInUse;
    var t := Swap(s, pp, true).0;
    var mid := s.log + [Program(pp)];
    InUseSnoc(s.log, Program(pp));
    if s.pp.Some? {
      InUseSnoc(mid, Free(s.pp.value));
    } else {
      assert mid + [] == mid;
    }
    forall h: Handle ensures Accounted(t, h) {
      if pp != Some(h) { assert Accounted(s, h); }
      CountSnoc(s.log, Program(pp), Alloc(h));
      CountSnoc(s.log, Program(pp), Free(h));
      if s.pp.Some? {
        CountSnoc(mid, Free(s.pp.value), Alloc(h));
        CountSnoc(mid, Free(s.pp.value), Free(h));
      }
    }
  }

  /** Both ways pp_sq::init can succeed start out well. */
  lemma StartsWell(sqn: u32, index: u32)
    ensures Inv(Unpaced(sqn)) && Inv(Paced(sqn, index))
  {
    hide Inv; hide Pending; hide Swap; hide Paced;
    UnpacedWell(sqn);
    UnpacedWell(1);
    AllocPends(Unpaced(1), index);
    OldFreed(Started(index), Some(Handle(0, index)));
    PacedIsSwap(sqn, index);
    Renumbered(Paced(1, index), Some(sqn));
  }

  function Started(index: u32): State {
    var s := Unpaced(1);
    s.(next := s.next + 1, log := s.log + [Alloc(Handle(s.next, index))])
  }

  lemma UnpacedWell(sqn: u32)
    ensures Inv(Unpaced(sqn))
  {
    assert Matched(Unpaced(sqn));
    assert forall h: Handle :: Accounted(Unpaced(sqn), h);
  }

  lemma PacedIsSwap(sqn: u32, index: u32)
    ensures Swap(Started(index), Some(Handle(0, index)), true).0 == Paced(1, index)
    ensures Paced(1, index).(sqn := Some(sqn)) == Paced(sqn, index)
  {
    var h := Handle(0, index);
    assert [] + [Alloc(h)] + [Program(Some(h))] + [] == [Alloc(h), Program(Some(h))];
  }

  /** The number does not matter to the invariant. */
  lemma Renumbered(s: State, sqn: Option<u32>)
    requires Inv(s)
    ensures Inv(s.(sqn := sqn))
  {
    hide Count; hide InUse; hide NotInUse;
    forall h: Handle ensures Accounted(s.(sqn := sqn), h) {
      assert Accounted(s, h);
    }
  }

  lemma SwapKeeps(s: State, pp: Option<Handle>, accepts: bool)
    requires if pp.Some? then Pending(s, pp.value) else Inv(s)
    ensures Inv(Swap(s, pp, accepts).0)
  {
    hide Count; hide InUse; hide NotInUse; hide Inv; hide Pending;
    if Usable(s) && accepts && Exists(s.dev) {
      OldFreed(s, pp);
    } else if pp.Some? {
      PendingFreed(s, pp.value);
    } else {
      assert s.log + [] == s.log;
    }
  }

  lemma ModifyKeeps(s: State, req: Request)
    requires Inv(s)
    ensures Inv(ModifyNext(s, req).0)
  {
    hide Inv; hide Pending; hide Swap;
    if req.pacing && req.rated && req.alloc.Index? {
      AllocPends(s, req.alloc.index);
      SwapKeeps(s.(next := s.next + 1, log := s.log + [Alloc(Handle(s.next, req.alloc.index))]),
                Some(Handle(s.next, req.alloc.index)), req.accepts);
    } else if req.pacing && !req.rated {
      SwapKeeps(s, None, req.accepts);
    }
  }

  lemma DestroyKeeps(s: State, accepts: bool)
    requires Inv(s)
    ensures Inv(DestroyNext(s, accepts))
  {
    hide Count; hide InUse; hide NotInUse;
    var t := DestroyNext(s, accepts);
    if s.dev.Linked? && accepts {
      InUseSnoc(s.log, QueueGone);
    } else {
      assert s.log + [] == s.log;
    }
    forall h: Handle ensures Accounted(t, h) {
      assert Accounted(s, h);
      CountSnoc(s.log, QueueGone, Alloc(h));
      CountSnoc(s.log, QueueGone, Free(h));
    }
  }

  lemma NextKeeps(s: State, op: Op)
    requires Inv(s)
    ensures Inv(Next(s, op).0)
  {
    hide Inv; hide ModifyNext; hide DestroyNext;
    match op {
      case Modify(req) => ModifyKeeps(s, req);
      case Destroy(accepts) => DestroyKeeps(s, accepts);
    }
  }

  /* ---------------------------------------------------------------- over every run */

  lemma {:induction false} RunKeeps(s: State, ops: seq<Op>)
    requires Inv(s)
    ensures Inv(Run(s, ops))
  {
    hide Inv; hide Next;
    if ops != [] {
      RunKeeps(s, ops[..|ops| - 1]);
      NextKeeps(Run(s, ops[..|ops| - 1]), ops[|ops| - 1]);
    }
  }

  /** destroy() was called. */
  predicate Asked(ops: seq<Op>) {
    exists i | 0 <= i < |ops| :: ops[i].Destroy?
  }

  /** The device accepted the first destroy(). */
  predicate Taken(ops: seq<Op>) {
    exists i | 0 <= i < |ops| :: ops[i] == Destroy(true) && !Asked(ops[..i])
  }

  /** The device has lost the queue exactly when it accepted the first destroy(), and the host holds
      the handle exactly when there was none. */
  lemma {:induction false} QueueGoneExactly(s: State, ops: seq<Op>)
    requires s.dev == Linked
    ensures Exists(Run(s, ops).dev) <==> !Taken(ops)
    ensures Run(s, ops).dev.Linked? <==> !Asked(ops)
    ensures !Run(s, ops).dev.Unmade?
    decreases |ops|
  {
    if ops != [] {
      var n := |ops| - 1;
      var pre := ops[..n];
      QueueGoneExactly(s, pre);
      assert ops == pre + [ops[n]];
      DevStep(Run(s, pre), ops[n]);
      TakenSnoc(pre, ops[n]);
    }
  }

  lemma DevStep(s: State, op: Op)
    ensures Next(s, op).0.dev == if op.Destroy? then AfterDestroy(s.dev, op.accepts) else s.dev
  {
  }

  lemma TakenSnoc(ops: seq<Op>, op: Op)
    ensures Asked(ops + [op]) <==> Asked(ops) || op.Destroy?
    ensures Taken(ops + [op]) <==> Taken(ops) || (op == Destroy(true) && !Asked(ops))
  {
    var longer := ops + [op];
    assert longer[..|ops|] == ops && longer[|ops|] == op;
    assert forall i | 0 <= i < |ops| :: longer[..i] == ops[..i] && longer[i] == ops[i];
    if Asked(ops) {
      var i :| 0 <= i < |ops| && ops[i].Destroy?;
      assert longer[i].Destroy?;
    }
    if Taken(ops) {
      var i :| 0 <= i < |ops| && ops[i] == Destroy(true) && !Asked(ops[..i]);
      assert longer[i] == Destroy(true) && !Asked(longer[..i]);
    }
  }

  /** After every run of modifies and destroys, with failures anywhere: while the device has the
      queue, the index programmed in it is the remembered one modulo 2^16; the remembered one is zero
      or that of a live handle, the only live one; and every other handle ever allocated was freed
      exactly once, never while in use. */
  lemma ProgrammedIsLive(s: State, ops: seq<Op>, h: Handle)
    requires Inv(s)
    ensures var t := Run(s, ops);
            && (Exists(t.dev) ==> t.programmed == t.idx % 0x1_0000)
            && (t.pp.Some? ==> Live(t.log, t.pp.value) && t.idx == t.pp.value.index)
            && (t.pp.None? ==> t.idx == 0)
            && (Live(t.log, h) <==> t.pp == Some(h))
            && Count(t.log, Free(h)) <= Count(t.log, Alloc(h)) <= 1
            && NotInUse(t.log)
    ensures s.dev == Linked ==> (Exists(Run(s, ops).dev) <==> !Taken(ops))
  {
    hide Run; hide Count; hide InUse; hide NotInUse; hide Taken;
    RunKeeps(s, ops);
    var t := Run(s, ops);
    assert Accounted(t, h);
    if t.pp.Some? {
      assert Accounted(t, t.pp.value);
    }
    if s.dev == Linked {
      QueueGoneExactly(s, ops);
    }
  }

  /** Every status of a modify. */
  lemma ModifyStatus(s: State, req: Request)
    ensures var st := ModifyNext(s, req).1;
            var prepared := req.pacing && (req.rated ==> req.alloc.Index?);
            && (!req.pacing <==> st == ErrInvalidParam) && (req.pacing && !prepared <==> st == ErrCreate)
            && (prepared && (s.sqn.None? || s.sqn.value == 0) <==> st == ErrInvalidId)
            && (prepared && s.sqn.Some? && s.sqn.value != 0 && !(req.accepts && Exists(s.dev)) <==> st == ErrModify)
  {
  }

  /** A modify that fails leaves what is programmed and remembered, and frees what it allocated. */
  lemma FailureChangesNothing(s: State, req: Request)
    requires Inv(s) && ModifyNext(s, req).1 != Ok
    ensures var t := ModifyNext(s, req).0;
            && t.pp == s.pp && t.idx == s.idx && t.programmed == s.programmed && t.dev == s.dev
            && forall h: Handle :: Live(t.log, h) <==> Live(s.log, h)
  {
    hide Count; hide InUse; hide NotInUse; hide Matched;
    var t := ModifyNext(s, req).0;
    ModifyKeeps(s, req);
    forall h: Handle ensures Live(t.log, h) <==> Live(s.log, h) {
      assert Accounted(s, h) && Accounted(t, h);
    }
  }

  /** A modify that succeeds programs the new handle's index, or none, and frees the old handle. */
  lemma SuccessSwaps(s: State, req: Request)
    requires Inv(s) && ModifyNext(s, req).1 == Ok
    ensures var t := ModifyNext(s, req).0;
            && req.pacing && Usable(s) && req.accepts && Exists(s.dev)
            && t.pp == (if req.rated then Some(Handle(s.next, req.alloc.index)) else None)
            && (s.pp.Some? ==> Live(s.log, s.pp.value) && !Live(t.log, s.pp.value))
  {
    hide Count; hide InUse; hide NotInUse;
    var t := ModifyNext(s, req).0;
    ModifyKeeps(s, req);
    if s.pp.Some? {
      assert Accounted(s, s.pp.value) && Accounted(t, s.pp.value);
    }
  }

  /* ---------------------------------------------------------------- destruction */

  /** The destructor deletes the pacing object, and only then destroys the queue on the device, if
      that was not done before. */
  function Deleted(s: State, accepts: bool): State {
    DestroyNext(s.(pp := None, log := s.log + (if s.pp.Some? then [Free(s.pp.value)] else [])), accepts)
  }

  /** After every run and the destructor, every handle ever allocated was freed exactly once; and
      none was freed while the queue was programmed with it exactly when the run ended without a
      handle, or destroy() had been called and the device had accepted the first such call. */
  lemma DestructorFrees(s: State, ops: seq<Op>, accepts: bool, h: Handle)
    requires Inv(s) && s.dev == Linked
    ensures var t := Run(s, ops);
            && Count(Deleted(t, accepts).log, Alloc(h)) == Count(Deleted(t, accepts).log, Free(h)) <= 1
            && (NotInUse(Deleted(t, accepts).log) <==> t.pp.None? || Taken(ops))
            && (Taken(ops) ==> Asked(ops))
  {
    hide Run; hide Taken; hide Inv; hide Asked; hide Deleted; hide Count; hide NotInUse;
    RunKeeps(s, ops);
    QueueGoneExactly(s, ops);
    DeletedFrees(Run(s, ops), accepts, h);
  }

  lemma DeletedFrees(t: State, accepts: bool, h: Handle)
    requires Inv(t)
    ensures Count(Deleted(t, accepts).log, Alloc(h)) == Count(Deleted(t, accepts).log, Free(h)) <= 1
    ensures NotInUse(Deleted(t, accepts).log) <==> t.pp.None? || !Exists(t.dev)
  {
    hide Count; hide InUse; hide NotInUse;
    assert Accounted(t, h);
    var mid := t.log + (if t.pp.Some? then [Free(t.pp.value)] else []);
    if t.pp.Some? {
      CountSnoc(t.log, Free(t.pp.value), Alloc(h));
      CountSnoc(t.log, Free(t.pp.value), Free(h));
      if Exists(t.dev) {
        FreedInUse(t.log, t.pp.value);
      } else {
        InUseSnoc(t.log, Free(t.pp.value));
      }
    } else {
      assert mid == t.log;
    }
    QueueGoneLast(mid, h);
    assert mid + [] == mid;
  }

  /** That the queue goes changes nothing in what was said of the frees before. */
  lemma QueueGoneLast(log: seq<Event>, h: Handle)
    ensures Count(log + [QueueGone], Alloc(h)) == Count(log, Alloc(h))
    ensures Count(log + [QueueGone], Free(h)) == Count(log, Free(h))
    ensures NotInUse(log + [QueueGone]) <==> NotInUse(log)
  {
    hide InUse; hide Count;
    CountSnoc(log, QueueGone, Alloc(h));
    CountSnoc(log, QueueGone, Free(h));
    var longer := log + [QueueGone];
    assert forall i | 0 <= i < |log| :: longer[..i] == log[..i] && longer[i] == log[i];
    if NotInUse(longer) {
      forall i | 0 <= i < |log| && log[i].Free? ensures InUse(log[..i]) != Some(log[i].h) {
        assert longer[i].Free?;
      }
    }
  }

  lemma FreedInUse(log: seq<Event>, h: Handle)
    requires InUse(log) == Some(h)
    ensures !NotInUse(log + [Free(h)])
  {
    hide InUse;
    var longer := log + [Free(h)];
    assert longer[..|log|] == log && longer[|log|] == Free(h);
  }

  /** Every queue initialised with a rate, and deleted, is such a case; calling destroy() before
      helps exactly when the device accepts it. */
  lemma FreedWhileProgrammed(sqn: u32, index: u32, accepts: bool, last: bool)
    ensures !NotInUse(Deleted(Paced(sqn, index), last).log)
    ensures NotInUse(Deleted(Run(Paced(sqn, index), [Destroy(accepts)]), last).log) <==> accepts
  {
    hide Inv; hide Deleted; hide NotInUse;
    var s := Paced(sqn, index);
    StartsWell(sqn, index);
    DeletedFrees(s, last, Handle(0, 0));
    assert [Destroy(accepts)][..0] == [];
    assert Run(s, []) == s;
    var t := DestroyNext(s, accepts);
    assert Run(s, [Destroy(accepts)]) == t;
    DestroyKeeps(s, accepts);
    DeletedFrees(t, last, Handle(0, 0));
  }

  /* ---------------------------------------------------------------- the queue, updated in place */

  class PpSq {
    const sqn: Option<u32>
    var dev: DeviceObject
    var pp: Option<Handle>
    var ppIdx: u32
    var programmed: nat
    var next: nat
    var log: seq<Event>

    constructor (s: State)
      ensures View() == s
    {
      sqn, dev, pp, ppIdx, programmed, next, log := s.sqn, s.dev, s.pp, s.idx, s.programmed, s.next, s.log;
    }

    function View(): State
      reads this
    {
      State(sqn, dev, pp, ppIdx, programmed, next, log)
    }

    /** pp_sq::modify */
    method Modify(req: Request) returns (st: Status)
      requires Inv(View())
      modifies this
      ensures (View(), st) == ModifyNext(old(View()), req) && Inv(View())
    {
      hide Inv; hide And; hide ModifyCommand; hide Programs;
      ModifyKeeps(View(), req);
      if !req.pacing {
        return ErrInvalidParam;
      }
      var newer: Option<Handle> := None;
      var index: u16 := 0;
      if req.rated {
        match req.alloc {
          case NoMemory =>
            return ErrCreate;
          case NoHandle =>
            return ErrCreate;
          case Index(i) =>
            newer := Some(Handle(next, i));
            log := log + [Alloc(Handle(next, i))];
            next := next + 1;
            LowWord(i);
            index := And(i, 0xFFFF);
        }
      }
      if sqn.None? || sqn.value == 0 {
        Discard(newer);
        return ErrInvalidId;
      }
      if !(req.accepts && Exists(dev)) {
        Discard(newer);
        return ErrModify;
      }
      ProgramsIndex(sqn.value, index, programmed);
      programmed := Programs(ModifyCommand(sqn.value, index), programmed);
      log := log + [Program(newer)];
      Discard(pp);
      pp := newer;
      ppIdx := if newer.Some? then newer.value.index else 0;
      return Ok;
    }

    /** obj::destroy through pp_sq::destroy */
    method DestroyQueue(accepts: bool) returns (st: Status)
      requires Inv(View())
      modifies this
      ensures View() == DestroyNext(old(View()), accepts) && st == Ok && Inv(View())
    {
      hide Inv;
      DestroyKeeps(View(), accepts);
      GiveBack(accepts);
      return Ok;
    }

    /** The handle is given to the driver once, and forgotten. */
    method GiveBack(accepts: bool)
      modifies this`dev, this`log
      ensures View() == DestroyNext(old(View()), accepts)
    {
      if dev.Linked? {
        dev := Orphaned;
        if accepts {
          dev := Gone;
          log := log + [QueueGone];
        }
      }
    }

    /** ~pp_sq, as far as pacing goes. */
    method Delete(accepts: bool)
      modifies this
      ensures View() == Deleted(old(View()), accepts)
    {
      Discard(pp);
      pp := None;
      GiveBack(accepts);
    }

    /** Deleting a pacing object frees its handle; deleting a null pointer does nothing. */
    method Discard(p: Option<Handle>)
      modifies this`log
      ensures log == old(log) + if p.Some? then [Free(p.value)] else []
    {
      if p.Some? {
        log := log + [Free(p.value)];
      }
    }
  }
}
