/** The life of a receive queue: acquired step by step, torn down after a failure at any step, by
    explicit destroy calls and by its destructor. */
module RqLifecycle {
  import opened Common

  /** What a queue owns. `Wrapper` is the object that holds the device handle. */
  datatype Res = Device | Wrapper | UarCopy | WqUmem | DbUmem | WqBuf | DbRec

  datatype Event = Acquire(r: Res) | Free(r: Res)

  /* ---------------------------------------------------------------- what a history promises */

  predicate Acquired(log: seq<Event>, r: Res) {
    Acquire(r) in log
  }

  /** Is it still owned at the end of the history? */
  predicate HeldAfter(log: seq<Event>, r: Res) {
    log != [] &&
    var e := log[|log| - 1];
    if e.r == r then e.Acquire? else HeldAfter(log[..|log| - 1], r)
  }

  /** The device object uses registered memory, a registration uses its buffer. */
  function Stage(r: Res): nat {
    match r
    case Device => 0
    case WqUmem => 1
    case DbUmem => 1
    case WqBuf => 2
    case DbRec => 2
    case Wrapper => 3
    case UarCopy => 4
  }

  predicate GoesBefore(r: Res, r': Res) {
    r != UarCopy && r' != UarCopy && Stage(r) < Stage(r')
  }

  predicate EventOk(log: seq<Event>, e: Event) {
    match e
    case Acquire(r) => !Acquired(log, r)
    case Free(r) => HeldAfter(log, r) && forall r' | GoesBefore(r', r) :: !HeldAfter(log, r')
  }

  /** Nothing is acquired twice; a release is of something held, and of nothing still in use. */
  predicate Clean(log: seq<Event>) {
    forall i | 0 <= i < |log| :: EventOk(log[..i], log[i])
  }

  function Count(log: seq<Event>, e: Event): nat {
    if log == [] then 0
    else Count(log[..|log| - 1], e) + (if log[|log| - 1] == e then 1 else 0)
  }

  lemma CleanPrefix(log: seq<Event>)
    requires Clean(log) && log != []
    ensures Clean(log[..|log| - 1]) && EventOk(log[..|log| - 1], log[|log| - 1])
  {
    hide EventOk;
    var l := log[..|log| - 1];
    assert forall i | 0 <= i < |l| :: l[..i] == log[..i];
  }

  lemma CleanSnoc(log: seq<Event>, e: Event)
    requires Clean(log) && EventOk(log, e)
    ensures Clean(log + [e])
  {
    hide EventOk;
    assert forall i | 0 <= i < |log| :: (log + [e])[..i] == log[..i];
    assert (log + [e])[..|log|] == log;
  }

  lemma {:induction false} CountAcquired(log: seq<Event>, e: Event)
    ensures Count(log, e) > 0 <==> e in log
  {
    if log != [] {
      CountAcquired(log[..|log| - 1], e);
      assert log == log[..|log| - 1] + [log[|log| - 1]];
    }
  }

  /** In a clean history everything acquired was acquired once, and released once unless held. */
  lemma {:induction false} CleanCounts(log: seq<Event>, r: Res)
    requires Clean(log)
    ensures Count(log, Acquire(r)) <= 1
    ensures Count(log, Acquire(r)) == Count(log, Free(r)) + (if HeldAfter(log, r) then 1 else 0)
  {
    if log != [] {
      CleanPrefix(log);
      CleanCounts(log[..|log| - 1], r);
      CountAcquired(log[..|log| - 1], Acquire(r));
    }
  }

  /* ---------------------------------------------------------------- the queue as a value */

  datatype Rq = Rq(wrapper: bool, device: bool, uar: bool, wqUmem: bool, dbUmem: bool, wqBuf: bool, dbRec: bool,
                   log: seq<Event>)

  const NEW := Rq(false, false, false, false, false, false, false, [])

  predicate Owns(q: Rq, r: Res) {
    match r
    case Wrapper => q.wrapper
    case Device => q.device
    case UarCopy => q.uar
    case WqUmem => q.wqUmem
    case DbUmem => q.dbUmem
    case WqBuf => q.wqBuf
    case DbRec => q.dbRec
  }

  function With(q: Rq, r: Res, b: bool): Rq {
    match r
    case Wrapper => q.(wrapper := b)
    case Device => q.(device := b)
    case UarCopy => q.(uar := b)
    case WqUmem => q.(wqUmem := b)
    case DbUmem => q.(dbUmem := b)
    case WqBuf => q.(wqBuf := b)
    case DbRec => q.(dbRec := b)
  }

  predicate Inv(q: Rq) {
    Clean(q.log) && forall r: Res :: Owns(q, r) <==> HeldAfter(q.log, r)
  }

  function Take(q: Rq, r: Res): Rq {
    With(q, r, true).(log := q.log + [Acquire(r)])
  }

  /** The test-release-clear of each pointer. */
  function Drop(q: Rq, r: Res): Rq {
    if Owns(q, r) then With(q, r, false).(log := q.log + [Free(r)]) else q
  }

  lemma OwnsWith(q: Rq, r: Res, b: bool, log: seq<Event>, x: Res)
    ensures Owns(With(q, r, b).(log := log), x) <==> if x == r then b else Owns(q, x)
  {
    match r {
      case Wrapper =>
      case Device =>
      case UarCopy =>
      case WqUmem =>
      case DbUmem =>
      case WqBuf =>
      case DbRec =>
    }
  }

  lemma TakeKeeps(q: Rq, r: Res)
    requires Inv(q) && !Acquired(q.log, r)
    ensures Inv(Take(q, r))
    ensures forall x: Res :: Acquired(Take(q, r).log, x) <==> x == r || Acquired(q.log, x)
  {
    hide Owns; hide With; hide HeldAfter;
    CleanSnoc(q.log, Acquire(r));
    forall x: Res ensures Owns(Take(q, r), x) <==> HeldAfter(Take(q, r).log, x) {
      OwnsWith(q, r, true, q.log + [Acquire(r)], x);
      HeldSnoc(q.log, Acquire(r), x);
    }
  }

  lemma HeldSnoc(log: seq<Event>, e: Event, x: Res)
    ensures HeldAfter(log + [e], x) <==> if x == e.r then e.Acquire? else HeldAfter(log, x)
  {
    assert (log + [e])[..|log|] == log;
  }

  lemma DropKeeps(q: Rq, r: Res)
    requires Inv(q) && forall x | Owns(q, x) :: !GoesBefore(x, r)
    ensures Inv(Drop(q, r)) && forall x: Res :: Owns(Drop(q, r), x) <==> x != r && Owns(q, x)
  {
    hide Owns; hide With; hide HeldAfter; hide GoesBefore;
    if Owns(q, r) {
      CleanSnoc(q.log, Free(r));
      forall x: Res
        ensures Owns(Drop(q, r), x) <==> HeldAfter(Drop(q, r).log, x)
        ensures Owns(Drop(q, r), x) <==> x != r && Owns(q, x)
      {
        OwnsWith(q, r, false, q.log + [Free(r)], x);
        HeldSnoc(q.log, Free(r), x);
      }
    }
  }

  /** basic_rq::destroy */
  function Destroyed(q: Rq): Rq {
    Drop(Drop(Drop(Drop(Drop(Drop(q, Device), UarCopy), WqUmem), DbUmem), WqBuf), DbRec)
  }

  /** The destructors: destroy once more, then the wrapper goes. */
  function Deleted(q: Rq): Rq {
    Drop(Destroyed(q), Wrapper)
  }

  function DestroyedTimes(q: Rq, n: nat): Rq {
    if n == 0 then q else Destroyed(DestroyedTimes(q, n - 1))
  }

  lemma DestroyedKeeps(q: Rq)
    requires Inv(q)
    ensures Inv(Destroyed(q)) && forall r: Res :: Owns(Destroyed(q), r) <==> r == Wrapper && Owns(q, r)
  {
    hide Inv; hide Drop; hide Owns;
    var q1 := Drop(q, Device);
    DropKeeps(q, Device);
    var q2 := Drop(q1, UarCopy);
    DropKeeps(q1, UarCopy);
    var q3 := Drop(q2, WqUmem);
    DropKeeps(q2, WqUmem);
    var q4 := Drop(q3, DbUmem);
    DropKeeps(q3, DbUmem);
    var q5 := Drop(q4, WqBuf);
    DropKeeps(q4, WqBuf);
    DropKeeps(q5, DbRec);
  }

  /** A second destroy finds every pointer cleared. */
  lemma DestroyTwice(q: Rq)
    requires forall r: Res | r != Wrapper :: !Owns(q, r)
    ensures Destroyed(q) == q
  {
  }

  lemma {:induction false} DestroyedTimesKeeps(q: Rq, n: nat)
    requires Inv(q)
    ensures Inv(DestroyedTimes(q, n))
    ensures n > 0 ==> DestroyedTimes(q, n) == Destroyed(q)
  {
    hide Inv; hide Destroyed;
    if n > 0 {
      DestroyedTimesKeeps(q, n - 1);
      DestroyedKeeps(DestroyedTimes(q, n - 1));
      if n > 1 {
        DestroyedKeeps(q);
        DestroyTwice(Destroyed(q));
      }
    }
  }

  /* ---------------------------------------------------------------- preparation */

  /** How create() ends: refused before it is sent, for want of an id or, in a striding queue, for
      strides out of range; no handle; a handle with a bad status; made. */
  datatype Creation = NoId | BadStrides | NoHandle | BadStatus | Made

  /** What succeeds while a queue is prepared. `page` is what the UAR page lookup answers. */
  datatype Plan = Plan(uar: bool, page: Status, pageValid: bool, wqAlloc: bool, wqSize: nat, wqReg: bool,
                       dbAlloc: bool, dbReg: bool, uarCopy: bool, creation: Creation)

  /** reg_mem's verdict on an allocated buffer. */
  function RegStatus(sz: nat, ok: bool): Status {
    if sz == 0 then ErrOutOfRange else if !ok then ErrUmem else Ok
  }

  function CreationStatus(c: Creation): Status {
    match c
    case NoId => ErrInvalidId
    case BadStrides => ErrOutOfRange
    case NoHandle => ErrCreate
    case BadStatus => ErrCreate
    case Made => Ok
  }

  /** obj::create keeps whatever handle it was given, with a good status or not. */
  function Sent(q: Rq, c: Creation): Rq {
    if c == BadStatus || c == Made then Take(Take(q, Wrapper), Device) else q
  }

  /** basic_rq::init */
  function Inited(q: Rq, p: Plan): (Rq, Status) {
    if !p.pageValid then (q, ErrInvalidParam)
    else if !p.uarCopy then (q, ErrNoMemory)
    else (Sent(Take(q, UarCopy), p.creation), CreationStatus(p.creation))
  }

  function DbPrepared(q: Rq, p: Plan): (Rq, Status) {
    if !p.dbAlloc then (q, ErrNoMemory)
    else if !p.dbReg then (Take(q, DbRec), ErrUmem)
    else Inited(Take(Take(q, DbRec), DbUmem), p)
  }

  /** adapter::prepare_basic_rq */
  function Prepared(p: Plan): (Rq, Status) {
    if !p.uar then (NEW, ErrAllocUar)
    else if p.page != Ok then (NEW, p.page)
    else if !p.wqAlloc then (NEW, ErrNoMemory)
    else if RegStatus(p.wqSize, p.wqReg) != Ok then (Take(NEW, WqBuf), RegStatus(p.wqSize, p.wqReg))
    else DbPrepared(Take(Take(NEW, WqBuf), WqUmem), p)
  }

  lemma PreparedKeeps(p: Plan)
    ensures Inv(Prepared(p).0)
  {
    hide Inv; hide Clean; hide Take; hide Acquired;
    NewKeeps();
    var q0 := NEW;
    var q1, q2 := Take(q0, WqBuf), Take(Take(q0, WqBuf), WqUmem);
    TakeKeeps(q0, WqBuf);
    TakeKeeps(q1, WqUmem);
    var q3, q4 := Take(q2, DbRec), Take(Take(q2, DbRec), DbUmem);
    TakeKeeps(q2, DbRec);
    TakeKeeps(q3, DbUmem);
    var q5, q6 := Take(q4, UarCopy), Take(Take(q4, UarCopy), Wrapper);
    TakeKeeps(q4, UarCopy);
    TakeKeeps(q5, Wrapper);
    TakeKeeps(q6, Device);
  }

  lemma NewKeeps()
    ensures Inv(NEW) && forall r: Res :: !Acquired(NEW.log, r)
  {
  }

  /** Which steps were reached is what is owned, and success means everything is. */
  lemma PreparedOwns(p: Plan)
    ensures Prepared(p).1 == Ok ==> forall r: Res :: Owns(Prepared(p).0, r)
    ensures Prepared(p).1 == Ok <==>
            && p.uar && p.page == Ok && p.wqAlloc && p.wqSize > 0 && p.wqReg && p.dbAlloc && p.dbReg
            && p.pageValid && p.uarCopy && p.creation == Made
    ensures p.creation == BadStatus && p.uar && p.page == Ok && p.wqAlloc && p.wqSize > 0 && p.wqReg
            && p.dbAlloc && p.dbReg && p.pageValid && p.uarCopy ==>
              Prepared(p).1 == ErrCreate && Owns(Prepared(p).0, Device) && Owns(Prepared(p).0, Wrapper)
  {
    hide Take; hide Owns;
    FullyOwned();
    var q := Take(Take(NEW, WqBuf), WqUmem);
    if RegStatus(p.wqSize, p.wqReg) == Ok && p.dbAlloc && p.dbReg && p.pageValid && p.uarCopy {
      assert Sent(Take(Take(Take(q, DbRec), DbUmem), UarCopy), Made) == Complete();
      assert Sent(Take(Take(Take(q, DbRec), DbUmem), UarCopy), BadStatus) == Complete();
    }
  }

  /** The queue after every step. */
  function Complete(): Rq {
    Take(Take(Take(Take(Take(Take(Take(NEW, WqBuf), WqUmem), DbRec), DbUmem), UarCopy), Wrapper), Device)
  }

  lemma FullyOwned()
    ensures forall r: Res :: Owns(Complete(), r)
  {
  }

  /** One step of a preparation: whether it succeeds, the status if it does not, and what is acquired. */
  datatype Step = Step(ok: bool, fails: Status, gains: seq<Res>)

  /** The whole preparation as a table. */
  function Steps(p: Plan): seq<Step> {
    [Step(p.uar, ErrAllocUar, []),
     Step(p.page == Ok, p.page, []),
     Step(p.wqAlloc, ErrNoMemory, [WqBuf]),
     Step(p.wqSize > 0, ErrOutOfRange, []),
     Step(p.wqReg, ErrUmem, [WqUmem]),
     Step(p.dbAlloc, ErrNoMemory, [DbRec]),
     Step(p.dbReg, ErrUmem, [DbUmem]),
     Step(p.pageValid, ErrInvalidParam, []),
     Step(p.uarCopy, ErrNoMemory, [UarCopy]),
     Step(p.creation != NoId, ErrInvalidId, []),
     Step(p.creation != BadStrides, ErrOutOfRange, []),
     Step(p.creation != NoHandle, ErrCreate, [Wrapper, Device]),
     Step(p.creation != BadStatus, ErrCreate, [])]
  }

  function Acquires(rs: seq<Res>): seq<Event> {
    seq(|rs|, i requires 0 <= i < |rs| => Acquire(rs[i]))
  }

  /** A table is gone through up to the first step that fails. */
  function Through(steps: seq<Step>, log: seq<Event>): (seq<Event>, Status)
    decreases |steps|
  {
    if steps == [] then (log, Ok)
    else if !steps[0].ok then (log, steps[0].fails)
    else Through(steps[1..], log + Acquires(steps[0].gains))
  }

  /** Preparation goes through the table: it acquires what the steps before the first failing one
      acquire, in this order, and returns that step's status. */
  lemma PreparedByTable(p: Plan)
    ensures (Prepared(p).0.log, Prepared(p).1) == Through(Steps(p), [])
  {
    hide Through; hide Take; hide DbPrepared; hide Acquires;
    var q := Take(Take(NEW, WqBuf), WqUmem);
    LogsTaken();
    Early(Steps(p), []);
    DbByTable(p, q);
  }

  lemma DbByTable(p: Plan, q: Rq)
    ensures (DbPrepared(q, p).0.log, DbPrepared(q, p).1) == Through(Steps(p)[5..], q.log)
  {
    hide Through; hide Take; hide Inited; hide Acquires;
    var steps := Steps(p);
    TakenLog(q, DbRec);
    TakenLog(Take(q, DbRec), DbUmem);
    TwoMore(steps, 5, q.log);
    InitByTable(p, Take(Take(q, DbRec), DbUmem));
  }

  lemma InitByTable(p: Plan, q: Rq)
    ensures (Inited(q, p).0.log, Inited(q, p).1) == Through(Steps(p)[7..], q.log)
  {
    hide Through; hide Take; hide Acquires;
    var steps := Steps(p);
    TakenLog(q, UarCopy);
    TakenLog(Take(q, UarCopy), Wrapper);
    TakenLog(Take(Take(q, UarCopy), Wrapper), Device);
    TwoMore(steps, 7, q.log);
    LastFour(steps, p, q.log + [Acquire(UarCopy)]);
  }

  lemma TakenLog(q: Rq, r: Res)
    ensures Take(q, r).log == q.log + [Acquire(r)]
  {
  }

  /** The logs of the queue after its first acquisitions. */
  lemma LogsTaken()
    ensures Take(NEW, WqBuf).log == [Acquire(WqBuf)]
    ensures Take(Take(NEW, WqBuf), WqUmem).log == [Acquire(WqBuf)] + [Acquire(WqUmem)]
  {
  }

  lemma OneThrough(steps: seq<Step>, n: nat, log: seq<Event>)
    requires n < |steps|
    ensures Through(steps[n..], log) ==
            if steps[n].ok then Through(steps[n + 1..], log + Acquires(steps[n].gains)) else (log, steps[n].fails)
  {
    assert steps[n..][1..] == steps[n + 1..];
  }

  lemma Early(steps: seq<Step>, log: seq<Event>)
    requires |steps| == 13 && log == []
    requires steps[0].gains == [] && steps[1].gains == [] && steps[2].gains == [WqBuf] && steps[3].gains == []
    requires steps[4].gains == [WqUmem]
    ensures Through(steps, log) ==
            if !steps[0].ok then ([], steps[0].fails)
            else if !steps[1].ok then ([], steps[1].fails)
            else if !steps[2].ok then ([], steps[2].fails)
            else if !steps[3].ok then ([Acquire(WqBuf)], steps[3].fails)
            else if !steps[4].ok then ([Acquire(WqBuf)], steps[4].fails)
            else Through(steps[5..], [Acquire(WqBuf)] + [Acquire(WqUmem)])
  {
    hide Through;
    assert steps[0..] == steps;
    OneThrough(steps, 0, log);
    assert log + Acquires([]) == log;
    OneThrough(steps, 1, log);
    OneThrough(steps, 2, log);
    var l1 := log + Acquires([WqBuf]);
    assert l1 == [Acquire(WqBuf)] && l1 + Acquires([]) == l1 && Acquires([WqUmem]) == [Acquire(WqUmem)];
    OneThrough(steps, 3, l1);
    OneThrough(steps, 4, l1);
  }

  lemma TwoMore(steps: seq<Step>, n: nat, log: seq<Event>)
    requires n + 1 < |steps| && |steps[n].gains| <= 1 && |steps[n + 1].gains| == 1
    ensures var mid := if steps[n].gains == [] then log else log + [Acquire(steps[n].gains[0])];
            Through(steps[n..], log) ==
            if !steps[n].ok then (log, steps[n].fails)
            else if !steps[n + 1].ok then (mid, steps[n + 1].fails)
            else Through(steps[n + 2..], mid + [Acquire(steps[n + 1].gains[0])])
  {
    hide Through;
    OneThrough(steps, n, log);
    var mid := if steps[n].gains == [] then log else log + [Acquire(steps[n].gains[0])];
    assert log + Acquires(steps[n].gains) == mid;
    OneThrough(steps, n + 1, mid);
    assert Acquires(steps[n + 1].gains) == [Acquire(steps[n + 1].gains[0])];
  }

  lemma LastFour(steps: seq<Step>, p: Plan, log: seq<Event>)
    requires steps == Steps(p)
    ensures Through(steps[9..], log) ==
            (if p.creation == BadStatus || p.creation == Made then log + [Acquire(Wrapper)] + [Acquire(Device)]
             else log, CreationStatus(p.creation))
  {
    hide Through;
    OneThrough(steps, 9, log);
    assert log + Acquires([]) == log;
    OneThrough(steps, 10, log);
    OneThrough(steps, 11, log);
    var l := log + [Acquire(Wrapper)] + [Acquire(Device)];
    assert log + Acquires([Wrapper, Device]) == l && l + Acquires([]) == l;
    OneThrough(steps, 12, l);
    AllThrough(steps, l);
  }

  lemma AllThrough(steps: seq<Step>, log: seq<Event>)
    requires |steps| == 13
    ensures Through(steps[13..], log) == (log, Ok)
  {
  }

  /** What the deletion of a fully prepared queue releases, in this order. */
  lemma DeletedInOrder()
    ensures Deleted(Complete()).log ==
            Complete().log + [Free(Device), Free(UarCopy), Free(WqUmem), Free(DbUmem), Free(WqBuf), Free(DbRec),
                              Free(Wrapper)]
  {
    var q := Complete();
    var q1 := Drop(q, Device);
    var q2 := Drop(q1, UarCopy);
    var q3 := Drop(q2, WqUmem);
    var q4 := Drop(q3, DbUmem);
    var q5 := Drop(q4, WqBuf);
    var q6 := Drop(q5, DbRec);
    assert Owns(q, Device) && Owns(q1, UarCopy) && Owns(q2, WqUmem) && Owns(q3, DbUmem) && Owns(q4, WqBuf);
    assert Owns(q5, DbRec) && Owns(q6, Wrapper);
    assert Deleted(q).log == q.log + [Free(Device)] + [Free(UarCopy)] + [Free(WqUmem)] + [Free(DbUmem)] + [Free(WqBuf)]
                             + [Free(DbRec)] + [Free(Wrapper)];
  }

  predicate AllAcquires(log: seq<Event>) {
    forall i | 0 <= i < |log| :: log[i].Acquire?
  }

  lemma TakeAcquires(q: Rq, r: Res)
    requires AllAcquires(q.log)
    ensures AllAcquires(Take(q, r).log)
  {
  }

  /** Preparation only acquires. */
  lemma PreparedAcquires(p: Plan)
    ensures AllAcquires(Prepared(p).0.log)
  {
    hide Take; hide AllAcquires;
    var q0 := NEW;
    assert AllAcquires(q0.log) by { NothingYet(); }
    var q1, q2 := Take(q0, WqBuf), Take(Take(q0, WqBuf), WqUmem);
    TakeAcquires(q0, WqBuf);
    TakeAcquires(q1, WqUmem);
    var q3, q4 := Take(q2, DbRec), Take(Take(q2, DbRec), DbUmem);
    TakeAcquires(q2, DbRec);
    TakeAcquires(q3, DbUmem);
    var q5, q6 := Take(q4, UarCopy), Take(Take(q4, UarCopy), Wrapper);
    TakeAcquires(q4, UarCopy);
    TakeAcquires(q5, Wrapper);
    TakeAcquires(q6, Device);
  }

  lemma NothingYet()
    ensures AllAcquires(NEW.log)
  {
  }

  /** Whichever step fails, and however often destroy is called before the destructor runs:
      everything acquired is released exactly once, nothing is left, and no release is of
      something still in use. */
  lemma ReleasedExactlyOnce(p: Plan, n: nat, r: Res)
    ensures var q := Deleted(DestroyedTimes(Prepared(p).0, n));
            && (forall x: Res :: !Owns(q, x)) && Clean(q.log)
            && Count(q.log, Acquire(r)) == Count(q.log, Free(r)) <= 1
            && (Owns(Prepared(p).0, r) <==> Count(q.log, Free(r)) == 1)
  {
    hide Prepared; hide Destroyed; hide DestroyedTimes; hide Clean; hide Count; hide HeldAfter;
    var q0 := Prepared(p).0;
    PreparedKeeps(p);
    DestroyedTimesKeeps(q0, n);
    var q1 := DestroyedTimes(q0, n);
    DestroyedKeeps(q1);
    DropKeeps(Destroyed(q1), Wrapper);
    var q := Deleted(q1);
    CleanCounts(q.log, r);
    PreparedCounts(p, r);
    AcquiresStay(q0, n, r);
  }

  /** Preparation releases nothing itself. */
  lemma PreparedCounts(p: Plan, r: Res)
    ensures Count(Prepared(p).0.log, Acquire(r)) == if Owns(Prepared(p).0, r) then 1 else 0
  {
    hide Clean; hide Count; hide HeldAfter;
    PreparedKeeps(p);
    CleanCounts(Prepared(p).0.log, r);
    NoFrees(p, r);
  }

  lemma NoFrees(p: Plan, r: Res)
    ensures Count(Prepared(p).0.log, Free(r)) == 0
  {
    hide Count; hide Prepared;
    PreparedAcquires(p);
    CountAcquired(Prepared(p).0.log, Free(r));
  }

  lemma DropAcquires(q: Rq, r: Res, x: Res)
    ensures Count(Drop(q, r).log, Acquire(x)) == Count(q.log, Acquire(x))
  {
    assert (q.log + [Free(r)])[..|q.log|] == q.log;
  }

  lemma DestroyedAcquires(q: Rq, x: Res)
    ensures Count(Destroyed(q).log, Acquire(x)) == Count(q.log, Acquire(x))
  {
    hide Drop; hide Count;
    var q1 := Drop(q, Device);
    DropAcquires(q, Device, x);
    var q2 := Drop(q1, UarCopy);
    DropAcquires(q1, UarCopy, x);
    var q3 := Drop(q2, WqUmem);
    DropAcquires(q2, WqUmem, x);
    var q4 := Drop(q3, DbUmem);
    DropAcquires(q3, DbUmem, x);
    var q5 := Drop(q4, WqBuf);
    DropAcquires(q4, WqBuf, x);
    DropAcquires(q5, DbRec, x);
  }

  lemma {:induction false} AcquiresStay(q: Rq, n: nat, x: Res)
    ensures Count(Deleted(DestroyedTimes(q, n)).log, Acquire(x)) == Count(q.log, Acquire(x))
    ensures Count(DestroyedTimes(q, n).log, Acquire(x)) == Count(q.log, Acquire(x))
  {
    hide Drop; hide Count; hide Destroyed;
    if n > 0 {
      AcquiresStay(q, n - 1, x);
      DestroyedAcquires(DestroyedTimes(q, n - 1), x);
    }
    DestroyedAcquires(DestroyedTimes(q, n), x);
    DropAcquires(Destroyed(DestroyedTimes(q, n)), Wrapper, x);
  }

  /** The order, said with positions: the device object goes before any deregistration, and every
      deregistration before any buffer. */
  lemma ReleaseOrder(p: Plan, n: nat, i: nat, j: nat)
    requires var log := Deleted(DestroyedTimes(Prepared(p).0, n)).log;
             i < |log| && j < |log| && log[i].Free? && log[j].Free? && GoesBefore(log[i].r, log[j].r)
    ensures i < j
  {
    hide Prepared; hide DestroyedTimes; hide Deleted; hide HeldAfter;
    var q := Deleted(DestroyedTimes(Prepared(p).0, n));
    DeletedClean(p, n);
    var log := q.log;
    if j <= i {
      // At j nothing that goes before log[j] was held, so it was acquired and released before.
      assert EventOk(log[..j], log[j]) && EventOk(log[..i], log[i]);
      LaterHold(log, j, i, log[i].r);
    }
  }

  lemma DeletedClean(p: Plan, n: nat)
    ensures Clean(Deleted(DestroyedTimes(Prepared(p).0, n)).log)
    ensures AcquiresFirst(Deleted(DestroyedTimes(Prepared(p).0, n)).log)
  {
    hide Prepared; hide Destroyed; hide DestroyedTimes; hide Clean; hide HeldAfter; hide AcquiresFirst;
    var q0 := Prepared(p).0;
    PreparedKeeps(p);
    PreparedFirst(p);
    DestroyedTimesKeeps(q0, n);
    DestroyedTimesFirst(q0, n);
    var q1 := DestroyedTimes(q0, n);
    DestroyedKeeps(q1);
    DestroyedFirst(q1);
    DropKeeps(Destroyed(q1), Wrapper);
    DropFirst(Destroyed(q1), Wrapper);
  }

  /** Nothing is acquired any more once something was released. */
  predicate AcquiresFirst(log: seq<Event>) {
    forall i, j | 0 <= i < j < |log| && log[i].Free? :: log[j].Free?
  }

  lemma PreparedFirst(p: Plan)
    ensures AcquiresFirst(Prepared(p).0.log)
  {
    hide Prepared;
    PreparedAcquires(p);
  }

  lemma DropFirst(q: Rq, r: Res)
    requires AcquiresFirst(q.log)
    ensures AcquiresFirst(Drop(q, r).log)
  {
  }

  lemma DestroyedFirst(q: Rq)
    requires AcquiresFirst(q.log)
    ensures AcquiresFirst(Destroyed(q).log)
  {
    hide Drop; hide AcquiresFirst;
    var q1 := Drop(q, Device);
    DropFirst(q, Device);
    var q2 := Drop(q1, UarCopy);
    DropFirst(q1, UarCopy);
    var q3 := Drop(q2, WqUmem);
    DropFirst(q2, WqUmem);
    var q4 := Drop(q3, DbUmem);
    DropFirst(q3, DbUmem);
    var q5 := Drop(q4, WqBuf);
    DropFirst(q4, WqBuf);
    DropFirst(q5, DbRec);
  }

  lemma {:induction false} DestroyedTimesFirst(q: Rq, n: nat)
    requires AcquiresFirst(q.log)
    ensures AcquiresFirst(DestroyedTimes(q, n).log)
  {
    hide AcquiresFirst; hide Destroyed;
    if n > 0 {
      DestroyedTimesFirst(q, n - 1);
      DestroyedFirst(DestroyedTimes(q, n - 1));
    }
  }

  /** What is held later, with nothing acquired in between, was held before. */
  lemma {:induction false} LaterHold(log: seq<Event>, j: nat, i: nat, r: Res)
    requires AcquiresFirst(log) && j <= i <= |log| && j < |log| && log[j].Free? && HeldAfter(log[..i], r)
    ensures HeldAfter(log[..j], r)
    decreases i
  {
    if j < i {
      var l := log[..i];
      assert l[|l| - 1] == log[i - 1] && l[..|l| - 1] == log[..i - 1];
      assert log[i - 1].Free?;
      LaterHold(log, j, i - 1, r);
    }
  }

  /* ---------------------------------------------------------------- the queue, updated in place */

  class BasicRq {
    var handle: bool
    var deviceLive: bool
    var uar: bool
    var wqUmem: bool
    var dbUmem: bool
    var wqBuf: bool
    var dbRec: bool
    var log: seq<Event>

    constructor ()
      ensures View() == NEW && Fine()
    {
      handle, deviceLive, uar, wqUmem, dbUmem, wqBuf, dbRec, log := false, false, false, false, false, false, false, [];
    }

    /** A live device object has a wrapper. */
    predicate Fine()
      reads this
    {
      deviceLive ==> handle
    }

    function View(): Rq
      reads this
    {
      Rq(handle, deviceLive, uar, wqUmem, dbUmem, wqBuf, dbRec, log)
    }

    /** obj::destroy; the wrapper forgets its handle whatever the device answers. */
    method DestroyObj()
      requires Fine()
      modifies this`deviceLive, this`log
      ensures Fine() && !deviceLive && View() == Drop(old(View()), Device)
    {
      if handle {
        if deviceLive {
          log := log + [Free(Device)];
          deviceLive := false;
        }
      }
    }

    /** basic_rq::destroy */
    method Destroy()
      requires Fine()
      modifies this
      ensures Fine() && View() == Destroyed(old(View())) && handle == old(handle) && !deviceLive
    {
      hide Drop;
      DestroyObj();
      FreeUarCopy();
      Deregister();
      FreeMemory();
    }

    method FreeUarCopy()
      modifies this`uar, this`log
      ensures View() == Drop(old(View()), UarCopy)
    {
      if uar {
        log := log + [Free(UarCopy)];
        uar := false;
      }
    }

    /** Deregister the memory of the WQ and of the doorbell record. */
    method Deregister()
      modifies this`wqUmem, this`dbUmem, this`log
      ensures View() == Drop(Drop(old(View()), WqUmem), DbUmem)
    {
      if wqUmem {
        log := log + [Free(WqUmem)];
        wqUmem := false;
      }
      assert View() == Drop(old(View()), WqUmem);
      if dbUmem {
        log := log + [Free(DbUmem)];
        dbUmem := false;
      }
    }

    /** Free the WQ buffer and the doorbell record. */
    method FreeMemory()
      modifies this`wqBuf, this`dbRec, this`log
      ensures View() == Drop(Drop(old(View()), WqBuf), DbRec)
    {
      if wqBuf {
        log := log + [Free(WqBuf)];
        wqBuf := false;
      }
      assert View() == Drop(old(View()), WqBuf);
      if dbRec {
        log := log + [Free(DbRec)];
        dbRec := false;
      }
    }

    /** ~basic_rq, then ~obj deleting the wrapper, whose own destructor destroys again. */
    method Delete()
      requires Fine()
      modifies this
      ensures Fine() && View() == Deleted(old(View()))
    {
      hide Destroyed;
      Destroy();
      if handle {
        DestroyObj();
        log := log + [Free(Wrapper)];
        handle := false;
      }
    }

    /** obj::create as reached from the two create() methods */
    method CreateObj(c: Creation) returns (st: Status)
      requires !handle && !deviceLive
      modifies this`handle, this`deviceLive, this`log
      ensures Fine() && View() == Sent(old(View()), c) && st == CreationStatus(c)
    {
      if c == NoId {
        return ErrInvalidId;
      }
      if c == BadStrides {
        return ErrOutOfRange;
      }
      if c != NoHandle {
        handle := true;
        log := log + [Acquire(Wrapper)];
        assert View() == Take(old(View()), Wrapper);
        deviceLive := true;
        log := log + [Acquire(Device)];
      }
      if !handle || c == BadStatus {
        return ErrCreate;
      }
      return Ok;
    }

    /** basic_rq::init */
    method Init(p: Plan) returns (st: Status)
      requires Fine() && !handle && !uar
      modifies this
      ensures Fine() && (View(), st) == Inited(old(View()), p)
    {
      if !p.pageValid {
        return ErrInvalidParam;
      }
      if !p.uarCopy {
        return ErrNoMemory;
      }
      uar := true;
      log := log + [Acquire(UarCopy)];
      assert View() == Take(old(View()), UarCopy);
      st := CreateObj(p.creation);
    }

    /** adapter::prepare_basic_rq */
    method Prepare(p: Plan) returns (st: Status)
      requires Fine() && View() == NEW
      modifies this
      ensures Fine() && (View(), st) == Prepared(p)
    {
      hide DbPrepared;
      if !p.uar {
        return ErrAllocUar;
      }
      if p.page != Ok {
        return p.page;
      }
      if !p.wqAlloc {
        return ErrNoMemory;
      }
      wqBuf := true;
      log := log + [Acquire(WqBuf)];
      assert View() == Take(NEW, WqBuf);
      if p.wqSize == 0 {
        return ErrOutOfRange;
      }
      if !p.wqReg {
        return ErrUmem;
      }
      wqUmem := true;
      log := log + [Acquire(WqUmem)];
      assert View() == Take(Take(NEW, WqBuf), WqUmem);
      st := PrepareDb(p);
    }

    /** The doorbell half of prepare_basic_rq, and init. */
    method PrepareDb(p: Plan) returns (st: Status)
      requires Fine() && !handle && !uar
      modifies this
      ensures Fine() && (View(), st) == DbPrepared(old(View()), p)
    {
      hide Inited;
      if !p.dbAlloc {
        return ErrNoMemory;
      }
      dbRec := true;
      log := log + [Acquire(DbRec)];
      assert View() == Take(old(View()), DbRec);
      if !p.dbReg {
        return ErrUmem;
      }
      dbUmem := true;
      log := log + [Acquire(DbUmem)];
      assert View() == Take(Take(old(View()), DbRec), DbUmem);
      st := Init(p);
    }
  }

  /** What create_striding_rq and create_regular_rq allocate first: the UAR pool, when there is
      none yet, and the queue object. */
  datatype Setup = Setup(poolExists: bool, poolMemory: bool, queueMemory: bool)

  predicate Allocates(u: Setup) {
    (u.poolExists || u.poolMemory) && u.queueMemory
  }

  /** create_striding_rq and create_regular_rq: a queue that could not be prepared is deleted. */
  method CreateRq(u: Setup, p: Plan) returns (st: Status, rq: BasicRq?)
    ensures st == if Allocates(u) then Prepared(p).1 else ErrNoMemory
    ensures rq != null <==> Allocates(u)
    ensures rq != null ==> fresh(rq) && rq.Fine()
    ensures rq != null ==> rq.View() == if st == Ok then Prepared(p).0 else Deleted(Prepared(p).0)
  {
    if !u.poolExists {
      if !u.poolMemory {
        return ErrNoMemory, null;
      }
    }
    if !u.queueMemory {
      return ErrNoMemory, null;
    }
    rq := new BasicRq();
    st := rq.Prepare(p);
    if st != Ok {
      rq.Delete();
    }
  }

  /** A whole life: creation, any number of explicit destroys when it succeeded, deletion. */
  method Live(u: Setup, p: Plan, n: nat) returns (log: seq<Event>)
    ensures forall r: Res :: Count(log, Acquire(r)) == Count(log, Free(r)) <= 1
    ensures Clean(log)
    ensures !Allocates(u) ==> log == []
  {
    hide Prepared; hide Destroyed; hide Clean; hide Deleted;
    var st, rq := CreateRq(u, p);
    if rq == null {
      NothingClean();
      return [];
    }
    hide Count;
    ghost var q := Prepared(p).0;
    var times := 0;
    if st == Ok {
      while times < n
        invariant rq.Fine() && rq.View() == DestroyedTimes(q, times) && times <= n
      {
        rq.Destroy();
        times := times + 1;
      }
      rq.Delete();
    }
    log := rq.log;
    forall r: Res ensures Count(log, Acquire(r)) == Count(log, Free(r)) <= 1 {
      ReleasedExactlyOnce(p, times, r);
    }
    ReleasedExactlyOnce(p, times, Device);
  }

  lemma NothingClean()
    ensures Clean([])
  {
  }
}
