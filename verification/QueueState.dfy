/** The cached state of a receive or send queue against the state the device has it in. */
module QueueState {
  import opened Common

  const RST: u4 := 0x0
  const RDY: u4 := 0x1
  const ERR: u4 := 0x3

  /** Transitions that are refused: reset to error, and error to ready. */
  predicate Forbidden(from: u4, to: u4) {
    (to == ERR && from == RST) || (to == RDY && from == ERR)
  }

  /** A modify command as sent: by which of the two calls, the state the host believed in, the one
      the device was in, and the one that was asked for. */
  datatype Sent = Sent(pacing: bool, cached: u4, device: u4, requested: u4)

  /** How the device takes a modify: refused; or accepted, which moves it to whatever state it
      chooses, with a query that follows answered or not. */
  datatype Reply = Rejected | Accepted(moved: u4, answers: bool)

  /** How far a pacing modify gets before it looks at the queue: the attribute is not a pacing one,
      there is no handle for the rate, or everything is at hand. */
  datatype Preparation = NotPacing | NoHandle | Ready

  /** modify_state of any queue, and modify of a send queue with packet pacing, which asks for ready
      whatever the state and does not query. */
  datatype Op =
    | ModifyState(requested: u4, reply: Reply)
    | Pace(prep: Preparation, reply: Reply)

  /** `id` is what obj::get_id yields; a queue without a usable id cannot be modified. */
  datatype State = State(id: Option<u32>, cache: u4, device: u4, log: seq<Sent>)

  function Init(id: Option<u32>): State {
    State(id, RST, RST, [])
  }

  predicate Usable(s: State) {
    s.id.Some? && s.id.value != 0
  }

  function Wanted(op: Op): u4 {
    if op.Pace? then RDY else op.requested
  }

  /** Does this request reach the device, and does the device take it? */
  predicate Reaches(s: State, op: Op) {
    Usable(s) && if op.Pace? then op.prep.Ready? else !Forbidden(s.cache, op.requested)
  }

  predicate Moves(s: State, op: Op) {
    Reaches(s, op) && op.reply.Accepted?
  }

  /** Is the state that an accepted request led to read back? */
  predicate Queried(op: Op) {
    op.ModifyState? && op.reply.Accepted? && op.reply.answers
  }

  function Logged(s: State, op: Op): State {
    s.(log := s.log + [Sent(op.Pace?, s.cache, s.device, Wanted(op))])
  }

  /** rq::modify_state and sq::modify_state */
  function ModifyStateNext(s: State, requested: u4, reply: Reply): (State, Status) {
    if Forbidden(s.cache, requested) then (s, ErrInvalidParam)
    else if !Usable(s) then (s, ErrInvalidId)
    else
      var t := Logged(s, ModifyState(requested, reply));
      match reply
      case Rejected => (t, ErrModify)
      case Accepted(moved, answers) =>
        var u := t.(device := moved);
        if !answers then (u, ErrQuery)
        else (u.(cache := moved), if requested != moved then ErrModify else Ok)
  }

  /** pp_sq::modify, as far as the state goes */
  function PaceNext(s: State, prep: Preparation, reply: Reply): (State, Status) {
    if prep.NotPacing? then (s, ErrInvalidParam)
    else if prep.NoHandle? then (s, ErrCreate)
    else if !Usable(s) then (s, ErrInvalidId)
    else
      var t := Logged(s, Pace(prep, reply));
      if reply.Rejected? then (t, ErrModify) else (t.(device := reply.moved), Ok)
  }

  function Next(s: State, op: Op): (State, Status) {
    match op
    case ModifyState(requested, reply) => ModifyStateNext(s, requested, reply)
    case Pace(prep, reply) => PaceNext(s, prep, reply)
  }

  function Run(id: Option<u32>, ops: seq<Op>): State {
    if ops == [] then Init(id) else Next(Run(id, ops[..|ops| - 1]), ops[|ops| - 1]).0
  }

  /* ---------------------------------------------------------------- over every run */

  /** What the host believes is forbidden is sent by a pacing modify of a queue believed in error,
      and by nothing else. */
  lemma {:induction false} ForbiddenSentExactly(id: Option<u32>, ops: seq<Op>, i: nat)
    requires i < |Run(id, ops).log|
    ensures var c := Run(id, ops).log[i];
            Forbidden(c.cached, c.requested) <==> c.pacing && c.cached == ERR
  {
    if ops != [] {
      var s := Run(id, ops[..|ops| - 1]);
      if i < |s.log| {
        ForbiddenSentExactly(id, ops[..|ops| - 1], i);
      }
    }
  }

  /** Every status, and what it says about the request. */
  lemma StatusExactly(s: State, op: Op)
    ensures var st := Next(s, op).1;
            && (op.ModifyState? && ((op.requested == 3 && s.cache == 0) || (op.requested == 1 && s.cache == 3)) ==>
                  st == ErrInvalidParam)
            && (op.Pace? && op.prep.NotPacing? ==> st == ErrInvalidParam)
            && (op.Pace? && op.prep.NoHandle? ==> st == ErrCreate)
            && (st == ErrInvalidId <==>
                  && (s.id.None? || s.id.value == 0)
                  && (op.ModifyState? ==> !((op.requested == 3 && s.cache == 0) || (op.requested == 1 && s.cache == 3)))
                  && (op.Pace? ==> op.prep.Ready?))
            && (Reaches(s, op) && op.reply.Rejected? ==> st == ErrModify)
            && (st == ErrQuery <==> Moves(s, op) && op.ModifyState? && !op.reply.answers)
            && (Moves(s, op) && Queried(op) && op.reply.moved != op.requested ==> st == ErrModify)
  {
  }

  /** What call `i` of a run returned. */
  function StatusAt(id: Option<u32>, ops: seq<Op>, i: nat): Status
    requires i < |ops|
  {
    Next(Run(id, ops[..i]), ops[i]).1
  }

  predicate MovesAt(id: Option<u32>, ops: seq<Op>, i: nat)
    requires i < |ops|
  {
    Moves(Run(id, ops[..i]), ops[i])
  }

  /** Success means what it says: in any run, a modify_state succeeds exactly when it was accepted,
      queried and went where it was asked, and a pacing modify exactly when it was accepted; for as
      long as no later call moves the queue, the device is where the call took it, and so is the
      cache after a modify_state, while after a pacing modify it is what it was before. */
  lemma {:induction false} OkMeansReached(id: Option<u32>, ops: seq<Op>, i: nat)
    requires i < |ops|
    ensures StatusAt(id, ops, i) == Ok <==>
            && MovesAt(id, ops, i)
            && (ops[i].ModifyState? ==> ops[i].reply.answers && ops[i].reply.moved == ops[i].requested)
    ensures StatusAt(id, ops, i) == Ok && (forall j | i < j < |ops| :: !MovesAt(id, ops, j)) ==>
              && Run(id, ops).device == ops[i].reply.moved
              && Run(id, ops).cache == if ops[i].ModifyState? then ops[i].requested else Run(id, ops[..i]).cache
    decreases |ops|
  {
    hide Next; hide Moves;
    var n := |ops| - 1;
    var pre := ops[..n];
    Success(Run(id, ops[..i]), ops[i]);
    if i < n {
      assert forall j | 0 <= j < n :: pre[..j] == ops[..j] && pre[j] == ops[j];
      OkMeansReached(id, pre, i);
      if forall j | i < j < |ops| :: !MovesAt(id, ops, j) {
        forall j | i < j < n ensures !MovesAt(id, pre, j) {
          assert !MovesAt(id, ops, j);
        }
        assert !MovesAt(id, ops, n);
        StaysPut(Run(id, pre), ops[n]);
      }
    }
  }

  lemma Success(s: State, op: Op)
    ensures Next(s, op).1 == Ok <==>
            Moves(s, op) && (op.ModifyState? ==> op.reply.answers && op.reply.moved == op.requested)
    ensures Moves(s, op) ==> op.reply.Accepted?
    ensures Next(s, op).1 == Ok ==>
              && Next(s, op).0.device == op.reply.moved
              && Next(s, op).0.cache == if op.ModifyState? then op.requested else s.cache
  {
  }

  lemma StaysPut(s: State, op: Op)
    requires !Moves(s, op)
    ensures Next(s, op).0.cache == s.cache && Next(s, op).0.device == s.device
    ensures Next(s, op).1 != Ok && Next(s, op).1 != ErrQuery
  {
  }

  /** The last move of a run, if any, was made blindly: accepted, and then not queried. */
  predicate BlindMove(id: Option<u32>, ops: seq<Op>) {
    ops != [] &&
    var s, op := Run(id, ops[..|ops| - 1]), ops[|ops| - 1];
    if Moves(s, op) then !Queried(op) else BlindMove(id, ops[..|ops| - 1])
  }

  /** The state the last move took the device to. */
  function LastMoved(id: Option<u32>, ops: seq<Op>): u4 {
    if ops == [] then RST
    else
      var n := |ops| - 1;
      if Moves(Run(id, ops[..n]), ops[n]) then ops[n].reply.moved else LastMoved(id, ops[..n])
  }

  /** The state the last queried move was seen to take it to. */
  function LastSeen(id: Option<u32>, ops: seq<Op>): u4 {
    if ops == [] then RST
    else
      var n := |ops| - 1;
      if Moves(Run(id, ops[..n]), ops[n]) && Queried(ops[n]) then ops[n].reply.moved else LastSeen(id, ops[..n])
  }

  /** Over runs of both calls: cache and device differ exactly when the last move was a blind one, a
      pacing modify or a modify_state whose query failed, and took the device elsewhere than where
      it was last seen. */
  lemma StaleExactly(id: Option<u32>, ops: seq<Op>)
    ensures Run(id, ops).cache != Run(id, ops).device <==>
            BlindMove(id, ops) && LastMoved(id, ops) != LastSeen(id, ops)
  {
    hide Run; hide BlindMove;
    Followed(id, ops);
  }

  lemma {:induction false} Followed(id: Option<u32>, ops: seq<Op>)
    ensures Run(id, ops).device == LastMoved(id, ops) && Run(id, ops).cache == LastSeen(id, ops)
    ensures !BlindMove(id, ops) ==> LastMoved(id, ops) == LastSeen(id, ops)
  {
    if ops != [] {
      Followed(id, ops[..|ops| - 1]);
    }
  }

  /** The blind move itself: the cache is what it was before, the device is where it was moved. */
  lemma {:induction false} BlindMoveAt(id: Option<u32>, ops: seq<Op>) returns (i: nat)
    requires BlindMove(id, ops)
    ensures i < |ops| && Moves(Run(id, ops[..i]), ops[i]) && !Queried(ops[i])
    ensures Run(id, ops).cache == Run(id, ops[..i]).cache && Run(id, ops).device == ops[i].reply.moved
  {
    var n := |ops| - 1;
    if Moves(Run(id, ops[..n]), ops[n]) {
      i := n;
    } else {
      i := BlindMoveAt(id, ops[..n]);
      StaysPut(Run(id, ops[..n]), ops[n]);
      assert ops[..n][..i] == ops[..i];
    }
  }

  /** The request is forbidden from where the device was moved unseen; or it is a pacing one, which
      nothing guards, for a queue that was seen to be in error. */
  predicate Misses(id: Option<u32>, ops: seq<Op>, op: Op) {
    || (BlindMove(id, ops) && Forbidden(LastMoved(id, ops), Wanted(op)))
    || (op.Pace? && !BlindMove(id, ops) && LastSeen(id, ops) == ERR)
  }

  /** For any run and any request that reaches the device: it asks for a forbidden transition exactly
      when it so misses the queue's state. */
  lemma AskedForbiddenExactly(id: Option<u32>, ops: seq<Op>, op: Op)
    requires Reaches(Run(id, ops), op)
    ensures Forbidden(Run(id, ops).device, Wanted(op)) <==> Misses(id, ops, op)
  {
    hide Run; hide BlindMove;
    Followed(id, ops);
  }

  /** The other way to be wrong: for any run and request, the guard refuses what the device would
      have allowed exactly when the last move was a blind one and leads the two to differ on it. */
  lemma RefusedAllowedExactly(id: Option<u32>, ops: seq<Op>, requested: u4)
    ensures Forbidden(Run(id, ops).cache, requested) && !Forbidden(Run(id, ops).device, requested) <==>
            && BlindMove(id, ops)
            && Forbidden(LastSeen(id, ops), requested) && !Forbidden(LastMoved(id, ops), requested)
  {
    hide Run; hide BlindMove;
    Followed(id, ops);
  }

  /** Call `j` reaches the device and asks amiss. */
  predicate AsksBlindly(id: Option<u32>, ops: seq<Op>, j: nat)
    requires j < |ops|
  {
    Reaches(Run(id, ops[..j]), ops[j]) && Misses(id, ops[..j], ops[j])
  }

  predicate LogForbidden(log: seq<Sent>) {
    exists i | 0 <= i < |log| :: Forbidden(log[i].device, log[i].requested)
  }

  lemma LogStep(s: State, op: Op)
    ensures Next(s, op).0.log ==
            if Reaches(s, op) then s.log + [Sent(op.Pace?, s.cache, s.device, Wanted(op))] else s.log
  {
  }

  /** Over every run: the device is asked for a forbidden transition exactly when some call asks
      amiss. */
  lemma {:induction false} DeviceAskedExactly(id: Option<u32>, ops: seq<Op>)
    ensures LogForbidden(Run(id, ops).log) <==> exists j | 0 <= j < |ops| :: AsksBlindly(id, ops, j)
    decreases |ops|
  {
    hide Forbidden; hide Misses; hide Next; hide Reaches;
    if ops != [] {
      var n := |ops| - 1;
      var pre := ops[..n];
      var s, log := Run(id, pre), Run(id, ops).log;
      LogStep(s, ops[n]);
      assert forall j | 0 <= j < n :: pre[..j] == ops[..j] && pre[j] == ops[j];
      DeviceAskedExactly(id, pre);
      if Reaches(s, ops[n]) {
        AskedForbiddenExactly(id, pre, ops[n]);
      }
      if LogForbidden(log) {
        var i :| 0 <= i < |log| && Forbidden(log[i].device, log[i].requested);
        if i < |s.log| {
          assert Forbidden(s.log[i].device, s.log[i].requested);
          var j :| 0 <= j < n && AsksBlindly(id, pre, j);
          assert AsksBlindly(id, ops, j);
        } else {
          assert AsksBlindly(id, ops, n);
        }
      }
      if j :| 0 <= j < |ops| && AsksBlindly(id, ops, j) {
        if j < n {
          assert AsksBlindly(id, pre, j);
          var i :| 0 <= i < |s.log| && Forbidden(s.log[i].device, s.log[i].requested);
          assert Forbidden(log[i].device, log[i].requested);
        } else {
          assert Forbidden(log[|s.log|].device, log[|s.log|].requested);
        }
      }
    }
  }

  /** Call `i` looks to its caller like a move nobody saw: a query error, or a pacing modify that
      succeeded. */
  predicate Unseen(id: Option<u32>, ops: seq<Op>, i: nat)
    requires i < |ops|
  {
    StatusAt(id, ops, i) == ErrQuery || (ops[i].Pace? && StatusAt(id, ops, i) == Ok)
  }

  /** What a caller sees of a blind move: such a call, and neither a success nor a query error
      since. */
  lemma {:induction false} BlindMoveShows(id: Option<u32>, ops: seq<Op>) returns (i: nat)
    requires BlindMove(id, ops)
    ensures i < |ops| && Unseen(id, ops, i)
    ensures forall j | i < j < |ops| :: StatusAt(id, ops, j) != Ok && StatusAt(id, ops, j) != ErrQuery
  {
    var n := |ops| - 1;
    if Moves(Run(id, ops[..n]), ops[n]) {
      i := n;
    } else {
      i := BlindMoveShows(id, ops[..n]);
      forall j | i < j < |ops| ensures StatusAt(id, ops, j) != Ok && StatusAt(id, ops, j) != ErrQuery {
        if j < n {
          assert ops[..n][..j] == ops[..j];
          assert StatusAt(id, ops[..n], j) != Ok && StatusAt(id, ops[..n], j) != ErrQuery;
        } else {
          StaysPut(Run(id, ops[..n]), ops[n]);
        }
      }
      assert ops[..n][..i] == ops[..i];
    }
  }

  /** No call returned a query error, and no pacing modify got to the device. */
  predicate AlwaysSeen(id: Option<u32>, ops: seq<Op>) {
    forall i | 0 <= i < |ops| ::
      && StatusAt(id, ops, i) != ErrQuery
      && (ops[i].Pace? ==> StatusAt(id, ops, i) != Ok && StatusAt(id, ops, i) != ErrModify)
  }

  /** As long as that is so, the device itself is never asked for a forbidden transition. */
  lemma DeviceNeverAsked(id: Option<u32>, ops: seq<Op>, i: nat)
    requires AlwaysSeen(id, ops) && i < |Run(id, ops).log|
    ensures !Forbidden(Run(id, ops).log[i].device, Run(id, ops).log[i].requested)
  {
    hide Forbidden; hide Run; hide BlindMove; hide AlwaysSeen;
    DeviceAskedExactly(id, ops);
    if j :| 0 <= j < |ops| && AsksBlindly(id, ops, j) {
      if BlindMove(id, ops[..j]) {
        BlindMoveSeen(id, ops, j);
      } else {
        PacingSeen(id, ops, j);
      }
    }
  }

  lemma BlindMoveSeen(id: Option<u32>, ops: seq<Op>, j: nat)
    requires j <= |ops| && BlindMove(id, ops[..j])
    ensures !AlwaysSeen(id, ops)
  {
    hide Run; hide BlindMove; hide Next;
    var k := BlindMoveShows(id, ops[..j]);
    assert ops[..j][..k] == ops[..k];
    assert Unseen(id, ops, k);
  }

  lemma PacingSeen(id: Option<u32>, ops: seq<Op>, j: nat)
    requires j < |ops| && ops[j].Pace? && Reaches(Run(id, ops[..j]), ops[j])
    ensures !AlwaysSeen(id, ops)
  {
    hide Run;
    assert StatusAt(id, ops, j) == Ok || StatusAt(id, ops, j) == ErrModify;
  }

  /** An accepted call of either kind that nobody sees move the queue. */
  function Blind(asked: Option<u4>, moved: u4): Op {
    if asked.Some? then ModifyState(asked.value, Accepted(moved, false)) else Pace(Ready, Accepted(moved, false))
  }

  /** After one it can be: whichever call it was and whatever it asked for, there is a state the
      device may have gone to unseen from which a ready or an error request that passes the guard is
      forbidden. */
  lemma UnseenMove(id: Option<u32>, ops: seq<Op>, asked: Option<u4>, requested: u4, reply: Reply)
    requires Reaches(Run(id, ops), Blind(asked, RST))
    requires Reaches(Run(id, ops), ModifyState(requested, reply)) && (requested == RDY || requested == ERR)
    ensures exists moved: u4 ::
              && Reaches(Run(id, ops + [Blind(asked, moved)]), ModifyState(requested, reply))
              && Forbidden(Run(id, ops + [Blind(asked, moved)]).device, requested)
  {
    var moved: u4 := if requested == RDY then ERR else RST;
    var op := Blind(asked, moved);
    assert (ops + [op])[..|ops|] == ops;
    assert Run(id, ops + [op]) == Next(Run(id, ops), op).0;
  }

  /** A queue that fell into error unseen is asked for ready. */
  lemma BlindlyAsked(id: u32)
    requires id != 0
    ensures var ops := [ModifyState(RDY, Accepted(ERR, false)), ModifyState(RDY, Rejected)];
            var log := Run(Some(id), ops).log;
            |log| == 2 && Forbidden(log[1].device, log[1].requested)
  {
    var a, b := ModifyState(RDY, Accepted(ERR, false)), ModifyState(RDY, Rejected);
    assert [a, b][..1] == [a] && [a][..0] == [];
    assert Run(Some(id), []) == Init(Some(id));
    assert Run(Some(id), [a]) == Next(Init(Some(id)), a).0;
  }

  /** A new queue is set to ready by a pacing modify, and then cannot be set to error: the cache still
      says reset. */
  lemma PacedIsRefused(id: u32, answers: bool, reply: Reply)
    requires id != 0
    ensures var s := Run(Some(id), [Pace(Ready, Accepted(RDY, answers))]);
            && s.cache == RST && s.device == RDY && !Forbidden(s.device, ERR)
            && Next(s, ModifyState(ERR, reply)) == (s, ErrInvalidParam)
  {
    var a := Pace(Ready, Accepted(RDY, answers));
    assert [a][..0] == [];
    assert Run(Some(id), []) == Init(Some(id));
    assert Run(Some(id), [a]) == Next(Init(Some(id)), a).0;
  }

  /* ---------------------------------------------------------------- the queue, updated in place */

  class Queue {
    const id: Option<u32>
    var state: u4
    var device: u4
    var log: seq<Sent>

    constructor (id: Option<u32>)
      ensures View() == Init(id)
    {
      this.id, state, device, log := id, RST, RST, [];
    }

    function View(): State
      reads this
    {
      State(id, state, device, log)
    }

    /** rq::modify_state and sq::modify_state */
    method ModifyState(requested: u4, reply: Reply) returns (st: Status)
      modifies this
      ensures (View(), st) == Next(old(View()), Op.ModifyState(requested, reply))
    {
      if (requested == ERR && state == RST) || (requested == RDY && state == ERR) {
        return ErrInvalidParam;
      }
      if id.None? || id.value == 0 {
        return ErrInvalidId;
      }
      log := log + [Sent(false, state, device, requested)];
      if reply.Rejected? {
        return ErrModify;
      }
      device := reply.moved;
      if !reply.answers {
        return ErrQuery;
      }
      state := device;
      if requested != state {
        return ErrModify;
      }
      return Ok;
    }

    /** pp_sq::modify, as far as the state goes */
    method Modify(prep: Preparation, reply: Reply) returns (st: Status)
      modifies this
      ensures (View(), st) == Next(old(View()), Pace(prep, reply))
    {
      match prep {
        case NotPacing =>
          return ErrInvalidParam;
        case NoHandle =>
          return ErrCreate;
        case Ready =>
      }
      if id.None? || id.value == 0 {
        return ErrInvalidId;
      }
      log := log + [Sent(true, state, device, RDY)];
      if reply.Rejected? {
        return ErrModify;
      }
      device := reply.moved;
      return Ok;
    }
  }
}
