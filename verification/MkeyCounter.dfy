/** The memory-key counter: every key creation takes a ticket from one atomic counter.

    A thread loads the counter, tries to swap it for its successor, and on failure (which hands it
    the counter's current value) tries again only while that value is below the counter. Threads
    interleave between these atomic steps. */
module MkeyCounter {
  import opened Bits

  type Thread = nat

  datatype Pc =
    | Idle
    | Loaded(local: int)
    | SwapFailed(local: int)

  /** A ticket handed out, and the counter's value when the thread left the loop. */
  datatype Issue = Issue(ticket: int, reserved: bool, counter: int)

  datatype State = State(counter: int, pcs: map<Thread, Pc>, log: seq<Issue>)

  datatype Step =
    | Load(t: Thread)
    | Swap(t: Thread)
    | Recheck(t: Thread)
    | Reset

  function PcOf(s: State, t: Thread): Pc {
    if t in s.pcs then s.pcs[t] else Idle
  }

  /** One atomic step; a thread that is not at that point of the loop does not move. */
  function Next(s: State, step: Step): State {
    match step
    case Load(t) =>
      if PcOf(s, t).Idle? then s.(pcs := s.pcs[t := Loaded(s.counter)]) else s
    case Swap(t) =>
      var pc := PcOf(s, t);
      if !pc.Loaded? then s
      else if pc.local == s.counter then
        State(s.counter + 1, s.pcs[t := Idle], s.log + [Issue(pc.local, true, s.counter + 1)])
      else s.(pcs := s.pcs[t := SwapFailed(s.counter)])
    case Recheck(t) =>
      var pc := PcOf(s, t);
      if !pc.SwapFailed? then s
      else if pc.local < s.counter then s.(pcs := s.pcs[t := Loaded(pc.local)])
      else s.(pcs := s.pcs[t := Idle], log := s.log + [Issue(pc.local, false, s.counter)])
    case Reset => s.(counter := 0)
  }

  function Run(s: State, steps: seq<Step>): State {
    if steps == [] then s else Next(Run(s, steps[..|steps| - 1]), steps[|steps| - 1])
  }

  const INIT := State(0, map[], [])

  predicate NoReset(steps: seq<Step>) {
    forall i | 0 <= i < |steps| :: !steps[i].Reset?
  }

  /* ---------------------------------------------------------------- what the loop does */

  /** Was the step taken by this thread? */
  predicate By(step: Step, t: Thread) {
    !step.Reset? && step.t == t
  }

  /** A thread enters the loop by its own load, with the counter's value, and leaves it exactly at its
      own step that hands out a ticket, which is the value it holds. Nobody else moves, and nobody
      leaves empty-handed. */
  lemma InAndOut(s: State, step: Step, t: Thread)
    ensures var s' := Next(s, step);
            && (PcOf(s, t).Idle? ==>
                  PcOf(s', t) == (if step == Load(t) then Loaded(s.counter) else Idle)
                  && (By(step, t) ==> s'.log == s.log && s'.counter == s.counter))
            && (!PcOf(s, t).Idle? ==>
                  (PcOf(s', t).Idle? <==> By(step, t) && s'.log != s.log))
            && (By(step, t) && s'.log != s.log ==>
                  |s'.log| == |s.log| + 1 && s'.log[..|s.log|] == s.log
                  && !PcOf(s, t).Idle? && s'.log[|s.log|].ticket == PcOf(s, t).local)
            && (!By(step, t) ==> PcOf(s', t) == PcOf(s, t))
  {
  }

  /** A swap with the counter's value takes the ticket and counts up; any other one fails, brings back
      the counter's value and changes nothing. */
  lemma SwapOutcome(s: State, t: Thread)
    requires PcOf(s, t).Loaded?
    ensures var s' := Next(s, Swap(t));
            if PcOf(s, t).local == s.counter then s'.counter == s.counter + 1 && s'.log != s.log && PcOf(s', t).Idle?
            else s'.counter == s.counter && s'.log == s.log && PcOf(s', t) == SwapFailed(s.counter)
  {
  }

  /** After a failed swap the thread goes round again exactly when the value it was given is below the
      counter, and the next swap is made with that value; otherwise it leaves with it. Only a
      successful swap and a reset touch the counter. */
  lemma RetryExactly(s: State, t: Thread)
    requires PcOf(s, t).SwapFailed?
    ensures var v, s' := PcOf(s, t).local, Next(s, Recheck(t));
            && s'.counter == s.counter
            && (v < s.counter <==> PcOf(s', t) == Loaded(v)) && (v < s.counter <==> s'.log == s.log)
            && (v >= s.counter <==> PcOf(s', t).Idle?)
            && (v >= s.counter <==> s'.log == s.log + [Issue(v, false, s.counter)])
  {
  }

  /** A thread only moves at its own point of the loop. */
  lemma OutOfTurn(s: State, step: Step)
    requires !step.Reset?
    requires match step { case Load(t) => !PcOf(s, t).Idle?
                          case Swap(t) => !PcOf(s, t).Loaded?
                          case Recheck(t) => !PcOf(s, t).SwapFailed? }
    ensures Next(s, step) == s
  {
  }

  predicate NoneBy(steps: seq<Step>, t: Thread) {
    forall i | 0 <= i < |steps| :: !By(steps[i], t)
  }

  /** Whatever the others do meanwhile, resets included, a thread that goes round again swaps next with
      exactly the value its failed swap gave it. */
  lemma {:induction false} RetriesWithItsValue(s: State, t: Thread, others: seq<Step>)
    requires PcOf(s, t).SwapFailed? && PcOf(s, t).local < s.counter && NoneBy(others, t)
    ensures var v, u := PcOf(s, t).local, Run(Next(s, Recheck(t)), others);
            && PcOf(u, t) == Loaded(v)
            && (Next(u, Swap(t)).counter == u.counter + 1 <==> u.counter == v)
            && (u.counter == v ==> Next(u, Swap(t)).log == u.log + [Issue(v, true, v + 1)])
    decreases |others|
  {
    if others != [] {
      var n := |others| - 1;
      assert NoneBy(others[..n], t);
      RetriesWithItsValue(s, t, others[..n]);
      InAndOut(Run(Next(s, Recheck(t)), others[..n]), others[n], t);
    }
  }

  /** The threads in the loop. */
  function Busy(s: State): set<Thread> {
    set t | t in s.pcs && !s.pcs[t].Idle?
  }

  /** The loads of a run that took effect: those of a thread outside the loop. */
  function Entries(s: State, steps: seq<Step>): nat {
    if steps == [] then 0
    else
      var n := |steps| - 1;
      var u := Run(s, steps[..n]);
      Entries(s, steps[..n]) + (if steps[n].Load? && PcOf(u, steps[n].t).Idle? then 1 else 0)
  }

  /** Over every run, resets included: every creation that entered the loop has its ticket or is still
      in it. */
  lemma {:induction false} NoneLost(steps: seq<Step>)
    ensures Entries(INIT, steps) == |Run(INIT, steps).log| + |Busy(Run(INIT, steps))|
    decreases |steps|
  {
    hide Next; hide Busy;
    if steps == [] {
      assert Busy(INIT) == {} by { NobodyBusy(); }
    } else {
      var n := |steps| - 1;
      NoneLost(steps[..n]);
      BusyStep(Run(INIT, steps[..n]), steps[n]);
    }
  }

  lemma NobodyBusy()
    ensures Busy(INIT) == {}
  {
  }

  lemma BusyStep(s: State, step: Step)
    ensures var s' := Next(s, step);
            |s'.log| + |Busy(s')| == |s.log| + |Busy(s)| + (if step.Load? && PcOf(s, step.t).Idle? then 1 else 0)
  {
    hide Next; hide Busy; hide PcOf;
    BusyAfter(s, step);
    if step.Reset? {
      ResetOnly(s);
    } else {
      InAndOut(s, step, step.t);
      IsBusy(s, step.t);
      if step.t in Busy(s) {
        assert Busy(s) + {step.t} == Busy(s);
      } else {
        assert Busy(s) - {step.t} == Busy(s);
      }
    }
  }

  lemma IsBusy(s: State, t: Thread)
    ensures t in Busy(s) <==> !PcOf(s, t).Idle?
  {
  }

  /** Only the thread that takes the step can join or leave the busy ones. */
  lemma BusyAfter(s: State, step: Step)
    ensures var s' := Next(s, step);
            Busy(s') == if step.Reset? then Busy(s)
                        else if PcOf(s', step.t).Idle? then Busy(s) - {step.t} else Busy(s) + {step.t}
  {
    hide Next; hide Busy; hide PcOf;
    var s' := Next(s, step);
    var after := if step.Reset? then Busy(s)
                 else if PcOf(s', step.t).Idle? then Busy(s) - {step.t} else Busy(s) + {step.t};
    forall t: Thread ensures t in Busy(s') <==> t in after {
      IsBusy(s, t);
      IsBusy(s', t);
      if !By(step, t) { InAndOut(s, step, t); }
    }
  }

  lemma ResetOnly(s: State)
    ensures Next(s, Reset).counter == 0 && Next(s, Reset).log == s.log
  {
  }

  /* ---------------------------------------------------------------- tickets */

  /** How many of the first `n` issues were reserved by a successful swap. */
  function Reserved(log: seq<Issue>, n: nat): nat
    requires n <= |log|
  {
    if n == 0 then 0 else Reserved(log, n - 1) + (if log[n - 1].reserved then 1 else 0)
  }

  /** Every ticket is the number of successful swaps before it. */
  predicate LogInv(log: seq<Issue>) {
    forall i | 0 <= i < |log| ::
      log[i].ticket == Reserved(log, i) && (log[i].reserved || log[i].counter == log[i].ticket)
  }

  /** The counter is the number of successful swaps, and no thread is ahead of it. */
  predicate Inv(s: State) {
    && s.counter == Reserved(s.log, |s.log|)
    && LogInv(s.log)
    && (forall t | t in s.pcs :: s.pcs[t].Idle? || 0 <= s.pcs[t].local <= s.counter)
  }

  lemma {:induction false} ReservedPrefix(log: seq<Issue>, x: Issue, n: nat)
    requires n <= |log|
    ensures Reserved(log + [x], n) == Reserved(log, n)
  {
    if n > 0 { ReservedPrefix(log, x, n - 1); }
  }

  lemma LogAppend(log: seq<Issue>, x: Issue)
    requires LogInv(log) && x.ticket == Reserved(log, |log|) && (x.reserved || x.counter == x.ticket)
    ensures LogInv(log + [x])
    ensures Reserved(log + [x], |log + [x]|) == Reserved(log, |log|) + (if x.reserved then 1 else 0)
  {
    var log' := log + [x];
    ReservedPrefix(log, x, |log|);
    forall i | 0 <= i < |log'|
      ensures log'[i].ticket == Reserved(log', i) && (log'[i].reserved || log'[i].counter == log'[i].ticket)
    {
      ReservedPrefix(log, x, i);
    }
  }

  lemma InvNext(s: State, step: Step)
    requires Inv(s) && !step.Reset?
    ensures Inv(Next(s, step)) && s.counter <= Next(s, step).counter <= s.counter + 1
  {
    hide LogInv; hide Reserved;
    var s' := Next(s, step);
    if |s'.log| != |s.log| {
      LogAppend(s.log, s'.log[|s.log|]);
    }
  }

  /** In every interleaving without a reset the counter is the number of successful swaps. */
  lemma {:induction false} RunInv(steps: seq<Step>)
    requires NoReset(steps)
    ensures Inv(Run(INIT, steps))
    decreases |steps|
  {
    if steps != [] {
      RunInv(steps[..|steps| - 1]);
      InvNext(Run(INIT, steps[..|steps| - 1]), steps[|steps| - 1]);
    }
  }

  /** The counter never goes down. */
  lemma {:induction false} CounterMonotonic(steps: seq<Step>, n: nat)
    requires NoReset(steps) && n <= |steps|
    ensures Run(INIT, steps[..n]).counter <= Run(INIT, steps).counter
    decreases |steps|
  {
    if n == |steps| {
      assert steps[..n] == steps;
    } else {
      var m := |steps| - 1;
      CounterMonotonic(steps[..m], n);
      assert steps[..m][..n] == steps[..n];
      RunInv(steps[..m]);
      InvNext(Run(INIT, steps[..m]), steps[m]);
    }
  }

  lemma {:induction false} ReservedGrows(log: seq<Issue>, i: nat, j: nat)
    requires i <= j <= |log|
    ensures Reserved(log, i) <= Reserved(log, j)
    ensures i < j && log[i].reserved ==> Reserved(log, i) < Reserved(log, j)
    decreases j - i
  {
    if i < j { ReservedGrows(log, i + 1, j); }
  }

  /** Tickets from successful swaps are pairwise distinct, in every interleaving. */
  lemma ReservedDistinct(steps: seq<Step>, i: nat, j: nat)
    requires NoReset(steps)
    requires i < j < |Run(INIT, steps).log|
    requires Run(INIT, steps).log[i].reserved && Run(INIT, steps).log[j].reserved
    ensures Run(INIT, steps).log[i].ticket < Run(INIT, steps).log[j].ticket
  {
    RunInv(steps);
    ReservedGrows(Run(INIT, steps).log, i, j);
  }

  /** A thread that leaves by the second condition holds the counter's current value, and nothing
      stops a later swap from issuing that value again. */
  lemma UnreservedHoldsCounter(steps: seq<Step>, t: Thread)
    requires NoReset(steps)
    ensures var s := Run(INIT, steps);
            var s' := Next(s, Recheck(t));
            |s'.log| > |s.log| ==>
              s'.counter == s.counter && s'.log == s.log + [Issue(s.counter, false, s.counter)]
  {
    RunInv(steps);
  }

  predicate AllDistinct(log: seq<Issue>) {
    forall i, j | 0 <= i < j < |log| :: log[i].ticket != log[j].ticket
  }

  /** Every issue before the last one was reserved. */
  predicate AllButLastReserved(log: seq<Issue>) {
    forall i | 0 <= i < |log| - 1 :: log[i].reserved
  }

  /** The guard of leaving by the second condition: the swap failed, and the value it brought back
      is not below the counter. */
  predicate LeavesUnreserved(s: State, step: Step) {
    step.Recheck? && PcOf(s, step.t).SwapFailed? && PcOf(s, step.t).local >= s.counter
  }

  /** The step hands out a ticket. */
  predicate Issues(s: State, step: Step) {
    || (step.Swap? && PcOf(s, step.t).Loaded? && PcOf(s, step.t).local == s.counter)
    || LeavesUnreserved(s, step)
  }

  /** Some step of the run left unreserved. */
  predicate SomeUnreserved(steps: seq<Step>) {
    steps != [] &&
    var n := |steps| - 1;
    LeavesUnreserved(Run(INIT, steps[..n]), steps[n]) || SomeUnreserved(steps[..n])
  }

  /** Once a thread has left unreserved, nobody takes a ticket any more. */
  predicate NoneAfterUnreserved(steps: seq<Step>) {
    steps == [] ||
    var n := |steps| - 1;
    NoneAfterUnreserved(steps[..n]) && !(SomeUnreserved(steps[..n]) && Issues(Run(INIT, steps[..n]), steps[n]))
  }

  lemma IssueAppends(s: State, step: Step)
    ensures Issues(s, step) ==>
              && |Next(s, step).log| == |s.log| + 1 && Next(s, step).log[..|s.log|] == s.log
              && Next(s, step).log[|s.log|].reserved == !LeavesUnreserved(s, step)
    ensures !Issues(s, step) ==> Next(s, step).log == s.log
    ensures LeavesUnreserved(s, step) ==> Issues(s, step)
  {
  }

  predicate AllReserved(log: seq<Issue>) {
    forall i | 0 <= i < |log| :: log[i].reserved
  }

  /** The log shows it: an unreserved issue for each such leave, the last issue or not. */
  lemma {:induction false} ReservedExactly(steps: seq<Step>)
    ensures SomeUnreserved(steps) <==> !AllReserved(Run(INIT, steps).log)
    ensures NoneAfterUnreserved(steps) <==> AllButLastReserved(Run(INIT, steps).log)
    decreases |steps|
  {
    hide LeavesUnreserved; hide Issues; hide Next;
    if steps != [] {
      var n := |steps| - 1;
      var s, log := Run(INIT, steps[..n]), Run(INIT, steps).log;
      ReservedExactly(steps[..n]);
      IssueAppends(s, steps[n]);
      if Issues(s, steps[n]) {
        OneMoreIssue(s.log, log);
      }
    }
  }

  lemma OneMoreIssue(log: seq<Issue>, longer: seq<Issue>)
    requires |longer| == |log| + 1 && longer[..|log|] == log
    ensures AllReserved(longer) <==> AllReserved(log) && longer[|log|].reserved
    ensures AllButLastReserved(longer) <==> AllReserved(log)
    ensures AllReserved(log) ==> AllButLastReserved(log)
  {
    assert forall i | 0 <= i < |log| :: longer[i] == log[i];
  }

  /** Tickets are unique exactly when no step takes one after a step at which a thread, its swap
      failed and its value not below the counter, had left unreserved. */
  lemma UniqueExactly(steps: seq<Step>)
    requires NoReset(steps)
    ensures AllDistinct(Run(INIT, steps).log) <==> NoneAfterUnreserved(steps)
  {
    ReservedExactly(steps);
    DistinctIsReserved(steps);
  }

  lemma DistinctIsReserved(steps: seq<Step>)
    requires NoReset(steps)
    ensures AllDistinct(Run(INIT, steps).log) <==> AllButLastReserved(Run(INIT, steps).log)
  {
    RunInv(steps);
    var log := Run(INIT, steps).log;
    if AllButLastReserved(log) {
      forall i, j | 0 <= i < j < |log| ensures log[i].ticket != log[j].ticket {
        ReservedGrows(log, i, j);
      }
    } else {
      var i :| 0 <= i < |log| - 1 && !log[i].reserved;
      assert Reserved(log, i + 1) == Reserved(log, i);
      assert log[i + 1].ticket == log[i].ticket;
    }
  }

  /** Two threads: the first loses its swap, leaves with 1, and the second is then given 1. */
  lemma DuplicateTicket()
    ensures var steps := [Load(1), Load(2), Swap(2), Swap(1), Recheck(1), Load(2), Swap(2)];
            && NoReset(steps)
            && Run(INIT, steps).log == [Issue(0, true, 1), Issue(1, false, 1), Issue(1, true, 2)]
  {
    var s1 := Next(Next(INIT, Load(1)), Load(2));
    var s2 := Next(Next(s1, Swap(2)), Swap(1));
    var s3 := Next(s2, Recheck(1));
    var s4 := Next(Next(s3, Load(2)), Swap(2));
    assert s4.log == [Issue(0, true, 1), Issue(1, false, 1), Issue(1, true, 2)];
    Unroll4(INIT, Load(1), Load(2), Swap(2), Swap(1));
    Unroll3(s2, Recheck(1), Load(2), Swap(2));
    RunConcat(INIT, [Load(1), Load(2), Swap(2), Swap(1)], [Recheck(1), Load(2), Swap(2)]);
    assert [Load(1), Load(2), Swap(2), Swap(1)] + [Recheck(1), Load(2), Swap(2)] ==
           [Load(1), Load(2), Swap(2), Swap(1), Recheck(1), Load(2), Swap(2)];
  }

  lemma {:induction false} RunConcat(s: State, xs: seq<Step>, ys: seq<Step>)
    ensures Run(s, xs + ys) == Run(Run(s, xs), ys)
    decreases |ys|
  {
    if ys == [] {
      assert xs + ys == xs;
    } else {
      assert (xs + ys)[..|xs + ys| - 1] == xs + ys[..|ys| - 1];
      RunConcat(s, xs, ys[..|ys| - 1]);
    }
  }

  lemma Unroll3(s: State, a: Step, b: Step, c: Step)
    ensures Run(s, [a, b, c]) == Next(Next(Next(s, a), b), c)
  {
    hide Next;
    assert [a][..0] == [] && [a, b][..1] == [a] && [a, b, c][..2] == [a, b];
    assert Run(s, [a]) == Next(s, a) && Run(s, [a, b]) == Next(Next(s, a), b);
  }

  lemma Unroll4(s: State, a: Step, b: Step, c: Step, d: Step)
    ensures Run(s, [a, b, c, d]) == Next(Next(Next(Next(s, a), b), c), d)
  {
    hide Next;
    Unroll3(s, a, b, c);
    assert [a, b, c, d][..3] == [a, b, c];
  }

  /** Creations that do not overlap in time. */
  function Serial(ts: seq<Thread>): seq<Step> {
    if ts == [] then [] else Serial(ts[..|ts| - 1]) + [Load(ts[|ts| - 1]), Swap(ts[|ts| - 1])]
  }

  /** Without overlap every creation gets a ticket of its own. */
  lemma {:induction false} SerialUnique(ts: seq<Thread>)
    ensures NoReset(Serial(ts))
    ensures var s := Run(INIT, Serial(ts));
            && s.counter == |s.log| == |ts|
            && (forall t | t in s.pcs :: s.pcs[t].Idle?)
            && (forall i | 0 <= i < |ts| :: s.log[i].ticket == i && s.log[i].reserved)
    decreases |ts|
  {
    if ts != [] {
      var n := |ts| - 1;
      SerialUnique(ts[..n]);
      var s := Run(INIT, Serial(ts[..n]));
      RunConcat(INIT, Serial(ts[..n]), [Load(ts[n]), Swap(ts[n])]);
      assert [Load(ts[n])][..0] == [] && [Load(ts[n]), Swap(ts[n])][..1] == [Load(ts[n])];
      assert Run(s, [Load(ts[n])]) == Next(s, Load(ts[n]));
    }
  }

  /* ---------------------------------------------------------------- counter resets */

  predicate AllIdle(s: State) {
    forall t: Thread | t in s.pcs :: s.pcs[t].Idle?
  }

  /** `s` behaves like `t`, on top of what was issued before. */
  ghost predicate Mimics(s: State, t: State, before: seq<Issue>) {
    s.counter == t.counter && s.log == before + t.log && forall x: Thread :: PcOf(s, x) == PcOf(t, x)
  }

  lemma MimicsNext(s: State, t: State, before: seq<Issue>, step: Step)
    requires Mimics(s, t, before)
    ensures Mimics(Next(s, step), Next(t, step), before)
  {
    if !step.Reset? {
      assert PcOf(s, step.t) == PcOf(t, step.t);
    }
    forall x: Thread ensures PcOf(Next(s, step), x) == PcOf(Next(t, step), x) {
      assert PcOf(s, x) == PcOf(t, x);
    }
  }

  lemma {:induction false} MimicsRun(s: State, t: State, before: seq<Issue>, steps: seq<Step>)
    requires Mimics(s, t, before)
    ensures Mimics(Run(s, steps), Run(t, steps), before)
    decreases |steps|
  {
    hide Mimics; hide Next;
    if steps != [] {
      var n := |steps| - 1;
      MimicsRun(s, t, before, steps[..n]);
      MimicsNext(Run(s, steps[..n]), Run(t, steps[..n]), before, steps[n]);
    }
  }

  /** A reset with no creation under way starts the run all over: whatever follows is issued as if
      nothing had been before. */
  lemma ResetReplays(xs: seq<Step>, ys: seq<Step>)
    requires AllIdle(Run(INIT, xs))
    ensures Run(INIT, xs + [Reset] + ys).log == Run(INIT, xs).log + Run(INIT, ys).log
    ensures AllIdle(Run(INIT, ys)) ==> AllIdle(Run(INIT, xs + [Reset] + ys))
  {
    var s := Run(INIT, xs);
    RunConcat(INIT, xs, [Reset]);
    assert [Reset][..0] == [];
    assert Run(s, [Reset]) == Next(s, Reset);
    RunConcat(INIT, xs + [Reset], ys);
    MimicsRun(Next(s, Reset), INIT, s.log, ys);
    var t, u := Run(INIT, xs + [Reset] + ys), Run(INIT, ys);
    if AllIdle(u) {
      forall x: Thread | x in t.pcs ensures t.pcs[x].Idle? {
        assert PcOf(t, x) == PcOf(u, x);
      }
    }
  }

  /** Runs between resets, put together. */
  function Joined(parts: seq<seq<Step>>): seq<Step>
    requires parts != []
  {
    if |parts| == 1 then parts[0] else Joined(parts[..|parts| - 1]) + [Reset] + parts[|parts| - 1]
  }

  /** Every thread is idle when the run is over. */
  predicate EndsIdle(part: seq<Step>) {
    AllIdle(Run(INIT, part))
  }

  /** No resets inside the parts, and no creation under way at those between them. */
  predicate PartsOk(parts: seq<seq<Step>>) {
    && parts != []
    && (forall i | 0 <= i < |parts| :: NoReset(parts[i]))
    && (forall i | 0 <= i < |parts| - 1 :: EndsIdle(parts[i]))
  }

  predicate IssuesSome(part: seq<Step>) {
    Run(INIT, part).log != []
  }

  /** At most one part issued anything. */
  predicate OneIssues(parts: seq<seq<Step>>) {
    forall i, j | 0 <= i < j < |parts| :: !(IssuesSome(parts[i]) && IssuesSome(parts[j]))
  }

  /** Every part that issues starts over at ticket 0. */
  lemma FirstIsZero(part: seq<Step>)
    requires NoReset(part) && IssuesSome(part)
    ensures Run(INIT, part).log[0].ticket == 0
  {
    RunInv(part);
    assert LogInv(Run(INIT, part).log);
  }

  predicate HasZero(log: seq<Issue>) {
    exists i | 0 <= i < |log| :: log[i].ticket == 0
  }

  /** What the parts put together issued: nothing when none of them did, and otherwise a ticket 0. */
  lemma {:induction false} JoinedIssues(parts: seq<seq<Step>>)
    requires PartsOk(parts)
    ensures EndsIdle(parts[|parts| - 1]) ==> AllIdle(Run(INIT, Joined(parts)))
    ensures if exists i | 0 <= i < |parts| :: IssuesSome(parts[i]) then HasZero(Run(INIT, Joined(parts)).log)
            else Run(INIT, Joined(parts)).log == []
    decreases |parts|
  {
    hide Run; hide NoReset;
    var n := |parts| - 1;
    if n == 0 {
      if IssuesSome(parts[0]) { FirstIsZero(parts[0]); }
    } else {
      var pre := parts[..n];
      assert forall i | 0 <= i < n :: pre[i] == parts[i];
      JoinedIssues(pre);
      ResetReplays(Joined(pre), parts[n]);
      var a: seq<Issue>, b: seq<Issue> := Run(INIT, Joined(pre)).log, Run(INIT, parts[n]).log;
      if IssuesSome(parts[n]) {
        FirstIsZero(parts[n]);
        assert (a + b)[|a|].ticket == 0;
      }
      if HasZero(a) {
        var i :| 0 <= i < |a| && a[i].ticket == 0;
        assert (a + b)[i].ticket == 0;
      }
    }
  }

  /** Over any number of resets, with no creation under way at any of them: tickets stay unique
      exactly when at most one of the runs between the resets issued any, and that run's tickets
      are unique. */
  lemma {:induction false} UniqueAcrossResets(parts: seq<seq<Step>>)
    requires PartsOk(parts)
    ensures AllDistinct(Run(INIT, Joined(parts)).log) <==>
            OneIssues(parts) && forall i | 0 <= i < |parts| :: NoneAfterUnreserved(parts[i])
    decreases |parts|
  {
    hide Run; hide NoneAfterUnreserved; hide AllDistinct; hide IssuesSome;
    var n := |parts| - 1;
    UniqueExactly(parts[n]);
    if n > 0 {
      var pre := parts[..n];
      assert forall i | 0 <= i < n :: pre[i] == parts[i];
      UniqueAcrossResets(pre);
      JoinedIssues(pre);
      ResetReplays(Joined(pre), parts[n]);
      LastIssues(parts);
      DistinctConcat(Run(INIT, Joined(pre)).log, parts[n]);
      assert (forall i | 0 <= i < |parts| :: NoneAfterUnreserved(parts[i])) <==>
             (forall i | 0 <= i < n :: NoneAfterUnreserved(pre[i])) && NoneAfterUnreserved(parts[n]);
    }
  }

  lemma LastIssues(parts: seq<seq<Step>>)
    requires |parts| > 1
    ensures var n := |parts| - 1;
            OneIssues(parts) <==>
              && OneIssues(parts[..n])
              && (IssuesSome(parts[n]) ==> !exists i | 0 <= i < n :: IssuesSome(parts[..n][i]))
  {
    hide IssuesSome;
    var n := |parts| - 1;
    assert forall i | 0 <= i < n :: parts[..n][i] == parts[i];
  }

  lemma DistinctConcat(a: seq<Issue>, part: seq<Step>)
    requires NoReset(part) && (a == [] || HasZero(a))
    ensures AllDistinct(a + Run(INIT, part).log) <==>
            && AllDistinct(a) && AllDistinct(Run(INIT, part).log)
            && (IssuesSome(part) ==> a == [])
  {
    hide Run;
    var b := Run(INIT, part).log;
    var c := a + b;
    if AllDistinct(c) {
      forall i, j | 0 <= i < j < |a| ensures a[i].ticket != a[j].ticket {
        assert c[i] == a[i] && c[j] == a[j];
      }
      forall i, j | 0 <= i < j < |b| ensures b[i].ticket != b[j].ticket {
        assert c[|a| + i] == b[i] && c[|a| + j] == b[j];
      }
    }
    if IssuesSome(part) && a != [] {
      FirstIsZero(part);
      var i :| 0 <= i < |a| && a[i].ticket == 0;
      assert c[i].ticket == c[|a|].ticket;
    }
    if AllDistinct(a) && AllDistinct(b) && (IssuesSome(part) ==> a == []) {
      if a == [] {
        assert c == b;
      } else {
        assert c == a;
      }
    }
  }

  /** One creation on either side of a reset: both get ticket 0. */
  lemma ResetRepeats()
    ensures Run(INIT, [Load(1), Swap(1)] + [Reset] + [Load(1), Swap(1)]).log ==
            [Issue(0, true, 1), Issue(0, true, 1)]
  {
    var xs := [Load(1), Swap(1)];
    assert xs[..1] == [Load(1)] && [Load(1)][..0] == [];
    assert Run(INIT, [Load(1)]) == Next(INIT, Load(1));
    ResetReplays(xs, xs);
  }

  /* ---------------------------------------------------------------- any run at all */

  /** How many swaps of the run succeeded. */
  function Swaps(steps: seq<Step>): nat {
    if steps == [] then 0
    else
      var n := |steps| - 1;
      var s := Run(INIT, steps[..n]);
      Swaps(steps[..n]) + (if Issues(s, steps[n]) && !LeavesUnreserved(s, steps[n]) then 1 else 0)
  }

  /** The value a thread holds. */
  function Local(s: State, t: Thread): int {
    if PcOf(s, t).Idle? then 0 else PcOf(s, t).local
  }

  /** Every step that issues finds nobody gone unreserved before it, and its thread holding the
      number of swaps that succeeded so far: no reset has taken the counter back. */
  predicate EveryIssueFresh(steps: seq<Step>) {
    steps == [] ||
    var n := |steps| - 1;
    var s := Run(INIT, steps[..n]);
    && EveryIssueFresh(steps[..n])
    && (Issues(s, steps[n]) ==> !SomeUnreserved(steps[..n]) && Local(s, steps[n].t) == Swaps(steps[..n]))
  }

  /** With or without resets, neither the counter nor any thread is ahead of the swaps. */
  ghost predicate Behind(s: State, swaps: nat) {
    0 <= s.counter <= swaps && forall t: Thread :: 0 <= Local(s, t) <= swaps
  }

  lemma BehindNext(s: State, step: Step, swaps: nat)
    requires Behind(s, swaps)
    ensures Behind(Next(s, step), swaps + (if Issues(s, step) && !LeavesUnreserved(s, step) then 1 else 0))
  {
    var s' := Next(s, step);
    forall t: Thread ensures 0 <= Local(s', t) <= swaps {
      assert 0 <= Local(s, t) <= swaps;
    }
  }

  lemma {:induction false} RunBehind(steps: seq<Step>)
    ensures Behind(Run(INIT, steps), Swaps(steps))
    decreases |steps|
  {
    hide Behind; hide Next; hide Issues; hide LeavesUnreserved;
    if steps != [] {
      RunBehind(steps[..|steps| - 1]);
      BehindNext(Run(INIT, steps[..|steps| - 1]), steps[|steps| - 1], Swaps(steps[..|steps| - 1]));
    } else {
      NothingBehind();
    }
  }

  lemma NothingBehind()
    ensures Behind(INIT, 0)
  {
  }

  /** Ticket `i` is the `i`th issue, and all but the last were reserved. */
  predicate InOrder(log: seq<Issue>) {
    (forall i | 0 <= i < |log| :: log[i].ticket == i) && AllButLastReserved(log)
  }

  /** An issue more: what it holds decides whether the tickets stay apart. */
  lemma IssueFresh(log: seq<Issue>, x: Issue, swaps: nat)
    requires InOrder(log) && 0 <= x.ticket <= swaps == |log| - (if AllReserved(log) then 0 else 1)
    ensures AllDistinct(log + [x]) <==> AllReserved(log) && x.ticket == swaps
    ensures AllDistinct(log + [x]) ==> InOrder(log + [x])
  {
    var longer := log + [x];
    if x.ticket < |log| {
      assert longer[x.ticket].ticket == longer[|log|].ticket;
    }
    if AllReserved(log) && x.ticket == swaps {
      assert forall i | 0 <= i < |longer| :: longer[i].ticket == i;
    }
  }

  lemma DistinctPrefix(log: seq<Issue>, x: Issue)
    requires AllDistinct(log + [x])
    ensures AllDistinct(log)
  {
    forall i, j | 0 <= i < j < |log| ensures log[i].ticket != log[j].ticket {
      assert (log + [x])[i] == log[i] && (log + [x])[j] == log[j];
    }
  }

  /** What the issuing step hands out is what its thread holds. */
  lemma IssuesLocal(s: State, step: Step)
    requires Issues(s, step)
    ensures !step.Reset?
    ensures Next(s, step).log == s.log + [Next(s, step).log[|s.log|]]
    ensures Next(s, step).log[|s.log|].ticket == Local(s, step.t)
    ensures Next(s, step).log[|s.log|].reserved == !LeavesUnreserved(s, step)
  {
  }

  /** In any run whatever, resets at any point included: tickets are unique exactly when every
      issuing step finds its thread holding the number of successful swaps and nobody gone
      unreserved before. */
  lemma {:induction false} UniqueInAnyRun(steps: seq<Step>)
    ensures AllDistinct(Run(INIT, steps).log) <==> EveryIssueFresh(steps)
    ensures AllDistinct(Run(INIT, steps).log) ==>
              && InOrder(Run(INIT, steps).log)
              && Swaps(steps) == |Run(INIT, steps).log| - (if AllReserved(Run(INIT, steps).log) then 0 else 1)
    decreases |steps|
  {
    hide Next; hide Issues; hide LeavesUnreserved; hide AllDistinct; hide InOrder; hide Local; hide AllReserved;
    if steps == [] {
      NoIssues();
    } else {
      var n := |steps| - 1;
      var s := Run(INIT, steps[..n]);
      UniqueInAnyRun(steps[..n]);
      IssueAppends(s, steps[n]);
      if Issues(s, steps[n]) {
        var x := Next(s, steps[n]).log[|s.log|];
        IssuesLocal(s, steps[n]);
        ReservedExactly(steps[..n]);
        LocalBehind(steps[..n], steps[n].t);
        if AllDistinct(s.log) {
          IssueFresh(s.log, x, Swaps(steps[..n]));
          OneMoreIssue(s.log, s.log + [x]);
        }
        if AllDistinct(s.log + [x]) {
          DistinctPrefix(s.log, x);
        }
      }
    }
  }

  lemma NoIssues()
    ensures AllDistinct([]) && InOrder([]) && AllReserved([])
  {
  }

  lemma LocalBehind(steps: seq<Step>, t: Thread)
    ensures 0 <= Local(Run(INIT, steps), t) <= Swaps(steps)
  {
    hide Run; hide Swaps;
    RunBehind(steps);
  }

  /* ---------------------------------------------------------------- key ids */

  /** A key: the device's 24-bit index above the ticket reduced modulo 255. */
  function KeyId(index: nat, ticket: nat): nat {
    Or(Shl(index, 8), ticket % 0xFF)
  }

  lemma KeyIdValue(index: nat, ticket: nat)
    ensures KeyId(index, ticket) == 0x100 * index + ticket % 0xFF
  {
    Pow2Values();
    ShlIsMul(index, 8);
    OrConcat(index, ticket % 0xFF, 8);
  }

  lemma {:induction false} OrConcat(hi: nat, lo: nat, n: nat)
    requires lo < Pow2(n)
    ensures Or(Shl(hi, n), lo) == Shl(hi, n) + lo
  {
    if n > 0 {
      OrConcat(hi, lo / 2, n - 1);
      assert Shl(hi, n) / 2 == Shl(hi, n - 1);
    }
  }

  /** Two keys collide exactly when the device reused an index and the tickets agree modulo 255. */
  lemma KeyIdsCollide(i: nat, t: nat, j: nat, u: nat)
    ensures KeyId(i, t) == KeyId(j, u) <==> i == j && t % 0xFF == u % 0xFF
  {
    KeyIdValue(i, t);
    KeyIdValue(j, u);
  }
}
