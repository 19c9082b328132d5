/** uar_collection: doorbell pages (UARs) shared by queues or held exclusively by one.

    The exclusive UARs live in a multimap keyed by owner, in which the null key lists the free
    ones. Taking a free UAR erases the null key, and with it every other free UAR: those are
    `dropped`, neither held nor reusable. */
module UarPool {
  import opened Common

  /** An owner's address; 0 is the null pointer. */
  type Key = nat
  type Uar = nat

  datatype Pool = Pool(held: map<Key, Uar>, free: set<Uar>, dropped: set<Uar>,
                       sharers: seq<Key>, shared: Option<Uar>)

  const EMPTY := Pool(map[], {}, {}, [], None)

  /** Every UAR ever allocated for exclusive use. */
  function Exclusive(p: Pool): set<Uar> {
    p.held.Values + p.free + p.dropped
  }

  predicate Unused(p: Pool, u: Uar) {
    u !in Exclusive(p) && p.shared != Some(u)
  }

  predicate NoDuplicates(keys: seq<Key>) {
    forall i, j | 0 <= i < j < |keys| :: keys[i] != keys[j]
  }

  predicate Injective(held: map<Key, Uar>) {
    forall k, k' | k in held && k' in held && k != k' :: held[k] != held[k']
  }

  predicate PoolInv(p: Pool) {
    && 0 !in p.held && 0 !in p.sharers
    && Injective(p.held)
    && p.held.Values !! p.free && p.held.Values !! p.dropped && p.free !! p.dropped
    && (p.shared.Some? ==> p.shared.value !in Exclusive(p))
    && NoDuplicates(p.sharers)
    && (p.sharers != [] ==> p.shared.Some?)
  }

  /* ---------------------------------------------------------------- operations */

  /** `reply` is what an allocation returns, `pick` the free UAR a multimap lookup would find. */
  datatype Op =
    | GetShared(key: Key, reply: Option<Uar>)
    | GetExclusive(key: Key, reply: Option<Uar>, pick: Uar)
    | Release(key: Key)

  predicate Enabled(p: Pool, op: Op) {
    match op
    case GetShared(_, reply) => reply.Some? ==> Unused(p, reply.value)
    case GetExclusive(_, reply, pick) => (reply.Some? ==> Unused(p, reply.value)) && (p.free != {} ==> pick in p.free)
    case Release(_) => true
  }

  /** The operation takes a UAR from the free ones. */
  predicate Reuses(p: Pool, op: Op) {
    op.GetExclusive? && op.key != 0 && op.key !in p.held && p.free != {}
  }

  function WithoutKey(keys: seq<Key>, key: Key): seq<Key> {
    if keys == [] then []
    else if keys[0] == key then WithoutKey(keys[1..], key)
    else [keys[0]] + WithoutKey(keys[1..], key)
  }

  function AddSharer(p: Pool, key: Key): Pool {
    if key in p.sharers then p else p.(sharers := p.sharers + [key])
  }

  function Next(p: Pool, op: Op): Pool {
    match op
    case GetShared(key, reply) =>
      if key == 0 then p
      else if p.shared.Some? then AddSharer(p, key)
      else if reply.None? then p
      else p.(shared := reply, sharers := p.sharers + [key])
    case GetExclusive(key, reply, pick) =>
      if key == 0 || key in p.held then p
      else if p.free != {} then
        Pool(p.held[key := pick], {}, p.dropped + (p.free - {pick}), p.sharers, p.shared)
      else if reply.None? then p
      else p.(held := p.held[key := reply.value])
    case Release(key) =>
      if key == 0 then p
      else if key in p.sharers then p.(sharers := WithoutKey(p.sharers, key))
      else if key in p.held then p.(held := p.held - {key}, free := p.free + {p.held[key]})
      else p
  }

  function Run(ops: seq<Op>): Pool {
    if ops == [] then EMPTY else Next(Run(ops[..|ops| - 1]), ops[|ops| - 1])
  }

  predicate IsRun(ops: seq<Op>) {
    forall i | 0 <= i < |ops| :: Enabled(Run(ops[..i]), ops[i])
  }

  /* ---------------------------------------------------------------- every run */

  lemma {:induction false} WithoutKeyMembers(keys: seq<Key>, key: Key)
    ensures forall k :: k in WithoutKey(keys, key) <==> k in keys && k != key
  {
    if keys != [] {
      WithoutKeyMembers(keys[1..], key);
      assert forall k :: k in keys <==> k == keys[0] || k in keys[1..];
    }
  }

  lemma {:induction false} WithoutKeyDistinct(keys: seq<Key>, key: Key)
    requires NoDuplicates(keys)
    ensures NoDuplicates(WithoutKey(keys, key))
  {
    if keys != [] {
      WithoutKeyDistinct(keys[1..], key);
      WithoutKeyMembers(keys[1..], key);
      assert keys[0] !in keys[1..];
    }
  }

  lemma HoldOne(held: map<Key, Uar>, key: Key, u: Uar)
    requires Injective(held) && key !in held && u !in held.Values
    ensures held[key := u].Values == held.Values + {u} && Injective(held[key := u])
  {
    var h := held[key := u];
    assert key in h && h[key] == u;
    forall x | x in held.Values ensures x in h.Values {
      var k :| k in held && held[k] == x;
      assert k in h && h[k] == x;
    }
  }

  lemma ReleaseOne(held: map<Key, Uar>, key: Key)
    requires Injective(held) && key in held
    ensures (held - {key}).Values == held.Values - {held[key]} && Injective(held - {key})
  {
    var h := held - {key};
    forall x | x in held.Values && x != held[key] ensures x in h.Values {
      var k :| k in held && held[k] == x;
      assert k in h && h[k] == x;
    }
  }

  lemma InvGetExclusive(p: Pool, op: Op)
    requires PoolInv(p) && Enabled(p, op) && op.GetExclusive?
    ensures PoolInv(Next(p, op))
  {
    hide Injective; hide NoDuplicates;
    var key, p' := op.key, Next(p, op);
    if Reuses(p, op) {
      HoldOne(p.held, key, op.pick);
      assert Exclusive(p') == Exclusive(p);
    } else if key != 0 && key !in p.held && op.reply.Some? {
      HoldOne(p.held, key, op.reply.value);
      assert Exclusive(p') == Exclusive(p) + {op.reply.value};
    }
  }

  lemma InvRelease(p: Pool, op: Op)
    requires PoolInv(p) && op.Release?
    ensures PoolInv(Next(p, op))
  {
    hide Injective; hide NoDuplicates;
    var key, p' := op.key, Next(p, op);
    WithoutKeyMembers(p.sharers, key);
    WithoutKeyDistinct(p.sharers, key);
    if key != 0 && key !in p.sharers && key in p.held {
      ReleaseOne(p.held, key);
      assert Exclusive(p') == Exclusive(p);
    }
  }

  lemma InvNext(p: Pool, op: Op)
    requires PoolInv(p) && Enabled(p, op)
    ensures PoolInv(Next(p, op))
  {
    if op.GetExclusive? {
      InvGetExclusive(p, op);
    } else if op.Release? {
      InvRelease(p, op);
    }
  }

  /** No UAR has two owners, the shared one has none, and no sharer is listed twice. */
  lemma {:induction false} RunInv(ops: seq<Op>)
    requires IsRun(ops)
    ensures PoolInv(Run(ops))
    decreases |ops|
  {
    if ops != [] {
      var n := |ops| - 1;
      assert forall i | 0 <= i < n :: ops[..n][..i] == ops[..i];
      RunInv(ops[..n]);
      assert ops[..n] == ops[..n];
      InvNext(Run(ops[..n]), ops[n]);
    }
  }

  /** The UAR an operation hands out. */
  function Result(p: Pool, op: Op): Option<Uar> {
    match op
    case GetShared(key, _) => if key == 0 then None else Next(p, op).shared
    case GetExclusive(key, _, _) =>
      if key in Next(p, op).held then Some(Next(p, op).held[key]) else None
    case Release(_) => None
  }

  /** A shared get returns the UAR already shared, or else exactly what the allocation returned; on
      success the caller is a sharer, on failure nothing changes, and nobody else is affected. */
  lemma SharedGet(p: Pool, key: Key, reply: Option<Uar>)
    requires key != 0
    ensures var op := GetShared(key, reply);
            var p' := Next(p, op);
            && Result(p, op) == (if p.shared.Some? then p.shared else reply) == p'.shared
            && (Result(p, op).Some? ==> key in p'.sharers)
            && (Result(p, op).None? ==> p' == p)
            && (forall k | k != key :: k in p'.sharers <==> k in p.sharers)
            && p'.held == p.held && p'.free == p.free && p'.dropped == p.dropped
  {
  }

  /** An exclusive get returns the caller's UAR, or else a free one while there are any, or else exactly
      what the allocation returned; on success the caller holds it, and nobody else is affected. */
  lemma ExclusiveGet(p: Pool, key: Key, reply: Option<Uar>, pick: Uar)
    requires key != 0
    ensures var op := GetExclusive(key, reply, pick);
            var p' := Next(p, op);
            && Result(p, op) ==
               (if key in p.held then Some(p.held[key]) else if p.free != {} then Some(pick) else reply)
            && (Result(p, op).Some? ==> key in p'.held && p'.held[key] == Result(p, op).value)
            && (Result(p, op).None? ==> p' == p)
            && (forall k | k != key :: k in p'.held <==> k in p.held)
            && (forall k | k != key && k in p.held :: p'.held[k] == p.held[k])
            && p'.shared == p.shared && p'.sharers == p.sharers
            && (key in p.held ==> p' == p)
            && (key !in p.held && p.free == {} ==> p'.free == {} && p'.dropped == p.dropped)
  {
  }

  /** A release takes the caller out of the sharers if it is one, and otherwise makes the UAR it holds
      free; nobody else is affected. */
  lemma ReleaseExactly(p: Pool, key: Key)
    requires PoolInv(p)
    ensures var p' := Next(p, Release(key));
            && Result(p, Release(key)) == None && p'.shared == p.shared && p'.dropped == p.dropped
            && (key in p.sharers ==> key !in p'.sharers && p'.held == p.held && p'.free == p.free)
            && (key !in p.sharers ==> p'.sharers == p.sharers && key !in p'.held)
            && (key !in p.sharers && key in p.held ==> p'.free == p.free + {p.held[key]})
            && (key !in p.sharers && key !in p.held ==> p' == p)
            && (forall k | k != key :: k in p'.sharers <==> k in p.sharers)
            && (forall k | k != key :: k in p'.held <==> k in p.held)
            && (forall k | k != key && k in p.held :: p'.held[k] == p.held[k])
  {
    WithoutKeyMembers(p.sharers, key);
  }

  /** The null pointer gets nothing and changes nothing. */
  lemma NullKey(p: Pool, op: Op)
    requires op.key == 0 && PoolInv(p)
    ensures Next(p, op) == p && Result(p, op) == None
  {
  }

  /** Call `i` of a run was a shared get that succeeded. */
  predicate GotShared(ops: seq<Op>, i: nat)
    requires i < |ops|
  {
    ops[i].GetShared? && Result(Run(ops[..i]), ops[i]).Some?
  }

  /** Over every run, all shared gets that succeed return one and the same UAR. */
  lemma OneShared(ops: seq<Op>, i: nat, j: nat)
    requires i <= j < |ops| && GotShared(ops, i) && GotShared(ops, j)
    ensures Result(Run(ops[..i]), ops[i]) == Result(Run(ops[..j]), ops[j])
  {
    hide Result;
    SharedKept(ops, i, i + 1);
    if i < j {
      SharedKept(ops, i, j);
    }
    SharedKept(ops, j, j + 1);
    if i < j {
      assert Result(Run(ops[..j]), ops[j]) == Run(ops[..j]).shared by { SharedAgain(Run(ops[..j]), ops[j]); }
    }
  }

  lemma SharedAgain(p: Pool, op: Op)
    requires op.GetShared? && Result(p, op).Some? && p.shared.Some?
    ensures Result(p, op) == p.shared
  {
  }

  lemma {:induction false} SharedKept(ops: seq<Op>, i: nat, j: nat)
    requires i < j <= |ops| && GotShared(ops, i)
    ensures Run(ops[..j]).shared == Result(Run(ops[..i]), ops[i])
    decreases j
  {
    assert ops[..j][..j - 1] == ops[..j - 1];
    assert Run(ops[..j]) == Next(Run(ops[..j - 1]), ops[j - 1]);
    if j == i + 1 {
      assert ops[i].key != 0;
    } else {
      SharedKept(ops, i, j - 1);
    }
  }

  /** The key got the shared UAR, and has not released it since. */
  predicate Shares(ops: seq<Op>, key: Key) {
    ops != [] &&
    var n := |ops| - 1;
    if ops[n] == Release(key) then false
    else (ops[n].GetShared? && ops[n].key == key && Result(Run(ops[..n]), ops[n]).Some?) || Shares(ops[..n], key)
  }

  /** Over every run a key is a sharer exactly when it has got the shared UAR since its last release. */
  lemma {:induction false} SharerExactly(ops: seq<Op>, key: Key)
    requires IsRun(ops)
    ensures key in Run(ops).sharers <==> Shares(ops, key)
    decreases |ops|
  {
    hide Next; hide Result; hide PoolInv; hide Enabled;
    if ops != [] {
      var n := |ops| - 1;
      assert forall i | 0 <= i < n :: ops[..n][..i] == ops[..i];
      SharerExactly(ops[..n], key);
      RunInv(ops[..n]);
      SharersStep(Run(ops[..n]), ops[n], key);
    }
  }

  lemma SharersStep(p: Pool, op: Op, key: Key)
    requires PoolInv(p)
    ensures key in Next(p, op).sharers <==>
            if op == Release(key) then false
            else (op.GetShared? && op.key == key && Result(p, op).Some?) || key in p.sharers
  {
    WithoutKeyMembers(p.sharers, op.key);
  }

  /** The UAR a key has got for itself, and has not released since while it was no sharer. */
  function Holds(ops: seq<Op>, key: Key): Option<Uar> {
    if ops == [] then None
    else
      var n := |ops| - 1;
      if ops[n] == Release(key) && !Shares(ops[..n], key) then None
      else if ops[n].GetExclusive? && ops[n].key == key then Result(Run(ops[..n]), ops[n])
      else Holds(ops[..n], key)
  }

  /** Over every run the UAR a key holds is the one its last exclusive get returned, until it is
      released. */
  lemma {:induction false} HolderExactly(ops: seq<Op>, key: Key)
    requires IsRun(ops)
    ensures Holds(ops, key) == if key in Run(ops).held then Some(Run(ops).held[key]) else None
    decreases |ops|
  {
    hide Next; hide Result; hide PoolInv; hide Enabled;
    if ops != [] {
      var n := |ops| - 1;
      assert forall i | 0 <= i < n :: ops[..n][..i] == ops[..i];
      HolderExactly(ops[..n], key);
      SharerExactly(ops[..n], key);
      RunInv(ops[..n]);
      HolderStep(Run(ops[..n]), ops[n], key);
    }
  }

  lemma HolderStep(p: Pool, op: Op, key: Key)
    requires PoolInv(p)
    ensures var p' := Next(p, op);
            (if key in p'.held then Some(p'.held[key]) else None) ==
            if op == Release(key) && key !in p.sharers then None
            else if op.GetExclusive? && op.key == key then Result(p, op)
            else if key in p.held then Some(p.held[key]) else None
  {
  }

  /** An exclusive UAR is never the shared one, and belongs to the caller alone. */
  lemma ExclusiveIsExclusive(ops: seq<Op>, op: Op)
    requires IsRun(ops) && op.GetExclusive? && Enabled(Run(ops), op)
    ensures var p, p' := Run(ops), Next(Run(ops), op);
            Result(p, op).Some? ==>
              && p'.shared != Result(p, op)
              && (forall k | k in p'.held && k != op.key :: p'.held[k] != Result(p, op).value)
  {
    RunInv(ops);
    InvNext(Run(ops), op);
  }

  /** Asking again changes nothing and returns the same UAR. */
  lemma RepeatedGetStable(p: Pool, op: Op, again: Op)
    requires PoolInv(p) && Enabled(p, op) && op.GetExclusive? && again.GetExclusive? && again.key == op.key
    requires Result(p, op).Some?
    ensures Next(Next(p, op), again) == Next(p, op)
    ensures Result(Next(p, op), again) == Result(p, op)
  {
  }

  /** Only its owner's release takes a UAR away, and not while the owner is also a sharer. */
  lemma HeldUntilReleased(p: Pool, op: Op, key: Key)
    requires PoolInv(p) && Enabled(p, op) && key in p.held
    ensures (key in Next(p, op).held && Next(p, op).held[key] == p.held[key]) <==>
            !(op == Release(key) && key !in p.sharers)
  {
  }

  /* ---------------------------------------------------------------- accounting */

  /** Every UAR allocated for exclusive use stays accounted for: held, free or dropped. */
  lemma Conservation(p: Pool, op: Op)
    requires PoolInv(p) && Enabled(p, op)
    ensures var p' := Next(p, op);
            && Exclusive(p) <= Exclusive(p')
            && (Exclusive(p') != Exclusive(p) ==>
                  op.GetExclusive? && !Reuses(p, op) && op.reply.Some?
                  && Exclusive(p') == Exclusive(p) + {op.reply.value})
  {
    hide Injective; hide NoDuplicates;
    match op
    case GetShared(key, reply) =>
    case GetExclusive(key, reply, pick) =>
      if Reuses(p, op) {
        HoldOne(p.held, key, pick);
      } else if key != 0 && key !in p.held && reply.Some? {
        HoldOne(p.held, key, reply.value);
      }
    case Release(key) =>
      if key in p.held {
        ReleaseOne(p.held, key);
      }
  }

  /** The operation allocates a UAR for exclusive use. */
  predicate Allocates(p: Pool, op: Op) {
    op.GetExclusive? && op.key != 0 && op.key !in p.held && p.free == {} && op.reply.Some?
  }

  /** The UARs a run allocated for exclusive use. */
  function Allocations(ops: seq<Op>): set<Uar> {
    if ops == [] then {}
    else
      var n := |ops| - 1;
      Allocations(ops[..n]) + (if Allocates(Run(ops[..n]), ops[n]) then {ops[n].reply.value} else {})
  }

  /** Over every run, the allocated UARs are the held, the free and the dropped ones, each once. */
  lemma {:induction false} AccountedFor(ops: seq<Op>)
    requires IsRun(ops)
    ensures Exclusive(Run(ops)) == Allocations(ops)
    ensures |Run(ops).held| + |Run(ops).free| + |Run(ops).dropped| == |Allocations(ops)|
    decreases |ops|
  {
    hide PoolInv; hide Next; hide Exclusive; hide Enabled;
    RunInv(ops);
    CountParts(Run(ops));
    if ops == [] {
      assert Exclusive(EMPTY) == {} by { NothingExclusive(); }
    } else {
      var n := |ops| - 1;
      assert forall i | 0 <= i < n :: ops[..n][..i] == ops[..i];
      AccountedFor(ops[..n]);
      RunInv(ops[..n]);
      assert Enabled(Run(ops[..n]), ops[n]);
      Conservation(Run(ops[..n]), ops[n]);
      AllocatesAdds(Run(ops[..n]), ops[n]);
    }
  }

  lemma NothingExclusive()
    ensures Exclusive(EMPTY) == {}
  {
  }

  lemma AllocatesAdds(p: Pool, op: Op)
    requires PoolInv(p) && Enabled(p, op)
    ensures Allocates(p, op) <==> Exclusive(Next(p, op)) != Exclusive(p)
  {
    Conservation(p, op);
    if Allocates(p, op) {
      HoldOne(p.held, op.key, op.reply.value);
    } else if Reuses(p, op) {
      HoldOne(p.held, op.key, op.pick);
    } else if op.Release? && op.key in p.held {
      ReleaseOne(p.held, op.key);
    }
  }

  lemma CountParts(p: Pool)
    requires PoolInv(p)
    ensures |p.held| + |p.free| + |p.dropped| == |Exclusive(p)|
  {
    CountHeld(p.held);
    assert |p.held.Values + p.free| == |p.held.Values| + |p.free|;
  }

  lemma {:induction false} CountHeld(held: map<Key, Uar>)
    requires Injective(held)
    ensures |held.Values| == |held|
    decreases |held|
  {
    if held == map[] {
      assert held.Values == {};
    } else {
      var key :| key in held;
      ReleaseOne(held, key);
      assert |held - {key}| == |held| - 1 by { assert (held - {key}).Keys == held.Keys - {key}; }
      CountHeld(held - {key});
      assert held.Values == (held - {key}).Values + {held[key]};
    }
  }

  /** Taking one of `f` free UARs drops the other `f - 1`; nothing else drops any. */
  lemma ReuseDrops(p: Pool, op: Op)
    requires PoolInv(p) && Enabled(p, op)
    ensures var p' := Next(p, op);
            && |p'.dropped| == |p.dropped| + (if Reuses(p, op) then |p.free| - 1 else 0)
            && (Reuses(p, op) ==> p'.free == {} && op.pick in p.free && p'.held[op.key] == op.pick)
  {
    hide Next; hide Exclusive; hide Injective; hide NoDuplicates; hide WithoutKey;
    DroppedNext(p, op);
    if Reuses(p, op) {
      DropCount(p.dropped, p.free, op.pick);
    }
  }

  lemma DroppedNext(p: Pool, op: Op)
    ensures Next(p, op).dropped == if Reuses(p, op) then p.dropped + (p.free - {op.pick}) else p.dropped
    ensures Reuses(p, op) ==>
              Next(p, op).free == {} && op.key in Next(p, op).held && Next(p, op).held[op.key] == op.pick
  {
  }

  lemma DropCount(dropped: set<Uar>, free: set<Uar>, pick: Uar)
    requires dropped !! free && pick in free
    ensures |dropped + (free - {pick})| == |dropped| + |free| - 1
  {
    assert free == (free - {pick}) + {pick};
    assert dropped !! (free - {pick});
  }

  /** A run never reuses while more than one UAR is free. */
  predicate ReusesOnlySingles(ops: seq<Op>) {
    forall i | 0 <= i < |ops| :: Reuses(Run(ops[..i]), ops[i]) ==> |Run(ops[..i]).free| == 1
  }

  lemma ReusesPrefix(ops: seq<Op>)
    requires ops != []
    ensures var n := |ops| - 1;
            ReusesOnlySingles(ops) <==>
              ReusesOnlySingles(ops[..n]) && (Reuses(Run(ops[..n]), ops[n]) ==> |Run(ops[..n]).free| == 1)
  {
    hide Reuses; hide Run;
    var n := |ops| - 1;
    assert forall i | 0 <= i <= n :: ops[..n][..i] == ops[..i];
    if ReusesOnlySingles(ops) {
      forall i | 0 <= i < n ensures Reuses(Run(ops[..n][..i]), ops[..n][i]) ==> |Run(ops[..n][..i]).free| == 1 {
        assert ops[..n][i] == ops[i];
        assert Reuses(Run(ops[..i]), ops[i]) ==> |Run(ops[..i]).free| == 1;
      }
    }
    if ReusesOnlySingles(ops[..n]) && (Reuses(Run(ops[..n]), ops[n]) ==> |Run(ops[..n]).free| == 1) {
      forall i | 0 <= i < |ops| ensures Reuses(Run(ops[..i]), ops[i]) ==> |Run(ops[..i]).free| == 1 {
        if i < n {
          assert Reuses(Run(ops[..n][..i]), ops[..n][i]) ==> |Run(ops[..n][..i]).free| == 1;
        }
      }
    }
  }

  /** Nothing is dropped exactly on the runs that never reuse while two or more are free. */
  lemma {:induction false} NothingDroppedExactly(ops: seq<Op>)
    requires IsRun(ops)
    ensures Run(ops).dropped == {} <==> ReusesOnlySingles(ops)
    decreases |ops|
  {
    hide PoolInv; hide Next; hide ReusesOnlySingles; hide Reuses; hide Enabled;
    if ops != [] {
      var n := |ops| - 1;
      assert forall i | 0 <= i < n :: ops[..n][..i] == ops[..i];
      var p := Run(ops[..n]);
      NothingDroppedExactly(ops[..n]);
      RunInv(ops[..n]);
      assert Enabled(p, ops[n]);
      ReuseDrops(p, ops[n]);
      ReusesPrefix(ops);
      assert Run(ops).dropped == {} <==> |Run(ops).dropped| == 0;
      assert p.dropped == {} <==> |p.dropped| == 0;
      if Reuses(p, ops[n]) { FreeNotEmpty(p, ops[n]); }
    } else {
      NoOps();
    }
  }

  lemma FreeNotEmpty(p: Pool, op: Op)
    requires Reuses(p, op)
    ensures |p.free| >= 1
  {
    var u :| u in p.free;
    assert p.free == (p.free - {u}) + {u};
  }

  lemma NoOps()
    ensures ReusesOnlySingles([])
  {
  }

  lemma OneMore(ops: seq<Op>, op: Op, p: Pool)
    requires IsRun(ops) && Run(ops) == p && Enabled(p, op)
    ensures IsRun(ops + [op]) && Run(ops + [op]) == Next(p, op)
  {
    hide Next; hide Enabled;
    var longer := ops + [op];
    assert longer[..|ops|] == ops;
    assert forall i | 0 <= i < |ops| :: longer[..i] == ops[..i] && longer[i] == ops[i];
  }

  /** Two owners get UARs and release them, and one comes back: the other UAR is lost to the pool,
      whatever the two are. */
  lemma DropWitness(a: Uar, b: Uar)
    requires a != b
    ensures var ops := [] + [GetExclusive(1, Some(a), 0)] + [GetExclusive(2, Some(b), 0)]
                       + [Release(1)] + [Release(2)] + [GetExclusive(1, None, a)];
            IsRun(ops) && Run(ops) == Pool(map[1 := a], {}, {b}, [], None)
  {
    hide Run; hide IsRun;
    EmptyRun();
    var o1 := [] + [GetExclusive(1, Some(a), 0)];
    OneMore([], GetExclusive(1, Some(a), 0), EMPTY);
    var p1 := Pool(map[1 := a], {}, {}, [], None);
    assert Next(EMPTY, GetExclusive(1, Some(a), 0)) == p1;
    OneMore(o1, GetExclusive(2, Some(b), 0), p1);
    var p2 := Pool(map[1 := a, 2 := b], {}, {}, [], None);
    assert Next(p1, GetExclusive(2, Some(b), 0)) == p2;
    var o2 := o1 + [GetExclusive(2, Some(b), 0)];
    OneMore(o2, Release(1), p2);
    var p3 := Pool(map[2 := b], {a}, {}, [], None);
    assert Next(p2, Release(1)) == p3;
    OneMore(o2 + [Release(1)], Release(2), p3);
    var p4 := Pool(map[], {a, b}, {}, [], None);
    assert Next(p3, Release(2)) == p4;
    OneMore(o2 + [Release(1)] + [Release(2)], GetExclusive(1, None, a), p4);
    assert Next(p4, GetExclusive(1, None, a)) == Pool(map[1 := a], {}, {b}, [], None);
  }

  lemma EmptyRun()
    ensures IsRun([]) && Run([]) == EMPTY
  {
  }

  /* ---------------------------------------------------------------- uar_collection */

  datatype UarType = SharedUar | ExclusiveUar

  lemma HeldNotFree(p: Pool, key: Key)
    requires PoolInv(p) && key in p.held
    ensures p.held[key] !in p.free
  {
    assert p.held[key] in p.held.Values;
  }

  class UarCollection {
    /** The multimap: for each key its UARs, in insertion order. */
    var exUars: map<Key, seq<Uar>>
    var sharers: seq<Key>
    var shared: Option<Uar>
    ghost var dropped: set<Uar>

    ghost predicate Valid()
      reads this
    {
      && (forall k | k in exUars :: exUars[k] != [] && (k != 0 ==> |exUars[k]| == 1))
      && PoolInv(View())
      && (0 in exUars ==> forall i, j | 0 <= i < j < |exUars[0]| :: exUars[0][i] != exUars[0][j])
    }

    ghost function View(): Pool
      reads this
    {
      Pool(map k | k in exUars && k != 0 && exUars[k] != [] :: exUars[k][0],
           if 0 in exUars then set u | u in exUars[0] else {}, dropped, sharers, shared)
    }

    constructor ()
      ensures Valid() && View() == EMPTY
    {
      exUars, sharers, shared, dropped := map[], [], None, {};
    }

    /** get_uar; `reply` is what the device returns if an allocation is needed. */
    method GetUar(key: Key, kind: UarType, reply: Option<Uar>) returns (u: Option<Uar>)
      requires Valid() && (reply.Some? ==> Unused(View(), reply.value))
      modifies this
      ensures Valid()
      ensures kind.SharedUar? ==>
                View() == Next(old(View()), GetShared(key, reply)) && u == Result(old(View()), GetShared(key, reply))
      ensures kind.ExclusiveUar? ==>
                exists pick ::
                  var op := GetExclusive(key, reply, pick);
                  Enabled(old(View()), op) && View() == Next(old(View()), op) && u == Result(old(View()), op)
    {
      if key == 0 {
        ghost var p := View();
        assert Enabled(p, GetExclusive(key, reply, if p.free == {} then 0 else (var x :| x in p.free; x)));
        return None;
      }
      if kind.SharedUar? {
        u := GetSharedUar(key, reply);
      } else {
        ghost var pick;
        u, pick := GetExclusiveUar(key, reply);
        assert Enabled(old(View()), GetExclusive(key, reply, pick));
      }
    }

    method GetSharedUar(key: Key, reply: Option<Uar>) returns (u: Option<Uar>)
      requires Valid() && key != 0 && (reply.Some? ==> Unused(View(), reply.value))
      modifies this`shared, this`sharers
      ensures Valid()
      ensures View() == Next(old(View()), GetShared(key, reply))
      ensures u == Result(old(View()), GetShared(key, reply))
    {
      InvNext(View(), GetShared(key, reply));
      if shared.None? {
        shared := reply;
        if shared.Some? {
          sharers := sharers + [key];
        }
      } else {
        if key !in sharers {
          sharers := sharers + [key];
        }
      }
      return shared;
    }

    method GetExclusiveUar(key: Key, reply: Option<Uar>) returns (u: Option<Uar>, ghost pick: Uar)
      requires Valid() && key != 0 && (reply.Some? ==> Unused(View(), reply.value))
      modifies this`exUars, this`dropped
      ensures Valid()
      ensures Enabled(old(View()), GetExclusive(key, reply, pick))
      ensures View() == Next(old(View()), GetExclusive(key, reply, pick))
      ensures u == Result(old(View()), GetExclusive(key, reply, pick))
    {
      hide PoolInv; hide Injective;
      ghost var p := View();
      pick := if 0 in exUars then exUars[0][0] else 0;
      if key in exUars {
        assert key in p.held;
        return Some(exUars[key][0]), pick;
      }
      assert key !in p.held;
      if 0 !in exUars {
        if reply.None? {
          return None, pick;
        }
        InvNext(p, GetExclusive(key, reply, pick));
        exUars := exUars[key := [reply.value]];
        assert View().held == p.held[key := reply.value];
        u := reply;
      } else {
        u, pick := TakeFree(key, reply);
      }
    }

    /** The lookup of the null key may return any of the free UARs; erasing the key erases all. */
    method TakeFree(key: Key, ghost reply: Option<Uar>) returns (u: Option<Uar>, ghost pick: Uar)
      requires Valid() && key != 0 && key !in exUars && 0 in exUars
      requires reply.Some? ==> Unused(View(), reply.value)
      modifies this`exUars, this`dropped
      ensures Valid()
      ensures Enabled(old(View()), GetExclusive(key, reply, pick))
      ensures View() == Next(old(View()), GetExclusive(key, reply, pick))
      ensures u == Result(old(View()), GetExclusive(key, reply, pick))
    {
      hide PoolInv; hide Injective;
      ghost var p := View();
      var i: nat :| i < |exUars[0]|;
      var found := exUars[0][i];
      pick := found;
      assert pick in p.free;
      InvNext(p, GetExclusive(key, reply, pick));
      exUars := exUars[key := [found]];
      exUars := exUars - {0};
      dropped := dropped + (p.free - {found});
      assert View().held == p.held[key := found];
      u := Some(found);
    }

    /** release_uar */
    method ReleaseUar(key: Key) returns (st: Status)
      requires Valid()
      modifies this
      ensures Valid()
      ensures View() == Next(old(View()), Release(key))
      ensures st == Ok <==> key != 0 && (key in old(sharers) || key in old(View()).held)
      ensures st != Ok ==> st == ErrInvalidParam && View() == old(View())
    {
      if key == 0 {
        return ErrInvalidParam;
      }
      hide PoolInv; hide Injective; hide WithoutKey;
      InvNext(View(), Release(key));
      if key in sharers {
        sharers := WithoutKey(sharers, key);
        return Ok;
      }
      if key in exUars {
        ghost var p := View();
        var u := exUars[key][0];
        assert u !in p.free by { HeldNotFree(p, key); }
        exUars := exUars - {key};
        exUars := exUars[0 := (if 0 in exUars then exUars[0] else []) + [u]];
        assert View().held == p.held - {key};
        assert View().free == p.free + {u};
      } else {
        return ErrInvalidParam;
      }
      return Ok;
    }
  }
}
