/** What each call of the steering interface does, to which objects, and with which status; and, over
    whole runs, which calls a group or a rule owes its life to. */
module SteeringEffects {
  import opened Common
  import opened Steering
  import FM = FlowMatcher
  import FR = FlowRule
  import SC = SteeringCommands

  /* ---------------------------------------------------------------- what stays the same */

  ghost predicate TablesBut(s: State, s': State, t: Ref) {
    && (forall u | u != t :: u in s'.tables <==> u in s.tables)
    && (forall u | u != t && u in s.tables :: s'.tables[u] == s.tables[u])
  }

  ghost predicate GroupsBut(s: State, s': State, g: Ref) {
    && (forall h | h != g :: h in s'.groups <==> h in s.groups)
    && (forall h | h != g && h in s.groups :: s'.groups[h] == s.groups[h])
  }

  ghost predicate RulesBut(s: State, s': State, r: Ref) {
    && (forall q | q != r :: q in s'.rules <==> q in s.rules)
    && (forall q | q != r && q in s.rules :: s'.rules[q] == s.rules[q])
  }

  /** What users hold, the log and the numbering are untouched. */
  predicate SameRest(s: State, s': State) {
    s'.held == s.held && s'.log == s.log && s'.next == s.next && s'.caps == s.caps
  }

  /* ---------------------------------------------------------------- tables */

  /** Exactly the receive tables within the capabilities are made, as they were asked for. */
  lemma NewTableExactly(s: State, a: TableAttr, memory: bool)
    requires Inv(s) && Callable(s, NewTable(a, memory))
    ensures var (s', st) := Next(s, NewTable(a, memory));
            var n := s.next;
            && (st == Ok <==> && 1 <= a.level <= s.caps.maxLevel && a.kind == 0 && s.caps.supported
                              && a.logSize <= s.caps.maxLogSize && memory)
            && (a.level == 0 ==> st == ErrInvalidParam)
            && (a.level != 0 && a.kind != 0 ==> st == ErrNoSupport)
            && (a.level != 0 && a.kind == 0 && !s.caps.supported ==> st == ErrCreate)
            && (a.level != 0 && a.kind == 0 && s.caps.supported ==>
                  (a.logSize > s.caps.maxLogSize || a.level > s.caps.maxLevel <==> st == ErrInvalidParam))
            && (st != Ok ==> s' == s)
            && (st == Ok ==>
                  && TablesBut(s, s', n) && n in s'.tables && s'.tables[n].attr == a && !s'.tables[n].created
                  && s'.tables[n].dev == Unmade && s'.tables[n].groups == {} && s'.held == s.held + {n}
                  && s' == s.(tables := s'.tables, held := s'.held, next := n + 1))
  {
    hide LogOk; hide Kept; hide ObjectsOk;
  }

  /** The miss table a table forwards to can be named: it is created, and of a higher level. */
  predicate MissReady(s: State, a: TableAttr) {
    a.action == Forward ==>
      a.miss.Prm? && a.miss.t in s.tables && s.tables[a.miss.t].created && s.tables[a.miss.t].attr.level > a.level
  }

  /** A table is created once; the command says what the table was made with, and the id of its miss
      table when it forwards. */
  lemma CreateTableExactly(s: State, t: Ref, reply: Reply)
    requires Inv(s) && Callable(s, CreateTable(t, reply))
    ensures t in s.tables
    ensures var (s', st) := Next(s, CreateTable(t, reply));
            var x := s.tables[t];
            && (st == Ok <==> || x.created
                              || (x.attr.normalMode && x.attr.action != Unsupported && MissReady(s, x.attr)
                                  && reply.Accepted?))
            && (x.created || st != Ok ==> s' == s)
            && (!x.created && (!x.attr.normalMode || x.attr.action == Unsupported) ==> st == ErrNoSupport)
            && (!x.created && x.attr.normalMode && !MissReady(s, x.attr) ==> st == ErrInvalidParam)
            && (!x.created && x.attr.normalMode && x.attr.action != Unsupported && MissReady(s, x.attr) ==>
                  (reply.Rejected? <==> st == ErrCreate))
            && (!x.created && st == Ok ==>
                  && TablesBut(s, s', t) && t in s'.tables
                  && s'.tables[t] == Table(x.attr, true, Linked, reply.id, x.groups)
                  && s' == s.(tables := s'.tables, log := s'.log)
                  && s'.log == s.log + [TableMade(t, MadeAs(s, x.attr), reply.id)])
  {
    hide LogOk; hide Kept; hide ObjectsOk;
    HeldLive(s, t);
  }

  /** What a table's creation says to the device. */
  function MadeAs(s: State, a: TableAttr): SC.TableSpec {
    SC.TableSpec(a.level, a.kind, a.logSize, a.decap, a.reformat,
                 if a.action == Forward && a.miss.Prm? && a.miss.t in s.tables then Some(s.tables[a.miss.t].id)
                 else None)
  }

  /** After every run, the device was sent every created table with the level, type, size and flags it
      was made with, and under the id it has. */
  lemma TablesAsMade(caps: Caps, ops: seq<Op>, t: Ref)
    requires Legal(caps, ops) && t in RunState(caps, ops).tables && RunState(caps, ops).tables[t].created
    ensures var s := RunState(caps, ops);
            TableMade(t, MadeAs(s, s.tables[t].attr), s.tables[t].id) in s.log
  {
    hide RunState; hide LogOk; hide Kept;
    assert TableOk(RunState(caps, ops), t);
  }

  /** Users can take hold of a miss table; nothing else changes. */
  lemma HoldExactly(s: State, t: Ref)
    requires Inv(s) && Callable(s, Hold(t))
    ensures var (s', st) := Next(s, Hold(t));
            st == Ok && s' == s.(held := s.held + {t})
  {
    hide LogOk; hide Kept; hide ObjectsOk;
  }

  /** Letting go of a table destroys exactly the tables that nothing keeps any more, with their groups
      and rules; everything else is left as it was. */
  lemma ReleaseExactly(s: State, t: Ref)
    requires Inv(s) && Callable(s, Release(t))
    ensures var (s', st) := Next(s, Release(t));
            && st == Ok && s'.held == s.held - {t} && s'.log == s.log && s'.next == s.next
            && (forall u | u in s.tables :: u in s'.tables <==> Kept(s', u))
            && (forall u | u in s'.tables :: u in s.tables && s'.tables[u] == s.tables[u])
            && (forall g :: g in s'.groups <==> g in s.groups && s.groups[g].table in s'.tables)
            && (forall g | g in s'.groups :: s'.groups[g] == s.groups[g])
            && (forall r :: r in s'.rules <==> r in s.rules && s.rules[r].table in s'.tables)
            && (forall r | r in s'.rules :: s'.rules[r] == s.rules[r])
  {
    hide LogOk; hide Kept; hide Collect; hide TableOk; hide GroupOk; hide RuleOk;
    HeldLive(s, t);
    var s1 := s.(held := s.held - {t});
    var s' := Collect(s1, t);
    HeldOnly(s, s1);
    forall g | g in s1.groups ensures Placed(s1, g) { OwnGroup(s1, g); }
    forall r | r in s1.rules ensures PlacedRule(s1, r) { OwnRule(s1, r); }
    CollectTakes(s1, t);
    CollectLeaves(s1, t);
    ReleaseKeeps(s, t);
    forall u | u in s.tables && u !in s'.tables ensures !Kept(s', u) {
      NotKept(s', u);
    }
  }

  lemma NotKept(s: State, u: Ref)
    requires ObjectsOk(s) && u !in s.tables
    ensures !Kept(s, u)
  {
    hide CreatedOk; hide GroupOk; hide RuleOk;
    forall w | w in s.tables ensures s.tables[w].attr.miss != Prm(u) {
      assert TableOk(s, w);
    }
  }

  /** A group sits in its table, and in no other. */
  predicate Placed(s: State, g: Ref)
    requires g in s.groups
  {
    && s.groups[g].table in s.tables && g in s.tables[s.groups[g].table].groups
    && forall t | t in s.tables && g in s.tables[t].groups :: t == s.groups[g].table
  }

  /** A rule sits in a group of its table. */
  predicate PlacedRule(s: State, r: Ref)
    requires r in s.rules
  {
    s.rules[r].group in s.groups && s.groups[s.rules[r].group].table == s.rules[r].table
  }

  lemma OwnGroup(s: State, g: Ref)
    requires ObjectsOk(s) && g in s.groups
    ensures Placed(s, g)
  {
    hide CreatedOk; hide AttrOk; hide RuleOk;
    assert GroupOk(s, g);
    forall t | t in s.tables && g in s.tables[t].groups ensures t == s.groups[g].table {
      assert TableOk(s, t);
    }
  }

  lemma OwnRule(s: State, r: Ref)
    requires ObjectsOk(s) && r in s.rules
    ensures PlacedRule(s, r)
  {
    hide TableOk; hide GroupOk; hide FM.ApplyStatus;
    assert RuleOk(s, r);
  }

  /** Destruction takes the groups and rules of the tables it takes, and no others. */
  lemma {:induction false} CollectTakes(s: State, t: Ref)
    requires t in s.tables && forall g | g in s.groups :: Placed(s, g)
    requires forall r | r in s.rules :: PlacedRule(s, r)
    ensures forall g :: g in Collect(s, t).groups <==> g in s.groups && s.groups[g].table in Collect(s, t).tables
    ensures forall r :: r in Collect(s, t).rules <==> r in s.rules && s.rules[r].table in Collect(s, t).tables
    ensures forall r | r in Collect(s, t).rules :: Collect(s, t).rules[r] == s.rules[r]
    decreases |s.tables|
  {
    hide Kept;
    if !Kept(s, t) {
      FewerTables(s, t);
      var s', m := Without(s, t), s.tables[t].attr.miss;
      WithoutTakes(s, t);
      if m.Prm? && m.t in s'.tables {
        CollectTakes(s', m.t);
        CollectLeaves(s', m.t);
      }
    }
  }

  lemma WithoutTakes(s: State, t: Ref)
    requires t in s.tables && forall g | g in s.groups :: Placed(s, g)
    requires forall r | r in s.rules :: PlacedRule(s, r)
    ensures var s' := Without(s, t);
            && (forall g :: g in s'.groups <==> g in s.groups && s.groups[g].table in s'.tables)
            && (forall r :: r in s'.rules <==> r in s.rules && s.rules[r].table in s'.tables)
            && (forall g | g in s'.groups :: s'.groups[g] == s.groups[g] && Placed(s', g))
            && (forall r | r in s'.rules :: s'.rules[r] == s.rules[r] && PlacedRule(s', r))
  {
    var s' := Without(s, t);
    forall g | g in s.groups ensures g in s'.groups <==> s.groups[g].table in s'.tables {
      assert Placed(s, g);
    }
    forall r | r in s.rules ensures r in s'.rules <==> s.rules[r].table in s'.tables {
      assert PlacedRule(s, r) && Placed(s, s.rules[r].group);
    }
    forall g | g in s'.groups ensures Placed(s', g) {
      assert Placed(s, g);
    }
    forall r | r in s'.rules ensures PlacedRule(s', r) {
      assert PlacedRule(s, r);
    }
  }

  /* ---------------------------------------------------------------- groups */

  /** Only a created table takes a group, which is empty and not created yet. */
  lemma AddGroupExactly(s: State, t: Ref, a: SC.GroupAttr, memory: bool)
    requires Inv(s) && Callable(s, AddGroup(t, a, memory))
    ensures t in s.tables && s.next !in s.groups
    ensures var (s', st) := Next(s, AddGroup(t, a, memory));
            var n, x := s.next, s.tables[t];
            && (st == Ok <==> x.created && memory)
            && (!x.created ==> st == ErrNotApplied) && (x.created && !memory ==> st == ErrNoMemory)
            && (st != Ok ==> s' == s)
            && (st == Ok ==>
                  && GroupsBut(s, s', n) && n in s'.groups && s'.groups[n].table == t && s'.groups[n].attr == a
                  && !s'.groups[n].created && s'.groups[n].dev == Unmade && s'.groups[n].rules == {}
                  && TablesBut(s, s', t) && t in s'.tables && s'.tables[t] == x.(groups := x.groups + {n})
                  && s' == s.(tables := s'.tables, groups := s'.groups, next := n + 1))
  {
    hide LogOk; hide Kept; hide TableOk; hide GroupOk; hide RuleOk;
    HeldLive(s, t);
    NextIsFresh(s);
  }

  /** A group is created once, under the id of its table and with the attributes it was given. */
  lemma CreateGroupExactly(s: State, g: Ref, reply: Reply)
    requires Inv(s) && Callable(s, CreateGroup(g, reply))
    ensures s.groups[g].table in s.tables
    ensures var (s', st) := Next(s, CreateGroup(g, reply));
            var x := s.groups[g];
            && (st == Ok <==> !x.created && reply.Accepted?)
            && (x.created ==> st == ErrNoMemory) && (!x.created && reply.Rejected? ==> st == ErrCreate)
            && (st != Ok ==> s' == s)
            && (st == Ok ==>
                  && GroupsBut(s, s', g) && g in s'.groups
                  && s'.groups[g] == Group(x.table, x.attr, true, Linked, reply.id, x.rules)
                  && s' == s.(groups := s'.groups, log := s'.log)
                  && s'.log == s.log + [GroupMade(g, s.tables[x.table].id, x.attr, reply.id)])
  {
    hide LogOk; hide Kept; hide AttrOk; hide CreatedOk; hide RuleOk;
    assert GroupOk(s, g) && TableOk(s, s.groups[g].table);
  }

  /** Removing a group takes that group and the rules in it, and nothing else. */
  lemma RemoveGroupExactly(s: State, t: Ref, g: Ref)
    requires Inv(s) && Callable(s, RemoveGroup(t, g))
    ensures t in s.tables
    ensures var (s', st) := Next(s, RemoveGroup(t, g));
            var x := s.tables[t];
            && (st == Ok <==> g in s.groups && s.groups[g].table == t)
            && (!x.created ==> st == ErrNotApplied)
            && (x.created && !(g in s.groups && s.groups[g].table == t) ==> st == ErrInvalidParam)
            && (st != Ok ==> s' == s)
            && (st == Ok ==>
                  && GroupsBut(s, s', g) && g !in s'.groups
                  && (forall r :: r in s'.rules <==> r in s.rules && s.rules[r].group != g)
                  && (forall r | r in s'.rules :: s'.rules[r] == s.rules[r])
                  && TablesBut(s, s', t) && t in s'.tables && s'.tables[t] == x.(groups := x.groups - {g})
                  && SameRest(s, s'))
  {
    hide LogOk; hide Kept; hide CreatedOk; hide AttrOk; hide RuleOk;
    HeldLive(s, t);
    assert TableOk(s, t);
    if g in s.groups {
      assert GroupOk(s, g);
    }
  }

  /* ---------------------------------------------------------------- rules */

  /** Only a created group takes a rule, which shares its matcher and is not created yet. */
  lemma AddRuleExactly(s: State, g: Ref, v: FM.MatchParams, i: u32, valid: bool, memory: bool)
    requires Inv(s) && Callable(s, AddRule(g, v, i, valid, memory))
    ensures s.next !in s.rules
    ensures var (s', st) := Next(s, AddRule(g, v, i, valid, memory));
            var n, x := s.next, s.groups[g];
            && (st == Ok <==> x.created && memory)
            && (!x.created ==> st == ErrNotApplied) && (x.created && !memory ==> st == ErrNoMemory)
            && (st != Ok ==> s' == s)
            && (st == Ok ==>
                  && RulesBut(s, s', n) && n in s'.rules
                  && s'.rules[n] == Rule(x.table, g, x.attr.matcher, v, i, valid, false, Unmade)
                  && GroupsBut(s, s', g) && g in s'.groups && s'.groups[g] == x.(rules := x.rules + {n})
                  && s' == s.(groups := s'.groups, rules := s'.rules, next := n + 1))
  {
    hide LogOk; hide Kept; hide TableOk; hide GroupOk; hide RuleOk;
    NextIsFresh(s);
  }

  /** Creating a rule: the entry goes out exactly when its actions are valid, there is memory, its value
      can be matched on and its actions apply; it is placed in the rule's table and group, at the
      rule's index, and matches the rule's value. */
  lemma CreateRuleExactly(s: State, r: Ref, a: Actions, memory: bool, reply: Reply)
    requires Inv(s) && Callable(s, CreateRule(r, a, memory, reply))
    ensures s.rules[r].table in s.tables && s.rules[r].group in s.groups
    ensures var (s', st) := Next(s, CreateRule(r, a, memory, reply));
            var x := s.rules[r];
            var t, g, apply := s.tables[x.table], s.groups[x.group], FM.ApplyStatus(x.matcher, x.value);
            var sent := x.validActions && memory && apply == Ok && a.Applied?;
            && (st == Ok <==> sent && reply.Accepted?)
            && (!x.validActions ==> st == ErrInvalidParam) && (x.validActions && !memory ==> st == ErrNoMemory)
            && (x.validActions && memory && apply != Ok ==> st == apply)
            && (x.validActions && memory && apply == Ok && a.Refused? ==> st == a.st)
            && (sent && reply.Rejected? ==> st == ErrCreate)
            && (!sent ==> s' == s)
            && (sent ==>
                  && s'.log == s.log + [EntrySent(x.group, FR.Place(t.attr.kind, t.id, g.id, x.flowIndex), x.matcher,
                                                  x.value, a.acts, a.len)]
                  && s' == s.(rules := s'.rules, log := s'.log) && RulesBut(s, s', r) && r in s'.rules
                  && s'.rules[r] == if st == Ok then x.(created := true, dev := Linked) else x)
  {
    hide LogOk; hide Kept; hide AttrOk; hide CreatedOk; hide FM.ApplyStatus; hide FR.AllRoom;
    assert RuleOk(s, r) && GroupOk(s, s.rules[r].group) && TableOk(s, s.rules[r].table);
  }

  /** Removing a rule takes that rule, and nothing else. */
  lemma RemoveRuleExactly(s: State, g: Ref, r: Ref)
    requires Inv(s) && Callable(s, RemoveRule(g, r))
    ensures var (s', st) := Next(s, RemoveRule(g, r));
            var x := s.groups[g];
            && (st == Ok <==> r in s.rules && s.rules[r].group == g)
            && (!x.created ==> st == ErrNotApplied)
            && (x.created && !(r in s.rules && s.rules[r].group == g) ==> st == ErrInvalidParam)
            && (st != Ok ==> s' == s)
            && (st == Ok ==>
                  && RulesBut(s, s', r) && r !in s'.rules
                  && GroupsBut(s, s', g) && g in s'.groups && s'.groups[g] == x.(rules := x.rules - {r})
                  && s'.tables == s.tables && SameRest(s, s'))
  {
    hide LogOk; hide Kept; hide TableOk; hide FM.ApplyStatus;
    assert GroupOk(s, g);
    if r in s.rules {
      assert RuleOk(s, r);
    }
  }

  /* ---------------------------------------------------------------- explicit destruction */

  /** destroy() succeeds whatever the device answers, and only the one object's stand on the device
      changes: gone if the device accepts while the host holds the handle, let go of if it does not. */
  lemma DestroyExactly(s: State, op: Op)
    requires Inv(s) && Callable(s, op) && (op.DestroyTable? || op.DestroyGroup? || op.DestroyRule?)
    ensures op.DestroyTable? ==> op.t in s.tables
    ensures var (s', st) := Next(s, op);
            && st == Ok && SameRest(s, s')
            && (op.DestroyTable? ==>
                  && TablesBut(s, s', op.t) && s'.groups == s.groups && s'.rules == s.rules && op.t in s'.tables
                  && LetGo(s.tables[op.t].dev, s'.tables[op.t].dev, op.accepts)
                  && s'.tables[op.t] == s.tables[op.t].(dev := s'.tables[op.t].dev))
            && (op.DestroyGroup? ==>
                  && GroupsBut(s, s', op.g) && s'.tables == s.tables && s'.rules == s.rules && op.g in s'.groups
                  && LetGo(s.groups[op.g].dev, s'.groups[op.g].dev, op.accepts)
                  && s'.groups[op.g] == s.groups[op.g].(dev := s'.groups[op.g].dev))
            && (op.DestroyRule? ==>
                  && RulesBut(s, s', op.r) && s'.tables == s.tables && s'.groups == s.groups && op.r in s'.rules
                  && LetGo(s.rules[op.r].dev, s'.rules[op.r].dev, op.accepts)
                  && s'.rules[op.r] == s.rules[op.r].(dev := s'.rules[op.r].dev))
  {
    hide LogOk; hide Kept; hide TableOk; hide GroupOk; hide RuleOk;
    if op.DestroyTable? {
      HeldLive(s, op.t);
    }
  }

  /** The handle is not held afterwards; the object exists exactly if it did and was not given up to a
      device that accepted. */
  predicate LetGo(d: DeviceObject, d': DeviceObject, accepts: bool) {
    && !d'.Linked? && (Exists(d') <==> Exists(d) && !(d.Linked? && accepts)) && (d'.Unmade? <==> d.Unmade?)
  }

  /* ---------------------------------------------------------------- who is alive, over whole runs */

  /** The status call `n` of the run returned. */
  function LastStatus(caps: Caps, ops: seq<Op>): Status
    requires Legal(caps, ops) && ops != []
  {
    Next(RunState(caps, ops[..|ops| - 1]), ops[|ops| - 1]).1
  }

  /** Group `g` was added to table `t` with these attributes; since then it was not removed from there,
      and its table has not gone. */
  predicate GroupIn(caps: Caps, ops: seq<Op>, g: Ref, t: Ref, a: SC.GroupAttr)
    requires Legal(caps, ops)
  {
    ops != [] && t in RunState(caps, ops).tables &&
    var pre, op := ops[..|ops| - 1], ops[|ops| - 1];
    if op.AddGroup? && LastStatus(caps, ops) == Ok && RunState(caps, pre).next == g then op.t == t && op.groupAttr == a
    else GroupIn(caps, pre, g, t, a) && !(op == RemoveGroup(t, g) && LastStatus(caps, ops) == Ok)
  }

  /** After every run the groups there are, with their tables and attributes, are exactly those added
      and not removed since, in tables that have not gone. */
  lemma {:induction false} GroupAliveExactly(caps: Caps, ops: seq<Op>, g: Ref, t: Ref, a: SC.GroupAttr)
    requires Legal(caps, ops)
    ensures var s := RunState(caps, ops);
            g in s.groups && s.groups[g].table == t && s.groups[g].attr == a <==> GroupIn(caps, ops, g, t, a)
    decreases |ops|
  {
    hide Next; hide LogOk; hide Kept; hide ObjectsOk; hide Callable;
    var s := RunState(caps, ops);
    if g in s.groups && s.groups[g].table == t {
      GroupTableOf(s, g);
    }
    if ops != [] {
      var pre, op := ops[..|ops| - 1], ops[|ops| - 1];
      GroupAliveExactly(caps, pre, g, t, a);
      GroupsAfter(RunState(caps, pre), op, g);
    }
  }

  /** One step in the life of a group. */
  lemma GroupsAfter(s: State, op: Op, g: Ref)
    requires Inv(s) && Callable(s, op)
    ensures var (s', st) := Next(s, op);
            if op.AddGroup? && st == Ok && s.next == g then
              g in s'.groups && s'.groups[g].table == op.t && s'.groups[g].attr == op.groupAttr
            else
              && (g in s'.groups <==> && g in s.groups && s.groups[g].table in s'.tables
                                      && !(op == RemoveGroup(s.groups[g].table, g) && st == Ok))
              && (g in s'.groups ==> s'.groups[g].table == s.groups[g].table && s'.groups[g].attr == s.groups[g].attr)
  {
    hide Next; hide LogOk; hide Kept; hide ObjectsOk; hide FM.ApplyStatus; hide FR.AllRoom;
    if g in s.groups {
      GroupTableOf(s, g);
    }
    match op {
      case NewTable(a, memory) => NewTableExactly(s, a, memory); Fresh(s);
      case CreateTable(t, reply) => CreateTableExactly(s, t, reply);
      case Hold(t) => HoldExactly(s, t);
      case Release(t) => ReleaseExactly(s, t);
      case AddGroup(t, a, memory) => AddGroupExactly(s, t, a, memory);
      case CreateGroup(h, reply) => CreateGroupExactly(s, h, reply);
      case RemoveGroup(t, h) => RemoveGroupExactly(s, t, h);
      case AddRule(h, v, i, valid, memory) => AddRuleExactly(s, h, v, i, valid, memory);
      case CreateRule(r, a, memory, reply) => CreateRuleExactly(s, r, a, memory, reply);
      case RemoveRule(h, r) => RemoveRuleExactly(s, h, r);
      case DestroyTable(_, _) => DestroyExactly(s, op);
      case DestroyGroup(_, _) => DestroyExactly(s, op);
      case DestroyRule(_, _) => DestroyExactly(s, op);
    }
  }

  lemma Fresh(s: State)
    requires Inv(s)
    ensures s.next !in s.tables && s.next !in s.groups && s.next !in s.rules
  {
    hide LogOk; hide Kept;
    NextIsFresh(s);
  }

  /** What a rule is given when it is added. */
  datatype RuleAttr = RuleAttr(value: FM.MatchParams, flowIndex: u32, validActions: bool)

  /** Rule `r` was added to group `g` of table `t` with these attributes; since then neither it nor its
      group was removed, and its table has not gone. */
  predicate RuleIn(caps: Caps, ops: seq<Op>, r: Ref, g: Ref, t: Ref, a: RuleAttr)
    requires Legal(caps, ops)
  {
    ops != [] && t in RunState(caps, ops).tables &&
    var pre, op := ops[..|ops| - 1], ops[|ops| - 1];
    var s := RunState(caps, pre);
    if op.AddRule? && LastStatus(caps, ops) == Ok && s.next == r then
      op.g == g && g in s.groups && s.groups[g].table == t && RuleAttr(op.value, op.flowIndex, op.validActions) == a
    else
      && RuleIn(caps, pre, r, g, t, a)
      && !(op == RemoveRule(g, r) && LastStatus(caps, ops) == Ok)
      && !(op == RemoveGroup(t, g) && LastStatus(caps, ops) == Ok)
  }

  predicate RuleThere(s: State, r: Ref, g: Ref, t: Ref, a: RuleAttr) {
    && r in s.rules && s.rules[r].group == g && s.rules[r].table == t
    && RuleAttr(s.rules[r].value, s.rules[r].flowIndex, s.rules[r].validActions) == a
  }

  /** After every run the rules there are, with all they were given, are exactly those added since when
      neither they nor their groups were removed, in tables that have not gone. */
  lemma {:induction false} RuleAliveExactly(caps: Caps, ops: seq<Op>, r: Ref, g: Ref, t: Ref, a: RuleAttr)
    requires Legal(caps, ops)
    ensures RuleThere(RunState(caps, ops), r, g, t, a) <==> RuleIn(caps, ops, r, g, t, a)
    decreases |ops|
  {
    hide Next; hide LogOk; hide Kept; hide ObjectsOk; hide Callable;
    var s := RunState(caps, ops);
    if RuleThere(s, r, g, t, a) {
      OwnRule(s, r);
      GroupTableOf(s, g);
    }
    if ops != [] {
      var pre, op := ops[..|ops| - 1], ops[|ops| - 1];
      RuleAliveExactly(caps, pre, r, g, t, a);
      RulesAfter(RunState(caps, pre), op, r);
    }
  }

  /** One step in the life of a rule. */
  lemma RulesAfter(s: State, op: Op, r: Ref)
    requires Inv(s) && Callable(s, op)
    ensures op.AddRule? ==> op.g in s.groups
    ensures var (s', st) := Next(s, op);
            if op.AddRule? && st == Ok && s.next == r then
              RuleThere(s', r, op.g, s.groups[op.g].table, RuleAttr(op.value, op.flowIndex, op.validActions))
            else
              && (r in s'.rules <==> && r in s.rules && s.rules[r].table in s'.tables
                                     && !(op == RemoveRule(s.rules[r].group, r) && st == Ok)
                                     && !(op == RemoveGroup(s.rules[r].table, s.rules[r].group) && st == Ok))
              && (r in s'.rules ==>
                    RuleThere(s', r, s.rules[r].group, s.rules[r].table,
                              RuleAttr(s.rules[r].value, s.rules[r].flowIndex, s.rules[r].validActions)))
  {
    hide Next; hide LogOk; hide Kept; hide ObjectsOk; hide FM.ApplyStatus; hide FR.AllRoom;
    if r in s.rules {
      OwnRule(s, r);
      GroupTableOf(s, s.rules[r].group);
    }
    match op {
      case NewTable(a, memory) => NewTableExactly(s, a, memory); Fresh(s);
      case CreateTable(t, reply) => CreateTableExactly(s, t, reply);
      case Hold(t) => HoldExactly(s, t);
      case Release(t) => ReleaseExactly(s, t);
      case AddGroup(t, a, memory) => AddGroupExactly(s, t, a, memory);
      case CreateGroup(h, reply) => CreateGroupExactly(s, h, reply);
      case RemoveGroup(t, h) => RemoveGroupExactly(s, t, h);
      case AddRule(h, v, i, valid, memory) => AddRuleExactly(s, h, v, i, valid, memory);
      case CreateRule(q, a, memory, reply) => CreateRuleExactly(s, q, a, memory, reply);
      case RemoveRule(h, q) => RemoveRuleExactly(s, h, q);
      case DestroyTable(_, _) => DestroyExactly(s, op);
      case DestroyGroup(_, _) => DestroyExactly(s, op);
      case DestroyRule(_, _) => DestroyExactly(s, op);
    }
  }
}
