/** Flow steering: tables with levels and miss forwarding, groups inside tables, rules inside
    groups.

    Users share ownership of tables and hold only weak references to groups and rules; a table
    owns its groups, a group its rules, and a table keeps its miss table alive. Objects live in
    maps from references, so a reference that is not in its map locks to nothing. */
module Steering {
  import opened Bits
  import opened Common
  import opened CommandBuffer
  import opened Matching
  import FM = FlowMatcher
  import FR = FlowRule
  import SC = SteeringCommands

  type Ref = nat

  const FT_RX := 0

  datatype MissAction = Default | Forward | Unsupported
  datatype Miss = NoTable | Kernel | Prm(t: Ref)
  datatype TableAttr = TableAttr(level: u8, kind: u8, normalMode: bool, action: MissAction, miss: Miss,
                                 logSize: u8, decap: bool, reformat: bool)

  /** `created` is what the host remembers, `dev` what has become of the object on the device. */
  datatype Table = Table(attr: TableAttr, created: bool, dev: DeviceObject, id: u24, groups: set<Ref>)
  datatype Group = Group(table: Ref, attr: SC.GroupAttr, created: bool, dev: DeviceObject, id: u24, rules: set<Ref>)
  datatype Rule = Rule(table: Ref, group: Ref, matcher: FM.MatcherAttr, value: FM.MatchParams,
                       flowIndex: u32, validActions: bool, created: bool, dev: DeviceObject)

  /** Receive flow-table capabilities of the adapter. */
  datatype Caps = Caps(supported: bool, maxLogSize: u8, maxLevel: u8)

  /** Creations the device accepted, and every entry that was sent to it. */
  datatype Event =
    | TableMade(t: Ref, spec: SC.TableSpec, id: u24)
    | GroupMade(g: Ref, tableId: u24, attr: SC.GroupAttr, id: u24)
    | EntrySent(g: Ref, place: FR.Place, matcher: FM.MatcherAttr, value: FM.MatchParams,
                acts: seq<FR.Applied>, len: nat)

  datatype State = State(caps: Caps, tables: map<Ref, Table>, groups: map<Ref, Group>, rules: map<Ref, Rule>,
                         held: set<Ref>, next: Ref, log: seq<Event>)

  datatype Reply = Rejected | Accepted(id: u24)

  /** How applying a rule's actions went: refused by one of them, or applied in some order to an
      entry of `len` bytes. */
  datatype Actions = Refused(st: Status) | Applied(acts: seq<FR.Applied>, len: nat)

  datatype Op =
    | NewTable(attr: TableAttr, memory: bool)
    | CreateTable(t: Ref, reply: Reply)
    | Hold(t: Ref)
    | Release(t: Ref)
    | AddGroup(t: Ref, groupAttr: SC.GroupAttr, memory: bool)
    | CreateGroup(g: Ref, reply: Reply)
    | RemoveGroup(t: Ref, g: Ref)
    | AddRule(g: Ref, value: FM.MatchParams, flowIndex: u32, validActions: bool, memory: bool)
    | CreateRule(r: Ref, actions: Actions, memory: bool, reply: Reply)
    | RemoveRule(g: Ref, r: Ref)
    | DestroyTable(t: Ref, accepts: bool)
    | DestroyGroup(g: Ref, accepts: bool)
    | DestroyRule(r: Ref, accepts: bool)

  /** What users can call: methods of tables they hold and of groups and rules that still exist.
      A miss table handed to a new table is one they hold; a query hands a miss table back. */
  predicate Callable(s: State, op: Op) {
    match op
    case NewTable(attr, _) => attr.miss.Prm? ==> attr.miss.t in s.held
    case CreateTable(t, _) => t in s.held
    case Hold(t) => exists u | u in s.held && u in s.tables :: s.tables[u].attr.miss == Prm(t)
    case Release(t) => t in s.held
    case AddGroup(t, _, _) => t in s.held
    case CreateGroup(g, _) => g in s.groups
    case RemoveGroup(t, _) => t in s.held
    case AddRule(g, _, _, _, _) => g in s.groups
    case CreateRule(r, actions, _, _) =>
      && r in s.rules
      && (actions.Refused? ==> actions.st != Ok)
      && (actions.Applied? ==> FR.FTE_BYTES <= actions.len && FR.AllRoom(actions.acts, actions.len))
    case RemoveRule(g, _) => g in s.groups
    case DestroyTable(t, _) => t in s.held
    case DestroyGroup(g, _) => g in s.groups
    case DestroyRule(r, _) => r in s.rules
  }

  /* ---------------------------------------------------------------- the invariant */

  predicate Forwards(a: TableAttr) {
    a.action == Forward
  }

  /** A created table that forwards does so to a created table of a higher level. */
  predicate MissOk(s: State, a: TableAttr) {
    Forwards(a) ==>
      && a.miss.Prm? && a.miss.t in s.tables && s.tables[a.miss.t].created
      && a.level < s.tables[a.miss.t].attr.level
  }

  function Spec(s: State, a: TableAttr): SC.TableSpec
    requires MissOk(s, a)
  {
    SC.TableSpec(a.level, a.kind, a.logSize, a.decap, a.reformat,
                 if Forwards(a) then Some(s.tables[a.miss.t].id) else None)
  }

  predicate AttrOk(s: State, t: Ref, a: TableAttr) {
    && 1 <= a.level <= s.caps.maxLevel && a.kind == FT_RX
    && (a.miss.Prm? ==> a.miss.t in s.tables && a.miss.t < t)
  }

  predicate CreatedOk(s: State, t: Ref, x: Table) {
    x.created ==>
      && x.attr.normalMode && x.attr.action != Unsupported && MissOk(s, x.attr)
      && TableMade(t, Spec(s, x.attr), x.id) in s.log
  }

  predicate TableOk(s: State, t: Ref)
    requires t in s.tables
  {
    var x := s.tables[t];
    && t < s.next && AttrOk(s, t, x.attr) && CreatedOk(s, t, x)
    && (x.groups != {} ==> x.created)
    && forall g | g in x.groups :: g in s.groups && s.groups[g].table == t
  }

  predicate GroupOk(s: State, g: Ref)
    requires g in s.groups
  {
    var x := s.groups[g];
    && g < s.next && x.table in s.tables && g in s.tables[x.table].groups
    && (x.created ==> GroupMade(g, s.tables[x.table].id, x.attr, x.id) in s.log)
    && (x.rules != {} ==> x.created)
    && forall r | r in x.rules :: r in s.rules && s.rules[r].group == g
  }

  predicate RuleOk(s: State, r: Ref)
    requires r in s.rules
  {
    var x := s.rules[r];
    && r < s.next && x.group in s.groups && r in s.groups[x.group].rules
    && x.table == s.groups[x.group].table && x.matcher == s.groups[x.group].attr.matcher
    && (x.created ==> FM.ApplyStatus(x.matcher, x.value) == Ok)
  }

  /** Something keeps the table alive. */
  predicate Kept(s: State, t: Ref) {
    t in s.held || exists u | u in s.tables :: s.tables[u].attr.miss == Prm(t)
  }

  predicate ObjectsOk(s: State) {
    && (forall t | t in s.tables :: TableOk(s, t))
    && (forall g | g in s.groups :: GroupOk(s, g))
    && (forall r | r in s.rules :: RuleOk(s, r))
    && s.held <= s.tables.Keys
  }

  predicate Inv(s: State) {
    && ObjectsOk(s)
    && (forall t | t in s.tables :: Kept(s, t))
    && LogOk(s.log)
  }

  /* ---------------------------------------------------------------- what the log promises */

  /** `e` is the creation of the table `f` forwards to: same type, strictly higher level. */
  predicate MissTarget(e: Event, f: Event) {
    && e.TableMade? && f.TableMade? && f.spec.miss == Some(e.id)
    && f.spec.level < e.spec.level && f.spec.kind == e.spec.kind
  }

  /** `e` is the creation of the table the group creation `f` names. */
  predicate UnderTable(e: Event, f: Event) {
    e.TableMade? && f.GroupMade? && f.tableId == e.id
  }

  /** `e` is the creation of the group the entry `f` names, under the same table id. */
  predicate UnderGroup(e: Event, f: Event) {
    && e.GroupMade? && f.EntrySent? && e.g == f.g
    && f.place.groupId == e.id && f.place.tableId == e.tableId && f.matcher == e.attr.matcher
  }

  predicate EntryWell(f: Event)
    requires f.EntrySent?
  {
    && FR.FTE_BYTES <= f.len && FR.AllRoom(f.acts, f.len)
    && f.place.tableId < 0x100_0000 && f.place.groupId < 0x100_0000
    && FM.ApplyStatus(f.matcher, f.value) == Ok
  }

  /** An event has what it refers to before it. */
  predicate Justified(log: seq<Event>, f: Event) {
    match f
    case TableMade(_, spec, _) => spec.miss.Some? ==> exists e | e in log :: MissTarget(e, f)
    case GroupMade(_, _, _, _) => exists e | e in log :: UnderTable(e, f)
    case EntrySent(_, _, _, _, _, _) => EntryWell(f) && exists e | e in log :: UnderGroup(e, f)
  }

  predicate LogOk(log: seq<Event>) {
    forall i | 0 <= i < |log| :: Justified(log[..i], log[i])
  }

  lemma LogSnoc(log: seq<Event>, f: Event)
    requires LogOk(log) && Justified(log, f)
    ensures LogOk(log + [f])
  {
    hide Justified;
    assert forall i | 0 <= i < |log| :: (log + [f])[..i] == log[..i];
    assert (log + [f])[..|log|] == log;
  }

  /* ---------------------------------------------------------------- transitions */

  /** adapter::create_flow_table's checks. */
  function NewTableStatus(c: Caps, a: TableAttr): Status {
    if a.level == 0 then ErrInvalidParam
    else if a.kind != FT_RX then ErrNoSupport
    else if !c.supported then ErrCreate
    else if c.maxLogSize < a.logSize then ErrInvalidParam
    else if c.maxLevel < a.level then ErrInvalidParam
    else Ok
  }

  /** set_miss_action's verdict. */
  function MissStatus(s: State, a: TableAttr): Status {
    match a.action
    case Default => Ok
    case Forward =>
      if a.miss.Prm? && a.miss.t in s.tables && s.tables[a.miss.t].created then
        (if s.tables[a.miss.t].attr.level <= a.level then ErrInvalidParam else Ok)
      else ErrInvalidParam
    case Unsupported => ErrNoSupport
  }

  function WithTable(s: State, t: Ref, x: Table): State {
    s.(tables := s.tables[t := x])
  }

  /** A table and everything it owns. */
  function Without(s: State, t: Ref): State
    requires t in s.tables
  {
    var gone := s.tables[t].groups;
    s.(tables := s.tables - {t}, groups := s.groups - gone,
       rules := s.rules - (set r | r in s.rules && s.rules[r].group in gone))
  }

  /** Destruction runs along the miss pointers for as long as nothing else keeps a table. */
  function Collect(s: State, t: Ref): State
    requires t in s.tables
    decreases |s.tables|
  {
    if Kept(s, t) then s
    else
      var s' := Without(s, t);
      var m := s.tables[t].attr.miss;
      assert |s'.tables| < |s.tables| by { FewerTables(s, t); }
      if m.Prm? && m.t in s'.tables then Collect(s', m.t) else s'
  }

  lemma FewerTables(s: State, t: Ref)
    requires t in s.tables
    ensures |Without(s, t).tables| < |s.tables|
  {
    assert Without(s, t).tables.Keys == s.tables.Keys - {t};
    assert |s.tables.Keys| == |s.tables|;
    assert |Without(s, t).tables.Keys| == |Without(s, t).tables|;
  }

  function WithoutGroup(s: State, t: Ref, g: Ref): State
    requires t in s.tables
  {
    s.(tables := s.tables[t := s.tables[t].(groups := s.tables[t].groups - {g})],
       groups := s.groups - {g},
       rules := s.rules - (set r | r in s.rules && s.rules[r].group == g))
  }

  /** The entry a rule sends: where it goes, what it matches and what it does. */
  function Entry(s: State, x: Rule, a: Actions): Event
    requires x.table in s.tables && x.group in s.groups && a.Applied?
  {
    EntrySent(x.group, FR.Place(s.tables[x.table].attr.kind, s.tables[x.table].id, s.groups[x.group].id, x.flowIndex),
              x.matcher, x.value, a.acts, a.len)
  }

  function NewTableNext(s: State, a: TableAttr, memory: bool): (State, Status) {
    if NewTableStatus(s.caps, a) != Ok then (s, NewTableStatus(s.caps, a))
    else if !memory then (s, ErrNoMemory)
    else (s.(tables := s.tables[s.next := Table(a, false, Unmade, 0, {})], held := s.held + {s.next},
             next := s.next + 1), Ok)
  }

  function CreateTableNext(s: State, t: Ref, reply: Reply): (State, Status)
    requires t in s.tables
  {
    var x := s.tables[t];
    if x.created then (s, Ok)
    else if !x.attr.normalMode then (s, ErrNoSupport)
    else if MissStatus(s, x.attr) != Ok then (s, MissStatus(s, x.attr))
    else if reply.Rejected? then (s, ErrCreate)
    else (WithTable(s, t, x.(created := true, dev := Linked, id := reply.id))
          .(log := s.log + [TableMade(t, Spec(s, x.attr), reply.id)]), Ok)
  }

  function AddGroupNext(s: State, t: Ref, a: SC.GroupAttr, memory: bool): (State, Status)
    requires t in s.tables
  {
    var x := s.tables[t];
    if !x.created then (s, ErrNotApplied)
    else if !memory then (s, ErrNoMemory)
    else (WithTable(s, t, x.(groups := x.groups + {s.next}))
          .(groups := s.groups[s.next := Group(t, a, false, Unmade, 0, {})], next := s.next + 1), Ok)
  }

  function CreateGroupNext(s: State, g: Ref, reply: Reply): (State, Status)
    requires g in s.groups
  {
    var x := s.groups[g];
    if x.table !in s.tables || x.created then (s, ErrNoMemory)
    else if !s.tables[x.table].created then (s, ErrInvalidParam)
    else if reply.Rejected? then (s, ErrCreate)
    else (s.(groups := s.groups[g := x.(created := true, dev := Linked, id := reply.id)],
             log := s.log + [GroupMade(g, s.tables[x.table].id, x.attr, reply.id)]), Ok)
  }

  function RemoveGroupNext(s: State, t: Ref, g: Ref): (State, Status)
    requires t in s.tables
  {
    if !s.tables[t].created then (s, ErrNotApplied)
    else if g !in s.tables[t].groups then (s, ErrInvalidParam)
    else (WithoutGroup(s, t, g), Ok)
  }

  function AddRuleNext(s: State, g: Ref, value: FM.MatchParams, flowIndex: u32, valid: bool, memory: bool)
    : (State, Status)
    requires g in s.groups
  {
    var x := s.groups[g];
    if !x.created then (s, ErrNotApplied)
    else if !memory then (s, ErrNoMemory)
    else (s.(groups := s.groups[g := x.(rules := x.rules + {s.next})],
             rules := s.rules[s.next := Rule(x.table, g, x.attr.matcher, value, flowIndex, valid, false, Unmade)],
             next := s.next + 1), Ok)
  }

  /** Does creating the rule put an entry on the wire? */
  predicate Sends(s: State, x: Rule, a: Actions) {
    && x.validActions && x.table in s.tables && x.group in s.groups
    && s.tables[x.table].created && s.groups[x.group].created
    && FM.ApplyStatus(x.matcher, x.value) == Ok && a.Applied?
  }

  function CreateRuleNext(s: State, r: Ref, a: Actions, memory: bool, reply: Reply): (State, Status)
    requires r in s.rules && s.rules[r].table in s.tables && s.rules[r].group in s.groups
  {
    var x := s.rules[r];
    if !x.validActions then (s, ErrInvalidParam)
    else if !memory then (s, ErrNoMemory)
    else if !s.tables[x.table].created || !s.groups[x.group].created then (s, ErrNotApplied)
    else if FM.ApplyStatus(x.matcher, x.value) != Ok then (s, FM.ApplyStatus(x.matcher, x.value))
    else if a.Refused? then (s, a.st)
    else
      var s' := s.(log := s.log + [Entry(s, x, a)]);
      if reply.Rejected? then (s', ErrCreate)
      else (s'.(rules := s.rules[r := x.(created := true, dev := Linked)]), Ok)
  }

  function RemoveRuleNext(s: State, g: Ref, r: Ref): (State, Status)
    requires g in s.groups
  {
    var x := s.groups[g];
    if !x.created then (s, ErrNotApplied)
    else if r !in x.rules then (s, ErrInvalidParam)
    else (s.(groups := s.groups[g := x.(rules := x.rules - {r})], rules := s.rules - {r}), Ok)
  }

  /** obj::destroy: the device may refuse, the answer is dropped, and the host object goes on counting
      as created. */
  function DestroyTableNext(s: State, t: Ref, accepts: bool): State
    requires t in s.tables
  {
    s.(tables := s.tables[t := s.tables[t].(dev := AfterDestroy(s.tables[t].dev, accepts))])
  }

  function DestroyGroupNext(s: State, g: Ref, accepts: bool): State
    requires g in s.groups
  {
    s.(groups := s.groups[g := s.groups[g].(dev := AfterDestroy(s.groups[g].dev, accepts))])
  }

  function DestroyRuleNext(s: State, r: Ref, accepts: bool): State
    requires r in s.rules
  {
    s.(rules := s.rules[r := s.rules[r].(dev := AfterDestroy(s.rules[r].dev, accepts))])
  }

  function Next(s: State, op: Op): (State, Status)
    requires ObjectsOk(s) && Callable(s, op)
  {
    match op
    case NewTable(a, memory) => NewTableNext(s, a, memory)
    case CreateTable(t, reply) => CreateTableNext(s, t, reply)
    case Hold(t) => (s.(held := s.held + {t}), Ok)
    case Release(t) => (Collect(s.(held := s.held - {t}), t), Ok)
    case AddGroup(t, a, memory) => AddGroupNext(s, t, a, memory)
    case CreateGroup(g, reply) => CreateGroupNext(s, g, reply)
    case RemoveGroup(t, g) => RemoveGroupNext(s, t, g)
    case AddRule(g, v, i, valid, memory) => AddRuleNext(s, g, v, i, valid, memory)
    case CreateRule(r, a, memory, reply) =>
      assert RuleOk(s, r) && GroupOk(s, s.rules[r].group);
      CreateRuleNext(s, r, a, memory, reply)
    case RemoveRule(g, r) => RemoveRuleNext(s, g, r)
    case DestroyTable(t, accepts) => (DestroyTableNext(s, t, accepts), Ok)
    case DestroyGroup(g, accepts) => (DestroyGroupNext(s, g, accepts), Ok)
    case DestroyRule(r, accepts) => (DestroyRuleNext(s, r, accepts), Ok)
  }

  /** The operation takes the one state to the other, with this status. */
  predicate Steps(s: State, op: Op, s': State, st: Status) {
    ObjectsOk(s) && Callable(s, op) && Next(s, op) == (s', st)
  }

  /* ---------------------------------------------------------------- every operation keeps it */

  /** Nothing that was settled changes: tables stay, created ones keep their id. */
  predicate Grows(s: State, s': State) {
    && s'.caps == s.caps && s.next <= s'.next && s.log <= s'.log && s.held <= s'.held
    && forall t | t in s.tables ::
         && t in s'.tables && s'.tables[t].attr == s.tables[t].attr
         && (s.tables[t].created ==> s'.tables[t].created && s'.tables[t].id == s.tables[t].id)
  }

  /** What does not depend on a table's groups survives. */
  lemma TableSettled(s: State, s': State, t: Ref)
    requires Grows(s, s') && t in s.tables && TableOk(s, t) && Kept(s, t)
    ensures t < s'.next && AttrOk(s', t, s.tables[t].attr) && Kept(s', t)
    ensures s'.tables[t].created == s.tables[t].created ==> CreatedOk(s', t, s'.tables[t])
  {
    var x := s.tables[t];
    if x.created {
      assert MissOk(s', x.attr) && Spec(s', x.attr) == Spec(s, x.attr);
    }
  }

  lemma GroupSettled(s: State, s': State, g: Ref)
    requires Grows(s, s') && ObjectsOk(s) && g in s.groups
    ensures g < s'.next && s.groups[g].table in s'.tables
    ensures s'.tables[s.groups[g].table].id == s.tables[s.groups[g].table].id
    ensures s.groups[g].created ==>
              GroupMade(g, s'.tables[s.groups[g].table].id, s.groups[g].attr, s.groups[g].id) in s'.log
  {
    assert GroupOk(s, g) && TableOk(s, s.groups[g].table);
  }

  /** A table whose groups all stay is still fine. */
  lemma TableStays(s: State, s': State, t: Ref)
    requires Grows(s, s') && t in s.tables && TableOk(s, t) && Kept(s, t) && s'.tables[t] == s.tables[t]
    requires forall g | g in s.groups && s.groups[g].table == t :: g in s'.groups && s'.groups[g].table == t
    ensures TableOk(s', t) && Kept(s', t)
  {
    hide CreatedOk; hide Kept; hide AttrOk; hide Grows;
    TableSettled(s, s', t);
  }

  /** A group whose rules all stay is still fine. */
  lemma GroupStays(s: State, s': State, g: Ref)
    requires Grows(s, s') && ObjectsOk(s) && g in s.groups && g in s'.groups && s'.groups[g] == s.groups[g]
    requires s.groups[g].table in s.tables ==> g in s'.tables[s.groups[g].table].groups
    requires forall r | r in s.rules && s.rules[r].group == g :: r in s'.rules && s'.rules[r].group == g
    ensures GroupOk(s', g)
  {
    hide TableOk; hide RuleOk; hide Grows;
    GroupSettled(s, s', g);
    assert GroupOk(s, g);
  }

  /** A rule whose group stays is still fine. */
  lemma RuleStays(s: State, s': State, r: Ref)
    requires ObjectsOk(s) && s.next <= s'.next && r in s.rules && r in s'.rules && s'.rules[r] == s.rules[r]
    requires s.rules[r].group in s'.groups && r in s'.groups[s.rules[r].group].rules
    requires s.rules[r].group in s.groups ==>
               && s'.groups[s.rules[r].group].table == s.groups[s.rules[r].group].table
               && s'.groups[s.rules[r].group].attr == s.groups[s.rules[r].group].attr
    ensures RuleOk(s', r)
  {
    hide TableOk; hide GroupOk; hide FM.ApplyStatus;
    assert RuleOk(s, r);
  }

  lemma RuleGroup(s: State, r: Ref)
    requires ObjectsOk(s) && r in s.rules
    ensures s.rules[r].group in s.groups && r in s.groups[s.rules[r].group].rules
  {
    hide TableOk; hide GroupOk; hide FM.ApplyStatus;
    assert RuleOk(s, r);
  }

  lemma GroupTableOf(s: State, g: Ref)
    requires ObjectsOk(s) && g in s.groups
    ensures s.groups[g].table in s.tables && g in s.tables[s.groups[g].table].groups
  {
    hide TableOk; hide RuleOk;
    assert GroupOk(s, g);
  }

  /** A new object never takes the reference of an old one. */
  lemma NextIsFresh(s: State)
    requires ObjectsOk(s)
    ensures s.next !in s.tables && s.next !in s.groups && s.next !in s.rules
  {
    hide AttrOk; hide CreatedOk; hide FM.ApplyStatus;
    forall t | t in s.tables ensures t < s.next { assert TableOk(s, t); }
    forall g | g in s.groups ensures g < s.next { assert GroupOk(s, g); }
    forall r | r in s.rules ensures r < s.next { assert RuleOk(s, r); }
  }

  lemma NewTableKeeps(s: State, a: TableAttr, memory: bool)
    requires Inv(s) && Callable(s, NewTable(a, memory))
    ensures Inv(NewTableNext(s, a, memory).0)
  {
    hide LogOk; hide Kept; hide TableOk; hide GroupOk; hide RuleOk;
    var s' := NewTableNext(s, a, memory).0;
    if s' != s {
      NextIsFresh(s);
      assert Grows(s, s');
      forall t | t in s'.tables ensures TableOk(s', t) && Kept(s', t) {
        if t != s.next {
          TableStays(s, s', t);
        } else {
          NewTableOk(s, s', a);
        }
      }
      forall h | h in s'.groups ensures GroupOk(s', h) {
        GroupTableOf(s, h);
        GroupStays(s, s', h);
      }
      forall q | q in s'.rules ensures RuleOk(s', q) {
        RuleGroup(s, q);
        RuleStays(s, s', q);
      }
    }
  }

  lemma NewTableOk(s: State, s': State, a: TableAttr)
    requires ObjectsOk(s) && (a.miss.Prm? ==> a.miss.t in s.held) && NewTableStatus(s.caps, a) == Ok
    requires s' == NewTableNext(s, a, true).0
    ensures TableOk(s', s.next) && Kept(s', s.next)
  {
    if a.miss.Prm? {
      assert TableOk(s, a.miss.t);
    }
  }

  lemma CreateTableKeeps(s: State, t: Ref, reply: Reply)
    requires Inv(s) && t in s.tables
    ensures Inv(CreateTableNext(s, t, reply).0)
  {
    hide LogOk; hide Kept; hide TableOk; hide GroupOk; hide RuleOk; hide Justified;
    var s' := CreateTableNext(s, t, reply).0;
    if s' != s {
      var e := TableMade(t, Spec(s, s.tables[t].attr), reply.id);
      MissJustified(s, t, e);
      LogSnoc(s.log, e);
      assert Grows(s, s');
      forall u | u in s'.tables ensures TableOk(s', u) && Kept(s', u) {
        if u != t {
          TableStays(s, s', u);
        } else {
          JustCreated(s, t, reply);
        }
      }
      forall h | h in s'.groups ensures GroupOk(s', h) {
        GroupTableOf(s, h);
        GroupStays(s, s', h);
      }
      forall q | q in s'.rules ensures RuleOk(s', q) {
        RuleGroup(s, q);
        RuleStays(s, s', q);
      }
    }
  }

  lemma JustCreated(s: State, t: Ref, reply: Reply)
    requires Inv(s) && t in s.tables && CreateTableNext(s, t, reply).0 != s
    requires Grows(s, CreateTableNext(s, t, reply).0)
    ensures TableOk(CreateTableNext(s, t, reply).0, t) && Kept(CreateTableNext(s, t, reply).0, t)
  {
    hide LogOk; hide Kept; hide GroupOk; hide RuleOk;
    TableSettled(s, CreateTableNext(s, t, reply).0, t);
    assert TableOk(s, t);
  }

  lemma MissJustified(s: State, t: Ref, e: Event)
    requires ObjectsOk(s) && t in s.tables && MissStatus(s, s.tables[t].attr) == Ok
    requires e.TableMade? && e.spec == Spec(s, s.tables[t].attr)
    ensures Justified(s.log, e)
  {
    var a := s.tables[t].attr;
    assert TableOk(s, t);
    if Forwards(a) {
      var m := s.tables[a.miss.t];
      assert TableOk(s, a.miss.t);
      var d := TableMade(a.miss.t, Spec(s, m.attr), m.id);
      assert d in s.log && MissTarget(d, e);
    }
  }

  lemma AddGroupKeeps(s: State, t: Ref, a: SC.GroupAttr, memory: bool)
    requires Inv(s) && t in s.tables
    ensures Inv(AddGroupNext(s, t, a, memory).0)
  {
    hide LogOk; hide Kept; hide TableOk; hide GroupOk; hide RuleOk;
    var s' := AddGroupNext(s, t, a, memory).0;
    if s' != s {
      NextIsFresh(s);
      assert Grows(s, s');
      forall h | h in s.tables[t].groups ensures h in s.groups && s.groups[h].table == t {
        GroupOf(s, t, h);
      }
      forall u | u in s'.tables ensures TableOk(s', u) && Kept(s', u) {
        if u != t {
          TableStays(s, s', u);
        } else {
          TableWithGroup(s, s', t);
        }
      }
      forall h | h in s'.groups ensures GroupOk(s', h) {
        if h != s.next {
          GroupTableOf(s, h);
          GroupStays(s, s', h);
        } else {
          NewGroupOk(s, s', t, a);
        }
      }
      forall q | q in s'.rules ensures RuleOk(s', q) {
        RuleGroup(s, q);
        RuleStays(s, s', q);
      }
    }
  }

  lemma NewGroupOk(s: State, s': State, t: Ref, a: SC.GroupAttr)
    requires t in s.tables && s.tables[t].created && s' == AddGroupNext(s, t, a, true).0
    ensures GroupOk(s', s.next)
  {
  }

  /** A created table that gains or loses groups. */
  lemma TableWithGroup(s: State, s': State, t: Ref)
    requires Inv(s) && Grows(s, s') && t in s.tables && s.tables[t].created
    requires s'.tables[t] == s.tables[t].(groups := s'.tables[t].groups)
    requires forall g | g in s'.tables[t].groups ::
               g in s'.groups && (g in s.groups && g in s.tables[t].groups ==> s'.groups[g].table == s.groups[g].table)
    requires forall g | g in s'.tables[t].groups && g !in s.tables[t].groups :: s'.groups[g].table == t
    ensures TableOk(s', t) && Kept(s', t)
  {
    hide LogOk; hide Kept; hide GroupOk; hide RuleOk; hide CreatedOk; hide AttrOk; hide Grows;
    assert TableOk(s, t);
    TableSettled(s, s', t);
  }

  lemma CreateGroupKeeps(s: State, g: Ref, reply: Reply)
    requires Inv(s) && g in s.groups
    ensures Inv(CreateGroupNext(s, g, reply).0)
  {
    hide LogOk; hide Kept; hide TableOk; hide GroupOk; hide RuleOk; hide Justified;
    var s' := CreateGroupNext(s, g, reply).0;
    if s' != s {
      var e := GroupMade(g, s.tables[s.groups[g].table].id, s.groups[g].attr, reply.id);
      GroupJustified(s, g, e);
      LogSnoc(s.log, e);
      assert Grows(s, s');
      TablesSettled(s, s');
      forall h | h in s'.groups ensures GroupOk(s', h) {
        GroupTableOf(s, h);
        if h != g {
          GroupStays(s, s', h);
        } else {
          forall r | r in s.groups[g].rules ensures r in s.rules && s.rules[r].group == g {
            RuleOf(s, g, r);
          }
          GroupChanged(s, s', g);
        }
      }
      forall q | q in s'.rules ensures RuleOk(s', q) {
        RuleGroup(s, q);
        RuleStays(s, s', q);
      }
    }
  }

  /** A group that was created, or that gained or lost rules, with every rule it keeps alive. */
  lemma GroupChanged(s: State, s': State, g: Ref)
    requires ObjectsOk(s) && Grows(s, s') && s'.tables == s.tables && g in s.groups && g in s'.groups
    requires s'.groups[g].table == s.groups[g].table && s'.groups[g].created
    requires GroupMade(g, s'.tables[s.groups[g].table].id, s'.groups[g].attr, s'.groups[g].id) in s'.log
    requires forall r | r in s'.groups[g].rules :: r in s'.rules && s'.rules[r].group == g
    ensures GroupOk(s', g)
  {
    hide TableOk; hide RuleOk;
    assert GroupOk(s, g);
  }

  /** When no table changes, and every group stays with its table, all tables are still fine. */
  lemma TablesSettled(s: State, s': State)
    requires Inv(s) && Grows(s, s') && s'.tables == s.tables
    requires forall g | g in s.groups :: g in s'.groups && s'.groups[g].table == s.groups[g].table
    ensures forall t | t in s'.tables :: TableOk(s', t) && Kept(s', t)
  {
    hide LogOk; hide Kept; hide TableOk; hide GroupOk; hide RuleOk;
    forall t | t in s'.tables ensures TableOk(s', t) && Kept(s', t) {
      TableStays(s, s', t);
    }
  }

  lemma GroupJustified(s: State, g: Ref, e: Event)
    requires ObjectsOk(s) && g in s.groups && s.groups[g].table in s.tables
    requires s.tables[s.groups[g].table].created
    requires e.GroupMade? && e.tableId == s.tables[s.groups[g].table].id
    ensures Justified(s.log, e)
  {
    var t := s.groups[g].table;
    assert TableOk(s, t);
    var d := TableMade(t, Spec(s, s.tables[t].attr), s.tables[t].id);
    assert d in s.log && UnderTable(d, e);
  }

  lemma AddRuleKeeps(s: State, g: Ref, v: FM.MatchParams, i: u32, valid: bool, memory: bool)
    requires Inv(s) && g in s.groups
    ensures Inv(AddRuleNext(s, g, v, i, valid, memory).0)
  {
    hide ObjectsOk; hide LogOk; hide Kept;
    var s' := AddRuleNext(s, g, v, i, valid, memory).0;
    if s' != s {
      NextIsFresh(s);
      RuleAdded(s, s', g);
    }
  }

  lemma RuleAdded(s: State, s': State, g: Ref)
    requires Inv(s) && g in s.groups && s.groups[g].created && s.next !in s.rules
    requires s.next in s'.rules && !s'.rules[s.next].created && s'.rules[s.next].group == g
    requires s'.rules[s.next].table == s.groups[g].table && s'.rules[s.next].matcher == s.groups[g].attr.matcher
    requires s' == s.(groups := s.groups[g := s.groups[g].(rules := s.groups[g].rules + {s.next})],
                      rules := s.rules[s.next := s'.rules[s.next]], next := s.next + 1)
    ensures Inv(s')
  {
    hide LogOk; hide Kept; hide TableOk; hide GroupOk; hide RuleOk;
    assert Grows(s, s');
    TablesSettled(s, s');
    forall h | h in s'.groups ensures GroupOk(s', h) {
      GroupWithRule(s, s', g, h);
    }
    forall r | r in s'.rules ensures RuleOk(s', r) {
      RuleWithRule(s, s', g, r);
    }
  }

  lemma GroupWithRule(s: State, s': State, g: Ref, h: Ref)
    requires ObjectsOk(s) && Grows(s, s') && s'.tables == s.tables
    requires h in s.groups && g in s.groups && s.groups[g].created && s.next !in s.rules
    requires s.next in s'.rules && s'.rules[s.next].group == g
    requires s'.groups == s.groups[g := s.groups[g].(rules := s.groups[g].rules + {s.next})]
    requires s'.rules == s.rules[s.next := s'.rules[s.next]]
    ensures GroupOk(s', h)
  {
    hide TableOk; hide RuleOk;
    GroupSettled(s, s', h);
    assert GroupOk(s, h);
  }

  lemma RuleWithRule(s: State, s': State, g: Ref, r: Ref)
    requires ObjectsOk(s) && s'.next == s.next + 1 && g in s.groups
    requires s.next in s'.rules && !s'.rules[s.next].created && s'.rules[s.next].group == g
    requires s'.rules[s.next].table == s.groups[g].table && s'.rules[s.next].matcher == s.groups[g].attr.matcher
    requires s'.groups == s.groups[g := s.groups[g].(rules := s.groups[g].rules + {s.next})]
    requires s'.rules == s.rules[s.next := s'.rules[s.next]] && r in s'.rules
    ensures RuleOk(s', r)
  {
    hide TableOk; hide GroupOk; hide FM.ApplyStatus;
    if r != s.next {
      assert RuleOk(s, r);
    }
  }

  lemma RemoveRuleKeeps(s: State, g: Ref, r: Ref)
    requires Inv(s) && g in s.groups
    ensures Inv(RemoveRuleNext(s, g, r).0)
  {
    hide LogOk; hide Kept; hide TableOk; hide GroupOk; hide RuleOk;
    var s' := RemoveRuleNext(s, g, r).0;
    if s' != s {
      assert Grows(s, s');
      TablesSettled(s, s');
      forall h | h in s'.groups ensures GroupOk(s', h) {
        GroupTableOf(s, h);
        if h != g {
          RuleOf(s, g, r);
          GroupStays(s, s', h);
        } else {
          RulesLeft(s, s', g, r);
        }
      }
      forall q | q in s'.rules ensures RuleOk(s', q) {
        RuleGroup(s, q);
        RuleStays(s, s', q);
      }
    }
  }

  lemma RuleOf(s: State, g: Ref, r: Ref)
    requires ObjectsOk(s) && g in s.groups && r in s.groups[g].rules
    ensures r in s.rules && s.rules[r].group == g
  {
    hide TableOk; hide RuleOk;
    assert GroupOk(s, g);
  }

  lemma RulesLeft(s: State, s': State, g: Ref, r: Ref)
    requires ObjectsOk(s) && Grows(s, s') && g in s.groups && s' == RemoveRuleNext(s, g, r).0 && s' != s
    ensures GroupOk(s', g)
  {
    hide TableOk; hide RuleOk; hide Grows;
    GroupSettled(s, s', g);
    assert GroupOk(s, g);
  }

  lemma GroupOf(s: State, t: Ref, g: Ref)
    requires ObjectsOk(s) && t in s.tables && g in s.tables[t].groups
    ensures g in s.groups && s.groups[g].table == t
  {
    hide GroupOk; hide RuleOk; hide AttrOk; hide CreatedOk;
    assert TableOk(s, t);
  }

  lemma RemoveGroupKeeps(s: State, t: Ref, g: Ref)
    requires Inv(s) && t in s.tables
    ensures Inv(RemoveGroupNext(s, t, g).0)
  {
    hide LogOk; hide Kept; hide TableOk; hide GroupOk; hide RuleOk;
    var s' := RemoveGroupNext(s, t, g).0;
    if s' != s {
      assert Grows(s, s');
      GroupOf(s, t, g);
      forall h | h in s.tables[t].groups ensures h in s.groups && s.groups[h].table == t {
        GroupOf(s, t, h);
      }
      forall u | u in s'.tables ensures TableOk(s', u) && Kept(s', u) {
        if u != t {
          TableStays(s, s', u);
        } else {
          TableWithGroup(s, s', t);
        }
      }
      forall h | h in s'.groups ensures GroupOk(s', h) {
        GroupTableOf(s, h);
        GroupStays(s, s', h);
      }
      forall q | q in s'.rules ensures RuleOk(s', q) {
        RuleGroup(s, q);
        RuleStays(s, s', q);
      }
    }
  }

  /** Creating a rule sends an entry only under its live, created group and table. */
  lemma CreateRuleKeeps(s: State, r: Ref, a: Actions, memory: bool, reply: Reply)
    requires Inv(s) && Callable(s, CreateRule(r, a, memory, reply))
    ensures s.rules[r].table in s.tables && s.rules[r].group in s.groups
    ensures Inv(CreateRuleNext(s, r, a, memory, reply).0)
  {
    hide LogOk; hide Justified; hide TableOk; hide Kept; hide FM.ApplyStatus; hide FR.AllRoom;
    var x := s.rules[r];
    assert RuleOk(s, r) && GroupOk(s, x.group);
    var s' := CreateRuleNext(s, r, a, memory, reply).0;
    if s' != s {
      EntryJustified(s, r, a);
      LogSnoc(s.log, Entry(s, x, a));
      OnlyRuleChanged(s, s', r);
    }
  }

  lemma OnlyRuleChanged(s: State, s': State, r: Ref)
    requires Inv(s) && r in s.rules && s.log <= s'.log
    requires FM.ApplyStatus(s.rules[r].matcher, s.rules[r].value) == Ok
    requires s' == s.(log := s'.log)
             || s' == s.(log := s'.log, rules := s.rules[r := s.rules[r].(created := true, dev := Linked)])
    ensures ObjectsOk(s') && forall t | t in s'.tables :: Kept(s', t)
  {
    hide LogOk; hide Kept; hide TableOk; hide GroupOk; hide RuleOk;
    assert Grows(s, s');
    TablesSettled(s, s');
    forall h | h in s'.groups ensures GroupOk(s', h) {
      GroupTableOf(s, h);
      GroupStays(s, s', h);
    }
    forall q | q in s'.rules ensures RuleOk(s', q) {
      RuleGroup(s, q);
      if q != r {
        RuleStays(s, s', q);
      } else {
        RuleMade(s, s', r);
      }
    }
  }

  lemma RuleMade(s: State, s': State, r: Ref)
    requires ObjectsOk(s) && r in s.rules && r in s'.rules && s'.groups == s.groups && s'.next == s.next
    requires FM.ApplyStatus(s.rules[r].matcher, s.rules[r].value) == Ok
    requires s'.rules[r] == s.rules[r].(created := s'.rules[r].created, dev := s'.rules[r].dev)
    ensures RuleOk(s', r)
  {
    hide TableOk; hide GroupOk; hide FM.ApplyStatus;
    assert RuleOk(s, r);
  }

  lemma EntryJustified(s: State, r: Ref, a: Actions)
    requires ObjectsOk(s) && Callable(s, CreateRule(r, a, true, Rejected)) && Sends(s, s.rules[r], a)
    ensures Justified(s.log, Entry(s, s.rules[r], a))
  {
    hide FM.ApplyStatus; hide FR.AllRoom; hide TableOk;
    var x := s.rules[r];
    assert RuleOk(s, r) && GroupOk(s, x.group);
    var g := s.groups[x.group];
    var d := GroupMade(x.group, s.tables[g.table].id, g.attr, g.id);
    assert d in s.log && UnderGroup(d, Entry(s, x, a));
  }

  /* ---------------------------------------------------------------- destruction */

  /** Every table but `t` is kept by something. */
  predicate KeptBut(s: State, t: Ref) {
    forall u | u in s.tables && u != t :: Kept(s, u)
  }

  lemma WithoutKeeps(s: State, t: Ref)
    requires ObjectsOk(s) && t in s.tables && !Kept(s, t)
    ensures ObjectsOk(Without(s, t))
    ensures s.tables[t].attr.miss.Prm? ==> s.tables[t].attr.miss.t in Without(s, t).tables
  {
    hide TableOk; hide GroupOk; hide RuleOk; hide Spec;
    var s' := Without(s, t);
    MissStays(s, t);
    forall u | u in s'.tables ensures TableOk(s', u) {
      assert s.tables[u].attr.miss != Prm(t);
      OtherTable(s, t, u);
    }
    forall g | g in s'.groups ensures GroupOk(s', g) {
      OtherGroup(s, t, g);
    }
    forall r | r in s'.rules ensures RuleOk(s', r) {
      OtherRule(s, t, r);
    }
  }

  lemma MissStays(s: State, t: Ref)
    requires ObjectsOk(s) && t in s.tables
    ensures s.tables[t].attr.miss.Prm? ==> s.tables[t].attr.miss.t in Without(s, t).tables
  {
    hide GroupOk; hide RuleOk; hide CreatedOk;
    assert TableOk(s, t);
  }

  lemma OtherGroup(s: State, t: Ref, g: Ref)
    requires ObjectsOk(s) && t in s.tables && g in Without(s, t).groups
    ensures GroupOk(Without(s, t), g)
  {
    hide TableOk; hide RuleOk;
    assert GroupOk(s, g);
  }

  lemma OtherRule(s: State, t: Ref, r: Ref)
    requires ObjectsOk(s) && t in s.tables && r in Without(s, t).rules
    ensures RuleOk(Without(s, t), r)
  {
    hide TableOk; hide GroupOk; hide FM.ApplyStatus;
    assert RuleOk(s, r);
  }

  lemma OtherTable(s: State, t: Ref, u: Ref)
    requires ObjectsOk(s) && t in s.tables && u in s.tables && u != t && s.tables[u].attr.miss != Prm(t)
    ensures TableOk(Without(s, t), u)
  {
    assert TableOk(s, u) && TableOk(s, t);
    var s' := Without(s, t);
    if s.tables[u].created {
      assert MissOk(s', s.tables[u].attr) && Spec(s', s.tables[u].attr) == Spec(s, s.tables[u].attr);
    }
  }

  /** Only the miss table of a destroyed table can lose what keeps it. */
  lemma StillKept(s: State, t: Ref, u: Ref)
    requires t in s.tables && u in s.tables && u != t && Kept(s, u) && s.tables[t].attr.miss != Prm(u)
    ensures Kept(Without(s, t), u)
  {
    if u !in s.held {
      var w :| w in s.tables && s.tables[w].attr.miss == Prm(u);
      assert w in Without(s, t).tables && Without(s, t).tables[w].attr.miss == Prm(u);
    }
  }

  /** Destruction takes exactly what nothing keeps any more, and leaves the graph closed. */
  lemma {:induction false} CollectKeeps(s: State, t: Ref)
    requires ObjectsOk(s) && t in s.tables && KeptBut(s, t)
    ensures ObjectsOk(Collect(s, t)) && forall u | u in Collect(s, t).tables :: Kept(Collect(s, t), u)
    ensures Collect(s, t).log == s.log && Collect(s, t).held == s.held && Collect(s, t).caps == s.caps
    decreases |s.tables|
  {
    hide ObjectsOk;
    if Kept(s, t) {
      forall u | u in s.tables ensures Kept(s, u) { }
    } else {
      WithoutKeeps(s, t);
      FewerTables(s, t);
      var m, s' := s.tables[t].attr.miss, Without(s, t);
      forall u | u in s'.tables && m != Prm(u) ensures Kept(s', u) {
        StillKept(s, t, u);
      }
      if m.Prm? {
        CollectKeeps(s', m.t);
      }
    }
  }

  /** Destruction changes nothing about what it leaves. */
  lemma {:induction false} CollectLeaves(s: State, t: Ref)
    requires t in s.tables
    ensures forall u | u in Collect(s, t).tables :: u in s.tables && Collect(s, t).tables[u] == s.tables[u]
    ensures forall g | g in Collect(s, t).groups :: g in s.groups && Collect(s, t).groups[g] == s.groups[g]
    ensures Collect(s, t) == s.(tables := Collect(s, t).tables, groups := Collect(s, t).groups,
                                rules := Collect(s, t).rules)
    decreases |s.tables|
  {
    hide Kept;
    if !Kept(s, t) {
      FewerTables(s, t);
      var m := s.tables[t].attr.miss;
      if m.Prm? && m.t in Without(s, t).tables {
        CollectLeaves(Without(s, t), m.t);
      }
    }
  }

  /** Who is held has no bearing on the objects themselves. */
  lemma HeldOnly(s: State, s1: State)
    requires ObjectsOk(s) && s1 == s.(held := s1.held) && s1.held <= s.tables.Keys
    ensures ObjectsOk(s1)
  {
    hide FM.ApplyStatus;
    forall u | u in s1.tables ensures TableOk(s1, u) {
      assert TableOk(s, u);
      if s.tables[u].created {
        assert Spec(s1, s.tables[u].attr) == Spec(s, s.tables[u].attr);
      }
    }
    forall g | g in s1.groups ensures GroupOk(s1, g) {
      assert GroupOk(s, g);
    }
    forall r | r in s1.rules ensures RuleOk(s1, r) {
      assert RuleOk(s, r);
    }
  }

  lemma ReleaseKeeps(s: State, t: Ref)
    requires Inv(s) && t in s.held
    ensures Inv(Collect(s.(held := s.held - {t}), t))
  {
    hide LogOk; hide Collect; hide TableOk; hide GroupOk; hide RuleOk;
    var s1 := s.(held := s.held - {t});
    HeldOnly(s, s1);
    forall u | u in s1.tables && u != t ensures Kept(s1, u) {
      assert Kept(s, u);
    }
    CollectKeeps(s1, t);
  }

  lemma HoldKeeps(s: State, t: Ref)
    requires Inv(s) && Callable(s, Hold(t))
    ensures Inv(s.(held := s.held + {t}))
  {
    hide LogOk; hide CreatedOk;
    var s1 := s.(held := s.held + {t});
    var u :| u in s.held && u in s.tables && s.tables[u].attr.miss == Prm(t);
    assert TableOk(s, u);
    HeldOnly(s, s1);
    forall w | w in s1.tables ensures Kept(s1, w) {
      assert Kept(s, w);
    }
  }

  lemma DestroyTableKeeps(s: State, t: Ref, accepts: bool)
    requires Inv(s) && t in s.tables
    ensures Inv(DestroyTableNext(s, t, accepts))
  {
    hide LogOk; hide Kept; hide TableOk; hide GroupOk; hide RuleOk;
    var s' := DestroyTableNext(s, t, accepts);
    assert Grows(s, s');
    forall u | u in s'.tables ensures TableOk(s', u) && Kept(s', u) {
      if u != t {
        TableStays(s, s', u);
      } else {
        DestroyedTableOk(s, t, accepts);
      }
    }
    forall h | h in s'.groups ensures GroupOk(s', h) {
      GroupTableOf(s, h);
      GroupStays(s, s', h);
    }
    forall q | q in s'.rules ensures RuleOk(s', q) {
      RuleGroup(s, q);
      RuleStays(s, s', q);
    }
  }

  lemma DestroyedTableOk(s: State, t: Ref, accepts: bool)
    requires Inv(s) && t in s.tables && Grows(s, DestroyTableNext(s, t, accepts))
    ensures TableOk(DestroyTableNext(s, t, accepts), t) && Kept(DestroyTableNext(s, t, accepts), t)
  {
    hide LogOk; hide Kept; hide GroupOk; hide RuleOk; hide AttrOk;
    TableSettled(s, DestroyTableNext(s, t, accepts), t);
    assert TableOk(s, t);
  }

  lemma DestroyGroupKeeps(s: State, g: Ref, accepts: bool)
    requires Inv(s) && g in s.groups
    ensures Inv(DestroyGroupNext(s, g, accepts))
  {
    hide LogOk; hide Kept; hide TableOk; hide GroupOk; hide RuleOk;
    var s' := DestroyGroupNext(s, g, accepts);
    assert Grows(s, s');
    TablesSettled(s, s');
    forall h | h in s'.groups ensures GroupOk(s', h) {
      GroupTableOf(s, h);
      if h != g {
        GroupStays(s, s', h);
      } else {
        DestroyedGroupOk(s, g, accepts);
      }
    }
    forall q | q in s'.rules ensures RuleOk(s', q) {
      RuleGroup(s, q);
      RuleStays(s, s', q);
    }
  }

  lemma DestroyedGroupOk(s: State, g: Ref, accepts: bool)
    requires ObjectsOk(s) && g in s.groups
    ensures GroupOk(DestroyGroupNext(s, g, accepts), g)
  {
    hide TableOk; hide RuleOk;
    assert GroupOk(s, g);
  }

  lemma DestroyRuleKeeps(s: State, r: Ref, accepts: bool)
    requires Inv(s) && r in s.rules
    ensures Inv(DestroyRuleNext(s, r, accepts))
  {
    hide LogOk; hide Kept; hide TableOk; hide GroupOk; hide RuleOk;
    var s' := DestroyRuleNext(s, r, accepts);
    assert Grows(s, s');
    TablesSettled(s, s');
    forall h | h in s'.groups ensures GroupOk(s', h) {
      GroupTableOf(s, h);
      GroupStays(s, s', h);
    }
    forall q | q in s'.rules ensures RuleOk(s', q) {
      RuleGroup(s, q);
      if q != r {
        RuleStays(s, s', q);
      } else {
        DestroyedRuleOk(s, r, accepts);
      }
    }
  }

  lemma DestroyedRuleOk(s: State, r: Ref, accepts: bool)
    requires ObjectsOk(s) && r in s.rules
    ensures RuleOk(DestroyRuleNext(s, r, accepts), r)
  {
    hide TableOk; hide GroupOk; hide FM.ApplyStatus;
    assert RuleOk(s, r);
  }

  lemma NextKeeps(s: State, op: Op)
    requires Inv(s) && Callable(s, op)
    ensures Inv(Next(s, op).0)
  {
    hide LogOk; hide ObjectsOk; hide Kept; hide Collect; hide NewTableNext; hide CreateTableNext; hide AddGroupNext;
    hide CreateGroupNext; hide RemoveGroupNext; hide AddRuleNext; hide CreateRuleNext; hide RemoveRuleNext;
    hide DestroyTableNext; hide DestroyGroupNext; hide DestroyRuleNext;
    match op {
      case NewTable(a, memory) => NewTableKeeps(s, a, memory);
      case CreateTable(t, reply) => HeldLive(s, t); CreateTableKeeps(s, t, reply);
      case Hold(t) => HoldKeeps(s, t);
      case Release(t) => HeldLive(s, t); ReleaseKeeps(s, t);
      case AddGroup(t, a, memory) => HeldLive(s, t); AddGroupKeeps(s, t, a, memory);
      case CreateGroup(g, reply) => CreateGroupKeeps(s, g, reply);
      case RemoveGroup(t, g) => HeldLive(s, t); RemoveGroupKeeps(s, t, g);
      case AddRule(g, v, i, valid, memory) => AddRuleKeeps(s, g, v, i, valid, memory);
      case CreateRule(r, a, memory, reply) => CreateRuleKeeps(s, r, a, memory, reply);
      case RemoveRule(g, r) => RemoveRuleKeeps(s, g, r);
      case DestroyTable(t, accepts) => HeldLive(s, t); DestroyTableKeeps(s, t, accepts);
      case DestroyGroup(g, accepts) => DestroyGroupKeeps(s, g, accepts);
      case DestroyRule(r, accepts) => DestroyRuleKeeps(s, r, accepts);
    }
  }

  lemma HeldLive(s: State, t: Ref)
    requires ObjectsOk(s) && t in s.held
    ensures t in s.tables
  {
  }

  /* ---------------------------------------------------------------- whole runs */

  function Initial(caps: Caps): State {
    State(caps, map[], map[], map[], {}, 0, [])
  }

  /** Each operation is one the users can call in the state the earlier ones led to. */
  predicate Legal(caps: Caps, ops: seq<Op>)
    decreases |ops|, 0
  {
    ops == [] || (Legal(caps, ops[..|ops| - 1]) && Callable(RunState(caps, ops[..|ops| - 1]), ops[|ops| - 1]))
  }

  function RunState(caps: Caps, ops: seq<Op>): (s: State)
    requires Legal(caps, ops)
    ensures Inv(s) && s.caps == caps
    decreases |ops|, 1
  {
    if ops == [] then Initial(caps)
    else
      var s := RunState(caps, ops[..|ops| - 1]);
      NextKeeps(s, ops[|ops| - 1]);
      CapsStay(s, ops[|ops| - 1]);
      Next(s, ops[|ops| - 1]).0
  }

  lemma CapsStay(s: State, op: Op)
    requires Inv(s) && Callable(s, op)
    ensures Next(s, op).0.caps == s.caps
  {
    hide LogOk; hide Kept; hide TableOk; hide GroupOk; hide RuleOk; hide Collect; hide FM.ApplyStatus;
    if op.Release? {
      CollectLeaves(s.(held := s.held - {op.t}), op.t);
    }
  }

  /** The tables a packet visits while it misses. */
  function MissChain(s: State, t: Ref): (c: seq<Ref>)
    requires ObjectsOk(s) && t in s.tables && s.tables[t].created
    ensures c != [] && c[0] == t
    decreases s.caps.maxLevel - s.tables[t].attr.level
  {
    assert TableOk(s, t);
    var a := s.tables[t].attr;
    if Forwards(a) then
      assert TableOk(s, a.miss.t);
      [t] + MissChain(s, a.miss.t)
    else [t]
  }

  /** Link `i` of a chain: a live, created table of the chain's type that forwards to the next. */
  predicate Link(s: State, c: seq<Ref>, i: nat)
    requires i < |c|
  {
    && c[i] in s.tables && s.tables[c[i]].created && s.tables[c[i]].attr.kind == FT_RX
    && if i + 1 < |c| then Forwards(s.tables[c[i]].attr) && s.tables[c[i]].attr.miss == Prm(c[i + 1])
       else !Forwards(s.tables[c[i]].attr)
  }

  lemma {:induction false} ChainLinks(s: State, t: Ref, i: nat)
    requires ObjectsOk(s) && t in s.tables && s.tables[t].created && i < |MissChain(s, t)|
    ensures Link(s, MissChain(s, t), i)
    ensures s.tables[MissChain(s, t)[i]].attr.level >= s.tables[t].attr.level + i
    ensures |MissChain(s, t)| - 1 <= s.caps.maxLevel - s.tables[t].attr.level
    decreases s.caps.maxLevel - s.tables[t].attr.level
  {
    assert TableOk(s, t);
    var a := s.tables[t].attr;
    if Forwards(a) {
      assert TableOk(s, a.miss.t);
      var rest := MissChain(s, a.miss.t);
      ChainLinks(s, a.miss.t, if i > 0 then i - 1 else 0);
      assert i > 0 ==> Link(s, rest, i - 1);
    }
  }

  predicate Climbs(s: State, t: Ref, u: Ref) {
    t != u && t in s.tables && u in s.tables && s.tables[t].attr.level < s.tables[u].attr.level
  }

  lemma {:induction false} ChainClimbs(s: State, t: Ref, i: nat, j: nat)
    requires ObjectsOk(s) && t in s.tables && s.tables[t].created && i < j < |MissChain(s, t)|
    ensures MissChain(s, t)[i] in s.tables && MissChain(s, t)[j] in s.tables
    ensures s.tables[MissChain(s, t)[i]].attr.level < s.tables[MissChain(s, t)[j]].attr.level
    decreases i
  {
    ChainLinks(s, t, i);
    ChainLinks(s, t, j);
    assert TableOk(s, t);
    if i > 0 {
      var m := s.tables[t].attr.miss.t;
      assert TableOk(s, m);
      ChainClimbs(s, m, i - 1, j - 1);
    }
  }

  /** After every run: a created table's miss chain visits live, created tables of its own type
      by strictly rising level, never one twice, ends in a table that does not forward, and takes
      at most the maximal level minus its own level hops. */
  lemma MissChainsEnd(caps: Caps, ops: seq<Op>, t: Ref)
    requires Legal(caps, ops) && t in RunState(caps, ops).tables && RunState(caps, ops).tables[t].created
    ensures var s := RunState(caps, ops);
            var c := MissChain(s, t);
            && |c| - 1 <= caps.maxLevel - s.tables[t].attr.level
            && (forall i | 0 <= i < |c| :: Link(s, c, i))
            && (forall i, j | 0 <= i < j < |c| :: Climbs(s, c[i], c[j]))
  {
    hide RunState; hide TableOk; hide LogOk; hide MissChain; hide Link;
    var s := RunState(caps, ops);
    var c := MissChain(s, t);
    forall i | 0 <= i < |c| ensures Link(s, c, i) {
      ChainLinks(s, t, i);
    }
    ChainLinks(s, t, 0);
    forall i, j | 0 <= i < j < |c|
      ensures Climbs(s, c[i], c[j])
    {
      ChainClimbs(s, t, i, j);
    }
  }

  /** What the device was told, in bytes: a table that forwards names one it had already created,
      of the same type and a strictly higher level. */
  lemma MissOnTheWire(caps: Caps, ops: seq<Op>, i: nat) returns (j: nat)
    requires Legal(caps, ops) && i < |RunState(caps, ops).log| && RunState(caps, ops).log[i].TableMade?
    requires SC.DecodeTable(SC.TableCommand(RunState(caps, ops).log[i].spec)).miss.Some?
    ensures j < i && RunState(caps, ops).log[j].TableMade?
    ensures var f := SC.DecodeTable(SC.TableCommand(RunState(caps, ops).log[i].spec));
            var e := SC.DecodeTable(SC.TableCommand(RunState(caps, ops).log[j].spec));
            f.miss == Some(RunState(caps, ops).log[j].id) && f.level < e.level && f.kind == e.kind
  {
    hide RunState; hide SC.DecodeTable; hide SC.TableCommand; hide ObjectsOk; hide Kept;
    var log := RunState(caps, ops).log;
    SC.TableRoundTrip(log[i].spec);
    assert Justified(log[..i], log[i]);
    var e :| e in log[..i] && MissTarget(e, log[i]);
    j :| 0 <= j < i && log[j] == e;
    SC.TableRoundTrip(log[j].spec);
  }

  /** The bytes of an entry. */
  function EntryBytes(f: Event): (b: seq<byte>)
    requires f.EntrySent? && EntryWell(f)
    ensures |b| == f.len && FR.FTE_BYTES <= |b|
  {
    FR.All(FR.Configured(f.len, f.place, f.matcher, f.value), f.acts)
  }

  /** The device matches a packet when it agrees with the entry's value under the group's mask. */
  predicate Hits(mask: seq<byte>, entry: seq<byte>, packet: seq<byte>)
    requires |mask| == SC.GROUP_BYTES && FR.FTE_BYTES <= |entry| && |packet| == FM.PARAM_BYTES
  {
    Matches(packet, FM.Block(mask, SC.MATCH_CRITERIA), FM.Block(entry, FR.MATCH_VALUE))
  }

  /** The table id and the group id an entry's bytes name. */
  function EntryIds(b: seq<byte>): (nat, nat)
    requires FR.FTE_BYTES <= |b|
  {
    (Read(b, FR.TABLE_ID), Read(b, FR.GROUP_ID))
  }

  /** The table id a group creation's bytes name. */
  function GroupTable(b: seq<byte>): nat
    requires |b| == SC.GROUP_BYTES
  {
    Read(b, SC.TABLE_ID)
  }

  lemma EntryReads(f: Event)
    requires f.EntrySent? && EntryWell(f)
    ensures EntryIds(EntryBytes(f)) == (f.place.tableId, f.place.groupId)
    ensures FM.HoldsBlock(EntryBytes(f), FR.MATCH_VALUE, f.matcher, f.value)
  {
    hide FR.AllRoom; hide FR.All; hide FR.Configured; hide Read; hide FM.Items; hide FM.Apply; hide FM.Block;
    hide FR.SomeBit; hide Bit; hide FM.ApplyStatus;
    FR.EntryMeaning(f.len, f.place, f.matcher, f.value, f.acts, 0);
    ModSmall(f.place.tableId, 0x100_0000);
    ModSmall(f.place.groupId, 0x1_0000_0000);
  }

  /** Group mask and entry value, built apart from each other, match exactly the packets that
      agree with the group's criteria on the rule's value. */
  lemma HitsExactly(e: Event, f: Event, packet: seq<byte>)
    requires UnderGroup(e, f) && EntryWell(f) && |packet| == FM.PARAM_BYTES
    ensures Hits(SC.GroupCommand(e.tableId, e.attr), EntryBytes(f), packet)
            <==> FM.PacketAgrees(e.attr.matcher, f.value, packet)
  {
    hide SC.GroupCommand; hide EntryBytes; hide Read; hide FM.Items; hide FM.Apply; hide FM.PacketAgrees;
    hide Matches; hide FM.Block; hide FR.AllRoom; hide FM.ApplyStatus;
    EntryReads(f);
    SC.GroupMeaning(e.tableId, e.attr);
    FM.ApplyStatusExact(f.matcher, f.value);
    FM.MatcherIsExact(f.matcher, f.value, packet);
  }

  /** The entry's bytes name the group and the table id the group's bytes name, and the device
      matches exactly the packets that agree with the criteria. */
  ghost predicate Agree(group: seq<byte>, id: nat, entry: seq<byte>, a: FM.MatcherAttr, v: FM.MatchParams)
    requires |group| == SC.GROUP_BYTES && FR.FTE_BYTES <= |entry| && FM.ApplyStatus(a, v) == Ok
  {
    && EntryIds(entry) == (GroupTable(group), id)
    && forall packet: seq<byte> | |packet| == FM.PARAM_BYTES ::
         Hits(group, entry, packet) <==> FM.PacketAgrees(a, v, packet)
  }

  /** What the device reads from the two commands: a group of the flows and criteria that were meant,
      and an entry of that group, at its index, that asks for exactly the actions applied. */
  predicate ReadsAs(group: seq<byte>, entry: seq<byte>, e: Event, f: Event)
    requires |group| == SC.GROUP_BYTES && FR.FTE_BYTES <= |entry| && e.GroupMade? && f.EntrySent?
  {
    && SC.DecodeGroup(group) == SC.GroupSpec(0x933, e.tableId, e.attr.start, e.attr.end, e.attr.matcher.enabled)
    && var d := FR.DecodeEntry(entry);
       && d.opcode == 0x936 && d.tableId == e.tableId && d.groupId == e.id
       && d.tableType == f.place.tableType % 0x100 && d.flowIndex == f.place.flowIndex % 0x1_0000_0000
       && (FR.DistinctKinds(f.acts) ==> FR.Shows(d, f.acts))
  }

  /** In bytes, entry `f` belongs to the group that `e` created. */
  ghost predicate Wired(e: Event, f: Event) {
    && e.GroupMade? && f.EntrySent? && EntryWell(f) && e.attr.matcher == f.matcher
    && Agree(SC.GroupCommand(e.tableId, e.attr), e.id, EntryBytes(f), e.attr.matcher, f.value)
    && ReadsAs(SC.GroupCommand(e.tableId, e.attr), EntryBytes(f), e, f)
  }

  lemma UnderGroupReads(e: Event, f: Event)
    requires UnderGroup(e, f) && EntryWell(f)
    ensures ReadsAs(SC.GroupCommand(e.tableId, e.attr), EntryBytes(f), e, f)
  {
    hide SC.GroupCommand; hide Read; hide FM.ApplyStatus; hide FR.AllRoom; hide FR.All; hide FR.Configured; hide Bit;
    hide FM.Items; hide FM.Apply; hide FM.Block; hide FR.SomeBit; hide FR.Shows; hide FR.DistinctKinds;
    hide FR.DecodeTargets;
    SC.GroupMeaning(e.tableId, e.attr);
    FR.EntryMeaning(f.len, f.place, f.matcher, f.value, f.acts, 0);
    ModSmall(f.place.tableId, 0x100_0000);
    ModSmall(f.place.groupId, 0x1_0000_0000);
  }

  lemma UnderGroupIsWired(e: Event, f: Event)
    requires UnderGroup(e, f) && EntryWell(f)
    ensures Wired(e, f)
  {
    hide SC.GroupCommand; hide EntryBytes; hide Read; hide FM.PacketAgrees; hide Hits; hide EntryIds; hide FR.AllRoom;
    hide FM.ApplyStatus;
    hide ReadsAs;
    EntryReads(f);
    UnderGroupReads(e, f);
    SC.GroupMeaning(e.tableId, e.attr);
    forall packet: seq<byte> | |packet| == FM.PARAM_BYTES
      ensures Hits(SC.GroupCommand(e.tableId, e.attr), EntryBytes(f), packet)
              <==> FM.PacketAgrees(e.attr.matcher, f.value, packet)
    {
      HitsExactly(e, f, packet);
    }
  }

  /** Over every run: an entry that was sent names a group the device had created before, under the
      very table id the entry names, which is the id of a table it had created before that. */
  lemma EntryOnTheWire(caps: Caps, ops: seq<Op>, i: nat) returns (j: nat, k: nat)
    requires Legal(caps, ops) && i < |RunState(caps, ops).log| && RunState(caps, ops).log[i].EntrySent?
    ensures k < j < i && Wired(RunState(caps, ops).log[j], RunState(caps, ops).log[i])
    ensures UnderTable(RunState(caps, ops).log[k], RunState(caps, ops).log[j])
  {
    hide RunState; hide Wired; hide EntryWell; hide ObjectsOk; hide Kept;
    var log := RunState(caps, ops).log;
    assert Justified(log[..i], log[i]);
    var e :| e in log[..i] && UnderGroup(e, log[i]);
    j :| 0 <= j < i && log[j] == e;
    assert Justified(log[..j], log[j]);
    var d :| d in log[..j] && UnderTable(d, log[j]);
    k :| 0 <= k < j && log[k] == d;
    UnderGroupIsWired(log[j], log[i]);
  }

  lemma OnlyRulesSend(s: State, op: Op)
    requires Inv(s) && Callable(s, op) && !op.CreateRule?
    ensures var l := Next(s, op).0.log; l == s.log || (|l| == |s.log| + 1 && !l[|s.log|].EntrySent?)
  {
    hide LogOk; hide Kept; hide Collect; hide TableOk; hide GroupOk; hide RuleOk;
    if op.Release? {
      ReleaseKeepsLog(s, op.t);
    }
  }

  /** When a rule's creation sends an entry, its group and its table are alive and created, and
      the entry is placed under their ids. */
  lemma SentWhileAlive(caps: Caps, ops: seq<Op>, op: Op)
    requires Legal(caps, ops) && Callable(RunState(caps, ops), op)
    requires exists f :: Next(RunState(caps, ops), op).0.log == RunState(caps, ops).log + [f] && f.EntrySent?
    ensures op.CreateRule? && Sends(RunState(caps, ops), RunState(caps, ops).rules[op.r], op.actions)
    ensures var s := RunState(caps, ops);
            var x := s.rules[op.r];
            && s.groups[x.group].table == x.table && x.group in s.tables[x.table].groups
            && Next(s, op).0.log == s.log + [Entry(s, x, op.actions)]
  {
    hide RunState; hide LogOk; hide Kept; hide FM.ApplyStatus; hide FR.AllRoom; hide Collect; hide AttrOk;
    hide CreatedOk; hide Next;
    var s := RunState(caps, ops);
    var f :| Next(s, op).0.log == s.log + [f] && f.EntrySent?;
    assert Next(s, op).0.log[|s.log|] == f && |s.log + [f]| == |s.log| + 1;
    if !op.CreateRule? {
      OnlyRulesSend(s, op);
    } else {
      RuleSends(s, op);
    }
  }

  lemma RuleSends(s: State, op: Op)
    requires Inv(s) && Callable(s, op) && op.CreateRule? && |Next(s, op).0.log| > |s.log|
    ensures Sends(s, s.rules[op.r], op.actions)
    ensures var x := s.rules[op.r];
            && s.groups[x.group].table == x.table && x.group in s.tables[x.table].groups
            && Next(s, op).0.log == s.log + [Entry(s, x, op.actions)]
  {
    hide LogOk; hide Kept; hide FM.ApplyStatus; hide FR.AllRoom; hide AttrOk; hide CreatedOk;
    assert RuleOk(s, op.r) && GroupOk(s, s.rules[op.r].group);
  }

  lemma ReleaseKeepsLog(s: State, t: Ref)
    requires Inv(s) && t in s.held
    ensures t in s.tables && Collect(s.(held := s.held - {t}), t).log == s.log
  {
    hide LogOk; hide Collect; hide TableOk; hide GroupOk; hide RuleOk; hide Kept;
    CollectLeaves(s.(held := s.held - {t}), t);
  }

  lemma Extend(caps: Caps, ops: seq<Op>, op: Op, s: State)
    requires Legal(caps, ops) && RunState(caps, ops) == s && Callable(s, op)
    ensures ObjectsOk(s) && Legal(caps, ops + [op]) && RunState(caps, ops + [op]) == Next(s, op).0
  {
    hide Next; hide Callable; hide LogOk; hide Kept; hide ObjectsOk;
    assert (ops + [op])[..|ops|] == ops;
  }

  /** Two tables, the lower forwarding to the higher, each accepted. */
  function Tables(low: u8, high: u8): seq<Op> {
    [] + [NewTable(TableAttr(high, FT_RX, true, Default, NoTable, 0, false, false), true)]
    + [CreateTable(0, Accepted(10))]
    + [NewTable(TableAttr(low, FT_RX, true, Forward, Prm(0), 0, false, false), true)]
    + [CreateTable(1, Accepted(11))]
  }

  function TablesState(caps: Caps, low: u8, high: u8): State {
    var ta := TableAttr(high, FT_RX, true, Default, NoTable, 0, false, false);
    var tb := TableAttr(low, FT_RX, true, Forward, Prm(0), 0, false, false);
    State(caps, map[0 := Table(ta, true, Linked, 10, {}), 1 := Table(tb, true, Linked, 11, {})], map[], map[],
          {0, 1}, 2,
          [TableMade(0, SC.TableSpec(high, FT_RX, 0, false, false, None), 10),
           TableMade(1, SC.TableSpec(low, FT_RX, 0, false, false, Some(10)), 11)])
  }

  lemma TwoTables(caps: Caps, low: u8, high: u8)
    requires caps.supported && 1 <= low < high <= caps.maxLevel
    ensures Legal(caps, Tables(low, high)) && RunState(caps, Tables(low, high)) == TablesState(caps, low, high)
  {
    hide Legal; hide RunState; hide Inv; hide ObjectsOk; hide FM.ApplyStatus; hide FR.AllRoom; hide Collect;
    var ta := TableAttr(high, FT_RX, true, Default, NoTable, 0, false, false);
    var tb := TableAttr(low, FT_RX, true, Forward, Prm(0), 0, false, false);
    var s0, o0: seq<Op> := Initial(caps), [];
    EmptyRun(caps);
    var p1 := NewTable(ta, true);
    Extend(caps, o0, p1, s0);
    var s1 := State(caps, map[0 := Table(ta, false, Unmade, 0, {})], map[], map[], {0}, 1, []);
    assert Next(s0, p1).0 == s1;
    var p2 := CreateTable(0, Accepted(10));
    Extend(caps, o0 + [p1], p2, s1);
    var e1 := TableMade(0, SC.TableSpec(high, FT_RX, 0, false, false, None), 10);
    var s2 := State(caps, map[0 := Table(ta, true, Linked, 10, {})], map[], map[], {0}, 1, [e1]);
    assert Next(s1, p2).0 == s2;
    var p3 := NewTable(tb, true);
    Extend(caps, o0 + [p1] + [p2], p3, s2);
    var s3 := State(caps, map[0 := Table(ta, true, Linked, 10, {}), 1 := Table(tb, false, Unmade, 0, {})], map[], map[],
                    {0, 1}, 2, [e1]);
    assert Next(s2, p3).0 == s3;
    Extend(caps, o0 + [p1] + [p2] + [p3], CreateTable(1, Accepted(11)), s3);
    assert Next(s3, CreateTable(1, Accepted(11))).0 == TablesState(caps, low, high);
  }

  /** Also a group, accepted, and a rule in it. */
  function Prepared(low: u8, high: u8, g: SC.GroupAttr, v: FM.MatchParams): seq<Op> {
    Tables(low, high)
    + [AddGroup(1, g, true)]
    + [CreateGroup(2, Accepted(12))]
    + [AddRule(2, v, 0, true, true)]
  }

  /** The rule is accepted as well. */
  function FirstRule(low: u8, high: u8, g: SC.GroupAttr, v: FM.MatchParams, a: Actions): seq<Op> {
    Prepared(low, high, g, v) + [CreateRule(3, a, true, Accepted(13))]
  }

  /** The commands that made the tables and the group. */
  function PreparedLog(low: u8, high: u8, g: SC.GroupAttr): seq<Event> {
    [TableMade(0, SC.TableSpec(high, FT_RX, 0, false, false, None), 10),
     TableMade(1, SC.TableSpec(low, FT_RX, 0, false, false, Some(10)), 11), GroupMade(2, 11, g, 12)]
  }

  function PreparedState(caps: Caps, low: u8, high: u8, g: SC.GroupAttr, v: FM.MatchParams): State {
    var ta := TableAttr(high, FT_RX, true, Default, NoTable, 0, false, false);
    var tb := TableAttr(low, FT_RX, true, Forward, Prm(0), 0, false, false);
    State(caps, map[0 := Table(ta, true, Linked, 10, {}), 1 := Table(tb, true, Linked, 11, {2})],
          map[2 := Group(1, g, true, Linked, 12, {3})],
          map[3 := Rule(1, 2, g.matcher, v, 0, true, false, Unmade)], {0, 1}, 4, PreparedLog(low, high, g))
  }

  lemma PreparedRun(caps: Caps, low: u8, high: u8, g: SC.GroupAttr, v: FM.MatchParams)
    requires caps.supported && 1 <= low < high <= caps.maxLevel
    ensures Legal(caps, Prepared(low, high, g, v))
    ensures RunState(caps, Prepared(low, high, g, v)) == PreparedState(caps, low, high, g, v)
  {
    hide Legal; hide RunState; hide Inv;
    TwoTables(caps, low, high);
    var s := TablesState(caps, low, high);
    GroupAndRule(caps, Tables(low, high), s, g, v);
    assert s.tables[1].groups + {2} == {2} && {} + {3} == {3};
  }

  lemma EmptyRun(caps: Caps)
    ensures Legal(caps, []) && RunState(caps, []) == Initial(caps)
  {
  }

  lemma GroupAndRule(caps: Caps, ops: seq<Op>, s: State, g: SC.GroupAttr, v: FM.MatchParams)
    requires Legal(caps, ops) && RunState(caps, ops) == s
    requires s.next == 2 && s.groups == map[] && s.rules == map[] && 1 in s.held && 1 in s.tables
    requires s.tables[1].created && s.tables[1].groups == {} && s.tables[1].attr.kind == FT_RX
    ensures var rest := ops + [AddGroup(1, g, true)] + [CreateGroup(2, Accepted(12))] + [AddRule(2, v, 0, true, true)];
            var t := s.tables[1];
            && Legal(caps, rest)
            && RunState(caps, rest) ==
               s.(tables := s.tables[1 := t.(groups := t.groups + {2})],
                  groups := map[2 := Group(1, g, true, Linked, 12, {} + {3})],
                  rules := map[3 := Rule(1, 2, g.matcher, v, 0, true, false, Unmade)], next := 4,
                  log := s.log + [GroupMade(2, t.id, g, 12)])
  {
    hide Legal; hide RunState; hide Inv; hide ObjectsOk; hide FM.ApplyStatus; hide FR.AllRoom; hide Collect;
    var t := s.tables[1];
    var p1 := AddGroup(1, g, true);
    Extend(caps, ops, p1, s);
    var s1 := s.(tables := s.tables[1 := t.(groups := t.groups + {2})],
                 groups := s.groups[2 := Group(1, g, false, Unmade, 0, {})], next := 3);
    assert Next(s, p1).0 == s1;
    var p2 := CreateGroup(2, Accepted(12));
    Extend(caps, ops + [p1], p2, s1);
    var e := GroupMade(2, t.id, g, 12);
    var s2 := s1.(groups := s1.groups[2 := Group(1, g, true, Linked, 12, {})], log := s.log + [e]);
    assert Next(s1, p2).0 == s2;
    var p3 := AddRule(2, v, 0, true, true);
    Extend(caps, ops + [p1] + [p2], p3, s2);
    var s3 := s2.(groups := s2.groups[2 := Group(1, g, true, Linked, 12, {} + {3})],
                  rules := s2.rules[3 := Rule(1, 2, g.matcher, v, 0, true, false, Unmade)], next := 4);
    assert Next(s2, p3).0 == s3;
    assert s3.groups == map[2 := Group(1, g, true, Linked, 12, {} + {3})];
  }

  /** Such runs exist for all levels, criteria, values and actions, and send what they should. */
  lemma FirstRuleSends(caps: Caps, low: u8, high: u8, g: SC.GroupAttr, v: FM.MatchParams, a: Actions)
    requires caps.supported && 1 <= low < high <= caps.maxLevel && FM.ApplyStatus(g.matcher, v) == Ok
    requires a.Applied? && FR.FTE_BYTES <= a.len && FR.AllRoom(a.acts, a.len)
    ensures Legal(caps, FirstRule(low, high, g, v, a))
    ensures RunState(caps, FirstRule(low, high, g, v, a)).log ==
            [TableMade(0, SC.TableSpec(high, FT_RX, 0, false, false, None), 10),
             TableMade(1, SC.TableSpec(low, FT_RX, 0, false, false, Some(10)), 11),
             GroupMade(2, 11, g, 12),
             EntrySent(2, FR.Place(FT_RX, 11, 12, 0), g.matcher, v, a.acts, a.len)]
  {
    hide Legal; hide RunState; hide Inv; hide ObjectsOk; hide FM.ApplyStatus; hide FR.AllRoom; hide Collect;
    hide Prepared;
    PreparedRun(caps, low, high, g, v);
    Extend(caps, Prepared(low, high, g, v), CreateRule(3, a, true, Accepted(13)), PreparedState(caps, low, high, g, v));
  }

  /* ---------------------------------------------------------------- explicit destruction */

  /** What one operation does to a table that is there before and after it. */
  lemma TableStep(s: State, op: Op, t: Ref)
    requires Inv(s) && Callable(s, op) && t in Next(s, op).0.tables
    ensures var s' := Next(s, op).0;
            && (t !in s.tables ==> t == s.next && !s'.tables[t].created)
            && (t in s.tables && s.tables[t].created ==>
                  && s'.tables[t].created
                  && s'.tables[t].dev == if op.DestroyTable? && op.t == t then AfterDestroy(s.tables[t].dev, op.accepts)
                                       else s.tables[t].dev)
            && (t in s.tables && !s.tables[t].created && s'.tables[t].created ==> s'.tables[t].dev == Linked)
  {
    hide LogOk; hide Kept; hide TableOk; hide GroupOk; hide RuleOk; hide Collect; hide FM.ApplyStatus;
    NextIsFresh(s);
    if op.Release? {
      HeldLive(s, op.t);
      CollectLeaves(s.(held := s.held - {op.t}), op.t);
    }
  }

  lemma GroupStep(s: State, op: Op, g: Ref)
    requires Inv(s) && Callable(s, op) && g in Next(s, op).0.groups
    ensures var s' := Next(s, op).0;
            && (g !in s.groups ==> g == s.next && !s'.groups[g].created)
            && (g in s.groups && s.groups[g].created ==>
                  && s'.groups[g].created
                  && s'.groups[g].dev == if op.DestroyGroup? && op.g == g then AfterDestroy(s.groups[g].dev, op.accepts)
                                       else s.groups[g].dev)
            && (g in s.groups && !s.groups[g].created && s'.groups[g].created ==> s'.groups[g].dev == Linked)
  {
    hide LogOk; hide Kept; hide TableOk; hide GroupOk; hide RuleOk; hide Collect; hide FM.ApplyStatus;
    NextIsFresh(s);
    if op.Release? {
      HeldLive(s, op.t);
      CollectLeaves(s.(held := s.held - {op.t}), op.t);
    }
  }

  lemma NextGrows(s: State, op: Op)
    requires Inv(s) && Callable(s, op)
    ensures s.next <= Next(s, op).0.next
  {
    hide LogOk; hide Kept; hide TableOk; hide GroupOk; hide RuleOk; hide Collect; hide FM.ApplyStatus;
    NextIsFresh(s);
    if op.Release? {
      HeldLive(s, op.t);
      CollectLeaves(s.(held := s.held - {op.t}), op.t);
    }
  }

  /** destroy() was called on the table after it had been created. */
  predicate TableDestroyed(caps: Caps, ops: seq<Op>, t: Ref)
    requires Legal(caps, ops)
  {
    ops != [] &&
    var pre, op := ops[..|ops| - 1], ops[|ops| - 1];
    var s := RunState(caps, pre);
    (op.DestroyTable? && op.t == t && t in s.tables && s.tables[t].created) || TableDestroyed(caps, pre, t)
  }

  /** The device accepted the first such call. */
  predicate TableTaken(caps: Caps, ops: seq<Op>, t: Ref)
    requires Legal(caps, ops)
  {
    ops != [] &&
    var pre, op := ops[..|ops| - 1], ops[|ops| - 1];
    var s := RunState(caps, pre);
    || (op == DestroyTable(t, true) && t in s.tables && s.tables[t].created && !TableDestroyed(caps, pre, t))
    || TableTaken(caps, pre, t)
  }

  /** destroy() was called on the group after it had been created. */
  predicate GroupDestroyed(caps: Caps, ops: seq<Op>, g: Ref)
    requires Legal(caps, ops)
  {
    ops != [] &&
    var pre, op := ops[..|ops| - 1], ops[|ops| - 1];
    var s := RunState(caps, pre);
    (op.DestroyGroup? && op.g == g && g in s.groups && s.groups[g].created) || GroupDestroyed(caps, pre, g)
  }

  /** The device accepted the first such call. */
  predicate GroupTaken(caps: Caps, ops: seq<Op>, g: Ref)
    requires Legal(caps, ops)
  {
    ops != [] &&
    var pre, op := ops[..|ops| - 1], ops[|ops| - 1];
    var s := RunState(caps, pre);
    || (op == DestroyGroup(g, true) && g in s.groups && s.groups[g].created && !GroupDestroyed(caps, pre, g))
    || GroupTaken(caps, pre, g)
  }

  /** After every run: the device no longer has the object of a created table exactly when it
      accepted the first destroy() since the creation, whatever was called or answered later; and the
      host still holds the handle exactly when there was no such call. */
  lemma {:induction false} TableGoneExactly(caps: Caps, ops: seq<Op>, t: Ref)
    requires Legal(caps, ops)
    ensures var s := RunState(caps, ops);
            && (t in s.tables && s.tables[t].created ==>
                  && (s.tables[t].dev.Gone? <==> TableTaken(caps, ops, t))
                  && (Exists(s.tables[t].dev) <==> !TableTaken(caps, ops, t))
                  && (s.tables[t].dev.Linked? <==> !TableDestroyed(caps, ops, t)))
            && (TableDestroyed(caps, ops, t) ==> t < s.next && (t in s.tables ==> s.tables[t].created))
            && (TableTaken(caps, ops, t) ==> TableDestroyed(caps, ops, t))
    decreases |ops|
  {
    hide Next; hide LogOk; hide Kept; hide ObjectsOk; hide Callable;
    if ops != [] {
      var pre, op := ops[..|ops| - 1], ops[|ops| - 1];
      var s := RunState(caps, pre);
      TableGoneExactly(caps, pre, t);
      NextGrows(s, op);
      TableRefs(s, t);
      if t in Next(s, op).0.tables {
        TableStep(s, op, t);
      }
    }
  }

  lemma TableRefs(s: State, t: Ref)
    requires Inv(s)
    ensures t in s.tables ==> t < s.next
    ensures t in s.groups ==> t < s.next
  {
    hide LogOk; hide Kept; hide AttrOk; hide CreatedOk;
    if t in s.tables { assert TableOk(s, t); }
    if t in s.groups { assert GroupOk(s, t); }
  }

  lemma {:induction false} GroupGoneExactly(caps: Caps, ops: seq<Op>, g: Ref)
    requires Legal(caps, ops)
    ensures var s := RunState(caps, ops);
            && (g in s.groups && s.groups[g].created ==>
                  && (s.groups[g].dev.Gone? <==> GroupTaken(caps, ops, g))
                  && (Exists(s.groups[g].dev) <==> !GroupTaken(caps, ops, g))
                  && (s.groups[g].dev.Linked? <==> !GroupDestroyed(caps, ops, g)))
            && (GroupDestroyed(caps, ops, g) ==> g < s.next && (g in s.groups ==> s.groups[g].created))
            && (GroupTaken(caps, ops, g) ==> GroupDestroyed(caps, ops, g))
    decreases |ops|
  {
    hide Next; hide LogOk; hide Kept; hide ObjectsOk; hide Callable;
    if ops != [] {
      var pre, op := ops[..|ops| - 1], ops[|ops| - 1];
      var s := RunState(caps, pre);
      GroupGoneExactly(caps, pre, g);
      NextGrows(s, op);
      TableRefs(s, g);
      if g in Next(s, op).0.groups {
        GroupStep(s, op, g);
      }
    }
  }

  /** Over every run: an entry is sent under a device object that is gone exactly when the device
      accepted the first destroy() of its group or of its table; so never where neither was called. */
  lemma SentUnderGoneExactly(caps: Caps, ops: seq<Op>, r: Ref, a: Actions)
    requires Legal(caps, ops) && r in RunState(caps, ops).rules
    requires Sends(RunState(caps, ops), RunState(caps, ops).rules[r], a)
    ensures var s := RunState(caps, ops);
            var x := s.rules[r];
            && (!Exists(s.tables[x.table].dev) || !Exists(s.groups[x.group].dev) <==>
                  TableTaken(caps, ops, x.table) || GroupTaken(caps, ops, x.group))
            && (TableTaken(caps, ops, x.table) ==> TableDestroyed(caps, ops, x.table))
            && (GroupTaken(caps, ops, x.group) ==> GroupDestroyed(caps, ops, x.group))
  {
    hide RunState; hide Inv; hide TableDestroyed; hide GroupDestroyed; hide TableTaken; hide GroupTaken;
    hide FM.ApplyStatus;
    var x := RunState(caps, ops).rules[r];
    TableGoneExactly(caps, ops, x.table);
    GroupGoneExactly(caps, ops, x.group);
  }

  /** A run of that kind, for all levels, criteria, values and actions: destroy() on the group, then
      the rule. The entry goes out under the group's id either way; when the device accepted the
      destroy() there is no such group any more. */
  lemma EntryUnderGoneGroup(caps: Caps, low: u8, high: u8, g: SC.GroupAttr, v: FM.MatchParams, a: Actions,
                            accepts: bool)
    requires caps.supported && 1 <= low < high <= caps.maxLevel && FM.ApplyStatus(g.matcher, v) == Ok
    requires a.Applied? && FR.FTE_BYTES <= a.len && FR.AllRoom(a.acts, a.len)
    ensures var ops := Prepared(low, high, g, v) + [DestroyGroup(2, accepts)];
            && Legal(caps, ops) && Legal(caps, ops + [CreateRule(3, a, true, Accepted(13))])
            && 2 in RunState(caps, ops).groups && RunState(caps, ops).groups[2].id == 12
            && (Exists(RunState(caps, ops).groups[2].dev) <==> !accepts)
            && RunState(caps, ops + [CreateRule(3, a, true, Accepted(13))]).log ==
               RunState(caps, ops).log + [EntrySent(2, FR.Place(FT_RX, 11, 12, 0), g.matcher, v, a.acts, a.len)]
  {
    hide Legal; hide RunState; hide Inv; hide ObjectsOk; hide FM.ApplyStatus; hide FR.AllRoom; hide Collect;
    hide Prepared;
    PreparedRun(caps, low, high, g, v);
    var s := PreparedState(caps, low, high, g, v);
    var ops := Prepared(low, high, g, v);
    Extend(caps, ops, DestroyGroup(2, accepts), s);
    var s1 := s.(groups := s.groups[2 := s.groups[2].(dev := AfterDestroy(Linked, accepts))]);
    assert Next(s, DestroyGroup(2, accepts)).0 == s1;
    Extend(caps, ops + [DestroyGroup(2, accepts)], CreateRule(3, a, true, Accepted(13)), s1);
  }

  /* ---------------------------------------------------------------- criteria nobody can match */

  /** A table and a group in it, each accepted. */
  function FirstGroup(level: u8, g: SC.GroupAttr): seq<Op> {
    [] + [NewTable(TableAttr(level, FT_RX, true, Default, NoTable, 0, false, false), true)]
    + [CreateTable(0, Accepted(10))]
    + [AddGroup(0, g, true)]
    + [CreateGroup(1, Accepted(11))]
  }

  /** A group's creation does not ask whether its criteria could be applied: whatever criteria the
      matcher refuses, there is a run in which the device is sent the group and accepts it. */
  lemma UnsupportedGroupIsCreated(caps: Caps, level: u8, g: SC.GroupAttr)
    requires caps.supported && 1 <= level <= caps.maxLevel
    requires FM.ApplyStatus(g.matcher, g.matcher.criteria) != Ok
    ensures Legal(caps, FirstGroup(level, g))
    ensures RunState(caps, FirstGroup(level, g)).log ==
            [TableMade(0, SC.TableSpec(level, FT_RX, 0, false, false, None), 10), GroupMade(1, 10, g, 11)]
    ensures 1 in RunState(caps, FirstGroup(level, g)).groups && RunState(caps, FirstGroup(level, g)).groups[1].created
  {
    hide Legal; hide RunState; hide Inv; hide ObjectsOk; hide FM.ApplyStatus; hide FR.AllRoom; hide Collect;
    var ta := TableAttr(level, FT_RX, true, Default, NoTable, 0, false, false);
    var s0, o0: seq<Op> := Initial(caps), [];
    EmptyRun(caps);
    var p1 := NewTable(ta, true);
    Extend(caps, o0, p1, s0);
    var s1 := State(caps, map[0 := Table(ta, false, Unmade, 0, {})], map[], map[], {0}, 1, []);
    assert Next(s0, p1).0 == s1;
    var p2 := CreateTable(0, Accepted(10));
    Extend(caps, o0 + [p1], p2, s1);
    var e := TableMade(0, SC.TableSpec(level, FT_RX, 0, false, false, None), 10);
    var s2 := State(caps, map[0 := Table(ta, true, Linked, 10, {})], map[], map[], {0}, 1, [e]);
    assert Next(s1, p2).0 == s2;
    var p3 := AddGroup(0, g, true);
    Extend(caps, o0 + [p1] + [p2], p3, s2);
    var s3 := s2.(tables := s2.tables[0 := Table(ta, true, Linked, 10, {} + {1})],
                  groups := s2.groups[1 := Group(0, g, false, Unmade, 0, {})], next := 2);
    assert Next(s2, p3).0 == s3;
    Extend(caps, o0 + [p1] + [p2] + [p3], CreateGroup(1, Accepted(11)), s3);
  }

  /** But no rule of a group whose criteria could not be applied is ever created, whatever it
      matches on, and no entry for it is ever sent. */
  lemma UnsupportedGroupStaysEmpty(caps: Caps, ops: seq<Op>, r: Ref, a: Actions, memory: bool, reply: Reply)
    requires Legal(caps, ops) && Callable(RunState(caps, ops), CreateRule(r, a, memory, reply))
    requires var x := RunState(caps, ops).rules[r];
             FM.ApplyStatus(x.matcher, x.matcher.criteria) != Ok
    ensures RunState(caps, ops).rules[r].group in RunState(caps, ops).groups
    ensures RunState(caps, ops).groups[RunState(caps, ops).rules[r].group].attr.matcher ==
            RunState(caps, ops).rules[r].matcher
    ensures !RunState(caps, ops).rules[r].created
    ensures Next(RunState(caps, ops), CreateRule(r, a, memory, reply)).1 != Ok
    ensures Next(RunState(caps, ops), CreateRule(r, a, memory, reply)).0 == RunState(caps, ops)
  {
    hide RunState; hide LogOk; hide Kept; hide AttrOk; hide CreatedOk; hide FM.ApplyStatus; hide FR.AllRoom;
    var s := RunState(caps, ops);
    var x := s.rules[r];
    assert RuleOk(s, r);
    FM.ApplyStatusExact(x.matcher, x.value);
  }

  /* ---------------------------------------------------------------- who keeps a table alive */

  /** A path along miss pointers. */
  predicate Path(s: State, p: seq<Ref>) {
    && p != []
    && (forall i | 0 <= i < |p| :: p[i] in s.tables)
    && forall i | 0 <= i < |p| - 1 :: s.tables[p[i]].attr.miss == Prm(p[i + 1])
  }

  lemma PathSnoc(s: State, q: seq<Ref>, t: Ref)
    requires Path(s, q) && t in s.tables && s.tables[q[|q| - 1]].attr.miss == Prm(t)
    ensures q != [] && Path(s, q + [t]) && (q + [t])[0] == q[0]
  {
    assert forall i | 0 <= i < |q| :: (q + [t])[i] == q[i];
  }

  lemma {:induction false} HeldPath(s: State, t: Ref) returns (p: seq<Ref>)
    requires Inv(s) && t in s.tables
    ensures Path(s, p) && p[0] in s.held && p[|p| - 1] == t
    decreases s.next - t
  {
    hide LogOk; hide CreatedOk; hide Path; hide GroupOk; hide RuleOk;
    assert Kept(s, t) && TableOk(s, t);
    if t in s.held {
      p := [t];
      assert Path(s, p) by { OneTable(s, t); }
    } else {
      var u :| u in s.tables && s.tables[u].attr.miss == Prm(t);
      assert TableOk(s, u);
      var q := HeldPath(s, u);
      PathSnoc(s, q, t);
      p := q + [t];
    }
  }

  lemma OneTable(s: State, t: Ref)
    requires t in s.tables
    ensures Path(s, [t])
  {
  }

  /** After every run the live tables are those reachable from the tables users hold: nothing a
      user holds or a live table forwards to is gone, and nothing else is left. */
  lemma AliveExactly(caps: Caps, ops: seq<Op>, t: Ref)
    requires Legal(caps, ops)
    ensures var s := RunState(caps, ops);
            && (t in s.held ==> t in s.tables)
            && (t in s.tables && s.tables[t].attr.miss.Prm? ==> s.tables[t].attr.miss.t in s.tables)
            && (t in s.tables ==> exists p :: Path(s, p) && p[0] in s.held && p[|p| - 1] == t)
  {
    hide RunState; hide LogOk; hide Kept; hide CreatedOk;
    var s := RunState(caps, ops);
    if t in s.tables {
      var p := HeldPath(s, t);
      assert TableOk(s, t);
    }
  }
}
