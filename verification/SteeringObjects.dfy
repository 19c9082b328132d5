/** The steering objects of one adapter, updated in place by the calls of its users.

    Every method refines the transition of its name in `Steering`. */
module SteeringObjects {
  import opened Common
  import opened CommandBuffer
  import opened Steering
  import FM = FlowMatcher
  import FR = FlowRule
  import MH = ModifyHeader
  import SC = SteeringCommands

  /** What flow_rule_ex::verify_flow_actions accepts. */
  predicate Acceptable(actions: seq<FR.FlowAction>) {
    actions != [] && FR.DistinctActions(actions) && FR.HasForward(actions)
  }

  /** The object behind a rule is the rule. */
  ghost predicate Coupled(x: Rule, o: FR.Rule) {
    && x.value == o.matchValue && x.matcher == o.matcher.attr && x.flowIndex == o.flowIndex
    && x.validActions == o.validActions && FR.Filed(o.actions)
  }

  /** Every rule has its object. */
  ghost predicate Coupling(rules: map<Ref, Rule>, objects: map<Ref, FR.Rule>) {
    objects.Keys == rules.Keys && forall r | r in objects :: Coupled(rules[r], objects[r])
  }

  lemma CoupledAt(rules: map<Ref, Rule>, objects: map<Ref, FR.Rule>, r: Ref)
    requires Coupling(rules, objects) && r in rules
    ensures r in objects && Coupled(rules[r], objects[r])
  {
    hide Coupled;
  }

  lemma CouplingWith(rules: map<Ref, Rule>, objects: map<Ref, FR.Rule>, r: Ref, x: Rule, o: FR.Rule)
    requires Coupling(rules, objects) && r !in rules && Coupled(x, o)
    ensures Coupling(rules[r := x], objects[r := o])
  {
    hide Coupled;
  }

  /** What adding a rule does, in each of its three outcomes. */
  lemma RuleAddition(s: State, op: Op)
    requires ObjectsOk(s) && op.AddRule? && op.g in s.groups
    ensures !s.groups[op.g].created ==> Steps(s, op, s, ErrNotApplied)
    ensures s.groups[op.g].created && !op.memory ==> Steps(s, op, s, ErrNoMemory)
    ensures s.groups[op.g].created && op.memory ==>
              var x := s.groups[op.g];
              Steps(s, op, s.(groups := s.groups[op.g := x.(rules := x.rules + {s.next})],
                              rules := s.rules[s.next := Rule(x.table, op.g, x.attr.matcher, op.value, op.flowIndex,
                                                              op.validActions, false, Unmade)],
                              next := s.next + 1), Ok)
  {
    hide ObjectsOk;
  }

  lemma CouplingChanged(rules: map<Ref, Rule>, objects: map<Ref, FR.Rule>, r: Ref, created: bool, dev: DeviceObject)
    requires Coupling(rules, objects) && r in rules
    ensures Coupling(rules[r := rules[r].(created := created, dev := dev)], objects)
  {
    hide FR.Filed;
  }

  /** What creating a rule does to the domain, given whether an entry was sent. */
  lemma OutcomeIs(s: State, r: Ref, a: Actions, memory: bool, reply: Reply, st: Status, sent: bool)
    requires Inv(s) && Callable(s, CreateRule(r, a, memory, reply))
    requires sent ==> Sends(s, s.rules[r], a) && memory && st == if reply.Rejected? then ErrCreate else Ok
    requires !sent ==> a == Refused(st)
    requires !s.rules[r].validActions ==> st == ErrInvalidParam && !sent
    requires s.rules[r].validActions && !memory ==> st == ErrNoMemory && !sent
    requires s.rules[r].validActions && memory && FM.ApplyStatus(s.rules[r].matcher, s.rules[r].value) != Ok ==>
               st == FM.ApplyStatus(s.rules[r].matcher, s.rules[r].value) && !sent
    ensures s.rules[r].table in s.tables && s.rules[r].group in s.groups
    ensures s.tables[s.rules[r].table].created && s.groups[s.rules[r].group].created
    ensures Steps(s, CreateRule(r, a, memory, reply),
                  if !sent then s
                  else if st == Ok then s.(log := s.log + [Entry(s, s.rules[r], a)],
                                           rules := s.rules[r := s.rules[r].(created := true, dev := Linked)])
                  else s.(log := s.log + [Entry(s, s.rules[r], a)], rules := s.rules), st)
  {
    hide LogOk; hide Kept; hide AttrOk; hide CreatedOk; hide FM.ApplyStatus; hide FR.AllRoom;
    assert RuleOk(s, r) && GroupOk(s, s.rules[r].group) && TableOk(s, s.rules[r].table);
  }

  lemma RuleDestroyed(s: State, r: Ref, accepts: bool)
    requires ObjectsOk(s) && r in s.rules
    ensures Steps(s, DestroyRule(r, accepts),
                  s.(rules := s.rules[r := s.rules[r].(dev := AfterDestroy(s.rules[r].dev, accepts))]), Ok)
  {
    hide ObjectsOk;
  }

  lemma BothCreated(s: State, r: Ref)
    requires Inv(s) && r in s.rules
    ensures s.rules[r].table in s.tables && s.rules[r].group in s.groups
    ensures s.tables[s.rules[r].table].created && s.groups[s.rules[r].group].created
  {
    hide LogOk; hide Kept; hide AttrOk; hide CreatedOk; hide FM.ApplyStatus;
    assert RuleOk(s, r) && GroupOk(s, s.rules[r].group) && TableOk(s, s.rules[r].table);
  }

  class Domain {
    const caps: Caps
    var tables: map<Ref, Table>
    var groups: map<Ref, Group>
    var rules: map<Ref, Rule>
    var held: set<Ref>
    var next: Ref

    /** What the device accepted or was sent. */
    ghost var log: seq<Event>

    /** The rule objects, with the actions that write into their entries. */
    var objects: map<Ref, FR.Rule>

    constructor (caps: Caps)
      ensures View() == Initial(caps) && Valid()
    {
      this.caps := caps;
      tables, groups, rules, held, next, log, objects := map[], map[], map[], {}, 0, [], map[];
      new;
      assert LogOk([]);
    }

    ghost function View(): State
      reads this
    {
      State(caps, tables, groups, rules, held, next, log)
    }

    ghost predicate Valid()
      reads this
    {
      Inv(View()) && Coupling(rules, objects)
    }

    /** adapter::verify_flow_table_receive_attr */
    method VerifyReceiveAttr(a: TableAttr) returns (st: Status)
      ensures a.level != 0 && a.kind == FT_RX ==> st == NewTableStatus(caps, a)
    {
      if !caps.supported {
        return ErrCreate;
      }
      if caps.maxLogSize < a.logSize {
        return ErrInvalidParam;
      }
      if caps.maxLevel < a.level {
        return ErrInvalidParam;
      }
      return Ok;
    }

    /** adapter::create_flow_table */
    method NewFlowTable(a: TableAttr, memory: bool) returns (st: Status, t: Option<Ref>)
      requires Valid() && Callable(View(), NewTable(a, memory))
      modifies this
      ensures Steps(old(View()), NewTable(a, memory), View(), st) && Valid()
      ensures t == if st == Ok then Some(old(next)) else None
    {
      hide LogOk; hide ObjectsOk; hide Kept; hide Coupled;
      NextKeeps(View(), NewTable(a, memory));
      if a.level == 0 {
        return ErrInvalidParam, None;
      }
      if a.kind == FT_RX {
        st := VerifyReceiveAttr(a);
      } else {
        st := ErrNoSupport;
      }
      if st != Ok {
        return st, None;
      }
      if !memory {
        return ErrNoMemory, None;
      }
      t := Some(next);
      tables := tables[next := Table(a, false, Unmade, 0, {})];
      held := held + {next};
      next := next + 1;
      return Ok, t;
    }

    /** flow_table_prm::set_miss_action; the id goes into the command. */
    method SetMissAction(a: TableAttr) returns (st: Status, miss: Option<u24>)
      ensures st == MissStatus(View(), a)
      ensures st == Ok ==> MissOk(View(), a) && miss == Spec(View(), a).miss
    {
      match a.action {
        case Default =>
          return Ok, None;
        case Forward =>
          if !(a.miss.Prm? && a.miss.t in tables && tables[a.miss.t].created) {
            return ErrInvalidParam, None;
          }
          if tables[a.miss.t].attr.level <= a.level {
            return ErrInvalidParam, None;
          }
          return Ok, Some(tables[a.miss.t].id);
        case Unsupported =>
          return ErrNoSupport, None;
      }
    }

    /** flow_table_prm::create */
    method CreateFlowTable(t: Ref, reply: Reply) returns (st: Status, sent: Option<array<byte>>)
      requires Valid() && t in held
      modifies this
      ensures Steps(old(View()), CreateTable(t, reply), View(), st) && Valid()
      ensures sent.Some? ==> MissOk(old(View()), old(tables[t].attr))
                             && sent.value[..] == SC.TableCommand(Spec(old(View()), old(tables[t].attr)))
      ensures sent.None? ==> View() == old(View())
    {
      hide LogOk; hide Kept; hide TableOk; hide GroupOk; hide RuleOk; hide SC.TableCommand; hide Coupled;
      NextKeeps(View(), CreateTable(t, reply));
      var x := tables[t];
      if x.created {
        return Ok, None;
      }
      if !x.attr.normalMode {
        return ErrNoSupport, None;
      }
      var miss;
      st, miss := SetMissAction(x.attr);
      if st != Ok {
        return st, None;
      }
      var spec := SC.TableSpec(x.attr.level, x.attr.kind, x.attr.logSize, x.attr.decap, x.attr.reformat, miss);
      assert spec == Spec(View(), x.attr);
      var buf := SC.BuildTable(spec);
      sent := Some(buf);
      match reply {
        case Rejected =>
          st := ErrCreate;
        case Accepted(id) =>
          tables := tables[t := x.(created := true, dev := Linked, id := id)];
          log := log + [TableMade(t, spec, id)];
          st := Ok;
      }
    }

    /** flow_table_prm::add_flow_group through create_flow_group */
    method AddFlowGroup(t: Ref, a: SC.GroupAttr, memory: bool) returns (st: Status, g: Option<Ref>)
      requires Valid() && t in held
      modifies this
      ensures Steps(old(View()), AddGroup(t, a, memory), View(), st) && Valid()
      ensures g == if st == Ok then Some(old(next)) else None
    {
      hide LogOk; hide Kept; hide TableOk; hide GroupOk; hide RuleOk; hide Coupled;
      NextKeeps(View(), AddGroup(t, a, memory));
      if !tables[t].created {
        return ErrNotApplied, None;
      }
      if !memory {
        return ErrNoMemory, None;
      }
      g := Some(next);
      groups := groups[next := Group(t, a, false, Unmade, 0, {})];
      tables := tables[t := tables[t].(groups := tables[t].groups + {next})];
      next := next + 1;
      return Ok, g;
    }

    /** flow_group::create: the table must still be there, and the group not created yet. */
    method PrepareGroup(x: Group) returns (st: Status, matcher: FM.Matcher)
      ensures st == Ok <==> x.table in tables && !x.created
      ensures matcher.attr == x.attr.matcher
    {
      matcher := new FM.Matcher(x.attr.matcher);
      if x.table !in tables {
        return ErrInvalidParam, matcher;
      }
      if x.created {
        return ErrCreate, matcher;
      }
      return Ok, matcher;
    }

    /** flow_group_prm::create */
    method CreateFlowGroup(g: Ref, reply: Reply) returns (st: Status, sent: Option<array<byte>>)
      requires Valid() && g in groups
      modifies this
      ensures Steps(old(View()), CreateGroup(g, reply), View(), st) && Valid()
      ensures sent.Some? ==> old(groups[g].table in tables)
                             && sent.value[..] == SC.GroupCommand(old(tables[groups[g].table].id), old(groups[g].attr))
      ensures sent.None? ==> View() == old(View())
    {
      hide LogOk; hide Kept; hide TableOk; hide GroupOk; hide RuleOk; hide SC.GroupCommand; hide Coupled;
      NextKeeps(View(), CreateGroup(g, reply));
      var x := groups[g];
      var matcher;
      st, matcher := PrepareGroup(x);
      if st != Ok {
        return ErrNoMemory, None;
      }
      if !tables[x.table].created {
        return ErrInvalidParam, None;
      }
      var buf := SC.BuildGroup(tables[x.table].id, x.attr, matcher);
      sent := Some(buf);
      match reply {
        case Rejected =>
          st := ErrCreate;
        case Accepted(id) =>
          groups := groups[g := x.(created := true, dev := Linked, id := id)];
          log := log + [GroupMade(g, tables[x.table].id, x.attr, id)];
          st := Ok;
      }
    }

    /** flow_table::remove_flow_group; with the group go its rules. */
    method RemoveFlowGroup(t: Ref, g: Ref) returns (st: Status)
      requires Valid() && t in held
      modifies this
      ensures Steps(old(View()), RemoveGroup(t, g), View(), st) && Valid()
    {
      hide LogOk; hide Kept; hide TableOk; hide GroupOk; hide RuleOk; hide Coupled;
      NextKeeps(View(), RemoveGroup(t, g));
      if !tables[t].created {
        return ErrNotApplied;
      }
      if g !in tables[t].groups {
        return ErrInvalidParam;
      }
      var gone := set r | r in rules && rules[r].group == g;
      tables := tables[t := tables[t].(groups := tables[t].groups - {g})];
      rules, objects := rules - gone, objects - gone;
      groups := groups - {g};
      return Ok;
    }

    /** flow_group::create_flow_rule_ex; the rule looks at its actions when it is made. */
    method AddFlowRule(g: Ref, value: FM.MatchParams, flowIndex: u32, actions: seq<FR.FlowAction>, memory: bool)
      returns (st: Status, r: Option<Ref>)
      requires Valid() && g in groups
      modifies this
      ensures Steps(old(View()), AddRule(g, value, flowIndex, Acceptable(actions), memory), View(), st) && Valid()
      ensures r == if st == Ok then Some(old(next)) else None
    {
      hide LogOk; hide Kept; hide ObjectsOk; hide Coupling; hide Steps; hide FR.Filed; hide FR.DistinctActions;
      hide FR.HasForward;
      ghost var s, op := View(), AddRule(g, value, flowIndex, Acceptable(actions), memory);
      NextIsFresh(s);
      RuleAddition(s, op);
      NextKeeps(s, op);
      var x := groups[g];
      if !x.created {
        return ErrNotApplied, None;
      }
      if !memory {
        return ErrNoMemory, None;
      }
      var matcher := new FM.Matcher(x.attr.matcher);
      var rule := new FR.Rule(flowIndex, value, matcher, actions);
      r := Some(next);
      var made := Rule(x.table, g, x.attr.matcher, value, flowIndex, rule.validActions, false, Unmade);
      CouplingWith(rules, objects, next, made, rule);
      rules, objects := rules[next := made], objects[next := rule];
      groups := groups[g := x.(rules := x.rules + {next})];
      next := next + 1;
      return Ok, r;
    }

    /** flow_rule_ex_prm::create: both locks succeed, so nothing is looked up in a dead object; the
        bytes the rule object builds are those of the entry that is logged. */
    method CreateFlowRule(r: Ref, order: seq<FR.Kind>, modifyReply: MH.Reply, memory: bool, reply: Reply)
      returns (st: Status, sent: Option<seq<byte>>, ghost actions: Actions)
      requires Valid() && r in rules && FR.EnumeratesKeys(order, objects[r].actions.Keys)
      modifies this, objects[r], objects[r].ModifyObject()
      ensures Steps(old(View()), CreateRule(r, actions, memory, reply), View(), st) && Valid()
      ensures sent.None? ==> View() == old(View())
      ensures sent.Some? ==>
                && actions.Applied? && |log| == |old(log)| + 1 && log[..|old(log)|] == old(log)
                && log[|old(log)|].EntrySent? && EntryWell(log[|old(log)|])
                && sent.value == EntryBytes(log[|old(log)|])
    {
      hide LogOk; hide Kept; hide ObjectsOk; hide Coupling; hide FM.ApplyStatus; hide FR.AllRoom; hide FR.Filed;
      hide FR.All; hide FR.Configured; hide FR.Resolve; hide FR.Applicable; hide FR.EnumeratesKeys; hide Next;
      hide FR.ShowsObjects; hide FR.DecodeEntry; hide FR.Ready; hide FR.Destinations;
      ghost var s := View();
      CoupledAt(rules, objects, r);
      var x, o := rules[r], objects[r];
      BothCreated(s, r);
      var table, group := tables[x.table], groups[x.group];
      var answer := if !memory then MH.NoMemory else if reply.Rejected? then MH.Rejected else MH.Created(reply.id);
      var place := if table.created then Some((table.attr.kind as nat, table.id as nat)) else None;
      var groupId := if group.created then Some(group.id as nat) else None;
      ghost var acts;
      st, sent, acts := o.Create(place, groupId, order, modifyReply, answer);
      actions := if sent.Some? then Applied(acts, FR.AllocBytes(o.actions)) else Refused(st);
      OutcomeIs(s, r, actions, memory, reply, st, sent.Some?);
      NextKeeps(s, CreateRule(r, actions, memory, reply));
      if sent.Some? {
        log := log + [Entry(s, x, actions)];
        if st == Ok {
          CouplingChanged(rules, objects, r, true, Linked);
          rules := rules[r := x.(created := true, dev := Linked)];
        }
      }
    }

    /** flow_group::remove_flow_rule */
    method RemoveFlowRule(g: Ref, r: Ref) returns (st: Status)
      requires Valid() && g in groups
      modifies this
      ensures Steps(old(View()), RemoveRule(g, r), View(), st) && Valid()
    {
      hide LogOk; hide Kept; hide TableOk; hide GroupOk; hide RuleOk; hide Coupled;
      NextKeeps(View(), RemoveRule(g, r));
      var x := groups[g];
      if !x.created {
        return ErrNotApplied;
      }
      if r !in x.rules {
        return ErrInvalidParam;
      }
      groups := groups[g := x.(rules := x.rules - {r})];
      rules, objects := rules - {r}, objects - {r};
      return Ok;
    }

    /** obj::destroy on a table, a group or a rule: whether the device accepts or not, the call
        succeeds and the host object keeps counting as created. */
    method DestroyFlowTable(t: Ref, accepts: bool) returns (st: Status)
      requires Valid() && t in held
      modifies this
      ensures Steps(old(View()), DestroyTable(t, accepts), View(), st) && Valid()
    {
      hide LogOk; hide Kept; hide TableOk; hide GroupOk; hide RuleOk; hide Coupled;
      NextKeeps(View(), DestroyTable(t, accepts));
      tables := tables[t := tables[t].(dev := AfterDestroy(tables[t].dev, accepts))];
      return Ok;
    }

    method DestroyFlowGroup(g: Ref, accepts: bool) returns (st: Status)
      requires Valid() && g in groups
      modifies this
      ensures Steps(old(View()), DestroyGroup(g, accepts), View(), st) && Valid()
    {
      hide LogOk; hide Kept; hide TableOk; hide GroupOk; hide RuleOk; hide Coupled;
      NextKeeps(View(), DestroyGroup(g, accepts));
      groups := groups[g := groups[g].(dev := AfterDestroy(groups[g].dev, accepts))];
      return Ok;
    }

    method DestroyFlowRule(r: Ref, accepts: bool) returns (st: Status)
      requires Valid() && r in rules
      modifies this
      ensures Steps(old(View()), DestroyRule(r, accepts), View(), st) && Valid()
    {
      hide LogOk; hide Kept; hide ObjectsOk; hide Coupling; hide Steps;
      ghost var s := View();
      NextKeeps(s, DestroyRule(r, accepts));
      RuleDestroyed(s, r, accepts);
      CouplingChanged(rules, objects, r, rules[r].created, AfterDestroy(rules[r].dev, accepts));
      rules := rules[r := rules[r].(dev := AfterDestroy(rules[r].dev, accepts))];
      return Ok;
    }

    /** The last user reference to a table goes; its destructor drops its own miss table, and so on
        for as long as nothing else refers to the next one. */
    method ReleaseTable(t: Ref)
      requires Valid() && t in held
      modifies this
      ensures Steps(old(View()), Release(t), View(), Ok) && Valid()
    {
      hide LogOk; hide TableOk; hide GroupOk; hide RuleOk; hide Coupled; hide Kept; hide Collect;
      NextKeeps(View(), Release(t));
      ghost var goal := Collect(View().(held := held - {t}), t);
      held := held - {t};
      var cur := Prm(t);
      while cur.Prm? && cur.t in tables && !IsKept(cur.t)
        invariant goal == if cur.Prm? && cur.t in tables then Collect(View(), cur.t) else View()
        invariant Coupling(rules, objects)
        decreases |tables|
      {
        var miss := tables[cur.t].attr.miss;
        CollectStep(View(), cur.t);
        FewerTables(View(), cur.t);
        Drop(cur.t);
        cur := miss;
      }
      if cur.Prm? && cur.t in tables {
        CollectStep(View(), cur.t);
      }
    }

    /** Is there a shared reference left? */
    predicate IsKept(t: Ref)
      reads this
      ensures IsKept(t) <==> Kept(View(), t)
    {
      t in held || exists u | u in tables :: tables[u].attr.miss == Prm(t)
    }

    /** A table goes, and with it its groups and their rules. */
    method Drop(t: Ref)
      requires t in tables && Coupling(rules, objects)
      modifies this
      ensures View() == Without(old(View()), t) && Coupling(rules, objects)
    {
      hide Coupled;
      var gone := tables[t].groups;
      var lost := set r | r in rules && rules[r].group in gone;
      tables, groups, rules, objects := tables - {t}, groups - gone, rules - lost, objects - lost;
    }
  }

  /** One turn of the destruction. */
  lemma CollectStep(s: State, t: Ref)
    requires t in s.tables
    ensures Kept(s, t) ==> Collect(s, t) == s
    ensures !Kept(s, t) ==>
              var m, s' := s.tables[t].attr.miss, Without(s, t);
              Collect(s, t) == if m.Prm? && m.t in s'.tables then Collect(s', m.t) else s'
  {
    hide Kept; hide Without;
  }
}
