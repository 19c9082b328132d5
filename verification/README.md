# libdpcp, modelled and proved in Dafny

libdpcp is a user-space control plane for mlx5 network devices. It packs commands bit by bit into
big-endian buffers, sends them to the device, and keeps host-side objects (flow tables, memory keys,
queues, rate handles) in step with what the device made of them. This project models the parts where
that is hard to get right and proves what they promise. The device is a responder that may answer
anything: ids, refusals, contexts and states are parameters, so every theorem quantifies over them.

The main results:

* **The bit engine.** `MLX5_SET`/`MLX5_GET` on dwords, proved equal to a bit-level reference; for every
  layout of disjoint fields any run of writes refines a field-to-value map (`CommandBuffer`).
* **Matching.** Mask and value buffers built by the matcher match exactly the packets that agree with the
  enabled criteria (`Matching`, `FlowMatcher`). `Steering.EntryOnTheWire` carries this to the wire: over
  every run of the steering API, the entry of a rule and the creation of its group, two commands built at
  different times by different objects, together match exactly those packets, under ids the device gave out.
* **Actions.** Five kinds of action rewrite one shared entry in the order an unordered map yields; every
  order gives the same bytes, and the action word is the union of the kinds (`FlowRule`). The two encodings
  of header modification are compared bit by bit (`ModifyHeader`).
* **The object graph.** Miss chains climb levels and end; groups and rules never outlive their table, so the
  ids an entry carries are those of live objects; no host object leaks (`Steering`). The objects themselves are
  updated in place, and the bytes a rule object builds are those of the entry the theorems speak of
  (`SteeringObjects`). Of every call it is said what it does, to which objects and with which status, and of
  every group and rule, over whole runs, which calls it owes its life to (`SteeringEffects`).
* **What goes over the wire.** Every command is read back by a decoder: its opcode, the object it names and all
  its fields. Where the fields are is proved from the structures of the device's manual, field by field
  (`Layouts`).
* **Pools, tickets and caches.** The UAR pool, the memory-key counter under every interleaving, the TIR
  cache, the cached queue state, the packet-pacing swap and the receive-queue life cycle are state machines
  with theorems over all runs.

Each state machine has a pure transition function, lemmas over every run, and a class whose methods update
fields in place like the original and are proved to refine the transitions.

## Where code and documentation part

The model follows the code.

* Taking one free UAR erases the whole free list (`erase(0)` on a multimap), although the comment speaks of
  moving one: `UarPool.ReuseDrops`, `UarPool.NothingDroppedExactly`, `UarPool.DropWitness`.
* The memory-key counter comment promises a unique value. The loop may leave without having reserved it:
  `MkeyCounter.UniqueExactly` says exactly when tickets are unique, `MkeyCounter.DuplicateTicket` is a run
  in which they are not. Every `get_instance` resets the counter: `MkeyCounter.ResetReplays` says what that
  does to any run, `MkeyCounter.UniqueAcrossResets` exactly when tickets survive it, and
  `MkeyCounter.UniqueInAnyRun` exactly when they are unique with resets at any point.
* The root-table encoder of a COPY action puts source and destination in opposite words, and leaves reserved
  bits as the allocation had them: `ModifyHeader.RootIsPrm`.
* A group is created even when its criteria could not be applied; no rule of it can follow:
  `Steering.UnsupportedGroupIsCreated`, `Steering.UnsupportedGroupStaysEmpty`.
* The sub-region check of a reference key is done with wrapping addresses: `RefMkey.CheckExact` says exactly
  which accepted ranges are none, `RefMkey.WrappingRangePasses` is one.
* Queue sizes are documented to be powers of two, and nothing enforces it. `QueueGeometry.AllocationExact` and
  `QueueGeometry.RegularFits` say for every request exactly when the device stays inside the allocation;
  `QueueGeometry.OddCountOverruns` is one for which it does not.
* A queue state is judged by the cache, which an unanswered query and every pacing modify leave behind:
  `QueueState.StaleExactly`. `QueueState.AskedForbiddenExactly` says of every request exactly when it asks the
  device for a forbidden transition, `QueueState.DeviceAskedExactly` the same of every run, and
  `QueueState.BlindlyAsked` is a run that does. `QueueState.RefusedAllowedExactly` says exactly when the guard
  refuses what the device would have allowed, and `QueueState.PacedIsRefused` is a run in which it does.
* `destroy()` drops the device's answer and the handle alike, and the host object goes on counting as created.
  An object is gone from the device exactly when the first `destroy()` since its creation was accepted
  (`Steering.TableGoneExactly`, `Steering.GroupGoneExactly`). `Steering.SentUnderGoneExactly` says exactly when an
  entry is sent under such an object, and `Steering.EntryUnderGoneGroup` is a run in which one is.
  `TirCache.QueryIsFresh` says exactly when a query is answered about a TIR the device no longer has, and
  `TirCache.QueryOfGone` is a run with such an answer.
* The destructor of a paced queue frees the rate handle before the queue goes from the device:
  `PacketPacing.DestructorFrees` says exactly when that frees a handle in use, and
  `PacketPacing.FreedWhileProgrammed` shows it of every queue initialised with a rate.

## Model

| member | source | states |
|---|---|---|
| CommandBuffer.Set | src/dcmd/windows/def.h:131-139 | writing a field in place replaces that field's bits of the buffer and nothing else (`Put`) |
| CommandBuffer.PutBit | src/dcmd/windows/def.h:131-139 | bit by bit: a write changes exactly the bits of its field, to those of the value |
| CommandBuffer.GetIsRead | src/dcmd/windows/def.h:151-153 | the shift-and-mask read equals the number spelled by the field's bits |
| CommandBuffer.ReadOfPut | src/dcmd/windows/def.h:131-174 | reading a field back gives the written value modulo 2^width |
| CommandBuffer.ReadOfOtherPut | src/dcmd/windows/def.h:131-174 | a write leaves every disjoint field as it was |
| CommandBuffer.WritesRefineMap | src/dcmd/windows/def.h:108-174 | for every layout of disjoint accessible fields, any run of writes to a buffer is the same run of updates on the map it represents |
| CommandBuffer.AbstractInjective | src/dcmd/windows/def.h:108-174 | a buffer covered by a layout is determined by its field values |
| CommandBuffer.PutAllAnyOrder | src/dcmd/windows/def.h:131-139 | disjoint writes give the same buffer in any order |
| CommandBuffer.PutIsStoreBytes | src/dcmd/windows/def.h:131-139 | copying bytes into the buffer is the write of their big-endian value |
| Matching.MatchIsFieldwise | src/dpcp/flow_matcher.cpp:233-249 | two buffers built from writes to the same disjoint fields match a packet under mask exactly when every field agrees under its mask |
| FlowMatcher.MatcherIsExact | src/dpcp/flow_matcher.cpp:49-279 | packet & mask == value & mask holds exactly when the packet agrees with the value on every enabled criterion, vlan with its tag bit, ports by the criteria's L4 type |
| FlowMatcher.ApplyStatusExact | src/dpcp/flow_matcher.cpp:99-131 | a value can be applied exactly when the criteria themselves can and the sample counts agree; the criteria can exactly when the L4 type is known and there are at most 8 samples |
| FlowMatcher.StatusExactly | src/dpcp/flow_matcher.cpp:99-231 | every status of an apply, by the bits of the enabled criteria, the L4 type and the sample counts |
| FlowMatcher.BlockDecodes | src/dpcp/flow_matcher.cpp:49-279 | slot by slot: the block holds what the value gives, cut to its width, exactly where the criteria ask for it, and zero everywhere else |
| FlowMatcher.EnabledBits | src/dpcp/flow_matcher.cpp:233-279 | which bits of the enabled criteria switch on the outer headers, the metadata register and the parser samples |
| FlowMatcher.FailedApply | src/dpcp/flow_matcher.cpp:233-249 | an apply that fails has written exactly what an apply of the outer headers without the unknown ports writes |
| FlowMatcher.SwitchIsLoop | src/dpcp/flow_matcher.cpp:165-231 | the fall-through switch writes what a loop over samples 0 to n-1 writes, for every n up to 8 |
| FlowMatcher.ApplyInBlock | src/dpcp/flow_matcher.cpp:233-249 | applying inside a larger command writes the block that applying alone writes |
| FlowMatcher.ApplyKeeps | src/dpcp/flow_matcher.cpp:233-249 | applying leaves every field outside the match block as it was |
| FlowMatcher.Matcher.SetLyr2 | src/dpcp/flow_matcher.cpp:49-73 | writes exactly the layer-2 items the criteria enable |
| FlowMatcher.Matcher.SetLyr3 | src/dpcp/flow_matcher.cpp:75-97 | writes exactly the layer-3 items the criteria enable |
| FlowMatcher.Matcher.SetLyr4 | src/dpcp/flow_matcher.cpp:99-131 | writes the ports of the criteria's protocol, or refuses an unknown type |
| FlowMatcher.Matcher.SetParserSamples | src/dpcp/flow_matcher.cpp:165-231 | writes the samples of the switch, or refuses with the status of the failed check |
| FlowMatcher.Matcher.SetMetadata | src/dpcp/flow_matcher.cpp:251-279 | writes the metadata register when it is enabled and asked for |
| FlowMatcher.Matcher.ApplyTo | src/dpcp/flow_matcher.cpp:233-249 | the in-place apply writes exactly the enabled items, in any buffer at any block, and returns the matcher's status |
| ModifyHeader.DecodeEncode | src/dpcp/flow_action.cpp:81-117 | the command decodes to the actions, cut to their widths, as far as the 8-bit count reaches |
| ModifyHeader.RoundTripExact | src/dpcp/flow_action.cpp:81-117 | decoding gives back the list exactly when it has at most 255 actions and every value fits |
| ModifyHeader.HeaderDecodes | src/dpcp/flow_action.cpp:81-117 | opcode, table type and count read back, and the command is as long as its actions |
| ModifyHeader.TypeDecodes | src/dpcp/flow_action.cpp:44-71 | a set is sent as type 1, a copy as type 3 |
| ModifyHeader.RootIsPrm | src/dpcp/flow_action.cpp:171-225 | the root-table words of an action equal the command encoding with COPY's source and destination exchanged, outside reserved bits, which keep their old contents |
| ModifyHeader.RootEntries | src/dpcp/flow_action.cpp:171-225 | the same for every entry of the whole root array |
| ModifyHeader.RootDecodes | src/dcmd/dcmd.h:117-156 | read with the command's layout the root array holds the exchanged actions |
| ModifyHeader.ModifyAction.EncodeOne | src/dpcp/flow_action.cpp:44-71 | the two in-place encoders write the action's fields and nothing else |
| ModifyHeader.ModifyAction.PreparePrm | src/dpcp/flow_action.cpp:81-117 | builds the command, or refuses: for want of memory, or exactly when some action is unknown |
| ModifyHeader.ModifyAction.PrepareRoot | src/dpcp/flow_action.cpp:171-225 | builds the root array over uninitialised words, or refuses: for want of memory, or exactly when some action is unknown |
| ModifyHeader.ModifyAction.Ensure | src/dpcp/flow_action.cpp:119-163 | the device object is created on first use only, with the encoded command; each failure has its status and leaves it uncreated |
| FlowRule.VerifyActions | src/dpcp/flow_rule_ex.cpp:41-73 | accepts exactly the non-empty lists of pairwise distinct kinds that include a forward, and files each action under its kind |
| FlowRule.StepsCommute | src/dpcp/flow_action.cpp:143-163 | two actions of different kinds applied in either order give the same entry |
| FlowRule.AnyOrderSameEntry | src/dpcp/flow_rule_ex.cpp:209-216 | any two orders of the same actions of distinct kinds give the same entry |
| FlowRule.MapOrderIrrelevant | src/dpcp/flow_rule_ex.cpp:209-216 | any two iteration orders of the action map give the same entry |
| FlowRule.ActionWord | src/dpcp/flow_action.cpp:365-380 | after any actions, bit j of the action word is set exactly when it was or one of the kinds owns it |
| FlowRule.ActionsKeep | src/dpcp/flow_action.cpp:410-417 | no action touches the match value, the ids or anything else outside the fields the kinds own |
| FlowRule.OwnedFieldsHold | src/dpcp/flow_action.cpp:535-546 | what one action wrote is still there after all the others |
| FlowRule.IdsDecode | src/dpcp/flow_action.cpp:143-163 | for distinct kinds in any order, the ids of the header modification, the reformat and the tag read back, cut to their widths |
| FlowRule.WordSaysKinds | src/dpcp/flow_action.cpp:365-380 | bits 2, 4, 6 and 15 of the action word are set exactly for a forward, a reformat, a header modification and a reparse |
| FlowRule.AbsentKeeps | src/dpcp/flow_action.cpp:535-546 | a field that only an absent kind owns stays as configured |
| FlowRule.DestinationsDecode | src/dpcp/flow_action.cpp:430-466 | destination i of the entry reads back as destination i of the forward |
| FlowRule.DestinationCount | src/dpcp/flow_action.cpp:430-466 | the destination count reads back |
| FlowRule.TargetsDecode | src/dpcp/flow_action.cpp:430-466 | the whole destination list reads back from the entry |
| FlowRule.ApplyFwd | src/dpcp/flow_action.cpp:430-466 | writes all destinations inside the allocated length, or refuses exactly when one has no id |
| FlowRule.ApplyAction | src/dpcp/flow_action.cpp:143-163 | each kind's apply is its step on the entry, succeeds exactly when the action is applicable, and fails with its own status |
| FlowRule.EntryMeaning | src/dpcp/flow_rule_ex.cpp:131-216 | after any actions the entry names its opcode, table, group, type and index, its match block is the matcher's, its action word the union of the kinds, and for distinct kinds the device reads exactly these actions |
| FlowRule.EntryRoundTrip | src/dpcp/flow_rule_ex.cpp:131-216 | decoding the finished entry gives its place and exactly its actions, with ids and destinations, whatever their order |
| FlowRule.EntryElseZero | src/dpcp/flow_rule_ex.cpp:131-216 | nothing else is set in an entry |
| FlowRule.Rule.constructor | src/dpcp/flow_rule_ex.cpp:75-88 | the actions are valid exactly when accepted, and every accepted action is filed |
| FlowRule.Rule.Configure | src/dpcp/flow_rule_ex.cpp:131-171 | fills in opcode, index, type and ids and nothing else |
| FlowRule.Rule.ApplyAll | src/dpcp/flow_rule_ex.cpp:209-216 | applies every action of the map in its order, inside the buffer, or fails exactly when one is not applicable |
| FlowRule.Rule.Create | src/dpcp/flow_rule_ex.cpp:173-231 | when exactly an entry is sent, its length, which bytes, that the device reads from them the ids and destinations of the action objects, every status of the ways it can fail, and when the rule counts as created |
| FlowRule.Rule.Fill | src/dpcp/flow_rule_ex.cpp:193-216 | configuration, match value and all actions give the finished entry, or the first failing status |
| SteeringCommands.TableRoundTrip | src/dpcp/flow_table.cpp:136-236 | the device reads back opcode, level, type, size, flags, miss action and miss table from the create command |
| SteeringCommands.GroupMeaning | src/dpcp/flow_group.cpp:140-186 | the device reads back opcode, table id, first and last flow and enabled criteria from the group command, and its mask is the matcher's own block |
| SteeringCommands.TableElseZero | src/dpcp/flow_table.cpp:136-194 | nothing else is set in a table command |
| SteeringCommands.GroupElseZero | src/dpcp/flow_group.cpp:140-186 | nothing else is set in a group command outside its mask |
| SteeringCommands.BuildTable | src/dpcp/flow_table.cpp:136-236 | the in-place writes build exactly that table command |
| SteeringCommands.BuildGroup | src/dpcp/flow_group.cpp:140-186 | the in-place writes and the matcher build exactly that group command, whatever the matcher says |
| Steering.NextKeeps | src/dpcp/flow_table.cpp:51-327 | every operation of users on tables, groups and rules, explicit destruction included, keeps the object graph closed, ids and log in step, and everything alive for a reason |
| Steering.MissChainsEnd | src/dpcp/flow_table.cpp:196-236 | after every run a created table's miss chain visits live created tables of its type by strictly rising level, never one twice, ends, and takes at most max level minus level hops |
| Steering.MissOnTheWire | src/dpcp/flow_table.cpp:136-236 | in bytes: a table created with a miss table names one the device had created before, same type, strictly higher level |
| Steering.EntryOnTheWire | src/dpcp/flow_rule_ex.cpp:131-231 | in bytes, over every run: an entry names a group created before under the very table id it names, for the flows and criteria that were meant, a table created before that, the actions applied, and group mask and entry value match exactly the packets that agree |
| Steering.HitsExactly | src/dpcp/flow_rule_ex.cpp:201-207 | mask from the group command and value from the entry match exactly the packets that agree with the criteria |
| Steering.SentWhileAlive | src/dpcp/flow_rule_ex.cpp:131-171 | when an entry is sent its group and table are alive, created, and related, and it is placed under their ids |
| Steering.TableGoneExactly | src/dpcp/dpcp_obj.cpp:51-64 | after every run the device has lost a created table exactly when it accepted the first destroy() since the creation, whatever came later, and the host holds the handle exactly when there was none |
| Steering.GroupGoneExactly | src/dcmd/linux/obj.cpp:56-67 | the same of groups |
| Steering.SentUnderGoneExactly | src/dpcp/flow_rule_ex.cpp:173-231 | over every run an entry is sent under a device object that is gone exactly when the device accepted the first destroy() of its group or of its table, so never where neither was called |
| Steering.EntryUnderGoneGroup | src/api/dpcp.h:200 | for all levels, criteria, values and applied actions there is a run that sends an entry after destroy() of its group; the group is gone exactly when the device accepted |
| Steering.FirstRuleSends | src/dpcp/flow_group.cpp:140-220 | for all levels, criteria, values and applied actions there is a run, two tables, a group and a rule, that ends in exactly the four expected commands |
| Steering.UnsupportedGroupIsCreated | src/dpcp/flow_group.cpp:167-177 | for all criteria the matcher refuses there is a run in which the device is sent the group and accepts it |
| Steering.UnsupportedGroupStaysEmpty | src/dpcp/flow_matcher.cpp:105-128 | after every run, no rule of a group whose criteria could not be applied is created or sent, for any match value |
| Steering.CollectKeeps | src/api/dpcp.h:1273-1280 | destruction along miss references takes exactly what nothing keeps, and leaves the graph closed |
| Steering.AliveExactly | src/api/dpcp.h:1343-1347 | after every run nothing held or forwarded to is gone, and every live table is reachable from one users hold |
| SteeringEffects.NewTableExactly | src/dpcp/adapter.cpp:1352-1403 | exactly the receive tables within the capabilities are made, as asked for and held by the caller; every status; nothing else changes |
| SteeringEffects.CreateTableExactly | src/dpcp/flow_table.cpp:136-236 | a table is created once, exactly when its mode, action and miss table allow it and the device accepts; the command carries what it was made with; nothing else changes |
| SteeringEffects.TablesAsMade | src/dpcp/flow_table.cpp:136-194 | after every run each created table was sent with the level, type, size, flags and miss id it was made with, under the id it has |
| SteeringEffects.HoldExactly | src/api/dpcp.h:1343-1347 | taking hold of a miss table changes nothing else |
| SteeringEffects.ReleaseExactly | src/api/dpcp.h:1273-1280 | letting go destroys exactly the tables nothing keeps, with their groups and rules; all else stays as it was |
| SteeringEffects.AddGroupExactly | src/dpcp/flow_table.cpp:91-117 | exactly a created table takes a group; it is empty, uncreated and has the attributes given; every status; nothing else changes |
| SteeringEffects.CreateGroupExactly | src/dpcp/flow_group.cpp:52-186 | a group is created once, under its table's id and with its attributes; every status; nothing else changes |
| SteeringEffects.RemoveGroupExactly | src/dpcp/flow_table.cpp:73-89 | removal succeeds exactly for a group of that table, and takes that group and its rules, nothing else |
| SteeringEffects.AddRuleExactly | src/dpcp/flow_group.cpp:101-127 | exactly a created group takes a rule, which has what it was given and the group's matcher; every status; nothing else changes |
| SteeringEffects.CreateRuleExactly | src/dpcp/flow_rule_ex.cpp:173-231 | which entry is sent, when exactly, and every status; nothing but that rule and the log changes |
| SteeringEffects.RemoveRuleExactly | src/dpcp/flow_group.cpp:87-99 | removal succeeds exactly for a rule of that group, and takes that rule, nothing else |
| SteeringEffects.DestroyExactly | src/dpcp/dpcp_obj.cpp:51-64 | destroy() succeeds whatever the device answers and changes only how the one object stands on the device |
| SteeringEffects.GroupAliveExactly | src/dpcp/flow_table.cpp:73-117 | over every run the groups there are, with table and attributes, are exactly those added and not removed since, in tables not gone |
| SteeringEffects.RuleAliveExactly | src/dpcp/flow_group.cpp:87-127 | over every run the rules there are, with all they were given, are exactly those added when since then neither they nor their groups were removed, in tables not gone |
| SteeringObjects.Domain.NewFlowTable | src/dpcp/adapter.cpp:1352-1403 | refines the transition: level, type and capability checks with their statuses, a fresh table held by the caller |
| SteeringObjects.Domain.SetMissAction | src/dpcp/flow_table.cpp:196-236 | accepts a forward exactly to a created table of strictly higher level, and yields its id |
| SteeringObjects.Domain.CreateFlowTable | src/dpcp/flow_table.cpp:136-194 | refines the transition; creating twice is harmless; the bytes sent are the table's command |
| SteeringObjects.Domain.AddFlowGroup | src/dpcp/flow_table.cpp:91-117 | refines the transition: only a created table takes groups |
| SteeringObjects.Domain.CreateFlowGroup | src/dpcp/flow_group.cpp:52-186 | refines the transition with its statuses; the bytes sent are the group's command under the table's id |
| SteeringObjects.Domain.RemoveFlowGroup | src/dpcp/flow_table.cpp:73-89 | refines the transition: removes the group and its rules, or refuses a group that is not there |
| SteeringObjects.Domain.AddFlowRule | src/dpcp/flow_group.cpp:101-127 | refines the transition: only a created group takes rules, they share its matcher, and the rule's actions count as valid exactly when the list is acceptable |
| SteeringObjects.Domain.CreateFlowRule | src/dpcp/flow_rule_ex.cpp:173-231 | refines the transition by creating the rule object: both locked objects are there to be asked, and the bytes sent are those of the entry that is logged |
| SteeringObjects.Domain.RemoveFlowRule | src/dpcp/flow_group.cpp:87-99 | refines the transition: removes exactly that rule, or refuses |
| SteeringObjects.Domain.DestroyFlowTable | src/dpcp/dpcp_obj.cpp:51-64 | refines the transition: the device object goes if the device accepts, the handle in any case, and the call succeeds |
| SteeringObjects.Domain.DestroyFlowGroup | src/dpcp/dpcp_obj.cpp:51-64 | refines the transition: the device object goes if the device accepts, the handle in any case, and the call succeeds |
| SteeringObjects.Domain.DestroyFlowRule | src/dpcp/dpcp_obj.cpp:51-64 | refines the transition: the device object goes if the device accepts, the handle in any case, and the call succeeds |
| SteeringObjects.Domain.ReleaseTable | src/api/dpcp.h:1273-1280 | the destruction loop ends in the state the transition says |
| MkeyCounter.RunInv | src/dpcp/mkey.cpp:218-222 | in every interleaving without reset the counter is the number of successful swaps, and every ticket the number before it |
| MkeyCounter.InAndOut | src/dpcp/mkey.cpp:218-222 | a thread enters the loop by its own load with the counter's value, and leaves it exactly at its own issuing step, with the value it holds; nobody else moves |
| MkeyCounter.SwapOutcome | src/dpcp/mkey.cpp:219-219 | a swap with the counter's value counts up and issues; any other fails, brings back the counter and changes nothing |
| MkeyCounter.RetryExactly | src/dpcp/mkey.cpp:220-221 | after a failed swap the thread goes round exactly when its value is below the counter, and otherwise leaves with it |
| MkeyCounter.RetriesWithItsValue | src/dpcp/mkey.cpp:219-221 | whatever the others do meanwhile, it swaps next with exactly the value its failed swap gave it |
| MkeyCounter.NoneLost | src/dpcp/mkey.cpp:218-222 | over every run, resets included, the loads that took effect are the tickets issued plus the threads in the loop |
| MkeyCounter.CounterMonotonic | src/dpcp/mkey.cpp:396-400 | between resets the counter never decreases |
| MkeyCounter.ReservedDistinct | src/dpcp/mkey.cpp:218-222 | tickets from successful swaps are pairwise distinct, in every interleaving |
| MkeyCounter.UnreservedHoldsCounter | src/dpcp/mkey.cpp:730-734 | a thread leaving by the second condition holds the counter's current value and reserves nothing |
| MkeyCounter.UniqueExactly | src/dpcp/mkey.cpp:218-225 | tickets are unique exactly when no step takes one after a step at which a thread, its swap failed and its value not below the counter, left the loop |
| MkeyCounter.DuplicateTicket | src/dpcp/mkey.cpp:218-222 | a run of two threads in which a ticket is issued twice |
| MkeyCounter.SerialUnique | src/dpcp/mkey.cpp:218-222 | creations that do not overlap get tickets 0, 1, 2, and so on |
| MkeyCounter.ResetRepeats | src/dpcp/dpcp.cpp:95 | one creation on either side of a reset: both get ticket 0 |
| MkeyCounter.ResetReplays | src/dpcp/mkey.cpp:50-57 | for all runs before and after a reset with no creation under way: the second is issued exactly what it would be issued on its own |
| MkeyCounter.UniqueAcrossResets | src/dpcp/dpcp.cpp:95 | over any number of such resets tickets are unique exactly when at most one of the runs between them issued any and its own are unique |
| MkeyCounter.UniqueInAnyRun | src/dpcp/mkey.cpp:50-57 | in any run at all, resets in the middle of creations included, tickets are unique exactly when every issuing step finds its thread holding the number of successful swaps and nobody gone unreserved before |
| MkeyCounter.KeyIdsCollide | src/dpcp/mkey.cpp:255-256 | two key ids are equal exactly when the device indices are and the tickets agree modulo 255 |
| UarPool.RunInv | src/dpcp/adapter.cpp:1690-1788 | every run keeps held, free, dropped and shared UARs apart, each exclusive one with one key, and the sharer list free of duplicates |
| UarPool.SharedGet | src/dpcp/adapter.cpp:1700-1713 | a shared get returns the shared UAR or exactly what was allocated; on success the caller is a sharer; nobody else is affected |
| UarPool.OneShared | src/dpcp/adapter.cpp:1700-1713 | over every run all shared gets that succeed return one and the same UAR |
| UarPool.SharerExactly | src/dpcp/adapter.cpp:1763-1776 | over every run a key is a sharer exactly when it has got the shared UAR since its last release |
| UarPool.ExclusiveGet | src/dpcp/adapter.cpp:1714-1740 | an exclusive get returns the caller's UAR, a free one, or exactly what was allocated, in this order; nobody else is affected |
| UarPool.HolderExactly | src/dpcp/adapter.cpp:1714-1788 | over every run the UAR a key holds is the one its exclusive get returned, until it is released |
| UarPool.ReleaseExactly | src/dpcp/adapter.cpp:1763-1788 | a release takes a sharer out, or else frees what the key holds; nobody else is affected |
| UarPool.ExclusiveIsExclusive | src/dpcp/adapter.cpp:1714-1740 | after every run an exclusive UAR is not the shared one and belongs to no other key |
| UarPool.RepeatedGetStable | src/dpcp/adapter.cpp:1716-1721 | asking again returns the same UAR and changes nothing |
| UarPool.HeldUntilReleased | src/dpcp/adapter.cpp:1763-1788 | a key keeps its UAR exactly until it is released by a key that is no sharer |
| UarPool.Conservation | src/dpcp/adapter.cpp:1690-1788 | every step keeps all exclusive UARs accounted for, and adds one only by allocating |
| UarPool.AccountedFor | src/dpcp/adapter.cpp:1690-1788 | over every run the UARs allocated are the held, the free and the dropped, each counted once |
| UarPool.ReuseDrops | src/dpcp/adapter.cpp:1733-1737 | a reuse with f free UARs drops exactly f-1; nothing else drops any |
| UarPool.NothingDroppedExactly | src/dpcp/adapter.cpp:1733-1737 | nothing is dropped exactly on runs that never reuse while two or more are free |
| UarPool.DropWitness | src/dpcp/internal.h:149-158 | a run of two gets, two releases and a get, from the empty pool and for any two UARs, that loses one |
| UarPool.UarCollection.GetUar | src/dpcp/adapter.cpp:1690-1740 | refines the pool's transitions for shared and exclusive requests, returning the UAR they say |
| UarPool.UarCollection.ReleaseUar | src/dpcp/adapter.cpp:1763-1788 | refines the release transition, with its status |
| PatternMkey.OctwordsLeast | src/dpcp/mkey.cpp:365-370 | the octword size is the least multiple of 4 that holds header and entries |
| PatternMkey.Align4Value | src/utils/os.h:38-41 | align(x, 4) rounds up modulo 2^32 |
| PatternMkey.AllocationExact | src/dpcp/mkey.cpp:365-372 | the allocation holds every entry exactly when the block count does not make its 32-bit size wrap |
| PatternMkey.EntriesOk | src/dpcp/mkey.cpp:447-470 | every entry is written inside the buffer, behind the header |
| PatternMkey.BlocksDecode | src/dpcp/mkey.cpp:447-470 | the building blocks read back in order, cut to their widths |
| PatternMkey.HeaderDecodes | src/dpcp/mkey.cpp:430-441 | byte count, opcode, repeat count and entry count read back |
| PatternMkey.OpcodeDecodes | src/dpcp/mkey.cpp:471-473 | the command is one that creates a key |
| PatternMkey.RefusalExactly | src/dpcp/mkey.cpp:447-470 | the creation's refusal is that of the first block that refuses, its id before its address, and there is one exactly when some block refuses |
| PatternMkey.ContextDecodes | src/dpcp/mkey.cpp:380-427 | the key context reads back: access, ticket, domain, address, length, octwords |
| PatternMkey.PaddingIsZero | src/dpcp/mkey.cpp:362-375 | whatever lies behind the last entry is sent as zeros |
| PatternMkey.BytesAddUp | src/dpcp/mkey.cpp:266-470 | for in-range sizes the entry byte counts add up to the header's, and the region length is that times the stride count |
| PatternMkey.Key.constructor | src/dpcp/mkey.cpp:266-291 | the loop sums the block lengths modulo 2^64 |
| PatternMkey.Key.FillEntry | src/dpcp/mkey.cpp:447-470 | one entry is written, or the refusing key's status returned |
| PatternMkey.Key.Create | src/dpcp/mkey.cpp:359-490 | which status, whether a command is sent, which bytes, the address, length, domain, variant and stride pattern the device reads from them, and the id made of index and ticket |
| RqLifecycle.ReleasedExactlyOnce | src/dpcp/adapter.cpp:1236-1319 | whichever step fails and however often destroy is called, everything acquired is released exactly once and nothing is left |
| RqLifecycle.ReleaseOrder | src/dpcp/rq.cpp:162-200 | the device object goes before any deregistration, and every deregistration before any buffer |
| RqLifecycle.DestroyTwice | src/dpcp/dpcp_obj.cpp:51-72 | a second destroy does nothing |
| RqLifecycle.PreparedOwns | src/dpcp/adapter.cpp:1236-1279 | preparation succeeds exactly when every step does, and then owns everything; a bad status leaves an object to release |
| RqLifecycle.PreparedByTable | src/dpcp/adapter.cpp:1236-1279 | the nested preparation goes through a table of steps: it acquires what those before the first failing one acquire, in order, and returns its status |
| RqLifecycle.DeletedInOrder | src/dpcp/rq.cpp:162-200 | what the deletion of a prepared queue releases, in its exact order |
| RqLifecycle.BasicRq.DestroyObj | src/dcmd/linux/obj.cpp:56-67 | the device object is destroyed once and forgotten |
| RqLifecycle.BasicRq.Destroy | src/dpcp/rq.cpp:162-189 | releases what is still owned, in this order, and clears it |
| RqLifecycle.BasicRq.Delete | src/dpcp/dpcp_obj.cpp:66-72 | the destructors release the rest and the wrapper |
| RqLifecycle.BasicRq.CreateObj | src/dpcp/dpcp_obj.cpp:92-117 | keeps a handle even when the status is bad; refusals before sending have their own statuses |
| RqLifecycle.BasicRq.Init | src/dpcp/rq.cpp:564-578 | refuses an invalid page, copies the UAR, creates the object |
| RqLifecycle.BasicRq.Prepare | src/dpcp/adapter.cpp:1236-1279 | acquires step by step and stops at the first failure with its status |
| RqLifecycle.CreateRq | src/dpcp/adapter.cpp:1281-1319 | no queue without memory for pool and object; a queue that could not be prepared is deleted again |
| RqLifecycle.Live | src/dpcp/adapter.cpp:1236-1319 | a whole life, in code: every acquisition has its one release, in order |
| TirCache.QueryIsFresh | src/dpcp/tir.cpp:149-214 | after every run a successful query, cached or not, reports what the device would report now, except exactly when the device has accepted the first destroy() and has nothing to report |
| TirCache.QueryOfGone | src/dpcp/tir.cpp:149-214 | for all attributes and contexts, a run after which queries succeed about a TIR the device no longer has |
| TirCache.ObjectGoneExactly | src/dpcp/dpcp_obj.cpp:51-64 | after every run the device has lost the TIR exactly when it accepted the first destroy() |
| TirCache.NextKeeps | src/dpcp/tir.cpp:52-214 | create, modify, query and destroy with any failures keep a non-empty cache equal to the context the device has or last had |
| TirCache.ModifiedReports | src/dpcp/tir.cpp:112-147 | an accepted modify changes exactly the LRO part of what the device reports, and only when flagged |
| TirCache.ModifyThenQuery | src/dpcp/tir.cpp:112-147 | when exactly a modify succeeds, every status, and that queries from then on report the flagged LRO values and all else as before |
| TirCache.ModifyNames | src/dpcp/tir.cpp:126-127 | the modify command names its opcode and the TIR it is for |
| TirCache.CreateRoundTrip | src/dpcp/tir.cpp:52-98 | a device that takes the create command's context reports exactly the flagged attributes |
| TirCache.CreateNames | src/dpcp/tir.cpp:66-98 | the create command says so, and blocks self-loopback exactly for TLS, zero copy and CRC |
| TirCache.CreateThenQuery | src/dpcp/tir.cpp:52-110 | when exactly a creation succeeds, every status, and that queries from then on report the context the object was made with |
| TirCache.QueryExactly | src/dpcp/tir.cpp:149-214 | when exactly a query succeeds, every status, and when the cache answers |
| TirCache.FlagBits | src/api/dpcp.h:1106-1114 | which bit of the flags asks for which attributes |
| TirCache.Tir.CreateTir | src/dpcp/tir.cpp:52-110 | refines the transition; the bytes sent are the create command |
| TirCache.Tir.ModifyTir | src/dpcp/tir.cpp:112-147 | refines the transition: the cache follows the device on success only |
| TirCache.Tir.QueryTir | src/dpcp/tir.cpp:149-214 | refines the transition: a cached answer, or a full read-out that fills the cache |
| TirCache.Tir.DestroyTir | src/dpcp/dpcp_obj.cpp:51-64 | refines the transition: wrapper and cache stay |
| QueueGeometry.Ilog2 | src/dpcp/internal.h:197-209 | the least exponent whose power is not below n, at most 30, and -1 for n not positive |
| QueueGeometry.Ilog2Stops | src/dpcp/internal.h:197-209 | an exponent to stop at exists exactly up to 2^30 |
| QueueGeometry.SetStrides | src/dpcp/rq.cpp:351-386 | accepts exactly 257 to 65536 strides of 33 to 8192 bytes; the biased logarithms fit and read back from their 4-bit and 3-bit fields; no other field changes |
| QueueGeometry.StridesDecode | src/dcmd/prm.h:1641-1658 | what the device decodes is the request exactly for powers of two, and less than twice it otherwise |
| QueueGeometry.SetSizes | src/dpcp/rq.cpp:458-467 | the two logarithms read back modulo their field widths; no other field changes |
| QueueGeometry.RegularExact | src/dpcp/rq.cpp:139-152 | for powers of two the device's size is the buffer's exactly when the entry is at most 32 KiB and the queue below 4 GiB |
| QueueGeometry.RegularCovers | src/dpcp/rq.cpp:458-467 | in range the device's size is never below the product of the sizes |
| QueueGeometry.AllocationHolds | src/dpcp/rq.cpp:213-227 | for powers of two in range the device never exceeds the page-rounded allocation |
| QueueGeometry.AllocatedLeast | src/dpcp/rq.cpp:213-227 | the allocation is the least whole number of pages that holds the size |
| QueueGeometry.AllocationExact | src/dpcp/rq.cpp:213-227 | for every request, page size and value of the two fields: the device stays inside the allocation exactly when the buffer is not empty and its size is within one page, or the request within a page of it |
| QueueGeometry.RegularFits | src/dpcp/rq.cpp:139-152 | the same on the request: any entry size up to 32 KiB and any count below 4 GiB in all |
| QueueGeometry.OddCountOverruns | src/dpcp/rq.cpp:213-227 | a request of 4097 entries for which it does not |
| QueueState.ForbiddenSentExactly | src/dpcp/rq.cpp:69-74 | over every run of both calls, a command is sent for a transition the cached state forbids exactly by a pacing modify of a queue cached as in error |
| QueueState.StatusExactly | src/dpcp/sq.cpp:84-137 | every status of both calls, and what it says about the request |
| QueueState.OkMeansReached | src/dpcp/sq.cpp:84-137 | in every run a modify_state succeeds exactly when accepted, queried and where it was asked to go, a pacing modify exactly when accepted; until a later call moves the queue the device is there, and the cache too after a modify_state but not after a pacing modify |
| QueueState.StaleExactly | src/dpcp/sq.cpp:429-465 | over every run of both calls, cache and device differ exactly when the last move was not queried, by a pacing modify or a failed query, and went elsewhere than where the queue was last seen |
| QueueState.BlindMoveAt | src/dpcp/sq.cpp:107-137 | which move that was: the cache is what it was before, the device where it went |
| QueueState.DeviceNeverAsked | src/dpcp/sq.cpp:84-89 | as long as no query error was returned and no pacing modify got to the device it is never asked for a forbidden transition |
| QueueState.AskedForbiddenExactly | src/dpcp/rq.cpp:69-74 | after every run, a request that reaches the device is forbidden there exactly when the last move was not queried and went to a state it is forbidden from, or it is a pacing modify of a queue last seen in error |
| QueueState.RefusedAllowedExactly | src/dpcp/sq.cpp:84-89 | after every run the guard refuses what the device would allow exactly when the last move was not queried and the two states differ on the request |
| QueueState.DeviceAskedExactly | src/dpcp/sq.cpp:84-137 | over every run the device is asked for a forbidden transition exactly when some call so misses its state |
| QueueState.BlindMoveShows | src/dpcp/sq.cpp:120-127 | an unqueried move shows as a query error or a successful pacing modify, with no success or query error since |
| QueueState.UnseenMove | src/dpcp/rq.cpp:92-107 | after any run and any unqueried move by either call, every ready or error request that passes the guard is forbidden for some state the device may have gone to |
| QueueState.BlindlyAsked | src/dpcp/sq.cpp:84-89 | a run from the start in which the device is so asked |
| QueueState.PacedIsRefused | src/dpcp/sq.cpp:439-452 | a new queue made ready by a pacing modify: the cache says reset, and setting it to error is refused |
| QueueState.Queue.ModifyState | src/dpcp/rq.cpp:69-119 | refines the transition, with its statuses |
| QueueState.Queue.Modify | src/dpcp/sq.cpp:395-465 | refines the transition of a pacing modify, with its statuses; the cached state is left alone |
| RefMkey.CheckExact | src/dpcp/mkey.cpp:652-657 | under a parent that does not wrap every sub-region is accepted, and an accepted range is one exactly when it does not wrap |
| RefMkey.WrappingRangePasses | src/dpcp/mkey.cpp:652-657 | an accepted range that is no sub-region |
| RefMkey.AnswersExactly | src/dpcp/mkey.cpp:626-650 | which keys can be a parent, what they answer, and with which status they refuse |
| RefMkey.NewRefExactly | src/dpcp/mkey.cpp:616-660 | a reference is made exactly for memory, a parent that can be one and a range in the wrapping bounds, with that range and the parent's id and flags; nothing else changes |
| RefMkey.ReferencesRoot | src/dpcp/adapter.cpp:1109-1124 | over every run, at any nesting depth: id and flags are the root's, and under a root that does not wrap the range lies inside it exactly when it does not wrap itself, whatever lies between |
| RefMkey.WrappingParent | src/dpcp/mkey.cpp:652-657 | under a range that wraps everything accepted wraps |
| RefMkey.RefKey.Create | src/dpcp/mkey.cpp:616-660 | succeeds exactly for a non-empty range, a parent that answers, and a range its check accepts; copies id and flags |
| RefMkey.CreateRefKey | src/dpcp/adapter.cpp:1109-1124 | no memory or any refusal leaves no key; a refusal reads as a failed creation |
| PacketPacing.ProgrammedIsLive | src/dpcp/sq.cpp:395-465 | after every run of modifies and destroys, while the device has the queue the programmed index is the remembered one modulo 2^16, of the one live handle or zero; all others were freed exactly once, never while in use; the device has the queue unless it accepted the first destroy() |
| PacketPacing.FailureChangesNothing | src/dpcp/sq.cpp:395-465 | a failed modify leaves what is programmed and remembered, and frees what it allocated |
| PacketPacing.SuccessSwaps | src/dpcp/sq.cpp:452-465 | a successful modify is programmed with the new handle and frees the old one |
| PacketPacing.DestructorFrees | src/dpcp/sq.cpp:193-198 | after every run and the destructor each handle was freed exactly once; none while the queue was programmed with it exactly when the run ended without one, or the device had accepted the first explicit destroy() |
| PacketPacing.FreedWhileProgrammed | src/dpcp/sq.cpp:193-198 | every queue initialised with a rate and deleted frees a handle in use; with destroy() called before, exactly when the device refused it |
| PacketPacing.QueueGoneExactly | src/dpcp/sq.cpp:164-191 | over every run the device has lost the queue exactly when it accepted the first destroy() |
| PacketPacing.PpSq.Delete | src/dpcp/sq.cpp:193-198 | refines the destruction: first the pacing object, then the queue, if that was not done before |
| PacketPacing.PpSq.DestroyQueue | src/dpcp/sq.cpp:164-191 | refines the explicit destroy(): the queue goes if the device accepts, the pacing object stays |
| PacketPacing.StartsWell | src/dpcp/sq.cpp:345-384 | both ways initialisation succeeds start in such a state |
| PacketPacing.ProgramsIndex | src/dpcp/sq.cpp:429-452 | the modify command makes the device program exactly the index it was given |
| PacketPacing.ModifyNames | src/dpcp/sq.cpp:429-452 | the modify command names its opcode and queue, asks for ready in both places, and selects the rate alone |
| PacketPacing.ModifyElseZero | src/dpcp/sq.cpp:423-452 | nothing else is set in the modify command |
| PacketPacing.ModifyStatus | src/dpcp/sq.cpp:395-465 | every status of a modify, exactly |
| PacketPacing.PpSq.Modify | src/dpcp/sq.cpp:395-465 | refines the transition, with its statuses |
| Layouts.AllPacked | src/dcmd/prm.h:501-535 | every structure, as listed, has its fields one behind the other |
| Layouts.MatchLayer2 | src/dcmd/prm.h:501-535 | the layer-2 fields of a match block are where the structure has them |
| Layouts.MatchLayer3 | src/dcmd/prm.h:501-535 | the layer-3 fields |
| Layouts.MatchLayer4 | src/dcmd/prm.h:501-535 | the ports |
| Layouts.MatchRest | src/dcmd/prm.h:1573-1589 | metadata register and parser samples, inside the whole match parameter |
| Layouts.EntryFields | src/dcmd/prm.h:4096-4125 | the fields of an entry, its match value and where destinations start |
| Layouts.DestinationFields | src/dcmd/prm.h:1408-1413 | destinations follow one another |
| Layouts.TableFields | src/dcmd/prm.h:7654-7696 | the fields of the table command |
| Layouts.GroupFields | src/dcmd/prm.h:7716-7751 | the fields of the group command and its mask |
| Layouts.ModifyFields | src/dcmd/prm.h:5498-5596 | the fields of the header-modify command and of its actions |
| Layouts.MkeyFields | src/dcmd/prm.h:7609-7640 | the fields of the key command and its context |
| Layouts.RepeatFields | src/dcmd/windows/def.h:235-249 | the fields of the repeat block and its entries |
| Layouts.TirCommandFields | src/dcmd/prm.h:5947-5984 | the fields of the TIR commands |
| Layouts.TirContextFields | src/dcmd/prm.h:3035-3076 | the fields of a TIR context |
| Layouts.SqFields | src/dcmd/prm.h:5995-6013 | the fields of the send-queue command |
| Layouts.WqFields | src/dcmd/prm.h:1615-1669 | the size fields of a work queue |

## Left out

- Capability read-out and `query_hca_caps`: field-by-field copying; only the receive flow-table capabilities appear, as values.
- Provider, device and context enumeration, version parsing, event and completion channels: thin wrappers over calls into the driver.
- The full PRM header: only the layouts of the modelled commands are used.
- `create_cq` and its rollback, and the legacy flow rule: they do not keep the invariants the modelled paths keep, `create_cq` releasing its buffers by hand and again in the destructor.
- DEK, TIS, tag buffer table, IBQ queues and parser graph nodes: small case splits, or repeats of the TIR and bit-engine work.
- `MLX5_GET64` on a field that is not 64-bit aligned: no modelled command has one.
- The kernel (root-table) path of rules, groups and tables beyond the header-modify words: it hands the same parameters to the driver.
- The contents of reformat actions: an action counts as valid with an id, or not valid.
- The order in which the device objects of a dropped table and of its miss table go away.
- Real addresses, logging, allocator internals and page-size lookup: sizes, numbers and flags stand for them.
- Wake-ups and memory order of the counter loop: its atomic steps interleave sequentially, as the sequentially consistent swap says.
- MkeyCounter.RunInv: does not model the signed overflow of the counter after 2^31 creations.
- PatternMkey.Key.Create: takes at most 0xFFFFFFB blocks, the bound up to which PatternMkey.AllocationExact shows the buffer to be large enough.
- QueueGeometry.Ilog2: takes n up to 2^30, above which the shift in the loop leaves the integer's range (QueueGeometry.Ilog2Stops).
- Steering.TableGoneExactly: an object whose creation the device refused with a bad status but a handle is taken not to be there.
- FlowRule.Dest: a destination's id is fixed when the action is made, while the source asks the destination at every apply; that the raw pointer outlives the destination is left to the caller in both.
- RqLifecycle.ReleasedExactlyOnce: a release is the one call that gives the resource back; a refusal by the driver, which the source drops, is not told apart.
- A number the device gives out again while a destroyed host object still sends it: a modify or query of an object the device has lost is taken to be refused.
- QueueState.StaleExactly: does not include `destroy()`, after which there may be no device state to compare with.
- QueueGeometry.SetStrides: takes strides up to 2^30, the range of QueueGeometry.Ilog2 it computes with.
- QueueGeometry.SetSizes: takes entry sizes and counts up to 2^30, for the same reason.
- RefMkey.ReferencesRoot: a root answers like a direct or pattern key; external and reserved keys as roots are not modelled.
- RqLifecycle.Live: does not model `release_uar`, which no queue calls, so a queue's UAR stays with the pool.
