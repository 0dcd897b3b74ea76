# Verification of the Rivalis fleet control plane, wire codec and rate limiters

Three independent parts of the repository are modelled here and proved in Dafny 4.11.

**The fleet control plane.** One orchestrator polls its agents over connections that keep frames in order, keeps a read
model from their replies, places rooms under capacity limits, pushes commands that are acked, time out or are rejected,
and derives an event stream. `FleetSystem.dfy` is the whole system as a step relation: the orchestrator's tables, one
queue down and one queue up per connection, and every agent with its rooms. The theorems there hold for every run of it.
The orchestrator's parts are specified as functions on values (`Reservations`, `FleetModel`, `Placement`, `Commands`,
`Poller`, `EventReconciler`, `Orchestration`) and the classes of the source (`FleetState`, `CommandEngine`,
`FleetControl`, `Poller`, `EventReconciler`, `Orchestrator`, and `Snapshot` and `FleetAgent` on the agent's side) are
proved to do to their fields exactly what those functions say, including the memoised view with its shared,
updated-in-place rows.

**The native wire codec and framing.** Varints, the schema-driven recursive serializer, data frames, close frames with
their two ways of truncating text, and the chunker for WebRTC channels.

**Self-bounding token buckets.** `TokenBucketRateLimiter` and `AuthThrottle`: pruned maps that must answer like
unbounded ones, with a bound on what an actor can get.

`dafny verify dfyconfig.toml` checks everything.

## How it is put together

- Strings are sequences of Unicode scalar values (`Utf8.dfy`); the canonical encoder works on UTF-16 code units, lone
  surrogates included. Times and token levels of the limiters are reals, integers are unbounded with the 32-bit
  conversions of the source written out.
- `hash64` is a constructor applied to the canonical text: the digest is taken to be injective, and the canonical text
  itself is proved to determine the data.
- Timers are steps that may happen at any time, `random` is any number from 0 to 1, room-id draws are any sequence of
  legal ids, and which links take a frame is chosen anew for every handler.
- Instance, command and request ids are numbers; the source compares them for equality, and instance ids also by order.
- What the specification functions mean is said once more on plain fields, without naming them: who keeps a contested
  id (`Clashes`), who may get a room (`Hosting`), what an agent makes of a frame (`AgentAnswers`) and what that leads to
  over a run (`SystemStatus`, `SystemRooms`), what a request puts on which link (`ControlRequests`), what events and
  totals carry (`EventLog`, `SystemTotals`), the limiters under a clock that may step back (`TokenBucketClock`,
  `AuthThrottleClock`), the bytes on the wire (`WireLayout`, `WireReading`) and the canonical text (`JsonReader`).
- Proofs about runs follow the data: an invariant per connection (`SystemLinks`, `SystemDedup`) or per room id
  (`SystemUnique`), kept by every kind of step, then induction over the run.

## Where code and documentation differ

- `core/src/TokenBucketRateLimiter.ts:41-47` calls eviction transparent. On a real-valued clock the idle sweep is
  transparent exactly when the idle time refills a whole bucket or the capacity is below one token
  (`TokenBucketExact.TransparentExactly`). `Date.now()` gives whole milliseconds; on such a clock the same holds for a
  whole capacity, with the idle time rounded up (`TokenBucketExact.TransparentOnTicksExactly`). Eviction over the cap is
  transparent exactly when the capacity is below one token, so for no limiter that ever grants anything, on either clock
  (`TokenBucketExact.CapTransparentExactly`; its run stands at time zero); a caller can rule it out for a run with no
  more actors than buckets (`TokenBucketExact.FewActorsNeverFill`).
- `fleet/src/routers/shared.ts:326-361` speaks of so many failures per window. An address gets the limit at once and
  more as it accrues; on a real-valued clock the promise holds exactly for limits of at most one
  (`AuthThrottleExact.LimitPerWindowExactly`), and on whole milliseconds exactly when no further guess accrues by the
  last tick of a window (`AuthThrottleExact.LimitPerWindowOnTicksExactly`).
- `fleet/src/orchestrator/FleetState.ts:704-715` promises fleet-unique public ids. Two connections of one process that
  both lose an id to a third holder share `<processUid>~<base>` (`PublicIds.ReconnectCanClash`); this is the only way
  two rooms can clash (`PublicIds.UnambiguousExactly`).
- `handshake/src/closeFrame.ts:69-74` promises the longest fitting prefix of an over-long string. The decoder drops a
  leading U+FEFF (`CloseFrame.LeadingBomIsLost`); that is the only exception (`CloseFrame.PrefixExactly`).
- Uniqueness of fleet-created rooms across agents is proved for runs in which no create times out, no instance is torn
  down and no newcomer brings such rooms. Each of the three by itself breaks it, by an explicit run from the beginning
  (`SystemTraps.TimeoutMakesTwice`, `TeardownMakesTwice`, `NewcomerMakesTwice`).

## Model

| member | source | states |
|---|---|---|
| SystemUnique.FleetIdsAreUnique | fleet/src/orchestrator/FleetState.ts:557-638 | in every run in which no create times out, no instance is torn down and no newcomer brings fleet-created rooms, no id is live as a fleet-created room on two agents |
| SystemUnique.LiveFleetIdsAreTaken | fleet/src/orchestrator/FleetState.ts:617-622 | in the same runs, while a fleet-created room with a legal id exists on an agent, its id is reserved, held until visible, or found in the read model |
| SystemUnique.UnderWayIdsAreTaken | fleet/src/orchestrator/FleetState.ts:557-572 | in the same runs, while a create or the answer to it is under way, its id is reserved |
| SystemUnique.NextCalm | fleet/src/agent/FleetAgent.ts:583-615 | every step keeps, for every id: live or being created in one place at most, a pending create is not yet live while asked or refused, and a live room is held or visible with every later snapshot listing it |
| SystemUnique.CreateIsFree | fleet/src/orchestrator/FleetControl.ts:28-53 | a create on its way to an agent names a legal id that was not reserved, held or reported when it was issued |
| SystemTraps.TimeoutMakesTwice | fleet/src/orchestrator/CommandEngine.ts:89-101 | with the timeout of one create: an explicit run from the beginning ends with one id live as a fleet-created room on two agents |
| SystemTraps.TeardownMakesTwice | fleet/src/orchestrator/Orchestrator.ts:438-450 | the same with one teardown instead |
| SystemTraps.NewcomerMakesTwice | fleet/src/orchestrator/Orchestrator.ts:267-283 | the same with one newcomer that alone has the room: before its first report is consumed the id counts as free and is created on another agent |
| SystemTraps.TimeoutFreesIdUnderWay | fleet/src/orchestrator/FleetState.ts:628-637 | an unchanged poll reply after a timeout frees the id while its create is still on its way |
| SystemTraps.ReplyFreesExactly | fleet/src/orchestrator/FleetState.ts:628-637 | a consumed reply that is hash-only or applied frees an id held for its instance if and only if no row reports the id afterwards |
| SystemLinks.KickedOnlyForLateAcks | fleet/src/orchestrator/Orchestrator.ts:358-390 | in every run with in-order links and honest agents, a frame that gets its agent kicked is the ack of a command that had timed out |
| SystemLinks.OnePollUnderWay | fleet/src/orchestrator/Poller.ts:86-153 | in every run at most one poll or reply is under way per connection, and it carries the outstanding request id |
| SystemLinks.AcksAreKnown | fleet/src/orchestrator/CommandEngine.ts:129-146 | in every run every ack under way answers a command that is pending or has timed out, and no command is acked twice |
| SystemLinks.NextLinks | fleet/src/orchestrator/Orchestrator.ts:300-390 | every step keeps: one poll or reply under way at most, commands and acks under way all different, and pending unless they timed out |
| SystemDedup.RowIsWhatWasReported | fleet/src/orchestrator/FleetState.ts:239-297 | in every run, after every consumed reply that is hash-only, or full and accepted, the row is the content the agent had when it built that reply; no honest full reply is dropped as out of order |
| SystemDedup.NextDedup | fleet/src/agent/Snapshot.ts:199-216 | every step keeps: rows carry the hash of what they show, polls under way carry the hash of the row, hash-only replies under way are built from exactly that content |
| FleetSystem.NextValid | fleet/src/orchestrator/Orchestrator.ts:267-450 | every step of the orchestrator, its links and its agents keeps all tables consistent with each other |
| FleetSystem.PostedKeeps | fleet/src/orchestrator/FleetRoom.ts:96-110 | handing frames to links changes nothing but the queues down |
| OrchestrationLaws.StepValid | fleet/src/orchestrator/Orchestrator.ts:267-450 | every handler keeps: rows well formed, reservations matched one to one with pending creates, every issued command pending or settled but not both, commands and holds at connected instances only, the event log equal to the read model, records within poller entries within links |
| OrchestrationLaws.TeardownValid | fleet/src/orchestrator/Orchestrator.ts:438-450 | teardown leaves no link, poller entry, record, pending command, capacity token or hold of the instance, and keeps everything else consistent |
| OrchestrationLaws.CreateRoomIs | fleet/src/orchestrator/FleetControl.ts:28-53 | a create that fails a check leaves the state exactly as it was; otherwise its id was legal and free and its instance is recorded and linked |
| OrchestrationLaws.ReservedIdIsFree | fleet/src/orchestrator/FleetState.ts:557-572 | a reserved id is legal and free, and an explicit id is reserved exactly when it is legal and free |
| OrchestrationLaws.ReconcileValid | fleet/src/orchestrator/Orchestrator.ts:378-380 | after a reconcile the event log folds to exactly the public room ids and instance ids of the read model, and the last sync carries its hash |
| OrchestrationLaws.TouchKeepsPublicIds | fleet/src/orchestrator/FleetState.ts:270-297 | a hash-only reply changes no public id |
| OrchestrationLaws.StepSteady | fleet/src/orchestrator/Orchestrator.ts:267-450 | no handler but a join adds a link, and command numbers only grow |
| Admission.NeverOverAdmits | fleet/src/orchestrator/FleetState.ts:508-523 | over any run of handlers between two applied snapshots of an instance and without a pinned create onto it, rooms + reserved + held stay within maxRooms once they are; rejected and dropped snapshots do not end the run |
| Admission.StepAdmits | fleet/src/orchestrator/FleetState.ts:824-839 | one handler that applies no snapshot of the instance and pins nothing onto it raises that sum only where a slot is free |
| Admission.SettleShrinks | fleet/src/orchestrator/FleetState.ts:589-602 | holding a settled create keeps the sum, releasing it lowers the sum by one on its own instance and on no other |
| Sides.StepSides | fleet/src/orchestrator/Orchestrator.ts:267-450 | seen from one connection, a handler does nothing, ends it, sends one poll, issues one new command, or lets one command lapse |
| Sides.ReceiveOther | fleet/src/orchestrator/Orchestrator.ts:300-390 | a frame changes what is known of the connection it came over and of no other |
| CommandEngines.CommandEngine.Send | fleet/src/orchestrator/CommandEngine.ts:72-122 | beyond 32 commands in flight, and when the link fails, the command settles at once and its reservations are released; otherwise it is pending and its frame is sent |
| CommandEngines.CommandEngine.Ack | fleet/src/orchestrator/CommandEngine.ts:129-146 | an ack settles exactly its pending command: success holds a create, refusal releases it, an unknown command changes nothing |
| CommandEngines.CommandEngine.TimeOut | fleet/src/orchestrator/CommandEngine.ts:89-102 | a timeout settles a command still pending and holds a create |
| CommandEngines.CommandEngine.RejectAll | fleet/src/orchestrator/CommandEngine.ts:153-168 | every command of the instance settles as disconnected and gives back its reservations; no other command is touched |
| FleetControls.FleetControl.CreateRoom | fleet/src/orchestrator/FleetControl.ts:28-66 | reserve, place, send: refused at once with everything given back, or a promise that settles with its command, and the whole desk afterwards |
| FleetControls.FleetControl.DestroyRoom | fleet/src/orchestrator/FleetControl.ts:69-80 | the owner of a public id is asked to destroy the room under its raw id; the answer settles with that command |
| FleetControls.FleetControl.SendStatusCommand | fleet/src/orchestrator/FleetControl.ts:92-109 | drain and undrain go to a recorded, linked instance; the answer settles with that command |
| FleetControls.ToldAtOnce | fleet/src/orchestrator/CommandEngine.ts:78-121 | a caller is told busy exactly at 32 commands in flight and disconnected exactly when the link fails; otherwise it waits |
| FleetControls.ToldLater | fleet/src/orchestrator/CommandEngine.ts:129-168 | a waiting caller is told success, refusal, an existing room, a timeout or a disconnect, as its command settles |
| FleetControls.ToldOnce | fleet/src/orchestrator/CommandEngine.ts:170-189 | what a caller was told never changes |
| ControlAnswers.RoomPromised | fleet/src/orchestrator/FleetControl.ts:28-66 | a create that is not refused promises an empty room of the fleet, of the type asked for, under an id that is legal and was free, at a connected instance the pin names or the strategy allows, with its endpoint |
| ControlAnswers.IdRefused | fleet/src/orchestrator/FleetState.ts:557-572 | an id that is not legal is invalid, one in use is taken, and so is a call without an id when the first thousand draws are all in use |
| ControlAnswers.IdGranted | fleet/src/orchestrator/FleetState.ts:557-572 | a legal id that is free is granted; without one, the first draw that is free |
| ControlAnswers.NoCandidateExactly | fleet/src/orchestrator/FleetState.ts:508-519 | with the id granted and no pin, the answer is that there is no candidate if and only if nobody can host the room |
| ControlAnswers.DestroyAnswered | fleet/src/orchestrator/FleetControl.ts:69-80 | an id that nobody reports is not found; otherwise its owner is asked, unless it is no longer connected |
| Orchestrators.Orchestrator.HandleAgentJoin | fleet/src/orchestrator/Orchestrator.ts:267-283 | greets and polls the newcomer; a greeting that fails leaves it linked but unpolled |
| Orchestrators.Orchestrator.SendPoll | fleet/src/orchestrator/Orchestrator.ts:332-350 | sends the last hash, or none when forced or unknown, and the recorded status; changes nothing else |
| Orchestrators.Orchestrator.HandleAgentMessage | fleet/src/orchestrator/Orchestrator.ts:300-327 | the class does to all its tables what the frame handler says, and kicks exactly when it says |
| Orchestrators.Orchestrator.HandleState | fleet/src/orchestrator/Orchestrator.ts:358-381 | an unawaited reply gets its agent kicked; an awaited one clears the stale mark and is touched, applied and reconciled, or ignored |
| Orchestrators.Orchestrator.HandleAck | fleet/src/orchestrator/Orchestrator.ts:383-390 | an ack settles its command, an unknown one gets its agent kicked; an acked drain or undrain shifts placement only |
| Orchestrators.Orchestrator.OnTimer | fleet/src/orchestrator/Orchestrator.ts:332-432 | a tick polls, marks stale and says so, or evicts and kicks |
| Orchestrators.Orchestrator.TeardownInstance | fleet/src/orchestrator/Orchestrator.ts:438-450 | the tables are cleared in order, the removal is announced and the read model reconciled |
| Orchestrators.Orchestrator.CreateRoom | fleet/src/orchestrator/FleetControl.ts:28-66 | driving the control surface has exactly the effects of the create handler |
| Commands.AckConserves | fleet/src/orchestrator/CommandEngine.ts:129-146 | an ack keeps tokens and reserved ids in one-to-one correspondence with pending creates |
| Commands.ExpiryConserves | fleet/src/orchestrator/CommandEngine.ts:89-102 | so does a timeout |
| Commands.CreateConserves | fleet/src/orchestrator/FleetControl.ts:28-53 | so does issuing a create on a free id; one that does not get away gives both reservations back |
| Commands.RejectedConserves | fleet/src/orchestrator/CommandEngine.ts:153-168 | so does rejecting all commands of an instance, after which it has none |
| Commands.TeardownLeavesNothing | fleet/src/orchestrator/Orchestrator.ts:438-450 | rejecting and clearing leaves no token, hold or command of the instance and touches no other flight |
| CommandOutcomes.AckSettlesOnce | fleet/src/orchestrator/CommandEngine.ts:170-189 | a command settles at most once, an ack is matched exactly when its command is pending, and it is fulfilled exactly on success |
| CommandOutcomes.LateAckIgnored | fleet/src/orchestrator/CommandEngine.ts:89-102 | an ack after the timeout matches nothing and changes nothing |
| CommandOutcomes.IssuedOnce | fleet/src/orchestrator/CommandEngine.ts:54-57 | an issued command has a number never used before |
| CommandHomes.TornDownHome | fleet/src/orchestrator/Orchestrator.ts:438-450 | after teardown all remaining commands and holds belong to other, connected instances |
| Reservations.HoldValid | fleet/src/orchestrator/FleetState.ts:589-602 | holding keeps both counts equal to what they summarise and reserved and held ids disjoint |
| Reservations.ReleaseValid | fleet/src/orchestrator/FleetState.ts:527-537 | so does releasing a token |
| Reservations.ReserveValid | fleet/src/orchestrator/FleetState.ts:811-816 | so does reserving one |
| Reservations.ClearValid | fleet/src/orchestrator/FleetState.ts:628-637 | clearing removes exactly the holds of one instance |
| Reservations.HoldKeepsOccupied | fleet/src/orchestrator/FleetState.ts:589-602 | a hold takes the slot over from the token: the instance stays as full as it was |
| PollerLaws.EntryFollowsHistory | fleet/src/orchestrator/Poller.ts:57-153 | after any history the entry of an instance is determined by it: connected, polls sent, request owed and ticks since; a positive miss count implies an outstanding request |
| PollerLaws.TickDecides | fleet/src/orchestrator/Poller.ts:113-141 | stale exactly at the second and evicted exactly at the third consecutive tick finding the same request unanswered; otherwise a new poll, forced full every twelfth |
| PollerLaws.OnlyTicksAlarm | fleet/src/orchestrator/Poller.ts:118-137 | nothing but an unanswered tick marks stale or evicts |
| PollerLaws.ReplyRecovers | fleet/src/orchestrator/Poller.ts:86-94 | an accepted reply starts the count over and the next tick polls |
| PollerLaws.SentOnce | fleet/src/orchestrator/Poller.ts:143-153 | request ids are never repeated |
| PollerLaws.AcceptedAtMostOnce | fleet/src/orchestrator/Poller.ts:86-94 | each request is consumed at most once and only after it was sent |
| Liveness.TickPolls | fleet/src/orchestrator/Orchestrator.ts:332-350 | with no answer owed, a tick asks again with the recorded status, and with the hash of the row except every twelfth time |
| Liveness.TickWaits | fleet/src/orchestrator/Orchestrator.ts:409-419 | the first tick without an answer changes nothing to be seen; the second marks the instance stale, and says so with its row if it has one |
| Liveness.TickEvicts | fleet/src/orchestrator/Orchestrator.ts:421-431 | the third closes the socket and leaves no link, poller entry or row of the instance |
| Liveness.JoinPolls | fleet/src/orchestrator/Orchestrator.ts:267-283 | a newcomer that can be reached is greeted, and then asked for everything |
| Liveness.ReplyClearsMark | fleet/src/orchestrator/Orchestrator.ts:358-375 | an awaited reply of either kind clears the stale mark of its instance and no other |
| Liveness.SnapshotApplied | fleet/src/orchestrator/FleetState.ts:239-263 | a snapshot is applied exactly if it is the first or newer than the last one; then the row is built from it, the seniority is kept, and every other row stays as it is |
| Liveness.HoldsEnd | fleet/src/orchestrator/FleetState.ts:628-637 | with that the holds of the instance end, and no other hold and no reservation |
| Liveness.TeardownClears | fleet/src/orchestrator/Orchestrator.ts:438-450 | whoever is torn down loses its row, stale mark and status override, and its departure is announced before anything else |
| Polling.Poller.Tick | fleet/src/orchestrator/Poller.ts:113-141 | the class does to its entries exactly what the step function says |
| Polling.Poller.Reply | fleet/src/orchestrator/Poller.ts:86-94 | a reply is accepted exactly when it answers the outstanding request |
| EventLog.ReconcileReplays | fleet/src/orchestrator/EventReconciler.ts:37-71 | after every reconcile the log folds to exactly the current public room ids and instance ids; nothing is created while live or destroyed while absent, and consecutive sync hashes differ |
| EventLog.ReconcileCarries | fleet/src/orchestrator/EventReconciler.ts:37-71 | a reconcile emits joins of current instances not known before, creates of current rooms not known before, destroys of rooms no longer current as they were announced, and the current totals, and nothing else |
| EventLog.RemovalFaithful | fleet/src/orchestrator/EventReconciler.ts:78-81 | a removal is announced as a leave of a live instance |
| EventReconciling.EventReconciler.Reconcile | fleet/src/orchestrator/EventReconciler.ts:37-71 | the diff loops emit exactly what the reconciliation function says |
| EventReconciling.EventReconciler.InstanceRemoved | fleet/src/orchestrator/EventReconciler.ts:78-81 | forgets the instance and emits its leave |
| FleetStates.FleetState.ApplySnapshot | fleet/src/orchestrator/FleetState.ts:239-263 | a newer snapshot replaces the row, clears the holds of its instance and drops the memo; an older one changes nothing |
| FleetStates.FleetState.Touch | fleet/src/orchestrator/FleetState.ts:270-297 | only the last sync time of the row moves, in the record and in the object callers share; the memo stays coherent |
| FleetStates.FleetState.RemoveInstance | fleet/src/orchestrator/FleetState.ts:300-313 | the record, its marks and its holds go, and the memo with them; without a record nothing changes |
| FleetStates.FleetState.Instances | fleet/src/orchestrator/FleetState.ts:357-360 | the rows equal recomputation from the raw records, memo or not |
| FleetStates.FleetState.GetInstance | fleet/src/orchestrator/FleetState.ts:396-401 | so does the row of one instance |
| FleetStates.FleetState.GetRoom | fleet/src/orchestrator/FleetState.ts:415-418 | so does a room looked up by public id |
| FleetStates.FleetState.LocateRoom | fleet/src/orchestrator/FleetState.ts:425-431 | a public id resolves as recomputation from the raw records would have it; which room that is, is said by Clashes.OwnerIsLocated and PublicIds.LookupInverts |
| FleetStates.FleetState.Stats | fleet/src/orchestrator/FleetState.ts:371-394 | the totals, the sorted room types and the cached state hash equal recomputation |
| SystemTotals.TotalsAreOfRooms | fleet/src/orchestrator/FleetState.ts:371-394 | in every run the totals count the recorded instances, the rooms of all of them, and the connections of all those rooms |
| FleetStates.FleetState.Rooms | fleet/src/orchestrator/FleetState.ts:363-369 | the flat list of rooms equals recomputation |
| FleetStates.FleetState.GetInstanceByProcessUid | fleet/src/orchestrator/FleetState.ts:409-412 | a process is resolved to its latest connection |
| RoomTypes.TypesAreOffered | fleet/src/orchestrator/FleetState.ts:374-390 | the room types are exactly those some instance offers, each once and in order |
| FleetStates.FleetState.ReserveRoomId | fleet/src/orchestrator/FleetState.ts:557-572 | an explicit id is validated and must be free; otherwise the first free draw within 1000 attempts is taken |
| FleetStates.FleetState.HoldUntilVisible | fleet/src/orchestrator/FleetState.ts:589-602 | releases token and id, and holds the id unless it is held already |
| FleetStates.FleetState.Release | fleet/src/orchestrator/FleetState.ts:527-537 | a live token goes and the count of its instance with it; a dead one changes nothing |
| FleetStates.FleetState.Place | fleet/src/orchestrator/FleetState.ts:463-523 | selects as the function Selected says, of which Hosting states what it means, and reserves a slot, or reports why not and reserves nothing |
| FleetStates.FleetState.FilterCandidates | fleet/src/orchestrator/FleetState.ts:495-520 | keeps exactly the instances that can host the room, in order |
| FleetStates.TouchMovesOneRow | fleet/src/orchestrator/FleetState.ts:288-296 | a touch moves one row in its last sync time, and the state hash not at all |
| ResolutionView.FindKeepers | fleet/src/orchestrator/FleetState.ts:736-773 | the loop over the flattened rooms finds for each shared id the room that keeps it |
| ResolutionView.IndexRooms | fleet/src/orchestrator/FleetState.ts:775-786 | the public index maps each public id to the last room that bears it |
| StateHash.HashIgnoresLastSync | fleet/src/orchestrator/FleetState.ts:879-905 | last sync times never show in the state hash |
| StateHash.HashIgnoresOrder | fleet/src/orchestrator/FleetState.ts:879-905 | nor does the order in which the records iterate |
| StateHash.StateHashDecides | fleet/src/orchestrator/FleetState.ts:879-905 | two fleets with distinct ids, exact totals and one value per label key have equal state hashes if and only if each instance of either is in the other, up to its last sync time and the order of its labels |
| PublicIds.UnambiguousExactly | fleet/src/orchestrator/FleetState.ts:746-773 | all public ids are distinct if and only if no id is lost twice by connections of one process |
| PublicIds.DistinctProcessesUnambiguous | fleet/src/orchestrator/FleetState.ts:716-798 | with distinct process ids and distinct room ids per record, all public ids are distinct |
| PublicIds.ReconnectCanClash | fleet/src/orchestrator/FleetState.ts:754-757 | a reconnect overlapping a third holder gives two rooms one public id |
| PublicIds.SamePublicId | fleet/src/orchestrator/FleetState.ts:746-773 | two rooms share a public id only as losers of one clash reported by one process |
| PublicIds.LookupInverts | fleet/src/orchestrator/FleetState.ts:775-786 | an unambiguous public id resolves back to its owner and raw id |
| PublicIds.LookupIgnoresOrder | fleet/src/orchestrator/FleetState.ts:704-715 | the public index does not depend on the order the records iterate in |
| PublicIds.FoundIffReported | fleet/src/orchestrator/FleetState.ts:617-622 | a legal id is found exactly while some instance reports it |
| PublicIds.KeeperKeepsPlainId | fleet/src/orchestrator/FleetState.ts:746-757 | a room whose id is in the charset and that keeps it is public under the plain id |
| Resolution.KeeperDecides | fleet/src/orchestrator/FleetState.ts:958-968 | whatever the order of the records, the keeper the loop finds is the one that precedes all rivals |
| Resolution.KeeperExists | fleet/src/orchestrator/FleetState.ts:746-757 | every clash has a room that keeps the id |
| Clashes.PlainIdExactly | fleet/src/orchestrator/FleetState.ts:746-773 | a room is public under its own encoded id exactly if no room reported under the same id has a better claim: created by the fleet before local, then joined earlier, then the lower instance id; otherwise under its process id and the separator |
| Clashes.OwnerIsLocated | fleet/src/orchestrator/FleetState.ts:415-431 | an id is found exactly while some instance reports it, and leads to the instance and the room with the best claim, under the id that instance knows it by |
| FleetTypes.BuildInstanceInfoInjective | fleet/src/orchestrator/FleetState.ts:909-940 | a row determines the snapshot it was built from: nothing reported is lost |
| Hosting.PlacedOnFavoured | fleet/src/orchestrator/FleetState.ts:508-523 | without a pin the room goes to an instance that is active, live, willing, offers the type, carries every label and has a slot and a connection to spare, and that no other such instance undercuts (or exceeds): by connections over maximum where all declare one, else by connections; refused exactly when there is none |
| Hosting.DrawIsEven | fleet/src/orchestrator/FleetState.ts:852-873 | each of the n instances that may take the room is chosen for exactly one n-th of the range of the draw |
| Hosting.HostsAre | fleet/src/orchestrator/FleetState.ts:508-516 | the filter keeps an instance exactly if its fields say it can host: acked drains and undrains count at once, creates in flight and settled creates not yet reported occupy slots |
| Placement.PlacementIsComplete | fleet/src/orchestrator/FleetState.ts:508-523 | an instance is chosen exactly when one can host the room |
| Placement.PlacementNeverOverAdmits | fleet/src/orchestrator/FleetState.ts:824-839 | placing fills one slot of the chosen instance, within its limit, and none of any other |
| Hosting.PinExactly | fleet/src/orchestrator/FleetState.ts:463-494 | a pin by both names is invalid, one that names nothing is not found; the instance of that id, or the latest connection of that process, is refused exactly if draining or stale without force, or unwilling, and else taken whatever its load |
| Agents.ContentReports | fleet/src/agent/Snapshot.ts:223-258 | a snapshot lists exactly the rooms there are |
| AgentAnswers.ContentShows | fleet/src/agent/Snapshot.ts:223-258 | a snapshot lists every room there is once, with its type, its connections and its origin, in ascending order of UTF-16 units, beside configuration, types and status |
| AgentAnswers.StatusTaken | fleet/src/agent/FleetAgent.ts:636-642 | a drain or undrain sets the status to draining or active, is acked as done under its number, and changes nothing else |
| AgentAnswers.CreateTaken | fleet/src/agent/FleetAgent.ts:583-615 | a create succeeds exactly if creation is on, there is a slot, the id is new and the room does not object; then the room is there under that id, of that type, empty and marked; otherwise nothing changes |
| AgentAnswers.DestroyTaken | fleet/src/agent/FleetAgent.ts:617-634 | a destroy succeeds on an absent room too, removes the room and its mark, and otherwise changes nothing |
| AgentAnswers.PollTakenShows | fleet/src/agent/Snapshot.ts:199-216 | a poll is answered once, with the next number; the content is left out exactly if its hash is the one known |
| FleetAgents.EchoDecides | fleet/src/agent/FleetAgent.ts:660-673 | a waiting drain or undrain is resolved exactly when its status is echoed; the others go on waiting, none is lost |
| SystemStatus.StatusIsBelieved | fleet/src/orchestrator/FleetState.ts:329-346 | in every run, from the consumed ack of a drain or undrain on, placement takes the instance to be draining or active, until game code or another command asks otherwise |
| SystemStatus.StatusIsReported | fleet/src/agent/FleetAgent.ts:636-642 | in every run the next snapshot consumed after such an ack has that status, and so has the row it leaves |
| SystemStatus.DrainedIsLeftOut | fleet/src/orchestrator/FleetControl.ts:100-108 | in every run, while its acked drain holds, no create that is not pinned is sent to the instance |
| SystemStatus.UndrainedMayHost | fleet/src/orchestrator/FleetControl.ts:100-108 | in every run, while its acked undrain holds, the instance can host exactly what its liveness, settings and load allow |
| SystemRooms.RoomMade | fleet/src/agent/FleetAgent.ts:607-611 | a create that was acked as done has made the room: under its id, of its type, with no connections |
| SystemRooms.CreatedIsReported | fleet/src/orchestrator/FleetState.ts:589-602 | in every run, once the ack of a done create and then a snapshot have been consumed, the row lists the room as a fleet room of the type asked for and its id is found, unless it was destroyed since |
| SystemRooms.DestroyedIsGone | fleet/src/agent/FleetAgent.ts:617-634 | in every run, once the ack of a done destroy and then a snapshot have been consumed, the row does not list the room, unless it was made again since |
| SystemAnswers.ReplyAfterMark | fleet/src/agent/Snapshot.ts:199-216 | in every run: whatever holds of what an agent would report from some point on holds of every snapshot consumed after all that was under way at that point, and of the row it leaves |
| ControlRequests.StatusAskedSends | fleet/src/orchestrator/FleetControl.ts:82-100 | a request to drain or undrain sends that command to that instance and nothing else, if it is recorded, its link takes frames and fewer than 32 commands are in flight |
| ControlRequests.DestroyAskedSends | fleet/src/orchestrator/FleetControl.ts:69-80 | a request to destroy goes to the instance with the best claim to the id, under the id it knows the room by |
| ControlRequests.CreateAskedSends | fleet/src/orchestrator/FleetControl.ts:28-53 | a request to create sends at most one create: of a legal id not in use, the one asked for or one drawn, of the type asked for, to an instance the pin names or the strategy allows |
| StatusOverrides.StepOverrides | fleet/src/orchestrator/FleetState.ts:329-346 | no handler but an ack or a reply of the instance changes what placement takes its status to be while it is linked |
| StatusOverrides.StateOverrides | fleet/src/orchestrator/FleetState.ts:650-661 | a consumed reply drops such a belief only if the row bears it out |
| Agents.TakeValid | fleet/src/agent/FleetAgent.ts:498-642 | handling a frame keeps the agent consistent: origins are of existing rooms, the order lists each room once |
| FleetAgents.Snapshot.BuildContent | fleet/src/agent/Snapshot.ts:223-258 | the loop over the rooms gives the sorted content |
| FleetAgents.Snapshot.PollReply | fleet/src/agent/Snapshot.ts:199-221 | hash-only exactly when the hash is the one the poll carries, and the counter advances |
| FleetAgents.FleetAgent.OnHello | fleet/src/agent/FleetAgent.ts:529-538 | the frame counter starts anew and the lifecycle follows the status |
| FleetAgents.FleetAgent.OnPoll | fleet/src/agent/FleetAgent.ts:555-565 | the echo resolves exactly the callers waiting for that status; a reply goes out only over a live socket |
| FleetAgents.FleetAgent.OnCmd | fleet/src/agent/FleetAgent.ts:567-581 | the class does to rooms, marks and status what the frame handler Take does, of which AgentAnswers states what it means; the lifecycle follows a drain or undrain, and the ack goes out over a live socket |
| FleetAgents.FleetAgent.ExecCreate | fleet/src/agent/FleetAgent.ts:583-615 | created and stamped, or refused: creation off, full, existing, or failed |
| FleetAgents.FleetAgent.ExecDestroy | fleet/src/agent/FleetAgent.ts:617-634 | destroyed and forgotten, or already gone, or failed |
| SnapshotHash.HashDecides | fleet/src/agent/Snapshot.ts:188-191 | two snapshots of one agent have the same hash if and only if they are equal |
| CanonicalSame.CanonicalTextDecides | fleet/src/util/canonical.ts:21-74 | two values have the same canonical text if and only if they are the same data up to key order |
| JsonReader.CanonicalReadsBack | fleet/src/util/canonical.ts:14-21 | the canonical text is JSON: a reader after sections 2 to 7 of RFC 8259 gets from it the data of the value, whole numbers, strings with all escapes, arrays and objects |
| CanonicalSame.NormalObj | fleet/src/util/canonical.ts:48-60 | that data has exactly the keys of the object whose values are not undefined, each once, strictly ascending |
| Canonical.LessExactly | fleet/src/util/canonical.ts:50 | one key comes before another exactly if it is smaller at the first UTF-16 unit where they differ, or ends there |
| CanonicalSame.KeyOrderNeverShows | fleet/src/util/canonical.ts:48-60 | the insertion order of an object never shows |
| CanonicalInjective.PrintInjective | fleet/src/util/canonical.ts:25-64 | printed trees are equal only if the trees are |
| CanonicalInjective.QuoteReads | fleet/src/util/canonical.ts:30-32 | string quoting as in section 7 of RFC 8259 is self-delimiting and injective, lone surrogates included |
| RoomId.EncodedRoomIdInjective | fleet/src/domain/roomId.ts:41-51 | different room ids have different encoded forms |
| RoomId.EncodedRoomIdSafe | fleet/src/domain/roomId.ts:41-51 | an encoded id contains no separator and nothing outside the charset but percent signs |
| RoomId.EncodedRoomIdReads | fleet/src/domain/roomId.ts:41-51 | reading an encoded id back, with upper-case escapes of exactly the bytes outside the charset, gives the UTF-8 bytes of the id |
| RoomId.PercentEncodeInjective | fleet/src/domain/roomId.ts:45-50 | percent-encoding as in section 2.1 of RFC 3986 is injective on bytes |
| RoomId.NamespaceUnambiguous | fleet/src/domain/roomId.ts:54-56 | whatever the process id contains, the last separator splits a namespaced id |
| RoomId.NamespacedIsNotEncoded | fleet/src/domain/roomId.ts:54-56 | a namespaced id is never an encoded id |
| RoomId.EncodeRoomId | fleet/src/domain/roomId.ts:41-51 | the loop computes the encoded form |
| WireRoundTrip.RoundTrip | handshake/src/wire/serializer.ts:69-159 | decoding an encoded message gives its normal form, under the schema that wrote it and under every one that only appends fields |
| WireNormal.IdentityOnExact | handshake/src/wire/serializer.ts:69-159 | encoding then decoding is the identity on exactly the messages with required fields present, no empty lists, scalars in range and no unknown keys |
| WireEvolution.EvolutionPreservesMeaning | handshake/src/wire/serializer.ts:123-148 | append-only evolution in both directions: an old reader gets the projection of a new message at every nesting level, a new reader gets from an old message what an old reader gets |
| WireEvolution.OldReaderProjects | handshake/src/wire/serializer.ts:123-148 | whatever bytes a newer schema decodes, the older one decodes to the projection |
| WireEvolution.ConcatenationMerges | handshake/src/wire/serializer.ts:123-148 | decoding two valid bodies one after the other is the field-wise merge: the last value wins, lists append |
| WireSize.EncodesExactly | handshake/src/wire/serializer.ts:69-121 | a message encodes if and only if every type met is defined, every repeated value is a list and nothing is longer than an array can be; the number of bytes is given exactly |
| WireLayout.FieldsLayout | handshake/src/wire/serializer.ts:69-87 | the body is what the fields are written as, in the order of the list, each under its position counted from one |
| WireLayout.ScalarLayout | handshake/src/wire/serializer.ts:89-112 | a key in LEB128, eight times the tag plus the wire type, then: text as UTF-8 and bytes with their length, unsigned integers as they are, signed ones with the sign in the lowest bit, truth as 0 or 1 |
| WireLayout.MessageLayout | handshake/src/wire/serializer.ts:113-119 | a nested message is its own body with its length |
| WireLayout.AbsentLayout | handshake/src/wire/serializer.ts:80-85 | an absent field leaves nothing, unless it is required: then an empty or zero value stands in |
| WireLayout.VarintIsLeb128 | handshake/src/wire/varint.ts:25-32 | a varint is the shortest LEB128 form of its number |
| WireReading.VarintReadsExactly | handshake/src/wire/varint.ts:60-73 | of any bytes: a varint that ends within eight bytes is the number its groups make, as a double; any other is too long, or cut off if the bytes end first |
| WireReading.RoundsToNearest | handshake/src/wire/varint.ts:68 | that double is a multiple of a power of two as near as can be, the even one if in doubt |
| WireReading.FieldReadsExactly | handshake/src/wire/serializer.ts:125-133 | what follows a key is the number, or a length and as many bytes, all of which must be there |
| WireReading.KindReadsExactly | handshake/src/wire/serializer.ts:134 | any other wire type is refused |
| WireReading.MismatchReadsEmpty | handshake/src/wire/serializer.ts:150-158 | a field of another kind than the schema says reads as empty, zero, false or absent |
| WireSerializer.Serializer.Encode | handshake/src/wire/serializer.ts:53-57 | the loops over Writer and child writers produce the specified bytes or the specified error |
| WireSerializer.Serializer.Decode | handshake/src/wire/serializer.ts:59-61 | the loops over Reader, on any bytes and any schema, end with the specified message or the specified error and never read past the buffer |
| WireSerializer.Serializer.Write | handshake/src/wire/serializer.ts:69-87 | the fields are appended in schema order, defaults for missing required ones |
| WireSerializer.Serializer.Read | handshake/src/wire/serializer.ts:123-148 | the cursor loop reads exactly what the specification reads |
| Wire.UnZigZagInverts | handshake/src/wire/serializer.ts:103-107 | un-zig-zag undoes zig-zag on all int32 values |
| Varint.ReadVarintInverts | handshake/src/wire/varint.ts:60-73 | reading undoes writing for every exact integer, whatever bytes follow |
| Varint.SafeVarintLength | handshake/src/wire/varint.ts:25-32 | every exact integer takes at most the eight bytes a reader accepts |
| Varint.Writer.Varint | handshake/src/wire/varint.ts:25-32 | appends the varint bytes, growing the buffer and keeping what was written |
| Varint.Writer.Grow | handshake/src/wire/varint.ts:16-23 | the contents survive growth and the room asked for is there |
| Varint.Writer.LenBytes | handshake/src/wire/varint.ts:35-40 | appends the length and the bytes |
| Varint.Reader.Varint | handshake/src/wire/varint.ts:60-73 | reads what the specification reads, advancing by exactly the bytes consumed, or reports truncation or overlength |
| Varint.Reader.Take | handshake/src/wire/varint.ts:75-81 | takes exactly the bytes asked for, or reports that they are not there |
| Utf8.DecodeTextInverts | handshake/src/wire/serializer.ts:152 | text survives encoding and decoding exactly when it does not start with U+FEFF |
| Utf8.EncodeInjective | handshake/src/wire/serializer.ts:92-93 | different texts have different bytes (section 3 of RFC 3629) |
| MessageCodec.WritesFrameBytes | handshake/src/message.ts:32-34 | a data frame is the topic and payload fields, in order |
| MessageCodec.ReadsFrameBytes | handshake/src/message.ts:36-38 | decoding a data frame gives topic and payload back |
| CloseFrame.TruncateUtf8 | handshake/src/closeFrame.ts:78-95 | text that fits is returned as it is, other text is cut to the longest fitting prefix as decoded |
| CloseFrame.FitCountUnique | handshake/src/closeFrame.ts:81-93 | no longer prefix of the text fits, and there is exactly one such prefix |
| CloseFrame.PrefixExactly | handshake/src/closeFrame.ts:69-95 | the result is the longest fitting prefix if and only if the text fits, the limit is below three bytes, or the text does not start with U+FEFF |
| CloseFrame.LeadingBomIsLost | handshake/src/closeFrame.ts:78-95 | a text of U+FEFF and 121 letters loses both its last letter and the U+FEFF |
| CloseFrame.TruncateCloseReason | core/src/TLayer.ts:13-31 | a reason of at most 123 bytes is kept as it is; of any other bytes what comes before the last lead byte, or up to the last ASCII byte, with only continuation bytes from there to the limit |
| CloseFrame.KickedText | core/src/TLayer.ts:13-31 | well-formed text longer than that loses the scalar that holds byte 122 and all that follows, unless that scalar is ASCII, which stays: 119 to 123 bytes are left (section 5.5 of RFC 6455) |
| CloseFrame.KickReasonArrivesExactly | core/src/TLayer.ts:381-383 | the receiver reads the reason that was sent exactly if it fits and does not start with U+FEFF |
| CloseFrame.KickReasonIsPrefix | core/src/TLayer.ts:381-383 | the receiver of a kick reads a prefix of the reason |
| CloseFrame.KickReasonFitsCloseFrame | handshake/src/closeFrame.ts:104-107 | a reason that went through a kick is not shortened again for the close frame |
| CloseFrame.EncodeCloseFrame | handshake/src/closeFrame.ts:104-107 | the frame decodes to the code and the truncated reason |
| RtcFrameChunker.ReassemblesFrame | browser/src/peer/RtcFrameChunker.ts:141-169 | the chunks of a frame, in any order and with duplicates before completion, yield nothing until the last distinct one and then exactly the frame |
| RtcFrameChunker.ChunkLayout | browser/src/peer/RtcFrameChunker.ts:82-104 | chunk k of a frame is a data frame of the chunk topic with the low sixteen bits of the sequence number, high byte first, the number of chunks, k, and the next 16352 bytes of the frame or what is left of it |
| RtcFrameChunker.StreamInOrder | browser/src/peer/RtcFrameChunker.ts:81-169 | the chunks of frames fed one frame after the other give the frames in order |
| RtcFrameChunker.StreamArrives | browser/src/peer/RtcFrameChunker.ts:65-169 | from message bytes to frames: what is sent for a list of frames, detected, decoded and reassembled, gives exactly the frames that are not empty, in order |
| RtcFrameChunker.ArrivesUnlessEmpty | browser/src/peer/RtcFrameChunker.ts:81-169 | a frame arrives if and only if it is not empty |
| RtcFrameChunker.PrefixDecidesTopic | browser/src/peer/RtcFrameChunker.ts:65-72 | an encoded message passes the prefix test exactly when its topic is the chunk topic |
| RtcFrameChunker.ChunkFitsChannel | browser/src/peer/RtcFrameChunker.ts:42-45 | every chunk message is at most 16384 bytes |
| RtcFrameChunker.SentChunkParses | browser/src/peer/RtcFrameChunker.ts:111-120 | each message sent looks like a chunk and is parsed back to the chunk it was made from |
| RtcFrameChunker.EmptyFrameIsLost | browser/src/peer/RtcFrameChunker.ts:81-105 | an empty frame has no chunks and, sent over an idle channel, nothing arrives; no other frame is like that |
| RtcFrameChunker.ChunkFrame | browser/src/peer/RtcFrameChunker.ts:81-105 | the loop encodes exactly the chunks of the frame, or refuses one that needs more than 255 |
| RtcFrameChunker.IsChunkFrame | browser/src/peer/RtcFrameChunker.ts:65-72 | the loop decides whether the message starts with the chunk prefix |
| RtcFrameChunker.ChunkReassembler.FeedChunk | browser/src/peer/RtcFrameChunker.ts:141-169 | the class does to its fields what the step function says and hands out what it says |
| TokenBucketLaws.RunAgrees | core/src/TokenBucketRateLimiter.ts:82-137 | under a clock that never runs backwards and without cap eviction, a limiter whose idle time refills a bucket answers as one that never forgets |
| TokenBucketLaws.GrantsInWindow | core/src/TokenBucketRateLimiter.ts:82-118 | in any window of such a run an actor that is not released wins at most the burst plus what accrues |
| TokenBucketClock.GrantsFromStart | core/src/TokenBucketRateLimiter.ts:82-114 | under any clock, backward steps included, while its bucket is neither released nor swept nor evicted, an actor wins at most the capacity plus the rate times the forward steps of the clock between its own checks |
| TokenBucketClock.GrantsUnderAnyClock | core/src/TokenBucketRateLimiter.ts:82-114 | the same from any state, with what the bucket holds in place of the capacity |
| TokenBucketClock.EarlierCheck | core/src/TokenBucketRateLimiter.ts:91-98 | a check no later than the last leaves the tokens as they were but for the one it spends, and moves the baseline |
| TokenBucketClock.PatientIsAllowed | core/src/TokenBucketRateLimiter.ts:99-113 | without a bucket, or after waiting for a token to accrue, a check succeeds |
| TokenBucketExact.TransparentExactly | core/src/TokenBucketRateLimiter.ts:41-47 | on a real-valued clock the idle sweep is invisible if and only if idleEvictMs * refillPerMs >= capacity or no bucket ever holds a whole token |
| TokenBucketExact.TransparentOnTicksExactly | core/src/TokenBucketRateLimiter.ts:41-47 | on a clock of whole milliseconds, for a whole capacity, the idle sweep is invisible if and only if the idle time, rounded up to a whole millisecond, refills a whole bucket |
| TokenBucketExact.CapTransparentExactly | core/src/TokenBucketRateLimiter.ts:41-47 | counting eviction over the cap, the limiter answers as one that never forgets in all runs if and only if no bucket ever holds a whole token |
| TokenBucketExact.CapEvictionShows | core/src/TokenBucketRateLimiter.ts:144-157 | for any number of buckets and a capacity of one or more: newcomers push out a drained bucket, and the actor gets more than its capacity at once |
| TokenBucketExact.FewActorsNeverFill | core/src/TokenBucketRateLimiter.ts:144-157 | with no more actors than buckets allowed, nothing is ever evicted for lack of room |
| TokenBucketOrder.RunKeepsOrder | core/src/TokenBucketRateLimiter.ts:103-107 | at every point of every run the map is within its cap and its order is recency order |
| TokenBucketOrder.VictimIsLeastRecent | core/src/TokenBucketRateLimiter.ts:144-157 | what is evicted was used no later than anything else and is never the bucket just checked |
| TokenBucket.TokenBucketRateLimiter.Check | core/src/TokenBucketRateLimiter.ts:82-114 | the class answers and leaves its ordered map as the step function says, of which TokenBucketClock and TokenBucketLaws state what it means |
| TokenBucket.TokenBucketRateLimiter.SweepIdle | core/src/TokenBucketRateLimiter.ts:125-137 | the loop drops exactly the idle buckets, once per idle time |
| TokenBucket.TokenBucketRateLimiter.EvictOverCap | core/src/TokenBucketRateLimiter.ts:144-157 | the loop evicts from the least recent end, never the actor it keeps |
| AuthThrottleLaws.PruningIsInvisible | fleet/src/routers/shared.ts:385-408 | under a clock that never runs backwards and without cap eviction, every request is answered as if nothing were ever pruned |
| AuthThrottleLaws.GuessesInWindow | fleet/src/routers/shared.ts:353-361 | in any window an address gets at most the limit plus what accrues |
| AuthThrottleClock.GuessesFromStart | fleet/src/routers/shared.ts:353-384 | under any clock, while its bucket is neither pruned nor evicted, an address gets at most the limit plus what accrues over how far its own requests advance the clock |
| AuthThrottleClock.GuessesUnderAnyClock | fleet/src/routers/shared.ts:353-384 | the same from any state, with what the bucket holds in place of the limit |
| AuthThrottleClock.EarlierRequest | fleet/src/routers/shared.ts:378-382 | a request no later than the last counted one changes neither tokens nor baseline, but charges a bad key |
| AuthThrottleClock.EarlierFailure | fleet/src/routers/shared.ts:358-361 | a failure costs a token, or what is left of one |
| AuthThrottleClock.PatientIsExamined | fleet/src/routers/shared.ts:368-384 | without a bucket, or after waiting for a token to accrue, a key is examined |
| AuthThrottleClock.PrunedExactly | fleet/src/routers/shared.ts:386-408 | once per window, and then exactly the buckets that have been idle for longer and are full again |
| AuthThrottleLaws.GuessesExceedLimit | fleet/src/routers/shared.ts:353-361 | more guesses than the limit fit into one window, and the bound is met exactly |
| AuthThrottleExact.LimitPerWindowExactly | fleet/src/routers/shared.ts:326-361 | on a real-valued clock: at most limit guesses per address in every window shorter than windowMs, in all runs without eviction, if and only if the limit is at most one |
| AuthThrottleExact.LimitPerWindowOnTicksExactly | fleet/src/routers/shared.ts:326-361 | on a clock of whole milliseconds the same promise holds if and only if the limit is below one, or the fraction of the limit and what accrues by the last tick of a window are together below one |
| AuthThrottleExact.CapTransparentExactly | fleet/src/routers/shared.ts:411-426 | counting eviction over the cap, requests are answered as if nothing were ever forgotten in all runs if and only if the limit is below one |
| AuthThrottleExact.CapEvictionShows | fleet/src/routers/shared.ts:411-426 | for any number of buckets and a limit of one or more: strangers push out a blocked address, which may guess again at once |
| AuthThrottleLaws.RunStaysWithinCap | fleet/src/routers/shared.ts:411-426 | the map never outgrows its cap |
| AuthThrottleLaws.VictimIsOldest | fleet/src/routers/shared.ts:411-426 | what makes room was touched no later than any other bucket |
| AuthThrottling.AuthThrottle.Blocked | fleet/src/routers/shared.ts:353-355 | the class answers and leaves its map as the step function says |
| AuthThrottling.AuthThrottle.RecordFailure | fleet/src/routers/shared.ts:358-361 | one token is charged, never below zero |
| AuthThrottling.AuthThrottle.Prune | fleet/src/routers/shared.ts:393-408 | the loop drops exactly the buckets that have refilled, once per window |
| AuthThrottling.AuthThrottle.EvictIfOver | fleet/src/routers/shared.ts:411-426 | the loop evicts the first bucket with the smallest time when over the cap |

## Left out

- Values whose kind does not fit their field (a number where a list is expected and the like): the coercions of the host
  language are modelled for `bytes` and `bool` only.
- Numbers with a fraction in the canonical encoder: integers, and numbers that are not finite, only.
- The digest behind `hash64`, and the validation of snapshots, which is any yes-or-no answer here.
- The external protobuf library of the fleet wire: frames of the control plane are typed messages, decoding errors and
  version mismatches are not modelled.
- Sockets, HTTP, server-sent events, authentication of agents, logging, size warnings, configuration.
- Reconnecting and its backoff: a reconnect is a new connection with a new instance id.
- Orchestrator start and shutdown; shutdown is a teardown of every link, each of which is modelled.
- The turn of the event loop between an ack and the placement override that follows a drained or undrained instance:
  both happen in one step here.
- An agent that is not connected leaves its frame counter alone; here a reply that cannot be sent still counts, which
  only makes the counter larger.
- Room ids chosen by the agent when a create names none: the control plane always names one.
- Grouping rooms by base id and sorting each group: the loop here keeps the first room in the same order per base id.
- `findRooms`: a filter over the flat list of rooms.
- Keys that name members of the host language's object prototype (`__proto__`, `constructor`): messages are plain maps.
- Cyclic nesting of required fields, on which the source's encoder does not end: schemas come with a rank that descends
  along required nesting.
- Arrays of more than 2^53 - 1 bytes are reported as too large.
- `Writer.done` and `Reader.take` copy their bytes; here they return sequences.
- TransparentOnTicksExactly: for a capacity that is not whole there is the exact condition on a real-valued clock only;
  a clock of whole milliseconds may then fail to show a sweep that such a clock would show.
- StateHashDecides: takes the connection total of an instance to be an exact integer, at most 2^53 - 1, because the host
  language rounds larger sums.
