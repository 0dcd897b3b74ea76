/** The orchestrator's handlers, driving the state, the command engine, the poller and the reconciler in order. */
module Orchestrators {
  import opened Prelude
  import opened Utf8
  import opened FleetTypes
  import opened Commands
  import opened FleetModel
  import opened Placement
  import opened Polling
  import opened EventReconciling
  import opened FleetStates
  import opened Orchestration
  import opened CommandEngines
  import opened FleetControls

  class Orchestrator {
    const state: FleetState
    const commands: CommandEngine
    const poller: Poller
    const reconciler: EventReconciler
    const control: FleetControl
    const room: FleetRoom
    /** The connected agents; a link is an actor of the room. */
    var links: set<InstanceId>

    ghost function Model(): Orch
      reads this, state, commands, poller, reconciler
    {
      Orch(links, poller.Model(), commands.Model(), state.Model(), reconciler.Model())
    }

    ghost predicate Wired() {
      commands.reservations == state && control.state == state && control.commands == commands && control.room == room
    }

    ghost predicate Valid()
      reads state, state.Cells()
    {
      Wired() && state.Valid()
    }

    constructor (room: FleetRoom)
      ensures this.room == room && Valid() && Model() == NEW_ORCH
    {
      var fleet := new FleetState();
      var engine := new CommandEngine(fleet);
      state, commands, this.room := fleet, engine, room;
      poller := new Poller();
      reconciler := new EventReconciler();
      control := new FleetControl(fleet, engine, room);
      links := {};
    }

    // ----- reconciling and teardown -----

    method Reconcile()
      requires Valid()
      modifies reconciler, state`resolvedView, state`cachedStateHash
      ensures Valid() && Model() == Orchestration.Reconcile(old(Model()))
    {
      hide ViewCoherent, ComputeStateHash, SumRooms, SumConnections;
      var instances := state.CurrentRows();
      var stats := state.Stats();
      reconciler.Reconcile(instances, stats);
    }

    method RejectCommands(i: InstanceId)
      requires Valid()
      modifies commands, state`reservations, state`reservedByInstance, state`reservedRoomIds
      ensures Valid() && Model() == WithDesk(old(Model()), RejectedAll(DeskOf(old(Model())), i))
    {
      hide RejectedAll;
      commands.RejectAll(i);
    }

    method RemoveRecord(i: InstanceId)
      requires Valid()
      modifies reconciler, state
      ensures Valid()
      ensures var o := old(Model());
        Model() == o.(fleet := RemoveInstance(o.fleet, i),
                      known := if i in o.fleet.rows.records then RemovedInstance(o.known, o.fleet.rows.records[i].info)
                        else o.known)
    {
      var removed := state.RemoveInstance(i);
      if removed.Some? {
        reconciler.InstanceRemoved(removed.value);
      }
    }

    /** Forget an instance in every table, and announce it. */
    method TeardownInstance(i: InstanceId)
      requires Valid()
      modifies this, poller, commands, reconciler, state
      ensures Valid() && Model() == Teardown(old(Model()), i)
    {
      if i !in links && !poller.Has(i) {
        return;
      }
      hide ViewCoherent, RejectedAll, Orchestration.Reconcile, RemoveInstance, RemovedInstance;
      links := links - {i};
      poller.Forget(i);
      RejectCommands(i);
      RemoveRecord(i);
      Reconcile();
    }

    /** Forget an agent that broke the protocol or went silent, and close its socket. */
    method Kick(i: InstanceId)
      requires Valid()
      modifies this, poller, commands, reconciler, state, room`kicked
      ensures Valid() && Model() == Teardown(old(Model()), i) && room.kicked == old(room.kicked) + {i}
    {
      TeardownInstance(i);
      room.Kick(i);
    }

    // ----- joining, leaving and polling -----

    /** An agent has joined: greet it, then poll it at once; a greeting that fails leaves it unpolled. */
    method HandleAgentJoin(i: InstanceId)
      requires Valid()
      modifies this, poller, state`resolvedView, room`sent
      ensures Valid()
      ensures var e := Join(old(Model()), i, room.open); Model() == e.orch && room.sent == old(room.sent) + e.sent
    {
      hide Started, PollFrame;
      links := links + {i};
      var ok := room.Send(i, Hello);
      if ok {
        StartPolling(i);
      }
    }

    method StartPolling(i: InstanceId)
      requires Valid()
      modifies poller, state`resolvedView, room`sent
      ensures Valid()
      ensures var (polls, effect) := Started(old(poller.Model()), i);
        && Model() == old(Model()).(polls := polls)
        && room.sent == old(room.sent) + SentPoll(old(Model()), i, effect.reqId, effect.forceFull, room.open)
    {
      var effect := poller.Start(i);
      SendPoll(i, effect.reqId, effect.forceFull);
    }

    method SendPoll(i: InstanceId, reqId: nat, forceFull: bool)
      requires Valid()
      modifies state`resolvedView, room`sent
      ensures Valid() && Model() == old(Model())
      ensures room.sent == old(room.sent) + SentPoll(old(Model()), i, reqId, forceFull, room.open)
    {
      if i !in links {
        return;
      }
      var knownHash := if forceFull then None else state.LastHashOf(i);
      var info := state.GetInstance(i);
      var status := if info.Some? then info.value.status else Active;
      var ok := room.Send(i, Down.Poll(reqId, knownHash, status));
    }

    method HandleAgentLeave(i: InstanceId)
      requires Valid()
      modifies this, poller, commands, reconciler, state
      ensures Valid() && Model() == Teardown(old(Model()), i)
    {
      TeardownInstance(i);
    }

    /** The poll timer of an instance fires. */
    method OnTimer(i: InstanceId)
      requires Valid()
      modifies this, poller, commands, reconciler, state, room`sent, room`kicked
      ensures Valid()
      ensures var e := Tick(old(Model()), i, room.open);
        Model() == e.orch && room.sent == old(room.sent) + e.sent && room.kicked == old(room.kicked) + e.closed
    {
      var effect := poller.Tick(i);
      match effect
      case Quiet =>
      case SendPoll(reqId, forceFull) => SendPoll(i, reqId, forceFull);
      case OnStale => OnStale(i);
      case OnEvict => Kick(i);
    }

    method OnStale(i: InstanceId)
      requires Valid()
      modifies reconciler, state`staleInstances, state`resolvedView
      ensures Valid()
      ensures var o := old(Model());
        var marked := o.(fleet := SetStale(o.fleet, i, true));
        Model() == if i in o.fleet.rows.records then marked.(known :=
          Emit(o.known, InstanceStale(Resolved(o.fleet.rows.records, i)))) else marked
    {
      state.SetStale(i, true);
      var info := state.GetInstance(i);
      if info.Some? {
        reconciler.EmitStale(info.value);
      }
    }

    // ----- frames -----

    /** Every agent frame must answer an outstanding request; any other gets the agent kicked. */
    method HandleAgentMessage(i: InstanceId, frame: Up, valid: bool, now: Time)
      requires Valid()
      modifies this, poller, commands, reconciler, state, state.Cells(), room`kicked
      ensures Valid()
      ensures var e := Receive(old(Model()), i, frame, valid, now);
        Model() == e.orch && room.kicked == old(room.kicked) + e.closed
    {
      if i !in links {
        return;
      }
      match frame
      case State(reqId, full, snapshot) => HandleState(i, reqId, full, snapshot, valid, now);
      case Ack(cmdId, ok, already) => HandleAck(i, cmdId, ok, already);
    }

    method HandleState(i: InstanceId, reqId: nat, full: bool, s: Snapshot, valid: bool, now: Time)
      requires Valid()
      modifies this, poller, commands, reconciler, state, state.Cells(), room`kicked
      ensures Valid()
      ensures var e := ReceiveState(old(Model()), i, reqId, full, s, valid, now);
        Model() == e.orch && room.kicked == old(room.kicked) + e.closed
    {
      hide ViewCoherent, Teardown, Orchestration.Reconcile, Touch, ApplySnapshot;
      var matched := poller.Reply(i, reqId);
      if !matched {
        Kick(i);
        return;
      }
      TakeReply(i, full, s, valid, now);
    }

    /** An awaited reply unmarks its instance, and is a touch or a snapshot. */
    method TakeReply(i: InstanceId, full: bool, s: Snapshot, valid: bool, now: Time)
      requires Valid()
      modifies reconciler, state, state.Cells()
      ensures Valid()
      ensures var o := old(Model());
        var live := o.(fleet := SetStale(o.fleet, i, false));
        var (fleet, applied) := ApplySnapshot(live.fleet, i, s, now);
        && (applied ==> RowsValid(fleet.rows))
        && Model() == if !full then live.(fleet := Touch(live.fleet, i, now))
           else if valid && applied then Orchestration.Reconcile(live.(fleet := fleet)) else live
    {
      hide ViewCoherent, Orchestration.Reconcile, Touch, ApplySnapshot;
      AppliedKeepsRows(SetStale(state.Model(), i, false), i, s, now);
      state.SetStale(i, false);
      if !full {
        state.Touch(i, now);
      } else if valid {
        Ingest(i, s, now);
      }
    }

    method Ingest(i: InstanceId, s: Snapshot, now: Time)
      requires Valid()
      modifies reconciler, state
      ensures Valid()
      ensures var o := old(Model());
        var (fleet, applied) := ApplySnapshot(o.fleet, i, s, now);
        && (applied ==> RowsValid(fleet.rows))
        && Model() == if applied then Orchestration.Reconcile(o.(fleet := fleet)) else o
    {
      AppliedValid(state.rows, i, s, now);
      var applied := state.ApplySnapshot(i, s, now);
      if applied {
        Reconcile();
      }
    }

    method HandleAck(i: InstanceId, cmdId: nat, ok: bool, already: bool)
      requires Valid()
      modifies this, poller, commands, reconciler, state, room`kicked
      ensures Valid()
      ensures var e := ReceiveAck(old(Model()), i, cmdId, ok, already);
        Model() == e.orch && room.kicked == old(room.kicked) + e.closed
    {
      var op := commands.OpOf(i, cmdId);
      var matched := AckCommand(i, cmdId, ok, already);
      if !matched {
        Kick(i);
      } else if ok {
        Confirm(i, op.value);
      }
    }

    method AckCommand(i: InstanceId, cmdId: nat, ok: bool, already: bool) returns (matched: bool)
      requires Valid()
      modifies commands, state`reservations, state`reservedByInstance, state`reservedRoomIds,
               state`pendingRoomIds, state`pendingByInstance
      ensures Valid()
      ensures var (d, m) := Acked(DeskOf(old(Model())), i, cmdId, ok, already);
        matched == m && Model() == WithDesk(old(Model()), d)
    {
      hide Acked;
      matched := commands.Ack(i, cmdId, ok, already);
    }

    /** The agent has flipped its status; placement goes by it from now on. */
    method Confirm(i: InstanceId, op: Op)
      requires Valid()
      modifies state`pendingStatus
      ensures Valid() && Model() == old(Model()).(fleet := Confirmed(old(Model()).fleet, i, op))
    {
      if op.Drain? {
        state.SetPendingStatus(i, Draining);
      } else if op.Undrain? {
        state.SetPendingStatus(i, Active);
      }
    }

    method OnCommandTimeout(i: InstanceId, cmdId: nat)
      requires Valid()
      modifies commands, state`reservations, state`reservedByInstance, state`reservedRoomIds,
               state`pendingRoomIds, state`pendingByInstance
      ensures Valid() && Model() == Expire(old(Model()), i, cmdId)
    {
      hide Expired;
      commands.TimeOut(i, cmdId);
    }

    // ----- the control surface -----

    method CreateRoom(roomId: Option<Text>, draws: seq<Text>, request: Request, random: real)
      returns (answer: Promise<RoomInfo>)
      requires Valid() && 0.0 <= random <= 1.0
      modifies commands, room`sent, state`resolvedView,
               state`reservations, state`reservedByInstance, state`reservationSeq, state`reservedRoomIds
      ensures Valid()
      ensures answer == Promised(CreateAnswer(old(state.Model()), links, roomId, draws, request, random),
        old(commands.cmdSeq) + 1)
      ensures var e := Orchestration.CreateRoom(old(Model()), roomId, draws, request, random, room.open);
        Model() == e.orch && room.sent == old(room.sent) + e.sent
    {
      hide CreateAnswer, LeftBehind, Orchestration.CreateRoom, ViewCoherent, HeldFor, SentNext;
      ghost var o := Model();
      answer := control.CreateRoom(links, roomId, draws, request, random);
      CreateIs(o, roomId, draws, request, random, room.open);
    }

    method DestroyRoom(publicId: Text) returns (answer: Promise<InstanceId>)
      requires Valid()
      modifies commands, room`sent, state`resolvedView, state`reservations, state`reservedByInstance,
        state`reservedRoomIds
      ensures Valid()
      ensures answer == Promised(DestroyAnswer(old(state.Model()), links, publicId), old(commands.cmdSeq) + 1)
      ensures var e := Orchestration.DestroyRoom(old(Model()), publicId, room.open);
        Model() == e.orch && room.sent == old(room.sent) + e.sent
    {
      hide Locate, ViewCoherent, SentNext;
      answer := control.DestroyRoom(links, publicId);
    }

    method SetInstanceStatus(i: InstanceId, drain: bool) returns (answer: Promise<InstanceId>)
      requires Valid()
      modifies commands, room`sent, state`resolvedView, state`reservations, state`reservedByInstance,
        state`reservedRoomIds
      ensures Valid() && answer == Promised(StatusAnswer(old(state.Model()), links, i), old(commands.cmdSeq) + 1)
      ensures var e := StatusCommand(old(Model()), i, if drain then Drain else Undrain, room.open);
        Model() == e.orch && room.sent == old(room.sent) + e.sent
    {
      hide ViewCoherent, SentNext;
      answer := control.SendStatusCommand(links, i, drain);
    }
  }

  lemma AppliedKeepsRows(f: Fleet, i: InstanceId, s: Snapshot, now: Time)
    requires RowsValid(f.rows)
    ensures var (fleet, applied) := ApplySnapshot(f, i, s, now); applied ==> RowsValid(fleet.rows)
  {
    AppliedValid(f.rows, i, s, now);
  }

  /** Turned away or issued: what a create does, by its answer. */
  lemma CreateIs(o: Orch, roomId: Option<Text>, draws: seq<Text>, request: Request, random: real, open: set<InstanceId>)
    requires RowsValid(o.fleet.rows) && 0.0 <= random <= 1.0
    ensures var e, answer := Orchestration.CreateRoom(o, roomId, draws, request, random, open),
                             CreateAnswer(o.fleet, o.links, roomId, draws, request, random);
      && (answer.Err? ==>
         e == Silent(WithDesk(o, Desk(LeftBehind(o.fleet, roomId, draws, request, random), o.commands))))
      && (answer.Ok? ==>
        var id, i := answer.value.id, answer.value.instanceId;
        e == Issue(o, i, Create(id, request.roomType), CreateSent(DeskOf(o), i, id, request.roomType, i in open)))
  {
    hide Selected, IdToReserve, CreateSent, ReleaseBoth;
  }
}
