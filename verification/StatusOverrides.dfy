/** What an acked drain or undrain makes placement believe, and how long. */
module StatusOverrides {
  import opened Prelude
  import opened Utf8
  import opened FleetTypes
  import opened Reservations
  import opened Commands
  import opened FleetModel
  import opened Placement
  import opened Polling
  import opened Orchestration
  import opened OrchestrationLaws
  import opened Sides

  /** What placement is told to take the status to be, if anything. */
  function OverrideOf(f: Fleet, i: InstanceId): Option<Status> {
    if i in f.pendingStatus then Some(f.pendingStatus[i]) else None
  }

  /** Only recorded instances are overridden. */
  ghost predicate OverridesRecorded(f: Fleet) {
    f.pendingStatus.Keys <= f.rows.records.Keys
  }

  // ----- handlers other than acks and replies -----

  lemma RemoveOverrides(f: Fleet, j: InstanceId, i: InstanceId)
    requires OverridesRecorded(f)
    ensures OverridesRecorded(RemoveInstance(f, j))
    ensures i != j ==> OverrideOf(RemoveInstance(f, j), i) == OverrideOf(f, i)
  {
  }

  lemma TeardownOverrides(o: Orch, j: InstanceId, i: InstanceId)
    requires RowsValid(o.fleet.rows) && OverridesRecorded(o.fleet)
    ensures OverridesRecorded(Teardown(o, j).fleet)
    ensures i != j ==> OverrideOf(Teardown(o, j).fleet, i) == OverrideOf(o.fleet, i)
  {
    hide RemoveInstance, RejectedAll, OverridesRecorded, OverrideOf;
    var f := o.fleet.(holds := RejectedAll(DeskOf(o), j).holds);
    HoldsOnly(o.fleet, f, i);
    RemoveOverrides(f, j, i);
  }

  /** Holds have nothing to do with it. */
  lemma HoldsOnly(f: Fleet, g: Fleet, i: InstanceId)
    requires g.rows == f.rows && g.pendingStatus == f.pendingStatus
    ensures OverridesRecorded(g) == OverridesRecorded(f) && OverrideOf(g, i) == OverrideOf(f, i)
  {
  }

  lemma TickOverrides(o: Orch, j: InstanceId, open: set<InstanceId>, i: InstanceId)
    requires RowsValid(o.fleet.rows) && OverridesRecorded(o.fleet)
    ensures OverridesRecorded(Tick(o, j, open).orch.fleet)
    ensures i != j || Ticked(o.polls, j).1 != OnEvict ==>
      OverrideOf(Tick(o, j, open).orch.fleet, i) == OverrideOf(o.fleet, i)
  {
    hide Teardown, OverridesRecorded, OverrideOf;
    if Ticked(o.polls, j).1 == OnEvict {
      TeardownOverrides(o.(polls := Ticked(o.polls, j).0), j, i);
    } else {
      HoldsOnly(o.fleet, Tick(o, j, open).orch.fleet, i);
    }
  }

  lemma CreateOverrides(o: Orch, roomId: Option<Text>, draws: seq<Text>, request: Request, random: real,
                        open: set<InstanceId>, i: InstanceId)
    requires RowsValid(o.fleet.rows) && 0.0 <= random <= 1.0 && OverridesRecorded(o.fleet)
    ensures var f := CreateRoom(o, roomId, draws, request, random, open).orch.fleet;
      OverridesRecorded(f) && OverrideOf(f, i) == OverrideOf(o.fleet, i)
  {
    hide OverridesRecorded, OverrideOf, Selected, CreateSent, Reserve, HeldFor, CreatePending, ReleaseBoth;
    HoldsOnly(o.fleet, CreateRoom(o, roomId, draws, request, random, open).orch.fleet, i);
  }

  lemma IssueOverrides(o: Orch, j: InstanceId, op: Op, sent: (Desk, SendResult), i: InstanceId)
    requires OverridesRecorded(o.fleet)
    ensures var f := Issue(o, j, op, sent).orch.fleet;
      OverridesRecorded(f) && OverrideOf(f, i) == OverrideOf(o.fleet, i)
  {
  }

  lemma DestroyOverrides(o: Orch, publicId: Text, open: set<InstanceId>, i: InstanceId)
    requires RowsValid(o.fleet.rows) && OverridesRecorded(o.fleet)
    ensures var f := DestroyRoom(o, publicId, open).orch.fleet;
      OverridesRecorded(f) && OverrideOf(f, i) == OverrideOf(o.fleet, i)
  {
    hide OverridesRecorded, OverrideOf, PlainSent, Locate, Issue;
    if Locate(o.fleet.rows, publicId).Some? {
      var found := Locate(o.fleet.rows, publicId).value;
      var op := Destroy(found.rawRoomId);
      IssueOverrides(o, found.instanceId, op, PlainSent(DeskOf(o), found.instanceId, op, found.instanceId in open), i);
    }
  }

  lemma StatusCommandOverrides(o: Orch, j: InstanceId, op: Op, open: set<InstanceId>, i: InstanceId)
    requires OverridesRecorded(o.fleet)
    ensures var f := StatusCommand(o, j, op, open).orch.fleet;
      OverridesRecorded(f) && OverrideOf(f, i) == OverrideOf(o.fleet, i)
  {
    hide OverridesRecorded, OverrideOf, PlainSent, Issue;
    IssueOverrides(o, j, op, PlainSent(DeskOf(o), j, op, j in open), i);
  }

  lemma ExpireOverrides(o: Orch, j: InstanceId, k: nat, i: InstanceId)
    requires OverridesRecorded(o.fleet)
    ensures var f := Expire(o, j, k).fleet; OverridesRecorded(f) && OverrideOf(f, i) == OverrideOf(o.fleet, i)
  {
    hide Expired;
  }

  /** Whatever handler runs, and whoever leaves: what is believed of a linked instance stays. */
  lemma StepOverrides(o: Orch, input: Input, open: set<InstanceId>, now: Time, i: InstanceId)
    requires OrchValid(o) && Sensible(input) && !input.Received? && OverridesRecorded(o.fleet)
    ensures var e := Step(o, input, open, now);
      OverridesRecorded(e.orch.fleet) && (i in e.orch.links ==> OverrideOf(e.orch.fleet, i) == OverrideOf(o.fleet, i))
  {
    hide OverridesRecorded, OverrideOf, Teardown, Tick, CreateRoom, DestroyRoom, StatusCommand, Expire;
    match input
    case Joined(j) => JoinOverrides(o, j, open);
    case Left(j) =>
      TeardownOverrides(o, j, i);
      TeardownUnlinks(o, j);
    case TimerFired(j) =>
      TickOverrides(o, j, open, i);
      if Ticked(o.polls, j).1 == OnEvict {
        EvictionUnlinks(o, j, open);
      }
    case CommandTimeout(j, k) => ExpireOverrides(o, j, k, i);
    case CreateAsked(roomId, draws, request, random) => CreateOverrides(o, roomId, draws, request, random, open, i);
    case DestroyAsked(publicId) => DestroyOverrides(o, publicId, open, i);
    case StatusAsked(j, drain) => StatusCommandOverrides(o, j, if drain then Drain else Undrain, open, i);
  }

  lemma JoinOverrides(o: Orch, j: InstanceId, open: set<InstanceId>)
    ensures Join(o, j, open).orch.fleet == o.fleet
  {
  }

  lemma TeardownUnlinks(o: Orch, j: InstanceId)
    requires OrchValid(o)
    ensures j !in Teardown(o, j).links
  {
    if j in o.links {
      TeardownIs(o, j);
    }
  }

  lemma EvictionUnlinks(o: Orch, j: InstanceId, open: set<InstanceId>)
    requires OrchValid(o) && Ticked(o.polls, j).1 == OnEvict
    ensures j !in Tick(o, j, open).orch.links
  {
    hide Teardown, DeskValid, StreamValid;
    var ticked := o.(polls := Ticked(o.polls, j).0);
    if j in o.links {
      TeardownIs(ticked, j);
    }
  }

  // ----- frames of another instance -----

  lemma ReceiveOverridesOther(o: Orch, j: InstanceId, f: Up, valid: bool, now: Time, i: InstanceId)
    requires OrchValid(o) && OverridesRecorded(o.fleet)
    ensures var f' := Receive(o, j, f, valid, now).orch.fleet;
      OverridesRecorded(f') && (i != j ==> OverrideOf(f', i) == OverrideOf(o.fleet, i))
  {
    hide OverridesRecorded, OverrideOf, Teardown, ReceiveState, ReceiveAck;
    if j in o.links {
      match f
      case State(reqId, full, s) => StateOverridesOther(o, j, reqId, full, s, valid, now, i);
      case Ack(k, ok, already) => AckOverridesOther(o, j, k, ok, already, i);
    }
  }

  lemma KickOverrides(o: Orch, j: InstanceId, i: InstanceId)
    requires RowsValid(o.fleet.rows) && OverridesRecorded(o.fleet)
    ensures OverridesRecorded(Kick(o, j).orch.fleet)
    ensures i != j ==> OverrideOf(Kick(o, j).orch.fleet, i) == OverrideOf(o.fleet, i)
  {
    hide Teardown, OverridesRecorded, OverrideOf;
    TeardownOverrides(o, j, i);
  }

  lemma StateOverridesOther(o: Orch, j: InstanceId, reqId: nat, full: bool, s: Snapshot, valid: bool, now: Time,
                            i: InstanceId)
    requires OrchValid(o) && OverridesRecorded(o.fleet)
    ensures var f' := ReceiveState(o, j, reqId, full, s, valid, now).orch.fleet;
      OverridesRecorded(f') && (i != j ==> OverrideOf(f', i) == OverrideOf(o.fleet, i))
  {
    hide Teardown, DeskValid, StreamValid, Kick;
    if !Replied(o.polls, j, reqId).1 {
      KickOverrides(o, j, i);
    } else {
      MatchedReply(o, j, reqId, full, s, valid, now);
      hide ReceiveState;
      var live := SetStale(o.fleet, j, false);
      TouchOverrides(live, j, now, i);
      ApplyOverrides(live, j, s, now, i);
    }
  }

  lemma TouchOverrides(f: Fleet, j: InstanceId, now: Time, i: InstanceId)
    requires OverridesRecorded(f)
    ensures OverridesRecorded(Touch(f, j, now)) && (i != j ==> OverrideOf(Touch(f, j, now), i) == OverrideOf(f, i))
  {
  }

  lemma ApplyOverrides(f: Fleet, j: InstanceId, s: Snapshot, now: Time, i: InstanceId)
    requires OverridesRecorded(f)
    ensures var f' := ApplySnapshot(f, j, s, now).0;
      OverridesRecorded(f') && (i != j ==> OverrideOf(f', i) == OverrideOf(f, i))
  {
  }

  lemma AckOverridesOther(o: Orch, j: InstanceId, k: nat, ok: bool, already: bool, i: InstanceId)
    requires OrchValid(o) && OverridesRecorded(o.fleet)
    ensures var f' := ReceiveAck(o, j, k, ok, already).orch.fleet;
      OverridesRecorded(f') && (i != j ==> OverrideOf(f', i) == OverrideOf(o.fleet, i))
  {
    hide Teardown, DeskValid, StreamValid, Kick;
    if k !in FlightOf(o.commands, j) {
      KickOverrides(o, j, i);
    }
  }

  // ----- its own frames -----

  /** The status a drain or undrain asks for. */
  function TargetOf(op: Op): Option<Status> {
    match op
    case Drain => Some(Draining)
    case Undrain => Some(Active)
    case _ => None
  }

  /** A matched ack that says ok makes placement believe the status asked for at once, of a recorded instance. */
  lemma AckOverrides(o: Orch, i: InstanceId, k: nat, ok: bool, already: bool)
    requires OrchValid(o) && k in FlightOf(o.commands, i)
    ensures var f', target := ReceiveAck(o, i, k, ok, already).orch.fleet, TargetOf(FlightOf(o.commands, i)[k].op);
      && f'.rows == o.fleet.rows
      && OverrideOf(f', i) == if ok && target.Some? && i in o.fleet.rows.records then target else OverrideOf(o.fleet, i)
  {
    hide DeskValid, StreamValid, HoldOrRelease, ReleaseBoth;
  }

  /** A consumed reply drops a belief that the row bears out, and no other. */
  lemma StateOverrides(o: Orch, i: InstanceId, reqId: nat, full: bool, s: Snapshot, valid: bool, now: Time)
    requires OrchValid(o) && Replied(o.polls, i, reqId).1
    ensures var f' := ReceiveState(o, i, reqId, full, s, valid, now).orch.fleet;
      || OverrideOf(f', i) == OverrideOf(o.fleet, i)
      || (OverrideOf(f', i) == None && i in f'.rows.records && OverrideOf(o.fleet, i)
            == Some(f'.rows.records[i].info.status))
  {
    hide DeskValid, StreamValid;
    MatchedReply(o, i, reqId, full, s, valid, now);
    hide ReceiveState;
  }
}
