/** What every handler of the orchestrator keeps: its tables agree with each other between any two of them. */
module OrchestrationLaws {
  import opened Prelude
  import opened Utf8
  import opened RoomId
  import opened Ordered
  import opened FleetTypes
  import opened Resolution
  import opened PublicIds
  import opened Reservations
  import opened Commands
  import opened CommandOutcomes
  import opened CommandHomes
  import opened FleetModel
  import opened Placement
  import opened Polling
  import opened EventReconciling
  import opened EventLog
  import opened StateHash
  import opened FleetStates
  import opened Orchestration

  // ----- the invariants -----

  /** Reservations and pending creates match, every command is accounted for, all of them at home. */
  ghost predicate DeskValid(o: Orch) {
    && Conserved(DeskOf(o))
    && Accounted(o.commands)
    && Home(DeskOf(o), o.fleet.rows.records.Keys, o.links)
  }

  ghost function LiveIds(r: Rows): set<Text>
    requires RowsValid(r)
  {
    CurrentRooms(Instances(r.order, r.records))
  }

  /** The event stream folds to exactly the read model. */
  ghost predicate StreamValid(o: Orch)
    requires RowsValid(o.fleet.rows)
  {
    && Faithful(o.known)
    && o.known.ids == o.fleet.rows.records.Keys
    && o.known.rooms.Keys == LiveIds(o.fleet.rows)
  }

  /** Records are polled, polled instances are linked. */
  ghost predicate Nested(o: Orch) {
    o.fleet.rows.records.Keys <= o.polls.entries.Keys <= o.links
  }

  ghost predicate OrchValid(o: Orch) {
    RowsValid(o.fleet.rows) && DeskValid(o) && StreamValid(o) && Nested(o)
  }

  // ----- rows and the stream -----

  lemma {:induction false} IdsAre(order: seq<InstanceId>, r: Rows)
    requires RowsValid(r) && KeySet(order) <= r.records.Keys
    ensures CurrentIds(Instances(order, r.records)) == KeySet(order)
  {
    if order != [] {
      IdsAre(order[1..], r);
    }
  }

  lemma ReconcileValid(o: Orch)
    requires RowsValid(o.fleet.rows) && Faithful(o.known) && o.known.ids <= o.fleet.rows.records.Keys
    ensures StreamValid(Reconcile(o)) && LastSync(Reconcile(o).known.log) == Some(StatsOf(o.fleet.rows).stateHash)
  {
    var r := o.fleet.rows;
    IdsAre(r.order, r);
    ReconcileReplays(o.known, Instances(r.order, r.records), StatsOf(r));
  }

  lemma {:induction false} TimelessRooms(xs: seq<InstanceInfo>)
    ensures CurrentRooms(Timeless(xs)) == CurrentRooms(xs)
  {
    if xs != [] {
      TimelessRooms(xs[1..]);
    }
  }

  lemma TouchKeepsPublicIds(r: Rows, i: InstanceId, now: Time)
    requires RowsValid(r) && i in r.records
    ensures RowsValid(Touched(r, i, now)) && LiveIds(Touched(r, i, now)) == LiveIds(r)
  {
    FleetModel.TouchedValid(r, i, now);
    var n := Touched(r, i, now).records;
    TouchedIsSame(r, i, now);
    TouchedInstances(r.order, r.records, n, i);
    TimelessRooms(Instances(r.order, n));
    TimelessRooms(Instances(r.order, r.records));
  }

  // ----- teardown -----

  /** An instance without a link has nothing on the desk. */
  lemma NothingHere(o: Orch, i: InstanceId)
    requires OrchValid(o) && i !in o.links
    ensures i !in o.fleet.rows.records && i !in o.commands.pending
    ensures Owned(o.fleet.holds.tokens, i) == {} && Owned(o.fleet.holds.pending, i) == {}
      && Occupied(o.fleet.holds, i) == 0
  {
    NoFlightNoToken(DeskOf(o), i);
    assert Owned(o.fleet.holds.pending, i) == {};
    assert Get(o.fleet.holds.pendingCount, i) == |Owned(o.fleet.holds.pending, i)|;
  }

  lemma TeardownIs(o: Orch, i: InstanceId)
    requires RowsValid(o.fleet.rows) && i in o.links
    ensures var o', r := Teardown(o, i), RejectedAll(DeskOf(o), i);
      && o'.links == o.links - {i} && o'.polls == Forgotten(o.polls, i) && o'.commands == r.commands
      && o'.fleet.rows.records == o.fleet.rows.records - {i}
      && o'.fleet.holds == if i in o.fleet.rows.records then ClearPending(r.holds, i) else r.holds
  {
    if i !in o.fleet.rows.records {
      assert o.fleet.rows.records - {i} == o.fleet.rows.records;
    }
  }

  lemma TornDownDesk(o: Orch, i: InstanceId)
    requires OrchValid(o) && i in o.links
    ensures DeskValid(Teardown(o, i))
  {
    var d, recorded := DeskOf(o), o.fleet.rows.records.Keys;
    TeardownIs(o, i);
    TornDownHome(d, i, recorded, o.links);
    RejectionSettlesOnce(d, i);
    assert DeskOf(Teardown(o, i)) == TornDown(d, i);
    assert Teardown(o, i).fleet.rows.records.Keys == recorded - {i};
  }

  lemma TornDownStream(o: Orch, i: InstanceId)
    requires OrchValid(o) && i in o.links
    ensures RowsValid(Teardown(o, i).fleet.rows) && StreamValid(Teardown(o, i)) && Nested(Teardown(o, i))
    ensures i !in Teardown(o, i).fleet.rows.records
  {
    RemovedValid(o.fleet.rows, i);
    if i in o.fleet.rows.records {
      RemovalFaithful(o.known, o.fleet.rows.records[i].info);
    }
    var rejected := RejectedAll(DeskOf(o), i);
    var fleet := RemoveInstance(o.fleet.(holds := rejected.holds), i);
    var known := if i in o.fleet.rows.records then RemovedInstance(o.known, o.fleet.rows.records[i].info) else o.known;
    ReconcileValid(Orch(o.links - {i}, Forgotten(o.polls, i), rejected.commands, fleet, known));
  }

  /** Forgetting an instance leaves nothing of it anywhere. */
  lemma TeardownValid(o: Orch, i: InstanceId)
    requires OrchValid(o)
    ensures OrchValid(Teardown(o, i))
    ensures var o' := Teardown(o, i);
      && i !in o'.links && i !in o'.polls.entries && i !in o'.fleet.rows.records && i !in o'.commands.pending
      && Owned(o'.fleet.holds.tokens, i) == {} && Owned(o'.fleet.holds.pending, i) == {}
         && Occupied(o'.fleet.holds, i) == 0
  {
    if i in o.links {
      TornDownDesk(o, i);
      TornDownStream(o, i);
    }
    NothingHere(Teardown(o, i), i);
  }

  // ----- joining and polling -----

  lemma JoinValid(o: Orch, i: InstanceId, open: set<InstanceId>)
    requires OrchValid(o)
    ensures OrchValid(Join(o, i, open).orch)
  {
    var o' := Join(o, i, open).orch;
    assert o'.fleet == o.fleet && o'.commands == o.commands && o'.known == o.known;
    assert o.links <= o'.links;
  }

  lemma StaleValid(o: Orch, i: InstanceId)
    requires OrchValid(o)
    ensures OrchValid(o.(fleet := SetStale(o.fleet, i, true)))
    ensures OrchValid(o.(fleet := SetStale(o.fleet, i, false)))
  {
  }

  lemma PolledValid(o: Orch, polls: Polls)
    requires OrchValid(o) && o.polls.entries.Keys == polls.entries.Keys
    ensures OrchValid(o.(polls := polls))
  {
  }

  lemma StaleTickValid(o: Orch, i: InstanceId)
    requires OrchValid(o) && i in o.fleet.rows.records
    ensures var marked := o.(fleet := SetStale(o.fleet, i, true));
      OrchValid(marked.(known := Emit(o.known, InstanceStale(FleetModel.Resolved(o.fleet.rows.records, i)))))
  {
    StaleValid(o, i);
    StaleFaithful(o.known, FleetModel.Resolved(o.fleet.rows.records, i));
  }

  lemma TickedKeys(p: Polls, i: InstanceId)
    ensures Ticked(p, i).0.entries.Keys == p.entries.Keys
  {
  }

  lemma TickValid(o: Orch, i: InstanceId, open: set<InstanceId>)
    requires OrchValid(o)
    ensures OrchValid(Tick(o, i, open).orch)
  {
    hide RowsValid, DeskValid, StreamValid, Nested, Teardown;
    TickedKeys(o.polls, i);
    var (polls, effect) := Ticked(o.polls, i);
    var ticked := o.(polls := polls);
    PolledValid(o, polls);
    hide Ticked;
    match effect
    case Quiet =>
    case SendPoll(_, _) =>
    case OnEvict => TeardownValid(ticked, i);
    case OnStale =>
      StaleValid(ticked, i);
      if i in o.fleet.rows.records {
        StaleTickValid(ticked, i);
      }
  }

  // ----- frames -----

  lemma ClearedHome(d: Desk, i: InstanceId, recorded: set<InstanceId>, links: set<InstanceId>)
    requires Conserved(d) && Home(d, recorded, links)
    ensures Conserved(d.(holds := ClearPending(d.holds, i)))
      && Home(d.(holds := ClearPending(d.holds, i)), recorded, links)
  {
    ClearConserves(d, i);
  }

  lemma TouchValid(o: Orch, i: InstanceId, now: Time)
    requires OrchValid(o)
    ensures OrchValid(o.(fleet := Touch(o.fleet, i, now)))
  {
    if i in o.fleet.rows.records {
      TouchKeepsPublicIds(o.fleet.rows, i, now);
      ClearedHome(DeskOf(o), i, o.fleet.rows.records.Keys, o.links);
      var o' := o.(fleet := Touch(o.fleet, i, now));
      assert DeskOf(o') == DeskOf(o).(holds := ClearPending(o.fleet.holds, i));
      assert o'.fleet.rows.records.Keys == o.fleet.rows.records.Keys;
    }
  }

  lemma ApplyIs(f: Fleet, i: InstanceId, s: Snapshot, now: Time)
    requires RowsValid(f.rows) && ApplySnapshot(f, i, s, now).1
    ensures var f' := ApplySnapshot(f, i, s, now).0;
      && RowsValid(f'.rows) && f'.rows == Applied(f.rows, i, s, now) && f'.holds == ClearPending(f.holds, i)
      && f'.rows.records.Keys == f.rows.records.Keys + {i}
  {
    FleetModel.AppliedValid(f.rows, i, s, now);
  }

  lemma ApplyDesk(o: Orch, i: InstanceId, s: Snapshot, now: Time)
    requires OrchValid(o) && ApplySnapshot(o.fleet, i, s, now).1
    ensures DeskValid(o.(fleet := ApplySnapshot(o.fleet, i, s, now).0))
  {
    ApplyIs(o.fleet, i, s, now);
    ClearedHome(DeskOf(o), i, o.fleet.rows.records.Keys, o.links);
    assert DeskOf(o.(fleet := ApplySnapshot(o.fleet, i, s, now).0))
      == DeskOf(o).(holds := ClearPending(o.fleet.holds, i));
  }

  lemma ApplyValid(o: Orch, i: InstanceId, s: Snapshot, now: Time)
    requires OrchValid(o) && i in o.polls.entries
    ensures ApplySnapshot(o.fleet, i, s, now).1 ==>
      && RowsValid(ApplySnapshot(o.fleet, i, s, now).0.rows)
      && OrchValid(Reconcile(o.(fleet := ApplySnapshot(o.fleet, i, s, now).0)))
  {
    if ApplySnapshot(o.fleet, i, s, now).1 {
      ApplyIs(o.fleet, i, s, now);
      ApplyDesk(o, i, s, now);
      ReconcileValid(o.(fleet := ApplySnapshot(o.fleet, i, s, now).0));
    }
  }

  lemma ReceiveStateValid(o: Orch, i: InstanceId, reqId: nat, full: bool, s: Snapshot, valid: bool, now: Time)
    requires OrchValid(o)
    ensures OrchValid(ReceiveState(o, i, reqId, full, s, valid, now).orch)
  {
    var (polls, matched) := Replied(o.polls, i, reqId);
    if !matched {
      TeardownValid(o, i);
    } else {
      assert polls.entries.Keys == o.polls.entries.Keys;
      PolledValid(o, polls);
      StaleValid(o.(polls := polls), i);
      var live := o.(polls := polls, fleet := SetStale(o.fleet, i, false));
      if !full {
        TouchValid(live, i, now);
      } else if valid {
        ApplyValid(live, i, s, now);
      }
    }
  }

  lemma ConfirmedValid(o: Orch, i: InstanceId, op: Op)
    requires OrchValid(o)
    ensures OrchValid(o.(fleet := Confirmed(o.fleet, i, op)))
  {
    assert Confirmed(o.fleet, i, op).rows == o.fleet.rows && Confirmed(o.fleet, i, op).holds == o.fleet.holds;
  }

  /** A new desk, valid where the old one was, is all that changes. */
  lemma DeskSwap(o: Orch, d: Desk)
    requires OrchValid(o)
    requires Conserved(d) && Accounted(d.commands) && Home(d, o.fleet.rows.records.Keys, o.links)
    ensures OrchValid(WithDesk(o, d))
  {
    assert DeskOf(WithDesk(o, d)) == d;
  }

  lemma ReceiveAckValid(o: Orch, i: InstanceId, cmdId: nat, ok: bool, already: bool)
    requires OrchValid(o)
    ensures OrchValid(ReceiveAck(o, i, cmdId, ok, already).orch)
  {
    var (d, matched) := Acked(DeskOf(o), i, cmdId, ok, already);
    if !matched {
      TeardownValid(o, i);
    } else {
      AckConserves(DeskOf(o), i, cmdId, ok, already);
      AckSettlesOnce(DeskOf(o), i, cmdId, ok, already);
      AckHome(DeskOf(o), i, cmdId, ok, already, o.fleet.rows.records.Keys, o.links);
      DeskSwap(o, d);
      ConfirmedValid(WithDesk(o, d), i, FlightOf(o.commands, i)[cmdId].op);
    }
  }

  lemma ExpireValid(o: Orch, i: InstanceId, cmdId: nat)
    requires OrchValid(o)
    ensures OrchValid(Expire(o, i, cmdId))
  {
    ExpiryConserves(DeskOf(o), i, cmdId);
    ExpirySettlesOnce(DeskOf(o), i, cmdId);
    ExpiryHome(DeskOf(o), i, cmdId, o.fleet.rows.records.Keys, o.links);
    DeskSwap(o, Expired(DeskOf(o), i, cmdId));
  }

  // ----- the control surface -----

  lemma PlainValid(o: Orch, i: InstanceId, op: Op, sends: bool)
    requires OrchValid(o) && i in o.links && !op.Create?
    ensures OrchValid(WithDesk(o, PlainSent(DeskOf(o), i, op, sends).0))
  {
    var d := DeskOf(o);
    PlainConserves(d, i, op, sends);
    IssuedOnce(d, i, Pending(op, None, None), sends);
    SentHome(d, i, Pending(op, None, None), sends, o.fleet.rows.records.Keys, o.links);
    DeskSwap(o, PlainSent(d, i, op, sends).0);
  }

  lemma {:induction false} FirstFreeIsFree(f: Fleet, draws: seq<Text>, attempts: nat)
    requires RowsValid(f.rows)
    ensures var id := FirstFree(f, draws, attempts); id.Some? ==> id.value in draws && !Taken(f, id.value)
    decreases attempts
  {
    if attempts > 0 && draws != [] && Taken(f, draws[0]) {
      FirstFreeIsFree(f, draws[1..], attempts - 1);
    }
  }

  /** A reserved id is legal and nobody's: not reserved, not held, not reported. */
  lemma ReservedIdIsFree(f: Fleet, roomId: Option<Text>, draws: seq<Text>)
    requires RowsValid(f.rows) && forall d :: d in draws ==> IsValidRoomId(d)
    ensures var id := IdToReserve(f, roomId, draws); id.Ok? ==> IsValidRoomId(id.value) && !Taken(f, id.value)
    ensures roomId.Some? ==>
      (IdToReserve(f, roomId, draws) == Ok(roomId.value) <==> IsValidRoomId(roomId.value) && !Taken(f, roomId.value))
  {
    FirstFreeIsFree(f, draws, MAX_ATTEMPTS);
  }

  lemma SelectedIsRecorded(f: Fleet, request: Request, random: real)
    requires RowsValid(f.rows) && 0.0 <= random <= 1.0 && Selected(f, request, random).Ok?
    ensures Selected(f, request, random).value.id in f.rows.records
  {
    if IsPinned(request) {
      PinIsHonoured(f, request, random);
    } else {
      PlacementIsSound(f, request, random);
    }
  }

  /** What is in flight does not depend on the reservations. */
  lemma SentCommands(d: Desk, h: Holds, i: InstanceId, p: Pending, sends: bool)
    ensures SentNext(d.(holds := h), i, p, sends).0.commands == SentNext(d, i, p, sends).0.commands
    ensures SentNext(d.(holds := h), i, p, sends).0.holds.pending == h.pending
  {
  }

  lemma CreateHome(d: Desk, i: InstanceId, id: Text, roomType: Text, sends: bool, recorded: set<InstanceId>,
                   links: set<InstanceId>)
    requires Conserved(d) && Home(d, recorded, links) && i in recorded && i in links
    ensures Home(CreateSent(d, i, id, roomType, sends).0, recorded, links)
  {
    var p := CreatePending(d.holds, i, id, roomType);
    SentHome(d, i, p, sends, recorded, links);
    SentCommands(d, HeldFor(d.holds, i, id), i, p, sends);
  }

  lemma CreateIssuedValid(o: Orch, i: InstanceId, id: Text, roomType: Text, sends: bool)
    requires OrchValid(o) && i in o.fleet.rows.records && i in o.links && !Taken(o.fleet, id)
    ensures OrchValid(WithDesk(o, CreateSent(DeskOf(o), i, id, roomType, sends).0))
  {
    var d := DeskOf(o);
    CreateConserves(d, i, id, roomType, sends);
    IssuedOnce(d.(holds := HeldFor(d.holds, i, id)), i, CreatePending(d.holds, i, id, roomType), sends);
    CreateHome(d, i, id, roomType, sends, o.fleet.rows.records.Keys, o.links);
    DeskSwap(o, CreateSent(d, i, id, roomType, sends).0);
  }

  /** Where a create by the control surface goes, if it gets past the checks. */
  ghost function CreateTarget(f: Fleet, roomId: Option<Text>, draws: seq<Text>, request: Request, random: real)
    : Option<(Text, InstanceId)>
    requires RowsValid(f.rows) && 0.0 <= random <= 1.0
  {
    match IdToReserve(f, roomId, draws)
    case Err(_) => None
    case Ok(id) =>
      match Selected(f.(holds := ReserveId(f.holds, id)), request, random)
      case Err(_) => None
      case Ok(info) => Some((id, info.id))
  }

  /** A create that fails a check leaves no trace; otherwise its instance is recorded and linked, its id free. */
  lemma CreateRoomIs(o: Orch, roomId: Option<Text>, draws: seq<Text>, request: Request, random: real,
                     open: set<InstanceId>)
    requires OrchValid(o) && 0.0 <= random <= 1.0 && forall d :: d in draws ==> IsValidRoomId(d)
    ensures var e, target := CreateRoom(o, roomId, draws, request, random, open),
      CreateTarget(o.fleet, roomId, draws, request, random);
      && (target.None? ==> e == Silent(o))
      && (target.Some? ==>
        var (id, j) := target.value;
        && IsValidRoomId(id) && !Taken(o.fleet, id) && IdToReserve(o.fleet, roomId, draws) == Ok(id)
        && j in o.fleet.rows.records && j in o.links
        && e == Issue(o, j, Create(id, request.roomType), CreateSent(DeskOf(o), j, id, request.roomType, j in open)))
  {
    ReservedIdIsFree(o.fleet, roomId, draws);
    match IdToReserve(o.fleet, roomId, draws)
    case Err(_) =>
    case Ok(id) =>
      var h := o.fleet.holds;
      var reserved := o.fleet.(holds := ReserveId(h, id));
      if Selected(reserved, request, random).Err? {
        assert ReleaseId(ReserveId(h, id), id) == h;
      } else {
        SelectedIsRecorded(reserved, request, random);
      }
  }

  lemma CreateRoomValid(o: Orch, roomId: Option<Text>, draws: seq<Text>, request: Request, random: real,
                        open: set<InstanceId>)
    requires OrchValid(o) && 0.0 <= random <= 1.0 && forall d :: d in draws ==> IsValidRoomId(d)
    ensures OrchValid(CreateRoom(o, roomId, draws, request, random, open).orch)
  {
    CreateRoomIs(o, roomId, draws, request, random, open);
    var target := CreateTarget(o.fleet, roomId, draws, request, random);
    if target.Some? {
      CreateIssuedValid(o, target.value.1, target.value.0, request.roomType, target.value.1 in open);
    }
  }

  lemma LocatedIsRecorded(r: Rows, id: Text)
    requires RowsValid(r) && Locate(r, id).Some?
    ensures Locate(r, id).value.instanceId in r.records
  {
    PublicIndexFinds(r.order, r.records);
  }

  lemma ReceiveValid(o: Orch, i: InstanceId, frame: Up, valid: bool, now: Time)
    requires OrchValid(o)
    ensures OrchValid(Receive(o, i, frame, valid, now).orch)
  {
    if i in o.links {
      match frame
      case State(reqId, full, s) => ReceiveStateValid(o, i, reqId, full, s, valid, now);
      case Ack(cmdId, ok, already) => ReceiveAckValid(o, i, cmdId, ok, already);
    }
  }

  lemma DestroyValid(o: Orch, publicId: Text, open: set<InstanceId>)
    requires OrchValid(o)
    ensures OrchValid(DestroyRoom(o, publicId, open).orch)
  {
    if Locate(o.fleet.rows, publicId).Some? {
      var found := Locate(o.fleet.rows, publicId).value;
      LocatedIsRecorded(o.fleet.rows, publicId);
      PlainValid(o, found.instanceId, Destroy(found.rawRoomId), found.instanceId in open);
    }
  }

  lemma StatusValid(o: Orch, i: InstanceId, op: Op, open: set<InstanceId>)
    requires OrchValid(o) && !op.Create?
    ensures OrchValid(StatusCommand(o, i, op, open).orch)
  {
    if i in o.links {
      PlainValid(o, i, op, i in open);
    }
  }

  /** Every handler keeps every table in step with the others. */
  lemma StepValid(o: Orch, input: Input, open: set<InstanceId>, now: Time)
    requires OrchValid(o) && Sensible(input)
    ensures OrchValid(Step(o, input, open, now).orch)
  {
    hide RowsValid, DeskValid, StreamValid, Nested, Join, Teardown, Receive, Tick, Expire, CreateRoom, DestroyRoom,
      StatusCommand;
    match input
    case Joined(i) => JoinValid(o, i, open);
    case Left(i) => TeardownValid(o, i);
    case Received(i, frame, valid) => ReceiveValid(o, i, frame, valid, now);
    case TimerFired(i) => TickValid(o, i, open);
    case CommandTimeout(i, cmdId) => ExpireValid(o, i, cmdId);
    case CreateAsked(roomId, draws, request, random) => CreateRoomValid(o, roomId, draws, request, random, open);
    case DestroyAsked(publicId) => DestroyValid(o, publicId, open);
    case StatusAsked(i, drain) => StatusValid(o, i, if drain then Drain else Undrain, open);
  }

  lemma StartValid()
    ensures OrchValid(NEW_ORCH)
  {
  }

  // ----- links and command ids -----

  /** No handler but a join adds a link, and command ids only grow. */
  ghost predicate Steady(o: Orch, o': Orch) {
    o'.links <= o.links && o'.commands.cmdSeq >= o.commands.cmdSeq
  }

  lemma TeardownSteady(o: Orch, j: InstanceId)
    requires RowsValid(o.fleet.rows)
    ensures Steady(o, Teardown(o, j))
  {
  }

  lemma TickSteady(o: Orch, j: InstanceId, open: set<InstanceId>)
    requires RowsValid(o.fleet.rows)
    ensures Steady(o, Tick(o, j, open).orch)
  {
    var (polls, effect) := Ticked(o.polls, j);
    TeardownSteady(o.(polls := polls), j);
  }

  lemma SentSteady(d: Desk, j: InstanceId, p: Pending, sends: bool)
    ensures SentNext(d, j, p, sends).0.commands.cmdSeq == d.commands.cmdSeq + 1
  {
  }

  lemma CreateSteady(o: Orch, roomId: Option<Text>, draws: seq<Text>, request: Request, random: real,
                     open: set<InstanceId>)
    requires OrchValid(o) && 0.0 <= random <= 1.0 && forall d :: d in draws ==> IsValidRoomId(d)
    ensures Steady(o, CreateRoom(o, roomId, draws, request, random, open).orch)
  {
    CreateRoomIs(o, roomId, draws, request, random, open);
    var target := CreateTarget(o.fleet, roomId, draws, request, random);
    if target.Some? {
      var (id, j) := target.value;
      SentSteady(DeskOf(o).(holds := HeldFor(o.fleet.holds, j, id)), j,
        CreatePending(o.fleet.holds, j, id, request.roomType), j in open);
    }
  }

  lemma PlainSteady(o: Orch, j: InstanceId, op: Op, sends: bool)
    ensures Steady(o, Issue(o, j, op, PlainSent(DeskOf(o), j, op, sends)).orch)
  {
    SentSteady(DeskOf(o), j, Pending(op, None, None), sends);
  }

  lemma DestroySteady(o: Orch, publicId: Text, open: set<InstanceId>)
    requires RowsValid(o.fleet.rows)
    ensures Steady(o, DestroyRoom(o, publicId, open).orch)
  {
    if Locate(o.fleet.rows, publicId).Some? {
      var found := Locate(o.fleet.rows, publicId).value;
      PlainSteady(o, found.instanceId, Destroy(found.rawRoomId), found.instanceId in open);
    }
  }

  lemma StatusSteady(o: Orch, j: InstanceId, op: Op, open: set<InstanceId>)
    ensures Steady(o, StatusCommand(o, j, op, open).orch)
  {
    hide PlainSent, Issue;
    PlainSteady(o, j, op, j in open);
  }

  lemma ExpireSteady(o: Orch, j: InstanceId, k: nat)
    ensures Steady(o, Expire(o, j, k))
  {
  }

  lemma StepSteady(o: Orch, input: Input, open: set<InstanceId>, now: Time)
    requires OrchValid(o) && Sensible(input) && !input.Joined? && !input.Received?
    ensures Steady(o, Step(o, input, open, now).orch)
  {
    hide DeskValid, StreamValid, Nested, Teardown, Tick, Expire, CreateRoom, DestroyRoom, StatusCommand;
    match input
    case Left(j) => TeardownSteady(o, j);
    case TimerFired(j) => TickSteady(o, j, open);
    case CommandTimeout(j, k) => ExpireSteady(o, j, k);
    case CreateAsked(roomId, draws, request, random) => CreateSteady(o, roomId, draws, request, random, open);
    case DestroyAsked(publicId) => DestroySteady(o, publicId, open);
    case StatusAsked(j, drain) => StatusSteady(o, j, if drain then Drain else Undrain, open);
  }

  lemma StateSteady(o: Orch, j: InstanceId, reqId: nat, full: bool, s: Snapshot, valid: bool, now: Time)
    requires RowsValid(o.fleet.rows) && Replied(o.polls, j, reqId).1
    ensures Steady(o, ReceiveState(o, j, reqId, full, s, valid, now).orch)
  {
  }

  lemma AckSteady(o: Orch, j: InstanceId, k: nat, ok: bool, already: bool)
    requires RowsValid(o.fleet.rows) && k in FlightOf(o.commands, j)
    ensures Steady(o, ReceiveAck(o, j, k, ok, already).orch)
  {
  }

  lemma ReceiveSteady(o: Orch, j: InstanceId, f: Up, valid: bool, now: Time)
    requires RowsValid(o.fleet.rows)
    ensures Steady(o, Receive(o, j, f, valid, now).orch)
  {
    hide Teardown, ApplySnapshot, Touch, Replied;
    TeardownSteady(o, j);
    if j in o.links {
      match f
      case State(reqId, full, s) => if Replied(o.polls, j, reqId).1 { StateSteady(o, j, reqId, full, s, valid, now); }
      case Ack(k, ok, already) => if k in FlightOf(o.commands, j) { AckSteady(o, j, k, ok, already); }
    }
  }
}
