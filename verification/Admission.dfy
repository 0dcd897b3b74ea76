/** Capacity over runs: between two applied snapshots of an instance, only pinned creates can overfill it. */
module Admission {
  import opened Prelude
  import opened Utf8
  import opened RoomId
  import opened Ordered
  import opened FleetTypes
  import opened Reservations
  import opened Commands
  import opened FleetModel
  import opened Placement
  import opened Polling
  import opened Orchestration
  import opened OrchestrationLaws

  /** Rooms reported, reserved and held of a recorded instance. */
  function LoadOf(f: Fleet, i: InstanceId): nat
    requires i in f.rows.records
  {
    Load(f, f.rows.records[i].info)
  }

  /** A full snapshot of the instance is applied: awaited, accepted by validation, and newer than its row. */
  predicate Refreshes(o: Orch, input: Input, i: InstanceId) {
    input.Received? && input.i == i && Applies(o, i, input.frame, input.valid)
  }

  predicate Applies(o: Orch, i: InstanceId, frame: Up, valid: bool) {
    && i in o.links && frame.State? && frame.full && valid && Replied(o.polls, i, frame.reqId).1
    && (i in o.fleet.rows.records ==> frame.snapshot.seqNo > o.fleet.rows.records[i].lastSeq)
  }

  /** A create that names this instance, or its process, and so bypasses capacity. */
  predicate PinsOnto(f: Fleet, input: Input, i: InstanceId)
    requires RowsValid(f.rows) && Sensible(input)
  {
    input.CreateAsked? && IsPinned(input.request) &&
    Pinned(f, input.request).Some? && Pinned(f, input.request).value.id == i
  }

  // ----- holds that only shrink -----

  ghost predicate Shrinks(h: Holds, h': Holds, i: InstanceId) {
    Occupied(h', i) <= Occupied(h, i)
  }

  lemma FewerOwned(h: Holds, h': Holds, i: InstanceId)
    requires Valid(h) && Valid(h')
    requires Owned(h'.tokens, i) <= Owned(h.tokens, i) && Owned(h'.pending, i) <= Owned(h.pending, i)
    ensures Shrinks(h, h', i)
  {
    SubsetSize(Owned(h'.tokens, i), Owned(h.tokens, i));
    SubsetSize(Owned(h'.pending, i), Owned(h.pending, i));
    assert Get(h.tokenCount, i) == |Owned(h.tokens, i)| && Get(h'.tokenCount, i) == |Owned(h'.tokens, i)|;
    assert Get(h.pendingCount, i) == |Owned(h.pending, i)| && Get(h'.pendingCount, i) == |Owned(h'.pending, i)|;
  }

  ghost predicate SubMap<K, V>(a: map<K, V>, b: map<K, V>) {
    a.Keys <= b.Keys && forall k | k in a :: a[k] == b[k]
  }

  lemma SubMapOwned<K>(a: map<K, InstanceId>, b: map<K, InstanceId>, i: InstanceId)
    requires SubMap(a, b)
    ensures Owned(a, i) <= Owned(b, i)
  {
  }

  lemma ReleaseBothShrinks(h: Holds, p: Pending)
    ensures SubMap(ReleaseBoth(h, p).tokens, h.tokens) && ReleaseBoth(h, p).pending == h.pending
  {
  }

  lemma {:induction false} ReleaseAllShrinks(h: Holds, flight: InFlight)
    ensures SubMap(ReleaseAll(h, flight).tokens, h.tokens)
    decreases |flight|
  {
    if flight != map[] {
      var k := Least(flight.Keys);
      Smaller(flight, k);
      ReleaseBothShrinks(h, flight[k]);
      ReleaseAllShrinks(ReleaseBoth(h, flight[k]), flight - {k});
    }
  }

  // ----- one handler -----

  lemma TeardownShrinks(o: Orch, j: InstanceId, i: InstanceId)
    requires OrchValid(o) && i in Teardown(o, j).fleet.rows.records
    ensures i in o.fleet.rows.records && Teardown(o, j).fleet.rows.records[i] == o.fleet.rows.records[i]
    ensures Shrinks(o.fleet.holds, Teardown(o, j).fleet.holds, i)
  {
    TeardownValid(o, j);
    if j in o.links {
      TeardownIs(o, j);
      ReleaseAllShrinks(o.fleet.holds, FlightOf(o.commands, j));
      ReleaseAllKeepsPending(o.fleet.holds, FlightOf(o.commands, j));
      var h, h' := o.fleet.holds, Teardown(o, j).fleet.holds;
      SubMapOwned(h'.tokens, h.tokens, i);
      SubMapOwned(h'.pending, h.pending, i);
      FewerOwned(h, h', i);
    }
  }

  /** Settling either keeps the sum, by turning the slot into a hold, or lowers it. */
  lemma SettleShrinks(d: Desk, j: InstanceId, k: nat, i: InstanceId)
    requires Conserved(d) && k in FlightOf(d.commands, j)
    ensures var p := FlightOf(d.commands, j)[k];
      && Occupied(HoldOrRelease(d.holds, p), i) == Occupied(d.holds, i)
      && Occupied(ReleaseBoth(d.holds, p), i) == Occupied(d.holds, i) - (if p.op.Create? && i == j then 1 else 0)
  {
    var p := FlightOf(d.commands, j)[k];
    assert WellFormed(p, j);
    if p.op.Create? {
      assert ClaimOf(j, k, p) in Claims(d.commands);
      ReleaseFrees(d.holds, p.reservation.value, i);
      HoldKeepsOccupied(d.holds, p.op.roomId, p.reservation.value, i);
    }
  }

  lemma ClearShrinks(h: Holds, j: InstanceId, i: InstanceId)
    requires Valid(h)
    ensures Shrinks(h, ClearPending(h, j), i)
  {
    ClearValid(h, j);
    SubMapOwned(ClearPending(h, j).pending, h.pending, i);
    FewerOwned(h, ClearPending(h, j), i);
  }

  ghost predicate SameRow(f: Fleet, f': Fleet, i: InstanceId) {
    i in f.rows.records && i in f'.rows.records &&
    f'.rows.records[i].info.(lastSyncAt := 0) == f.rows.records[i].info.(lastSyncAt := 0)
  }

  lemma TouchShrinks(f: Fleet, j: InstanceId, now: Time, i: InstanceId)
    requires Valid(f.holds) && i in f.rows.records && (j in f.rows.records ==> f.rows.records[j].info.id == j)
    ensures SameRow(f, Touch(f, j, now), i) && Shrinks(f.holds, Touch(f, j, now).holds, i)
  {
    ClearShrinks(f.holds, j, i);
  }

  lemma ApplyShrinks(f: Fleet, j: InstanceId, s: Snapshot, now: Time, i: InstanceId)
    requires Valid(f.holds) && i in f.rows.records && i != j
    ensures SameRow(f, ApplySnapshot(f, j, s, now).0, i) && Shrinks(f.holds, ApplySnapshot(f, j, s, now).0.holds, i)
  {
    ClearShrinks(f.holds, j, i);
  }

  lemma StateShrinks(o: Orch, j: InstanceId, reqId: nat, full: bool, s: Snapshot, valid: bool, now: Time, i: InstanceId)
    requires OrchValid(o) && j in o.links && i in o.fleet.rows.records
    requires j == i ==> !Applies(o, i, State(reqId, full, s), valid)
    requires i in ReceiveState(o, j, reqId, full, s, valid, now).orch.fleet.rows.records
    ensures var f' := ReceiveState(o, j, reqId, full, s, valid, now).orch.fleet;
      SameRow(o.fleet, f', i) && Shrinks(o.fleet.holds, f'.holds, i)
  {
    hide Teardown, StreamValid, Nested, Replied;
    if !Replied(o.polls, j, reqId).1 {
      TeardownShrinks(o, j, i);
    } else if !full {
      TouchShrinks(SetStale(o.fleet, j, false), j, now, i);
    } else if valid && i != j {
      ApplyShrinks(SetStale(o.fleet, j, false), j, s, now, i);
    }
  }

  lemma AckedHolds(o: Orch, j: InstanceId, cmdId: nat, ok: bool, already: bool)
    requires RowsValid(o.fleet.rows) && cmdId in FlightOf(o.commands, j)
    ensures var f', p := ReceiveAck(o, j, cmdId, ok, already).orch.fleet, FlightOf(o.commands, j)[cmdId];
      && f'.rows == o.fleet.rows
      && f'.holds == if ok then HoldOrRelease(o.fleet.holds, p) else ReleaseBoth(o.fleet.holds, p)
  {
    hide HoldOrRelease, ReleaseBoth;
  }

  lemma AckShrinks(o: Orch, j: InstanceId, cmdId: nat, ok: bool, already: bool, i: InstanceId)
    requires OrchValid(o) && i in o.fleet.rows.records
    requires i in ReceiveAck(o, j, cmdId, ok, already).orch.fleet.rows.records
    ensures var f' := ReceiveAck(o, j, cmdId, ok, already).orch.fleet;
      SameRow(o.fleet, f', i) && Shrinks(o.fleet.holds, f'.holds, i)
  {
    hide Teardown, StreamValid, Nested, HoldOrRelease, ReleaseBoth, Conserved;
    if cmdId in FlightOf(o.commands, j) {
      AckedHolds(o, j, cmdId, ok, already);
      SettleShrinks(DeskOf(o), j, cmdId, i);
    } else {
      TeardownShrinks(o, j, i);
    }
  }

  lemma ReceiveShrinks(o: Orch, j: InstanceId, frame: Up, valid: bool, now: Time, i: InstanceId)
    requires OrchValid(o) && (j == i ==> !Applies(o, i, frame, valid))
    requires i in o.fleet.rows.records && i in Receive(o, j, frame, valid, now).orch.fleet.rows.records
    ensures var f' := Receive(o, j, frame, valid, now).orch.fleet;
      SameRow(o.fleet, f', i) && Shrinks(o.fleet.holds, f'.holds, i)
  {
    if j in o.links {
      match frame
      case Ack(cmdId, ok, already) => AckShrinks(o, j, cmdId, ok, already, i);
      case State(reqId, full, s) => StateShrinks(o, j, reqId, full, s, valid, now, i);
    }
  }

  lemma TickShrinks(o: Orch, j: InstanceId, open: set<InstanceId>, i: InstanceId)
    requires OrchValid(o) && i in o.fleet.rows.records && i in Tick(o, j, open).orch.fleet.rows.records
    ensures var f' := Tick(o, j, open).orch.fleet; SameRow(o.fleet, f', i) && Shrinks(o.fleet.holds, f'.holds, i)
  {
    var (polls, effect) := Ticked(o.polls, j);
    if effect == OnEvict {
      TickedKeys(o.polls, j);
      PolledValid(o, polls);
      TeardownShrinks(o.(polls := polls), j, i);
    } else {
      TickKeepsHolds(o, j, open);
    }
  }

  lemma TickKeepsHolds(o: Orch, j: InstanceId, open: set<InstanceId>)
    requires RowsValid(o.fleet.rows) && Ticked(o.polls, j).1 != OnEvict
    ensures Tick(o, j, open).orch.fleet.rows == o.fleet.rows && Tick(o, j, open).orch.fleet.holds == o.fleet.holds
  {
  }

  lemma ExpireShrinks(o: Orch, j: InstanceId, cmdId: nat, i: InstanceId)
    requires OrchValid(o)
    ensures Occupied(Expire(o, j, cmdId).fleet.holds, i) == Occupied(o.fleet.holds, i)
  {
    if cmdId in FlightOf(o.commands, j) {
      SettleShrinks(DeskOf(o), j, cmdId, i);
    }
  }

  lemma HeldOccupies(h: Holds, j: InstanceId, id: Text, i: InstanceId)
    ensures Occupied(HeldFor(h, j, id), i) == Occupied(h, i) + (if i == j then 1 else 0)
  {
    ReserveOccupies(ReserveId(h, id), j, i);
  }

  lemma CreateSentHolds(d: Desk, j: InstanceId, id: Text, roomType: Text, sends: bool)
    requires Conserved(d) && id !in d.holds.reserved && id !in d.holds.pending
    ensures var h' := CreateSent(d, j, id, roomType, sends).0.holds;
      h' == HeldFor(d.holds, j, id) || h' == d.holds.(tokenSeq := d.holds.tokenSeq + 1)
  {
    CreateConserves(d, j, id, roomType, sends);
    SentOn(d.(holds := HeldFor(d.holds, j, id)), j, CreatePending(d.holds, j, id, roomType), sends);
  }

  lemma CreateSentOccupies(h: Holds, h': Holds, j: InstanceId, id: Text, i: InstanceId)
    requires h' == HeldFor(h, j, id) || h' == h.(tokenSeq := h.tokenSeq + 1)
    ensures Occupied(h', i) <= Occupied(h, i) + (if i == j then 1 else 0)
  {
    HeldOccupies(h, j, id, i);
  }

  /** The row is the same but for its time, and the load rises only into free slots. */
  ghost predicate Admits(f: Fleet, f': Fleet, i: InstanceId) {
    && SameRow(f, f', i)
    && var max := f.rows.records[i].info.capacity.maxRooms;
      LoadOf(f', i) <= LoadOf(f, i) || max.None? || LoadOf(f', i) <= max.value
  }

  lemma ShrinkingAdmits(f: Fleet, f': Fleet, i: InstanceId)
    requires RowsValid(f.rows) && RowsValid(f'.rows) && SameRow(f, f', i) && Shrinks(f.holds, f'.holds, i)
    ensures Admits(f, f', i)
  {
    SameButTime(f.rows.records[i].info, f'.rows.records[i].info);
  }

  /** One slot more is fine where one is free. */
  lemma FilledAdmits(f: Fleet, h: Holds, i: InstanceId)
    requires RowsValid(f.rows) && i in f.rows.records
    requires Occupied(h, i) <= Occupied(f.holds, i) ||
      (Occupied(h, i) <= Occupied(f.holds, i) + 1 &&
       var max := f.rows.records[i].info.capacity.maxRooms; max.Some? ==> LoadOf(f, i) < max.value)
    ensures Admits(f, f.(holds := h), i)
  {
    assert f.rows.records[i].info.id == i;
  }

  /** Creating where a slot is free, or elsewhere, admits. */
  lemma CreateOntoAdmits(o: Orch, j: InstanceId, id: Text, roomType: Text, sends: bool, i: InstanceId)
    requires OrchValid(o) && i in o.fleet.rows.records && !Taken(o.fleet, id)
    requires j == i ==> var max := o.fleet.rows.records[i].info.capacity.maxRooms; max.Some? ==>
      LoadOf(o.fleet, i) < max.value
    ensures Admits(o.fleet, o.fleet.(holds := CreateSent(DeskOf(o), j, id, roomType, sends).0.holds), i)
  {
    hide CreateSent, HeldFor, StreamValid, Nested;
    var h' := CreateSent(DeskOf(o), j, id, roomType, sends).0.holds;
    CreateSentHolds(DeskOf(o), j, id, roomType, sends);
    CreateSentOccupies(o.fleet.holds, h', j, id, i);
    FilledAdmits(o.fleet, h', i);
  }

  /** The instance a create goes to without a pin has a free slot. */
  lemma TargetHasRoom(o: Orch, roomId: Option<Text>, draws: seq<Text>, request: Request, random: real, i: InstanceId)
    requires OrchValid(o) && i in o.fleet.rows.records && 0.0 <= random <= 1.0 && forall d :: d in draws ==>
      IsValidRoomId(d)
    requires !PinsOnto(o.fleet, CreateAsked(roomId, draws, request, random), i)
    requires var target := CreateTarget(o.fleet, roomId, draws, request, random); target.Some? && target.value.1 == i
    ensures var max := o.fleet.rows.records[i].info.capacity.maxRooms; max.Some? ==> LoadOf(o.fleet, i) < max.value
  {
    var id := CreateTarget(o.fleet, roomId, draws, request, random).value.0;
    var reserved := o.fleet.(holds := ReserveId(o.fleet.holds, id));
    assert Pinned(reserved, request) == Pinned(o.fleet, request);
    OntoMeansRoom(reserved, request, random, i);
  }

  /** A create by strategy lands only where a slot is free; one that does not get away takes none. */
  lemma CreateAdmits(o: Orch, roomId: Option<Text>, draws: seq<Text>, request: Request, random: real,
                     open: set<InstanceId>, i: InstanceId)
    requires OrchValid(o) && i in o.fleet.rows.records && 0.0 <= random <= 1.0 && forall d :: d in draws ==>
      IsValidRoomId(d)
    requires !PinsOnto(o.fleet, CreateAsked(roomId, draws, request, random), i)
    ensures var f' := CreateRoom(o, roomId, draws, request, random, open).orch.fleet;
      f'.rows == o.fleet.rows && Admits(o.fleet, f', i)
  {
    CreateRoomIs(o, roomId, draws, request, random, open);
    var target := CreateTarget(o.fleet, roomId, draws, request, random);
    if target.Some? {
      var (id, j) := target.value;
      if j == i {
        TargetHasRoom(o, roomId, draws, request, random, i);
      }
      CreateOntoAdmits(o, j, id, request.roomType, j in open, i);
    }
  }

  lemma OntoMeansRoom(f: Fleet, request: Request, random: real, i: InstanceId)
    requires RowsValid(f.rows) && 0.0 <= random <= 1.0 && i in f.rows.records
    requires Selected(f, request, random).Ok? && Selected(f, request, random).value.id == i
    requires IsPinned(request) ==> !(Pinned(f, request).Some? && Pinned(f, request).value.id == i)
    ensures var max := f.rows.records[i].info.capacity.maxRooms; max.Some? ==> LoadOf(f, i) < max.value
    ensures f.rows.records[i].info.id == i
  {
    if !IsPinned(request) {
      PlacementIsSound(f, request, random);
    }
  }

  lemma PlainKeeps(o: Orch, j: InstanceId, op: Op, sends: bool)
    requires OrchValid(o) && !op.Create?
    ensures PlainSent(DeskOf(o), j, op, sends).0.holds == o.fleet.holds
  {
    PlainConserves(DeskOf(o), j, op, sends);
  }

  lemma DestroyKeeps(o: Orch, publicId: Text, open: set<InstanceId>)
    requires OrchValid(o)
    ensures DestroyRoom(o, publicId, open).orch.fleet == o.fleet
  {
    if Locate(o.fleet.rows, publicId).Some? {
      var found := Locate(o.fleet.rows, publicId).value;
      PlainKeeps(o, found.instanceId, Destroy(found.rawRoomId), found.instanceId in open);
    }
  }

  lemma LeftAdmits(o: Orch, j: InstanceId, i: InstanceId)
    requires OrchValid(o) && i in o.fleet.rows.records && i in Teardown(o, j).fleet.rows.records
    ensures Admits(o.fleet, Teardown(o, j).fleet, i)
  {
    TeardownShrinks(o, j, i);
    TeardownValid(o, j);
    ShrinkingAdmits(o.fleet, Teardown(o, j).fleet, i);
  }

  lemma ReceivedAdmits(o: Orch, j: InstanceId, frame: Up, valid: bool, now: Time, i: InstanceId)
    requires OrchValid(o) && (j == i ==> !Applies(o, i, frame, valid))
    requires i in o.fleet.rows.records && i in Receive(o, j, frame, valid, now).orch.fleet.rows.records
    ensures Admits(o.fleet, Receive(o, j, frame, valid, now).orch.fleet, i)
  {
    ReceiveShrinks(o, j, frame, valid, now, i);
    ReceiveValid(o, j, frame, valid, now);
    ShrinkingAdmits(o.fleet, Receive(o, j, frame, valid, now).orch.fleet, i);
  }

  lemma TickAdmits(o: Orch, j: InstanceId, open: set<InstanceId>, i: InstanceId)
    requires OrchValid(o) && i in o.fleet.rows.records && i in Tick(o, j, open).orch.fleet.rows.records
    ensures Admits(o.fleet, Tick(o, j, open).orch.fleet, i)
  {
    TickShrinks(o, j, open, i);
    TickValid(o, j, open);
    ShrinkingAdmits(o.fleet, Tick(o, j, open).orch.fleet, i);
  }

  lemma ExpiredAdmits(o: Orch, j: InstanceId, cmdId: nat, i: InstanceId)
    requires OrchValid(o) && i in o.fleet.rows.records
    ensures Admits(o.fleet, Expire(o, j, cmdId).fleet, i)
  {
    ExpireShrinks(o, j, cmdId, i);
    assert Expire(o, j, cmdId).fleet.rows == o.fleet.rows;
  }

  lemma JoinAdmits(o: Orch, j: InstanceId, open: set<InstanceId>, i: InstanceId)
    requires OrchValid(o) && i in o.fleet.rows.records
    ensures Admits(o.fleet, Join(o, j, open).orch.fleet, i)
  {
  }

  lemma DestroyAdmits(o: Orch, publicId: Text, open: set<InstanceId>, i: InstanceId)
    requires OrchValid(o) && i in o.fleet.rows.records
    ensures Admits(o.fleet, DestroyRoom(o, publicId, open).orch.fleet, i)
  {
    hide DestroyRoom;
    DestroyKeeps(o, publicId, open);
  }

  lemma StatusAdmits(o: Orch, j: InstanceId, op: Op, open: set<InstanceId>, i: InstanceId)
    requires OrchValid(o) && i in o.fleet.rows.records && !op.Create?
    ensures Admits(o.fleet, StatusCommand(o, j, op, open).orch.fleet, i)
  {
    PlainKeeps(o, j, op, j in open);
  }

  /** Between two applied snapshots of an instance and without pins onto it, its load rises only into free slots. */
  lemma StepAdmits(o: Orch, input: Input, open: set<InstanceId>, now: Time, i: InstanceId)
    requires OrchValid(o) && Sensible(input) && i in o.fleet.rows.records
    requires i in Step(o, input, open, now).orch.fleet.rows.records
    requires !Refreshes(o, input, i) && !PinsOnto(o.fleet, input, i)
    ensures Admits(o.fleet, Step(o, input, open, now).orch.fleet, i)
  {
    hide Join, Teardown, Receive, Tick, Expire, CreateRoom, DestroyRoom, StatusCommand, Admits, OrchValid, Applies;
    match input
    case Joined(j) => JoinAdmits(o, j, open, i);
    case Left(j) => LeftAdmits(o, j, i);
    case Received(j, frame, valid) => ReceivedAdmits(o, j, frame, valid, now, i);
    case TimerFired(j) => TickAdmits(o, j, open, i);
    case CommandTimeout(j, cmdId) => ExpiredAdmits(o, j, cmdId, i);
    case CreateAsked(roomId, draws, request, random) => CreateAdmits(o, roomId, draws, request, random, open, i);
    case DestroyAsked(publicId) => DestroyAdmits(o, publicId, open, i);
    case StatusAsked(j, drain) => StatusAdmits(o, j, if drain then Drain else Undrain, open, i);
  }

  lemma SameButTime(a: InstanceInfo, b: InstanceInfo)
    requires a.(lastSyncAt := 0) == b.(lastSyncAt := 0)
    ensures a.rooms == b.rooms && a.capacity == b.capacity && a.id == b.id
  {
  }

  // ----- runs -----

  /** A handler call: what came in, which links took frames, what the clock said. */
  datatype Call = Call(input: Input, open: set<InstanceId>, now: Time)

  ghost function After(o: Orch, call: Call): (o': Orch)
    requires OrchValid(o) && Sensible(call.input)
    ensures OrchValid(o')
  {
    StepValid(o, call.input, call.open, call.now);
    Step(o, call.input, call.open, call.now).orch
  }

  /** All along, the instance stays recorded, no snapshot of it is applied and it is not pinned. */
  ghost predicate Undisturbed(o: Orch, calls: seq<Call>, i: InstanceId)
    requires OrchValid(o)
    decreases calls
  {
    && i in o.fleet.rows.records
    && (calls == [] ||
        (&& Sensible(calls[0].input) && !Refreshes(o, calls[0].input, i) && !PinsOnto(o.fleet, calls[0].input, i)
         && Undisturbed(After(o, calls[0]), calls[1..], i)))
  }

  ghost function AfterAll(o: Orch, calls: seq<Call>, i: InstanceId): (o': Orch)
    requires OrchValid(o) && Undisturbed(o, calls, i)
    ensures OrchValid(o') && i in o'.fleet.rows.records
    decreases calls
  {
    if calls == [] then o else AfterAll(After(o, calls[0]), calls[1..], i)
  }

  /** Between two applied snapshots of an instance, with no pin onto it, a load within its limit never gets past it. */
  lemma {:induction false} NeverOverAdmits(o: Orch, calls: seq<Call>, i: InstanceId, max: nat)
    requires OrchValid(o) && Undisturbed(o, calls, i)
    requires o.fleet.rows.records[i].info.capacity.maxRooms == Some(max) && LoadOf(o.fleet, i) <= max
    ensures var f := AfterAll(o, calls, i).fleet;
      f.rows.records[i].info.capacity.maxRooms == Some(max) && LoadOf(f, i) <= max
    decreases calls
  {
    if calls != [] {
      var o' := After(o, calls[0]);
      StepAdmits(o, calls[0].input, calls[0].open, calls[0].now, i);
      SameButTime(o.fleet.rows.records[i].info, o'.fleet.rows.records[i].info);
      NeverOverAdmits(o', calls[1..], i, max);
    }
  }
}
