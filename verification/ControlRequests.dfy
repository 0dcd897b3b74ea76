/** What a request to create, destroy, drain or undrain puts on which link. */
module ControlRequests {
  import opened Prelude
  import opened Utf8
  import opened RoomId
  import opened FleetTypes
  import opened Resolution
  import opened PublicIds
  import Reservations
  import opened Commands
  import opened FleetModel
  import opened Placement
  import opened Hosting
  import opened FleetStates
  import opened Orchestration
  import opened OrchestrationLaws
  import opened Clashes

  /** The link takes frames, and fewer than 32 commands are in flight on it. */
  ghost predicate Ready(o: Orch, i: InstanceId, open: set<InstanceId>) {
    i in o.links && i in open && (i in o.commands.pending ==> |o.commands.pending[i]| < 32)
  }

  lemma PlainIssues(o: Orch, i: InstanceId, op: Op, open: set<InstanceId>)
    requires i in o.links
    ensures Issue(o, i, op, PlainSent(DeskOf(o), i, op, i in open)).sent
      == if Ready(o, i, open) then [(i, Cmd(o.commands.cmdSeq + 1, op))] else []
  {
  }

  /** A request to drain or undrain sends that command, under the next number, to the instance and to no other. */
  lemma StatusAskedSends(o: Orch, i: InstanceId, drain: bool, open: set<InstanceId>, now: Time)
    requires OrchValid(o)
    ensures Step(o, StatusAsked(i, drain), open, now).sent
      == if i in o.fleet.rows.records && Ready(o, i, open)
         then [(i, Cmd(o.commands.cmdSeq + 1, if drain then Drain else Undrain))] else []
  {
    hide OrchValid, PlainSent, Issue;
    if i in o.links {
      PlainIssues(o, i, if drain then Drain else Undrain, open);
    }
  }

  /** A request to destroy goes to the instance that owns the id, under the id it knows the room by. */
  lemma DestroyAskedSends(o: Orch, id: Text, open: set<InstanceId>, now: Time)
    requires OrchValid(o)
    ensures forall s | Owns(o.fleet.rows.records, s, id) ::
      Step(o, DestroyAsked(EncodedRoomId(id)), open, now).sent
      == if Ready(o, s.instance, open) then [(s.instance, Cmd(o.commands.cmdSeq + 1, Destroy(id)))] else []
    ensures !Reported(o.fleet.rows.records, id) ==> Step(o, DestroyAsked(EncodedRoomId(id)), open, now).sent == []
  {
    hide DeskValid, StreamValid, PlainSent, Issue, Locate, Owns, Reported, Ready;
    var r := o.fleet.rows;
    OwnerIsLocated(r, id);
    forall s | Owns(r.records, s, id)
      ensures Step(o, DestroyAsked(EncodedRoomId(id)), open, now).sent
        == if Ready(o, s.instance, open) then [(s.instance, Cmd(o.commands.cmdSeq + 1, Destroy(id)))] else []
    {
      OwnerIsPresent(r.records, s, id);
      PlainIssues(o, s.instance, Destroy(id), open);
    }
  }

  lemma OwnerIsPresent(m: Records, s: Slot, id: Text)
    requires Owns(m, s, id)
    ensures s.instance in m
  {
  }

  // ----- create -----

  /** The id asked for, or one of those drawn; legal and not in use. */
  ghost predicate IdFits(f: Fleet, roomId: Option<Text>, draws: seq<Text>, id: Text)
    requires RowsValid(f.rows)
  {
    && IsValidRoomId(id) && id !in f.holds.reserved && id !in f.holds.pending && Locate(f.rows, id).None?
    && (if roomId.Some? then id == roomId.value else id in draws)
  }

  /** The instance the pin names, or one the strategy allows. */
  ghost predicate PlaceFits(f: Fleet, request: Request, i: InstanceId) {
    if request.instanceId.None? && request.processUid.None? then MayTake(f, request, i) else Named(f, request, i)
  }

  lemma CanHostSame(f: Fleet, id: Text, request: Request, i: InstanceId)
    ensures CanHost(f.(holds := Reservations.ReserveId(f.holds, id)), request, i) == CanHost(f, request, i)
  {
    var g := f.(holds := Reservations.ReserveId(f.holds, id));
    if i in f.rows.records {
      assert SlotsTaken(g, i) == SlotsTaken(f, i);
    }
  }

  /** Reserving an id takes no slot, so it changes nothing for placement. */
  lemma MayTakeSame(f: Fleet, id: Text, request: Request, i: InstanceId)
    ensures MayTake(f.(holds := Reservations.ReserveId(f.holds, id)), request, i) ==> MayTake(f, request, i)
  {
    var g := f.(holds := Reservations.ReserveId(f.holds, id));
    if MayTake(g, request, i) {
      forall j
        ensures CanHost(g, request, j) == CanHost(f, request, j)
      {
        CanHostSame(f, id, request, j);
      }
      hide CanHost;
      forall j | CanHost(f, request, j)
        ensures CanHost(g, request, j)
        ensures NoMoreLoaded(g, request, i, j) == NoMoreLoaded(f, request, i, j)
        ensures NoMoreLoaded(g, request, j, i) == NoMoreLoaded(f, request, j, i)
      {
      }
    }
  }

  lemma ChosenFits(f: Fleet, id: Text, request: Request, random: real)
    requires RowsValid(f.rows) && Reservations.Valid(f.holds) && 0.0 <= random <= 1.0 && id !in f.holds.pending
    requires Selected(f.(holds := Reservations.ReserveId(f.holds, id)), request, random).Ok?
    ensures PlaceFits(f, request, Selected(f.(holds := Reservations.ReserveId(f.holds, id)), request, random).value.id)
  {
    hide Selected, MayTake, CanHost;
    var g := f.(holds := Reservations.ReserveId(f.holds, id));
    if request.instanceId.None? && request.processUid.None? {
      PlacedOnFavoured(g, request, random);
      MayTakeSame(f, id, request, Selected(g, request, random).value.id);
    } else {
      PinExactly(g, request, random);
      var i :| Named(g, request, i) && Selected(g, request, random) == PinAnswer(g, request, i);
      assert Named(f, request, i);
    }
  }

  lemma IdFound(f: Fleet, roomId: Option<Text>, draws: seq<Text>)
    requires RowsValid(f.rows) && IdToReserve(f, roomId, draws).Ok? && forall d :: d in draws ==> IsValidRoomId(d)
    ensures IdFits(f, roomId, draws, IdToReserve(f, roomId, draws).value)
  {
    hide Locate;
    if roomId.None? {
      FirstFreeDrawn(f, draws, MAX_ATTEMPTS);
    }
  }

  lemma {:induction false} FirstFreeDrawn(f: Fleet, draws: seq<Text>, attempts: nat)
    requires RowsValid(f.rows) && FirstFree(f, draws, attempts).Some?
    ensures FirstFree(f, draws, attempts).value in draws && !Taken(f, FirstFree(f, draws, attempts).value)
    decreases attempts
  {
    hide Taken;
    if Taken(f, draws[0]) {
      FirstFreeDrawn(f, draws[1..], attempts - 1);
    }
  }

  /** One create, of an id and to a place that fit. */
  ghost predicate OneCreate(o: Orch, roomId: Option<Text>, draws: seq<Text>, request: Request, open: set<InstanceId>,
                            sent: seq<(InstanceId, Down)>)
    requires RowsValid(o.fleet.rows)
  {
    exists i: InstanceId, id: Text ::
      && sent == [(i, Cmd(o.commands.cmdSeq + 1, Create(id, request.roomType)))]
      && Ready(o, i, open) && IdFits(o.fleet, roomId, draws, id) && PlaceFits(o.fleet, request, i)
  }

  /**
   * A request to create sends one create at most: of an id that fits, of the type asked for, to an instance that the
   * pin names or the strategy allows.
   */
  lemma CreateAskedSends(o: Orch, roomId: Option<Text>, draws: seq<Text>, request: Request, random: real,
                         open: set<InstanceId>)
    requires OrchValid(o) && Sensible(CreateAsked(roomId, draws, request, random))
    ensures var sent := CreateRoom(o, roomId, draws, request, random, open).sent;
      sent == [] || OneCreate(o, roomId, draws, request, open, sent)
  {
    hide StreamValid, Nested, Selected, IdToReserve, IdFits, PlaceFits, Taken, Ready;
    CreateRoomIs(o, roomId, draws, request, random, open);
    var target := CreateTarget(o.fleet, roomId, draws, request, random);
    if target.Some? {
      var (id, i) := target.value;
      FreeIsNotPending(o.fleet, id);
      IdFound(o.fleet, roomId, draws);
      ChosenFits(o.fleet, id, request, random);
      CreateIssues(o, i, id, request.roomType, open);
    }
  }

  lemma FreeIsNotPending(f: Fleet, id: Text)
    requires RowsValid(f.rows) && !Taken(f, id)
    ensures id !in f.holds.pending
  {
  }

  lemma CreateIssues(o: Orch, i: InstanceId, id: Text, roomType: Text, open: set<InstanceId>)
    requires i in o.links
    ensures Issue(o, i, Create(id, roomType), CreateSent(DeskOf(o), i, id, roomType, i in open)).sent
      == if Ready(o, i, open) then [(i, Cmd(o.commands.cmdSeq + 1, Create(id, roomType)))] else []
  {
  }
}
