/** The control surface: reserve an id, place, and send, giving back what was taken on every way out. */
module FleetControls {
  import opened Prelude
  import opened Utf8
  import opened FleetTypes
  import opened Reservations
  import opened Commands
  import opened CommandOutcomes
  import opened FleetModel
  import opened Placement
  import opened FleetStates
  import opened Orchestration
  import opened CommandEngines

  /** The room a create promises its caller, or why there is none; `f` has the id reserved already. */
  function PlacedAnswer(f: Fleet, links: set<InstanceId>, id: Text, request: Request, random: real)
    : Result<RoomInfo, FleetError>
    requires RowsValid(f.rows) && 0.0 <= random <= 1.0
  {
    match Selected(f, request, random)
    case Err(e) => Err(e)
    case Ok(info) =>
      if info.id !in links then Err(FleetError.InstanceDisconnected)
      else Ok(RoomInfo(id, request.roomType, 0, info.id, info.endpointUrl, false))
  }

  ghost function CreateAnswer(f: Fleet, links: set<InstanceId>, roomId: Option<Text>, draws: seq<Text>,
                              request: Request,
                              random: real): Result<RoomInfo, FleetError>
    requires RowsValid(f.rows) && 0.0 <= random <= 1.0
  {
    match IdToReserve(f, roomId, draws)
    case Err(e) => Err(e)
    case Ok(id) => PlacedAnswer(f.(holds := ReserveId(f.holds, id)), links, id, request, random)
  }

  /** The reservations after a create that was turned away. */
  function PlacedLeft(f: Fleet, id: Text, request: Request, random: real): Holds
    requires RowsValid(f.rows) && 0.0 <= random <= 1.0
  {
    match Selected(f, request, random)
    case Err(_) => ReleaseId(f.holds, id)
    case Ok(info) => ReleaseBoth(Reserve(f.holds, info.id), CreatePending(f.holds, info.id, id, request.roomType))
  }

  ghost function LeftBehind(f: Fleet, roomId: Option<Text>, draws: seq<Text>, request: Request, random: real): Holds
    requires RowsValid(f.rows) && 0.0 <= random <= 1.0
  {
    match IdToReserve(f, roomId, draws)
    case Err(_) => f.holds
    case Ok(id) => PlacedLeft(f.(holds := ReserveId(f.holds, id)), id, request, random)
  }

  /** A create is a reservation of the id, and what follows from it. */
  lemma CreateSplits(f: Fleet, links: set<InstanceId>, roomId: Option<Text>, draws: seq<Text>, request: Request,
                     random: real)
    requires RowsValid(f.rows) && 0.0 <= random <= 1.0
    ensures match IdToReserve(f, roomId, draws)
      case Err(e) => CreateAnswer(f, links, roomId, draws, request, random) == Err(e)
        && LeftBehind(f, roomId, draws, request, random) == f.holds
      case Ok(id) => var g := f.(holds := ReserveId(f.holds, id));
        && CreateAnswer(f, links, roomId, draws, request, random) == PlacedAnswer(g, links, id, request, random)
        && LeftBehind(f, roomId, draws, request, random) == PlacedLeft(g, id, request, random)
  {
  }

  lemma HeldInSteps(h: Holds, i: InstanceId, id: Text, roomType: Text)
    ensures HeldFor(h, i, id) == Reserve(ReserveId(h, id), i)
    ensures CreatePending(h, i, id, roomType) == CreatePending(ReserveId(h, id), i, id, roomType)
  {
  }

  ghost function DestroyAnswer(f: Fleet, links: set<InstanceId>, publicId: Text): Result<InstanceId, FleetError>
    requires RowsValid(f.rows)
  {
    match Locate(f.rows, publicId)
    case None => Err(RoomNotFound)
    case Some(found) => if found.instanceId !in links then Err(FleetError.InstanceDisconnected)
      else Ok(found.instanceId)
  }

  function StatusAnswer(f: Fleet, links: set<InstanceId>, i: InstanceId): Result<InstanceId, FleetError> {
    if i !in f.rows.records then Err(InstanceNotFound)
    else if i !in links then Err(FleetError.InstanceDisconnected)
    else Ok(i)
  }

  // ----- what the caller is told -----

  /** A call is refused at once, or waits for its command to settle. */
  datatype Promise<+T> = Refused(error: FleetError) | Awaiting(cmdId: nat, value: T)

  function Promised<T>(answer: Result<T, FleetError>, cmdId: nat): Promise<T> {
    match answer
    case Err(e) => Refused(e)
    case Ok(value) => Awaiting(cmdId, value)
  }

  function Told<T>(outcome: Outcome, value: T): Result<T, FleetError> {
    match outcome
    case Fulfilled => Ok(value)
    case Busied => Err(InstanceBusy)
    case Failed => Err(CommandFailed)
    case RoomExists => Err(RoomIdTaken)
    case TimedOut => Err(TooLate)
    case Disconnected => Err(FleetError.InstanceDisconnected)
  }

  /** The answer, once there is one. */
  function Awaited<T>(p: Promise<T>, c: Commands): Option<Result<T, FleetError>> {
    match p
    case Refused(e) => Some(Err(e))
    case Awaiting(cmdId, value) => if cmdId in c.settled then Some(Told(c.settled[cmdId], value)) else None
  }

  /** Too many commands in flight, and a link that fails, are told at once; otherwise the caller waits. */
  lemma ToldAtOnce<T>(d: Desk, i: InstanceId, p: Pending, sends: bool, value: T)
    requires Accounted(d.commands)
    ensures var k, c' := d.commands.cmdSeq + 1, SentNext(d, i, p, sends).0.commands;
      Awaited(Awaiting(k, value), c') ==
        if |FlightOf(d.commands, i)| >= MAX_INFLIGHT then Some(Err(InstanceBusy))
        else if !sends then Some(Err(FleetError.InstanceDisconnected))
        else None
  {
    NextIsFree(d.commands, i);
    SentOn(d, i, p, sends);
    SentBack(d, i, p, sends);
    SameFlight(d.commands, d.commands.cmdSeq + 1, i);
  }

  /** A waiting caller is told what its ack says, or that none came, or that the agent is gone. */
  lemma ToldLater<T>(d: Desk, i: InstanceId, k: nat, ok: bool, already: bool, value: T)
    requires Accounted(d.commands) && k in FlightOf(d.commands, i)
    ensures Awaited(Awaiting(k, value), d.commands) == None
    ensures Awaited(Awaiting(k, value), Acked(d, i, k, ok, already).0.commands)
         == Some(if ok then Ok(value) else if already then Err(RoomIdTaken) else Err(CommandFailed))
    ensures Awaited(Awaiting(k, value), Expired(d, i, k).commands) == Some(Err(TooLate))
    ensures Awaited(Awaiting(k, value), RejectedAll(d, i).commands) == Some(Err(FleetError.InstanceDisconnected))
  {
    assert Pends(d.commands, k);
  }

  /** What was told stays told. */
  lemma ToldOnce<T>(p: Promise<T>, c: Commands, c': Commands)
    requires Extends(c, c') && Awaited(p, c).Some?
    ensures Awaited(p, c') == Awaited(p, c)
  {
  }

  class FleetControl {
    const state: FleetState
    const commands: CommandEngine
    const room: FleetRoom

    ghost predicate Wired() {
      commands.reservations == state
    }

    constructor (state: FleetState, commands: CommandEngine, room: FleetRoom)
      ensures this.state == state && this.commands == commands && this.room == room
    {
      this.state, this.commands, this.room := state, commands, room;
    }

    ghost function DeskModel(): Desk
      reads state, commands
    {
      Desk(state.HoldsModel(), commands.Model())
    }

    /** Number a command and hand it to the engine, which owns the reservations from here on. */
    method Dispatch(i: InstanceId, p: Pending)
      requires Wired() && state.Valid()
      modifies commands, room`sent, state`reservations, state`reservedByInstance, state`reservedRoomIds
      ensures state.Valid() && Dispatched(old(DeskModel()), old(room.sent), i, p)
    {
      var cmdId := commands.NextCmdId();
      var result := commands.Send(room, i, cmdId, p);
    }

    /** Reserve the id first, then place; whatever fails gives back what was taken before it. */
    method CreateRoom(links: set<InstanceId>, roomId: Option<Text>, draws: seq<Text>, request: Request, random: real)
      returns (answer: Promise<RoomInfo>)
      requires Wired() && state.Valid() && 0.0 <= random <= 1.0
      modifies commands, room`sent, state`resolvedView,
               state`reservations, state`reservedByInstance, state`reservationSeq, state`reservedRoomIds
      ensures state.Valid()
      ensures answer == Promised(CreateAnswer(old(state.Model()), links, roomId, draws, request, random),
        old(commands.cmdSeq) + 1)
      ensures answer.Refused? ==>
        && DeskModel() == Desk(LeftBehind(old(state.Model()), roomId, draws, request, random), old(commands.Model()))
        && room.sent == old(room.sent)
      ensures answer.Awaiting? ==>
        var id, i, h := answer.value.id, answer.value.instanceId, old(state.HoldsModel());
        Dispatched(Desk(HeldFor(h, i, id), old(commands.Model())), old(room.sent), i,
          CreatePending(h, i, id, request.roomType))
    {
      hide IdToReserve, PlacedAnswer, PlacedLeft, CreateAnswer, LeftBehind, HeldFor, CreatePending, ViewCoherent;
      ghost var before := state.Model();
      CreateSplits(before, links, roomId, draws, request, random);
      var cmdId := commands.cmdSeq + 1;
      var id := state.ReserveRoomId(roomId, draws);
      if id.Err? {
        return Refused(id.error);
      }
      var placed := PlaceReserved(links, id.value, request, random);
      answer := Promised(placed, cmdId);
      if placed.Ok? {
        HeldInSteps(before.holds, placed.value.instanceId, id.value, request.roomType);
      }
    }

    /** The id is reserved: take a slot and send the create. */
    method PlaceReserved(links: set<InstanceId>, id: Text, request: Request, random: real)
      returns (answer: Result<RoomInfo, FleetError>)
      requires Wired() && state.Valid() && 0.0 <= random <= 1.0
      modifies commands, room`sent,
               state`reservations, state`reservedByInstance, state`reservationSeq, state`reservedRoomIds
      ensures state.Valid() && answer == PlacedAnswer(old(state.Model()), links, id, request, random)
      ensures answer.Err? ==>
        && DeskModel() == Desk(PlacedLeft(old(state.Model()), id, request, random), old(commands.Model()))
        && room.sent == old(room.sent)
      ensures answer.Ok? ==>
        var i, h := answer.value.instanceId, old(state.HoldsModel());
        answer.value.id == id &&
        Dispatched(Desk(Reserve(h, i), old(commands.Model())), old(room.sent), i,
          CreatePending(h, i, id, request.roomType))
    {
      hide Selected;
      var placed := state.Place(request, random);
      if placed.Err? {
        ReleaseTaken(None, id);
        return Err(placed.error);
      }
      var (info, reservation) := placed.value;
      if info.id !in links {
        ReleaseTaken(Some(reservation), id);
        return Err(FleetError.InstanceDisconnected);
      }
      Dispatch(info.id, Pending(Create(id, request.roomType), Some(reservation), Some(id)));
      return Ok(RoomInfo(id, request.roomType, 0, info.id, info.endpointUrl, false));
    }

    method ReleaseTaken(reservation: Option<Reservation>, id: Text)
      requires state.Valid()
      modifies state`reservations, state`reservedByInstance, state`reservedRoomIds
      ensures state.Valid()
      ensures state.HoldsModel() == ReleaseId(
        if reservation.Some? then Release(old(state.HoldsModel()), reservation.value) else old(state.HoldsModel()), id)
    {
      if reservation.Some? {
        state.Release(reservation.value);
      }
      state.ReleaseRoomId(id);
    }

    /** Destroy by public id: the owner is told the id it knows. */
    method DestroyRoom(links: set<InstanceId>, publicId: Text) returns (answer: Promise<InstanceId>)
      requires Wired() && state.Valid()
      modifies commands, room`sent, state`resolvedView, state`reservations, state`reservedByInstance,
        state`reservedRoomIds
      ensures state.Valid() && answer == Promised(DestroyAnswer(old(state.Model()), links, publicId),
        old(commands.cmdSeq) + 1)
      ensures answer.Refused? ==> DeskModel() == old(DeskModel()) && room.sent == old(room.sent)
      ensures answer.Awaiting? ==> Dispatched(old(DeskModel()), old(room.sent), answer.value,
        Pending(Destroy(Locate(old(state.rows), publicId).value.rawRoomId), None, None))
    {
      var cmdId := commands.cmdSeq + 1;
      var located := state.LocateRoom(publicId);
      if located.None? {
        return Refused(RoomNotFound);
      }
      var i := located.value.instanceId;
      if i !in links {
        return Refused(FleetError.InstanceDisconnected);
      }
      Dispatch(i, Pending(Destroy(located.value.rawRoomId), None, None));
      return Awaiting(cmdId, i);
    }

    method SendStatusCommand(links: set<InstanceId>, i: InstanceId, drain: bool) returns (answer: Promise<InstanceId>)
      requires Wired() && state.Valid()
      modifies commands, room`sent, state`reservations, state`reservedByInstance, state`reservedRoomIds,
        state`resolvedView
      ensures state.Valid()
      ensures answer == Promised(StatusAnswer(old(state.Model()), links, i), old(commands.cmdSeq) + 1)
      ensures answer.Refused? ==> DeskModel() == old(DeskModel()) && room.sent == old(room.sent)
      ensures answer.Awaiting? ==> Dispatched(old(DeskModel()), old(room.sent), i,
        Pending(if drain then Drain else Undrain, None, None))
    {
      var cmdId := commands.cmdSeq + 1;
      var info := state.GetInstance(i);
      if info.None? {
        return Refused(InstanceNotFound);
      }
      if i !in links {
        return Refused(FleetError.InstanceDisconnected);
      }
      Dispatch(i, Pending(if drain then Drain else Undrain, None, None));
      return Awaiting(cmdId, i);
    }

    /** The command was numbered and sent, or turned back. */
    ghost predicate Dispatched(d: Desk, sent: seq<(InstanceId, Down)>, i: InstanceId, p: Pending)
      reads state, commands, room
    {
      var (d', result) := SentNext(d, i, p, i in room.open);
      && DeskModel() == d'
      && room.sent == sent + if result == Underway then [(i, Cmd(d.commands.cmdSeq + 1, p.op))] else []
    }

  }
}
