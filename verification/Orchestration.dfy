/** The orchestrator as a value: what each of its handlers does to its tables and sends to its agents. */
module Orchestration {
  import opened Prelude
  import opened Utf8
  import opened RoomId
  import opened FleetTypes
  import opened SnapshotHash
  import opened Resolution
  import opened Reservations
  import opened Commands
  import opened FleetModel
  import opened RoomTypes
  import opened Placement
  import opened Polling
  import opened EventReconciling
  import opened FleetStates

  // ----- frames -----

  /** Orchestrator to agent. */
  datatype Down =
    | Hello
    | Poll(reqId: nat, knownHash: Option<Hash>, status: Status)
    | Cmd(cmdId: nat, op: Op)

  /** Agent to orchestrator; the content of a hash-only reply stays in the agent's memory. */
  datatype Up =
    | State(reqId: nat, full: bool, snapshot: Snapshot)
    | Ack(cmdId: nat, ok: bool, already: bool)

  // ----- state -----

  datatype Orch = Orch(links: set<InstanceId>, polls: Polls, commands: Commands, fleet: Fleet, known: Known)

  const NEW_ORCH: Orch := Orch({}, NO_POLLS, IDLE, NO_FLEET, NOTHING)

  /** What a handler leaves behind: the tables, the frames handed to links, the sockets it closes. */
  datatype Effects = Effects(orch: Orch, sent: seq<(InstanceId, Down)>, closed: set<InstanceId>)

  function Silent(o: Orch): Effects {
    Effects(o, [], {})
  }

  function DeskOf(o: Orch): Desk {
    Desk(o.fleet.holds, o.commands)
  }

  function WithDesk(o: Orch, d: Desk): Orch {
    o.(fleet := o.fleet.(holds := d.holds), commands := d.commands)
  }

  ghost function StatsOf(r: Rows): FleetStats
    requires RowsValid(r)
  {
    var all := Instances(r.order, r.records);
    FleetStats(|all|, SumRooms(all), SumConnections(all), TypesOf(all), ComputeStateHash(all))
  }

  ghost function Reconcile(o: Orch): Orch
    requires RowsValid(o.fleet.rows)
  {
    o.(known := Reconciled(o.known, Instances(o.fleet.rows.order, o.fleet.rows.records), StatsOf(o.fleet.rows)))
  }

  // ----- teardown -----

  /** Forget an instance everywhere, announcing its removal if it was ever seen. */
  ghost function Teardown(o: Orch, i: InstanceId): Orch
    requires RowsValid(o.fleet.rows)
  {
    if i !in o.links && i !in o.polls.entries then o
    else
      var rejected := RejectedAll(DeskOf(o), i);
      var fleet := RemoveInstance(o.fleet.(holds := rejected.holds), i);
      var known := if i in o.fleet.rows.records then RemovedInstance(o.known, o.fleet.rows.records[i].info)
        else o.known;
      RemoveKeepsRows(o.fleet.(holds := rejected.holds), i);
      Reconcile(Orch(o.links - {i}, Forgotten(o.polls, i), rejected.commands, fleet, known))
  }

  lemma RemoveKeepsRows(f: Fleet, i: InstanceId)
    requires RowsValid(f.rows)
    ensures RowsValid(RemoveInstance(f, i).rows)
  {
    RemovedValid(f.rows, i);
  }

  ghost function Kick(o: Orch, i: InstanceId): Effects
    requires RowsValid(o.fleet.rows)
  {
    Effects(Teardown(o, i), [], {i})
  }

  // ----- polling -----

  function PollFrame(f: Fleet, i: InstanceId, reqId: nat, forceFull: bool): Down {
    Poll(reqId, if forceFull then None else LastHashOf(f, i), if i in f.rows.records then f.rows.records[i].info.status
      else Active)
  }

  /** A poll goes out if the link is there and takes it; the request counts as outstanding either way. */
  function SentPoll(o: Orch, i: InstanceId, reqId: nat, forceFull: bool, open: set<InstanceId>)
    : seq<(InstanceId, Down)> {
    if i in o.links && i in open then [(i, PollFrame(o.fleet, i, reqId, forceFull))] else []
  }

  /** A hello that cannot be sent leaves the link registered but unpolled. */
  function Join(o: Orch, i: InstanceId, open: set<InstanceId>): Effects {
    var linked := o.(links := o.links + {i});
    if i !in open then Silent(linked)
    else
      var (polls, effect) := Started(o.polls, i);
      Effects(linked.(polls := polls), [(i, Hello)] + SentPoll(linked, i, effect.reqId, effect.forceFull, open), {})
  }

  ghost function Tick(o: Orch, i: InstanceId, open: set<InstanceId>): Effects
    requires RowsValid(o.fleet.rows)
  {
    var (polls, effect) := Ticked(o.polls, i);
    var ticked := o.(polls := polls);
    match effect
    case Quiet => Silent(ticked)
    case SendPoll(reqId, forceFull) => Effects(ticked, SentPoll(ticked, i, reqId, forceFull, open), {})
    case OnStale =>
      var marked := ticked.(fleet := SetStale(ticked.fleet, i, true));
      Silent(if i in o.fleet.rows.records then marked.(known :=
        Emit(marked.known, InstanceStale(Resolved(o.fleet.rows.records, i)))) else marked)
    case OnEvict => Kick(ticked, i)
  }

  // ----- inbound frames -----

  /** Every agent frame must answer an outstanding request; anything else is a reason to kick. */
  ghost function Receive(o: Orch, i: InstanceId, f: Up, valid: bool, now: Time): Effects
    requires RowsValid(o.fleet.rows)
  {
    if i !in o.links then Silent(o)
    else match f
      case State(reqId, full, snapshot) => ReceiveState(o, i, reqId, full, snapshot, valid, now)
      case Ack(cmdId, ok, already) => ReceiveAck(o, i, cmdId, ok, already)
  }

  ghost function ReceiveState(o: Orch, i: InstanceId, reqId: nat, full: bool, s: Snapshot, valid: bool, now: Time)
    : Effects
    requires RowsValid(o.fleet.rows)
  {
    var (polls, matched) := Replied(o.polls, i, reqId);
    if !matched then Kick(o, i)
    else
      var live := o.(polls := polls, fleet := SetStale(o.fleet, i, false));
      if !full then Silent(live.(fleet := Touch(live.fleet, i, now)))
      else if !valid then Silent(live)
      else
        var (fleet, applied) := ApplySnapshot(live.fleet, i, s, now);
        AppliedValid(o.fleet.rows, i, s, now);
        Silent(if applied then Reconcile(live.(fleet := fleet)) else live)
  }

  /** An acked drain or undrain also shifts what placement takes the status to be. */
  function Confirmed(f: Fleet, i: InstanceId, op: Op): Fleet {
    match op
    case Drain => SetPendingStatus(f, i, Draining)
    case Undrain => SetPendingStatus(f, i, Active)
    case _ => f
  }

  ghost function ReceiveAck(o: Orch, i: InstanceId, cmdId: nat, ok: bool, already: bool): Effects
    requires RowsValid(o.fleet.rows)
  {
    var (d, matched) := Acked(DeskOf(o), i, cmdId, ok, already);
    if !matched then Kick(o, i)
    else
      var settled := WithDesk(o, d);
      Silent(if ok then settled.(fleet := Confirmed(settled.fleet, i, FlightOf(o.commands, i)[cmdId].op)) else settled)
  }

  function Expire(o: Orch, i: InstanceId, cmdId: nat): Orch {
    WithDesk(o, Expired(DeskOf(o), i, cmdId))
  }

  // ----- the control surface -----

  /** Send a command over the link of an instance. */
  function Issue(o: Orch, i: InstanceId, op: Op, sent: (Desk, SendResult)): Effects {
    Effects(WithDesk(o, sent.0), if sent.1 == Underway then [(i, Cmd(o.commands.cmdSeq + 1, op))] else [], {})
  }

  /** Reserve the id, place, and send a create; every way out gives back what it took. */
  ghost function CreateRoom(o: Orch, roomId: Option<Text>, draws: seq<Text>, request: Request, random: real,
                            open: set<InstanceId>): Effects
    requires RowsValid(o.fleet.rows) && 0.0 <= random <= 1.0
  {
    match IdToReserve(o.fleet, roomId, draws)
    case Err(_) => Silent(o)
    case Ok(id) =>
      var reserved := o.fleet.(holds := ReserveId(o.fleet.holds, id));
      match Selected(reserved, request, random)
      case Err(_) => Silent(o.(fleet := reserved.(holds := ReleaseId(reserved.holds, id))))
      case Ok(info) =>
        if info.id !in o.links then
          Silent(o.(fleet := o.fleet.(holds :=
            ReleaseBoth(HeldFor(o.fleet.holds, info.id, id),
              CreatePending(o.fleet.holds, info.id, id, request.roomType)))))
        else
          Issue(o, info.id, Create(id, request.roomType),
            CreateSent(DeskOf(o), info.id, id, request.roomType, info.id in open))
  }

  ghost function DestroyRoom(o: Orch, roomId: Text, open: set<InstanceId>): Effects
    requires RowsValid(o.fleet.rows)
  {
    match Locate(o.fleet.rows, roomId)
    case None => Silent(o)
    case Some(found) =>
      if found.instanceId !in o.links then Silent(o)
      else Issue(o, found.instanceId, Destroy(found.rawRoomId),
        PlainSent(DeskOf(o), found.instanceId, Destroy(found.rawRoomId), found.instanceId in open))
  }

  function StatusCommand(o: Orch, i: InstanceId, op: Op, open: set<InstanceId>): Effects {
    if i !in o.fleet.rows.records || i !in o.links then Silent(o)
    else Issue(o, i, op, PlainSent(DeskOf(o), i, op, i in open))
  }

  // ----- all of them -----

  datatype Input =
    | Joined(i: InstanceId)
    | Left(i: InstanceId)
    | Received(i: InstanceId, frame: Up, valid: bool)
    | TimerFired(i: InstanceId)
    | CommandTimeout(i: InstanceId, cmdId: nat)
    | CreateAsked(roomId: Option<Text>, draws: seq<Text>, request: Request, random: real)
    | DestroyAsked(publicId: Text)
    | StatusAsked(i: InstanceId, drain: bool)

  ghost predicate Sensible(input: Input) {
    input.CreateAsked? ==> 0.0 <= input.random <= 1.0 && forall d :: d in input.draws ==> IsValidRoomId(d)
  }

  /** One handler, given which links take frames and what the clock says. */
  ghost function Step(o: Orch, input: Input, open: set<InstanceId>, now: Time): Effects
    requires RowsValid(o.fleet.rows) && Sensible(input)
  {
    match input
    case Joined(i) => Join(o, i, open)
    case Left(i) => Silent(Teardown(o, i))
    case Received(i, frame, valid) => Receive(o, i, frame, valid, now)
    case TimerFired(i) => Tick(o, i, open)
    case CommandTimeout(i, cmdId) => Silent(Expire(o, i, cmdId))
    case CreateAsked(roomId, draws, request, random) => CreateRoom(o, roomId, draws, request, random, open)
    case DestroyAsked(publicId) => DestroyRoom(o, publicId, open)
    case StatusAsked(i, drain) => StatusCommand(o, i, if drain then Drain else Undrain, open)
  }
}
