/** The agent's half of the protocol as a value: its rooms, and how it answers each frame. */
module Agents {
  import opened Prelude
  import opened Utf8
  import opened Ordered
  import opened FleetTypes
  import opened SnapshotHash
  import opened Commands
  import opened FleetModel
  import opened Orchestration
  import C = Canonical

  datatype LiveRoom = LiveRoom(roomType: Text, connections: Count)

  /**
   * An agent process on one connection: what it was configured with, the rooms it hosts in creation order,
   * which of them the fleet created, its status and its frame counter.
   */
  datatype Agent = Agent(
    config: Content, roomTypes: seq<Text>, order: seq<Text>, rooms: map<Text, LiveRoom>, origins: set<Text>,
    status: Status, seqNo: nat)

  ghost predicate AgentValid(a: Agent) {
    && LabelsDistinct(a.config.labels)
    && Orders(a.order, a.rooms)
  }

  /**
   * Every mark names a room that exists.  It is kept by all that is modelled here, but an agent need not start with it:
   * a room destroyed while the agent is disconnected leaves its mark behind.
   */
  ghost predicate MarksLive(a: Agent) {
    a.origins <= a.rooms.Keys
  }

  /** A room the fleet created and that still exists. */
  predicate FleetLive(a: Agent, id: Text) {
    id in a.rooms && id in a.origins
  }

  // ----- snapshots -----

  function Listed(a: Agent, order: seq<Text>): seq<SyncRoom>
    requires KeySet(order) <= a.rooms.Keys
  {
    if order == [] then []
    else
      var room := a.rooms[order[0]];
      [SyncRoom(order[0], room.roomType, room.connections, order[0] in a.origins)] + Listed(a, order[1..])
  }

  function InsertRoom(r: SyncRoom, sorted: seq<SyncRoom>): seq<SyncRoom> {
    if sorted == [] || !C.Less(Utf16(sorted[0].id), Utf16(r.id)) then [r] + sorted
    else [sorted[0]] + InsertRoom(r, sorted[1..])
  }

  function SortRooms(rooms: seq<SyncRoom>): seq<SyncRoom> {
    if rooms == [] then [] else InsertRoom(rooms[0], SortRooms(rooms[1..]))
  }

  /** The snapshot content: configuration, sorted rooms and status. */
  function BuildContent(a: Agent): Content
    requires KeySet(a.order) <= a.rooms.Keys
  {
    a.config.(roomTypes := a.roomTypes, rooms := SortRooms(Listed(a, a.order)), status := a.status)
  }

  ghost predicate ListsId(rooms: seq<SyncRoom>, id: Text) {
    exists k :: 0 <= k < |rooms| && rooms[k].id == id
  }

  ghost predicate Reports(c: Content, id: Text) {
    ListsId(c.rooms, id)
  }

  lemma {:induction false} ListedIds(a: Agent, order: seq<Text>, id: Text)
    requires KeySet(order) <= a.rooms.Keys
    ensures ListsId(Listed(a, order), id) <==> id in KeySet(order)
  {
    if order != [] {
      ListedIds(a, order[1..], id);
      var all, rest := Listed(a, order), Listed(a, order[1..]);
      assert all[0].id == order[0];
      assert all[1..] == rest;
      if k :| 0 <= k < |rest| && rest[k].id == id {
        assert all[k + 1].id == id;
      }
      if k :| 0 <= k < |all| && all[k].id == id {
        assert k == 0 || rest[k - 1].id == id;
      }
    }
  }

  lemma {:induction false} InsertIds(r: SyncRoom, sorted: seq<SyncRoom>, id: Text)
    ensures ListsId(InsertRoom(r, sorted), id) <==> id == r.id || ListsId(sorted, id)
  {
    var all := InsertRoom(r, sorted);
    if sorted == [] || !C.Less(Utf16(sorted[0].id), Utf16(r.id)) {
      Prepended(r, sorted, id);
    } else {
      InsertIds(r, sorted[1..], id);
      Prepended(sorted[0], InsertRoom(r, sorted[1..]), id);
      Prepended(sorted[0], sorted[1..], id);
      assert sorted == [sorted[0]] + sorted[1..];
    }
  }

  lemma Prepended(r: SyncRoom, rooms: seq<SyncRoom>, id: Text)
    ensures ListsId([r] + rooms, id) <==> id == r.id || ListsId(rooms, id)
  {
    var all := [r] + rooms;
    assert all[0] == r;
    if k :| 0 <= k < |rooms| && rooms[k].id == id {
      assert all[k + 1].id == id;
    }
    if k :| 0 <= k < |all| && all[k].id == id {
      assert k == 0 || rooms[k - 1].id == id;
    }
  }

  lemma {:induction false} SortIds(rooms: seq<SyncRoom>, id: Text)
    ensures ListsId(SortRooms(rooms), id) <==> ListsId(rooms, id)
  {
    if rooms != [] {
      SortIds(rooms[1..], id);
      InsertIds(rooms[0], SortRooms(rooms[1..]), id);
      Prepended(rooms[0], rooms[1..], id);
      assert rooms == [rooms[0]] + rooms[1..];
    }
  }

  /** A snapshot lists exactly the rooms there are. */
  lemma ContentReports(a: Agent, id: Text)
    requires AgentValid(a)
    ensures Reports(BuildContent(a), id) <==> id in a.rooms
  {
    ListedIds(a, a.order, id);
    SortIds(Listed(a, a.order), id);
  }

  // ----- answering -----

  /** Full when the orchestrator's hash is missing or different; the counter advances either way. */
  function PollReply(a: Agent, reqId: nat, knownHash: Option<Hash>): (Agent, Up)
    requires KeySet(a.order) <= a.rooms.Keys
  {
    var content := BuildContent(a);
    var hash := HashOf(content);
    var next := a.(seqNo := a.seqNo + 1);
    (next, State(reqId, knownHash != Some(hash), Snapshot(next.seqNo, hash, content)))
  }

  function WithRoom(a: Agent, id: Text, roomType: Text, fleet: bool): Agent {
    a.(order := a.order + [id], rooms := a.rooms[id := LiveRoom(roomType, 0)],
       origins := if fleet then a.origins + {id} else a.origins)
  }

  function WithoutRoom(a: Agent, id: Text): Agent {
    a.(order := Ordered.Without(a.order, id), rooms := a.rooms - {id}, origins := a.origins - {id})
  }

  /** Create: refused when creation is off, the agent is full or the id exists; the room itself may refuse too. */
  function ExecCreate(a: Agent, cmdId: nat, id: Text, roomType: Text, succeeds: bool): (Agent, Up) {
    if !a.config.autoCreate then (a, Ack(cmdId, false, false))
    else if a.config.capacity.maxRooms.Some? && |a.order| >= a.config.capacity.maxRooms.value
      then (a, Ack(cmdId, false, false))
    else if id in a.rooms then (a, Ack(cmdId, false, true))
    else if !succeeds then (a, Ack(cmdId, false, false))
    else (WithRoom(a, id, roomType, true), Ack(cmdId, true, false))
  }

  /** Destroy: an absent room is already what was asked for. */
  function ExecDestroy(a: Agent, cmdId: nat, id: Text, succeeds: bool): (Agent, Up) {
    if id !in a.rooms then (a, Ack(cmdId, true, false))
    else if !succeeds then (a, Ack(cmdId, false, false))
    else (WithoutRoom(a, id), Ack(cmdId, true, false))
  }

  function ExecStatus(a: Agent, cmdId: nat, status: Status): (Agent, Up) {
    (a.(status := status), Ack(cmdId, true, false))
  }

  function OnCmd(a: Agent, cmdId: nat, op: Op, succeeds: bool): (Agent, Up) {
    match op
    case Create(id, roomType) => ExecCreate(a, cmdId, id, roomType, succeeds)
    case Destroy(id) => ExecDestroy(a, cmdId, id, succeeds)
    case Drain => ExecStatus(a, cmdId, Draining)
    case Undrain => ExecStatus(a, cmdId, Active)
  }

  /** A frame from the orchestrator, and the answer if there is one. */
  function Take(a: Agent, f: Down, succeeds: bool): (Agent, seq<Up>)
    requires KeySet(a.order) <= a.rooms.Keys
  {
    match f
    case Hello => (a.(seqNo := 0), [])
    case Poll(reqId, knownHash, _) => var (b, reply) := PollReply(a, reqId, knownHash); (b, [reply])
    case Cmd(cmdId, op) => var (b, ack) := OnCmd(a, cmdId, op, succeeds); (b, [ack])
  }

  // ----- what game code does to the rooms -----

  datatype Local =
    | RoomOpened(newId: Text, newType: Text)
    | RoomClosed(goneId: Text)
    | Traffic(busyId: Text, now: Count)
    | StatusFlipped(to: Status)
    | TypesDefined(types: seq<Text>)

  function Locally(a: Agent, l: Local): Agent {
    match l
    case RoomOpened(id, roomType) => if id in a.rooms then a else WithRoom(a, id, roomType, false)
    case RoomClosed(id) => if id in a.rooms then WithoutRoom(a, id) else a
    case Traffic(id, n) => if id in a.rooms then a.(rooms := a.rooms[id := a.rooms[id].(connections := n)]) else a
    case StatusFlipped(status) => a.(status := status)
    case TypesDefined(types) => a.(roomTypes := types)
  }

  lemma WithRoomValid(a: Agent, id: Text, roomType: Text, fleet: bool)
    requires AgentValid(a) && id !in a.rooms
    ensures AgentValid(WithRoom(a, id, roomType, fleet))
  {
    OrdersAppend(a.order, a.rooms, id, LiveRoom(roomType, 0));
  }

  lemma WithoutRoomValid(a: Agent, id: Text)
    requires AgentValid(a)
    ensures AgentValid(WithoutRoom(a, id))
  {
    OrdersWithout(a.order, a.rooms, id);
  }

  lemma TakeValid(a: Agent, f: Down, succeeds: bool)
    requires AgentValid(a)
    ensures AgentValid(Take(a, f, succeeds).0) && Take(a, f, succeeds).0.config == a.config
    ensures MarksLive(a) ==> MarksLive(Take(a, f, succeeds).0)
  {
    match f
    case Hello =>
    case Poll(_, _, _) =>
    case Cmd(cmdId, op) =>
      match op
      case Create(id, roomType) => if id !in a.rooms { WithRoomValid(a, id, roomType, true); }
      case Destroy(id) => WithoutRoomValid(a, id);
      case Drain =>
      case Undrain =>
  }

  lemma LocallyValid(a: Agent, l: Local)
    requires AgentValid(a)
    ensures AgentValid(Locally(a, l)) && Locally(a, l).config == a.config && Locally(a, l).seqNo == a.seqNo
    ensures MarksLive(a) ==> MarksLive(Locally(a, l)) && forall id :: FleetLive(Locally(a, l), id) ==> FleetLive(a, id)
  {
    match l
    case RoomOpened(id, roomType) => if id !in a.rooms { WithRoomValid(a, id, roomType, false); }
    case RoomClosed(id) => WithoutRoomValid(a, id);
    case Traffic(id, n) => assert Locally(a, l).rooms.Keys == a.rooms.Keys;
    case StatusFlipped(_) =>
    case TypesDefined(_) =>
  }
}
