/** What the fleet control plane talks about: snapshots, the read model's rows, and frames. */
module FleetTypes {
  import opened Prelude
  import opened Utf8

  /** Connection-scoped ids assigned by the transport: only compared, for equality and by their order. */
  type InstanceId = nat

  /** Milliseconds on the orchestrator's clock. */
  type Time = int

  type Count = n: nat | n <= MAX_SAFE

  datatype Status = Active | Draining

  datatype Capacity = Capacity(maxConnections: Option<Count>, maxRooms: Option<Count>)

  datatype Label = Label(key: Text, value: Text)

  /** A room as its agent reports it; `fleet` is its origin. */
  datatype SyncRoom = SyncRoom(id: Text, roomType: Text, connections: Count, fleet: bool)

  /** The semantic content of a snapshot: its body without `seq` and `hash`. */
  datatype Content = Content(
    name: Text, processUid: Text, agentVersion: Text, protocolVersion: Count, endpointUrl: Text,
    labels: seq<Label>, capacity: Capacity, autoCreate: bool, roomTypes: seq<Text>, rooms: seq<SyncRoom>,
      status: Status)

  datatype RoomInfo = RoomInfo(
    id: Text, roomType: Text, connections: Count, instanceId: InstanceId, endpointUrl: Text, local: bool)

  datatype InstanceInfo = InstanceInfo(
    id: InstanceId, name: Text, processUid: Text, endpointUrl: Text, labels: seq<Label>, roomTypes: seq<Text>,
    rooms: seq<RoomInfo>, connections: nat, capacity: Capacity, autoCreate: bool, status: Status, lastSyncAt: Time,
    agentVersion: Text, protocolVersion: Count)

  // ----- the read model's row for a snapshot -----

  function RoomInfoOf(i: InstanceId, endpointUrl: Text, r: SyncRoom): RoomInfo {
    RoomInfo(r.id, r.roomType, r.connections, i, endpointUrl, !r.fleet)
  }

  function RoomInfos(i: InstanceId, endpointUrl: Text, rooms: seq<SyncRoom>): (infos: seq<RoomInfo>)
    ensures |infos| == |rooms|
    ensures forall k :: 0 <= k < |rooms| ==> infos[k] == RoomInfoOf(i, endpointUrl, rooms[k])
  {
    if rooms == [] then [] else [RoomInfoOf(i, endpointUrl, rooms[0])] + RoomInfos(i, endpointUrl, rooms[1..])
  }

  function TotalConnections(rooms: seq<RoomInfo>): nat {
    if rooms == [] then 0 else rooms[0].connections + TotalConnections(rooms[1..])
  }

  function BuildInstanceInfo(i: InstanceId, c: Content, lastSyncAt: Time): InstanceInfo {
    var rooms := RoomInfos(i, c.endpointUrl, c.rooms);
    InstanceInfo(i, c.name, c.processUid, c.endpointUrl, c.labels, c.roomTypes, rooms, TotalConnections(rooms),
      c.capacity, c.autoCreate, c.status, lastSyncAt, c.agentVersion, c.protocolVersion)
  }

  /** The row determines the snapshot it was built from: nothing reported is lost. */
  lemma BuildInstanceInfoInjective(i: InstanceId, a: Content, b: Content, ta: Time, tb: Time)
    requires BuildInstanceInfo(i, a, ta).(lastSyncAt := 0) == BuildInstanceInfo(i, b, tb).(lastSyncAt := 0)
    ensures a == b
  {
    var x, y := BuildInstanceInfo(i, a, ta), BuildInstanceInfo(i, b, tb);
    assert x.rooms == y.rooms && x.endpointUrl == y.endpointUrl;
    forall k | 0 <= k < |a.rooms|
      ensures a.rooms[k] == b.rooms[k]
    {
      assert x.rooms[k] == RoomInfoOf(i, a.endpointUrl, a.rooms[k]);
      assert y.rooms[k] == RoomInfoOf(i, b.endpointUrl, b.rooms[k]);
    }
    assert a.rooms == b.rooms;
  }
}
