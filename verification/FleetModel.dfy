/**
 * The fleet state as a value: the read model derived from snapshots, staleness and placement overrides,
 * and the reservations, with what every operation does to them.
 */
module FleetModel {
  import opened Prelude
  import opened Utf8
  import opened Ordered
  import opened FleetTypes
  import opened SnapshotHash
  import opened Resolution
  import opened PublicIds
  import opened Reservations
  import C = Canonical

  /** Connection records in the order their instances first appeared. */
  datatype Rows = Rows(order: seq<InstanceId>, records: Records, joinCounter: nat)

  datatype Fleet = Fleet(rows: Rows, stale: set<InstanceId>, pendingStatus: map<InstanceId, Status>, holds: Holds)

  const NO_FLEET: Fleet := Fleet(Rows([], map[], 0), {}, map[], NONE)

  ghost predicate RowsValid(r: Rows) {
    && Orders(r.order, r.records)
    && (forall i | i in r.records :: r.records[i].info.id == i && r.records[i].joinSeq <= r.joinCounter)
  }

  /** A full snapshot as it arrives. */
  datatype Snapshot = Snapshot(seqNo: nat, hash: Hash, content: Content)

  // ----- mutation -----

  function Applied(r: Rows, i: InstanceId, s: Snapshot, now: Time): Rows {
    var info := BuildInstanceInfo(i, s.content, now);
    if i in r.records then r.(records := r.records[i := Record(info, s.seqNo, s.hash, r.records[i].joinSeq)])
    else Rows(r.order + [i], r.records[i := Record(info, s.seqNo, s.hash, r.joinCounter + 1)], r.joinCounter + 1)
  }

  function ReconcilePendingStatus(f: Fleet, i: InstanceId): Fleet {
    if i in f.pendingStatus && i in f.rows.records && f.rows.records[i].info.status == f.pendingStatus[i]
    then f.(pendingStatus := f.pendingStatus - {i})
    else f
  }

  /** A frame that is not newer than the last applied one is dropped. */
  function ApplySnapshot(f: Fleet, i: InstanceId, s: Snapshot, now: Time): (Fleet, bool) {
    if i in f.rows.records && s.seqNo <= f.rows.records[i].lastSeq then (f, false)
    else (ReconcilePendingStatus(f.(rows := Applied(f.rows, i, s, now), holds := ClearPending(f.holds, i)), i), true)
  }

  function Touched(r: Rows, i: InstanceId, now: Time): Rows
    requires i in r.records
  {
    r.(records := r.records[i := r.records[i].(info := r.records[i].info.(lastSyncAt := now))])
  }

  function Touch(f: Fleet, i: InstanceId, now: Time): Fleet {
    if i !in f.rows.records then f
    else ReconcilePendingStatus(f.(rows := Touched(f.rows, i, now), holds := ClearPending(f.holds, i)), i)
  }

  function Removed(r: Rows, i: InstanceId): Rows {
    r.(order := Without(r.order, i), records := r.records - {i})
  }

  function RemoveInstance(f: Fleet, i: InstanceId): Fleet {
    if i !in f.rows.records then f
    else Fleet(Removed(f.rows, i), f.stale - {i}, f.pendingStatus - {i}, ClearPending(f.holds, i))
  }

  function SetStale(f: Fleet, i: InstanceId, stale: bool): Fleet {
    f.(stale := if stale then f.stale + {i} else f.stale - {i})
  }

  function SetPendingStatus(f: Fleet, i: InstanceId, s: Status): Fleet {
    if i in f.rows.records then f.(pendingStatus := f.pendingStatus[i := s]) else f
  }

  function LastHashOf(f: Fleet, i: InstanceId): Option<Hash> {
    if i in f.rows.records then Some(f.rows.records[i].lastHash) else None
  }

  lemma AppliedValid(r: Rows, i: InstanceId, s: Snapshot, now: Time)
    requires RowsValid(r)
    ensures RowsValid(Applied(r, i, s, now))
  {
    var info := BuildInstanceInfo(i, s.content, now);
    if i in r.records {
      var rec := Record(info, s.seqNo, s.hash, r.records[i].joinSeq);
      assert r.records[i := rec].Keys == r.records.Keys;
    } else {
      OrdersAppend(r.order, r.records, i, Record(info, s.seqNo, s.hash, r.joinCounter + 1));
    }
  }

  lemma TouchedValid(r: Rows, i: InstanceId, now: Time)
    requires RowsValid(r) && i in r.records
    ensures RowsValid(Touched(r, i, now))
  {
    assert Touched(r, i, now).records.Keys == r.records.Keys;
  }

  lemma RemovedValid(r: Rows, i: InstanceId)
    requires RowsValid(r)
    ensures RowsValid(Removed(r, i))
  {
    OrdersWithout(r.order, r.records, i);
  }

  // ----- queries -----

  /** The reported rooms of an instance under their public ids. */
  ghost function PublicRooms(m: Records, i: InstanceId, from: nat): seq<RoomInfo>
    requires i in m && from <= |m[i].info.rooms|
    decreases |m[i].info.rooms| - from
  {
    if from == |m[i].info.rooms| then []
    else [PublicRoom(m, Slot(i, from))] + PublicRooms(m, i, from + 1)
  }

  ghost function PublicRoom(m: Records, s: Slot): RoomInfo
    requires Present(m, s)
  {
    RoomAt(m, s).(id := PublicIdAt(m, s))
  }

  ghost function Resolved(m: Records, i: InstanceId): InstanceInfo
    requires i in m
  {
    m[i].info.(rooms := PublicRooms(m, i, 0))
  }

  ghost function Instances(order: seq<InstanceId>, m: Records): seq<InstanceInfo>
    requires KeySet(order) <= m.Keys
  {
    if order == [] then [] else [Resolved(m, order[0])] + Instances(order[1..], m)
  }

  /** A public id mapped to its room, owner and raw id. */
  datatype Locator = Locator(room: RoomInfo, instanceId: InstanceId, rawRoomId: Text)

  ghost function LocatorAt(m: Records, s: Slot): Locator
    requires Present(m, s)
  {
    Locator(PublicRoom(m, s), s.instance, RoomAt(m, s).id)
  }

  ghost function Locate(r: Rows, id: Text): Option<Locator>
    requires RowsValid(r)
  {
    PublicIndexFinds(r.order, r.records);
    if id in PublicIndex(r.order, r.records) then Some(LocatorAt(r.records, PublicIndex(r.order, r.records)[id]))
      else None
  }

  /** Every room of the fleet, instance by instance. */
  function AllRooms(instances: seq<InstanceInfo>): seq<RoomInfo> {
    if instances == [] then [] else instances[0].rooms + AllRooms(instances[1..])
  }

  function SumRooms(instances: seq<InstanceInfo>): nat {
    if instances == [] then 0 else |instances[0].rooms| + SumRooms(instances[1..])
  }

  function SumConnections(instances: seq<InstanceInfo>): nat {
    if instances == [] then 0 else instances[0].connections + SumConnections(instances[1..])
  }

  // ----- ids in use -----

  ghost predicate Taken(f: Fleet, id: Text)
    requires RowsValid(f.rows)
  {
    id in f.holds.reserved || id in f.holds.pending || Locate(f.rows, id).Some?
  }

  // ----- the semantic hash -----

  const INSTANCE_FIELDS: seq<string> :=
    ["id", "name", "processUid", "endpointUrl", "labels", "roomTypes", "connections", "capacity", "autoCreate",
     "status", "agentVersion", "protocolVersion", "rooms"]

  const PUBLIC_ROOM_FIELDS: seq<string> := ["id", "type", "connections", "instanceId", "endpointUrl", "local"]

  function IdJson(i: InstanceId): C.Json {
    C.Text(C.Decimal(i))
  }

  function PublicRoomValues(r: RoomInfo): seq<C.Json> {
    [StringJson(r.id), StringJson(r.roomType), C.Int(r.connections), IdJson(r.instanceId), StringJson(r.endpointUrl),
     C.Bool(r.local)]
  }

  function PublicRoomItems(rooms: seq<RoomInfo>): seq<C.Json> {
    if rooms == [] then []
    else [C.Obj(Fields(PUBLIC_ROOM_FIELDS, PublicRoomValues(rooms[0])))] + PublicRoomItems(rooms[1..])
  }

  function InstanceValues(x: InstanceInfo): seq<C.Json> {
    [IdJson(x.id), StringJson(x.name), StringJson(x.processUid), StringJson(x.endpointUrl), LabelsJson(x.labels),
     C.Arr(TypeItems(x.roomTypes)), C.Int(x.connections), CapacityJson(x.capacity), C.Bool(x.autoCreate),
     StatusJson(x.status), StringJson(x.agentVersion), C.Int(x.protocolVersion), C.Arr(PublicRoomItems(x.rooms))]
  }

  /** Everything but `lastSyncAt`. */
  function Projection(x: InstanceInfo): C.Json {
    C.Obj(Fields(INSTANCE_FIELDS, InstanceValues(x)))
  }

  function InsertById(x: InstanceInfo, sorted: seq<InstanceInfo>): seq<InstanceInfo> {
    if sorted == [] || x.id <= sorted[0].id then [x] + sorted else [sorted[0]] + InsertById(x, sorted[1..])
  }

  function SortById(instances: seq<InstanceInfo>): seq<InstanceInfo> {
    if instances == [] then [] else InsertById(instances[0], SortById(instances[1..]))
  }

  function Projections(instances: seq<InstanceInfo>): seq<C.Json> {
    if instances == [] then [] else [Projection(instances[0])] + Projections(instances[1..])
  }

  function ComputeStateHash(instances: seq<InstanceInfo>): Hash {
    Hash64(C.Arr(Projections(SortById(instances))))
  }
}
