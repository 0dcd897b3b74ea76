/** The event stream: differences between what was announced and the read model as it is now. */
module EventReconciling {
  import opened Prelude
  import opened Utf8
  import opened Ordered
  import opened FleetTypes
  import opened SnapshotHash

  datatype FleetStats = FleetStats(instances: nat, rooms: nat, connections: nat, roomTypes: seq<Text>, stateHash: Hash)

  datatype FleetEvent =
    | InstanceJoin(joined: InstanceInfo)
    | InstanceLeave(left: InstanceInfo)
    | InstanceStale(wedged: InstanceInfo)
    | RoomCreate(created: RoomInfo)
    | RoomDestroy(destroyed: RoomInfo)
    | Sync(stats: FleetStats)

  /** What has been announced, and the stream of announcements. */
  datatype Known = Known(
    ids: set<InstanceId>, order: seq<Text>, rooms: map<Text, RoomInfo>, lastStatsHash: Option<Hash>,
      log: seq<FleetEvent>)

  const NOTHING: Known := Known({}, [], map[], None, [])

  // ----- reconciling, as functions -----

  function Emit(k: Known, e: FleetEvent): Known {
    k.(log := k.log + [e])
  }

  function SeeRoom(k: Known, room: RoomInfo): Known {
    if room.id in k.rooms then k
    else Emit(k.(order := k.order + [room.id], rooms := k.rooms[room.id := room]), RoomCreate(room))
  }

  function SeeRooms(k: Known, rooms: seq<RoomInfo>): Known
    decreases rooms
  {
    if rooms == [] then k else SeeRooms(SeeRoom(k, rooms[0]), rooms[1..])
  }

  function SeeInstance(k: Known, info: InstanceInfo): Known {
    var joined := if info.id in k.ids then k else Emit(k.(ids := k.ids + {info.id}), InstanceJoin(info));
    SeeRooms(joined, info.rooms)
  }

  function SeeInstances(k: Known, instances: seq<InstanceInfo>): Known
    decreases instances
  {
    if instances == [] then k else SeeInstances(SeeInstance(k, instances[0]), instances[1..])
  }

  function DropRoom(k: Known, id: Text, current: set<Text>): Known {
    if id !in k.rooms || id in current then k
    else Emit(k.(order := Without(k.order, id), rooms := k.rooms - {id}), RoomDestroy(k.rooms[id]))
  }

  function DropRooms(k: Known, ids: seq<Text>, current: set<Text>): Known
    decreases ids
  {
    if ids == [] then k else DropRooms(DropRoom(k, ids[0], current), ids[1..], current)
  }

  function RoomIds(rooms: seq<RoomInfo>): set<Text> {
    if rooms == [] then {} else {rooms[0].id} + RoomIds(rooms[1..])
  }

  function CurrentRooms(instances: seq<InstanceInfo>): set<Text> {
    if instances == [] then {} else RoomIds(instances[0].rooms) + CurrentRooms(instances[1..])
  }

  function CurrentIds(instances: seq<InstanceInfo>): set<InstanceId> {
    if instances == [] then {} else {instances[0].id} + CurrentIds(instances[1..])
  }

  function Synced(k: Known, stats: FleetStats): Known {
    if k.lastStatsHash == Some(stats.stateHash) then k
    else Emit(k.(lastStatsHash := Some(stats.stateHash)), Sync(stats))
  }

  function Reconciled(k: Known, instances: seq<InstanceInfo>, stats: FleetStats): Known {
    var seen := SeeInstances(k, instances);
    var dropped := DropRooms(seen, seen.order, CurrentRooms(instances));
    Synced(dropped.(ids := dropped.ids * CurrentIds(instances)), stats)
  }

  function RemovedInstance(k: Known, removed: InstanceInfo): Known {
    Emit(k.(ids := k.ids - {removed.id}), InstanceLeave(removed))
  }

  // ----- the class -----

  class EventReconciler {
    var knownInstanceIds: set<InstanceId>
    var order: seq<Text>
    var knownRooms: map<Text, RoomInfo>
    var lastStatsHash: Option<Hash>
    /** What was emitted, oldest first. */
    var log: seq<FleetEvent>

    ghost function Model(): Known
      reads this
    {
      Known(knownInstanceIds, order, knownRooms, lastStatsHash, log)
    }

    constructor ()
      ensures Model() == NOTHING
    {
      knownInstanceIds, order, knownRooms, lastStatsHash, log := {}, [], map[], None, [];
    }

    method Reconcile(instances: seq<InstanceInfo>, stats: FleetStats)
      modifies this
      ensures Model() == Reconciled(old(Model()), instances, stats)
    {
      var currentIds, currentRooms := Announce(instances);
      Retire(currentRooms);
      knownInstanceIds := knownInstanceIds * currentIds;
      if lastStatsHash.None? || stats.stateHash != lastStatsHash.value {
        lastStatsHash := Some(stats.stateHash);
        log := log + [Sync(stats)];
      }
    }

    method Announce(instances: seq<InstanceInfo>) returns (currentIds: set<InstanceId>, currentRooms: set<Text>)
      modifies this
      ensures Model() == SeeInstances(old(Model()), instances)
      ensures currentIds == CurrentIds(instances) && currentRooms == CurrentRooms(instances)
    {
      currentIds, currentRooms := {}, {};
      var i := 0;
      while i < |instances|
        invariant 0 <= i <= |instances|
        invariant SeeInstances(Model(), instances[i..]) == SeeInstances(old(Model()), instances)
        invariant currentIds + CurrentIds(instances[i..]) == CurrentIds(instances)
        invariant currentRooms + CurrentRooms(instances[i..]) == CurrentRooms(instances)
      {
        var instance := instances[i];
        assert instances[i..] == [instance] + instances[i + 1..];
        currentIds := currentIds + {instance.id};
        AnnounceOne(instance);
        currentRooms := currentRooms + RoomIds(instance.rooms);
        i := i + 1;
      }
    }

    method AnnounceOne(instance: InstanceInfo)
      modifies this
      ensures Model() == SeeInstance(old(Model()), instance)
    {
      if instance.id !in knownInstanceIds {
        knownInstanceIds := knownInstanceIds + {instance.id};
        log := log + [InstanceJoin(instance)];
      }
      ghost var joined := Model();
      var j := 0;
      while j < |instance.rooms|
        invariant 0 <= j <= |instance.rooms|
        invariant SeeRooms(Model(), instance.rooms[j..]) == SeeRooms(joined, instance.rooms)
      {
        var room := instance.rooms[j];
        assert instance.rooms[j..] == [room] + instance.rooms[j + 1..];
        if room.id !in knownRooms {
          order, knownRooms := order + [room.id], knownRooms[room.id := room];
          log := log + [RoomCreate(room)];
        }
        j := j + 1;
      }
    }

    method Retire(current: set<Text>)
      modifies this
      ensures Model() == DropRooms(old(Model()), old(order), current)
    {
      var ids, i := order, 0;
      while i < |ids|
        invariant 0 <= i <= |ids|
        invariant DropRooms(Model(), ids[i..], current) == DropRooms(old(Model()), ids, current)
      {
        var id := ids[i];
        assert ids[i..] == [id] + ids[i + 1..];
        if id in knownRooms && id !in current {
          log := log + [RoomDestroy(knownRooms[id])];
          order, knownRooms := Without(order, id), knownRooms - {id};
        }
        i := i + 1;
      }
    }

    method InstanceRemoved(removed: InstanceInfo)
      modifies this
      ensures Model() == RemovedInstance(old(Model()), removed)
    {
      knownInstanceIds := knownInstanceIds - {removed.id};
      log := log + [InstanceLeave(removed)];
    }

    method EmitStale(info: InstanceInfo)
      modifies this
      ensures Model() == Emit(old(Model()), InstanceStale(info))
    {
      log := log + [InstanceStale(info)];
    }
  }
}
