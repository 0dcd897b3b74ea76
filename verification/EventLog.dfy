/** The event stream replays to the read model. */
module EventLog {
  import opened Prelude
  import opened Utf8
  import opened Ordered
  import opened FleetTypes
  import opened SnapshotHash
  import opened EventReconciling

  // ----- folding the stream -----

  function RoomsAfter(live: map<Text, RoomInfo>, e: FleetEvent): map<Text, RoomInfo> {
    if e.RoomCreate? then live[e.created.id := e.created]
    else if e.RoomDestroy? then live - {e.destroyed.id}
    else live
  }

  function InstancesAfter(live: set<InstanceId>, e: FleetEvent): set<InstanceId> {
    if e.InstanceJoin? then live + {e.joined.id}
    else if e.InstanceLeave? then live - {e.left.id}
    else live
  }

  /** The rooms created and not destroyed, as they were announced. */
  function LiveRooms(log: seq<FleetEvent>): map<Text, RoomInfo> {
    if log == [] then map[] else RoomsAfter(LiveRooms(log[..|log| - 1]), log[|log| - 1])
  }

  function LiveInstances(log: seq<FleetEvent>): set<InstanceId> {
    if log == [] then {} else InstancesAfter(LiveInstances(log[..|log| - 1]), log[|log| - 1])
  }

  function LastSync(log: seq<FleetEvent>): Option<Hash> {
    if log == [] then None
    else if log[|log| - 1].Sync? then Some(log[|log| - 1].stats.stateHash)
    else LastSync(log[..|log| - 1])
  }

  /** An event that makes sense after those before it. */
  ghost predicate Allowed(before: seq<FleetEvent>, e: FleetEvent) {
    match e
    case RoomCreate(room) => room.id !in LiveRooms(before)
    case RoomDestroy(room) => room.id in LiveRooms(before) && LiveRooms(before)[room.id] == room
    case InstanceJoin(info) => info.id !in LiveInstances(before)
    case InstanceLeave(info) => info.id in LiveInstances(before)
    case Sync(stats) => LastSync(before) != Some(stats.stateHash)
    case InstanceStale(_) => true
  }

  /** Nothing is created while live or destroyed other than it was announced, and consecutive syncs differ. */
  ghost predicate Consistent(log: seq<FleetEvent>) {
    log == [] || (Consistent(log[..|log| - 1]) && Allowed(log[..|log| - 1], log[|log| - 1]))
  }

  /** What is known is what the stream says. */
  ghost predicate Faithful(k: Known) {
    && Consistent(k.log)
    && LiveRooms(k.log) == k.rooms && LiveInstances(k.log) == k.ids && LastSync(k.log) == k.lastStatsHash
    && KeySet(k.order) == k.rooms.Keys
    && forall id | id in k.rooms :: k.rooms[id].id == id
  }

  lemma EmitStep(log: seq<FleetEvent>, e: FleetEvent)
    ensures Consistent(log + [e]) <==> Consistent(log) && Allowed(log, e)
    ensures LiveRooms(log + [e]) == RoomsAfter(LiveRooms(log), e)
    ensures LiveInstances(log + [e]) == InstancesAfter(LiveInstances(log), e)
    ensures LastSync(log + [e]) == if e.Sync? then Some(e.stats.stateHash) else LastSync(log)
  {
    assert (log + [e])[..|log|] == log;
  }

  // ----- reconciling keeps the stream faithful and current -----

  lemma {:induction false} SeeRoomsFaithful(k: Known, rooms: seq<RoomInfo>)
    requires Faithful(k)
    ensures var r := SeeRooms(k, rooms);
      Faithful(r) && r.rooms.Keys == k.rooms.Keys + RoomIds(rooms) && r.ids == k.ids
        && r.lastStatsHash == k.lastStatsHash
    decreases rooms
  {
    if rooms != [] {
      var room := rooms[0];
      var next := SeeRoom(k, room);
      if room.id !in k.rooms {
        EmitStep(k.log, RoomCreate(room));
        KeySetSplits(k.order, [room.id]);
      }
      SeeRoomsFaithful(next, rooms[1..]);
    }
  }

  lemma SeeInstanceFaithful(k: Known, info: InstanceInfo)
    requires Faithful(k)
    ensures var r := SeeInstance(k, info);
      && Faithful(r) && r.rooms.Keys == k.rooms.Keys + RoomIds(info.rooms) && r.ids == k.ids + {info.id}
      && r.lastStatsHash == k.lastStatsHash
  {
    EmitStep(k.log, InstanceJoin(info));
    var joined := if info.id in k.ids then k else Emit(k.(ids := k.ids + {info.id}), InstanceJoin(info));
    SeeRoomsFaithful(joined, info.rooms);
  }

  lemma {:induction false} SeeInstancesFaithful(k: Known, instances: seq<InstanceInfo>)
    requires Faithful(k)
    ensures var r := SeeInstances(k, instances);
      && Faithful(r) && r.rooms.Keys == k.rooms.Keys + CurrentRooms(instances) && r.ids == k.ids + CurrentIds(instances)
      && r.lastStatsHash == k.lastStatsHash
    decreases instances
  {
    if instances != [] {
      SeeInstanceFaithful(k, instances[0]);
      SeeInstancesFaithful(SeeInstance(k, instances[0]), instances[1..]);
    }
  }

  lemma {:induction false} DropRoomsFaithful(k: Known, ids: seq<Text>, current: set<Text>)
    requires Faithful(k)
    ensures var r := DropRooms(k, ids, current);
      && Faithful(r) && r.rooms.Keys == k.rooms.Keys - (KeySet(ids) - current) && r.ids == k.ids
      && r.lastStatsHash == k.lastStatsHash
    decreases ids
  {
    if ids != [] {
      var id := ids[0];
      if id in k.rooms && id !in current {
        DropRoomFaithful(k, id);
      }
      DropRoomsFaithful(DropRoom(k, id, current), ids[1..], current);
    }
  }

  lemma DropRoomFaithful(k: Known, id: Text)
    requires Faithful(k) && id in k.rooms
    ensures Faithful(Emit(k.(order := Without(k.order, id), rooms := k.rooms - {id}), RoomDestroy(k.rooms[id])))
  {
    EmitStep(k.log, RoomDestroy(k.rooms[id]));
    KeySetWithout(k.order, id);
  }

  /** After every reconcile the stream folds to exactly the current public room ids and instances. */
  lemma ReconcileReplays(k: Known, instances: seq<InstanceInfo>, stats: FleetStats)
    requires Faithful(k) && k.ids <= CurrentIds(instances)
    ensures var r := Reconciled(k, instances, stats);
      && Faithful(r)
      && LiveRooms(r.log).Keys == CurrentRooms(instances) && LiveInstances(r.log) == CurrentIds(instances)
      && LastSync(r.log) == Some(stats.stateHash)
  {
    var seen := SeeInstances(k, instances);
    SeeInstancesFaithful(k, instances);
    var dropped := DropRooms(seen, seen.order, CurrentRooms(instances));
    DropRoomsFaithful(seen, seen.order, CurrentRooms(instances));
    assert dropped.ids * CurrentIds(instances) == CurrentIds(instances);
    EmitStep(dropped.log, Sync(stats));
  }

  /** A removal is announced before the rooms it takes along are retired. */
  lemma RemovalFaithful(k: Known, removed: InstanceInfo)
    requires Faithful(k) && removed.id in k.ids
    ensures Faithful(RemovedInstance(k, removed)) && RemovedInstance(k, removed).ids == k.ids - {removed.id}
  {
    EmitStep(k.log, InstanceLeave(removed));
  }

  lemma StaleFaithful(k: Known, info: InstanceInfo)
    requires Faithful(k)
    ensures Faithful(Emit(k, InstanceStale(info)))
  {
    EmitStep(k.log, InstanceStale(info));
  }

  // ----- what the events carry -----

  /** A join or a new room as it is now, a lost room as it was announced, and the totals of now. */
  ghost predicate Carries(k: Known, instances: seq<InstanceInfo>, stats: FleetStats, e: FleetEvent) {
    match e
    case InstanceJoin(x) => x in instances && x.id !in k.ids
    case RoomCreate(r) => r.id !in k.rooms && exists x :: x in instances && r in x.rooms
    case RoomDestroy(r) => r.id in k.rooms && k.rooms[r.id] == r && forall x, y :: x in instances && y in x.rooms ==>
      y.id != r.id
    case Sync(s) => s == stats
    case InstanceLeave(_) => false
    case InstanceStale(_) => false
  }

  /** The stream goes on from where it was, with such events only. */
  ghost predicate NewsSince(k: Known, instances: seq<InstanceInfo>, stats: FleetStats, log: seq<FleetEvent>) {
    k.log <= log && forall q :: |k.log| <= q < |log| ==> Carries(k, instances, stats, log[q])
  }

  lemma EmitNews(k: Known, instances: seq<InstanceInfo>, stats: FleetStats, log: seq<FleetEvent>, e: FleetEvent)
    requires NewsSince(k, instances, stats, log) && Carries(k, instances, stats, e)
    ensures NewsSince(k, instances, stats, log + [e])
  {
    hide Carries;
  }

  /** What was known still is. */
  ghost predicate Kept(k: Known, r: Known) {
    k.ids <= r.ids && forall id | id in k.rooms :: id in r.rooms && r.rooms[id] == k.rooms[id]
  }

  lemma {:induction false} SeeRoomsNews(k: Known, all: seq<InstanceInfo>, stats: FleetStats, r: Known, x: InstanceInfo,
                                        rooms: seq<RoomInfo>)
    requires x in all && forall y :: y in rooms ==> y in x.rooms
    requires NewsSince(k, all, stats, r.log) && Kept(k, r)
    ensures NewsSince(k, all, stats, SeeRooms(r, rooms).log) && Kept(k, SeeRooms(r, rooms))
    decreases rooms
  {
    hide NewsSince;
    if rooms != [] {
      if rooms[0].id !in r.rooms {
        assert rooms[0] in x.rooms;
        EmitNews(k, all, stats, r.log, RoomCreate(rooms[0]));
      }
      SeeRoomsNews(k, all, stats, SeeRoom(r, rooms[0]), x, rooms[1..]);
    }
  }

  lemma SeeInstanceNews(k: Known, all: seq<InstanceInfo>, stats: FleetStats, r: Known, x: InstanceInfo)
    requires x in all && NewsSince(k, all, stats, r.log) && Kept(k, r)
    ensures NewsSince(k, all, stats, SeeInstance(r, x).log) && Kept(k, SeeInstance(r, x))
  {
    hide NewsSince, SeeRooms;
    var joined := if x.id in r.ids then r else Emit(r.(ids := r.ids + {x.id}), InstanceJoin(x));
    if x.id !in r.ids {
      EmitNews(k, all, stats, r.log, InstanceJoin(x));
    }
    SeeRoomsNews(k, all, stats, joined, x, x.rooms);
  }

  lemma {:induction false} SeeInstancesNews(k: Known, all: seq<InstanceInfo>, stats: FleetStats, r: Known,
                                            instances: seq<InstanceInfo>)
    requires forall x :: x in instances ==> x in all
    requires NewsSince(k, all, stats, r.log) && Kept(k, r)
    ensures NewsSince(k, all, stats, SeeInstances(r, instances).log) && Kept(k, SeeInstances(r, instances))
    decreases instances
  {
    hide NewsSince, Kept, SeeInstance;
    if instances != [] {
      SeeInstanceNews(k, all, stats, r, instances[0]);
      SeeInstancesNews(k, all, stats, SeeInstance(r, instances[0]), instances[1..]);
    }
  }

  lemma {:induction false} RoomIdsHas(rooms: seq<RoomInfo>, y: RoomInfo)
    requires y in rooms
    ensures y.id in RoomIds(rooms)
  {
    if y != rooms[0] {
      RoomIdsHas(rooms[1..], y);
    }
  }

  lemma {:induction false} CurrentRoomsHas(instances: seq<InstanceInfo>, x: InstanceInfo, y: RoomInfo)
    requires x in instances && y in x.rooms
    ensures y.id in CurrentRooms(instances)
  {
    RoomIdsHas(x.rooms, y);
    if x != instances[0] {
      CurrentRoomsHas(instances[1..], x, y);
    }
  }

  /** What is known but not current was known before, under the same announcement. */
  ghost predicate OldOrCurrent(k: Known, r: Known, current: set<Text>) {
    forall id | id in r.rooms && id !in current ::
      id in k.rooms && r.rooms[id] == k.rooms[id] && r.rooms[id].id == id
  }

  lemma {:induction false} DropRoomsNews(k: Known, all: seq<InstanceInfo>, stats: FleetStats, r: Known, ids: seq<Text>)
    requires NewsSince(k, all, stats, r.log) && OldOrCurrent(k, r, CurrentRooms(all))
    ensures NewsSince(k, all, stats, DropRooms(r, ids, CurrentRooms(all)).log)
    decreases ids
  {
    hide NewsSince, CurrentRooms;
    if ids != [] {
      if ids[0] in r.rooms && ids[0] !in CurrentRooms(all) {
        LostIsGone(all, ids[0]);
        EmitNews(k, all, stats, r.log, RoomDestroy(r.rooms[ids[0]]));
      }
      DropRoomsNews(k, all, stats, DropRoom(r, ids[0], CurrentRooms(all)), ids[1..]);
    }
  }

  lemma LostIsGone(all: seq<InstanceInfo>, id: Text)
    requires id !in CurrentRooms(all)
    ensures forall x, y :: x in all && y in x.rooms ==> y.id != id
  {
    forall x, y | x in all && y in x.rooms
      ensures y.id != id
    {
      CurrentRoomsHas(all, x, y);
    }
  }

  /** A reconcile announces what is new as it is, what is gone as it was announced, and the totals, and nothing else. */
  lemma ReconcileCarries(k: Known, instances: seq<InstanceInfo>, stats: FleetStats)
    requires Faithful(k)
    ensures NewsSince(k, instances, stats, Reconciled(k, instances, stats).log)
  {
    hide NewsSince, Faithful, CurrentRooms, CurrentIds;
    NothingNew(k, instances, stats);
    SeeInstancesNews(k, instances, stats, k, instances);
    var seen, current := SeeInstances(k, instances), CurrentRooms(instances);
    SeenIsOldOrCurrent(k, instances);
    DropRoomsNews(k, instances, stats, seen, seen.order);
    EmitNews(k, instances, stats, DropRooms(seen, seen.order, current).log, Sync(stats));
  }

  lemma NothingNew(k: Known, instances: seq<InstanceInfo>, stats: FleetStats)
    ensures NewsSince(k, instances, stats, k.log) && Kept(k, k)
  {
  }

  lemma SeenIsOldOrCurrent(k: Known, instances: seq<InstanceInfo>)
    requires Faithful(k) && Kept(k, SeeInstances(k, instances))
    ensures OldOrCurrent(k, SeeInstances(k, instances), CurrentRooms(instances))
  {
    SeeInstancesFaithful(k, instances);
  }
}
