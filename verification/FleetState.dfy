/** The fleet state as the orchestrator keeps it: maps updated in place, and a memoised resolution. */
module FleetStates {
  import opened Prelude
  import opened Utf8
  import opened RoomId
  import opened Ordered
  import opened FleetTypes
  import opened SnapshotHash
  import opened Resolution
  import opened PublicIds
  import opened Reservations
  import opened FleetModel
  import opened StateHash
  import opened RoomTypes
  import opened ResolutionView
  import opened EventReconciling
  import opened Placement

  // ----- the memo and recomputation -----

  ghost predicate LocatesAll(order: seq<InstanceId>, m: Records, found: map<Text, Locator>)
    requires Orders(order, m)
  {
    AllPresent(order, m);
    Locates(m, Slots(order, m), found)
  }

  ghost function StateHashOf(r: Rows): Hash
    requires RowsValid(r)
  {
    ComputeStateHash(Instances(r.order, r.records))
  }

  /** The memo is what recomputing from the records would give. */
  ghost predicate ViewCoherent(r: Rows, v: View)
    requires RowsValid(r)
    reads v.instances
  {
    && Holding(v.instances, Instances(r.order, r.records))
    && Shared(r.order, v.instances, v.byId)
    && LocatesAll(r.order, r.records, v.byPublicId)
  }

  /** The same records but for the last sync times. */
  ghost predicate SameButSync(m: Records, n: Records) {
    && m.Keys == n.Keys
    && forall i | i in m :: n[i].joinSeq == m[i].joinSeq && n[i].info.(lastSyncAt := 0) == m[i].info.(lastSyncAt := 0)
  }

  lemma SameRooms(m: Records, n: Records, s: Slot)
    requires SameButSync(m, n)
    ensures Present(m, s) <==> Present(n, s)
    ensures Present(m, s) ==> RoomAt(n, s) == RoomAt(m, s)
  {
    if s.instance in m {
      assert n[s.instance].info.(lastSyncAt := 0) == m[s.instance].info.(lastSyncAt := 0);
      assert n[s.instance].info.rooms == n[s.instance].info.(lastSyncAt := 0).rooms;
      assert m[s.instance].info.rooms == m[s.instance].info.(lastSyncAt := 0).rooms;
    }
  }

  lemma SamePublicIds(m: Records, n: Records, s: Slot)
    requires SameButSync(m, n) && Present(m, s)
    ensures Present(n, s) && PublicRoom(n, s) == PublicRoom(m, s) && LocatorAt(n, s) == LocatorAt(m, s)
    ensures PublicIdAt(n, s) == PublicIdAt(m, s)
  {
    SameRooms(m, n, s);
    forall t
      ensures Rivals(n, s, t) <==> Rivals(m, s, t)
      ensures Rivals(m, s, t) ==> (Precedes(n, s, t) <==> Precedes(m, s, t))
    {
      SameRooms(m, n, t);
    }
    assert Keeps(n, s) <==> Keeps(m, s);
    assert n[s.instance].info.(lastSyncAt := 0).processUid == m[s.instance].info.(lastSyncAt := 0).processUid;
  }

  lemma {:induction false} SamePublicRooms(m: Records, n: Records, i: InstanceId, from: nat)
    requires SameButSync(m, n) && i in m && from <= |m[i].info.rooms|
    ensures |n[i].info.rooms| == |m[i].info.rooms| && PublicRooms(n, i, from) == PublicRooms(m, i, from)
    decreases |m[i].info.rooms| - from
  {
    assert n[i].info.(lastSyncAt := 0).rooms == m[i].info.(lastSyncAt := 0).rooms;
    if from < |m[i].info.rooms| {
      SamePublicIds(m, n, Slot(i, from));
      SamePublicRooms(m, n, i, from + 1);
    }
  }

  lemma SameResolved(m: Records, n: Records, i: InstanceId)
    requires SameButSync(m, n) && i in m
    ensures Resolved(n, i) == Resolved(m, i).(lastSyncAt := n[i].info.lastSyncAt)
  {
    SamePublicRooms(m, n, i, 0);
    assert n[i].info.(lastSyncAt := 0) == m[i].info.(lastSyncAt := 0);
  }

  lemma {:induction false} SameIndex(m: Records, n: Records, slots: seq<Slot>)
    requires SameButSync(m, n) && forall s | s in KeySet(slots) :: Present(m, s)
    ensures (forall s | s in KeySet(slots) :: Present(n, s)) && Index(n, slots) == Index(m, slots)
    decreases slots
  {
    forall s | s in KeySet(slots)
      ensures Present(n, s)
    {
      SameRooms(m, n, s);
    }
    if slots != [] {
      FrontAndLast(slots);
      SamePublicIds(m, n, slots[|slots| - 1]);
      SameIndex(m, n, slots[..|slots| - 1]);
    }
  }

  lemma {:induction false} SameSlots(order: seq<InstanceId>, m: Records, n: Records)
    requires SameButSync(m, n) && KeySet(order) <= m.Keys
    ensures Slots(order, n) == Slots(order, m)
  {
    if order != [] {
      assert n[order[0]].info.(lastSyncAt := 0).rooms == m[order[0]].info.(lastSyncAt := 0).rooms;
      SameSlots(order[1..], m, n);
    }
  }

  lemma SameLocators(order: seq<InstanceId>, m: Records, n: Records, found: map<Text, Locator>)
    requires Orders(order, m) && SameButSync(m, n) && LocatesAll(order, m, found)
    ensures Orders(order, n) && LocatesAll(order, n, found)
  {
    AllPresent(order, m);
    AllPresent(order, n);
    SameSlots(order, m, n);
    SameIndex(m, n, Slots(order, m));
    forall id | id in found
      ensures Present(n, Index(n, Slots(order, n))[id]) && found[id] == LocatorAt(n, Index(n, Slots(order, n))[id])
    {
      SamePublicIds(m, n, Index(m, Slots(order, m))[id]);
    }
  }

  /** Touching one record changes exactly its own row, in its last sync time. */
  lemma {:induction false} TouchedInstances(order: seq<InstanceId>, m: Records, n: Records, i: InstanceId)
    requires SameButSync(m, n) && KeySet(order) <= m.Keys
    requires forall j | j in m && j != i :: n[j] == m[j]
    ensures |Instances(order, n)| == |Instances(order, m)| == |order|
    ensures forall a | 0 <= a < |order| ::
      order[a] in m && Instances(order, n)[a] == Instances(order, m)[a].(lastSyncAt := n[order[a]].info.lastSyncAt)
    ensures Timeless(Instances(order, n)) == Timeless(Instances(order, m))
  {
    if order != [] {
      SameResolved(m, n, order[0]);
      hide Resolved, SameButSync;
      TouchedInstances(order[1..], m, n, i);
      assert Instances(order, n)[1..] == Instances(order[1..], n);
      assert Instances(order, m)[1..] == Instances(order[1..], m);
    }
  }

  /** One shared object moves; the list and the map see the same change, and no other row moves with it. */
  method RefreshCell(v: View, ghost order: seq<InstanceId>, ghost before: seq<InstanceInfo>,
                     ghost after: seq<InstanceInfo>,
                     i: InstanceId, t: Time)
    requires Shared(order, v.instances, v.byId) && Holding(v.instances, before) && i in v.byId
    requires |after| == |before|
    requires forall a | 0 <= a < |order| ::
      before[a].id == order[a] && after[a] == if order[a] == i then before[a].(lastSyncAt := t) else before[a]
    modifies v.instances
    ensures Holding(v.instances, after)
  {
    ghost var at := KeyPosition(order, i);
    var cell := v.byId[i];
    assert cell == v.instances[at];
    forall a | 0 <= a < |order| && order[a] != i
      ensures v.instances[a] != cell
    {
      assert v.instances[a].Value().id == order[a] && cell.Value().id == i;
    }
    cell.lastSyncAt := t;
  }

  lemma {:induction false} InstanceIds(r: Rows, order: seq<InstanceId>)
    requires RowsValid(r) && KeySet(order) <= r.records.Keys
    ensures |Instances(order, r.records)| == |order|
    ensures forall a | 0 <= a < |order| :: Instances(order, r.records)[a].id == order[a]
  {
    if order != [] {
      InstanceIds(r, order[1..]);
    }
  }

  lemma TouchedIsSame(r: Rows, i: InstanceId, t: Time)
    requires i in r.records
    ensures SameButSync(r.records, Touched(r, i, t).records)
  {
    var n := Touched(r, i, t).records;
    assert n[i].info.(lastSyncAt := 0) == r.records[i].info.(lastSyncAt := 0);
  }

  lemma TouchMovesOneRow(r: Rows, i: InstanceId, t: Time) returns (after: seq<InstanceInfo>)
    requires RowsValid(r) && i in r.records
    ensures RowsValid(Touched(r, i, t)) && after == Instances(r.order, Touched(r, i, t).records)
    ensures var before := Instances(r.order, r.records);
      && |after| == |before| == |r.order|
      && ComputeStateHash(after) == ComputeStateHash(before)
      && forall a | 0 <= a < |r.order| ::
        before[a].id == r.order[a] && after[a] == if r.order[a] == i then before[a].(lastSyncAt := t) else before[a]
  {
    var n := Touched(r, i, t).records;
    TouchedValid(r, i, t);
    TouchedIsSame(r, i, t);
    after := Instances(r.order, n);
    TouchedInstances(r.order, r.records, n, i);
    InstanceIds(r, r.order);
    UntouchedInstances(r.order, r.records);
    HashIgnoresLastSync(after, Instances(r.order, r.records));
  }

  lemma {:induction false} UntouchedInstances(order: seq<InstanceId>, m: Records)
    requires KeySet(order) <= m.Keys
    ensures |Instances(order, m)| == |order|
    ensures forall a | 0 <= a < |order| ::
      order[a] in m && Instances(order, m)[a].lastSyncAt == m[order[a]].info.lastSyncAt
  {
    if order != [] {
      UntouchedInstances(order[1..], m);
    }
  }

  lemma TouchKeepsHash(r: Rows, i: InstanceId, t: Time)
    requires RowsValid(r) && i in r.records
    ensures RowsValid(Touched(r, i, t)) && StateHashOf(Touched(r, i, t)) == StateHashOf(r)
  {
    var after := TouchMovesOneRow(r, i, t);
  }

  lemma TouchKeepsLocators(r: Rows, i: InstanceId, t: Time, found: map<Text, Locator>)
    requires RowsValid(r) && i in r.records && LocatesAll(r.order, r.records, found)
    ensures Orders(r.order, Touched(r, i, t).records) && LocatesAll(r.order, Touched(r, i, t).records, found)
  {
    TouchedIsSame(r, i, t);
    SameLocators(r.order, r.records, Touched(r, i, t).records, found);
  }

  /** The memoised view moves along with the record. */
  method TouchView(ghost r: Rows, v: View, i: InstanceId, t: Time)
    requires RowsValid(r) && i in r.records && ViewCoherent(r, v)
    modifies v.instances
    ensures RowsValid(Touched(r, i, t)) && ViewCoherent(Touched(r, i, t), v)
  {
    ghost var before := Instances(r.order, r.records);
    ghost var after := TouchMovesOneRow(r, i, t);
    TouchKeepsLocators(r, i, t, v.byPublicId);
    if i in v.byId {
      RefreshCell(v, r.order, before, after, i, t);
    }
  }

  // ----- reserving an id -----

  const MAX_ATTEMPTS: nat := 1000

  /** The first drawn id that is not in use, within the attempts allowed. */
  ghost function FirstFree(f: Fleet, draws: seq<Text>, attempts: nat): Option<Text>
    requires RowsValid(f.rows)
    decreases attempts
  {
    if attempts == 0 || draws == [] then None
    else if !Taken(f, draws[0]) then Some(draws[0])
    else FirstFree(f, draws[1..], attempts - 1)
  }

  ghost function IdToReserve(f: Fleet, roomId: Option<Text>, draws: seq<Text>): Result<Text, FleetError>
    requires RowsValid(f.rows)
  {
    match roomId
    case None => (match FirstFree(f, draws, MAX_ATTEMPTS)
      case None => Err(RoomIdTaken)
      case Some(id) => Ok(id))
    case Some(id) =>
      if !IsValidRoomId(id) then Err(ValidationFailed)
      else if Taken(f, id) then Err(RoomIdTaken)
      else Ok(id)
  }

  ghost function WithReserved(f: Fleet, id: Result<Text, FleetError>): Fleet {
    if id.Ok? then f.(holds := ReserveId(f.holds, id.value)) else f
  }

  // ----- the class -----

  class FleetState {
    /** Records with their iteration order, and the join counter. */
    var rows: Rows

    var reservations: map<nat, InstanceId>
    var reservedByInstance: Counts
    var reservationSeq: nat
    var reservedRoomIds: set<Text>
    var pendingRoomIds: map<Text, InstanceId>
    var pendingByInstance: Counts

    var staleInstances: set<InstanceId>
    var pendingStatus: map<InstanceId, Status>

    var resolvedView: Option<View>
    var cachedStateHash: Option<Hash>

    ghost function HoldsModel(): Holds
      reads `reservations, `reservedByInstance, `reservationSeq, `reservedRoomIds, `pendingRoomIds, `pendingByInstance
    {
      Holds(reservations, reservedByInstance, reservationSeq, reservedRoomIds, pendingRoomIds, pendingByInstance)
    }

    ghost function Model(): Fleet
      reads this
    {
      Fleet(rows, staleInstances, pendingStatus, HoldsModel())
    }

    /** The shared rows of the current view. */
    ghost function Cells(): seq<Cached>
      reads `resolvedView
    {
      if resolvedView.Some? then resolvedView.value.instances else []
    }

    /** Whatever is memoised equals what recomputing would give. */
    ghost predicate Coherent()
      requires RowsValid(rows)
      reads `rows, `resolvedView, `cachedStateHash, Cells()
    {
      && (resolvedView.Some? ==> ViewCoherent(rows, resolvedView.value))
      && (cachedStateHash.Some? ==> cachedStateHash.value == StateHashOf(rows))
    }

    ghost predicate Valid()
      reads this, Cells()
    {
      RowsValid(rows) && Coherent()
    }

    constructor ()
      ensures Model() == NO_FLEET && Valid() && Cells() == []
    {
      rows := Rows([], map[], 0);
      reservations, reservedByInstance, reservationSeq := map[], map[], 0;
      reservedRoomIds, pendingRoomIds, pendingByInstance := {}, map[], map[];
      staleInstances, pendingStatus := {}, map[];
      resolvedView, cachedStateHash := None, None;
    }

    // ----- snapshots -----

    method ApplySnapshot(instanceId: InstanceId, payload: Snapshot, lastSyncAt: Time) returns (applied: bool)
      requires Valid()
      modifies this
      ensures Valid()
      ensures (Model(), applied) == FleetModel.ApplySnapshot(old(Model()), instanceId, payload, lastSyncAt)
      ensures applied ==> Cells() == []
      ensures !applied ==> Cells() == old(Cells())
    {
      if instanceId in rows.records && payload.seqNo <= rows.records[instanceId].lastSeq {
        return false;
      }
      ApplyRow(instanceId, payload, lastSyncAt);
      Settle(instanceId);
      return true;
    }

    method ApplyRow(instanceId: InstanceId, payload: Snapshot, lastSyncAt: Time)
      requires RowsValid(rows)
      modifies `rows, `resolvedView, `cachedStateHash
      ensures Valid() && Cells() == [] && rows == Applied(old(rows), instanceId, payload, lastSyncAt)
    {
      AppliedValid(rows, instanceId, payload, lastSyncAt);
      var info := BuildInstanceInfo(instanceId, payload.content, lastSyncAt);
      if instanceId in rows.records {
        var joinSeq := rows.records[instanceId].joinSeq;
        rows := rows.(records := rows.records[instanceId := Record(info, payload.seqNo, payload.hash, joinSeq)]);
      } else {
        var joinSeq := rows.joinCounter + 1;
        rows := Rows(rows.order + [instanceId],
                     rows.records[instanceId := Record(info, payload.seqNo, payload.hash, joinSeq)], joinSeq);
      }
      Invalidate();
    }

    /** The row is current truth: holds of the instance have served, and so may have its placement override. */
    method Settle(instanceId: InstanceId)
      requires Valid()
      modifies `pendingRoomIds, `pendingByInstance, `pendingStatus
      ensures Valid()
      ensures Model() == ReconcilePendingStatus(old(Model()).(holds := ClearPending(old(HoldsModel()), instanceId)),
        instanceId)
    {
      ClearPendingVisibility(instanceId);
      ReconcileStatus(instanceId);
    }

    method Invalidate()
      modifies `resolvedView, `cachedStateHash
      ensures resolvedView == None && cachedStateHash == None
    {
      resolvedView, cachedStateHash := None, None;
    }

    method ClearPendingVisibility(instanceId: InstanceId)
      modifies `pendingRoomIds, `pendingByInstance
      ensures HoldsModel() == ClearPending(old(HoldsModel()), instanceId)
    {
      if instanceId !in pendingByInstance {
        return;
      }
      pendingRoomIds := map r | r in pendingRoomIds && pendingRoomIds[r] != instanceId :: pendingRoomIds[r];
      pendingByInstance := pendingByInstance - {instanceId};
      assert pendingRoomIds == old(pendingRoomIds) - Owned(old(pendingRoomIds), instanceId);
    }

    method ReconcileStatus(instanceId: InstanceId)
      modifies `pendingStatus
      ensures Model() == ReconcilePendingStatus(old(Model()), instanceId)
    {
      if instanceId in pendingStatus && instanceId in rows.records
        && rows.records[instanceId].info.status == pendingStatus[instanceId] {
        pendingStatus := pendingStatus - {instanceId};
      }
    }

    /** A hash-only reply: the row's time moves, in the record and in the shared object callers may hold. */
    method Touch(instanceId: InstanceId, lastSyncAt: Time)
      requires Valid()
      modifies this, Cells()
      ensures Valid()
      ensures Model() == FleetModel.Touch(old(Model()), instanceId, lastSyncAt)
      ensures Cells() == old(Cells())
    {
      if instanceId !in rows.records {
        return;
      }
      hide ViewCoherent, Touched, ClearPending, ReconcilePendingStatus, RowsValid;
      TouchRow(instanceId, lastSyncAt);
      Settle(instanceId);
    }

    method TouchRow(instanceId: InstanceId, lastSyncAt: Time)
      requires RowsValid(rows) && Coherent() && instanceId in rows.records
      modifies `rows, Cells()
      ensures rows == Touched(old(rows), instanceId, lastSyncAt) && RowsValid(rows) && Coherent()
      ensures Model() == old(Model()).(rows := rows) && Cells() == old(Cells())
    {
      hide ComputeStateHash, Touched;
      ghost var before := rows;
      TouchKeepsHash(rows, instanceId, lastSyncAt);
      rows := Touched(rows, instanceId, lastSyncAt);
      if resolvedView.Some? {
        TouchView(before, resolvedView.value, instanceId, lastSyncAt);
      }
    }

    method RemoveInstance(instanceId: InstanceId) returns (removed: Option<InstanceInfo>)
      requires Valid()
      modifies this
      ensures Valid()
      ensures Model() == FleetModel.RemoveInstance(old(Model()), instanceId)
      ensures removed == if instanceId in old(rows).records then Some(old(rows).records[instanceId].info) else None
      ensures Cells() == (if instanceId in old(rows).records then [] else old(Cells()))
    {
      if instanceId !in rows.records {
        return None;
      }
      hide ViewCoherent, ClearPending;
      removed := Some(rows.records[instanceId].info);
      RemoveRow(instanceId);
      RemoveMarks(instanceId);
    }

    method RemoveMarks(instanceId: InstanceId)
      modifies `staleInstances, `pendingStatus, `pendingRoomIds, `pendingByInstance
      ensures staleInstances == old(staleInstances) - {instanceId}
      ensures pendingStatus == old(pendingStatus) - {instanceId}
      ensures HoldsModel() == ClearPending(old(HoldsModel()), instanceId)
    {
      staleInstances := staleInstances - {instanceId};
      pendingStatus := pendingStatus - {instanceId};
      ClearPendingVisibility(instanceId);
    }

    method RemoveRow(instanceId: InstanceId)
      requires RowsValid(rows)
      modifies `rows, `resolvedView, `cachedStateHash
      ensures Valid() && Cells() == [] && rows == Removed(old(rows), instanceId)
    {
      RemovedValid(rows, instanceId);
      rows := Removed(rows, instanceId);
      Invalidate();
    }

    method SetStale(instanceId: InstanceId, stale: bool)
      requires Valid()
      modifies `staleInstances
      ensures Valid() && Cells() == old(Cells()) && Model() == FleetModel.SetStale(old(Model()), instanceId, stale)
    {
      if stale {
        staleInstances := staleInstances + {instanceId};
      } else {
        staleInstances := staleInstances - {instanceId};
      }
    }

    method SetPendingStatus(instanceId: InstanceId, status: Status)
      requires Valid()
      modifies `pendingStatus
      ensures Valid() && Cells() == old(Cells()) && Model()
        == FleetModel.SetPendingStatus(old(Model()), instanceId, status)
    {
      if instanceId in rows.records {
        pendingStatus := pendingStatus[instanceId := status];
      }
    }

    function LastHashOf(instanceId: InstanceId): (hash: Option<Hash>)
      reads this
      ensures hash == FleetModel.LastHashOf(Model(), instanceId)
    {
      if instanceId in rows.records then Some(rows.records[instanceId].lastHash) else None
    }

    // ----- queries -----

    /** Build the view unless it is still there. */
    method Resolve() returns (view: View)
      requires Valid()
      modifies `resolvedView
      ensures Valid() && resolvedView == Some(view)
      ensures old(resolvedView).Some? ==> view == old(resolvedView).value
      ensures old(resolvedView).None? ==> forall a | 0 <= a < |view.instances| :: fresh(view.instances[a])
    {
      if resolvedView.Some? {
        return resolvedView.value;
      }
      view := BuildView(rows);
      resolvedView := Some(view);
    }

    /** The shared rows, in a list of the caller's own. */
    method Instances() returns (instances: seq<Cached>)
      requires Valid()
      modifies `resolvedView
      ensures Valid() && Holding(instances, FleetModel.Instances(rows.order, rows.records)) && Cells() == instances
      ensures old(resolvedView).Some? ==> Cells() == old(Cells())
      ensures old(resolvedView).None? ==> forall a | 0 <= a < |instances| :: fresh(instances[a])
    {
      var view := Resolve();
      instances := view.instances;
    }

    method GetInstance(id: InstanceId) returns (info: Option<InstanceInfo>)
      requires Valid()
      modifies `resolvedView
      ensures Valid()
      ensures info == if id in rows.records then Some(Resolved(rows.records, id)) else None
      ensures old(resolvedView).Some? ==> Cells() == old(Cells())
      ensures old(resolvedView).None? ==> forall a | 0 <= a < |Cells()| :: fresh(Cells()[a])
    {
      var view := Resolve();
      if id !in view.byId {
        return None;
      }
      RowAt(rows.order, rows.records, id);
      ghost var at := KeyPosition(rows.order, id);
      return Some(view.byId[id].Value());
    }

    method Rooms() returns (rooms: seq<RoomInfo>)
      requires Valid()
      modifies `resolvedView
      ensures Valid() && rooms == AllRooms(FleetModel.Instances(rows.order, rows.records))
      ensures old(resolvedView).Some? ==> Cells() == old(Cells())
      ensures old(resolvedView).None? ==> forall a | 0 <= a < |Cells()| :: fresh(Cells()[a])
    {
      var values := CurrentRows();
      rooms := JoinRooms(values);
    }

    /** A process is found by its latest connection. */
    method GetInstanceByProcessUid(processUid: Text) returns (info: Option<InstanceInfo>)
      requires Valid()
      modifies `resolvedView
      ensures Valid()
      ensures var latest := LatestOf(rows.order, rows.records, processUid, None);
        info == if latest.Some? && latest.value.info.id in rows.records
          then Some(Resolved(rows.records, latest.value.info.id)) else None
      ensures old(resolvedView).Some? ==> Cells() == old(Cells())
      ensures old(resolvedView).None? ==> forall a | 0 <= a < |Cells()| :: fresh(Cells()[a])
    {
      var record := FindLatest(processUid);
      if record.None? {
        return None;
      }
      info := GetInstance(record.value.info.id);
    }

    method LocateRoom(roomId: Text) returns (found: Option<Locator>)
      requires Valid()
      modifies `resolvedView
      ensures Valid() && found == Locate(rows, roomId)
      ensures old(resolvedView).Some? ==> Cells() == old(Cells())
      ensures old(resolvedView).None? ==> forall a | 0 <= a < |Cells()| :: fresh(Cells()[a])
    {
      var view := Resolve();
      AllPresent(rows.order, rows.records);
      PublicIndexFinds(rows.order, rows.records);
      if roomId !in view.byPublicId {
        return None;
      }
      return Some(view.byPublicId[roomId]);
    }

    method GetRoom(roomId: Text) returns (room: Option<RoomInfo>)
      requires Valid()
      modifies `resolvedView
      ensures Valid()
      ensures room == if Locate(rows, roomId).Some? then Some(Locate(rows, roomId).value.room) else None
      ensures old(resolvedView).Some? ==> Cells() == old(Cells())
      ensures old(resolvedView).None? ==> forall a | 0 <= a < |Cells()| :: fresh(Cells()[a])
    {
      var found := LocateRoom(roomId);
      return if found.Some? then Some(found.value.room) else None;
    }

    /** Totals over the rows, and the state hash, computed only when it was invalidated. */
    method Stats() returns (stats: FleetStats)
      requires Valid()
      modifies `resolvedView, `cachedStateHash
      ensures Valid()
      ensures var all := FleetModel.Instances(rows.order, rows.records);
        stats == FleetStats(|all|, SumRooms(all), SumConnections(all), TypesOf(all), ComputeStateHash(all))
      ensures old(resolvedView).Some? ==> Cells() == old(Cells())
      ensures old(resolvedView).None? ==> forall a | 0 <= a < |Cells()| :: fresh(Cells()[a])
    {
      var values := CurrentRows();
      var connections, rooms := Totals(values);
      var hash := CurrentHash(values);
      var types := CollectTypes(values);
      stats := FleetStats(|values|, rooms, connections, types, hash);
    }

    /** The hash is recomputed only if it is not memoised. */
    method CurrentHash(values: seq<InstanceInfo>) returns (hash: Hash)
      requires RowsValid(rows) && values == FleetModel.Instances(rows.order, rows.records) && Coherent()
      modifies `cachedStateHash
      ensures Coherent() && hash == ComputeStateHash(values)
    {
      if cachedStateHash.None? {
        cachedStateHash := Some(ComputeStateHash(values));
      }
      hash := cachedStateHash.value;
    }

    // ----- ids and slots -----

    method IsRoomIdTaken(roomId: Text) returns (taken: bool)
      requires Valid()
      modifies `resolvedView
      ensures Valid() && taken == Taken(Model(), roomId)
      ensures old(resolvedView).Some? ==> Cells() == old(Cells())
      ensures old(resolvedView).None? ==> forall a | 0 <= a < |Cells()| :: fresh(Cells()[a])
    {
      var room := GetRoom(roomId);
      taken := roomId in reservedRoomIds || roomId in pendingRoomIds || room.Some?;
    }

    method GenerateFreeRoomId(draws: seq<Text>) returns (id: Option<Text>)
      requires Valid()
      modifies `resolvedView
      ensures Valid() && id == FirstFree(Model(), draws, MAX_ATTEMPTS)
      ensures old(resolvedView).Some? ==> Cells() == old(Cells())
      ensures old(resolvedView).None? ==> forall a | 0 <= a < |Cells()| :: fresh(Cells()[a])
    {
      var attempt := 0;
      while attempt < MAX_ATTEMPTS && attempt < |draws|
        modifies `resolvedView
        invariant Valid() && 0 <= attempt <= MAX_ATTEMPTS && attempt <= |draws|
        invariant FirstFree(Model(), draws[attempt..], MAX_ATTEMPTS - attempt)
          == FirstFree(Model(), draws, MAX_ATTEMPTS)
        invariant old(resolvedView).Some? ==> Cells() == old(Cells())
        invariant old(resolvedView).None? ==> forall a | 0 <= a < |Cells()| :: fresh(Cells()[a])
      {
        var taken := IsRoomIdTaken(draws[attempt]);
        assert draws[attempt..][0] == draws[attempt] && draws[attempt..][1..] == draws[attempt + 1..];
        if !taken {
          return Some(draws[attempt]);
        }
        attempt := attempt + 1;
      }
      return None;
    }

    method ReserveRoomId(roomId: Option<Text>, draws: seq<Text>) returns (id: Result<Text, FleetError>)
      requires Valid()
      modifies `resolvedView, `reservedRoomIds
      ensures Valid() && id == IdToReserve(old(Model()), roomId, draws)
      ensures Model() == WithReserved(old(Model()), id)
      ensures old(resolvedView).Some? ==> Cells() == old(Cells())
      ensures old(resolvedView).None? ==> forall a | 0 <= a < |Cells()| :: fresh(Cells()[a])
    {
      hide ViewCoherent, Taken, FirstFree;
      if roomId.None? {
        var generated := GenerateFreeRoomId(draws);
        if generated.None? {
          return Err(RoomIdTaken);
        }
        reservedRoomIds := reservedRoomIds + {generated.value};
        return Ok(generated.value);
      }
      if !IsValidRoomId(roomId.value) {
        return Err(ValidationFailed);
      }
      var taken := IsRoomIdTaken(roomId.value);
      if taken {
        return Err(RoomIdTaken);
      }
      reservedRoomIds := reservedRoomIds + {roomId.value};
      return Ok(roomId.value);
    }

    method ReleaseRoomId(roomId: Text)
      modifies `reservedRoomIds
      ensures HoldsModel() == ReleaseId(old(HoldsModel()), roomId)
    {
      reservedRoomIds := reservedRoomIds - {roomId};
    }

    method ReserveSlot(instanceId: InstanceId) returns (r: Reservation)
      modifies `reservations, `reservedByInstance, `reservationSeq
      ensures HoldsModel() == Reserve(old(HoldsModel()), instanceId)
      ensures r == Reservation(old(reservationSeq) + 1, instanceId)
    {
      reservationSeq := reservationSeq + 1;
      reservations := reservations[reservationSeq := instanceId];
      reservedByInstance := reservedByInstance[instanceId := Get(reservedByInstance, instanceId) + 1];
      r := Reservation(reservationSeq, instanceId);
    }

    method Release(r: Reservation)
      modifies `reservations, `reservedByInstance
      ensures HoldsModel() == Reservations.Release(old(HoldsModel()), r)
    {
      if r.id !in reservations {
        return;
      }
      reservations := reservations - {r.id};
      var count := Get(reservedByInstance, r.instanceId);
      if count <= 1 {
        reservedByInstance := reservedByInstance - {r.instanceId};
      } else {
        reservedByInstance := reservedByInstance[r.instanceId := count - 1];
      }
    }

    method HoldUntilVisible(roomId: Text, r: Reservation)
      modifies `reservations, `reservedByInstance, `reservedRoomIds, `pendingRoomIds, `pendingByInstance
      ensures HoldsModel() == Reservations.HoldUntilVisible(old(HoldsModel()), roomId, r)
    {
      Release(r);
      reservedRoomIds := reservedRoomIds - {roomId};
      if roomId in pendingRoomIds {
        return;
      }
      pendingRoomIds := pendingRoomIds[roomId := r.instanceId];
      pendingByInstance := pendingByInstance[r.instanceId := Get(pendingByInstance, r.instanceId) + 1];
    }

    // ----- placement -----

    method FilterCandidates(request: Request) returns (candidates: seq<InstanceInfo>)
      requires RowsValid(rows)
      ensures candidates == Candidates(Model(), request, rows.order)
    {
      candidates := [];
      var a := 0;
      while a < |rows.order|
        invariant 0 <= a <= |rows.order| && KeySet(rows.order[a..]) <= rows.records.Keys
        invariant candidates + Candidates(Model(), request, rows.order[a..]) == Candidates(Model(), request, rows.order)
      {
        assert rows.order[a..] == [rows.order[a]] + rows.order[a + 1..];
        var info := rows.records[rows.order[a]].info;
        ghost var rest := Candidates(Model(), request, rows.order[a + 1..]);
        assert candidates + ([info] + rest) == (candidates + [info]) + rest
          && candidates + ([] + rest) == candidates + rest;
        var fits := Admits(request, info);
        if fits {
          candidates := candidates + [info];
        }
        a := a + 1;
      }
    }

    method Admits(request: Request, info: InstanceInfo) returns (fits: bool)
      ensures fits == IsCandidate(Model(), request, info)
    {
      var status := if info.id in pendingStatus then pendingStatus[info.id] else info.status;
      if status != Active || info.id in staleInstances || !info.autoCreate || request.roomType !in info.roomTypes {
        return false;
      }
      if request.labels.Some? && !MatchesLabels(info.labels, request.labels.value) {
        return false;
      }
      var projected := |info.rooms| + Get(reservedByInstance, info.id) + Get(pendingByInstance, info.id);
      if info.capacity.maxRooms.Some? && projected >= info.capacity.maxRooms.value {
        return false;
      }
      return info.capacity.maxConnections.None? || info.connections < info.capacity.maxConnections.value;
    }

    method FindLatest(processUid: Text) returns (latest: Option<Record>)
      requires RowsValid(rows)
      ensures latest == LatestOf(rows.order, rows.records, processUid, None)
    {
      latest := None;
      var a := 0;
      while a < |rows.order|
        invariant 0 <= a <= |rows.order| && KeySet(rows.order[a..]) <= rows.records.Keys
        invariant LatestOf(rows.order[a..], rows.records, processUid, latest)
          == LatestOf(rows.order, rows.records, processUid, None)
      {
        assert rows.order[a..] == [rows.order[a]] + rows.order[a + 1..];
        var record := rows.records[rows.order[a]];
        if record.info.processUid == processUid && (latest.None? || record.joinSeq > latest.value.joinSeq) {
          latest := Some(record);
        }
        a := a + 1;
      }
    }

    method Select(request: Request, random: real) returns (chosen: Result<InstanceInfo, FleetError>)
      requires RowsValid(rows) && 0.0 <= random <= 1.0
      ensures chosen == Selected(Model(), request, random)
    {
      if request.instanceId.Some? && request.processUid.Some? {
        return Err(ValidationFailed);
      }
      if IsPinned(request) {
        var instance: Option<InstanceInfo> := None;
        if request.instanceId.Some? {
          if request.instanceId.value in rows.records {
            instance := Some(rows.records[request.instanceId.value].info);
          }
        } else {
          var latest := FindLatest(request.processUid.value);
          if latest.Some? {
            instance := Some(latest.value.info);
          }
        }
        if instance.None? {
          return Err(InstanceNotFound);
        }
        var info := instance.value;
        var status := if info.id in pendingStatus then pendingStatus[info.id] else info.status;
        if status == Draining && !request.force {
          return Err(InstanceDraining);
        }
        if info.id in staleInstances && !request.force {
          return Err(FleetError.InstanceDisconnected);
        }
        if !info.autoCreate {
          return Err(NoCandidate);
        }
        return Ok(info);
      }
      var candidates := FilterCandidates(request);
      if candidates == [] {
        return Err(NoCandidate);
      }
      var picked := PickOne(candidates, if request.strategy.Some? then request.strategy.value else LeastLoaded, random);
      return Ok(picked);
    }

    method Place(request: Request, random: real) returns (placed: Result<(InstanceInfo, Reservation), FleetError>)
      requires Valid() && 0.0 <= random <= 1.0
      modifies `reservations, `reservedByInstance, `reservationSeq
      ensures Valid() && Model() == Placement.Place(old(Model()), request, random).0
      ensures match Placement.Place(old(Model()), request, random).1
        case Err(e) => placed == Err(e)
        case Ok(info) => placed == Ok((info, Reservation(old(reservationSeq) + 1, info.id)))
    {
      var chosen := Select(request, random);
      if chosen.Err? {
        return Err(chosen.error);
      }
      var r := ReserveSlot(chosen.value.id);
      return Ok((chosen.value, r));
    }

    /** What the shared rows say now. */
    method CurrentRows() returns (values: seq<InstanceInfo>)
      requires Valid()
      modifies `resolvedView
      ensures Valid() && values == FleetModel.Instances(rows.order, rows.records)
      ensures old(resolvedView).Some? ==> Cells() == old(Cells())
      ensures old(resolvedView).None? ==> forall a | 0 <= a < |Cells()| :: fresh(Cells()[a])
    {
      var instances := Instances();
      values := Values(instances);
      SameRows(instances, values, FleetModel.Instances(rows.order, rows.records));
    }
  }

  lemma SameRows(instances: seq<Cached>, a: seq<InstanceInfo>, b: seq<InstanceInfo>)
    requires Holding(instances, a) && Holding(instances, b)
    ensures a == b
  {
  }

  method AllDeclareLimit(candidates: seq<InstanceInfo>) returns (all: bool)
    ensures all == AllDeclare(candidates)
  {
    var a := 0;
    while a < |candidates|
      invariant 0 <= a <= |candidates| && AllDeclare(candidates[a..]) == AllDeclare(candidates)
    {
      assert candidates[a..] == [candidates[a]] + candidates[a + 1..];
      if candidates[a].capacity.maxConnections.None? {
        return false;
      }
      a := a + 1;
    }
    return true;
  }

  method FindBestScore(candidates: seq<InstanceInfo>, normalised: bool, most: bool) returns (best: real)
    requires candidates != []
    ensures best == BestScore(candidates, normalised, most, Score(candidates[0], normalised))
  {
    best := Score(candidates[0], normalised);
    var a := 0;
    while a < |candidates|
      invariant 0 <= a <= |candidates|
      invariant BestScore(candidates[a..], normalised, most, best)
             == BestScore(candidates, normalised, most, Score(candidates[0], normalised))
    {
      assert candidates[a..] == [candidates[a]] + candidates[a + 1..];
      var score := Score(candidates[a], normalised);
      if if most then score > best else score < best {
        best := score;
      }
      a := a + 1;
    }
  }

  lemma TiedStep(candidates: seq<InstanceInfo>, a: nat, normalised: bool, best: real, tied: seq<InstanceInfo>)
    requires a < |candidates|
    ensures tied + Tied(candidates[a..], normalised, best)
         == (if Score(candidates[a], normalised) == best then tied + [candidates[a]] else tied)
          + Tied(candidates[a + 1..], normalised, best)
  {
    assert candidates[a..] == [candidates[a]] + candidates[a + 1..];
    var c, rest := candidates[a], Tied(candidates[a + 1..], normalised, best);
    assert tied + ([c] + rest) == (tied + [c]) + rest && tied + ([] + rest) == tied + rest;
  }

  method FilterTied(candidates: seq<InstanceInfo>, normalised: bool, best: real) returns (tied: seq<InstanceInfo>)
    ensures tied == Tied(candidates, normalised, best)
  {
    tied := [];
    var a := 0;
    while a < |candidates|
      invariant 0 <= a <= |candidates|
      invariant tied + Tied(candidates[a..], normalised, best) == Tied(candidates, normalised, best)
    {
      TiedStep(candidates, a, normalised, best, tied);
      if Score(candidates[a], normalised) == best {
        tied := tied + [candidates[a]];
      }
      a := a + 1;
    }
  }

  method PickOne(candidates: seq<InstanceInfo>, strategy: Strategy, random: real) returns (chosen: InstanceInfo)
    requires candidates != [] && 0.0 <= random <= 1.0
    ensures chosen == Pick(candidates, strategy, random)
  {
    if strategy.Random? {
      return Choose(candidates, random);
    }
    var normalised := AllDeclareLimit(candidates);
    var best := FindBestScore(candidates, normalised, strategy.MostLoaded?);
    var tied := FilterTied(candidates, normalised, best);
    TiedNotEmpty(candidates, strategy.MostLoaded?);
    return Choose(tied, random);
  }

  lemma {:induction false} RowAt(order: seq<InstanceId>, m: Records, id: InstanceId)
    requires KeySet(order) <= m.Keys
    ensures |FleetModel.Instances(order, m)| == |order|
    ensures forall a | 0 <= a < |order| && order[a] == id ::
      id in m && FleetModel.Instances(order, m)[a] == Resolved(m, id)
  {
    if order != [] {
      RowAt(order[1..], m, id);
    }
  }

  method Values(instances: seq<Cached>) returns (values: seq<InstanceInfo>)
    ensures Holding(instances, values)
  {
    values := [];
    var a := 0;
    while a < |instances|
      invariant 0 <= a <= |instances| && Holding(instances[..a], values)
    {
      values := values + [instances[a].Value()];
      a := a + 1;
    }
    assert instances[..a] == instances;
  }

  method JoinRooms(values: seq<InstanceInfo>) returns (rooms: seq<RoomInfo>)
    ensures rooms == AllRooms(values)
  {
    rooms := [];
    var a := 0;
    while a < |values|
      invariant 0 <= a <= |values| && rooms + AllRooms(values[a..]) == AllRooms(values)
    {
      assert values[a..] == [values[a]] + values[a + 1..];
      ghost var rest := AllRooms(values[a + 1..]);
      assert rooms + (values[a].rooms + rest) == (rooms + values[a].rooms) + rest;
      rooms := rooms + values[a].rooms;
      a := a + 1;
    }
    assert values[a..] == [];
  }

  method Totals(values: seq<InstanceInfo>) returns (connections: nat, rooms: nat)
    ensures connections == SumConnections(values) && rooms == SumRooms(values)
  {
    connections, rooms := 0, 0;
    var a := 0;
    while a < |values|
      invariant 0 <= a <= |values|
      invariant connections + SumConnections(values[a..]) == SumConnections(values)
      invariant rooms + SumRooms(values[a..]) == SumRooms(values)
    {
      assert values[a..] == [values[a]] + values[a + 1..];
      connections, rooms := connections + values[a].connections, rooms + |values[a].rooms|;
      a := a + 1;
    }
  }

  method BuildView(r: Rows) returns (view: View)
    requires RowsValid(r)
    ensures ViewCoherent(r, view) && forall a | 0 <= a < |view.instances| :: fresh(view.instances[a])
  {
    var entries := FlattenRooms(r);
    var keepers := FindKeepers(r, entries);
    var located := IndexRooms(r, keepers, entries);
    var values := PublishInstances(r, keepers);
    var instances := ShareInstances(values);
    RowAt(r.order, r.records, 0);
    var byId := IndexInstances(r.order, instances);
    view := View(instances, byId, located);
  }
}
