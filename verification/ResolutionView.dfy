/** The resolution pass: loops over the records that build the view queries read from. */
module ResolutionView {
  import opened Prelude
  import opened Utf8
  import opened RoomId
  import opened Ordered
  import opened FleetTypes
  import opened Resolution
  import opened PublicIds
  import opened Reservations
  import opened FleetModel

  /** A row handed out by queries.  It is shared between callers; only `lastSyncAt` ever changes. */
  class Cached {
    const info: InstanceInfo
    var lastSyncAt: Time

    constructor (info: InstanceInfo)
      ensures this.info == info && lastSyncAt == info.lastSyncAt
    {
      this.info := info;
      lastSyncAt := info.lastSyncAt;
    }

    function Value(): InstanceInfo
      reads this
    {
      info.(lastSyncAt := lastSyncAt)
    }
  }

  datatype View = View(instances: seq<Cached>, byId: map<InstanceId, Cached>, byPublicId: map<Text, Locator>)

  // ----- resolving, as loops compute it -----

  type Keepers = map<Text, Slot>

  function KeptBy(k: Keepers, base: Text): Option<Slot> {
    if base in k then Some(k[base]) else None
  }

  function Improved(m: Records, k: Keepers, s: Slot): Keepers
    requires Present(m, s) && forall b | b in k :: Present(m, k[b])
  {
    var base := BaseAt(m, s);
    if base !in k || Precedes(m, s, k[base]) then k[base := s] else k
  }

  /** The keepers found so far can only be improved by the slots still ahead. */
  ghost predicate OnTheWay(m: Records, slots: seq<Slot>, k: Keepers, ahead: seq<Slot>)
    requires forall s | s in KeySet(slots) :: Present(m, s)
    requires forall s | s in KeySet(ahead) :: Present(m, s)
  {
    && (forall b | b in k :: Present(m, k[b]))
    && (forall b :: Best(m, ahead, b, KeptBy(k, b)) == Best(m, slots, b, None))
  }

  function PublicOf(m: Records, k: Keepers, s: Slot): Text
    requires Present(m, s)
  {
    if KeptBy(k, BaseAt(m, s)) == Some(s) then BaseAt(m, s)
      else NamespaceRoomId(m[s.instance].info.processUid, BaseAt(m, s))
  }

  ghost predicate Complete(r: Rows, k: Keepers)
    requires RowsValid(r)
  {
    forall s | Present(r.records, s) :: PublicOf(r.records, k, s) == PublicIdAt(r.records, s)
  }

  lemma OnTheWayStep(m: Records, slots: seq<Slot>, k: Keepers, ahead: seq<Slot>)
    requires forall s | s in KeySet(slots) :: Present(m, s)
    requires forall s | s in KeySet(ahead) :: Present(m, s)
    requires ahead != [] && OnTheWay(m, slots, k, ahead)
    ensures Present(m, ahead[0]) && forall s | s in KeySet(ahead[1..]) :: Present(m, s)
    ensures OnTheWay(m, slots, Improved(m, k, ahead[0]), ahead[1..])
  {
    var s := ahead[0];
    assert s in KeySet(ahead) && forall t | t in KeySet(ahead[1..]) :: t in KeySet(ahead);
    var k' := Improved(m, k, s);
    forall b
      ensures Best(m, ahead[1..], b, KeptBy(k', b)) == Best(m, slots, b, None)
    {
      assert KeptBy(k', b) == Better(m, s, b, KeptBy(k, b));
    }
  }

  lemma KeepersComplete(r: Rows, k: Keepers)
    requires RowsValid(r)
    requires forall b :: KeptBy(k, b) == KeeperOf(r.order, r.records, b)
    ensures Complete(r, k)
  {
    forall s | Present(r.records, s)
      ensures PublicOf(r.records, k, s) == PublicIdAt(r.records, s)
    {
      KeeperDecides(r.order, r.records, s);
      assert KeptBy(k, BaseAt(r.records, s)) == KeeperOf(r.order, r.records, BaseAt(r.records, s));
    }
  }

  method FlattenOne(i: InstanceId, n: nat) returns (entries: seq<Slot>)
    ensures entries == SlotsFrom(i, 0, n)
  {
    entries := [];
    var b := 0;
    while b < n
      invariant 0 <= b <= n
      invariant entries + SlotsFrom(i, b, n) == SlotsFrom(i, 0, n)
    {
      ghost var was := entries;
      entries := entries + [Slot(i, b)];
      assert was + ([Slot(i, b)] + SlotsFrom(i, b + 1, n)) == entries + SlotsFrom(i, b + 1, n);
      b := b + 1;
    }
  }

  /** The reported rooms of every record, flattened in iteration order. */
  method FlattenRooms(r: Rows) returns (entries: seq<Slot>)
    requires RowsValid(r)
    ensures entries == Slots(r.order, r.records)
  {
    entries := [];
    var a := 0;
    while a < |r.order|
      invariant 0 <= a <= |r.order| && KeySet(r.order[a..]) <= r.records.Keys
      invariant entries + Slots(r.order[a..], r.records) == Slots(r.order, r.records)
    {
      var i := r.order[a];
      assert r.order[a..] == [i] + r.order[a + 1..];
      ghost var was := entries;
      var more := FlattenOne(i, |r.records[i].info.rooms|);
      entries := entries + more;
      assert was + (more + Slots(r.order[a + 1..], r.records)) == entries + Slots(r.order[a + 1..], r.records);
      a := a + 1;
    }
  }

  /** Of the rooms that share a base id, the first in canonical order keeps it. */
  method FindKeepers(r: Rows, entries: seq<Slot>) returns (k: Keepers)
    requires RowsValid(r) && entries == Slots(r.order, r.records)
    ensures Complete(r, k)
  {
    AllPresent(r.order, r.records);
    k := map[];
    var n := 0;
    assert entries[0..] == entries;
    while n < |entries|
      invariant 0 <= n <= |entries|
      invariant forall s | s in KeySet(entries[n..]) :: Present(r.records, s)
      invariant OnTheWay(r.records, entries, k, entries[n..])
    {
      var s := entries[n];
      assert entries[n..][0] == s && entries[n..][1..] == entries[n + 1..];
      OnTheWayStep(r.records, entries, k, entries[n..]);
      var base := BaseAt(r.records, s);
      if base !in k || Precedes(r.records, s, k[base]) {
        k := k[base := s];
      }
      n := n + 1;
    }
    assert entries[n..] == [];
    forall b
      ensures KeptBy(k, b) == KeeperOf(r.order, r.records, b)
    {
      assert Best(r.records, [], b, KeptBy(k, b)) == KeptBy(k, b);
    }
    KeepersComplete(r, k);
  }

  // ----- the two indexes of a view -----

  ghost predicate Locates(m: Records, slots: seq<Slot>, found: map<Text, Locator>)
    requires forall s | s in KeySet(slots) :: Present(m, s)
  {
    && found.Keys == Index(m, slots).Keys
    && forall id | id in found :: Present(m, Index(m, slots)[id]) && found[id] == LocatorAt(m, Index(m, slots)[id])
  }

  lemma IndexStep(m: Records, slots: seq<Slot>, n: nat)
    requires n < |slots| && forall s | s in KeySet(slots) :: Present(m, s)
    requires forall s | s in KeySet(slots[..n]) :: Present(m, s)
    ensures Present(m, slots[n]) && forall s | s in KeySet(slots[..n + 1]) :: Present(m, s)
    ensures Index(m, slots[..n + 1]) == Index(m, slots[..n])[PublicIdAt(m, slots[n]) := slots[n]]
  {
    var more := slots[..n + 1];
    assert more[..|more| - 1] == slots[..n] && more[|more| - 1] == slots[n];
    KeySetHas(slots, n);
    FrontAndLast(more);
  }

  lemma LocatesStep(m: Records, slots: seq<Slot>, n: nat, found: map<Text, Locator>)
    requires n < |slots| && forall s | s in KeySet(slots) :: Present(m, s)
    requires (forall s | s in KeySet(slots[..n]) :: Present(m, s)) && Locates(m, slots[..n], found)
    ensures Present(m, slots[n]) && forall s | s in KeySet(slots[..n + 1]) :: Present(m, s)
    ensures Locates(m, slots[..n + 1], found[PublicIdAt(m, slots[n]) := LocatorAt(m, slots[n])])
  {
    hide Index, PublicIdAt, LocatorAt, KeySet;
    IndexStep(m, slots, n);
  }

  method IndexRooms(r: Rows, k: Keepers, entries: seq<Slot>) returns (found: map<Text, Locator>)
    requires RowsValid(r) && Complete(r, k) && entries == Slots(r.order, r.records)
    ensures forall s | s in KeySet(entries) :: Present(r.records, s)
    ensures Locates(r.records, entries, found)
  {
    AllPresent(r.order, r.records);
    found := map[];
    var n := 0;
    while n < |entries|
      invariant 0 <= n <= |entries|
      invariant (forall s | s in KeySet(entries[..n]) :: Present(r.records, s))
        && Locates(r.records, entries[..n], found)
    {
      LocatesStep(r.records, entries, n, found);
      var s := entries[n];
      var publicId := PublicOf(r.records, k, s);
      var room := RoomAt(r.records, s).(id := publicId);
      found := found[publicId := Locator(room, s.instance, RoomAt(r.records, s).id)];
      n := n + 1;
    }
    assert entries[..n] == entries;
  }

  lemma PublishStep(r: Rows, k: Keepers, i: InstanceId, rooms: seq<RoomInfo>, b: nat)
    requires RowsValid(r) && Complete(r, k) && i in r.records && b < |r.records[i].info.rooms|
    ensures var room := r.records[i].info.rooms[b].(id := PublicOf(r.records, k, Slot(i, b)));
      (rooms + [room]) + PublicRooms(r.records, i, b + 1) == rooms + PublicRooms(r.records, i, b)
  {
    var s := Slot(i, b);
    assert Present(r.records, s) && PublicOf(r.records, k, s) == PublicIdAt(r.records, s);
    var room := PublicRoom(r.records, s);
    assert rooms + ([room] + PublicRooms(r.records, i, b + 1)) == (rooms + [room]) + PublicRooms(r.records, i, b + 1);
  }

  method PublishRooms(r: Rows, k: Keepers, i: InstanceId) returns (rooms: seq<RoomInfo>)
    requires RowsValid(r) && Complete(r, k) && i in r.records
    ensures rooms == PublicRooms(r.records, i, 0)
  {
    rooms := [];
    var b, n := 0, |r.records[i].info.rooms|;
    ghost var all := PublicRooms(r.records, i, 0);
    while b < n
      invariant 0 <= b <= n
      invariant rooms + PublicRooms(r.records, i, b) == all
    {
      PublishStep(r, k, i, rooms, b);
      rooms := rooms + [r.records[i].info.rooms[b].(id := PublicOf(r.records, k, Slot(i, b)))];
      b := b + 1;
    }
  }

  /** The rows are shared: the list and the map hold the same objects. */
  ghost predicate Shared(order: seq<InstanceId>, instances: seq<Cached>, byId: map<InstanceId, Cached>) {
    && |instances| == |order| && byId.Keys == KeySet(order)
    && forall a | 0 <= a < |order| :: order[a] in byId && byId[order[a]] == instances[a]
  }

  /** The objects hold these rows. */
  ghost predicate Holding(instances: seq<Cached>, rows: seq<InstanceInfo>)
    reads instances
  {
    && |instances| == |rows|
    && forall a | 0 <= a < |rows| :: instances[a].Value() == rows[a]
  }

  method PublishInstances(r: Rows, k: Keepers) returns (rows: seq<InstanceInfo>)
    requires RowsValid(r) && Complete(r, k)
    ensures rows == Instances(r.order, r.records)
  {
    rows := [];
    var a := 0;
    ghost var all := Instances(r.order, r.records);
    while a < |r.order|
      invariant 0 <= a <= |r.order| && KeySet(r.order[a..]) <= r.records.Keys
      invariant rows + Instances(r.order[a..], r.records) == all
    {
      var i := r.order[a];
      assert r.order[a..] == [i] + r.order[a + 1..];
      var rooms := PublishRooms(r, k, i);
      PublishedStep(r.records, rows, i, r.order[a + 1..]);
      rows := rows + [r.records[i].info.(rooms := rooms)];
      a := a + 1;
    }
  }

  lemma PublishedStep(m: Records, rows: seq<InstanceInfo>, i: InstanceId, ahead: seq<InstanceId>)
    requires i in m && KeySet(ahead) <= m.Keys
    ensures KeySet([i] + ahead) <= m.Keys
    ensures rows + Instances([i] + ahead, m) == (rows + [Resolved(m, i)]) + Instances(ahead, m)
  {
    assert ([i] + ahead)[1..] == ahead;
  }

  method ShareInstances(rows: seq<InstanceInfo>) returns (instances: seq<Cached>)
    ensures Holding(instances, rows)
    ensures forall a | 0 <= a < |instances| :: fresh(instances[a])
  {
    instances := [];
    var a := 0;
    while a < |rows|
      invariant 0 <= a <= |rows| && Holding(instances, rows[..a])
      invariant forall b | 0 <= b < |instances| :: fresh(instances[b])
    {
      var instance := new Cached(rows[a]);
      instances := instances + [instance];
      a := a + 1;
    }
    assert rows[..a] == rows;
  }

  method IndexInstances(order: seq<InstanceId>, instances: seq<Cached>) returns (byId: map<InstanceId, Cached>)
    requires Distinct(order) && |instances| == |order|
    ensures Shared(order, instances, byId)
  {
    byId := map[];
    var a := 0;
    while a < |order|
      invariant 0 <= a <= |order| && Shared(order[..a], instances[..a], byId)
    {
      SharedStep(order, a, instances[..a], byId, instances[a]);
      assert instances[..a + 1] == instances[..a] + [instances[a]];
      byId := byId[order[a] := instances[a]];
      a := a + 1;
    }
    assert order[..a] == order && instances[..a] == instances;
  }

  lemma SharedStep(order: seq<InstanceId>, a: nat, instances: seq<Cached>, byId: map<InstanceId, Cached>, more: Cached)
    requires a < |order| && Distinct(order) && Shared(order[..a], instances, byId)
    ensures Shared(order[..a + 1], instances + [more], byId[order[a] := more])
  {
    assert order == order[..a] + order[a..];
    DistinctSplits(order[..a], order[a..]);
    KeySetHas(order[a..], 0);
    assert order[..a + 1] == order[..a] + [order[a]];
    KeySetSplits(order[..a], [order[a]]);
    forall b | 0 <= b < a
      ensures order[b] != order[a]
    {
      KeySetHas(order[..a], b);
    }
  }
}
