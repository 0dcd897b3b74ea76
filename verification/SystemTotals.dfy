/** Over whole runs: the totals that are announced are those of all rooms of all instances. */
module SystemTotals {
  import opened Prelude
  import opened Ordered
  import opened FleetTypes
  import opened Resolution
  import opened FleetModel
  import opened Orchestration
  import opened OrchestrationLaws
  import opened FleetSystem
  import opened Sides
  import opened SystemLinks
  import opened SystemDedup

  /** Adding up the connections of rooms, list by list and room by room. */
  lemma {:induction false} ConnectionsAdd(a: seq<RoomInfo>, b: seq<RoomInfo>)
    ensures TotalConnections(a + b) == TotalConnections(a) + TotalConnections(b)
    ensures TotalConnections([]) == 0 && forall r: RoomInfo :: TotalConnections([r]) == r.connections
  {
    if a == [] {
      assert a + b == b;
    } else {
      assert (a + b)[1..] == a[1..] + b;
      ConnectionsAdd(a[1..], b);
    }
  }

  /** Public ids do not touch the counts. */
  lemma {:induction false} PublicRoomsCount(m: Records, i: InstanceId, from: nat)
    requires i in m && from <= |m[i].info.rooms|
    ensures TotalConnections(PublicRooms(m, i, from)) == TotalConnections(m[i].info.rooms[from..])
    ensures |PublicRooms(m, i, from)| == |m[i].info.rooms| - from
    decreases |m[i].info.rooms| - from
  {
    if from < |m[i].info.rooms| {
      PublicRoomsCount(m, i, from + 1);
      assert m[i].info.rooms[from..][1..] == m[i].info.rooms[from + 1..];
    }
  }

  /** The count of every row is that of its rooms. */
  ghost predicate Counted(m: Records) {
    forall i | i in m :: m[i].info.connections == TotalConnections(m[i].info.rooms)
  }

  lemma {:induction false} InstancesCount(order: seq<InstanceId>, m: Records)
    requires KeySet(order) <= m.Keys && Counted(m)
    ensures var all := Instances(order, m);
      |all| == |order| && SumRooms(all) == |AllRooms(all)| && SumConnections(all) == TotalConnections(AllRooms(all))
  {
    hide PublicIdAt, PublicRooms;
    if order != [] {
      InstancesCount(order[1..], m);
      PublicRoomsCount(m, order[0], 0);
      assert m[order[0]].info.rooms[0..] == m[order[0]].info.rooms;
      var all, first := Instances(order, m), Resolved(m, order[0]);
      assert all[0] == first && all[1..] == Instances(order[1..], m);
      ConnectionsAdd(first.rooms, AllRooms(all[1..]));
    }
  }

  lemma RowsCounted(s: Sys)
    requires SysValid(s) && AllDedup(s)
    ensures Counted(s.o.fleet.rows.records)
  {
    hide DeskValid, StreamValid, AgentsValid;
    var m := s.o.fleet.rows.records;
    forall i | i in m
      ensures m[i].info.connections == TotalConnections(m[i].info.rooms)
    {
      assert DedupInv(s, i) && i in s.o.links && i in s.conns;
      assert RecordOf(s.o.fleet, i) == Some(m[i]);
    }
  }

  /** In every run the totals count the instances, the rooms of all of them, and the connections of all those rooms. */
  lemma TotalsAreOfRooms(actions: seq<Action>)
    requires Possible(Beginning(), actions)
    ensures var r := Reached(Beginning(), actions).o.fleet.rows;
      RowsValid(r) && var all := AllRooms(Instances(r.order, r.records));
        && StatsOf(r).instances == |r.records|
        && StatsOf(r).rooms == |all|
        && StatsOf(r).connections == TotalConnections(all)
  {
    hide Possible, Enabled, Next, DeskValid, StreamValid, Nested, AgentsValid, Counted, AllDedup, LinksInv;
    StartLinked();
    RunLinks(Beginning(), actions);
    RunDedup(Beginning(), actions);
    var s := Reached(Beginning(), actions);
    RowsCounted(s);
    InstancesCount(s.o.fleet.rows.order, s.o.fleet.rows.records);
    OrderSize(s.o.fleet.rows.order, s.o.fleet.rows.records);
  }

  lemma StartLinked()
    ensures LinksInv(Beginning()) && AllDedup(Beginning())
  {
  }
}
