/** What ticks, replies and departures show: polls, stale marks, evictions, events and rows. */
module Liveness {
  import opened Prelude
  import Utf8
  import opened FleetTypes
  import opened Reservations
  import opened FleetModel
  import opened Polling
  import opened EventReconciling
  import opened Orchestration
  import opened OrchestrationLaws

  // ----- ticks -----

  /** A poll of an instance: the status recorded of it, and the hash of its row unless everything is asked for. */
  ghost predicate AsksFor(f: Fleet, i: InstanceId, full: bool, poll: Down) {
    && poll.Poll?
    && poll.status == (if i in f.rows.records then f.rows.records[i].info.status else Active)
    && poll.knownHash == (if !full && i in f.rows.records then Some(f.rows.records[i].lastHash) else None)
  }

  /** With no answer owed, a tick asks again; every twelfth poll asks for everything. */
  lemma TickPolls(o: Orch, i: InstanceId, open: set<InstanceId>)
    requires RowsValid(o.fleet.rows) && i in o.polls.entries && o.polls.entries[i].armed
    requires o.polls.entries[i].outstanding.None?
    ensures var e := Tick(o, i, open);
      && e.orch.fleet == o.fleet && e.orch.known == o.known && e.closed == {}
      && (if i in o.links && i in open then
          |e.sent| == 1 && e.sent[0].0 == i && e.sent[0].1.Poll? && e.sent[0].1.reqId == o.polls.reqSeq + 1
            && AsksFor(o.fleet, i, o.polls.entries[i].pollCount % 12 == 0, e.sent[0].1)
        else e.sent == [])
  {
  }

  /** The first tick without an answer changes nothing to be seen; the second marks the instance stale and says so. */
  lemma TickWaits(o: Orch, i: InstanceId, open: set<InstanceId>)
    requires RowsValid(o.fleet.rows) && i in o.polls.entries && o.polls.entries[i].armed
    requires o.polls.entries[i].outstanding.Some? && o.polls.entries[i].missed <= 1
    ensures var e, second := Tick(o, i, open), o.polls.entries[i].missed == 1;
      && e.sent == [] && e.closed == {}
      && e.orch.fleet == o.fleet.(stale := if second then o.fleet.stale + {i} else o.fleet.stale)
      && e.orch.known.log == o.known.log +
        (if second && i in o.fleet.rows.records then [InstanceStale(Resolved(o.fleet.rows.records, i))] else [])
  {
    assert o.known.log + [] == o.known.log;
  }

  /** The third closes the socket and forgets the instance. */
  lemma TickEvicts(o: Orch, i: InstanceId, open: set<InstanceId>)
    requires OrchValid(o) && i in o.polls.entries && o.polls.entries[i].armed
    requires o.polls.entries[i].outstanding.Some? && o.polls.entries[i].missed >= 2
    ensures var e := Tick(o, i, open);
      && e.sent == [] && e.closed == {i}
      && i !in e.orch.links && i !in e.orch.polls.entries && i !in e.orch.fleet.rows.records
  {
    hide DeskValid, StreamValid, Teardown;
    var ticked := o.(polls := Ticked(o.polls, i).0);
    TeardownIs(ticked, i);
  }

  /** A newcomer that can be reached is greeted and asked for everything. */
  lemma JoinPolls(o: Orch, i: InstanceId, open: set<InstanceId>)
    ensures var e := Join(o, i, open);
      && e.orch.fleet == o.fleet && e.orch.known == o.known && e.closed == {}
      && (i !in open ==> e.sent == [])
      && (i in open ==>
        |e.sent| == 2 && e.sent[0] == (i, Hello) && e.sent[1].0 == i && AsksFor(o.fleet, i, true, e.sent[1].1))
  {
  }

  // ----- replies -----

  /** An awaited reply of either kind clears the stale mark of its instance and no other. */
  lemma ReplyClearsMark(o: Orch, i: InstanceId, reqId: nat, full: bool, s: Snapshot, valid: bool, now: Time)
    requires OrchValid(o) && i in o.polls.entries && o.polls.entries[i].outstanding == Some(reqId)
    ensures ReceiveState(o, i, reqId, full, s, valid, now).orch.fleet.stale == o.fleet.stale - {i}
    ensures ReceiveState(o, i, reqId, full, s, valid, now).closed == {}
  {
    hide DeskValid, StreamValid;
  }

  /** Clearing ends the holds of one instance and no other. */
  lemma HoldsEnd(h: Holds, i: InstanceId)
    requires Valid(h)
    ensures var h' := ClearPending(h, i);
      && (forall id | id in h'.pending :: h'.pending[id] != i)
      && (forall id | id in h.pending && h.pending[id] != i :: id in h'.pending && h'.pending[id] == h.pending[id])
      && h'.tokens == h.tokens && h'.reserved == h.reserved
  {
    if i !in h.pendingCount {
      assert Get(h.pendingCount, i) == |Owned(h.pending, i)|;
      forall id | id in h.pending
        ensures h.pending[id] != i
      {
        assert h.pending[id] == i ==> id in Owned(h.pending, i);
      }
    }
  }

  /**
   * A snapshot replaces the row of its instance exactly if it is newer than the last one applied, or the first; the
   * instance keeps its seniority, and every other row stays as it is.
   */
  lemma SnapshotApplied(f: Fleet, i: InstanceId, s: Snapshot, now: Time)
    requires RowsValid(f.rows)
    ensures var (f', applied) := ApplySnapshot(f, i, s, now);
      var m, m' := f.rows.records, f'.rows.records;
      && (applied <==> i !in m || m[i].lastSeq < s.seqNo)
      && (!applied ==> f' == f)
      && (applied ==>
        && m'.Keys == m.Keys + {i} && (forall j | j in m && j != i :: m'[j] == m[j])
        && m'[i].info == BuildInstanceInfo(i, s.content, now) && m'[i].lastSeq == s.seqNo && m'[i].lastHash == s.hash
        && m'[i].joinSeq == (if i in m then m[i].joinSeq else f.rows.joinCounter + 1)
        && f'.holds == ClearPending(f.holds, i) && f'.stale == f.stale)
  {
    hide BuildInstanceInfo, ClearPending;
  }

  // ----- departures -----

  /** Whoever is torn down loses every mark with its row, and its departure is announced first. */
  lemma TeardownClears(o: Orch, i: InstanceId)
    requires OrchValid(o) && i in o.fleet.rows.records
    ensures var o' := Teardown(o, i);
      && i !in o'.fleet.rows.records && i !in o'.fleet.stale && i !in o'.fleet.pendingStatus
      && o'.fleet.stale == o.fleet.stale - {i}
      && o.known.log + [InstanceLeave(o.fleet.rows.records[i].info)] <= o'.known.log
  {
    hide DeskValid, StreamValid, ClearPending;
    LogGrows(RemovedInstance(o.known, o.fleet.rows.records[i].info));
  }

  lemma LogGrows(k: Known)
    ensures forall instances, stats :: k.log <= Reconciled(k, instances, stats).log
  {
    forall instances, stats
      ensures k.log <= Reconciled(k, instances, stats).log
    {
      SeenGrows(k, instances);
      var seen := SeeInstances(k, instances);
      DroppedGrows(seen, seen.order, CurrentRooms(instances));
    }
  }

  lemma {:induction false} SeenRoomsGrow(k: Known, rooms: seq<RoomInfo>)
    ensures k.log <= SeeRooms(k, rooms).log
    decreases rooms
  {
    if rooms != [] {
      SeenRoomsGrow(SeeRoom(k, rooms[0]), rooms[1..]);
    }
  }

  lemma {:induction false} SeenGrows(k: Known, instances: seq<InstanceInfo>)
    ensures k.log <= SeeInstances(k, instances).log
    decreases instances
  {
    if instances != [] {
      var x := instances[0];
      var joined := if x.id in k.ids then k else Emit(k.(ids := k.ids + {x.id}), InstanceJoin(x));
      SeenRoomsGrow(joined, x.rooms);
      SeenGrows(SeeInstance(k, x), instances[1..]);
    }
  }

  lemma {:induction false} DroppedGrows(k: Known, ids: seq<Utf8.Text>, current: set<Utf8.Text>)
    ensures k.log <= DropRooms(k, ids, current).log
    decreases ids
  {
    if ids != [] {
      DroppedGrows(DropRoom(k, ids[0], current), ids[1..], current);
    }
  }
}
