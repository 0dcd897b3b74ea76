/** What an agent makes of each frame, said of its rooms, marks and status, and what its snapshots show. */
module AgentAnswers {
  import opened Prelude
  import opened Utf8
  import opened Ordered
  import opened FleetTypes
  import opened SnapshotHash
  import opened Commands
  import opened FleetModel
  import opened Orchestration
  import opened Agents
  import C = Canonical

  // ----- commands -----

  /** A drain or undrain sets the status, says so, and leaves everything else as it is. */
  lemma StatusTaken(a: Agent, k: nat, drain: bool, succeeds: bool)
    requires AgentValid(a)
    ensures Take(a, Cmd(k, if drain then Drain else Undrain), succeeds)
      == (a.(status := if drain then Draining else Active), [Ack(k, true, false)])
  {
  }

  /** A greeting starts the frame counter anew and is not answered. */
  lemma GreetingTaken(a: Agent, succeeds: bool)
    requires AgentValid(a)
    ensures Take(a, Hello, succeeds) == (a.(seqNo := 0), [])
  {
  }

  /** Every command is acked once, under its own number. */
  lemma CmdTakenAcks(a: Agent, k: nat, op: Op, succeeds: bool)
    requires AgentValid(a)
    ensures var answer := Take(a, Cmd(k, op), succeeds).1; |answer| == 1 && answer[0].Ack? && answer[0].cmdId == k
  {
  }

  ghost predicate TakesRooms(a: Agent) {
    a.config.autoCreate && (a.config.capacity.maxRooms.Some? ==> |a.rooms| < a.config.capacity.maxRooms.value)
  }

  /**
   * A create is carried out exactly if creation is on, there is a slot, the id is new and the room does not object:
   * then the room is there, empty and marked as the fleet's.  Otherwise nothing changes, and an id that is in the way
   * is reported as such.
   */
  lemma CreateTaken(a: Agent, k: nat, id: Text, roomType: Text, succeeds: bool)
    requires AgentValid(a)
    ensures var (b, answer) := Take(a, Cmd(k, Create(id, roomType)), succeeds);
      && (exists ok, already :: answer == [Ack(k, ok, already)])
      && (answer[0].ok <==> TakesRooms(a) && id !in a.rooms && succeeds)
      && (answer[0].already <==> TakesRooms(a) && id in a.rooms)
      && (answer[0].ok ==>
        b == a.(order := b.order, rooms := a.rooms[id := LiveRoom(roomType, 0)], origins := a.origins + {id}))
      && (!answer[0].ok ==> b == a)
  {
    OrderSize(a.order, a.rooms);
    var answer := Take(a, Cmd(k, Create(id, roomType)), succeeds).1;
    assert answer == [Ack(k, answer[0].ok, answer[0].already)];
  }

  /** A destroy succeeds on an absent room too; a room that objects stays. */
  lemma DestroyTaken(a: Agent, k: nat, id: Text, succeeds: bool)
    requires AgentValid(a)
    ensures var (b, answer) := Take(a, Cmd(k, Destroy(id)), succeeds);
      && answer == [Ack(k, id !in a.rooms || succeeds, false)]
      && (id in a.rooms && succeeds ==> b == a.(order := b.order, rooms := a.rooms - {id}, origins := a.origins - {id}))
      && (id !in a.rooms || !succeeds ==> b == a)
  {
  }

  // ----- snapshots -----

  /** The entry of a room: its type, how many are connected, and whether the fleet created it. */
  ghost predicate Shows(a: Agent, r: SyncRoom) {
    && r.id in a.rooms
    && r.roomType == a.rooms[r.id].roomType
    && r.connections == a.rooms[r.id].connections
    && (r.fleet <==> r.id in a.origins)
  }

  /** Ascending by UTF-16 code units. */
  ghost predicate Ascending(rooms: seq<SyncRoom>) {
    forall j, k :: 0 <= j < k < |rooms| ==> C.Less(Utf16(rooms[j].id), Utf16(rooms[k].id))
  }

  lemma {:induction false} ListedShows(a: Agent, order: seq<Text>, r: SyncRoom)
    requires KeySet(order) <= a.rooms.Keys
    ensures r in Listed(a, order) <==> r.id in KeySet(order) && Shows(a, r)
    ensures |Listed(a, order)| == |order|
  {
    if order != [] {
      ListedShows(a, order[1..], r);
    }
  }

  lemma {:induction false} InsertHas(r: SyncRoom, sorted: seq<SyncRoom>, x: SyncRoom)
    ensures x in InsertRoom(r, sorted) <==> x == r || x in sorted
    ensures |InsertRoom(r, sorted)| == |sorted| + 1
  {
    if sorted != [] {
      InsertHas(r, sorted[1..], x);
      assert sorted == [sorted[0]] + sorted[1..];
    }
  }

  lemma {:induction false} SortHas(rooms: seq<SyncRoom>, x: SyncRoom)
    ensures x in SortRooms(rooms) <==> x in rooms
    ensures |SortRooms(rooms)| == |rooms|
  {
    if rooms != [] {
      SortHas(rooms[1..], x);
      InsertHas(rooms[0], SortRooms(rooms[1..]), x);
      assert rooms == [rooms[0]] + rooms[1..];
    }
  }

  lemma {:induction false} InsertAscends(r: SyncRoom, sorted: seq<SyncRoom>)
    requires Ascending(sorted) && forall x :: x in sorted ==> Utf16(x.id) != Utf16(r.id)
    ensures Ascending(InsertRoom(r, sorted))
  {
    hide Utf16;
    if sorted != [] {
      var first := sorted[0];
      C.LessTotal(Utf16(first.id), Utf16(r.id));
      if C.Less(Utf16(first.id), Utf16(r.id)) {
        InsertAscends(r, sorted[1..]);
        forall x | x in InsertRoom(r, sorted[1..])
          ensures C.Less(Utf16(first.id), Utf16(x.id))
        {
          InsertHas(r, sorted[1..], x);
        }
      } else {
        forall x | x in sorted
          ensures C.Less(Utf16(r.id), Utf16(x.id))
        {
          if x != first {
            C.LessTransitive(Utf16(r.id), Utf16(first.id), Utf16(x.id));
          }
        }
      }
    }
  }

  lemma {:induction false} SortAscends(a: Agent, order: seq<Text>)
    requires KeySet(order) <= a.rooms.Keys && Distinct(order)
    ensures Ascending(SortRooms(Listed(a, order)))
  {
    if order != [] {
      SortAscends(a, order[1..]);
      var rest := Listed(a, order[1..]);
      forall x | x in SortRooms(rest)
        ensures Utf16(x.id) != Utf16(order[0])
      {
        SortHas(rest, x);
        ListedShows(a, order[1..], x);
        if Utf16(x.id) == Utf16(order[0]) {
          Utf16Injective(x.id, order[0]);
        }
      }
      InsertAscends(Listed(a, order)[0], SortRooms(rest));
      assert Listed(a, order)[1..] == rest;
    }
  }

  /** A snapshot lists every room once, as it is, in ascending order, beside the configuration, types and status. */
  lemma ContentShows(a: Agent)
    requires AgentValid(a)
    ensures var c := BuildContent(a);
      && c == a.config.(roomTypes := a.roomTypes, rooms := c.rooms, status := a.status)
      && (forall r :: r in c.rooms <==> Shows(a, r))
      && Ascending(c.rooms) && |c.rooms| == |a.rooms|
  {
    var c := BuildContent(a);
    forall r
      ensures r in c.rooms <==> Shows(a, r)
    {
      SortHas(Listed(a, a.order), r);
      ListedShows(a, a.order, r);
    }
    var any := SyncRoom([], [], 0, false);
    SortHas(Listed(a, a.order), any);
    ListedShows(a, a.order, any);
    OrderSize(a.order, a.rooms);
    SortAscends(a, a.order);
  }

  /** A poll is answered once, with the next number; the content is left out exactly if its hash is the one known. */
  lemma PollTakenShows(a: Agent, reqId: nat, known: Option<Hash>, echoed: Status, succeeds: bool)
    requires AgentValid(a)
    ensures var (b, answer) := Take(a, Poll(reqId, known, echoed), succeeds);
      var content := BuildContent(a);
      && b == a.(seqNo := a.seqNo + 1)
      && answer == [State(reqId, known != Some(HashOf(content)), Snapshot(a.seqNo + 1, HashOf(content), content))]
  {
  }
}
