/** What public ids promise: when they are unambiguous, and what looking one up finds. */
module PublicIds {
  import opened Utf8
  import opened RoomId
  import opened FleetTypes
  import opened SnapshotHash
  import opened Ordered
  import opened Resolution

  lemma SameBaseSameId(m: Records, s: Slot, t: Slot)
    requires Present(m, s) && Present(m, t)
    ensures BaseAt(m, s) == BaseAt(m, t) <==> RoomAt(m, s).id == RoomAt(m, t).id
  {
    if BaseAt(m, s) == BaseAt(m, t) {
      EncodedRoomIdInjective(RoomAt(m, s).id, RoomAt(m, t).id);
    }
  }

  /** Two rooms share a public id only as losers of one clash reported by connections of one process. */
  lemma SamePublicId(m: Records, s: Slot, t: Slot)
    requires Present(m, s) && Present(m, t) && s != t
    ensures PublicIdAt(m, s) == PublicIdAt(m, t) <==>
      && RoomAt(m, s).id == RoomAt(m, t).id
      && m[s.instance].info.processUid == m[t.instance].info.processUid
      && !Keeps(m, s) && !Keeps(m, t)
  {
    var us, ut := m[s.instance].info.processUid, m[t.instance].info.processUid;
    SameBaseSameId(m, s, t);
    EncodedRoomIdSafe(RoomAt(m, s).id);
    EncodedRoomIdSafe(RoomAt(m, t).id);
    NamespacedIsNotEncoded(us, BaseAt(m, s), RoomAt(m, t).id);
    NamespacedIsNotEncoded(ut, BaseAt(m, t), RoomAt(m, s).id);
    if BaseAt(m, s) == BaseAt(m, t) {
      OneKeeper(m, s, t);
    }
    if NamespaceRoomId(us, BaseAt(m, s)) == NamespaceRoomId(ut, BaseAt(m, t)) {
      NamespaceUnambiguous(us, BaseAt(m, s), ut, BaseAt(m, t));
    }
  }

  // ----- exactly when they are unambiguous -----

  ghost predicate Unambiguous(m: Records) {
    forall s, t :: Present(m, s) && Present(m, t) && s != t ==> PublicIdAt(m, s) != PublicIdAt(m, t)
  }

  /** One id reported by two connections of one process, while another slot comes before both. */
  ghost predicate TwinLosers(m: Records, s: Slot, t: Slot, holder: Slot) {
    && Rivals(m, s, t) && Rivals(m, holder, s) && Rivals(m, holder, t)
    && m[s.instance].info.processUid == m[t.instance].info.processUid
    && Precedes(m, holder, s) && Precedes(m, holder, t)
  }

  lemma UnambiguousExactly(m: Records)
    ensures Unambiguous(m) <==> !exists s, t, holder :: TwinLosers(m, s, t, holder)
  {
    if s, t, holder :| TwinLosers(m, s, t, holder) {
      TwinsClash(m, s, t, holder);
    } else {
      forall s, t | Present(m, s) && Present(m, t) && s != t
        ensures PublicIdAt(m, s) != PublicIdAt(m, t)
      {
        if PublicIdAt(m, s) == PublicIdAt(m, t) {
          var holder := ClashHasTwins(m, s, t);
        }
      }
    }
  }

  lemma TwinsClash(m: Records, s: Slot, t: Slot, holder: Slot)
    requires TwinLosers(m, s, t, holder)
    ensures Present(m, s) && Present(m, t) && s != t && PublicIdAt(m, s) == PublicIdAt(m, t)
  {
    SamePublicId(m, s, t);
    SameBaseSameId(m, s, t);
    PrecedesTotal(m, holder, s);
    PrecedesTotal(m, holder, t);
    assert Rivals(m, s, holder) && Rivals(m, t, holder);
  }

  lemma ClashHasTwins(m: Records, s: Slot, t: Slot) returns (holder: Slot)
    requires Present(m, s) && Present(m, t) && s != t && PublicIdAt(m, s) == PublicIdAt(m, t)
    ensures TwinLosers(m, s, t, holder)
  {
    SamePublicId(m, s, t);
    SameBaseSameId(m, s, t);
    PrecedesTotal(m, s, t);
    var first := if Precedes(m, s, t) then s else t;
    var last := if Precedes(m, s, t) then t else s;
    holder :| Rivals(m, first, holder) && !Precedes(m, first, holder);
    PrecedesTotal(m, first, holder);
    PrecedesTransitive(m, holder, first, last);
    PrecedesTotal(m, holder, last);
  }

  /** Processes that report one connection each, without repeating an id, never clash. */
  lemma DistinctProcessesUnambiguous(m: Records)
    requires forall i, j | i in m && j in m && i != j :: m[i].info.processUid != m[j].info.processUid
    requires forall s, t | Present(m, s) && Present(m, t) && s.instance == t.instance && s != t ::
      RoomAt(m, s).id != RoomAt(m, t).id
    ensures Unambiguous(m)
  {
    forall s, t | Present(m, s) && Present(m, t) && s != t
      ensures PublicIdAt(m, s) != PublicIdAt(m, t)
    {
      SamePublicId(m, s, t);
    }
  }

  /** A record of one room, for the example below. */
  function Reporting(c: Content, h: Hash, i: InstanceId, uid: Text, joinSeq: nat, id: Text): Record {
    Record(BuildInstanceInfo(i, c.(processUid := uid, rooms := [SyncRoom(id, [], 0, true)]), 0), 1, h, joinSeq)
  }

  /** A process has reconnected before its old connection is evicted, and another process holds the id already. */
  function Overlap(c: Content, h: Hash, uid: Text, other: Text, id: Text): Records {
    map[1 := Reporting(c, h, 1, other, 1, id), 2 := Reporting(c, h, 2, uid, 2, id), 3 := Reporting(c, h, 3, uid, 3, id)]
  }

  lemma ReportsOne(c: Content, h: Hash, i: InstanceId, uid: Text, joinSeq: nat, id: Text)
    ensures var r := Reporting(c, h, i, uid, joinSeq, id);
      && r.joinSeq == joinSeq && r.info.processUid == uid && |r.info.rooms| == 1
      && r.info.rooms[0].id == id && !r.info.rooms[0].local
  {
    var r := Reporting(c, h, i, uid, joinSeq, id);
    assert r.info.rooms[0] == RoomInfoOf(i, c.endpointUrl, SyncRoom(id, [], 0, true));
  }

  lemma ReconnectCanClash(c: Content, h: Hash, uid: Text, other: Text, id: Text)
    requires uid != other
    ensures var m := Overlap(c, h, uid, other, id);
      && Present(m, Slot(2, 0)) && Present(m, Slot(3, 0))
      && PublicIdAt(m, Slot(2, 0)) == PublicIdAt(m, Slot(3, 0)) && !Unambiguous(m)
  {
    var m := Overlap(c, h, uid, other, id);
    ReportsOne(c, h, 1, other, 1, id);
    ReportsOne(c, h, 2, uid, 2, id);
    ReportsOne(c, h, 3, uid, 3, id);
    assert TwinLosers(m, Slot(2, 0), Slot(3, 0), Slot(1, 0));
    TwinsClash(m, Slot(2, 0), Slot(3, 0), Slot(1, 0));
  }

  // ----- looking up -----

  /** The public index: filled in iteration order, a later room replacing an earlier one of the same public id. */
  ghost function Index(m: Records, slots: seq<Slot>): map<Text, Slot>
    requires forall s | s in KeySet(slots) :: Present(m, s)
    decreases slots
  {
    if slots == [] then map[]
    else
      var front, last := slots[..|slots| - 1], slots[|slots| - 1];
      FrontAndLast(slots);
      Index(m, front)[PublicIdAt(m, last) := last]
  }

  lemma FrontAndLast<T>(s: seq<T>)
    requires s != []
    ensures KeySet(s) == KeySet(s[..|s| - 1]) + {s[|s| - 1]}
  {
    assert s == s[..|s| - 1] + [s[|s| - 1]];
    KeySetSplits(s[..|s| - 1], [s[|s| - 1]]);
  }

  lemma {:induction false} IndexFinds(m: Records, slots: seq<Slot>)
    requires forall s | s in KeySet(slots) :: Present(m, s)
    ensures forall r | r in Index(m, slots) ::
      Index(m, slots)[r] in KeySet(slots) && PublicIdAt(m, Index(m, slots)[r]) == r
    ensures forall s | s in KeySet(slots) :: PublicIdAt(m, s) in Index(m, slots)
    decreases slots
  {
    if slots != [] {
      FrontAndLast(slots);
      IndexFinds(m, slots[..|slots| - 1]);
    }
  }

  ghost function PublicIndex(order: seq<InstanceId>, m: Records): map<Text, Slot>
    requires Orders(order, m)
  {
    AllPresent(order, m);
    Index(m, Slots(order, m))
  }

  lemma PublicIndexFinds(order: seq<InstanceId>, m: Records)
    requires Orders(order, m)
    ensures forall r | r in PublicIndex(order, m) ::
      Present(m, PublicIndex(order, m)[r]) && PublicIdAt(m, PublicIndex(order, m)[r]) == r
    ensures forall s | Present(m, s) :: PublicIdAt(m, s) in PublicIndex(order, m)
  {
    AllPresent(order, m);
    IndexFinds(m, Slots(order, m));
    forall s | Present(m, s)
      ensures PublicIdAt(m, s) in PublicIndex(order, m)
    {
      SlotsHas(order, m, s);
    }
  }

  /** Unambiguous ids map back to their owners, in whatever order the records iterate. */
  lemma LookupInverts(order: seq<InstanceId>, m: Records, s: Slot)
    requires Orders(order, m) && Unambiguous(m) && Present(m, s)
    ensures PublicIdAt(m, s) in PublicIndex(order, m) && PublicIndex(order, m)[PublicIdAt(m, s)] == s
  {
    PublicIndexFinds(order, m);
    var found := PublicIndex(order, m)[PublicIdAt(m, s)];
    assert Present(m, found);
  }

  lemma LookupIgnoresOrder(order: seq<InstanceId>, order': seq<InstanceId>, m: Records)
    requires Orders(order, m) && Orders(order', m) && Unambiguous(m)
    ensures PublicIndex(order, m) == PublicIndex(order', m)
  {
    var x, y := PublicIndex(order, m), PublicIndex(order', m);
    PublicIndexFinds(order, m);
    PublicIndexFinds(order', m);
    forall r | r in x
      ensures r in y && x[r] == y[r]
    {
      LookupInverts(order', m, x[r]);
    }
    forall r | r in y
      ensures r in x
    {
      LookupInverts(order, m, y[r]);
    }
  }

  ghost predicate Reported(m: Records, id: Text) {
    exists s :: Present(m, s) && RoomAt(m, s).id == id
  }

  /** A fleet-created id is looked up successfully exactly while some instance reports it. */
  lemma FoundIffReported(order: seq<InstanceId>, m: Records, id: Text)
    requires Orders(order, m) && IsValidRoomId(id)
    ensures id in PublicIndex(order, m) <==> Reported(m, id)
  {
    PublicIndexFinds(order, m);
    if s :| Present(m, s) && RoomAt(m, s).id == id {
      var keeper := KeeperExists(order, m, s);
      assert PublicIdAt(m, keeper) == EncodedRoomId(id) == id;
    }
    if id in PublicIndex(order, m) {
      var s := PublicIndex(order, m)[id];
      NamespacedIsNotEncoded(m[s.instance].info.processUid, BaseAt(m, s), id);
      EncodedRoomIdInjective(RoomAt(m, s).id, id);
    }
  }

  /** What the keeper is called: an id from the charset keeps its plain form. */
  lemma KeeperKeepsPlainId(order: seq<InstanceId>, m: Records, s: Slot)
    requires Orders(order, m) && Present(m, s) && Keeps(m, s) && IsValidRoomId(RoomAt(m, s).id)
    ensures RoomAt(m, s).id in PublicIndex(order, m) && PublicIndex(order, m)[RoomAt(m, s).id] == s
  {
    PublicIndexFinds(order, m);
    var found := PublicIndex(order, m)[PublicIdAt(m, s)];
    if found != s {
      SamePublicId(m, found, s);
    }
  }
}
