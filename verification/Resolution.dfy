/**
 * Public room ids.  Raw ids reported by different instances may clash: one room of each clash keeps the
 * (encoded) id, the others surface as `<processUid>~<id>`.  The choice is defined here on the records
 * alone, without any iteration order.
 */
module Resolution {
  import opened Prelude
  import opened Utf8
  import opened RoomId
  import opened FleetTypes
  import opened SnapshotHash
  import opened Ordered

  /** The public row plus the protocol bookkeeping of one connection. */
  datatype Record = Record(info: InstanceInfo, lastSeq: nat, lastHash: Hash, joinSeq: nat)

  type Records = map<InstanceId, Record>

  /** One reported room: an instance and a position in its list. */
  datatype Slot = Slot(instance: InstanceId, index: nat)

  predicate Present(m: Records, s: Slot) {
    s.instance in m && s.index < |m[s.instance].info.rooms|
  }

  function RoomAt(m: Records, s: Slot): RoomInfo
    requires Present(m, s)
  {
    m[s.instance].info.rooms[s.index]
  }

  function BaseAt(m: Records, s: Slot): Text
    requires Present(m, s)
  {
    EncodedRoomId(RoomAt(m, s).id)
  }

  /** Fleet rooms first, then the earliest joiner, then the lower instance id, then the reported order. */
  predicate Precedes(m: Records, a: Slot, b: Slot)
    requires Present(m, a) && Present(m, b)
  {
    var x, y := RoomAt(m, a), RoomAt(m, b);
    var p, q := m[a.instance].joinSeq, m[b.instance].joinSeq;
    if x.local != y.local then !x.local
    else if p != q then p < q
    else if a.instance != b.instance then a.instance < b.instance
    else a.index < b.index
  }

  lemma PrecedesTotal(m: Records, a: Slot, b: Slot)
    requires Present(m, a) && Present(m, b)
    ensures a != b ==> (Precedes(m, a, b) <==> !Precedes(m, b, a))
    ensures !Precedes(m, a, a)
  {
  }

  lemma PrecedesTransitive(m: Records, a: Slot, b: Slot, c: Slot)
    requires Present(m, a) && Present(m, b) && Present(m, c)
    requires Precedes(m, a, b) && Precedes(m, b, c)
    ensures Precedes(m, a, c)
  {
  }

  ghost predicate Rivals(m: Records, s: Slot, t: Slot) {
    Present(m, s) && Present(m, t) && s != t && BaseAt(m, s) == BaseAt(m, t)
  }

  /** The slot that keeps the id it shares with its rivals. */
  ghost predicate Keeps(m: Records, s: Slot)
    requires Present(m, s)
  {
    forall t :: Rivals(m, s, t) ==> Precedes(m, s, t)
  }

  ghost function PublicIdAt(m: Records, s: Slot): Text
    requires Present(m, s)
  {
    if Keeps(m, s) then BaseAt(m, s) else NamespaceRoomId(m[s.instance].info.processUid, BaseAt(m, s))
  }

  // ----- exactly one slot of a clash keeps the id -----

  lemma OneKeeper(m: Records, s: Slot, t: Slot)
    requires Rivals(m, s, t)
    ensures !(Keeps(m, s) && Keeps(m, t))
  {
    PrecedesTotal(m, s, t);
    assert Rivals(m, t, s);
  }

  function SlotsFrom(i: InstanceId, lo: nat, hi: nat): seq<Slot>
    requires lo <= hi
    decreases hi - lo
  {
    if lo == hi then [] else [Slot(i, lo)] + SlotsFrom(i, lo + 1, hi)
  }

  /** All slots in iteration order. */
  function Slots(order: seq<InstanceId>, m: Records): seq<Slot>
    requires KeySet(order) <= m.Keys
  {
    if order == [] then [] else SlotsFrom(order[0], 0, |m[order[0]].info.rooms|) + Slots(order[1..], m)
  }

  lemma {:induction false} SlotsFromHas(i: InstanceId, lo: nat, hi: nat, s: Slot)
    requires lo <= hi
    ensures s in KeySet(SlotsFrom(i, lo, hi)) <==> s.instance == i && lo <= s.index < hi
    decreases hi - lo
  {
    if lo < hi {
      SlotsFromHas(i, lo + 1, hi, s);
    }
  }

  lemma {:induction false} SlotsHas(order: seq<InstanceId>, m: Records, s: Slot)
    requires KeySet(order) <= m.Keys
    ensures s in KeySet(Slots(order, m)) <==> s.instance in KeySet(order) && Present(m, s)
  {
    if order != [] {
      SlotsFromHas(order[0], 0, |m[order[0]].info.rooms|, s);
      KeySetSplits(SlotsFrom(order[0], 0, |m[order[0]].info.rooms|), Slots(order[1..], m));
      SlotsHas(order[1..], m, s);
    }
  }

  /** The first slot of a base among those listed, unless `best` precedes it. */
  function Best(m: Records, slots: seq<Slot>, base: Text, best: Option<Slot>): Option<Slot>
    requires best.Some? ==> Present(m, best.value)
    requires forall s | s in KeySet(slots) :: Present(m, s)
    decreases slots
  {
    if slots == [] then best
    else
      assert forall s | s in KeySet(slots[1..]) :: s in KeySet(slots);
      assert slots[0] in KeySet(slots);
      Best(m, slots[1..], base, Better(m, slots[0], base, best))
  }

  function Better(m: Records, s: Slot, base: Text, best: Option<Slot>): Option<Slot>
    requires Present(m, s) && (best.Some? ==> Present(m, best.value))
  {
    if BaseAt(m, s) == base && (best.None? || Precedes(m, s, best.value)) then Some(s) else best
  }

  lemma {:induction false} BestIsFirst(m: Records, slots: seq<Slot>, base: Text, best: Option<Slot>)
    requires best.Some? ==> Present(m, best.value) && BaseAt(m, best.value) == base
    requires forall s | s in KeySet(slots) :: Present(m, s)
    ensures var r := Best(m, slots, base, best);
      && (r.Some? ==> Present(m, r.value) && BaseAt(m, r.value) == base && (r == best || r.value in KeySet(slots)))
      && (best.Some? ==> r.Some? && (r == best || Precedes(m, r.value, best.value)))
      && (forall s | s in KeySet(slots) && BaseAt(m, s) == base :: r.Some? && (s == r.value || Precedes(m, r.value, s)))
    decreases slots
  {
    if slots != [] {
      var s := slots[0];
      assert s in KeySet(slots) && forall t | t in KeySet(slots[1..]) :: t in KeySet(slots);
      var next := Better(m, s, base, best);
      BestIsFirst(m, slots[1..], base, next);
      var r := Best(m, slots[1..], base, next);
      if best.Some? && r != best {
        PrecedesThrough(m, r.value, next.value, best.value);
      }
      if BaseAt(m, s) == base {
        if next.value != s {
          PrecedesTotal(m, s, best.value);
        }
        PrecedesThrough(m, r.value, next.value, s);
      }
    }
  }

  /** `a` is `b` or before it, `b` is `c` or before it. */
  lemma PrecedesThrough(m: Records, a: Slot, b: Slot, c: Slot)
    requires Present(m, a) && Present(m, b) && Present(m, c)
    requires a == b || Precedes(m, a, b)
    requires b == c || Precedes(m, b, c)
    ensures a == c || Precedes(m, a, c)
  {
  }

  /** Every clash has a slot that keeps the id. */
  lemma KeeperExists(order: seq<InstanceId>, m: Records, s: Slot) returns (keeper: Slot)
    requires Orders(order, m) && Present(m, s)
    ensures Present(m, keeper) && BaseAt(m, keeper) == BaseAt(m, s) && Keeps(m, keeper)
    ensures Some(keeper) == KeeperOf(order, m, BaseAt(m, s))
  {
    AllPresent(order, m);
    var slots := Slots(order, m);
    SlotsHas(order, m, s);
    BestIsFirst(m, slots, BaseAt(m, s), None);
    keeper := Best(m, slots, BaseAt(m, s), None).value;
    forall t | Rivals(m, keeper, t)
      ensures Precedes(m, keeper, t)
    {
      SlotsHas(order, m, t);
    }
  }

  lemma AllPresent(order: seq<InstanceId>, m: Records)
    requires KeySet(order) <= m.Keys
    ensures forall s | s in KeySet(Slots(order, m)) :: Present(m, s)
  {
    forall s | s in KeySet(Slots(order, m))
      ensures Present(m, s)
    {
      SlotsHas(order, m, s);
    }
  }

  /** The keeper of a base as a loop over the records finds it. */
  function KeeperOf(order: seq<InstanceId>, m: Records, base: Text): Option<Slot>
    requires Orders(order, m)
  {
    AllPresent(order, m);
    Best(m, Slots(order, m), base, None)
  }

  /** What the loop computes does not depend on the order it runs in. */
  lemma KeeperDecides(order: seq<InstanceId>, m: Records, s: Slot)
    requires Orders(order, m) && Present(m, s)
    ensures KeeperOf(order, m, BaseAt(m, s)).Some?
    ensures Keeps(m, s) <==> KeeperOf(order, m, BaseAt(m, s)) == Some(s)
  {
    var keeper := KeeperExists(order, m, s);
    if keeper != s && Keeps(m, s) {
      OneKeeper(m, s, keeper);
    }
  }
}
