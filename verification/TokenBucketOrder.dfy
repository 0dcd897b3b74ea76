/** The order of the rate limiter's map is recency, so the hard cap takes the least recent bucket. */
module TokenBucketOrder {
  import opened Ordered
  import opened TokenBucket
  import opened TokenBucketLaws

  /** Later keys were used no earlier; all of them between `lo` and `hi`. */
  ghost predicate Recent(order: seq<ActorId>, m: Buckets, lo: real, hi: real) {
    order != [] ==>
      && order[0] in m
      && lo <= m[order[0]].lastRefill <= hi
      && Recent(order[1..], m, m[order[0]].lastRefill, hi)
  }

  lemma {:induction false} RecentAgain(order: seq<ActorId>, m: Buckets, lo: real, hi: real, m': Buckets, lo': real,
                                       hi': real)
    requires Recent(order, m, lo, hi) && lo' <= lo && hi <= hi'
    requires forall k | k in KeySet(order) && k in m :: k in m' && m'[k] == m[k]
    ensures Recent(order, m', lo', hi')
  {
    if order != [] {
      RecentAgain(order[1..], m, m[order[0]].lastRefill, hi, m', m[order[0]].lastRefill, hi');
    }
  }

  lemma {:induction false} RecentMinus(order: seq<ActorId>, m: Buckets, lo: real, hi: real, gone: set<ActorId>)
    requires Recent(order, m, lo, hi)
    ensures Recent(Minus(order, gone), m, lo, hi)
    decreases order
  {
    if order != [] {
      var last := m[order[0]].lastRefill;
      RecentMinus(order[1..], m, last, hi, gone);
      if order[0] in gone {
        RecentAgain(Minus(order[1..], gone), m, last, hi, m, lo, hi);
      }
    }
  }

  lemma {:induction false} RecentWithout(order: seq<ActorId>, m: Buckets, lo: real, hi: real, key: ActorId)
    requires Recent(order, m, lo, hi)
    ensures Recent(Without(order, key), m, lo, hi)
    decreases order
  {
    if order != [] {
      var last := m[order[0]].lastRefill;
      RecentWithout(order[1..], m, last, hi, key);
      if order[0] == key {
        RecentAgain(Without(order[1..], key), m, last, hi, m, lo, hi);
      }
    }
  }

  lemma {:induction false} RecentAppend(order: seq<ActorId>, m: Buckets, lo: real, hi: real, key: ActorId)
    requires Recent(order, m, lo, hi) && lo <= hi && key in m && m[key].lastRefill == hi
    ensures Recent(order + [key], m, lo, hi)
    decreases order
  {
    if order == [] {
      assert [] + [key] == [key] && [key][1..] == [];
    } else {
      assert (order + [key])[1..] == order[1..] + [key];
      RecentAppend(order[1..], m, m[order[0]].lastRefill, hi, key);
    }
  }

  /** The first key is the one used longest ago. */
  lemma {:induction false} FirstIsOldest(order: seq<ActorId>, m: Buckets, lo: real, hi: real)
    requires Recent(order, m, lo, hi)
    ensures forall a | a in KeySet(order) :: a in m && lo <= m[a].lastRefill <= hi
    ensures order != [] ==> forall a | a in KeySet(order) :: m[order[0]].lastRefill <= m[a].lastRefill
  {
    if order != [] {
      FirstIsOldest(order[1..], m, m[order[0]].lastRefill, hi);
    }
  }

  lemma TouchKeepsOrder(c: Config, l: Limiter, actor: ActorId, b: Bucket, lo: real, now: real)
    requires Valid(c, l) && Recent(l.order, l.buckets, lo, now) && lo <= now && b.lastRefill == now
    ensures var t := Touched(c, l, actor, b); Recent(t.order, t.buckets, lo, now)
  {
    var o := Others(c, l, actor);
    TouchedValid(c, l, actor, b);
    OrderSize(l.order, l.buckets);
    if actor in l.buckets {
      RecentWithout(l.order, l.buckets, lo, now, actor);
      KeySetWithout(l.order, actor);
    } else if |l.order| >= c.maxBuckets {
      RecentAgain(l.order[1..], l.buckets, l.buckets[l.order[0]].lastRefill, now, l.buckets, lo, now);
    }
    RecentAgain(o.order, l.buckets, lo, now, o.buckets[actor := b], lo, now);
    RecentAppend(o.order, o.buckets[actor := b], lo, now, actor);
  }

  lemma SweepKeepsOrder(c: Config, l: Limiter, lo: real, t: real, now: real)
    requires Valid(c, l) && Recent(l.order, l.buckets, lo, t) && t <= now
    ensures var s := Swept(c, l, now); Recent(s.order, s.buckets, lo, now)
  {
    var gone := Idlers(c, l.buckets, now);
    RecentAgain(l.order, l.buckets, lo, t, l.buckets, lo, now);
    RecentMinus(l.order, l.buckets, lo, now, gone);
    KeySetMinus(l.order, gone);
    RecentAgain(Minus(l.order, gone), l.buckets, lo, now, l.buckets - gone, lo, now);
  }

  lemma StepKeepsOrder(c: Config, l: Limiter, e: Event, lo: real, t: real)
    requires Sound(c) && Valid(c, l) && Recent(l.order, l.buckets, lo, t) && lo <= t <= TimeOf(e, t)
    ensures Valid(c, Next(c, l, e)) && Recent(Next(c, l, e).order, Next(c, l, e).buckets, lo, TimeOf(e, t))
  {
    if e.Check? {
      var s := Swept(c, l, e.now);
      SweptValid(c, l, e.now);
      SweepKeepsOrder(c, l, lo, t, e.now);
      FirstIsOldest(s.order, s.buckets, lo, e.now);
      var b := Spent(BucketAt(c, s.buckets, e.actor, e.now));
      TouchedValid(c, s, e.actor, b);
      TouchKeepsOrder(c, s, e.actor, b, lo, e.now);
    } else {
      OrdersWithout(l.order, l.buckets, e.actor);
      SubsetSize((l.buckets - {e.actor}).Keys, l.buckets.Keys);
      RecentWithout(l.order, l.buckets, lo, t, e.actor);
      KeySetWithout(l.order, e.actor);
      RecentAgain(Without(l.order, e.actor), l.buckets, lo, t, l.buckets - {e.actor}, lo, t);
    }
  }

  /** At every point of every run the map is within its cap and in order of recency. */
  lemma {:induction false} RunKeepsOrder(c: Config, l: Limiter, events: seq<Event>, lo: real, t: real)
    requires Sound(c) && Valid(c, l) && Recent(l.order, l.buckets, lo, t) && lo <= t && Monotone(events, t)
    ensures Valid(c, After(c, l, events)) && |After(c, l, events).buckets| <= c.maxBuckets
    ensures Recent(After(c, l, events).order, After(c, l, events).buckets, lo, EndTime(events, t))
    decreases events
  {
    if events != [] {
      StepKeepsOrder(c, l, events[0], lo, t);
      RunKeepsOrder(c, Next(c, l, events[0]), events[1..], lo, TimeOf(events[0], t));
    }
  }

  lemma VictimOfTouch(c: Config, s: Limiter, actor: ActorId, b: Bucket, now: real, gone: ActorId)
    requires Valid(c, s) && Recent(s.order, s.buckets, 0.0, now)
    requires gone in s.buckets && gone !in Touched(c, s, actor, b).buckets
    ensures gone != actor && actor in Touched(c, s, actor, b).buckets
    ensures forall a | a in s.buckets :: s.buckets[gone].lastRefill <= s.buckets[a].lastRefill
    ensures Touched(c, s, actor, b).buckets.Keys == s.buckets.Keys - {gone} + {actor}
  {
    FirstIsOldest(s.order, s.buckets, 0.0, now);
    OrderSize(s.order, s.buckets);
  }

  /** Whoever a check pushes out was used no later than anyone else, and is never the one just checked. */
  lemma VictimIsLeastRecent(c: Config, before: seq<Event>, actor: ActorId, now: real, gone: ActorId)
    requires Sound(c) && Monotone(before + [Check(actor, now)], 0.0)
    requires var l := After(c, EMPTY, before);
      gone in Swept(c, l, now).buckets && gone !in Checked(c, l, actor, now).0.buckets
    ensures var l := After(c, EMPTY, before);
      && gone != actor && actor in Checked(c, l, actor, now).0.buckets
      && (forall a | a in Swept(c, l, now).buckets ::
            Swept(c, l, now).buckets[gone].lastRefill <= Swept(c, l, now).buckets[a].lastRefill)
      && Checked(c, l, actor, now).0.buckets.Keys == Swept(c, l, now).buckets.Keys - {gone} + {actor}
  {
    MonotoneSplits(before, [Check(actor, now)], 0.0);
    RunKeepsOrder(c, EMPTY, before, 0.0, 0.0);
    var t := EndTime(before, 0.0);
    var l := After(c, EMPTY, before);
    var s := Swept(c, l, now);
    SweptValid(c, l, now);
    SweepKeepsOrder(c, l, 0.0, t, now);
    VictimOfTouch(c, s, actor, Spent(BucketAt(c, s.buckets, actor, now)), now, gone);
  }

  lemma {:induction false} MonotoneSplits(a: seq<Event>, b: seq<Event>, t: real)
    requires Monotone(a + b, t)
    ensures Monotone(a, t) && Monotone(b, EndTime(a, t))
    decreases a
  {
    if a == [] {
      assert a + b == b;
    } else {
      assert (a + b)[1..] == a[1..] + b;
      MonotoneSplits(a[1..], b, TimeOf(a[0], t));
    }
  }
}
