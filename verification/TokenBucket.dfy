/** The inbound rate limiter: one token bucket per actor, swept when idle and capped in number. */
module TokenBucket {
  import opened Ordered

  type ActorId = string

  type Positive = n: nat | n > 0 witness 1

  datatype Config = Config(capacity: real, refillPerMs: real, maxBuckets: Positive, idleEvictMs: real)

  /** What the constructor accepts. */
  ghost predicate Sound(c: Config) {
    c.capacity > 0.0 && c.refillPerMs > 0.0 && c.idleEvictMs > 0.0
  }

  datatype Bucket = Bucket(tokens: real, lastRefill: real)

  datatype Limiter = Limiter(order: seq<ActorId>, buckets: map<ActorId, Bucket>, lastSweep: real)

  ghost predicate Valid(c: Config, l: Limiter) {
    Orders(l.order, l.buckets) && |l.buckets| <= c.maxBuckets
  }

  const EMPTY: Limiter := Limiter([], map[], 0.0)

  function Min(a: real, b: real): real {
    if a < b then a else b
  }

  // ----- one check, as a function -----

  predicate Idle(c: Config, b: Bucket, now: real) {
    now - b.lastRefill >= c.idleEvictMs
  }

  function Idlers(c: Config, buckets: map<ActorId, Bucket>, now: real): set<ActorId> {
    set a | a in buckets && Idle(c, buckets[a], now)
  }

  function Swept(c: Config, l: Limiter, now: real): Limiter {
    if now - l.lastSweep < c.idleEvictMs then l
    else var gone := Idlers(c, l.buckets, now); Limiter(Minus(l.order, gone), l.buckets - gone, now)
  }

  /** A backward clock only moves the baseline; otherwise tokens accrue up to the capacity. */
  function Refilled(c: Config, b: Bucket, now: real): Bucket {
    var elapsed := now - b.lastRefill;
    if elapsed < 0.0 then b.(lastRefill := now)
    else if elapsed > 0.0 then Bucket(Min(c.capacity, b.tokens + elapsed * c.refillPerMs), now)
    else b
  }

  function BucketAt(c: Config, buckets: map<ActorId, Bucket>, actor: ActorId, now: real): Bucket {
    if actor in buckets then Refilled(c, buckets[actor], now) else Bucket(c.capacity, now)
  }

  function Spent(b: Bucket): Bucket {
    if b.tokens >= 1.0 then b.(tokens := b.tokens - 1.0) else b
  }

  /** Everything but the bucket of the actor; a new actor may push out the least recent one. */
  function Others(c: Config, l: Limiter, actor: ActorId): Limiter {
    if actor in l.buckets then l.(order := Without(l.order, actor), buckets := l.buckets - {actor})
    else if |l.order| < c.maxBuckets then l
    else l.(order := l.order[1..], buckets := l.buckets - {l.order[0]})
  }

  /** The touched bucket is the most recent one. */
  function Touched(c: Config, l: Limiter, actor: ActorId, b: Bucket): Limiter {
    var others := Others(c, l, actor);
    others.(order := others.order + [actor], buckets := others.buckets[actor := b])
  }

  function Checked(c: Config, l: Limiter, actor: ActorId, now: real): (Limiter, bool) {
    var s := Swept(c, l, now);
    var b := BucketAt(c, s.buckets, actor, now);
    (Touched(c, s, actor, Spent(b)), b.tokens >= 1.0)
  }

  function Released(l: Limiter, actor: ActorId): Limiter {
    l.(order := Without(l.order, actor), buckets := l.buckets - {actor})
  }

  lemma TouchedValid(c: Config, l: Limiter, actor: ActorId, b: Bucket)
    requires Valid(c, l)
    ensures Valid(c, Touched(c, l, actor, b))
    ensures actor !in Others(c, l, actor).buckets
  {
    OrderSize(l.order, l.buckets);
    if actor in l.buckets {
      OrdersWithout(l.order, l.buckets, actor);
    } else if |l.order| >= c.maxBuckets {
      OrdersTail(l.order, l.buckets);
    }
    var others := Others(c, l, actor);
    OrdersAppend(others.order, others.buckets, actor, b);
  }

  /** Inserting first and evicting afterwards, as the class does. */
  lemma TouchedEvicts(c: Config, l: Limiter, actor: ActorId, b: Bucket)
    requires Valid(c, l) && actor !in l.buckets
    ensures |l.buckets[actor := b]| == |l.order| + 1
    ensures |l.order| < c.maxBuckets ==>
      Touched(c, l, actor, b) == Limiter(l.order + [actor], l.buckets[actor := b], l.lastSweep)
    ensures |l.order| >= c.maxBuckets ==>
      Touched(c, l, actor, b)
      == Limiter((l.order + [actor])[1..], l.buckets[actor := b] - {(l.order + [actor])[0]}, l.lastSweep)
  {
    OrderSize(l.order, l.buckets);
    assert l.buckets[actor := b].Keys == l.buckets.Keys + {actor};
    if |l.order| >= c.maxBuckets {
      var oldest := l.order[0];
      KeySetHas(l.order, 0);
      assert (l.order + [actor])[1..] == l.order[1..] + [actor];
      assert l.buckets[actor := b] - {oldest} == (l.buckets - {oldest})[actor := b];
    }
  }

  /** The bucket of an actor can be written after it was touched. */
  lemma TouchedAgain(c: Config, l: Limiter, actor: ActorId, b: Bucket, b': Bucket)
    ensures var t := Touched(c, l, actor, b);
      Touched(c, l, actor, b') == t.(buckets := t.buckets[actor := b'])
  {
    var others := Others(c, l, actor);
    assert others.buckets[actor := b][actor := b'] == others.buckets[actor := b'];
  }

  // ----- the class -----

  class TokenBucketRateLimiter {
    const config: Config
    var order: seq<ActorId>
    var state: map<ActorId, Bucket>
    var lastSweep: real

    ghost function Model(): Limiter
      reads this
    {
      Limiter(order, state, lastSweep)
    }

    constructor (config: Config)
      requires Sound(config)
      ensures this.config == config && Model() == EMPTY && Valid(config, Model())
    {
      this.config := config;
      order, state, lastSweep := [], map[], 0.0;
    }

    method Check(actorId: ActorId, now: real) returns (allowed: bool)
      requires Sound(config) && Valid(config, Model())
      modifies this
      ensures Valid(config, Model())
      ensures (Model(), allowed) == Checked(config, old(Model()), actorId, now)
    {
      SweepIdle(now);
      ghost var swept := Model();
      var entry := Touch(actorId, now);
      TouchedValid(config, swept, actorId, Spent(entry));
      TouchedAgain(config, swept, actorId, entry, Spent(entry));
      allowed := entry.tokens >= 1.0;
      if allowed {
        state := state[actorId := entry.(tokens := entry.tokens - 1.0)];
      }
    }

    /** The refilled entry of the actor, moved to or created at the most recent end. */
    method Touch(actorId: ActorId, now: real) returns (entry: Bucket)
      requires Sound(config) && Valid(config, Model())
      modifies this
      ensures entry == BucketAt(config, old(state), actorId, now)
      ensures Model() == Touched(config, old(Model()), actorId, entry)
      ensures actorId in state && state[actorId] == entry
    {
      if actorId !in state {
        entry := Bucket(config.capacity, now);
        TouchedEvicts(config, Model(), actorId, entry);
        OrdersAppend(order, state, actorId, entry);
        order, state := order + [actorId], state[actorId := entry];
        EvictOverCap(actorId);
      } else {
        entry := Refill(state[actorId], now);
        order, state := Without(order, actorId), state - {actorId};
        order, state := order + [actorId], state[actorId := entry];
      }
    }

    method Refill(entry: Bucket, now: real) returns (r: Bucket)
      ensures r == Refilled(config, entry, now)
    {
      r := entry;
      var elapsed := now - r.lastRefill;
      if elapsed < 0.0 {
        r := r.(lastRefill := now);
      } else if elapsed > 0.0 {
        r := Bucket(Min(config.capacity, r.tokens + elapsed * config.refillPerMs), now);
      }
    }

    method Release(actorId: ActorId)
      requires Valid(config, Model())
      modifies this
      ensures Valid(config, Model()) && Model() == Released(old(Model()), actorId)
    {
      OrdersWithout(order, state, actorId);
      order, state := Without(order, actorId), state - {actorId};
    }

    method SweepIdle(now: real)
      requires Valid(config, Model())
      modifies this
      ensures Valid(config, Model()) && Model() == Swept(config, old(Model()), now)
    {
      SweptValid(config, Model(), now);
      if now - lastSweep >= config.idleEvictMs {
        lastSweep := now;
        DropIdle(now);
      }
    }

    method DropIdle(now: real)
      requires Valid(config, Model())
      modifies this
      ensures lastSweep == old(lastSweep)
      ensures state == old(state) - Idlers(config, old(state), now)
      ensures order == Minus(old(order), Idlers(config, old(state), now))
    {
      var ids, i := order, 0;
      ghost var all, gone := state, Idlers(config, state, now);
      DeletingAll(ids, all, gone);
      while i < |ids|
        invariant 0 <= i <= |ids| && lastSweep == old(lastSweep)
        invariant forall a | a in state :: a in all && state[a] == all[a]
        invariant Deleting(order, state, ids[i..], gone) == Deleting(ids, all, ids, gone)
      {
        var id := ids[i];
        assert ids[i..] == [id] + ids[i + 1..];
        if id in state && now - state[id].lastRefill >= config.idleEvictMs {
          order, state := Without(order, id), state - {id};
        }
        i := i + 1;
      }
    }

    /** Evict from the least recent end; the actor just inserted is skipped. */
    method EvictOverCap(keepActorId: ActorId)
      requires Orders(order, state) && |state| <= config.maxBuckets + 1
      requires order != [] && order[|order| - 1] == keepActorId
      modifies this
      ensures lastSweep == old(lastSweep)
      ensures |old(state)| <= config.maxBuckets ==> order == old(order) && state == old(state)
      ensures |old(state)| > config.maxBuckets ==>
        order == old(order)[1..] && state == old(state) - {old(order)[0]}
    {
      if |state| <= config.maxBuckets {
        return;
      }
      var ids, i := order, 0;
      ghost var all := state;
      OrdersTail(ids, all);
      KeySetHas(ids[1..], |ids| - 2);
      while i < |ids| && |state| > config.maxBuckets
        invariant i == 0 || i == 1
        invariant lastSweep == old(lastSweep)
        invariant i == 0 ==> order == ids && state == all
        invariant i == 1 ==> order == ids[1..] && state == all - {ids[0]}
      {
        var id := ids[i];
        if id != keepActorId {
          order, state := Without(order, id), state - {id};
        }
        i := i + 1;
      }
    }
  }

  lemma SweptValid(c: Config, l: Limiter, now: real)
    requires Valid(c, l)
    ensures Valid(c, Swept(c, l, now))
  {
    var gone := Idlers(c, l.buckets, now);
    OrdersMinus(l.order, l.buckets, gone);
    SubsetSize((l.buckets - gone).Keys, l.buckets.Keys);
  }
}
