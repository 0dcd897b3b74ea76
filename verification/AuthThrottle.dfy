/** The failed-authentication throttle: one token bucket per source address, pruned and capped. */
module AuthThrottling {
  import opened Ordered
  import opened Prelude

  type Ip = string
  type Positive = n: nat | n > 0 witness 1

  datatype Config = Config(limit: real, windowMs: real, maxBuckets: Positive)

  ghost predicate Sound(c: Config) {
    c.limit > 0.0 && c.windowMs > 0.0
  }

  datatype Bucket = Bucket(tokens: real, last: real)
  type Buckets = map<Ip, Bucket>

  /** `lastPruneAt` is `None` before the first sweep. */
  datatype Throttle = Throttle(order: seq<Ip>, buckets: Buckets, lastPruneAt: Option<real>)

  ghost predicate Valid(c: Config, t: Throttle) {
    Orders(t.order, t.buckets) && |t.buckets| <= c.maxBuckets
  }

  const EMPTY: Throttle := Throttle([], map[], None)

  function Min(a: real, b: real): real {
    if a < b then a else b
  }

  function Max(a: real, b: real): real {
    if a > b then a else b
  }

  /** What accrues over a stretch of time. */
  function Gain(c: Config, elapsed: real): real
    requires c.windowMs != 0.0
  {
    elapsed / c.windowMs * c.limit
  }

  // ----- one request, as a function -----

  function Accrued(c: Config, b: Bucket, now: real): Bucket
    requires c.windowMs != 0.0
  {
    if now - b.last > 0.0 then Bucket(Min(c.limit, b.tokens + Gain(c, now - b.last)), now) else b
  }

  predicate Refilled(c: Config, b: Bucket, now: real)
    requires c.windowMs != 0.0
  {
    now - b.last > c.windowMs && Min(c.limit, b.tokens + Gain(c, now - b.last)) >= c.limit
  }

  function Full(c: Config, buckets: Buckets, now: real): set<Ip>
    requires c.windowMs != 0.0
  {
    set a | a in buckets && Refilled(c, buckets[a], now)
  }

  function Pruned(c: Config, t: Throttle, now: real): Throttle
    requires c.windowMs != 0.0
  {
    if t.lastPruneAt.Some? && now - t.lastPruneAt.value < c.windowMs then t
    else var gone := Full(c, t.buckets, now); Throttle(Minus(t.order, gone), t.buckets - gone, Some(now))
  }

  datatype Candidate = Candidate(ip: Ip, last: real)

  /** The first key with the smallest time, unless `best` is smaller still. */
  function Oldest(order: seq<Ip>, m: Buckets, best: Option<Candidate>): Option<Candidate> {
    if order == [] then best
    else Oldest(order[1..], m,
      if order[0] in m && (best.None? || m[order[0]].last < best.value.last)
        then Some(Candidate(order[0], m[order[0]].last)) else best)
  }

  function Evicted(c: Config, t: Throttle): Throttle {
    if |t.buckets| <= c.maxBuckets then t
    else match Oldest(t.order, t.buckets, None)
      case None => t
      case Some(oldest) => t.(order := Without(t.order, oldest.ip), buckets := t.buckets - {oldest.ip})
  }

  function BucketAt(c: Config, buckets: Buckets, ip: Ip, now: real): Bucket
    requires c.windowMs != 0.0
  {
    if ip in buckets then Accrued(c, buckets[ip], now) else Bucket(c.limit, now)
  }

  function Stored(c: Config, t: Throttle, ip: Ip, b: Bucket): Throttle {
    if ip in t.buckets then t.(buckets := t.buckets[ip := b])
    else Evicted(c, t.(order := t.order + [ip], buckets := t.buckets[ip := b]))
  }

  /** A bucket is updated in place; one that was evicted at once is forgotten. */
  function Charged(t: Throttle, ip: Ip, b: Bucket): Throttle {
    if ip in t.buckets then t.(buckets := t.buckets[ip := b.(tokens := Max(0.0, b.tokens - 1.0))]) else t
  }

  function Asked(c: Config, t: Throttle, ip: Ip, now: real): (Throttle, Bucket)
    requires c.windowMs != 0.0
  {
    var p := Pruned(c, t, now);
    var b := BucketAt(c, p.buckets, ip, now);
    (Stored(c, p, ip, b), b)
  }

  function Failed(c: Config, t: Throttle, ip: Ip, now: real): Throttle
    requires c.windowMs != 0.0
  {
    var (s, b) := Asked(c, t, ip, now);
    Charged(s, ip, b)
  }

  // ----- what keeps the map in shape -----

  lemma {:induction false} OldestIsFirstSmallest(order: seq<Ip>, m: Buckets, best: Option<Candidate>)
    requires KeySet(order) <= m.Keys
    ensures best.None? && order == [] ==> Oldest(order, m, best) == None
    ensures best.Some? || order != [] ==>
      && Oldest(order, m, best).Some?
      && var found := Oldest(order, m, best).value;
        && ((best.Some? && found == best.value) || (found.ip in KeySet(order) && m[found.ip].last == found.last))
        && (best.Some? ==> found.last <= best.value.last && (found.last == best.value.last ==> found == best.value))
        && forall a | a in KeySet(order) :: found.last <= m[a].last
    decreases order
  {
    if order != [] {
      var first := order[0];
      var next := if best.None? || m[first].last < best.value.last then Some(Candidate(first, m[first].last)) else best;
      assert Oldest(order, m, best) == Oldest(order[1..], m, next);
      OldestIsFirstSmallest(order[1..], m, next);
    }
  }

  lemma PrunedValid(c: Config, t: Throttle, now: real)
    requires Sound(c) && Valid(c, t)
    ensures Valid(c, Pruned(c, t, now))
  {
    var gone := Full(c, t.buckets, now);
    OrdersMinus(t.order, t.buckets, gone);
    SubsetSize((t.buckets - gone).Keys, t.buckets.Keys);
  }

  lemma EvictedValid(c: Config, t: Throttle)
    requires Orders(t.order, t.buckets) && |t.buckets| <= c.maxBuckets + 1
    ensures Valid(c, Evicted(c, t))
  {
    if |t.buckets| > c.maxBuckets {
      OrderSize(t.order, t.buckets);
      OldestIsFirstSmallest(t.order, t.buckets, None);
      var oldest := Oldest(t.order, t.buckets, None).value.ip;
      OrdersWithout(t.order, t.buckets, oldest);
      assert (t.buckets - {oldest}).Keys == t.buckets.Keys - {oldest};
    }
  }

  lemma StoredValid(c: Config, t: Throttle, ip: Ip, b: Bucket)
    requires Valid(c, t)
    ensures Valid(c, Stored(c, t, ip, b))
  {
    if ip in t.buckets {
      assert t.buckets[ip := b].Keys == t.buckets.Keys;
    } else {
      OrdersAppend(t.order, t.buckets, ip, b);
      assert t.buckets[ip := b].Keys == t.buckets.Keys + {ip};
      EvictedValid(c, t.(order := t.order + [ip], buckets := t.buckets[ip := b]));
    }
  }

  lemma ChargedValid(c: Config, t: Throttle, ip: Ip, b: Bucket)
    requires Valid(c, t)
    ensures Valid(c, Charged(t, ip, b))
  {
    if ip in t.buckets {
      assert t.buckets[ip := b.(tokens := Max(0.0, b.tokens - 1.0))].Keys == t.buckets.Keys;
    }
  }

  // ----- the class -----

  class AuthThrottle {
    const config: Config
    var order: seq<Ip>
    var buckets: Buckets
    var lastPruneAt: Option<real>

    ghost function Model(): Throttle
      reads this
    {
      Throttle(order, buckets, lastPruneAt)
    }

    constructor (config: Config)
      requires Sound(config)
      ensures this.config == config && Model() == EMPTY && Valid(config, Model())
    {
      this.config := config;
      order, buckets, lastPruneAt := [], map[], None;
    }

    method Blocked(ip: Ip, now: real) returns (blocked: bool)
      requires Sound(config) && Valid(config, Model())
      modifies this
      ensures Valid(config, Model())
      ensures (Model(), blocked) == (Asked(config, old(Model()), ip, now).0,
        Asked(config, old(Model()), ip, now).1.tokens < 1.0)
    {
      var bucket := Refill(ip, now);
      blocked := bucket.tokens < 1.0;
    }

    method RecordFailure(ip: Ip, now: real)
      requires Sound(config) && Valid(config, Model())
      modifies this
      ensures Valid(config, Model()) && Model() == Failed(config, old(Model()), ip, now)
    {
      var bucket := Refill(ip, now);
      ChargedValid(config, Model(), ip, bucket);
      if ip in buckets {
        buckets := buckets[ip := bucket.(tokens := Max(0.0, bucket.tokens - 1.0))];
      }
    }

    method Refill(ip: Ip, now: real) returns (bucket: Bucket)
      requires Sound(config) && Valid(config, Model())
      modifies this
      ensures Valid(config, Model()) && (Model(), bucket) == Asked(config, old(Model()), ip, now)
    {
      Prune(now);
      StoredValid(config, Model(), ip, BucketAt(config, buckets, ip, now));
      if ip !in buckets {
        bucket := Bucket(config.limit, now);
        Insert(ip, bucket);
      } else {
        bucket := buckets[ip];
        var elapsed := now - bucket.last;
        if elapsed > 0.0 {
          bucket := Bucket(Min(config.limit, bucket.tokens + Gain(config, elapsed)), now);
        }
        buckets := buckets[ip := bucket];
      }
    }

    method Insert(ip: Ip, bucket: Bucket)
      requires Valid(config, Model()) && ip !in buckets
      modifies this
      ensures Model() == Stored(config, old(Model()), ip, bucket)
    {
      OrdersAppend(order, buckets, ip, bucket);
      order, buckets := order + [ip], buckets[ip := bucket];
      EvictIfOver();
    }

    method Prune(now: real)
      requires Sound(config) && Valid(config, Model())
      modifies this
      ensures Valid(config, Model()) && Model() == Pruned(config, old(Model()), now)
    {
      PrunedValid(config, Model(), now);
      if lastPruneAt.None? || now - lastPruneAt.value >= config.windowMs {
        lastPruneAt := Some(now);
        DropRefilled(now);
      }
    }

    method DropRefilled(now: real)
      requires Sound(config) && Valid(config, Model())
      modifies this
      ensures lastPruneAt == old(lastPruneAt)
      ensures buckets == old(buckets) - Full(config, old(buckets), now)
      ensures order == Minus(old(order), Full(config, old(buckets), now))
    {
      var ips, i := order, 0;
      ghost var all, gone := buckets, Full(config, buckets, now);
      DeletingAll(ips, all, gone);
      while i < |ips|
        invariant 0 <= i <= |ips| && lastPruneAt == old(lastPruneAt)
        invariant forall a | a in buckets :: a in all && buckets[a] == all[a]
        invariant Deleting(order, buckets, ips[i..], gone) == Deleting(ips, all, ips, gone)
      {
        var ip := ips[i];
        assert ips[i..] == [ip] + ips[i + 1..];
        if ip in buckets && Refilled(config, buckets[ip], now) {
          order, buckets := Without(order, ip), buckets - {ip};
        }
        i := i + 1;
      }
    }

    method EvictIfOver()
      requires KeySet(order) == buckets.Keys
      modifies this
      ensures Model() == Evicted(config, old(Model()))
    {
      if |buckets| <= config.maxBuckets {
        return;
      }
      var oldest: Option<Candidate>, i := None, 0;
      while i < |order|
        invariant 0 <= i <= |order| && order == old(order) && Model() == old(Model())
        invariant Oldest(order[i..], buckets, oldest) == Oldest(order, buckets, None)
      {
        var ip := order[i];
        KeySetHas(order, i);
        assert order[i..] == [ip] + order[i + 1..];
        if oldest.None? || buckets[ip].last < oldest.value.last {
          oldest := Some(Candidate(ip, buckets[ip].last));
        }
        i := i + 1;
      }
      if oldest.Some? {
        order, buckets := Without(order, oldest.value.ip), buckets - {oldest.value.ip};
      }
    }
  }
}
