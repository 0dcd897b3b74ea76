/** The authentication throttle against one that never forgets an address, over whole runs. */
module AuthThrottleLaws {
  import opened Ordered
  import opened Prelude
  import opened AuthThrottling

  /** A request: it is throttled or its key is examined, and a bad key is charged. */
  datatype Request = Request(ip: Ip, now: real, badKey: bool)

  /** One request against the throttle: the new state, and whether the key was examined. */
  function Serve(c: Config, t: Throttle, r: Request): (Throttle, bool)
    requires c.windowMs != 0.0
  {
    var (asked, b) := Asked(c, t, r.ip, r.now);
    var examined := b.tokens >= 1.0;
    (if examined && r.badKey then Failed(c, asked, r.ip, r.now) else asked, examined)
  }

  function After(c: Config, t: Throttle, run: seq<Request>): Throttle
    requires c.windowMs != 0.0
    decreases run
  {
    if run == [] then t else After(c, Serve(c, t, run[0]).0, run[1..])
  }

  function Examined(c: Config, t: Throttle, run: seq<Request>): seq<bool>
    requires c.windowMs != 0.0
    decreases run
  {
    if run == [] then [] else [Serve(c, t, run[0]).1] + Examined(c, Serve(c, t, run[0]).0, run[1..])
  }

  // ----- the reference: nothing pruned, nothing evicted -----

  function ServeForever(c: Config, u: Buckets, r: Request): (Buckets, bool)
    requires c.windowMs != 0.0
  {
    var b := BucketAt(c, u, r.ip, r.now);
    var examined := b.tokens >= 1.0;
    (u[r.ip := if examined && r.badKey then b.(tokens := b.tokens - 1.0) else b], examined)
  }

  function ExaminedForever(c: Config, u: Buckets, run: seq<Request>): seq<bool>
    requires c.windowMs != 0.0
    decreases run
  {
    if run == [] then [] else
      [ServeForever(c, u, run[0]).1] + ExaminedForever(c, ServeForever(c, u, run[0]).0, run[1..])
  }

  ghost predicate Monotone(run: seq<Request>, t: real) {
    run == [] || (t <= run[0].now && Monotone(run[1..], run[0].now))
  }

  function EndTime(run: seq<Request>, t: real): real {
    if run == [] then t else EndTime(run[1..], run[0].now)
  }

  /** The address already has a bucket, or there is room for one. */
  ghost predicate HasRoom(c: Config, t: Throttle, r: Request)
    requires c.windowMs != 0.0
  {
    var p := Pruned(c, t, r.now);
    r.ip in p.buckets || |p.buckets| < c.maxBuckets
  }

  ghost predicate NeverFull(c: Config, t: Throttle, run: seq<Request>)
    requires c.windowMs != 0.0
    decreases run
  {
    run == [] || (HasRoom(c, t, run[0]) && NeverFull(c, Serve(c, t, run[0]).0, run[1..]))
  }

  // ----- pruning is invisible, whatever the limit and the window -----

  ghost predicate InRange(c: Config, u: Buckets, t: real) {
    forall a | a in u :: u[a].last <= t && 0.0 <= u[a].tokens <= c.limit
  }

  /** A forgotten bucket has been idle for more than a window; the remembered ones agree. */
  ghost predicate Agree(c: Config, m: Buckets, u: Buckets, t: real) {
    && InRange(c, u, t)
    && (forall a | a in m :: a in u && m[a] == u[a])
    && (forall a | a in u && a !in m :: t - u[a].last > c.windowMs)
  }

  lemma GainIsPositive(c: Config, elapsed: real)
    requires Sound(c) && elapsed >= 0.0
    ensures Gain(c, elapsed) >= 0.0
  {
    assert elapsed / c.windowMs >= 0.0;
  }

  lemma GainSplits(c: Config, a: real, b: real)
    requires Sound(c)
    ensures Gain(c, a + b) == Gain(c, a) + Gain(c, b)
    ensures Gain(c, 0.0) == 0.0 && Gain(c, c.windowMs) == c.limit
  {
    assert (a + b) / c.windowMs == a / c.windowMs + b / c.windowMs;
    assert c.windowMs / c.windowMs == 1.0;
  }

  /** A bucket idle for a window is full again. */
  lemma WindowRefills(c: Config, elapsed: real)
    requires Sound(c) && elapsed >= c.windowMs
    ensures Gain(c, elapsed) >= c.limit
  {
    GainSplits(c, c.windowMs, elapsed - c.windowMs);
    GainIsPositive(c, elapsed - c.windowMs);
  }

  lemma AccruedInRange(c: Config, b: Bucket, now: real)
    requires Sound(c) && b.last <= now && 0.0 <= b.tokens <= c.limit
    ensures Accrued(c, b, now).last == now && 0.0 <= b.tokens <= Accrued(c, b, now).tokens <= c.limit
    ensures now - b.last > c.windowMs ==> Accrued(c, b, now) == Bucket(c.limit, now)
  {
    GainIsPositive(c, now - b.last);
    if now - b.last > c.windowMs {
      WindowRefills(c, now - b.last);
    }
  }

  lemma PruneAgrees(c: Config, t: Throttle, u: Buckets, time: real, now: real)
    requires Sound(c) && Agree(c, t.buckets, u, time) && time <= now
    ensures Agree(c, Pruned(c, t, now).buckets, u, now)
  {
  }

  lemma SameBucket(c: Config, m: Buckets, u: Buckets, ip: Ip, now: real)
    requires Sound(c) && Agree(c, m, u, now)
    ensures BucketAt(c, m, ip, now) == BucketAt(c, u, ip, now)
    ensures var b := BucketAt(c, u, ip, now); b.last == now && 0.0 <= b.tokens <= c.limit
  {
    if ip in u {
      AccruedInRange(c, u[ip], now);
    }
  }

  lemma StoreAgrees(c: Config, t: Throttle, u: Buckets, ip: Ip, b: Bucket, now: real)
    requires Agree(c, t.buckets, u, now) && (ip in t.buckets || |t.buckets| < c.maxBuckets)
    requires b.last == now && 0.0 <= b.tokens <= c.limit
    ensures Stored(c, t, ip, b).buckets == t.buckets[ip := b]
    ensures Agree(c, Stored(c, t, ip, b).buckets, u[ip := b], now)
  {
    if ip !in t.buckets {
      assert t.buckets[ip := b].Keys == t.buckets.Keys + {ip};
    }
  }

  lemma AskAgrees(c: Config, t: Throttle, u: Buckets, ip: Ip, time: real, now: real)
    requires Sound(c) && Agree(c, t.buckets, u, time) && time <= now
    requires var p := Pruned(c, t, now); ip in p.buckets || |p.buckets| < c.maxBuckets
    ensures Asked(c, t, ip, now).1 == BucketAt(c, u, ip, now)
    ensures Agree(c, Asked(c, t, ip, now).0.buckets, u[ip := BucketAt(c, u, ip, now)], now)
    ensures ip in Asked(c, t, ip, now).0.buckets
  {
    PruneAgrees(c, t, u, time, now);
    SameBucket(c, Pruned(c, t, now).buckets, u, ip, now);
    StoreAgrees(c, Pruned(c, t, now), u, ip, BucketAt(c, u, ip, now), now);
  }

  /** A bucket touched just now is neither pruned nor refilled again. */
  lemma AskAgain(c: Config, t: Throttle, ip: Ip, now: real)
    requires Sound(c) && ip in t.buckets && t.buckets[ip].last == now
    ensures Asked(c, t, ip, now).1 == t.buckets[ip] && ip in Asked(c, t, ip, now).0.buckets
    ensures Asked(c, t, ip, now).0.buckets == Pruned(c, t, now).buckets
  {
    var p := Pruned(c, t, now);
    assert p.buckets[ip := t.buckets[ip]] == p.buckets;
  }

  lemma StepAgrees(c: Config, t: Throttle, u: Buckets, r: Request, time: real)
    requires Sound(c) && Agree(c, t.buckets, u, time) && time <= r.now && HasRoom(c, t, r)
    ensures Agree(c, Serve(c, t, r).0.buckets, ServeForever(c, u, r).0, r.now)
    ensures Serve(c, t, r).1 == ServeForever(c, u, r).1
  {
    AskAgrees(c, t, u, r.ip, time, r.now);
    var asked, b := Asked(c, t, r.ip, r.now).0, BucketAt(c, u, r.ip, r.now);
    SameBucket(c, Pruned(c, t, r.now).buckets, u, r.ip, r.now) by {
      PruneAgrees(c, t, u, time, r.now);
    }
    var v := u[r.ip := b];
    if b.tokens >= 1.0 && r.badKey {
      assert asked.buckets[r.ip] == b;
      AskAgain(c, asked, r.ip, r.now);
      PruneAgrees(c, asked, v, r.now, r.now);
      ChargeAgrees(c, Asked(c, asked, r.ip, r.now).0, v, r.ip, b, r.now);
      assert v[r.ip := b.(tokens := b.tokens - 1.0)] == u[r.ip := b.(tokens := b.tokens - 1.0)];
    }
  }

  lemma ChargeAgrees(c: Config, t: Throttle, u: Buckets, ip: Ip, b: Bucket, now: real)
    requires Agree(c, t.buckets, u, now) && ip in t.buckets && b.last == now && 1.0 <= b.tokens <= c.limit
    ensures Agree(c, Charged(t, ip, b).buckets, u[ip := b.(tokens := b.tokens - 1.0)], now)
  {
  }

  /** Every request is answered as if nothing had ever been pruned. */
  lemma {:induction false} PruningIsInvisible(c: Config, t: Throttle, u: Buckets, run: seq<Request>, time: real)
    requires Sound(c) && Agree(c, t.buckets, u, time) && Monotone(run, time) && NeverFull(c, t, run)
    ensures Examined(c, t, run) == ExaminedForever(c, u, run)
    decreases run
  {
    if run != [] {
      StepAgrees(c, t, u, run[0], time);
      PruningIsInvisible(c, Serve(c, t, run[0]).0, ServeForever(c, u, run[0]).0, run[1..], run[0].now);
    }
  }

  // ----- how many bad keys are examined -----

  /** The bad keys of one address that were examined. */
  function Guesses(ip: Ip, run: seq<Request>, examined: seq<bool>): nat
    decreases run
  {
    if run == [] || examined == [] then 0
    else (if run[0].ip == ip && run[0].badKey && examined[0] then 1 else 0) + Guesses(ip, run[1..], examined[1..])
  }

  lemma LevelGrows(c: Config, u: Buckets, ip: Ip, t: real, now: real)
    requires Sound(c) && InRange(c, u, t) && t <= now
    ensures BucketAt(c, u, ip, now).tokens <= BucketAt(c, u, ip, t).tokens + Gain(c, now - t)
    ensures 0.0 <= BucketAt(c, u, ip, now).tokens <= c.limit && BucketAt(c, u, ip, now).last == now
  {
    GainIsPositive(c, now - t);
    if ip in u {
      var b := u[ip];
      AccruedInRange(c, b, now);
      AccruedInRange(c, b, t);
      GainSplits(c, t - b.last, now - t);
      assert (t - b.last) + (now - t) == now - b.last;
      GainIsPositive(c, t - b.last);
    }
  }

  function Guessed(c: Config, u: Buckets, ip: Ip, r: Request): real
    requires c.windowMs != 0.0
  {
    if r.ip == ip && r.badKey && ServeForever(c, u, r).1 then 1.0 else 0.0
  }

  lemma LevelStep(c: Config, u: Buckets, ip: Ip, r: Request, t: real)
    requires Sound(c) && InRange(c, u, t) && t <= r.now
    ensures InRange(c, ServeForever(c, u, r).0, r.now)
    ensures BucketAt(c, ServeForever(c, u, r).0, ip, r.now).tokens + Guessed(c, u, ip, r)
         <= BucketAt(c, u, ip, t).tokens + Gain(c, r.now - t)
  {
    LevelGrows(c, u, ip, t, r.now);
    LevelGrows(c, u, r.ip, t, r.now);
  }

  lemma {:induction false} GuessesForever(c: Config, u: Buckets, ip: Ip, run: seq<Request>, t: real)
    requires Sound(c) && InRange(c, u, t) && Monotone(run, t)
    ensures Guesses(ip, run, ExaminedForever(c, u, run)) as real
         <= BucketAt(c, u, ip, t).tokens + Gain(c, EndTime(run, t) - t)
    decreases run
  {
    LevelGrows(c, u, ip, t, t);
    if run == [] {
      GainSplits(c, 0.0, 0.0);
    } else {
      var r, v := run[0], ServeForever(c, u, run[0]).0;
      LevelStep(c, u, ip, r, t);
      GuessesForever(c, v, ip, run[1..], r.now);
      GainSplits(c, r.now - t, EndTime(run, t) - r.now);
      assert (r.now - t) + (EndTime(run, t) - r.now) == EndTime(run, t) - t;
      assert ExaminedForever(c, u, run)[1..] == ExaminedForever(c, v, run[1..]);
    }
  }

  lemma {:induction false} AgreesAfter(c: Config, t: Throttle, u: Buckets, before: seq<Request>, window: seq<Request>,
                                       time: real)
      returns (v: Buckets)
    requires Sound(c) && Agree(c, t.buckets, u, time) && Monotone(before, time) && NeverFull(c, t, before + window)
    ensures Agree(c, After(c, t, before).buckets, v, EndTime(before, time))
    ensures NeverFull(c, After(c, t, before), window)
    decreases before
  {
    if before == [] {
      assert before + window == window;
      v := u;
    } else {
      assert (before + window)[1..] == before[1..] + window;
      StepAgrees(c, t, u, before[0], time);
      v := AgreesAfter(c, Serve(c, t, before[0]).0, ServeForever(c, u, before[0]).0, before[1..], window,
        before[0].now);
    }
  }

  /** A brute force gets the limit at once and then one guess per `windowMs / limit`, no more. */
  lemma GuessesInWindow(c: Config, ip: Ip, before: seq<Request>, window: seq<Request>, origin: real, start: real)
    requires Sound(c) && Monotone(before, origin) && NeverFull(c, EMPTY, before + window)
    requires EndTime(before, origin) <= start && Monotone(window, start)
    ensures Guesses(ip, window, Examined(c, After(c, EMPTY, before), window)) as real
         <= c.limit + Gain(c, EndTime(window, start) - start)
  {
    var u := AgreesAfter(c, EMPTY, map[], before, window, origin);
    PruningIsInvisible(c, After(c, EMPTY, before), u, window, start);
    GuessesForever(c, u, ip, window, start);
    LevelGrows(c, u, ip, start, start);
  }

  // ----- the limit is not a limit per window -----

  ghost predicate AllGuesses(ip: Ip, run: seq<Request>) {
    forall r | r in run :: r.ip == ip && r.badKey
  }

  lemma {:induction false} OneAddressFits(c: Config, t: Throttle, ip: Ip, run: seq<Request>)
    requires Sound(c) && t.buckets.Keys <= {ip} && AllGuesses(ip, run)
    ensures NeverFull(c, t, run)
    decreases run
  {
    if run != [] {
      var r := run[0];
      var p := Pruned(c, t, r.now);
      assert r in run && p.buckets.Keys <= {ip};
      if ip !in p.buckets {
        assert p.buckets.Keys == {};
      }
      OneAddressFits(c, Serve(c, t, r).0, ip, run[1..]);
    }
  }

  function Burst(ip: Ip, n: nat, last: Request): seq<Request> {
    if n == 0 then [last] else [Request(ip, 0.0, true)] + Burst(ip, n - 1, last)
  }

  ghost predicate Bursts(c: Config, u: Buckets, ip: Ip, n: nat, wait: real) {
    var run := Burst(ip, n, Request(ip, wait, true));
    c.windowMs != 0.0 && Guesses(ip, run, ExaminedForever(c, u, run)) == n + 1
  }

  /** Whole tokens are spent at once, the next is waited for. */
  lemma {:induction false} BurstExamined(c: Config, ip: Ip, n: nat, u: Buckets, x: real, wait: real)
    requires Sound(c) && wait > 0.0 && c.limit >= 1.0
    requires ip in u && u[ip] == Bucket(x, 0.0) && n as real <= x && x - n as real + Gain(c, wait) >= 1.0
    ensures Bursts(c, u, ip, n, wait)
    decreases n
  {
    var last := Request(ip, wait, true);
    var run := Burst(ip, n, last);
    if n == 0 {
      assert run[1..] == [] && ServeForever(c, u, last).1;
      assert ExaminedForever(c, u, run)[1..] == [];
    } else {
      var v := ServeForever(c, u, run[0]).0;
      assert run[1..] == Burst(ip, n - 1, last);
      BurstExamined(c, ip, n - 1, v, x - 1.0, wait);
      assert ExaminedForever(c, u, run)[1..] == ExaminedForever(c, v, run[1..]);
    }
  }

  lemma {:induction false} BurstIsMonotone(ip: Ip, n: nat, wait: real)
    requires wait > 0.0
    ensures var run := Burst(ip, n, Request(ip, wait, true));
      Monotone(run, 0.0) && EndTime(run, 0.0) == wait && AllGuesses(ip, run)
  {
    var run := Burst(ip, n, Request(ip, wait, true));
    if n == 0 {
      assert run[1..] == [];
    } else {
      assert run[1..] == Burst(ip, n - 1, Request(ip, wait, true));
      BurstIsMonotone(ip, n - 1, wait);
    }
  }

  lemma FirstBurst(c: Config, ip: Ip, n: nat, wait: real)
    requires Sound(c) && wait > 0.0 && n > 0 && n as real <= c.limit && c.limit - n as real + Gain(c, wait) >= 1.0
    ensures Bursts(c, map[], ip, n, wait)
  {
    var run := Burst(ip, n, Request(ip, wait, true));
    var v := ServeForever(c, map[], run[0]).0;
    assert run[1..] == Burst(ip, n - 1, Request(ip, wait, true));
    BurstExamined(c, ip, n - 1, v, c.limit - 1.0, wait);
    assert ExaminedForever(c, map[], run)[1..] == ExaminedForever(c, v, run[1..]);
  }

  function Part(q: real, whole: real): real {
    q * whole
  }

  lemma PartIsPositive(q: real, whole: real)
    requires 0.0 < q && whole > 0.0
    ensures Part(q, whole) > 0.0
  {
  }

  lemma PartIsSmaller(q: real, whole: real)
    requires q < 1.0 && whole > 0.0
    ensures Part(q, whole) < whole
  {
    PartIsPositive(1.0 - q, whole);
  }

  lemma PartOf(c: Config, q: real) returns (wait: real)
    requires Sound(c) && 0.0 < q < 1.0
    ensures 0.0 < wait < c.windowMs && Gain(c, wait) == q * c.limit
  {
    wait := Part(q, c.windowMs);
    PartIsPositive(q, c.windowMs);
    PartIsSmaller(q, c.windowMs);
    assert wait / c.windowMs == q;
  }

  lemma WaitFor(c: Config, part: real) returns (wait: real)
    requires Sound(c) && c.limit > 1.0 && 0.0 < part <= 1.0
    ensures 0.0 < wait < c.windowMs && Gain(c, wait) == part
  {
    var q := part / c.limit;
    assert q * c.limit == part;
    assert 0.0 < q < 1.0;
    wait := PartOf(c, q);
  }

  /** More guesses than the limit fit strictly within one window, and the bound above is met exactly. */
  lemma GuessesExceedLimit(c: Config, ip: Ip) returns (run: seq<Request>)
    requires Sound(c) && c.limit > 1.0
    ensures Monotone(run, 0.0) && EndTime(run, 0.0) < c.windowMs && NeverFull(c, EMPTY, run)
    ensures Guesses(ip, run, Examined(c, EMPTY, run)) as real > c.limit
    ensures Guesses(ip, run, Examined(c, EMPTY, run)) as real == c.limit + Gain(c, EndTime(run, 0.0))
  {
    var n := c.limit.Floor;
    var part := 1.0 - (c.limit - n as real);
    var wait := WaitFor(c, part);
    FirstBurst(c, ip, n, wait);
    BurstIsMonotone(ip, n, wait);
    run := Burst(ip, n, Request(ip, wait, true));
    OneAddressFits(c, EMPTY, ip, run);
    PruningIsInvisible(c, EMPTY, map[], run, 0.0);
  }

  // ----- memory -----

  lemma ServeValid(c: Config, t: Throttle, r: Request)
    requires Sound(c) && Valid(c, t)
    ensures Valid(c, Serve(c, t, r).0)
  {
    AskValid(c, t, r.ip, r.now);
    var asked := Asked(c, t, r.ip, r.now).0;
    AskValid(c, asked, r.ip, r.now);
    ChargedValid(c, Asked(c, asked, r.ip, r.now).0, r.ip, Asked(c, asked, r.ip, r.now).1);
  }

  lemma AskValid(c: Config, t: Throttle, ip: Ip, now: real)
    requires Sound(c) && Valid(c, t)
    ensures Valid(c, Asked(c, t, ip, now).0)
  {
    PrunedValid(c, t, now);
    var p := Pruned(c, t, now);
    StoredValid(c, p, ip, BucketAt(c, p.buckets, ip, now));
  }

  /** The map never outgrows its cap, whatever is asked at whatever times. */
  lemma {:induction false} RunStaysWithinCap(c: Config, t: Throttle, run: seq<Request>)
    requires Sound(c) && Valid(c, t)
    ensures Valid(c, After(c, t, run)) && |After(c, t, run).buckets| <= c.maxBuckets
    decreases run
  {
    if run != [] {
      ServeValid(c, t, run[0]);
      RunStaysWithinCap(c, Serve(c, t, run[0]).0, run[1..]);
    }
  }

  /** What makes room was touched no later than any other bucket; it is not the new one unless the clock went back. */
  lemma VictimIsOldest(c: Config, t: Throttle, ip: Ip, b: Bucket, gone: Ip)
    requires Valid(c, t) && ip !in t.buckets
    requires forall a | a in t.buckets :: t.buckets[a].last <= b.last
    requires gone in t.buckets.Keys + {ip} && gone !in Stored(c, t, ip, b).buckets
    ensures gone != ip && |t.buckets| == c.maxBuckets
    ensures forall a | a in t.buckets :: t.buckets[gone].last <= t.buckets[a].last
    ensures Stored(c, t, ip, b).buckets == t.buckets[ip := b] - {gone}
  {
    var order, m := t.order + [ip], t.buckets[ip := b];
    OrdersAppend(t.order, t.buckets, ip, b);
    assert m.Keys == t.buckets.Keys + {ip};
    OrderSize(t.order, t.buckets);
    OldestIsFirstSmallest(order, m, None);
    OldestSplits(t.order, [ip], m, None);
    OldestIsFirstSmallest(t.order, m, None);
    OldestIsFirstSmallest([ip], m, Oldest(t.order, m, None));
  }

  lemma {:induction false} OldestSplits(a: seq<Ip>, b: seq<Ip>, m: Buckets, best: Option<Candidate>)
    ensures Oldest(a + b, m, best) == Oldest(b, m, Oldest(a, m, best))
    decreases a
  {
    if a == [] {
      assert a + b == b;
    } else {
      assert (a + b)[1..] == a[1..] + b;
      var next := if a[0] in m && (best.None? || m[a[0]].last < best.value.last)
        then Some(Candidate(a[0], m[a[0]].last)) else best;
      OldestSplits(a[1..], b, m, next);
    }
  }
}
