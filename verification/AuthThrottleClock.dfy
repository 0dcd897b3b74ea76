/** The authentication throttle under a clock that may step back: one request, and the guesses of a whole run. */
module AuthThrottleClock {
  import opened Prelude
  import opened Ordered
  import opened AuthThrottling
  import opened AuthThrottleLaws

  // ----- one request -----

  /** A request no later than the last counted one moves no baseline and changes no tokens, but charges a bad key. */
  lemma EarlierRequest(c: Config, t: Throttle, r: Request)
    requires Sound(c) && r.ip in t.buckets && r.now <= t.buckets[r.ip].last && t.buckets[r.ip].tokens >= 0.0
    ensures var (t', examined) := Serve(c, t, r);
      && (examined <==> t.buckets[r.ip].tokens >= 1.0)
      && r.ip in t'.buckets
      && t'.buckets[r.ip].last == t.buckets[r.ip].last
      && t'.buckets[r.ip].tokens == t.buckets[r.ip].tokens - (if examined && r.badKey then 1.0 else 0.0)
  {
  }

  /** A failure recorded no later than the last request costs a token, or what is left of one. */
  lemma EarlierFailure(c: Config, t: Throttle, ip: Ip, now: real)
    requires Sound(c) && ip in t.buckets && now <= t.buckets[ip].last
    ensures var t' := Failed(c, t, ip, now);
      && ip in t'.buckets && t'.buckets[ip].last == t.buckets[ip].last
      && t'.buckets[ip].tokens == if t.buckets[ip].tokens >= 1.0 then t.buckets[ip].tokens - 1.0 else 0.0
  {
  }

  /** Once per window, and then of every bucket that has been idle for longer and is full again by now. */
  lemma PrunedExactly(c: Config, t: Throttle, now: real, ip: Ip)
    requires Sound(c) && ip in t.buckets
    ensures var due := t.lastPruneAt.None? || now >= t.lastPruneAt.value + c.windowMs;
      var b, t' := t.buckets[ip], Pruned(c, t, now);
      && t'.lastPruneAt == (if due then Some(now) else t.lastPruneAt)
      && (ip !in t'.buckets <==>
        due && now > b.last + c.windowMs && b.tokens + (now - b.last) / c.windowMs * c.limit >= c.limit)
      && (ip in t'.buckets ==> t'.buckets[ip] == b)
  {
  }

  /** What accrues over a stretch of time. */
  ghost function Allowance(c: Config, stretch: real): real
    requires c.windowMs != 0.0
  {
    stretch / c.windowMs * c.limit
  }

  lemma AccruedIs(c: Config, b: Bucket, now: real)
    requires Sound(c)
    ensures Accrued(c, b, now)
      == if b.last < now then Bucket(Min(c.limit, b.tokens + Allowance(c, now - b.last)), now) else b
  {
  }

  lemma AllowanceNotNegative(c: Config, stretch: real)
    requires Sound(c) && stretch >= 0.0
    ensures Allowance(c, stretch) >= 0.0 && Allowance(c, 0.0) == 0.0
  {
    GainIsPositive(c, stretch);
  }

  lemma AllowanceSplits(c: Config, a: real, b: real)
    requires Sound(c)
    ensures Allowance(c, a + b) == Allowance(c, a) + Allowance(c, b)
  {
    GainSplits(c, a, b);
  }

  /** Without a bucket, or after waiting for a token to accrue, a key is examined. */
  lemma PatientIsExamined(c: Config, t: Throttle, r: Request)
    requires Sound(c) && c.limit >= 1.0
    requires r.ip in t.buckets ==>
      t.buckets[r.ip].tokens >= 0.0 && (r.now - t.buckets[r.ip].last) / c.windowMs * c.limit >= 1.0
    ensures Serve(c, t, r).1
  {
    if r.ip in t.buckets {
      var b := t.buckets[r.ip];
      assert Allowance(c, r.now - b.last) >= 1.0;
      hide Allowance, Accrued;
      AllowanceNotNegative(c, if r.now < b.last then b.last - r.now else 0.0);
      AllowanceSplits(c, r.now - b.last, b.last - r.now);
      AccruedIs(c, b, r.now);
    }
  }

  // ----- runs -----

  /** The bucket of the address is not idle for a window, and nothing has to make room. */
  ghost predicate Undisturbed(c: Config, t: Throttle, ip: Ip, r: Request) {
    && (ip in t.buckets ==> r.now - t.buckets[ip].last <= c.windowMs)
    && (r.ip in t.buckets || |t.buckets| < c.maxBuckets)
  }

  ghost predicate NeverDisturbed(c: Config, t: Throttle, ip: Ip, run: seq<Request>)
    requires c.windowMs != 0.0
    decreases run
  {
    run == [] || (Undisturbed(c, t, ip, run[0]) && NeverDisturbed(c, Serve(c, t, run[0]).0, ip, run[1..]))
  }

  /** How far the requests of the address take the clock beyond the latest time it had seen. */
  ghost function Advance(ip: Ip, run: seq<Request>, latest: Option<real>): real
    decreases run
  {
    if run == [] then 0.0
    else if run[0].ip != ip || (latest.Some? && run[0].now <= latest.value) then Advance(ip, run[1..], latest)
    else (if latest.Some? then run[0].now - latest.value else 0.0) + Advance(ip, run[1..], Some(run[0].now))
  }

  ghost function LatestOf(t: Throttle, ip: Ip): Option<real> {
    if ip in t.buckets then Some(t.buckets[ip].last) else None
  }

  ghost function LevelOf(c: Config, t: Throttle, ip: Ip): real {
    if ip in t.buckets then t.buckets[ip].tokens else c.limit
  }

  ghost predicate Advances(t: Throttle, ip: Ip, r: Request) {
    r.ip == ip && (ip in t.buckets ==> t.buckets[ip].last < r.now)
  }

  ghost function StepOf(t: Throttle, ip: Ip, r: Request): real {
    if Advances(t, ip, r) && ip in t.buckets then r.now - t.buckets[ip].last else 0.0
  }

  ghost function GuessOf(c: Config, t: Throttle, ip: Ip, r: Request): nat
    requires c.windowMs != 0.0
  {
    if r.ip == ip && r.badKey && Serve(c, t, r).1 then 1 else 0
  }

  lemma AccruedWithin(c: Config, b: Bucket, now: real)
    requires Sound(c) && 0.0 <= b.tokens <= c.limit
    ensures var a := Accrued(c, b, now);
      && 0.0 <= a.tokens <= c.limit && a.last == (if b.last < now then now else b.last)
      && a.tokens <= b.tokens + Allowance(c, if b.last < now then now - b.last else 0.0)
  {
    hide Accrued, Allowance;
    AccruedIs(c, b, now);
    AllowanceNotNegative(c, if b.last < now then now - b.last else 0.0);
  }

  /** Pruning twice at the same time is pruning once. */
  lemma PrunedOnce(c: Config, t: Throttle, now: real, asked: Throttle)
    requires Sound(c) && asked.lastPruneAt == Pruned(c, t, now).lastPruneAt
    ensures Pruned(c, asked, now) == asked
  {
  }

  lemma RoomAfterPruning(c: Config, t: Throttle, r: Request)
    requires Sound(c) && Valid(c, t) && (r.ip in t.buckets || |t.buckets| < c.maxBuckets)
    ensures HasRoom(c, t, r)
  {
    var p := Pruned(c, t, r.now).buckets;
    SubsetSize(p.Keys, t.buckets.Keys);
    if r.ip in t.buckets && r.ip !in p {
      SubsetSize(p.Keys, t.buckets.Keys - {r.ip});
    }
  }

  lemma StoredIs(c: Config, t: Throttle, ip: Ip, b: Bucket)
    requires ip in t.buckets || |t.buckets| < c.maxBuckets
    ensures Stored(c, t, ip, b).buckets == t.buckets[ip := b] && Stored(c, t, ip, b).lastPruneAt == t.lastPruneAt
  {
    if ip !in t.buckets {
      assert t.buckets[ip := b].Keys == t.buckets.Keys + {ip};
    }
  }

  lemma FailedIs(c: Config, t: Throttle, ip: Ip, now: real)
    requires Sound(c) && ip in t.buckets && t.buckets[ip].last >= now && t.buckets[ip].tokens >= 1.0
    requires Pruned(c, t, now) == t
    ensures Failed(c, t, ip, now).buckets == t.buckets[ip := t.buckets[ip].(tokens := t.buckets[ip].tokens - 1.0)]
  {
    assert t.buckets[ip := t.buckets[ip]] == t.buckets;
  }

  ghost function Charge(c: Config, b: Bucket, r: Request): Bucket {
    if b.tokens >= 1.0 && r.badKey then b.(tokens := b.tokens - 1.0) else b
  }

  /** After a request of any address: what was not pruned, with the bucket of that address. */
  lemma ServedIs(c: Config, t: Throttle, r: Request)
    requires Sound(c) && HasRoom(c, t, r)
    ensures var p := Pruned(c, t, r.now).buckets;
      var b := BucketAt(c, p, r.ip, r.now);
      && (Serve(c, t, r).1 <==> b.tokens >= 1.0)
      && Serve(c, t, r).0.buckets == p[r.ip := Charge(c, b, r)]
  {
    hide Pruned, Stored, Failed;
    var p := Pruned(c, t, r.now);
    var b := BucketAt(c, p.buckets, r.ip, r.now);
    BucketIsRecent(c, p.buckets, r.ip, r.now);
    StoredIs(c, p, r.ip, b);
    var asked := Stored(c, p, r.ip, b);
    PrunedOnce(c, t, r.now, asked);
    if b.tokens >= 1.0 && r.badKey {
      FailedIs(c, asked, r.ip, r.now);
    }
  }

  lemma BucketIsRecent(c: Config, buckets: Buckets, ip: Ip, now: real)
    requires Sound(c)
    ensures BucketAt(c, buckets, ip, now).last >= now
  {
  }

  lemma PrunedKeeps(c: Config, t: Throttle, ip: Ip, now: real)
    requires Sound(c) && (ip in t.buckets ==> now - t.buckets[ip].last <= c.windowMs)
    ensures var p := Pruned(c, t, now).buckets; (ip in p <==> ip in t.buckets) && (ip in p ==> p[ip] == t.buckets[ip])
  {
  }

  /** One request, at whatever time: the level plus a guess never exceeds the old level plus what accrued. */
  lemma StepUnderAnyClock(c: Config, t: Throttle, ip: Ip, r: Request)
    requires Sound(c) && Valid(c, t) && 0.0 <= LevelOf(c, t, ip) <= c.limit && Undisturbed(c, t, ip, r)
    ensures var t' := Serve(c, t, r).0;
      && LatestOf(t', ip) == (if Advances(t, ip, r) then Some(r.now) else LatestOf(t, ip))
      && 0.0 <= LevelOf(c, t', ip) <= c.limit
      && LevelOf(c, t', ip) + GuessOf(c, t, ip, r) as real <= LevelOf(c, t, ip) + Allowance(c, StepOf(t, ip, r))
  {
    hide Pruned, Serve, Accrued, Allowance, Valid, HasRoom;
    RoomAfterPruning(c, t, r);
    ServedIs(c, t, r);
    PrunedKeeps(c, t, ip, r.now);
    AllowanceNotNegative(c, 0.0);
    if ip in t.buckets {
      AccruedWithin(c, t.buckets[ip], r.now);
    }
  }

  lemma GuessesStep(c: Config, t: Throttle, ip: Ip, run: seq<Request>)
    requires Sound(c) && run != []
    ensures Guesses(ip, run, Examined(c, t, run))
      == GuessOf(c, t, ip, run[0]) + Guesses(ip, run[1..], Examined(c, Serve(c, t, run[0]).0, run[1..]))
    ensures Advance(ip, run, LatestOf(t, ip)) == StepOf(t, ip, run[0])
      + Advance(ip, run[1..], if Advances(t, ip, run[0]) then Some(run[0].now) else LatestOf(t, ip))
  {
    hide Serve;
    assert Examined(c, t, run)[1..] == Examined(c, Serve(c, t, run[0]).0, run[1..]);
  }

  /**
   * Whatever the clock does, while its bucket is kept an address gets no more guesses than the bucket held and what
   * accrued over how far its own requests advanced the clock.
   */
  lemma {:induction false} GuessesUnderAnyClock(c: Config, t: Throttle, ip: Ip, run: seq<Request>)
    requires Sound(c) && Valid(c, t) && 0.0 <= LevelOf(c, t, ip) <= c.limit && NeverDisturbed(c, t, ip, run)
    ensures Guesses(ip, run, Examined(c, t, run)) as real
      <= LevelOf(c, t, ip) + Allowance(c, Advance(ip, run, LatestOf(t, ip)))
    decreases run
  {
    hide Serve, Undisturbed, Advance, Examined, Guesses, Valid, Allowance, StepOf, Advances;
    if run == [] {
      NothingHappens(c, t, ip);
    } else {
      var t' := Serve(c, t, run[0]).0;
      ServeValid(c, t, run[0]);
      StepUnderAnyClock(c, t, ip, run[0]);
      GuessesUnderAnyClock(c, t', ip, run[1..]);
      GuessesStep(c, t, ip, run);
      AllowanceSplits(c, StepOf(t, ip, run[0]), Advance(ip, run[1..], LatestOf(t', ip)));
    }
  }

  lemma NothingHappens(c: Config, t: Throttle, ip: Ip)
    requires Sound(c)
    ensures Guesses(ip, [], Examined(c, t, [])) == 0
    ensures Allowance(c, Advance(ip, [], LatestOf(t, ip))) == 0.0
  {
    AllowanceNotNegative(c, 0.0);
  }

  // ----- from the start -----

  ghost predicate WithinRange(c: Config, t: Throttle) {
    forall a | a in t.buckets :: 0.0 <= t.buckets[a].tokens <= c.limit
  }

  lemma AskedWithinRange(c: Config, t: Throttle, ip: Ip, now: real)
    requires Sound(c) && WithinRange(c, t)
    ensures WithinRange(c, Asked(c, t, ip, now).0) && 0.0 <= Asked(c, t, ip, now).1.tokens <= c.limit
  {
    hide Accrued, Oldest;
    var p := Pruned(c, t, now);
    if ip in p.buckets {
      AccruedWithin(c, p.buckets[ip], now);
    }
  }

  /** No bucket ever holds less than nothing or more than the limit, whatever the clock does. */
  lemma {:induction false} RunWithinRange(c: Config, t: Throttle, run: seq<Request>)
    requires Sound(c) && WithinRange(c, t)
    ensures WithinRange(c, After(c, t, run))
    decreases run
  {
    if run != [] {
      var r := run[0];
      ServeWithinRange(c, t, r);
      RunWithinRange(c, Serve(c, t, r).0, run[1..]);
    }
  }

  lemma ServeWithinRange(c: Config, t: Throttle, r: Request)
    requires Sound(c) && WithinRange(c, t)
    ensures WithinRange(c, Serve(c, t, r).0)
  {
    AskedWithinRange(c, t, r.ip, r.now);
    AskedWithinRange(c, Asked(c, t, r.ip, r.now).0, r.ip, r.now);
    hide Asked;
  }

  lemma NothingHeld(c: Config)
    ensures Valid(c, EMPTY) && WithinRange(c, EMPTY)
  {
  }

  lemma LevelWithin(c: Config, t: Throttle, ip: Ip)
    requires Sound(c) && WithinRange(c, t)
    ensures 0.0 <= LevelOf(c, t, ip) <= c.limit
  {
  }

  /** From the start of a run: the limit at once, and then what accrues over how far the clock was advanced. */
  lemma GuessesFromStart(c: Config, ip: Ip, before: seq<Request>, window: seq<Request>)
    requires Sound(c) && NeverDisturbed(c, After(c, EMPTY, before), ip, window)
    ensures var t := After(c, EMPTY, before);
      Guesses(ip, window, Examined(c, t, window)) as real
        <= c.limit + Advance(ip, window, LatestOf(t, ip)) / c.windowMs * c.limit
  {
    hide After, Serve, NeverDisturbed, Advance, Examined, Guesses, Valid, WithinRange, LevelOf;
    NothingHeld(c);
    RunStaysWithinCap(c, EMPTY, before);
    RunWithinRange(c, EMPTY, before);
    LevelWithin(c, After(c, EMPTY, before), ip);
    GuessesUnderAnyClock(c, After(c, EMPTY, before), ip, window);
  }
}
