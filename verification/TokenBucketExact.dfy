/** When forgetting idle buckets is invisible, and when it is not. */
module TokenBucketExact {
  import opened Prelude
  import opened Ordered
  import opened Strangers
  import opened TokenBucket
  import opened TokenBucketLaws

  /** No monotone run without cap eviction can tell the limiter from the one that never forgets. */
  ghost predicate Transparent(c: Config) {
    forall events: seq<Event> :: Monotone(events, 0.0) && NeverFull(c, EMPTY, events) ==>
      Answers(c, EMPTY, events) == AnswersForever(c, map[], events)
  }

  /** Exactly when the idle time refills a whole bucket, or no bucket ever holds a token. */
  lemma TransparentExactly(c: Config)
    requires Sound(c)
    ensures Transparent(c) <==> c.capacity < 1.0 || c.idleEvictMs * c.refillPerMs >= c.capacity
  {
    if c.capacity < 1.0 {
      forall events: seq<Event> | Monotone(events, 0.0) && NeverFull(c, EMPTY, events)
        ensures Answers(c, EMPTY, events) == AnswersForever(c, map[], events)
      {
        NothingGranted(c, EMPTY, map[], events);
      }
    } else if c.idleEvictMs * c.refillPerMs >= c.capacity {
      forall events: seq<Event> | Monotone(events, 0.0) && NeverFull(c, EMPTY, events)
        ensures Answers(c, EMPTY, events) == AnswersForever(c, map[], events)
      {
        RunAgrees(c, EMPTY, map[], events, 0.0);
      }
    } else {
      var events := TellsApart(c);
    }
  }

  // ----- a capacity below one token -----

  ghost predicate Low(c: Config, m: Buckets) {
    forall a | a in m :: m[a].tokens <= c.capacity
  }

  lemma StepLow(c: Config, l: Limiter, u: Buckets, e: Event)
    requires c.capacity < 1.0 && Low(c, l.buckets) && Low(c, u)
    ensures Low(c, Next(c, l, e).buckets) && Low(c, NextForever(c, u, e)) && Answer(c, l, e) == AnswerForever(c, u, e)
  {
  }

  lemma {:induction false} NothingGranted(c: Config, l: Limiter, u: Buckets, events: seq<Event>)
    requires c.capacity < 1.0 && Low(c, l.buckets) && Low(c, u)
    ensures Answers(c, l, events) == AnswersForever(c, u, events)
    decreases events
  {
    if events != [] {
      StepLow(c, l, u, events[0]);
      NothingGranted(c, Next(c, l, events[0]), NextForever(c, u, events[0]), events[1..]);
    }
  }

  // ----- otherwise a run that tells the two apart -----

  const LONE: ActorId := "a"

  function Whole(c: Config): nat
    requires c.capacity >= 1.0
  {
    c.capacity.Floor
  }

  function One(b: Bucket, lastSweep: real): Limiter {
    Limiter([LONE], map[LONE := b], lastSweep)
  }

  function Burst(n: nat, now: real): seq<Event> {
    if n == 0 then [] else [Check(LONE, now)] + Burst(n - 1, now)
  }

  /** A run in which the limiter allows everything and its clock ends at `end`. */
  ghost predicate AllAllowed(c: Config, l: Limiter, events: seq<Event>, t: real, l': Limiter, end: real) {
    && Monotone(events, t) && NeverFull(c, l, events) && Release(LONE) !in events
    && Granted(LONE, events, Answers(c, l, events)) == |events|
    && After(c, l, events) == l' && EndTime(events, t) == end
  }

  lemma {:induction false} Joined(c: Config, l: Limiter, a: seq<Event>, t: real, m: Limiter, s: real,
                                  b: seq<Event>, r: Limiter, e: real)
    requires AllAllowed(c, l, a, t, m, s) && AllAllowed(c, m, b, s, r, e)
    ensures AllAllowed(c, l, a + b, t, r, e)
    decreases a
  {
    if a == [] {
      assert a + b == b;
    } else {
      assert (a + b)[1..] == a[1..] + b && (a + b)[0] == a[0];
      var l' := Next(c, l, a[0]);
      assert a[0] in a;
      assert Answers(c, l, a)[|Answer(c, l, a[0])|..] == Answers(c, l', a[1..]);
      assert Answers(c, l, a + b)[|Answer(c, l, a[0])|..] == Answers(c, l', a[1..] + b);
      GrantedAtMost(LONE, a[1..], Answers(c, l', a[1..]));
      Joined(c, l', a[1..], TimeOf(a[0], t), m, s, b, r, e);
    }
  }

  lemma {:induction false} GrantedAtMost(actor: ActorId, events: seq<Event>, answers: seq<bool>)
    ensures Granted(actor, events, answers) <= |events|
    decreases events
  {
    if events != [] {
      GrantedAtMost(actor, events[1..], answers);
      if answers != [] {
        GrantedAtMost(actor, events[1..], answers[1..]);
      }
    }
  }

  /** One check: the stored bucket, unless the sweep has just dropped it. */
  lemma OneCheck(c: Config, b: Bucket, lastSweep: real, now: real)
    requires Sound(c) && b.lastRefill <= now
    ensures var sweeps := now - lastSweep >= c.idleEvictMs;
      var r := if sweeps && Idle(c, b, now) then Bucket(c.capacity, now) else Refilled(c, b, now);
      && Checked(c, One(b, lastSweep), LONE, now)
         == (One(Spent(r), if sweeps then now else lastSweep), r.tokens >= 1.0)
      && HasRoom(c, One(b, lastSweep), Check(LONE, now))
  {
    var l := One(b, lastSweep);
    var s := Swept(c, l, now);
    var gone := Idlers(c, l.buckets, now);
    assert Minus([LONE], gone) == if LONE in gone then [] else [LONE];
    if now - lastSweep >= c.idleEvictMs {
      if Idle(c, b, now) {
        assert s.buckets == map[] && s.order == [];
      } else {
        assert s.buckets == l.buckets && s.order == [LONE];
      }
    }
    var r := BucketAt(c, s.buckets, LONE, now);
    assert Without([LONE], LONE) == [];
    assert Touched(c, s, LONE, Spent(r)).order == [LONE];
    assert Touched(c, s, LONE, Spent(r)).buckets == map[LONE := Spent(r)];
  }

  lemma Single(c: Config, l: Limiter, t: real, now: real, l': Limiter)
    requires t <= now && Checked(c, l, LONE, now) == (l', true) && HasRoom(c, l, Check(LONE, now))
    ensures AllAllowed(c, l, [Check(LONE, now)], t, l', now)
  {
    var events := [Check(LONE, now)];
    assert events[1..] == [] && events[0] == Check(LONE, now);
    assert Answers(c, l, events) == [true];
    assert Granted(LONE, [], []) == 0;
    assert Monotone([], now) && EndTime([], now) == now && NeverFull(c, l', []) && After(c, l', []) == l';
  }

  /** Checks at one instant spend one token each. */
  lemma {:induction false} BurstSpends(c: Config, n: nat, b: Bucket, lastSweep: real)
    requires Sound(c) && b.tokens >= n as real && b.lastRefill - lastSweep < c.idleEvictMs
    ensures AllAllowed(c, One(b, lastSweep), Burst(n, b.lastRefill), b.lastRefill,
                       One(b.(tokens := b.tokens - n as real), lastSweep), b.lastRefill)
    ensures |Burst(n, b.lastRefill)| == n
    decreases n
  {
    if n > 0 {
      var now, b' := b.lastRefill, b.(tokens := b.tokens - 1.0);
      OneCheck(c, b, lastSweep, now);
      Single(c, One(b, lastSweep), now, now, One(b', lastSweep));
      BurstSpends(c, n - 1, b', lastSweep);
      Joined(c, One(b, lastSweep), [Check(LONE, now)], now, One(b', lastSweep), now,
             Burst(n - 1, now), One(b.(tokens := b.tokens - n as real), lastSweep), now);
    }
  }

  /** A fresh bucket grants its whole tokens at once. */
  lemma FreshBurst(c: Config, l: Limiter, t: real, now: real, lastSweep: real)
    requires Sound(c) && c.capacity >= 1.0 && t <= now && now - lastSweep < c.idleEvictMs
    requires Checked(c, l, LONE, now) == (One(Spent(Bucket(c.capacity, now)), lastSweep), true)
    requires HasRoom(c, l, Check(LONE, now))
    ensures AllAllowed(c, l, Burst(Whole(c), now), t, One(Bucket(Left(c), now), lastSweep), now)
    ensures |Burst(Whole(c), now)| == Whole(c)
  {
    var n, b := Whole(c), Spent(Bucket(c.capacity, now));
    Single(c, l, t, now, One(b, lastSweep));
    BurstSpends(c, n - 1, b, lastSweep);
    assert b.(tokens := b.tokens - (n - 1) as real) == Bucket(Left(c), now);
    Joined(c, l, [Check(LONE, now)], t, One(b, lastSweep), now, Burst(n - 1, now),
      One(Bucket(Left(c), now), lastSweep), now);
  }

  /** What the whole tokens leave of a full bucket. */
  function Left(c: Config): real
    requires c.capacity >= 1.0
  {
    c.capacity - Whole(c) as real
  }

  lemma FirstBurst(c: Config)
    requires Sound(c) && c.capacity >= 1.0
    ensures AllAllowed(c, EMPTY, Burst(Whole(c), 0.0), 0.0, One(Bucket(Left(c), 0.0), 0.0), 0.0)
    ensures |Burst(Whole(c), 0.0)| == Whole(c)
  {
    var b := Spent(Bucket(c.capacity, 0.0));
    assert Swept(c, EMPTY, 0.0) == EMPTY;
    assert Touched(c, EMPTY, LONE, b).order == [LONE] && Touched(c, EMPTY, LONE, b).buckets == map[LONE := b];
    FreshBurst(c, EMPTY, 0.0, 0.0, 0.0);
  }

  /** A bucket the sweep drops grants a whole burst again. */
  lemma SweptBurst(c: Config, b: Bucket, lastSweep: real, now: real)
    requires Sound(c) && c.capacity >= 1.0 && b.lastRefill <= now
    requires now - lastSweep >= c.idleEvictMs && Idle(c, b, now)
    ensures AllAllowed(c, One(b, lastSweep), Burst(Whole(c), now), b.lastRefill, One(Bucket(Left(c), now), now), now)
    ensures |Burst(Whole(c), now)| == Whole(c)
  {
    OneCheck(c, b, lastSweep, now);
    FreshBurst(c, One(b, lastSweep), b.lastRefill, now, now);
  }

  /** The time in which what is left grows to one token. */
  function Wait(c: Config): real
    requires c.capacity >= 1.0 && Sound(c)
  {
    (1.0 - Left(c)) / c.refillPerMs
  }

  lemma WaitRefills(c: Config)
    requires c.capacity >= 1.0 && Sound(c)
    ensures Wait(c) > 0.0 && Wait(c) * c.refillPerMs == 1.0 - Left(c)
    ensures 0.0 <= Left(c) < 1.0
  {
  }

  /** Waiting for the missing part of a token wins one more check, swept or not. */
  lemma WaitedCheck(c: Config, t: real, lastSweep: real) returns (m: Limiter)
    requires Sound(c) && c.capacity >= 1.0
    ensures AllAllowed(c, One(Bucket(Left(c), t), lastSweep), [Check(LONE, t + Wait(c))], t, m, t + Wait(c))
    ensures t + Wait(c) - lastSweep < c.idleEvictMs ==> m == One(Bucket(0.0, t + Wait(c)), lastSweep)
  {
    var now, b := t + Wait(c), Bucket(Left(c), t);
    WaitRefills(c);
    OneCheck(c, b, lastSweep, now);
    WaitedRefill(c, t);
    m := Checked(c, One(b, lastSweep), LONE, now).0;
    Single(c, One(b, lastSweep), t, now, m);
  }

  lemma WaitedRefill(c: Config, t: real)
    requires Sound(c) && c.capacity >= 1.0
    ensures Refilled(c, Bucket(Left(c), t), t + Wait(c)) == Bucket(1.0, t + Wait(c))
  {
    WaitRefills(c);
    var elapsed := t + Wait(c) - t;
    assert elapsed == Wait(c);
    assert elapsed * c.refillPerMs == 1.0 - Left(c);
  }

  /** Allowing everything is more than the unpruned limiter would, once time is short of tokens. */
  lemma Outruns(c: Config, events: seq<Event>, l': Limiter, end: real)
    requires Sound(c) && AllAllowed(c, EMPTY, events, 0.0, l', end)
    requires c.capacity + Gain(c, 0.0, end) < |events| as real
    ensures Answers(c, EMPTY, events) != AnswersForever(c, map[], events)
  {
    GrantsForever(c, map[], LONE, events, 0.0);
  }

  lemma TellsApart(c: Config) returns (events: seq<Event>)
    requires Sound(c) && 1.0 <= c.capacity && c.idleEvictMs * c.refillPerMs < c.capacity
    ensures Monotone(events, 0.0) && NeverFull(c, EMPTY, events)
    ensures Answers(c, EMPTY, events) != AnswersForever(c, map[], events)
  {
    if c.idleEvictMs * c.refillPerMs < Whole(c) as real {
      events := TellsApartAtOnce(c);
    } else {
      events := TellsApartLater(c);
    }
  }

  /** Drain, be swept, and drain again. */
  lemma TwoBursts(c: Config)
    requires Sound(c) && 1.0 <= c.capacity
    ensures var n, idle := Whole(c), c.idleEvictMs;
      && AllAllowed(c, EMPTY, Burst(n, 0.0) + Burst(n, idle), 0.0, One(Bucket(Left(c), idle), idle), idle)
      && |Burst(n, 0.0) + Burst(n, idle)| == 2 * n
  {
    var n, x, idle := Whole(c), Left(c), c.idleEvictMs;
    FirstBurst(c);
    SweptBurst(c, Bucket(x, 0.0), 0.0, idle);
    Joined(c, EMPTY, Burst(n, 0.0), 0.0, One(Bucket(x, 0.0), 0.0), 0.0, Burst(n, idle), One(Bucket(x, idle), idle),
      idle);
  }

  /** Drain, be swept, drain again, and wait for the fraction. */
  lemma TellsApartAtOnce(c: Config) returns (events: seq<Event>)
    requires Sound(c) && 1.0 <= c.capacity && c.idleEvictMs * c.refillPerMs < Whole(c) as real
    ensures Monotone(events, 0.0) && NeverFull(c, EMPTY, events)
    ensures Answers(c, EMPTY, events) != AnswersForever(c, map[], events)
  {
    var n, x, idle := Whole(c), Left(c), c.idleEvictMs;
    TwoBursts(c);
    var m := WaitedCheck(c, idle, idle);
    var end := idle + Wait(c);
    Joined(c, EMPTY, Burst(n, 0.0) + Burst(n, idle), 0.0, One(Bucket(x, idle), idle), idle, [Check(LONE, end)], m, end);
    events := Burst(n, 0.0) + Burst(n, idle) + [Check(LONE, end)];
    GainOf(c, idle, 1);
    Outruns(c, events, m, end);
  }

  /** Drain, and wait for the fraction. */
  lemma DrainAndWait(c: Config) returns (m: Limiter)
    requires Sound(c) && 1.0 <= c.capacity && Wait(c) < c.idleEvictMs
    ensures m == One(Bucket(0.0, Wait(c)), 0.0)
    ensures var so := Burst(Whole(c), 0.0) + [Check(LONE, Wait(c))];
      AllAllowed(c, EMPTY, so, 0.0, m, Wait(c)) && |so| == Whole(c) + 1
  {
    var n, x, w := Whole(c), Left(c), Wait(c);
    FirstBurst(c);
    m := WaitedCheck(c, 0.0, 0.0);
    assert 0.0 + w == w;
    Joined(c, EMPTY, Burst(n, 0.0), 0.0, One(Bucket(x, 0.0), 0.0), 0.0, [Check(LONE, w)], m, w);
  }

  /** Be swept, drain again, and wait for the fraction again. */
  lemma SweptAndWait(c: Config, lastSweep: real, w: real, t: real) returns (m: Limiter)
    requires Sound(c) && 1.0 <= c.capacity && lastSweep <= w && t == w + c.idleEvictMs
    ensures var so := Burst(Whole(c), t) + [Check(LONE, t + Wait(c))];
      AllAllowed(c, One(Bucket(0.0, w), lastSweep), so, w, m, t + Wait(c)) && |so| == Whole(c) + 1
  {
    var n, x := Whole(c), Left(c);
    SweptBurst(c, Bucket(0.0, w), lastSweep, t);
    m := WaitedCheck(c, t, t);
    Joined(c, One(Bucket(0.0, w), lastSweep), Burst(n, t), w, One(Bucket(x, t), t), t, [Check(LONE, t + Wait(c))], m,
      t + Wait(c));
  }

  /** Drain, wait for the fraction, and only then be swept. */
  lemma TellsApartLater(c: Config) returns (events: seq<Event>)
    requires Sound(c) && 1.0 <= c.capacity && Whole(c) as real <= c.idleEvictMs * c.refillPerMs < c.capacity
    ensures Monotone(events, 0.0) && NeverFull(c, EMPTY, events)
    ensures Answers(c, EMPTY, events) != AnswersForever(c, map[], events)
  {
    hide Burst, Answers, AnswersForever, Granted, After, Monotone, NeverFull, EndTime;
    var n, w := Whole(c), Wait(c);
    var t := w + c.idleEvictMs;
    WaitRefills(c);
    WaitIsShort(c);
    var m := DrainAndWait(c);
    var m' := SweptAndWait(c, 0.0, w, t);
    var so, later := Burst(n, 0.0) + [Check(LONE, w)], Burst(n, t) + [Check(LONE, t + w)];
    events := so + later;
    Joined(c, EMPTY, so, 0.0, m, w, later, m', t + w);
    GainOf(c, c.idleEvictMs, 2);
    Outruns(c, events, m', t + w);
  }

  lemma WaitIsShort(c: Config)
    requires Sound(c) && 1.0 <= c.capacity && Whole(c) as real <= c.idleEvictMs * c.refillPerMs < c.capacity
    ensures Wait(c) < c.idleEvictMs
  {
    WaitRefills(c);
    assert Left(c) > 0.0 && Whole(c) >= 1;
    Shorter(Wait(c), c.idleEvictMs, c.refillPerMs, 1.0 - Left(c));
  }

  lemma Shorter(a: real, b: real, rate: real, gain: real)
    requires rate > 0.0 && a * rate == gain && gain < b * rate
    ensures a < b
  {
  }

  lemma GainOf(c: Config, idle: real, waits: nat)
    requires Sound(c) && 1.0 <= c.capacity && 1 <= waits <= 2
    ensures waits == 1 ==> Gain(c, 0.0, idle + Wait(c)) == idle * c.refillPerMs + 1.0 - Left(c)
    ensures waits == 2 ==> Gain(c, 0.0, Wait(c) + idle + Wait(c)) == idle * c.refillPerMs + 2.0 - 2.0 * Left(c)
  {
    WaitRefills(c);
  }

  // ----- on a clock of whole milliseconds -----

  ghost predicate OnTicks(events: seq<Event>) {
    forall e | e in events :: e.Check? ==> IsWhole(e.now)
  }

  /** As `Transparent`, for runs timed by a clock of whole milliseconds. */
  ghost predicate TransparentOnTicks(c: Config) {
    forall events: seq<Event> :: Monotone(events, 0.0) && OnTicks(events) && NeverFull(c, EMPTY, events) ==>
      Answers(c, EMPTY, events) == AnswersForever(c, map[], events)
  }

  /** The first whole millisecond that is no less. */
  function Ticks(x: real): real {
    if IsWhole(x) then x else x.Floor as real + 1.0
  }

  /** For a whole capacity the condition is the same, with the idle time rounded up to what the clock can show. */
  lemma TransparentOnTicksExactly(c: Config)
    requires Sound(c) && IsWhole(c.capacity)
    ensures TransparentOnTicks(c) <==> Ticks(c.idleEvictMs) * c.refillPerMs >= c.capacity
  {
    var d := Rounded(c);
    TicksAre(c.idleEvictMs);
    forall events: seq<Event> | OnTicks(events)
      ensures NeverFull(c, EMPTY, events) <==> NeverFull(d, EMPTY, events)
      ensures Answers(c, EMPTY, events) == Answers(d, EMPTY, events)
      ensures AnswersForever(c, map[], events) == AnswersForever(d, map[], events)
    {
      RoundedRun(c, EMPTY, events);
      RoundedForever(c, map[], events);
    }
    TransparentAllWhole(d);
  }

  lemma TransparentAllWhole(c: Config)
    requires Sound(c) && IsWhole(c.capacity) && IsWhole(c.idleEvictMs)
    ensures TransparentOnTicks(c) <==> c.idleEvictMs * c.refillPerMs >= c.capacity
  {
    TransparentExactly(c);
    if c.idleEvictMs * c.refillPerMs < c.capacity {
      var events := Burst(Whole(c), 0.0) + Burst(Whole(c), c.idleEvictMs);
      TwoBursts(c);
      BurstOnTicks(Whole(c), 0.0);
      BurstOnTicks(Whole(c), c.idleEvictMs);
      Outruns(c, events, One(Bucket(Left(c), c.idleEvictMs), c.idleEvictMs), c.idleEvictMs);
    }
  }

  function Rounded(c: Config): Config {
    c.(idleEvictMs := Ticks(c.idleEvictMs))
  }

  lemma TicksAre(x: real)
    ensures x <= Ticks(x) && IsWhole(Ticks(x))
  {
    if !IsWhole(x) {
      assert (x.Floor + 1) as real == Ticks(x);
    }
  }

  /** Between whole readings, as long as `x` is as long as `x` rounded up. */
  lemma RoundedGap(m: int, n: int, x: real)
    ensures n as real - m as real >= x <==> n as real - m as real >= Ticks(x)
  {
    TicksAre(x);
    assert (n - m) as real == n as real - m as real;
    if (n - m) as real >= x {
      assert n - m >= x.Floor;
    }
  }

  /** Everything the limiter remembers of the clock is a whole reading. */
  ghost predicate KeptOnTicks(l: Limiter) {
    IsWhole(l.lastSweep) && forall a | a in l.buckets :: IsWhole(l.buckets[a].lastRefill)
  }

  lemma RoundedSwept(c: Config, l: Limiter, now: real)
    requires KeptOnTicks(l) && IsWhole(now)
    ensures Swept(c, l, now) == Swept(Rounded(c), l, now) && KeptOnTicks(Swept(c, l, now))
  {
    RoundedGap(l.lastSweep.Floor, now.Floor, c.idleEvictMs);
    forall a | a in l.buckets
      ensures Idle(c, l.buckets[a], now) <==> Idle(Rounded(c), l.buckets[a], now)
    {
      RoundedGap(l.buckets[a].lastRefill.Floor, now.Floor, c.idleEvictMs);
    }
    assert Idlers(c, l.buckets, now) == Idlers(Rounded(c), l.buckets, now);
  }

  lemma RoundedStep(c: Config, l: Limiter, e: Event)
    requires KeptOnTicks(l) && (e.Check? ==> IsWhole(e.now))
    ensures Next(c, l, e) == Next(Rounded(c), l, e) && KeptOnTicks(Next(c, l, e))
    ensures Answer(c, l, e) == Answer(Rounded(c), l, e) && (HasRoom(c, l, e) <==> HasRoom(Rounded(c), l, e))
  {
    if e.Check? {
      RoundedSwept(c, l, e.now);
      hide Swept;
      var s := Swept(c, l, e.now);
      assert BucketAt(c, s.buckets, e.actor, e.now) == BucketAt(Rounded(c), s.buckets, e.actor, e.now);
      assert Others(c, s, e.actor) == Others(Rounded(c), s, e.actor);
    }
  }

  lemma FirstThenRest(c: Config, l: Limiter, events: seq<Event>)
    requires events != []
    ensures var l' := Next(c, l, events[0]);
      && Answers(c, l, events) == Answer(c, l, events[0]) + Answers(c, l', events[1..])
      && (NeverFull(c, l, events) <==> HasRoom(c, l, events[0]) && NeverFull(c, l', events[1..]))
  {
  }

  lemma NothingAsked(c: Config, l: Limiter)
    ensures Answers(c, l, []) == [] && NeverFull(c, l, [])
  {
  }

  lemma {:induction false} RoundedRun(c: Config, l: Limiter, events: seq<Event>)
    requires KeptOnTicks(l) && OnTicks(events)
    ensures Answers(c, l, events) == Answers(Rounded(c), l, events)
    ensures NeverFull(c, l, events) <==> NeverFull(Rounded(c), l, events)
    decreases events
  {
    hide Answers, NeverFull, Next, Answer, HasRoom, KeptOnTicks, IsWhole, Rounded;
    if events == [] {
      NothingAsked(c, l);
      NothingAsked(Rounded(c), l);
    } else {
      var e, rest := events[0], events[1..];
      assert e in events;
      RoundedStep(c, l, e);
      RoundedRun(c, Next(c, l, e), rest);
      FirstThenRest(c, l, events);
      FirstThenRest(Rounded(c), l, events);
    }
  }

  lemma {:induction false} RoundedForever(c: Config, u: Buckets, events: seq<Event>)
    ensures AnswersForever(c, u, events) == AnswersForever(Rounded(c), u, events)
    decreases events
  {
    if events != [] {
      assert CheckedForever(c, u, events[0].actor, TimeOf(events[0], 0.0))
          == CheckedForever(Rounded(c), u, events[0].actor, TimeOf(events[0], 0.0));
      hide CheckedForever;
      RoundedForever(c, NextForever(c, u, events[0]), events[1..]);
    }
  }

  lemma {:induction false} BurstOnTicks(n: nat, now: real)
    requires IsWhole(now)
    ensures OnTicks(Burst(n, now))
  {
    if n > 0 {
      BurstOnTicks(n - 1, now);
    }
  }

  // ----- the hard cap -----

  /** No monotone run at all can tell the limiter from the one that never forgets. */
  ghost predicate TransparentWithCap(c: Config) {
    forall events: seq<Event> :: Monotone(events, 0.0) ==>
      Answers(c, EMPTY, events) == AnswersForever(c, map[], events)
  }

  /** Taking buckets away for lack of room never goes unnoticed, unless no bucket ever holds a token. */
  lemma CapTransparentExactly(c: Config)
    requires Sound(c)
    ensures TransparentWithCap(c) <==> c.capacity < 1.0
  {
    if c.capacity < 1.0 {
      forall events: seq<Event> | Monotone(events, 0.0)
        ensures Answers(c, EMPTY, events) == AnswersForever(c, map[], events)
      {
        NothingGranted(c, EMPTY, map[], events);
      }
    } else {
      CapEvictionShows(c);
    }
  }

  /** The newcomers from `from` up to `limit` check once each, all at time zero. */
  function Crowd(from: nat, limit: nat): seq<Event>
    decreases limit - from
  {
    if from >= limit then [] else [Check(Name(from), 0.0)] + Crowd(from + 1, limit)
  }

  /** Drain one bucket, let as many newcomers in as there is room for, and come back. */
  function Return(c: Config): seq<Event>
    requires c.capacity >= 1.0
  {
    Burst(Whole(c), 0.0) + Crowd(0, c.maxBuckets) + [Check(LONE, 0.0)]
  }

  /** A newcomer finds the drained bucket at the far end and, if there is no room left, takes its place. */
  lemma NewcomerChecks(c: Config, l: Limiter, j: nat)
    requires Sound(c) && j < c.maxBuckets && l.lastSweep == 0.0
    requires l.order == [LONE] + Names(j) && l.buckets.Keys == KeySet(l.order)
    ensures var l' := Checked(c, l, Name(j), 0.0).0;
      && l'.lastSweep == 0.0
      && (j + 1 < c.maxBuckets ==> l'.order == [LONE] + Names(j + 1) && l'.buckets.Keys == KeySet(l'.order))
      && (j + 1 == c.maxBuckets ==> LONE !in l'.buckets)
  {
    KeySetSplits([LONE], Names(j));
    if Name(j) in l.buckets {
      NamesAreLong(j, Name(j));
    }
    NamesCount(j);
    KeySetSplits(l.order, [Name(j)]);
    assert l.order + [Name(j)] == [LONE] + Names(j + 1);
  }

  lemma {:induction false} PushedOut(c: Config, l: Limiter, j: nat)
    requires Sound(c) && j < c.maxBuckets && l.lastSweep == 0.0
    requires l.order == [LONE] + Names(j) && l.buckets.Keys == KeySet(l.order)
    ensures var l' := After(c, l, Crowd(j, c.maxBuckets)); LONE !in l'.buckets && l'.lastSweep == 0.0
    decreases c.maxBuckets - j
  {
    var crowd := Crowd(j, c.maxBuckets);
    NewcomerChecks(c, l, j);
    assert crowd[1..] == Crowd(j + 1, c.maxBuckets);
    if j + 1 < c.maxBuckets {
      PushedOut(c, Next(c, l, crowd[0]), j + 1);
    }
  }

  /** Nothing is released, and the clock stands at zero. */
  ghost predicate AtOnce(events: seq<Event>) {
    events == [] || (events[0].Check? && events[0].now == 0.0 && AtOnce(events[1..]))
  }

  lemma {:induction false} AtOnceIs(events: seq<Event>)
    requires AtOnce(events)
    ensures Monotone(events, 0.0) && EndTime(events, 0.0) == 0.0 && Release(LONE) !in events
  {
    if events != [] {
      AtOnceIs(events[1..]);
    }
  }

  lemma {:induction false} AtOnceJoined(a: seq<Event>, b: seq<Event>)
    requires AtOnce(a) && AtOnce(b)
    ensures AtOnce(a + b)
  {
    if a == [] {
      assert a + b == b;
    } else {
      assert (a + b)[1..] == a[1..] + b;
      AtOnceJoined(a[1..], b);
    }
  }

  lemma {:induction false} CrowdAtOnce(from: nat, limit: nat)
    ensures AtOnce(Crowd(from, limit))
    decreases limit - from
  {
    if from < limit {
      assert Crowd(from, limit)[1..] == Crowd(from + 1, limit);
      CrowdAtOnce(from + 1, limit);
    }
  }

  lemma {:induction false} BurstAtOnce(n: nat)
    ensures AtOnce(Burst(n, 0.0))
  {
    if n > 0 {
      assert Burst(n, 0.0)[1..] == Burst(n - 1, 0.0);
      BurstAtOnce(n - 1);
    }
  }

  /** What is granted over two stretches adds up. */
  lemma {:induction false} GrantedAdds(c: Config, l: Limiter, a: seq<Event>, b: seq<Event>)
    ensures After(c, l, a + b) == After(c, After(c, l, a), b)
    ensures Granted(LONE, a + b, Answers(c, l, a + b))
         == Granted(LONE, a, Answers(c, l, a)) + Granted(LONE, b, Answers(c, After(c, l, a), b))
    decreases a
  {
    if a == [] {
      assert a + b == b;
    } else {
      assert (a + b)[1..] == a[1..] + b && (a + b)[0] == a[0];
      var l' := Next(c, l, a[0]);
      assert Answers(c, l, a)[|Answer(c, l, a[0])|..] == Answers(c, l', a[1..]);
      assert Answers(c, l, a + b)[|Answer(c, l, a[0])|..] == Answers(c, l', a[1..] + b);
      GrantedAdds(c, l', a[1..], b);
    }
  }

  /** A bucket that was taken away comes back full. */
  lemma BackAgain(c: Config, l: Limiter)
    requires Sound(c) && c.capacity >= 1.0 && LONE !in l.buckets && l.lastSweep == 0.0
    ensures Granted(LONE, [Check(LONE, 0.0)], Answers(c, l, [Check(LONE, 0.0)])) == 1
  {
    var again := [Check(LONE, 0.0)];
    assert again[1..] == [] && Answers(c, l, again) == [true];
    assert Granted(LONE, [], []) == 0;
  }

  /** With any number of buckets, enough newcomers push out a drained one, which is a full one when it returns. */
  lemma CapEvictionShows(c: Config)
    requires Sound(c) && c.capacity >= 1.0
    ensures Monotone(Return(c), 0.0)
    ensures Granted(LONE, Return(c), Answers(c, EMPTY, Return(c))) as real > c.capacity
    ensures Answers(c, EMPTY, Return(c)) != AnswersForever(c, map[], Return(c))
  {
    var burst, crowd, again := Burst(Whole(c), 0.0), Crowd(0, c.maxBuckets), [Check(LONE, 0.0)];
    FirstBurst(c);
    var l := One(Bucket(Left(c), 0.0), 0.0);
    assert l.order == [LONE] + Names(0) && l.buckets.Keys == KeySet(l.order);
    PushedOut(c, l, 0);
    BackAgain(c, After(c, l, crowd));
    GrantedAdds(c, EMPTY, burst, crowd);
    GrantedAdds(c, EMPTY, burst + crowd, again);
    BurstAtOnce(Whole(c));
    CrowdAtOnce(0, c.maxBuckets);
    AtOnceJoined(burst, crowd);
    assert again[1..] == [];
    AtOnceJoined(burst + crowd, again);
    AtOnceIs(Return(c));
    GrantsForever(c, map[], LONE, Return(c), 0.0);
    GainSplits(c, 0.0, 0.0, 0.0);
  }

  // ----- few enough actors never fill the limiter -----

  function Actors(events: seq<Event>): set<ActorId> {
    if events == [] then {} else {events[0].actor} + Actors(events[1..])
  }

  lemma {:induction false} FewActorsNeverFill(c: Config, l: Limiter, events: seq<Event>, actors: set<ActorId>)
    requires Valid(c, l) && l.buckets.Keys <= actors && Actors(events) <= actors && |actors| <= c.maxBuckets
    ensures NeverFull(c, l, events)
    decreases events
  {
    if events != [] {
      var e := events[0];
      if e.Check? {
        var s := Swept(c, l, e.now);
        SweptValid(c, l, e.now);
        TouchedValid(c, s, e.actor, Spent(BucketAt(c, s.buckets, e.actor, e.now)));
        OrderSize(s.order, s.buckets);
        if e.actor !in s.buckets {
          assert s.buckets.Keys + {e.actor} <= actors;
          SubsetSize(s.buckets.Keys + {e.actor}, actors);
        }
      } else {
        OrdersWithout(l.order, l.buckets, e.actor);
        SubsetSize((l.buckets - {e.actor}).Keys, l.buckets.Keys);
      }
      FewActorsNeverFill(c, Next(c, l, e), events[1..], actors);
    }
  }
}
