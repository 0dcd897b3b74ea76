/** The rate limiter against the simple one that never forgets a bucket, over whole runs. */
module TokenBucketLaws {
  import opened TokenBucket

  datatype Event = Check(actor: ActorId, now: real) | Release(actor: ActorId)

  // ----- the reference: one bucket per actor, never pruned -----

  type Buckets = map<ActorId, Bucket>

  function CheckedForever(c: Config, u: Buckets, actor: ActorId, now: real): (Buckets, bool) {
    var b := BucketAt(c, u, actor, now);
    (u[actor := Spent(b)], b.tokens >= 1.0)
  }

  function NextForever(c: Config, u: Buckets, e: Event): Buckets {
    match e
    case Check(actor, now) => CheckedForever(c, u, actor, now).0
    case Release(actor) => u - {actor}
  }

  function AnswersForever(c: Config, u: Buckets, events: seq<Event>): seq<bool>
    decreases events
  {
    if events == [] then [] else
      AnswerForever(c, u, events[0]) + AnswersForever(c, NextForever(c, u, events[0]), events[1..])
  }

  function AnswerForever(c: Config, u: Buckets, e: Event): seq<bool> {
    if e.Check? then [CheckedForever(c, u, e.actor, e.now).1] else []
  }

  // ----- runs of the limiter -----

  function Next(c: Config, l: Limiter, e: Event): Limiter {
    match e
    case Check(actor, now) => Checked(c, l, actor, now).0
    case Release(actor) => Released(l, actor)
  }

  function Answers(c: Config, l: Limiter, events: seq<Event>): seq<bool>
    decreases events
  {
    if events == [] then [] else
      Answer(c, l, events[0]) + Answers(c, Next(c, l, events[0]), events[1..])
  }

  function Answer(c: Config, l: Limiter, e: Event): seq<bool> {
    if e.Check? then [Checked(c, l, e.actor, e.now).1] else []
  }

  function After(c: Config, l: Limiter, events: seq<Event>): Limiter
    decreases events
  {
    if events == [] then l else After(c, Next(c, l, events[0]), events[1..])
  }

  function TimeOf(e: Event, t: real): real {
    if e.Check? then e.now else t
  }

  /** The clock never runs backwards. */
  ghost predicate Monotone(events: seq<Event>, t: real) {
    events == [] || (t <= TimeOf(events[0], t) && Monotone(events[1..], TimeOf(events[0], t)))
  }

  function EndTime(events: seq<Event>, t: real): real {
    if events == [] then t else EndTime(events[1..], TimeOf(events[0], t))
  }

  /** The hard cap takes no bucket away in this step. */
  ghost predicate HasRoom(c: Config, l: Limiter, e: Event) {
    e.Check? ==>
      var s := Swept(c, l, e.now);
      e.actor in s.buckets || |s.order| < c.maxBuckets
  }

  ghost predicate NeverFull(c: Config, l: Limiter, events: seq<Event>)
    decreases events
  {
    events == [] || (HasRoom(c, l, events[0]) && NeverFull(c, Next(c, l, events[0]), events[1..]))
  }

  // ----- the idle sweep is invisible -----

  /** A forgotten bucket has been idle long enough; the remembered ones agree. */
  ghost predicate Agree(c: Config, l: Buckets, u: Buckets, t: real) {
    && (forall a | a in u :: u[a].lastRefill <= t && 0.0 <= u[a].tokens <= c.capacity)
    && (forall a | a in l :: a in u && l[a] == u[a])
    && (forall a | a in u && a !in l :: Idle(c, u[a], t))
  }

  lemma GainCovers(c: Config, elapsed: real)
    requires Sound(c) && c.idleEvictMs * c.refillPerMs >= c.capacity && elapsed >= c.idleEvictMs
    ensures elapsed * c.refillPerMs >= c.capacity
  {
    assert elapsed * c.refillPerMs - c.idleEvictMs * c.refillPerMs == (elapsed - c.idleEvictMs) * c.refillPerMs;
  }

  lemma GainIsPositive(c: Config, elapsed: real)
    requires Sound(c) && elapsed >= 0.0
    ensures elapsed * c.refillPerMs >= 0.0
  {
  }

  /** An idle bucket has refilled: it is the bucket a new actor would get. */
  lemma IdleIsFull(c: Config, b: Bucket, now: real)
    requires Sound(c) && c.idleEvictMs * c.refillPerMs >= c.capacity
    requires Idle(c, b, now) && b.tokens >= 0.0
    ensures Refilled(c, b, now) == Bucket(c.capacity, now)
  {
    GainCovers(c, now - b.lastRefill);
  }

  lemma RefilledStays(c: Config, b: Bucket, now: real)
    requires Sound(c) && b.lastRefill <= now && 0.0 <= b.tokens <= c.capacity
    ensures Refilled(c, b, now).lastRefill == now && b.tokens <= Refilled(c, b, now).tokens <= c.capacity
  {
    GainIsPositive(c, now - b.lastRefill);
  }

  lemma SweepAgrees(c: Config, l: Limiter, u: Buckets, t: real, now: real)
    requires Agree(c, l.buckets, u, t) && t <= now
    ensures Agree(c, Swept(c, l, now).buckets, u, now)
  {
  }

  lemma SameBucket(c: Config, l: Buckets, u: Buckets, actor: ActorId, now: real)
    requires Sound(c) && c.idleEvictMs * c.refillPerMs >= c.capacity
    requires Agree(c, l, u, now)
    ensures BucketAt(c, l, actor, now) == BucketAt(c, u, actor, now)
    ensures var b := BucketAt(c, u, actor, now); b.lastRefill == now && 0.0 <= b.tokens <= c.capacity
  {
    if actor in u {
      RefilledStays(c, u[actor], now);
      if actor !in l {
        IdleIsFull(c, u[actor], now);
      }
    }
  }

  lemma TouchAgrees(c: Config, l: Limiter, u: Buckets, actor: ActorId, b: Bucket, now: real)
    requires Agree(c, l.buckets, u, now) && (actor in l.buckets || |l.order| < c.maxBuckets)
    requires b.lastRefill <= now && 0.0 <= b.tokens <= c.capacity
    ensures Agree(c, Touched(c, l, actor, b).buckets, u[actor := b], now)
  {
  }

  lemma StepAgrees(c: Config, l: Limiter, u: Buckets, e: Event, t: real)
    requires Sound(c) && c.idleEvictMs * c.refillPerMs >= c.capacity
    requires Agree(c, l.buckets, u, t) && t <= TimeOf(e, t) && HasRoom(c, l, e)
    ensures Agree(c, Next(c, l, e).buckets, NextForever(c, u, e), TimeOf(e, t))
    ensures Answer(c, l, e) == AnswerForever(c, u, e)
  {
    if e.Check? {
      var s := Swept(c, l, e.now);
      SweepAgrees(c, l, u, t, e.now);
      SameBucket(c, s.buckets, u, e.actor, e.now);
      var b := BucketAt(c, u, e.actor, e.now);
      TouchAgrees(c, s, u, e.actor, Spent(b), e.now);
    }
  }

  lemma {:induction false} RunAgrees(c: Config, l: Limiter, u: Buckets, events: seq<Event>, t: real)
    requires Sound(c) && c.idleEvictMs * c.refillPerMs >= c.capacity
    requires Agree(c, l.buckets, u, t) && Monotone(events, t) && NeverFull(c, l, events)
    ensures Answers(c, l, events) == AnswersForever(c, u, events)
    decreases events
  {
    if events != [] {
      StepAgrees(c, l, u, events[0], t);
      RunAgrees(c, Next(c, l, events[0]), NextForever(c, u, events[0]), events[1..], TimeOf(events[0], t));
    }
  }

  // ----- how many checks an actor can win -----

  /** The checks of one actor that were allowed, given the answers of all of them. */
  function Granted(actor: ActorId, events: seq<Event>, answers: seq<bool>): nat
    decreases events
  {
    if events == [] then 0
    else if events[0].Release? then Granted(actor, events[1..], answers)
    else if answers == [] then 0
    else (if events[0].actor == actor && answers[0] then 1 else 0) + Granted(actor, events[1..], answers[1..])
  }

  /** What accrues over a stretch of time. */
  function Gain(c: Config, from: real, to: real): real {
    (to - from) * c.refillPerMs
  }

  lemma GainSplits(c: Config, t: real, now: real, end: real)
    ensures Gain(c, t, end) == Gain(c, t, now) + Gain(c, now, end)
    ensures Gain(c, t, t) == 0.0
  {
  }

  ghost predicate Bounded(c: Config, u: Buckets, t: real) {
    forall a | a in u :: u[a].lastRefill <= t && 0.0 <= u[a].tokens <= c.capacity
  }

  lemma LevelGrows(c: Config, u: Buckets, actor: ActorId, t: real, now: real)
    requires Sound(c) && Bounded(c, u, t) && t <= now
    ensures BucketAt(c, u, actor, now).tokens <= BucketAt(c, u, actor, t).tokens + Gain(c, t, now)
    ensures 0.0 <= BucketAt(c, u, actor, now).tokens <= c.capacity
  {
    GainIsPositive(c, now - t);
    if actor in u {
      var b := u[actor];
      RefilledStays(c, b, now);
      RefilledStays(c, b, t);
      GainIsPositive(c, t - b.lastRefill);
      assert (now - b.lastRefill) * c.refillPerMs == (t - b.lastRefill) * c.refillPerMs + Gain(c, t, now);
    }
  }

  lemma LevelSpent(c: Config, u: Buckets, actor: ActorId, e: Event, now: real)
    requires Sound(c) && Bounded(c, u, now) && e != Release(actor) && now == TimeOf(e, now)
    ensures Bounded(c, NextForever(c, u, e), now)
    ensures BucketAt(c, NextForever(c, u, e), actor, now).tokens + Won(c, u, actor, e)
         <= BucketAt(c, u, actor, now).tokens
  {
    LevelGrows(c, u, e.actor, now, now);
    LevelGrows(c, u, actor, now, now);
    if e.Check? && e.actor in u {
      RefilledStays(c, u[e.actor], now);
    }
  }

  function Won(c: Config, u: Buckets, actor: ActorId, e: Event): real {
    if e.Check? && e.actor == actor && AnswerForever(c, u, e)[0] then 1.0 else 0.0
  }

  /** One event: the level plus what is granted never exceeds the old level plus what accrued. */
  lemma LevelStep(c: Config, u: Buckets, actor: ActorId, e: Event, t: real)
    requires Sound(c) && Bounded(c, u, t) && t <= TimeOf(e, t) && e != Release(actor)
    ensures Bounded(c, NextForever(c, u, e), TimeOf(e, t))
    ensures BucketAt(c, NextForever(c, u, e), actor, TimeOf(e, t)).tokens + Won(c, u, actor, e)
         <= BucketAt(c, u, actor, t).tokens + Gain(c, t, TimeOf(e, t))
  {
    LevelGrows(c, u, actor, t, TimeOf(e, t));
    LevelSpent(c, u, actor, e, TimeOf(e, t));
  }

  lemma GrantedUnfolds(c: Config, u: Buckets, actor: ActorId, events: seq<Event>)
    requires events != []
    ensures Granted(actor, events, AnswersForever(c, u, events)) as real
         == Won(c, u, actor, events[0])
          + Granted(actor, events[1..], AnswersForever(c, NextForever(c, u, events[0]), events[1..])) as real
  {
    var rest := AnswersForever(c, NextForever(c, u, events[0]), events[1..]);
    if events[0].Check? {
      assert AnswersForever(c, u, events)[1..] == rest;
    } else {
      assert AnswersForever(c, u, events) == rest;
    }
  }

  lemma {:induction false} GrantsForever(c: Config, u: Buckets, actor: ActorId, events: seq<Event>, t: real)
    requires Sound(c) && Bounded(c, u, t) && Monotone(events, t) && Release(actor) !in events
    ensures Granted(actor, events, AnswersForever(c, u, events)) as real
         <= BucketAt(c, u, actor, t).tokens + Gain(c, t, EndTime(events, t))
    decreases events
  {
    if events == [] {
      LevelGrows(c, u, actor, t, t);
      GainSplits(c, t, t, t);
    } else {
      var e, now := events[0], TimeOf(events[0], t);
      assert e in events && Release(actor) !in events[1..];
      LevelStep(c, u, actor, e, t);
      GrantsForever(c, NextForever(c, u, e), actor, events[1..], now);
      GrantedUnfolds(c, u, actor, events);
      GainSplits(c, t, now, EndTime(events, t));
    }
  }

  lemma {:induction false} AgreesAfter(c: Config, l: Limiter, u: Buckets, before: seq<Event>, window: seq<Event>,
                                       t: real)
      returns (v: Buckets)
    requires Sound(c) && c.idleEvictMs * c.refillPerMs >= c.capacity
    requires Agree(c, l.buckets, u, t) && Monotone(before, t) && NeverFull(c, l, before + window)
    ensures Agree(c, After(c, l, before).buckets, v, EndTime(before, t))
    ensures NeverFull(c, After(c, l, before), window)
    decreases before
  {
    if before == [] {
      assert before + window == window;
      v := u;
    } else {
      assert (before + window)[1..] == before[1..] + window;
      StepAgrees(c, l, u, before[0], t);
      v := AgreesAfter(c, Next(c, l, before[0]), NextForever(c, u, before[0]), before[1..], window,
        TimeOf(before[0], t));
    }
  }

  /** In any window of a run, an actor that is not released wins at most the burst plus what accrues. */
  lemma GrantsInWindow(c: Config, actor: ActorId, before: seq<Event>, window: seq<Event>, start: real)
    requires Sound(c) && c.idleEvictMs * c.refillPerMs >= c.capacity
    requires Monotone(before, 0.0) && NeverFull(c, EMPTY, before + window)
    requires EndTime(before, 0.0) <= start && Monotone(window, start) && Release(actor) !in window
    ensures Granted(actor, window, Answers(c, After(c, EMPTY, before), window)) as real
         <= c.capacity + Gain(c, start, EndTime(window, start))
  {
    var u := AgreesAfter(c, EMPTY, map[], before, window, 0.0);
    RunAgrees(c, After(c, EMPTY, before), u, window, start);
    GrantsForever(c, u, actor, window, start);
    LevelGrows(c, u, actor, start, start);
  }
}
