/** The rate limiter under a clock that may step back: what one check does, and what an actor can win over a run. */
module TokenBucketClock {
  import opened Prelude
  import opened Ordered
  import opened TokenBucket
  import opened TokenBucketLaws

  // ----- one check -----

  /** A check no later than the last one leaves the tokens as they were, but for the one it spends. */
  lemma EarlierCheck(c: Config, l: Limiter, actor: ActorId, now: real)
    requires Sound(c) && actor in l.buckets && now <= l.buckets[actor].lastRefill
    ensures var (l', allowed) := Checked(c, l, actor, now);
      && (allowed <==> l.buckets[actor].tokens >= 1.0)
      && actor in l'.buckets
      && l'.buckets[actor] == Bucket(l.buckets[actor].tokens - (if allowed then 1.0 else 0.0), now)
  {
  }

  /** What accrues over a stretch of time. */
  ghost function Accrued(c: Config, stretch: real): real {
    stretch * c.refillPerMs
  }

  lemma AccruedSign(c: Config, stretch: real)
    requires Sound(c)
    ensures stretch >= 0.0 ==> Accrued(c, stretch) >= 0.0
    ensures stretch <= 0.0 ==> Accrued(c, stretch) <= 0.0
  {
    if stretch >= 0.0 {
      GainIsPositive(c, stretch);
    } else {
      GainIsPositive(c, -stretch);
      assert Accrued(c, stretch) == -((-stretch) * c.refillPerMs);
    }
  }

  lemma RefilledIs(c: Config, b: Bucket, now: real)
    ensures Refilled(c, b, now) == Bucket(
      if b.lastRefill < now then Min(c.capacity, b.tokens + Accrued(c, now - b.lastRefill)) else b.tokens, now)
  {
  }

  /** Without a bucket, or after waiting for a token to accrue, a check succeeds. */
  lemma PatientIsAllowed(c: Config, l: Limiter, actor: ActorId, now: real)
    requires Sound(c) && c.capacity >= 1.0
    requires actor in l.buckets ==>
      l.buckets[actor].tokens >= 0.0 && (now - l.buckets[actor].lastRefill) * c.refillPerMs >= 1.0
    ensures Checked(c, l, actor, now).1
  {
    if actor in l.buckets {
      var b := l.buckets[actor];
      assert Accrued(c, now - b.lastRefill) >= 1.0;
      hide Refilled, Accrued;
      AccruedSign(c, now - b.lastRefill);
      RefilledIs(c, b, now);
    }
  }

  // ----- runs -----

  /** The bucket of the actor is neither idle nor the one that makes room. */
  ghost predicate Undisturbed(c: Config, l: Limiter, actor: ActorId, e: Event) {
    e.Check? && actor in l.buckets ==>
      && e.now - l.buckets[actor].lastRefill < c.idleEvictMs
      && (e.actor in l.buckets || |l.order| < c.maxBuckets || l.order[0] != actor)
  }

  ghost predicate NeverDisturbed(c: Config, l: Limiter, actor: ActorId, events: seq<Event>)
    decreases events
  {
    events == []
    || (Undisturbed(c, l, actor, events[0]) && NeverDisturbed(c, Next(c, l, events[0]), actor, events[1..]))
  }

  /** How far the clock ran forward between one check of the actor and its next, all in all; steps back do not count. */
  ghost function Forward(actor: ActorId, events: seq<Event>, last: Option<real>): real
    decreases events
  {
    if events == [] then 0.0
    else if events[0].Check? && events[0].actor == actor then
      (if last.Some? && last.value < events[0].now then events[0].now - last.value else 0.0)
        + Forward(actor, events[1..], Some(events[0].now))
    else Forward(actor, events[1..], last)
  }

  ghost function LastOf(l: Limiter, actor: ActorId): Option<real> {
    if actor in l.buckets then Some(l.buckets[actor].lastRefill) else None
  }

  ghost function LevelOf(c: Config, l: Limiter, actor: ActorId): real {
    if actor in l.buckets then l.buckets[actor].tokens else c.capacity
  }

  ghost function StepFrom(b: Bucket, now: real): real {
    if b.lastRefill < now then now - b.lastRefill else 0.0
  }

  ghost function StepOf(l: Limiter, actor: ActorId, e: Event): real {
    if e.Check? && e.actor == actor && actor in l.buckets then StepFrom(l.buckets[actor], e.now) else 0.0
  }

  ghost function WonBy(c: Config, l: Limiter, actor: ActorId, e: Event): nat {
    if e.Check? && e.actor == actor && Checked(c, l, actor, e.now).1 then 1 else 0
  }

  lemma KeptThroughCheck(c: Config, l: Limiter, actor: ActorId, other: ActorId, now: real)
    requires Valid(c, l) && other != actor && Undisturbed(c, l, actor, Check(other, now))
    ensures LastOf(Checked(c, l, other, now).0, actor) == LastOf(l, actor)
    ensures LevelOf(c, Checked(c, l, other, now).0, actor) == LevelOf(c, l, actor)
  {
    var s := Swept(c, l, now);
    SweptValid(c, l, now);
    OrderSize(l.order, l.buckets);
    OrderSize(s.order, s.buckets);
    if actor in l.buckets {
      assert actor in s.buckets && s.buckets[actor] == l.buckets[actor];
      if other !in s.buckets && |s.order| >= c.maxBuckets {
        SubsetSize(s.buckets.Keys, l.buckets.Keys);
        FullSweepKeeps(c, l, now);
      }
    }
  }

  /** A sweep after which the map is still full dropped nothing. */
  lemma FullSweepKeeps(c: Config, l: Limiter, now: real)
    requires Valid(c, l) && |Swept(c, l, now).order| >= c.maxBuckets
    ensures Swept(c, l, now).order == l.order && Swept(c, l, now).buckets == l.buckets
  {
    var s, gone := Swept(c, l, now), Idlers(c, l.buckets, now);
    SweptValid(c, l, now);
    OrderSize(s.order, s.buckets);
    if s != l {
      assert s.buckets == l.buckets - gone && gone <= l.buckets.Keys;
      assert |s.buckets.Keys| == |l.buckets.Keys - gone|;
      assert |l.buckets.Keys| == |l.buckets.Keys - gone| + |gone|;
      assert gone == {};
      MinusNothing(l.order);
    }
  }

  lemma RefilledWithin(c: Config, b: Bucket, now: real)
    requires Sound(c) && 0.0 <= b.tokens <= c.capacity
    ensures 0.0 <= Refilled(c, b, now).tokens <= c.capacity && Refilled(c, b, now).lastRefill == now
    ensures Refilled(c, b, now).tokens <= b.tokens + Accrued(c, StepFrom(b, now))
  {
    hide Refilled, Accrued;
    RefilledIs(c, b, now);
    AccruedSign(c, StepFrom(b, now));
  }

  lemma NothingAccrues(c: Config)
    ensures Accrued(c, 0.0) == 0.0
  {
  }

  lemma OwnCheck(c: Config, l: Limiter, actor: ActorId, now: real)
    requires Sound(c) && 0.0 <= LevelOf(c, l, actor) <= c.capacity && Undisturbed(c, l, actor, Check(actor, now))
    ensures var e, l' := Check(actor, now), Checked(c, l, actor, now).0;
      && LastOf(l', actor) == Some(now)
      && 0.0 <= LevelOf(c, l', actor) <= c.capacity
      && LevelOf(c, l', actor) + WonBy(c, l, actor, e) as real
        <= LevelOf(c, l, actor) + Accrued(c, StepOf(l, actor, e))
  {
    hide Refilled, Accrued, StepFrom;
    NothingAccrues(c);
    var s := Swept(c, l, now);
    assert actor in s.buckets <==> actor in l.buckets;
    var b := BucketAt(c, s.buckets, actor, now);
    if actor in l.buckets {
      RefilledWithin(c, l.buckets[actor], now);
      assert b == Refilled(c, l.buckets[actor], now);
      assert StepOf(l, actor, Check(actor, now)) == StepFrom(l.buckets[actor], now);
    } else {
      assert StepOf(l, actor, Check(actor, now)) == 0.0;
    }
  }

  /** One event, at whatever time: the level plus what is granted never exceeds the old level plus what accrued. */
  lemma StepUnderAnyClock(c: Config, l: Limiter, actor: ActorId, e: Event)
    requires Sound(c) && Valid(c, l) && 0.0 <= LevelOf(c, l, actor) <= c.capacity
    requires e != Release(actor) && Undisturbed(c, l, actor, e)
    ensures var l' := Next(c, l, e);
      && Valid(c, l')
      && LastOf(l', actor) == (if e.Check? && e.actor == actor then Some(e.now) else LastOf(l, actor))
      && 0.0 <= LevelOf(c, l', actor) <= c.capacity
      && LevelOf(c, l', actor) + WonBy(c, l, actor, e) as real
        <= LevelOf(c, l, actor) + Accrued(c, StepOf(l, actor, e))
  {
    hide Checked, Undisturbed, Valid, Accrued, StepFrom;
    NothingAccrues(c);
    NextValid(c, l, e);
    if e.Check? && e.actor == actor {
      OwnCheck(c, l, actor, e.now);
    } else if e.Check? {
      KeptThroughCheck(c, l, actor, e.actor, e.now);
    }
  }

  lemma NextValid(c: Config, l: Limiter, e: Event)
    requires Valid(c, l)
    ensures Valid(c, Next(c, l, e))
  {
    match e {
      case Check(actor, now) =>
        SweptValid(c, l, now);
        TouchedValid(c, Swept(c, l, now), actor, Spent(BucketAt(c, Swept(c, l, now).buckets, actor, now)));
      case Release(actor) =>
        OrdersWithout(l.order, l.buckets, actor);
        SubsetSize((l.buckets - {actor}).Keys, l.buckets.Keys);
    }
  }

  lemma GrantedStep(c: Config, l: Limiter, actor: ActorId, events: seq<Event>)
    requires events != []
    ensures Granted(actor, events, Answers(c, l, events))
      == WonBy(c, l, actor, events[0]) + Granted(actor, events[1..], Answers(c, Next(c, l, events[0]), events[1..]))
    ensures Forward(actor, events, LastOf(l, actor)) == StepOf(l, actor, events[0])
      + Forward(actor, events[1..], if events[0].Check? && events[0].actor == actor then Some(events[0].now)
          else LastOf(l, actor))
  {
    hide Checked;
    var rest := Answers(c, Next(c, l, events[0]), events[1..]);
    if events[0].Check? {
      assert Answers(c, l, events)[1..] == rest;
    } else {
      assert Answers(c, l, events) == rest;
    }
  }

  lemma Distributes(c: Config, a: real, b: real)
    ensures Accrued(c, a + b) == Accrued(c, a) + Accrued(c, b)
  {
  }

  /**
   * Whatever the clock does, while its bucket is kept an actor wins no more than the bucket held and what accrued
   * over the forward steps of the clock between its own checks.
   */
  lemma {:induction false} GrantsUnderAnyClock(c: Config, l: Limiter, actor: ActorId, events: seq<Event>)
    requires Sound(c) && Valid(c, l) && 0.0 <= LevelOf(c, l, actor) <= c.capacity
    requires Release(actor) !in events && NeverDisturbed(c, l, actor, events)
    ensures Granted(actor, events, Answers(c, l, events)) as real
      <= LevelOf(c, l, actor) + Accrued(c, Forward(actor, events, LastOf(l, actor)))
    decreases events
  {
    hide Checked, Undisturbed, Forward, Answers, Granted, Valid, Accrued, StepOf;
    if events == [] {
      NothingHappens(c, l, actor);
    } else {
      var e, l' := events[0], Next(c, l, events[0]);
      assert e in events && Release(actor) !in events[1..];
      StepUnderAnyClock(c, l, actor, e);
      GrantsUnderAnyClock(c, l', actor, events[1..]);
      GrantedStep(c, l, actor, events);
      Distributes(c, StepOf(l, actor, e), Forward(actor, events[1..], LastOf(l', actor)));
    }
  }

  lemma NothingHappens(c: Config, l: Limiter, actor: ActorId)
    ensures Granted(actor, [], Answers(c, l, [])) == 0
    ensures Accrued(c, Forward(actor, [], LastOf(l, actor))) == 0.0
  {
  }

  // ----- from the start -----

  ghost predicate WithinRange(c: Config, l: Limiter) {
    forall a | a in l.buckets :: 0.0 <= l.buckets[a].tokens <= c.capacity
  }

  /** No bucket ever holds less than nothing or more than the capacity, whatever the clock does. */
  lemma {:induction false} RunWithinRange(c: Config, l: Limiter, events: seq<Event>)
    requires Sound(c) && Valid(c, l) && WithinRange(c, l)
    ensures Valid(c, After(c, l, events)) && WithinRange(c, After(c, l, events))
    decreases events
  {
    if events != [] {
      NextValid(c, l, events[0]);
      NextWithinRange(c, l, events[0]);
      RunWithinRange(c, Next(c, l, events[0]), events[1..]);
    }
  }

  lemma NextWithinRange(c: Config, l: Limiter, e: Event)
    requires Sound(c) && WithinRange(c, l)
    ensures WithinRange(c, Next(c, l, e))
  {
    hide Refilled;
    if e.Check? {
      var s := Swept(c, l, e.now);
      if e.actor in s.buckets {
        RefilledWithin(c, s.buckets[e.actor], e.now);
      }
      assert 0.0 <= BucketAt(c, s.buckets, e.actor, e.now).tokens <= c.capacity;
    }
  }

  lemma LevelWithin(c: Config, l: Limiter, actor: ActorId)
    requires Sound(c) && WithinRange(c, l)
    ensures 0.0 <= LevelOf(c, l, actor) <= c.capacity
  {
  }

  lemma NothingHeld(c: Config)
    ensures Valid(c, EMPTY) && WithinRange(c, EMPTY)
  {
  }

  /** From the start of a run: the capacity at once, and then what accrues over forward steps. */
  lemma GrantsFromStart(c: Config, actor: ActorId, before: seq<Event>, window: seq<Event>)
    requires Sound(c) && Release(actor) !in window && NeverDisturbed(c, After(c, EMPTY, before), actor, window)
    ensures var l := After(c, EMPTY, before);
      Granted(actor, window, Answers(c, l, window)) as real
        <= c.capacity + Forward(actor, window, LastOf(l, actor)) * c.refillPerMs
  {
    hide After, Forward, Answers, Granted, Valid, NeverDisturbed, LevelOf, WithinRange;
    NothingHeld(c);
    RunWithinRange(c, EMPTY, before);
    LevelWithin(c, After(c, EMPTY, before), actor);
    GrantsUnderAnyClock(c, After(c, EMPTY, before), actor, window);
  }
}
