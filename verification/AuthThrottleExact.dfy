/** When the throttle keeps the promise of so many failures per window, and when making room shows. */
module AuthThrottleExact {
  import opened Ordered
  import opened Strangers
  import opened Prelude
  import opened AuthThrottling
  import opened AuthThrottleLaws

  /** A window shorter than `windowMs` of a run in which the clock never runs backwards and nothing is evicted. */
  ghost predicate ShortWindow(c: Config, before: seq<Request>, window: seq<Request>, origin: real, start: real)
    requires c.windowMs != 0.0
  {
    && Monotone(before, origin) && NeverFull(c, EMPTY, before + window)
    && EndTime(before, origin) <= start && Monotone(window, start)
    && EndTime(window, start) - start < c.windowMs
  }

  /** No address has more than `limit` bad keys examined in any such window. */
  ghost predicate LimitPerWindow(c: Config)
    requires c.windowMs != 0.0
  {
    forall ip: Ip, before, window, origin, start :: ShortWindow(c, before, window, origin, start) ==>
      Guesses(ip, window, Examined(c, After(c, EMPTY, before), window)) as real <= c.limit
  }

  /** What accrues within the window is examined too, so the promise holds for limits of one or less only. */
  lemma LimitPerWindowExactly(c: Config)
    requires Sound(c)
    ensures LimitPerWindow(c) <==> c.limit <= 1.0
  {
    if c.limit <= 1.0 {
      forall ip: Ip, before, window, origin, start | ShortWindow(c, before, window, origin, start)
        ensures Guesses(ip, window, Examined(c, After(c, EMPTY, before), window)) as real <= c.limit
      {
        FewGuesses(c, ip, before, window, origin, start);
      }
    } else {
      var run := GuessesExceedLimit(c, LONE);
      assert [] + run == run && After(c, EMPTY, []) == EMPTY;
      assert ShortWindow(c, [], run, 0.0, 0.0);
    }
  }

  lemma FewGuesses(c: Config, ip: Ip, before: seq<Request>, window: seq<Request>, origin: real, start: real)
    requires Sound(c) && c.limit <= 1.0 && ShortWindow(c, before, window, origin, start)
    ensures Guesses(ip, window, Examined(c, After(c, EMPTY, before), window)) as real <= c.limit
  {
    hide Guesses, Examined, After, NeverFull, Monotone, EndTime, Gain;
    if c.limit == 1.0 {
      GuessesInWindow(c, ip, before, window, origin, start);
      GainWithin(c, EndTime(window, start) - start);
    } else {
      LowAfter(c, EMPTY, before);
      NothingExamined(c, ip, After(c, EMPTY, before), window);
    }
  }

  lemma GainWithin(c: Config, elapsed: real)
    requires Sound(c) && elapsed < c.windowMs
    ensures Gain(c, elapsed) < c.limit
  {
    GainSplits(c, elapsed, c.windowMs - elapsed);
    PartIsPositive((c.windowMs - elapsed) / c.windowMs, c.limit);
  }

  // ----- on a clock of whole milliseconds -----

  ghost predicate OnTicks(run: seq<Request>) {
    forall r | r in run :: IsWhole(r.now)
  }

  /** As `LimitPerWindow`, for windows and runs timed by a clock of whole milliseconds. */
  ghost predicate LimitPerWindowOnTicks(c: Config)
    requires c.windowMs != 0.0
  {
    forall ip: Ip, before, window, origin, start ::
      ShortWindow(c, before, window, origin, start) && OnTicks(before + window) && IsWhole(start) ==>
        Guesses(ip, window, Examined(c, After(c, EMPTY, before), window)) as real <= c.limit
  }

  /** The last whole millisecond of a window. */
  function LastTick(c: Config): real {
    if IsWhole(c.windowMs) then c.windowMs - 1.0 else c.windowMs.Floor as real
  }

  /** What the whole tokens leave of a full bucket. */
  function Left(c: Config): real {
    c.limit - c.limit.Floor as real
  }

  /** The promise holds exactly if by the last tick of a window too little accrues for one more guess. */
  lemma LimitPerWindowOnTicksExactly(c: Config)
    requires Sound(c)
    ensures LimitPerWindowOnTicks(c) <==> c.limit < 1.0 || Left(c) + Gain(c, LastTick(c)) < 1.0
  {
    hide ShortWindow, Guesses, Examined, After, Gain, Left, LastTick;
    if c.limit < 1.0 {
      LimitPerWindowExactly(c);
    } else if Left(c) + Gain(c, LastTick(c)) < 1.0 {
      forall ip: Ip, before, window, origin, start
        | ShortWindow(c, before, window, origin, start) && OnTicks(before + window) && IsWhole(start)
        ensures Guesses(ip, window, Examined(c, After(c, EMPTY, before), window)) as real <= c.limit
      {
        FewGuessesOnTicks(c, ip, before, window, origin, start);
      }
    } else {
      MoreByLastTick(c);
    }
  }

  lemma {:induction false} EndsOnTick(run: seq<Request>, t: real)
    requires OnTicks(run) && IsWhole(t) && Monotone(run, t)
    ensures IsWhole(EndTime(run, t)) && t <= EndTime(run, t)
  {
    if run != [] {
      assert run[0] in run;
      EndsOnTick(run[1..], run[0].now);
    }
  }

  lemma FewGuessesOnTicks(c: Config, ip: Ip, before: seq<Request>, window: seq<Request>, origin: real, start: real)
    requires Sound(c) && Left(c) + Gain(c, LastTick(c)) < 1.0 && ShortWindow(c, before, window, origin, start)
    requires OnTicks(before + window) && IsWhole(start)
    ensures Guesses(ip, window, Examined(c, After(c, EMPTY, before), window)) as real <= c.limit
  {
    hide Guesses, Examined, After, NeverFull, Monotone, EndTime, Gain, IsWhole, OnTicks, LastTick;
    var elapsed := EndTime(window, start) - start;
    LaterOnTicks(before, window);
    EndsOnTick(window, start);
    WithinLastTick(c, start, EndTime(window, start));
    GuessesInWindow(c, ip, before, window, origin, start);
    GainGrows(c, elapsed, LastTick(c));
    WholeGuesses(c.limit, Guesses(ip, window, Examined(c, After(c, EMPTY, before), window)), Gain(c, LastTick(c)));
  }

  lemma GainGrows(c: Config, a: real, b: real)
    requires Sound(c) && a <= b
    ensures Gain(c, a) <= Gain(c, b)
  {
    GainSplits(c, a, b - a);
    if a < b {
      PartIsPositive((b - a) / c.windowMs, c.limit);
    }
  }

  lemma WholeGuesses(limit: real, n: nat, gain: real)
    requires n as real <= limit + gain && limit - limit.Floor as real + gain < 1.0
    ensures n as real <= limit
  {
    assert n as real < (limit.Floor + 1) as real;
    assert n <= limit.Floor;
  }

  lemma LaterOnTicks(a: seq<Request>, b: seq<Request>)
    requires OnTicks(a + b)
    ensures OnTicks(b)
  {
    forall r | r in b
      ensures IsWhole(r.now)
    {
      assert r in a + b;
    }
  }

  lemma WithinLastTick(c: Config, a: real, b: real)
    requires IsWhole(a) && IsWhole(b) && b - a < c.windowMs
    ensures b - a <= LastTick(c)
  {
    WholeGap(a.Floor, b.Floor, c.windowMs);
  }

  lemma WholeGap(m: int, n: int, w: real)
    requires n as real - m as real < w
    ensures n as real - m as real <= w.Floor as real
    ensures w.Floor as real == w ==> n as real - m as real <= w - 1.0
  {
    assert (n - m) as real == n as real - m as real;
    assert n - m <= w.Floor;
  }

  /** The limit at once, and one more guess on the last tick of the window. */
  lemma MoreByLastTick(c: Config)
    requires Sound(c) && c.limit >= 1.0 && Left(c) + Gain(c, LastTick(c)) >= 1.0
    ensures !LimitPerWindowOnTicks(c)
  {
    var n, last := c.limit.Floor, LastTick(c);
    var run := Burst(LONE, n, Request(LONE, last, true));
    LastTickIs(c);
    MoreGuesses(c, n, last);
    BurstOnTicks(n, last);
    assert [] + run == run && After(c, EMPTY, []) == EMPTY;
    assert ShortWindow(c, [], run, 0.0, 0.0);
  }

  lemma MoreGuesses(c: Config, n: nat, last: real)
    requires Sound(c) && last > 0.0 && n == c.limit.Floor > 0 && Left(c) + Gain(c, last) >= 1.0
    ensures var run := Burst(LONE, n, Request(LONE, last, true));
      && Monotone(run, 0.0) && EndTime(run, 0.0) == last && NeverFull(c, EMPTY, run)
      && Guesses(LONE, run, Examined(c, EMPTY, run)) == n + 1
  {
    var run := Burst(LONE, n, Request(LONE, last, true));
    AuthThrottleLaws.FirstBurst(c, LONE, n, last);
    BurstIsMonotone(LONE, n, last);
    OneAddressFits(c, EMPTY, LONE, run);
    PruningIsInvisible(c, EMPTY, map[], run, 0.0);
  }

  lemma LastTickIs(c: Config)
    requires Sound(c) && Left(c) + Gain(c, LastTick(c)) >= 1.0
    ensures 0.0 < LastTick(c) < c.windowMs && IsWhole(LastTick(c))
  {
    var last := LastTick(c);
    LastTickWhole(c);
    if last == 0.0 {
      GainSplits(c, 0.0, 0.0);
    }
  }

  lemma LastTickWhole(c: Config)
    requires c.windowMs > 0.0
    ensures 0.0 <= LastTick(c) < c.windowMs && IsWhole(LastTick(c))
  {
    var m := c.windowMs.Floor;
    if IsWhole(c.windowMs) {
      assert (m - 1) as real == LastTick(c);
    } else {
      assert m as real == LastTick(c);
    }
  }

  lemma {:induction false} BurstOnTicks(n: nat, last: real)
    requires IsWhole(last)
    ensures OnTicks(Burst(LONE, n, Request(LONE, last, true)))
  {
    if n > 0 {
      BurstOnTicks(n - 1, last);
    }
  }

  // ----- a limit below one token -----

  ghost predicate Low(c: Config, m: Buckets) {
    forall a | a in m :: m[a].tokens <= c.limit
  }

  lemma ServedLow(c: Config, t: Throttle, r: Request)
    requires Sound(c) && c.limit < 1.0 && Low(c, t.buckets)
    ensures Low(c, Serve(c, t, r).0.buckets) && !Serve(c, t, r).1
  {
  }

  lemma {:induction false} LowAfter(c: Config, t: Throttle, run: seq<Request>)
    requires Sound(c) && c.limit < 1.0 && Low(c, t.buckets)
    ensures Low(c, After(c, t, run).buckets)
    decreases run
  {
    if run != [] {
      ServedLow(c, t, run[0]);
      LowAfter(c, Serve(c, t, run[0]).0, run[1..]);
    }
  }

  lemma {:induction false} NothingExamined(c: Config, ip: Ip, t: Throttle, run: seq<Request>)
    requires Sound(c) && c.limit < 1.0 && Low(c, t.buckets)
    ensures Guesses(ip, run, Examined(c, t, run)) == 0
    decreases run
  {
    if run != [] {
      ServedLow(c, t, run[0]);
      assert Examined(c, t, run)[1..] == Examined(c, Serve(c, t, run[0]).0, run[1..]);
      NothingExamined(c, ip, Serve(c, t, run[0]).0, run[1..]);
    }
  }

  lemma {:induction false} AllBlocked(c: Config, t: Throttle, u: Buckets, run: seq<Request>)
    requires Sound(c) && c.limit < 1.0 && Low(c, t.buckets) && Low(c, u)
    ensures Examined(c, t, run) == ExaminedForever(c, u, run)
    decreases run
  {
    if run != [] {
      ServedLow(c, t, run[0]);
      AllBlocked(c, Serve(c, t, run[0]).0, ServeForever(c, u, run[0]).0, run[1..]);
    }
  }

  // ----- the hard cap -----

  /** No monotone run at all can tell the throttle from the one that never forgets. */
  ghost predicate TransparentWithCap(c: Config)
    requires c.windowMs != 0.0
  {
    forall run: seq<Request> :: Monotone(run, 0.0) ==> Examined(c, EMPTY, run) == ExaminedForever(c, map[], run)
  }

  /** Making room never goes unnoticed, unless no bucket ever holds a token. */
  lemma CapTransparentExactly(c: Config)
    requires Sound(c)
    ensures TransparentWithCap(c) <==> c.limit < 1.0
  {
    if c.limit < 1.0 {
      forall run: seq<Request> | Monotone(run, 0.0)
        ensures Examined(c, EMPTY, run) == ExaminedForever(c, map[], run)
      {
        AllBlocked(c, EMPTY, map[], run);
      }
    } else {
      CapEvictionShows(c);
    }
  }

  const LONE: Ip := "a"

  const GUESS: Request := Request(LONE, 0.0, true)

  /** The one address with so many tokens left, at time zero. */
  function Lone(tokens: real): Throttle {
    Throttle([LONE], map[LONE := Bucket(tokens, 0.0)], Some(0.0))
  }

  function Guessing(n: nat): seq<Request> {
    if n == 0 then [] else [GUESS] + Guessing(n - 1)
  }

  function Crowd(from: nat, limit: nat): seq<Request>
    decreases limit - from
  {
    if from >= limit then [] else [Request(Name(from), 0.0, false)] + Crowd(from + 1, limit)
  }

  /** Use up the tokens, let as many strangers in as there is room for, and guess again. */
  function Return(c: Config): seq<Request>
    requires c.limit >= 1.0
  {
    Guessing(c.limit.Floor) + Crowd(0, c.maxBuckets) + [GUESS]
  }

  lemma OneGuess(c: Config, x: real)
    requires Sound(c) && x >= 1.0
    ensures Serve(c, Lone(x), GUESS) == (Lone(x - 1.0), true)
  {
    assert Serve(c, Lone(x), GUESS).0.buckets == map[LONE := Bucket(x - 1.0, 0.0)];
  }

  lemma FirstGuess(c: Config)
    requires Sound(c) && c.limit >= 1.0
    ensures Serve(c, EMPTY, GUESS) == (Lone(c.limit - 1.0), true)
  {
    var asked := Asked(c, EMPTY, LONE, 0.0).0;
    assert Minus<Ip>([], {}) == [];
    assert Full(c, map[], 0.0) == {};
    assert [] + [LONE] == [LONE];
    assert asked == Lone(c.limit);
    assert Failed(c, asked, LONE, 0.0).buckets == map[LONE := Bucket(c.limit - 1.0, 0.0)];
  }

  lemma OneMore(c: Config, t: Throttle, t': Throttle, rest: seq<Request>)
    requires c.windowMs != 0.0 && Serve(c, t, GUESS) == (t', true)
    ensures After(c, t, [GUESS] + rest) == After(c, t', rest)
    ensures Guesses(LONE, [GUESS] + rest, Examined(c, t, [GUESS] + rest))
      == 1 + Guesses(LONE, rest, Examined(c, t', rest))
  {
    var run := [GUESS] + rest;
    assert run[1..] == rest && run[0] == GUESS;
    assert Examined(c, t, run)[1..] == Examined(c, t', rest);
  }

  lemma {:induction false} GuessingSpends(c: Config, n: nat, x: real)
    requires Sound(c) && x >= n as real
    ensures After(c, Lone(x), Guessing(n)) == Lone(x - n as real)
    ensures Guesses(LONE, Guessing(n), Examined(c, Lone(x), Guessing(n))) == n
    decreases n
  {
    hide Serve;
    if n > 0 {
      OneGuess(c, x);
      OneMore(c, Lone(x), Lone(x - 1.0), Guessing(n - 1));
      GuessingSpends(c, n - 1, x - 1.0);
    }
  }

  lemma Drained(c: Config)
    requires Sound(c) && c.limit >= 1.0
    ensures var n := c.limit.Floor;
      && After(c, EMPTY, Guessing(n)) == Lone(c.limit - n as real)
      && Guesses(LONE, Guessing(n), Examined(c, EMPTY, Guessing(n))) == n
  {
    hide Serve, Guesses, Examined, After;
    var n: nat := c.limit.Floor;
    FirstGuess(c);
    OneMore(c, EMPTY, Lone(c.limit - 1.0), Guessing(n - 1));
    GuessingSpends(c, n - 1, c.limit - 1.0);
    assert Guessing(n) == [GUESS] + Guessing(n - 1);
    assert c.limit - 1.0 - (n - 1) as real == c.limit - n as real;
  }

  /** The addresses so far, all of them touched at time zero. */
  ghost predicate Crowded(t: Throttle, j: nat) {
    && t.order == [LONE] + Names(j) && Orders(t.order, t.buckets) && t.lastPruneAt == Some(0.0)
    && forall a | a in t.buckets :: t.buckets[a].last == 0.0
  }

  lemma LoneCrowded(tokens: real)
    ensures Crowded(Lone(tokens), 0)
  {
    OrdersAppend<Ip, Bucket>([], map[], LONE, Bucket(tokens, 0.0));
    assert [] + [LONE] == [LONE] == [LONE] + Names(0);
  }

  lemma FirstIsOldest(order: seq<Ip>, m: Buckets)
    requires order != [] && KeySet(order) <= m.Keys && forall a | a in m :: m[a].last == 0.0
    ensures Oldest(order, m, None) == Some(Candidate(order[0], 0.0))
  {
    OldestIsFirstSmallest(order[1..], m, Some(Candidate(order[0], 0.0)));
  }

  lemma StrangerServed(c: Config, t: Throttle, j: nat)
    requires Sound(c) && Crowded(t, j) && j < c.maxBuckets
    ensures var t' := Serve(c, t, Request(Name(j), 0.0, false)).0;
      && (j + 1 < c.maxBuckets ==> Crowded(t', j + 1))
      && (j + 1 == c.maxBuckets ==> LONE !in t'.buckets && t'.lastPruneAt == Some(0.0))
  {
    StrangerIsNew(t.order, t.buckets, j);
    var b := Bucket(c.limit, 0.0);
    var order, m := t.order + [Name(j)], t.buckets[Name(j) := b];
    OrdersAppend(t.order, t.buckets, Name(j), b);
    OrderSize(order, m);
    assert order == [LONE] + Names(j + 1);
    FirstIsOldest(order, m);
  }

  lemma StrangerIsNew(order: seq<Ip>, m: Buckets, j: nat)
    requires order == [LONE] + Names(j) && Orders(order, m)
    ensures Name(j) !in m && |m| == |order| == j + 1 && LONE in m && LONE != Name(j)
  {
    KeySetSplits([LONE], Names(j));
    if Name(j) in m {
      NamesAreLong(j, Name(j));
    }
    NamesCount(j);
    OrderSize(order, m);
  }

  lemma {:induction false} PushedOut(c: Config, t: Throttle, j: nat)
    requires Sound(c) && Crowded(t, j) && j < c.maxBuckets
    ensures var t' := After(c, t, Crowd(j, c.maxBuckets)); LONE !in t'.buckets && t'.lastPruneAt == Some(0.0)
    decreases c.maxBuckets - j
  {
    var crowd := Crowd(j, c.maxBuckets);
    StrangerServed(c, t, j);
    assert crowd[1..] == Crowd(j + 1, c.maxBuckets);
    if j + 1 < c.maxBuckets {
      PushedOut(c, Serve(c, t, crowd[0]).0, j + 1);
    }
  }

  ghost predicate AtOnce(run: seq<Request>) {
    run == [] || (run[0].now == 0.0 && AtOnce(run[1..]))
  }

  lemma {:induction false} AtOnceIs(run: seq<Request>)
    requires AtOnce(run)
    ensures Monotone(run, 0.0) && EndTime(run, 0.0) == 0.0
  {
    if run != [] {
      AtOnceIs(run[1..]);
    }
  }

  lemma {:induction false} AtOnceJoined(a: seq<Request>, b: seq<Request>)
    requires AtOnce(a) && AtOnce(b)
    ensures AtOnce(a + b)
  {
    if a == [] {
      assert a + b == b;
    } else {
      assert (a + b)[1..] == a[1..] + b;
      AtOnceJoined(a[1..], b);
    }
  }

  lemma {:induction false} GuessingAtOnce(n: nat)
    ensures AtOnce(Guessing(n))
  {
    if n > 0 {
      assert Guessing(n)[1..] == Guessing(n - 1);
      GuessingAtOnce(n - 1);
    }
  }

  lemma {:induction false} CrowdAtOnce(from: nat, limit: nat)
    ensures AtOnce(Crowd(from, limit))
    decreases limit - from
  {
    if from < limit {
      assert Crowd(from, limit)[1..] == Crowd(from + 1, limit);
      CrowdAtOnce(from + 1, limit);
    }
  }

  lemma {:induction false} GuessesAdd(c: Config, t: Throttle, a: seq<Request>, b: seq<Request>)
    requires c.windowMs != 0.0
    ensures After(c, t, a + b) == After(c, After(c, t, a), b)
    ensures Guesses(LONE, a + b, Examined(c, t, a + b))
         == Guesses(LONE, a, Examined(c, t, a)) + Guesses(LONE, b, Examined(c, After(c, t, a), b))
    decreases a
  {
    if a == [] {
      assert a + b == b;
    } else {
      assert (a + b)[1..] == a[1..] + b && (a + b)[0] == a[0];
      var t' := Serve(c, t, a[0]).0;
      assert Examined(c, t, a)[1..] == Examined(c, t', a[1..]);
      assert Examined(c, t, a + b)[1..] == Examined(c, t', a[1..] + b);
      GuessesAdd(c, t', a[1..], b);
    }
  }

  /** An address that was pushed out starts over. */
  lemma BackAgain(c: Config, t: Throttle)
    requires Sound(c) && c.limit >= 1.0 && LONE !in t.buckets && t.lastPruneAt == Some(0.0)
    ensures Guesses(LONE, [GUESS], Examined(c, t, [GUESS])) == 1
  {
    assert [GUESS][1..] == [] && Serve(c, t, GUESS).1;
    assert Examined(c, t, [GUESS])[1..] == [];
  }

  lemma ReturnAtOnce(c: Config)
    requires c.limit >= 1.0
    ensures Monotone(Return(c), 0.0) && EndTime(Return(c), 0.0) == 0.0
  {
    var guessing, crowd := Guessing(c.limit.Floor), Crowd(0, c.maxBuckets);
    GuessingAtOnce(c.limit.Floor);
    CrowdAtOnce(0, c.maxBuckets);
    AtOnceJoined(guessing, crowd);
    assert [GUESS][1..] == [];
    AtOnceJoined(guessing + crowd, [GUESS]);
    AtOnceIs(Return(c));
  }

  lemma ReturnGuesses(c: Config)
    requires Sound(c) && c.limit >= 1.0
    ensures Guesses(LONE, Return(c), Examined(c, EMPTY, Return(c))) >= c.limit.Floor + 1
  {
    hide Guesses, Examined, Crowded, After, Gain;
    var n := c.limit.Floor;
    var guessing, crowd := Guessing(n), Crowd(0, c.maxBuckets);
    var t := Lone(c.limit - n as real);
    Drained(c);
    LoneCrowded(c.limit - n as real);
    PushedOut(c, t, 0);
    BackAgain(c, After(c, t, crowd));
    GuessesAdd(c, EMPTY, guessing, crowd);
    GuessesAdd(c, EMPTY, guessing + crowd, [GUESS]);
  }

  /** With any number of buckets, enough strangers push out a blocked address, which may guess again at once. */
  lemma CapEvictionShows(c: Config)
    requires Sound(c) && c.limit >= 1.0
    ensures Monotone(Return(c), 0.0)
    ensures Guesses(LONE, Return(c), Examined(c, EMPTY, Return(c))) as real > c.limit
    ensures Examined(c, EMPTY, Return(c)) != ExaminedForever(c, map[], Return(c))
  {
    hide Guesses, Examined, ExaminedForever, Return, Gain;
    ReturnAtOnce(c);
    ReturnGuesses(c);
    GuessesForever(c, map[], LONE, Return(c), 0.0);
    GainSplits(c, 0.0, 0.0);
  }
}
