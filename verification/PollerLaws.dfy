/** Whole runs of the poll scheduler, against counts taken from the history alone. */
module PollerLaws {
  import opened Prelude
  import opened FleetTypes
  import opened Polling

  /** An agent joins, a reply arrives, a timer fires, an instance is torn down. */
  datatype Event = Join(i: InstanceId) | Reply(i: InstanceId, reqId: nat) | Tick(i: InstanceId) | Leave(i: InstanceId)

  datatype History = Begin | Then(past: History, last: Event)

  /** What an event does; eviction tears the instance down at once. */
  function Step(p: Polls, e: Event): (Polls, Effect) {
    match e
    case Join(i) => Started(p, i)
    case Reply(i, reqId) => (Replied(p, i, reqId).0, Quiet)
    case Leave(i) => (Forgotten(p, i), Quiet)
    case Tick(i) =>
      var (q, effect) := Ticked(p, i);
      (if effect == OnEvict then Forgotten(q, i) else q, effect)
  }

  function State(h: History): Polls {
    if h.Begin? then NO_POLLS else Step(State(h.past), h.last).0
  }

  /** What the last event of a history caused. */
  function Caused(h: History): Effect
    requires h.Then?
  {
    Step(State(h.past), h.last).1
  }

  /** The last event was an accepted reply. */
  predicate Accepted(h: History)
    requires h.Then?
  {
    h.last.Reply? && Replied(State(h.past), h.last.i, h.last.reqId).1
  }

  // ----- counted from the history -----

  /** The instance is connected: joined, and neither left nor evicted since. */
  predicate Connected(h: History, i: InstanceId) {
    h.Then? &&
    if h.last.i != i then Connected(h.past, i)
    else if h.last.Join? then true
    else if h.last.Leave? || Caused(h) == OnEvict then false
    else Connected(h.past, i)
  }

  /** Polls sent to an instance since it joined. */
  function PollsSent(h: History, i: InstanceId): nat {
    if h.Begin? then 0
    else if h.last.i != i then PollsSent(h.past, i)
    else if h.last.Join? then 1
    else PollsSent(h.past, i) + if Caused(h).SendPoll? then 1 else 0
  }

  /** The poll an instance still owes an answer to, with the ticks that have passed since it was sent. */
  function Owed(h: History, i: InstanceId): Option<(nat, nat)> {
    if h.Begin? then None
    else if h.last.i != i then Owed(h.past, i)
    else if Caused(h).SendPoll? then Some((Caused(h).reqId, 0))
    else if h.last.Leave? || Accepted(h) || Caused(h) == OnEvict then None
    else match Owed(h.past, i)
      case None => None
      case Some((reqId, ticks)) => Some((reqId, ticks + if h.last.Tick? then 1 else 0))
  }

  /** An event concerns the entry of its own instance only. */
  lemma StepElsewhere(p: Polls, e: Event, i: InstanceId)
    requires e.i != i
    ensures i in Step(p, e).0.entries <==> i in p.entries
    ensures i in p.entries ==> Step(p, e).0.entries[i] == p.entries[i]
  {
  }

  /** The entry of an instance is what its history says, and its timer runs. */
  lemma {:induction false} EntryFollowsHistory(h: History, i: InstanceId)
    ensures i in State(h).entries <==> Connected(h, i)
    ensures !Connected(h, i) ==> Owed(h, i) == None
    ensures Connected(h, i) ==>
      var e := State(h).entries[i];
      && e.armed && e.pollCount == PollsSent(h, i)
      && match Owed(h, i)
         case None => e.outstanding == None && e.missed == 0
         case Some((reqId, ticks)) => e.outstanding == Some(reqId) && e.missed == ticks <= 2
    decreases h
  {
    if h.Then? {
      EntryFollowsHistory(h.past, i);
      if h.last.i != i {
        StepElsewhere(State(h.past), h.last, i);
        hide Step;
      }
    }
  }

  /** A tick of a connected instance: a new poll, a miss, stale at the second and eviction at the third. */
  lemma TickDecides(h: History, i: InstanceId)
    requires Connected(h, i)
    ensures var effect := Caused(Then(h, Tick(i)));
      match Owed(h, i)
      case None => effect == SendPoll(State(h).reqSeq + 1, PollsSent(h, i) % 12 == 0)
      case Some((_, ticks)) =>
        && ticks <= 2
        && (effect == OnStale <==> ticks == 1)
        && (effect == OnEvict <==> ticks == 2)
        && !effect.SendPoll?
  {
    EntryFollowsHistory(h, i);
  }

  /** Stale and eviction come from ticks alone, and only from unanswered ones. */
  lemma OnlyTicksAlarm(h: History)
    requires h.Then? && (Caused(h) == OnStale || Caused(h) == OnEvict)
    ensures h.last.Tick? && Connected(h.past, h.last.i) && Owed(h.past, h.last.i).Some?
    ensures Owed(h.past, h.last.i).value.1 == if Caused(h) == OnStale then 1 else 2
  {
    EntryFollowsHistory(h.past, h.last.i);
    if h.last.Tick? && Connected(h.past, h.last.i) {
      TickDecides(h.past, h.last.i);
    }
  }

  /** Whatever was missed before, an accepted reply starts over: the next tick polls again. */
  lemma ReplyRecovers(h: History, i: InstanceId, reqId: nat)
    requires Accepted(Then(h, Reply(i, reqId)))
    ensures Connected(h, i) && Owed(h, i).Some? && Owed(h, i).value.0 == reqId
    ensures Caused(Then(Then(h, Reply(i, reqId)), Tick(i))).SendPoll?
    ensures State(Then(h, Reply(i, reqId))).entries[i].missed == 0
  {
    EntryFollowsHistory(h, i);
    EntryFollowsHistory(Then(h, Reply(i, reqId)), i);
    TickDecides(Then(h, Reply(i, reqId)), i);
  }

  // ----- request ids -----

  function TimesSent(h: History, reqId: nat): nat {
    if h.Begin? then 0
    else TimesSent(h.past, reqId) + if Caused(h).SendPoll? && Caused(h).reqId == reqId then 1 else 0
  }

  function TimesAccepted(h: History, reqId: nat): nat {
    if h.Begin? then 0
    else TimesAccepted(h.past, reqId) + if Accepted(h) && h.last.reqId == reqId then 1 else 0
  }

  /** Sent ids are numbered without gaps. */
  lemma {:induction false} SentOnce(h: History, reqId: nat)
    ensures TimesSent(h, reqId) == if 1 <= reqId <= State(h).reqSeq then 1 else 0
    decreases h
  {
    if h.Then? {
      SentOnce(h.past, reqId);
    }
  }

  /** No two instances await the same request, and an awaited one was sent and never accepted. */
  lemma {:induction false} AwaitedApart(h: History, i: InstanceId, j: InstanceId, reqId: nat)
    requires i in State(h).entries && State(h).entries[i].outstanding == Some(reqId)
    ensures 1 <= reqId <= State(h).reqSeq && TimesAccepted(h, reqId) == 0
    ensures j in State(h).entries && State(h).entries[j].outstanding == Some(reqId) ==> i == j
    decreases h
  {
    if h.Then? {
      var p := State(h.past);
      if i in p.entries && p.entries[i].outstanding == Some(reqId) {
        AwaitedApart(h.past, i, j, reqId);
        AwaitedApart(h.past, i, h.last.i, reqId);
      } else {
        AcceptedAtMostOnce(h.past, reqId);
        if j in p.entries && p.entries[j].outstanding == Some(reqId) {
          AwaitedApart(h.past, j, j, reqId);
        }
      }
    }
  }

  /** Each request is consumed at most once, and only after it was sent. */
  lemma {:induction false} AcceptedAtMostOnce(h: History, reqId: nat)
    ensures TimesAccepted(h, reqId) <= 1
    ensures TimesAccepted(h, reqId) <= TimesSent(h, reqId)
    ensures reqId > State(h).reqSeq ==> TimesAccepted(h, reqId) == 0
    decreases h
  {
    SentOnce(h, reqId);
    if h.Then? {
      AcceptedAtMostOnce(h.past, reqId);
      if Accepted(h) && h.last.reqId == reqId {
        AwaitedApart(h.past, h.last.i, h.last.i, reqId);
      }
    }
  }
}
