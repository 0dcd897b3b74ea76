/** Every command issued is either in flight on one instance or settled, once and for all. */
module CommandOutcomes {
  import opened FleetTypes
  import opened Reservations
  import opened Commands

  ghost predicate Pends(c: Commands, k: nat) {
    exists i :: k in FlightOf(c, i)
  }

  ghost predicate Accounted(c: Commands) {
    && OneFlight(c)
    && (forall k: nat :: k in c.settled || Pends(c, k) <==> 1 <= k <= c.cmdSeq)
    && (forall k: nat :: !(k in c.settled && Pends(c, k)))
  }

  /** What was settled stays settled, the same way. */
  ghost predicate Extends(c: Commands, c': Commands) {
    forall k | k in c.settled :: k in c'.settled && c'.settled[k] == c.settled[k]
  }

  lemma FlightsOf(c: Commands, c': Commands, i: InstanceId, flight: InFlight)
    requires c'.pending == c.pending[i := flight]
    ensures forall j :: FlightOf(c', j) == if j == i then flight else FlightOf(c, j)
  {
  }

  /** One command leaves the flight of its instance. */
  lemma SettledOnce(c: Commands, c': Commands, i: InstanceId, k: nat, outcome: Outcome)
    requires Accounted(c) && k in FlightOf(c, i)
    requires c' == Settle(c.(pending := c.pending[i := c.pending[i] - {k}]), k, outcome)
    ensures Accounted(c') && Extends(c, c') && k !in c.settled
  {
    FlightsOf(c, c', i, c.pending[i] - {k});
    assert Pends(c, k);
    forall j
      ensures Pends(c', j) <==> Pends(c, j) && j != k
    {
      if x :| j in FlightOf(c, x) && j != k {
        assert j in FlightOf(c', x);
      }
    }
  }

  lemma AckSettlesOnce(d: Desk, i: InstanceId, k: nat, ok: bool, already: bool)
    requires Accounted(d.commands)
    ensures var (d', matched) := Acked(d, i, k, ok, already);
      && Accounted(d'.commands) && Extends(d.commands, d'.commands)
      && (matched <==> k in FlightOf(d.commands, i))
      && (matched ==>
        k !in d.commands.settled && k in d'.commands.settled && (ok <==> d'.commands.settled[k] == Fulfilled))
      && (!matched ==> d' == d)
  {
    if k in FlightOf(d.commands, i) {
      SettledOnce(d.commands, Acked(d, i, k, ok, already).0.commands, i, k, if ok then Fulfilled else if already
        then RoomExists else Failed);
    }
  }

  lemma ExpirySettlesOnce(d: Desk, i: InstanceId, k: nat)
    requires Accounted(d.commands)
    ensures Accounted(Expired(d, i, k).commands) && Extends(d.commands, Expired(d, i, k).commands)
  {
    if k in FlightOf(d.commands, i) {
      SettledOnce(d.commands, Expired(d, i, k).commands, i, k, TimedOut);
    }
  }

  /** An ack that comes after the timeout changes nothing. */
  lemma LateAckIgnored(d: Desk, i: InstanceId, k: nat, ok: bool, already: bool)
    requires Accounted(d.commands) && k in FlightOf(d.commands, i)
    ensures Acked(Expired(d, i, k), i, k, ok, already) == (Expired(d, i, k), false)
  {
  }

  lemma PendsSame(c: Commands, c': Commands, i: InstanceId)
    requires c'.pending == c.pending[i := FlightOf(c, i)]
    ensures forall j: nat :: Pends(c', j) <==> Pends(c, j)
  {
    FlightsOf(c, c', i, FlightOf(c, i));
    forall j: nat
      ensures Pends(c', j) <==> Pends(c, j)
    {
      if x :| j in FlightOf(c, x) {
        assert j in FlightOf(c', x);
      }
    }
  }

  lemma PendsMore(c: Commands, c': Commands, i: InstanceId, k: nat, p: Pending)
    requires c'.pending == c.pending[i := FlightOf(c, i)[k := p]]
    ensures forall j: nat :: Pends(c', j) <==> Pends(c, j) || j == k
  {
    FlightsOf(c, c', i, FlightOf(c, i)[k := p]);
    assert k in FlightOf(c', i);
    forall j: nat
      ensures Pends(c', j) <==> Pends(c, j) || j == k
    {
      if x :| j in FlightOf(c, x) {
        assert j in FlightOf(c', x);
      }
    }
  }

  lemma NextIsFree(c: Commands, i: InstanceId)
    requires Accounted(c)
    ensures !Pends(c, c.cmdSeq + 1) && c.cmdSeq + 1 !in c.settled && c.cmdSeq + 1 !in FlightOf(c, i)
  {
    var k := c.cmdSeq + 1;
    assert !Pends(c, k) && k !in c.settled;
    assert k !in FlightOf(c, i);
  }

  /** A command that does not get away is settled at once, the others are in flight. */
  lemma IssuedOnce(d: Desk, i: InstanceId, p: Pending, sends: bool)
    requires Accounted(d.commands)
    ensures var c' := SentNext(d, i, p, sends).0.commands; Accounted(c') && Extends(d.commands, c')
  {
    NextIsFree(d.commands, i);
    SentOn(d, i, p, sends);
    SentBack(d, i, p, sends);
    IssuedUnderway(d.commands, i, p);
    IssuedBack(d, i, BackOutcome(SentNext(d, i, p, sends).1));
  }

  lemma IssuedUnderway(c: Commands, i: InstanceId, p: Pending)
    requires Accounted(c)
    ensures var k := c.cmdSeq + 1;
      var c' := c.(pending := c.pending[i := FlightOf(c, i)[k := p]], cmdSeq := k);
      Accounted(c') && Extends(c, c')
  {
    var k := c.cmdSeq + 1;
    var c' := c.(pending := c.pending[i := FlightOf(c, i)[k := p]], cmdSeq := k);
    NextIsFree(c, i);
    PendsMore(c, c', i, k, p);
    FlightsOf(c, c', i, FlightOf(c, i)[k := p]);
  }

  lemma IssuedBack(d: Desk, i: InstanceId, outcome: Outcome)
    requires Accounted(d.commands)
    ensures var c' := TurnedBack(Numbered(d).commands, i, outcome); Accounted(c') && Extends(d.commands, c')
  {
    var c' := TurnedBack(Numbered(d).commands, i, outcome);
    NextIsFree(d.commands, i);
    SameFlight(d.commands, d.commands.cmdSeq + 1, i);
    PendsSame(d.commands, c', i);
    FlightsOf(d.commands, c', i, FlightOf(d.commands, i));
  }

  lemma RejectionSettlesOnce(d: Desk, i: InstanceId)
    requires Accounted(d.commands)
    ensures Accounted(RejectedAll(d, i).commands) && Extends(d.commands, RejectedAll(d, i).commands)
  {
    var c, c' := d.commands, RejectedAll(d, i).commands;
    assert forall x :: FlightOf(c', x) == if x == i then map[] else FlightOf(c, x);
    assert forall k: nat :: k in c'.settled <==> k in c.settled || k in FlightOf(c, i);
    forall j: nat
      ensures Pends(c', j) <==> Pends(c, j) && j !in FlightOf(c, i)
      ensures j in FlightOf(c, i) ==> Pends(c, j)
    {
      if x :| j in FlightOf(c, x) && j !in FlightOf(c, i) {
        assert j in FlightOf(c', x);
      }
      if x :| j in FlightOf(c', x) {
        assert x != i && j in FlightOf(c, x);
      }
    }
  }
}
