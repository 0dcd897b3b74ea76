/** Where commands and holds live: with connected, recorded instances only. */
module CommandHomes {
  import opened FleetTypes
  import opened Reservations
  import opened Commands

  /** Holds and claims belong to recorded instances, commands are in flight over live links. */
  ghost predicate Home(d: Desk, recorded: set<InstanceId>, links: set<InstanceId>) {
    && (forall r | r in d.holds.pending :: d.holds.pending[r] in recorded)
    && (forall x | x in Claims(d.commands) :: x.instance in recorded)
    && d.commands.pending.Keys <= links
  }

  lemma ClaimsShrink(c: Commands, c': Commands)
    requires forall i :: FlightOf(c', i).Keys <= FlightOf(c, i).Keys
    requires forall i, k | k in FlightOf(c', i) :: FlightOf(c', i)[k] == FlightOf(c, i)[k]
    ensures Claims(c') <= Claims(c)
  {
  }

  lemma WithoutShrinks(d: Desk, i: InstanceId, k: nat, outcome: Outcome)
    requires k in FlightOf(d.commands, i)
    ensures var c' := Settle(Without(d, i, k), k, outcome);
      && Claims(c') <= Claims(d.commands)
      && c'.pending.Keys == d.commands.pending.Keys
  {
    var c' := Settle(Without(d, i, k), k, outcome);
    assert forall j :: FlightOf(c', j) == if j == i then FlightOf(d.commands, i) - {k} else FlightOf(d.commands, j);
    ClaimsShrink(d.commands, c');
  }

  lemma HoldHome(d: Desk, i: InstanceId, k: nat, recorded: set<InstanceId>, links: set<InstanceId>)
    requires Conserved(d) && Home(d, recorded, links) && k in FlightOf(d.commands, i)
    ensures var p := FlightOf(d.commands, i)[k];
      && (forall r | r in HoldOrRelease(d.holds, p).pending :: HoldOrRelease(d.holds, p).pending[r] in recorded)
      && ReleaseBoth(d.holds, p).pending == d.holds.pending
  {
    var p := FlightOf(d.commands, i)[k];
    assert WellFormed(p, i);
    if p.op.Create? {
      assert ClaimOf(i, k, p) in Claims(d.commands);
    }
  }

  lemma AckHome(d: Desk, i: InstanceId, k: nat, ok: bool, already: bool, recorded: set<InstanceId>,
                links: set<InstanceId>)
    requires Conserved(d) && Home(d, recorded, links)
    ensures Home(Acked(d, i, k, ok, already).0, recorded, links)
  {
    if k in FlightOf(d.commands, i) {
      HoldHome(d, i, k, recorded, links);
      WithoutShrinks(d, i, k, if ok then Fulfilled else if already then RoomExists else Failed);
    }
  }

  lemma ExpiryHome(d: Desk, i: InstanceId, k: nat, recorded: set<InstanceId>, links: set<InstanceId>)
    requires Conserved(d) && Home(d, recorded, links)
    ensures Home(Expired(d, i, k), recorded, links)
  {
    if k in FlightOf(d.commands, i) {
      HoldHome(d, i, k, recorded, links);
      WithoutShrinks(d, i, k, TimedOut);
    }
  }

  lemma SentHome(d: Desk, i: InstanceId, p: Pending, sends: bool, recorded: set<InstanceId>, links: set<InstanceId>)
    requires Conserved(d) && Home(d, recorded, links) && WellFormed(p, i) && i in links
      && (p.op.Create? ==> i in recorded)
    ensures var d' := SentNext(d, i, p, sends).0;
      && (forall x | x in Claims(d'.commands) :: x.instance in recorded)
      && d'.commands.pending.Keys <= links
  {
    NextIdIsNew(d.commands, i);
    SentOn(d, i, p, sends);
    SentBack(d, i, p, sends);
    var c, k := d.commands, d.commands.cmdSeq + 1;
    var (d', r) := SentNext(d, i, p, sends);
    var flight := if r == Underway then FlightOf(c, i)[k := p] else FlightOf(c, i);
    assert d'.commands.pending == c.pending[i := flight];
    forall x | x in Claims(d'.commands)
      ensures x.instance in recorded
    {
      assert x.cmd in FlightOf(d'.commands, x.instance);
      if x.instance != i || x.cmd != k {
        assert x in Claims(c);
      }
    }
  }

  lemma RejectHome(d: Desk, i: InstanceId, recorded: set<InstanceId>, links: set<InstanceId>)
    requires Conserved(d) && Home(d, recorded, links)
    ensures var r := RejectedAll(d, i);
      && r.holds.pending == d.holds.pending && r.holds.pendingCount == d.holds.pendingCount
      && (forall x | x in Claims(r.commands) :: x.instance in recorded - {i})
      && r.commands.pending.Keys <= links - {i}
      && (forall j | j != i :: FlightOf(r.commands, j) == FlightOf(d.commands, j))
  {
    ReleaseAllKeepsPending(d.holds, FlightOf(d.commands, i));
    var c' := RejectedAll(d, i).commands;
    assert forall j :: FlightOf(c', j) == if j == i then map[] else FlightOf(d.commands, j);
    ClaimsShrink(d.commands, c');
    forall x | x in Claims(c')
      ensures x.instance in recorded - {i}
    {
      assert x.cmd in FlightOf(c', x.instance);
    }
  }

  /** Without a record there is no hold to clear. */
  lemma NothingToClear(h: Holds, i: InstanceId)
    requires Valid(h) && forall r | r in h.pending :: h.pending[r] != i
    ensures ClearPending(h, i) == h
  {
    assert Owned(h.pending, i) == {};
    assert Get(h.pendingCount, i) == |Owned(h.pending, i)|;
  }

  /** Rejecting an instance's commands and clearing its holds leaves a desk at home without it. */
  lemma TornDownHome(d: Desk, i: InstanceId, recorded: set<InstanceId>, links: set<InstanceId>)
    requires Conserved(d) && Home(d, recorded, links)
    ensures Conserved(TornDown(d, i)) && Home(TornDown(d, i), recorded - {i}, links - {i})
    ensures i !in recorded ==> TornDown(d, i) == RejectedAll(d, i)
  {
    RejectHome(d, i, recorded, links);
    RejectedConserves(d, i);
    var r := RejectedAll(d, i);
    ClearConserves(r, i);
    if i !in recorded {
      NothingToClear(r.holds, i);
    }
    forall id | id in ClearPending(r.holds, i).pending
      ensures ClearPending(r.holds, i).pending[id] in recorded - {i}
    {
      assert id in Owned(ClearPending(r.holds, i).pending, ClearPending(r.holds, i).pending[id]);
    }
  }
}
