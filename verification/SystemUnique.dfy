/**
 * Over calm runs (no create times out, no teardown, agents join without fleet rooms): no id is ever live as a
 * fleet-created room on two agents.
 */
module SystemUnique {
  import opened Prelude
  import opened Utf8
  import opened RoomId
  import opened Ordered
  import opened FleetTypes
  import opened Resolution
  import opened PublicIds
  import opened Reservations
  import opened Commands
  import opened FleetModel
  import opened Placement
  import opened Polling
  import opened Orchestration
  import opened OrchestrationLaws
  import opened Agents
  import opened FleetSystem
  import opened Sides
  import opened SystemLinks
  import opened SystemDedup

  // ----- calm -----

  /** This pending command is a create. */
  predicate Creating(flight: InFlight, k: nat) {
    k in flight && flight[k].op.Create?
  }

  /** The orchestrator stops waiting for the answer to a create. */
  predicate GivesUp(o: Orch, input: Input) {
    input.CommandTimeout? && Creating(FlightOf(o.commands, input.i), input.cmdId)
  }

  /** No create times out, nobody is torn down, newcomers bring no fleet rooms. */
  ghost predicate Calm(s: Sys, a: Action)
    requires SysValid(s) && Enabled(s, a)
  {
    && (a.Connect? ==> a.agent.origins == {})
    && (a.Handle? ==> !GivesUp(s.o, a.input))
    && s.o.links <= Next(s, a).o.links
  }

  ghost predicate CalmRun(s: Sys, actions: seq<Action>)
    requires SysValid(s)
    decreases actions
  {
    actions == [] ||
    (Enabled(s, actions[0]) && Calm(s, actions[0]) &&
     (NextValid(s, actions[0]); CalmRun(Next(s, actions[0]), actions[1..])))
  }

  // ----- one id, one connection -----

  /** This pending command creates the room. */
  predicate Makes(flight: InFlight, k: nat, id: Text) {
    k in flight && flight[k].op.Create? && flight[k].op.roomId == id
  }

  ghost predicate Making(flight: InFlight, id: Text) {
    exists k :: Makes(flight, k, id)
  }

  /** Commands under way are the pending ones; only a create is sure to be pending still. */
  ghost predicate OpsMatch(down: seq<Down>, flight: InFlight) {
    down == [] || ((down[0].Cmd? ==> OpMatches(down[0].cmdId, down[0].op, flight)) && OpsMatch(down[1..], flight))
  }

  predicate OpMatches(k: nat, op: Op, flight: InFlight) {
    if k in flight then flight[k].op == op else !op.Create?
  }

  predicate AsksFor(f: Down, id: Text) {
    f.Cmd? && f.op.Create? && f.op.roomId == id
  }

  /** A create of the room is still on its way to the agent. */
  predicate Asked(down: seq<Down>, id: Text) {
    down != [] && (AsksFor(down[0], id) || Asked(down[1..], id))
  }

  /** The refusal of a create of the room is on its way back. */
  ghost predicate Refused(up: seq<Up>, flight: InFlight, id: Text) {
    up != [] && ((up[0].Ack? && !up[0].ok && Makes(flight, up[0].cmdId, id)) || Refused(up[1..], flight, id))
  }

  /** Every snapshot on its way lists the room. */
  ghost predicate AllReport(up: seq<Up>, id: Text) {
    up == [] || ((up[0].State? ==> Reports(up[0].snapshot.content, id)) && AllReport(up[1..], id))
  }

  /** What follows the ack of a command; nothing if there is none. */
  function AfterAck(up: seq<Up>, k: nat): seq<Up> {
    if up == [] then []
    else if up[0].Ack? && up[0].cmdId == k then up[1..]
    else AfterAck(up[1..], k)
  }

  /**
   * A live fleet room is accounted for: while its create is pending, every snapshot after its ack lists it;
   * afterwards it is held or visible, and every snapshot on its way lists it.
   */
  ghost predicate Covered(up: seq<Up>, flight: InFlight, id: Text, anchored: bool) {
    if Making(flight, id) then forall k :: Makes(flight, k, id) ==> AllReport(AfterAck(up, k), id)
    else anchored && AllReport(up, id)
  }

  ghost predicate Visible(record: Option<Record>, id: Text) {
    record.Some? && exists k :: 0 <= k < |record.value.info.rooms| && record.value.info.rooms[k].id == id
  }

  /** The id is held for this instance, or its row shows it. */
  ghost predicate Anchored(o: Orch, i: InstanceId, id: Text) {
    (id in o.fleet.holds.pending && o.fleet.holds.pending[id] == i) || Visible(RecordOf(o.fleet, i), id)
  }

  ghost predicate ConnCalm(c: Conn, flight: InFlight, id: Text, anchored: bool) {
    && OpsMatch(c.down, flight)
    && (Asked(c.down, id) || Refused(c.up, flight, id) ==> !FleetLive(c.agent, id))
    && (FleetLive(c.agent, id) ==> Covered(c.up, flight, id, anchored))
  }

  ghost predicate CalmAt(s: Sys, i: InstanceId, id: Text) {
    i in s.conns ==> ConnCalm(s.conns[i], FlightOf(s.o.commands, i), id, Anchored(s.o, i, id))
  }

  /** The room is live or being made in one place at most. */
  ghost predicate Apart(s: Sys, id: Text) {
    && (forall i, j | i in s.conns && j in s.conns && i != j ::
          !(FleetLive(s.conns[i].agent, id) && FleetLive(s.conns[j].agent, id)))
    && (forall i, j | i in s.conns && i != j ::
          !(FleetLive(s.conns[i].agent, id) && Making(FlightOf(s.o.commands, j), id)))
  }

  ghost predicate AllMarksLive(conns: Conns) {
    forall i | i in conns :: MarksLive(conns[i].agent)
  }

  ghost predicate CalmInv(s: Sys, id: Text) {
    && s.conns.Keys <= s.o.links && AllMarksLive(s.conns)
    && Apart(s, id)
    && forall i :: CalmAt(s, i, id)
  }

  // ----- queues -----

  lemma {:induction false} OpsMatchSplit(a: seq<Down>, b: seq<Down>, flight: InFlight)
    ensures OpsMatch(a + b, flight) <==> OpsMatch(a, flight) && OpsMatch(b, flight)
  {
    if a == [] {
      assert a + b == b;
    } else {
      assert (a + b)[1..] == a[1..] + b && (a + b)[0] == a[0];
      OpsMatchSplit(a[1..], b, flight);
    }
  }

  lemma {:induction false} OpsMatchMore(down: seq<Down>, flight: InFlight, k: nat, p: Pending)
    requires OpsMatch(down, flight) && k !in KeySet(CmdIds(down))
    ensures OpsMatch(down, flight[k := p])
  {
    if down != [] {
      OpsMatchMore(down[1..], flight, k, p);
    }
  }

  lemma {:induction false} OpsMatchLess(down: seq<Down>, flight: InFlight, k: nat)
    requires OpsMatch(down, flight) && k !in KeySet(CmdIds(down))
    ensures OpsMatch(down, flight - {k})
  {
    if down != [] {
      OpsMatchLess(down[1..], flight, k);
    }
  }

  lemma {:induction false} OpsMatchLapsed(down: seq<Down>, flight: InFlight, k: nat)
    requires OpsMatch(down, flight) && !Creating(flight, k)
    ensures OpsMatch(down, flight - {k})
  {
    if down != [] {
      OpsMatchLapsed(down[1..], flight, k);
    }
  }

  lemma {:induction false} AskedSplit(a: seq<Down>, b: seq<Down>, id: Text)
    ensures Asked(a + b, id) <==> Asked(a, id) || Asked(b, id)
  {
    if a == [] {
      assert a + b == b;
    } else {
      assert (a + b)[1..] == a[1..] + b && (a + b)[0] == a[0];
      AskedSplit(a[1..], b, id);
    }
  }

  lemma {:induction false} RefusedSplit(a: seq<Up>, b: seq<Up>, flight: InFlight, id: Text)
    ensures Refused(a + b, flight, id) <==> Refused(a, flight, id) || Refused(b, flight, id)
  {
    if a == [] {
      assert a + b == b;
    } else {
      assert (a + b)[1..] == a[1..] + b && (a + b)[0] == a[0];
      RefusedSplit(a[1..], b, flight, id);
    }
  }

  lemma {:induction false} RefusedSame(up: seq<Up>, flight: InFlight, flight': InFlight, id: Text)
    requires forall k :: Makes(flight', k, id) ==> Makes(flight, k, id)
    requires Refused(up, flight', id)
    ensures Refused(up, flight, id)
  {
    if !(up[0].Ack? && !up[0].ok && Makes(flight', up[0].cmdId, id)) {
      RefusedSame(up[1..], flight, flight', id);
    }
  }

  lemma {:induction false} AllReportSplit(a: seq<Up>, b: seq<Up>, id: Text)
    ensures AllReport(a + b, id) <==> AllReport(a, id) && AllReport(b, id)
  {
    if a == [] {
      assert a + b == b;
    } else {
      assert (a + b)[1..] == a[1..] + b && (a + b)[0] == a[0];
      AllReportSplit(a[1..], b, id);
    }
  }

  lemma {:induction false} AfterAckSplit(a: seq<Up>, b: seq<Up>, k: nat)
    ensures AfterAck(a + b, k) == if k in KeySet(AckIds(a)) then AfterAck(a, k) + b else AfterAck(b, k)
  {
    if a == [] {
      assert a + b == b;
    } else {
      assert (a + b)[1..] == a[1..] + b && (a + b)[0] == a[0];
      if !(a[0].Ack? && a[0].cmdId == k) {
        AfterAckSplit(a[1..], b, k);
      }
    }
  }

  // ----- what the orchestrator knows of an id -----

  lemma MakerIsClaim(o: Orch, i: InstanceId, k: nat, id: Text) returns (x: Claim)
    requires OrchValid(o) && Makes(FlightOf(o.commands, i), k, id)
    ensures x in Claims(o.commands) && x.instance == i && x.cmd == k && x.room == id && id in o.fleet.holds.reserved
  {
    var p := FlightOf(o.commands, i)[k];
    assert WellFormed(p, i);
    x := ClaimOf(i, k, p);
    assert IsClaim(o.commands, x);
  }

  /** An id is being made by one command at most. */
  lemma OneMaker(o: Orch, i: InstanceId, k: nat, j: InstanceId, k': nat, id: Text)
    requires OrchValid(o) && Makes(FlightOf(o.commands, i), k, id) && Makes(FlightOf(o.commands, j), k', id)
    ensures i == j && k == k'
  {
    var x := MakerIsClaim(o, i, k, id);
    var y := MakerIsClaim(o, j, k', id);
  }

  /** Nobody makes, holds or shows an id that is free. */
  lemma FreeIsNowhere(o: Orch, i: InstanceId, id: Text)
    requires OrchValid(o) && IsValidRoomId(id) && !Taken(o.fleet, id)
    ensures !Making(FlightOf(o.commands, i), id) && !Anchored(o, i, id)
  {
    if k :| Makes(FlightOf(o.commands, i), k, id) {
      var x := MakerIsClaim(o, i, k, id);
    }
    if Visible(RecordOf(o.fleet, i), id) {
      var k :| 0 <= k < |o.fleet.rows.records[i].info.rooms| && o.fleet.rows.records[i].info.rooms[k].id == id;
      assert Present(o.fleet.rows.records, Slot(i, k)) && RoomAt(o.fleet.rows.records, Slot(i, k)).id == id;
      FoundIffReported(o.fleet.rows.order, o.fleet.rows.records, id);
    }
  }

  /** A create on its way names an id that was free when it was issued. */
  lemma CreateIsFree(o: Orch, input: Input, open: set<InstanceId>, now: Time, i: InstanceId, id: Text)
    requires OrchValid(o) && Sensible(input) && !input.Joined? && !input.Received?
    requires Asked(FramesTo(Step(o, input, open, now).sent, i), id)
    ensures IsValidRoomId(id) && !Taken(o.fleet, id)
  {
    match input
    case Left(_) =>
    case CommandTimeout(_, _) =>
    case TimerFired(j) => TickAsksNothing(o, j, open, i, id);
    case CreateAsked(roomId, draws, request, random) => CreateAsksFree(o, roomId, draws, request, random, open, i, id);
    case DestroyAsked(publicId) => DestroyAsksNothing(o, publicId, open, i, id);
    case StatusAsked(j, drain) =>
      var op := if drain then Drain else Undrain;
      if j in o.fleet.rows.records && j in o.links {
        IssueAsks(o, j, op, PlainSent(DeskOf(o), j, op, j in open), i, id);
      }
  }

  /** Issuing a command asks for a room only if it is a create of that room. */
  lemma IssueAsks(o: Orch, j: InstanceId, op: Op, sent: (Desk, SendResult), i: InstanceId, id: Text)
    requires Asked(FramesTo(Issue(o, j, op, sent).sent, i), id)
    ensures op.Create? && op.roomId == id
  {
    SentToOne(Issue(o, j, op, sent).sent, i);
    var f := Cmd(o.commands.cmdSeq + 1, op);
    assert [f][1..] == [];
  }

  lemma CreateAsksFree(o: Orch, roomId: Option<Text>, draws: seq<Text>, request: Request, random: real,
                       open: set<InstanceId>,
                       i: InstanceId, id: Text)
    requires OrchValid(o) && 0.0 <= random <= 1.0 && forall d :: d in draws ==> IsValidRoomId(d)
    requires Asked(FramesTo(CreateRoom(o, roomId, draws, request, random, open).sent, i), id)
    ensures IsValidRoomId(id) && !Taken(o.fleet, id)
  {
    CreateRoomIs(o, roomId, draws, request, random, open);
    var target := CreateTarget(o.fleet, roomId, draws, request, random);
    if target.Some? {
      var (r, j) := target.value;
      IssueAsks(o, j, Create(r, request.roomType), CreateSent(DeskOf(o), j, r, request.roomType, j in open), i, id);
    }
  }

  lemma DestroyAsksNothing(o: Orch, publicId: Text, open: set<InstanceId>, i: InstanceId, id: Text)
    requires OrchValid(o)
    ensures !Asked(FramesTo(DestroyRoom(o, publicId, open).sent, i), id)
  {
    if Asked(FramesTo(DestroyRoom(o, publicId, open).sent, i), id) {
      var found := Locate(o.fleet.rows, publicId).value;
      var op := Destroy(found.rawRoomId);
      IssueAsks(o, found.instanceId, op, PlainSent(DeskOf(o), found.instanceId, op, found.instanceId in open), i, id);
    }
  }

  lemma SentToOne(sent: seq<(InstanceId, Down)>, i: InstanceId)
    requires |sent| <= 1
    ensures FramesTo(sent, i) == if |sent| == 1 && sent[0].0 == i then [sent[0].1] else []
  {
    if |sent| == 1 {
      assert |sent[1..]| == 0;
    }
  }

  lemma TickAsksNothing(o: Orch, j: InstanceId, open: set<InstanceId>, i: InstanceId, id: Text)
    requires OrchValid(o)
    ensures |Tick(o, j, open).sent| <= 1 && !Asked(FramesTo(Tick(o, j, open).sent, i), id)
  {
    SentToOne(Tick(o, j, open).sent, i);
  }

  // ----- handlers that do not receive -----

  /** A calm handler moves no hold and no row, and drops no link. */
  lemma CalmHandler(s: Sys, input: Input, open: set<InstanceId>, now: Time)
    requires SysValid(s) && Enabled(s, Handle(input, open, now)) && Calm(s, Handle(input, open, now))
    ensures var o' := Step(s.o, input, open, now).orch;
      && o'.fleet.holds.pending == s.o.fleet.holds.pending && o'.fleet.rows == s.o.fleet.rows && o'.links == s.o.links
  {
    hide Teardown, Tick, Expire, CreateRoom, DestroyRoom, PlainSent, Conserved, StreamValid, AgentsValid;
    var o := s.o;
    match input
    case Left(j) => StaysKeepsAll(o, j);
    case TimerFired(j) => TickKeepsAll(o, j, open);
    case CommandTimeout(j, k) => ExpireKeepsAll(o, j, k);
    case CreateAsked(roomId, draws, request, random) => CreateKeepsPending(o, roomId, draws, request, random, open);
    case DestroyAsked(publicId) => DestroyKeepsFleet(o, publicId, open);
    case StatusAsked(j, drain) => PlainConserves(DeskOf(o), j, if drain then Drain else Undrain, j in open);
  }

  /** Leaving without a link is nothing. */
  lemma StaysKeepsAll(o: Orch, j: InstanceId)
    requires OrchValid(o) && o.links <= Teardown(o, j).links
    ensures Teardown(o, j) == o
  {
    NotLinkedAfter(o, j);
    NothingHere(o, j);
  }

  lemma TickKeepsAll(o: Orch, j: InstanceId, open: set<InstanceId>)
    requires OrchValid(o) && o.links <= Tick(o, j, open).orch.links
    ensures var o' := Tick(o, j, open).orch;
      o'.fleet.holds == o.fleet.holds && o'.fleet.rows == o.fleet.rows && o'.links == o.links
        && o'.commands == o.commands
  {
    if Ticked(o.polls, j).1 == OnEvict {
      EvictUnlinks(o, j, open);
    }
  }

  lemma EvictUnlinks(o: Orch, j: InstanceId, open: set<InstanceId>)
    requires OrchValid(o) && Ticked(o.polls, j).1 == OnEvict
    ensures j in o.links && j !in Tick(o, j, open).orch.links
  {
    var polls := Ticked(o.polls, j).0;
    TickedKeys(o.polls, j);
    PolledValid(o, polls);
    NotLinkedAfter(o.(polls := polls), j);
  }

  /** Giving up on a command that is no create moves no hold. */
  lemma ExpireKeepsAll(o: Orch, j: InstanceId, k: nat)
    requires OrchValid(o) && !Creating(FlightOf(o.commands, j), k)
    ensures Expire(o, j, k).fleet == o.fleet && Expire(o, j, k).links == o.links
  {
    if k in FlightOf(o.commands, j) {
      assert WellFormed(FlightOf(o.commands, j)[k], j);
    }
  }

  lemma CreateKeepsPending(o: Orch, roomId: Option<Text>, draws: seq<Text>, request: Request, random: real,
                           open: set<InstanceId>)
    requires OrchValid(o) && 0.0 <= random <= 1.0 && forall d :: d in draws ==> IsValidRoomId(d)
    ensures var o' := CreateRoom(o, roomId, draws, request, random, open).orch;
      o'.fleet.holds.pending == o.fleet.holds.pending && o'.fleet.rows == o.fleet.rows && o'.links == o.links
  {
    CreateRoomIs(o, roomId, draws, request, random, open);
    var target := CreateTarget(o.fleet, roomId, draws, request, random);
    if target.Some? {
      var (id, j) := target.value;
      SentCommands(DeskOf(o), HeldFor(o.fleet.holds, j, id), j, CreatePending(o.fleet.holds, j, id, request.roomType),
        j in open);
    }
  }

  lemma DestroyKeepsFleet(o: Orch, publicId: Text, open: set<InstanceId>)
    requires OrchValid(o)
    ensures DestroyRoom(o, publicId, open).orch.fleet == o.fleet && DestroyRoom(o, publicId, open).orch.links == o.links
  {
    hide Locate, PlainSent, Conserved, StreamValid;
    if Locate(o.fleet.rows, publicId).Some? {
      var found := Locate(o.fleet.rows, publicId).value;
      PlainConserves(DeskOf(o), found.instanceId, Destroy(found.rawRoomId), found.instanceId in open);
    }
  }

  lemma CoveredSame(up: seq<Up>, flight: InFlight, flight': InFlight, id: Text, anchored: bool)
    requires forall k :: Makes(flight', k, id) <==> Makes(flight, k, id)
    ensures Covered(up, flight', id, anchored) <==> Covered(up, flight, id, anchored)
    ensures Making(flight', id) <==> Making(flight, id)
    ensures Refused(up, flight', id) <==> Refused(up, flight, id)
  {
    if Refused(up, flight, id) { RefusedSame(up, flight', flight, id); }
    if Refused(up, flight', id) { RefusedSame(up, flight, flight', id); }
  }

  /** A frame that is no create of this id joins the queue. */
  lemma OtherFrame(c: Conn, flight: InFlight, id: Text, anchored: bool, f: Down)
    requires ConnCalm(c, flight, id, anchored) && !f.Cmd?
    ensures ConnCalm(c.(down := c.down + [f]), flight, id, anchored)
  {
    OpsMatchSplit(c.down, [f], flight);
    AskedSplit(c.down, [f], id);
    assert [f][1..] == [];
  }

  lemma NewCommand(c: Conn, flight: InFlight, id: Text, anchored: bool, k: nat, p: Pending)
    requires ConnCalm(c, flight, id, anchored) && k !in flight && k !in KeySet(CmdIds(c.down))
    requires AsksFor(Cmd(k, p.op), id) ==> !FleetLive(c.agent, id)
    ensures ConnCalm(c.(down := c.down + [Cmd(k, p.op)]), flight[k := p], id, anchored)
  {
    var f, flight' := Cmd(k, p.op), flight[k := p];
    OpsMatchMore(c.down, flight, k, p);
    OpsMatchSplit(c.down, [f], flight');
    AskedSplit(c.down, [f], id);
    assert [f][1..] == [];
    if FleetLive(c.agent, id) {
      CoveredSame(c.up, flight, flight', id, anchored);
    }
  }

  /** A pending command that is no create is forgotten. */
  lemma LapsedCalm(c: Conn, flight: InFlight, id: Text, anchored: bool, k: nat)
    requires ConnCalm(c, flight, id, anchored) && !Creating(flight, k)
    ensures ConnCalm(c, flight - {k}, id, anchored)
  {
    OpsMatchLapsed(c.down, flight, k);
    CoveredSame(c.up, flight, flight - {k}, id, anchored);
  }

  lemma ChangedCalm(o: Orch, e: Effects, input: Input, i: InstanceId, c: Conn, id: Text)
    requires Changes(o, e, input, i) && i in e.orch.links && !GivesUp(o, input)
    requires ConnCalm(c, FlightOf(o.commands, i), id, Anchored(o, i, id))
    requires e.orch.fleet.holds.pending == o.fleet.holds.pending && e.orch.fleet.rows == o.fleet.rows
    requires Asked(FramesTo(e.sent, i), id) ==> !FleetLive(c.agent, id)
    requires o.commands.cmdSeq + 1 !in KeySet(CmdIds(c.down))
    ensures ConnCalm(c.(down := c.down + FramesTo(e.sent, i)), FlightOf(e.orch.commands, i), id,
      Anchored(e.orch, i, id))
  {
    var b, a, frames := SideOf(o, i), SideOf(e.orch, i), FramesTo(e.sent, i);
    assert Anchored(e.orch, i, id) == Anchored(o, i, id);
    if frames == [] {
      assert c.down + [] == c.down;
      if a.flight != b.flight {
        LapsedCalm(c, b.flight, id, Anchored(o, i, id), input.cmdId);
      }
    } else {
      assert frames == [frames[0]];
      if frames[0].Poll? {
        OtherFrame(c, b.flight, id, Anchored(o, i, id), frames[0]);
      } else {
        var k := frames[0].cmdId;
        NewCommand(c, b.flight, id, Anchored(o, i, id), k, a.flight[k]);
        assert frames[0] == Cmd(k, a.flight[k].op);
      }
    }
  }

  lemma HandleMaking(s: Sys, input: Input, open: set<InstanceId>, now: Time, i: InstanceId, id: Text)
    requires SysValid(s) && Enabled(s, Handle(input, open, now)) && Calm(s, Handle(input, open, now))
    ensures Making(FlightOf(Step(s.o, input, open, now).orch.commands, i), id) ==>
      Making(FlightOf(s.o.commands, i), id) || (IsValidRoomId(id) && !Taken(s.o.fleet, id))
  {
    var e := Step(s.o, input, open, now);
    CalmHandler(s, input, open, now);
    StepSides(s.o, input, open, now, i);
    if Asked(FramesTo(e.sent, i), id) {
      CreateIsFree(s.o, input, open, now, i, id);
    } else {
      StepValid(s.o, input, open, now);
      NothingNewMade(s.o, e, input, i, id);
    }
  }

  lemma Handled(s: Sys, input: Input, open: set<InstanceId>, now: Time) returns (e: Effects)
    requires SysValid(s) && Enabled(s, Handle(input, open, now))
    ensures OrchValid(s.o) && Sensible(input) && !input.Joined? && !input.Received?
    ensures e == Step(s.o, input, open, now)
    ensures Next(s, Handle(input, open, now)).o == e.orch
      && Next(s, Handle(input, open, now)).conns == Posted(s.conns, e.sent)
    ensures Calm(s, Handle(input, open, now)) ==> !GivesUp(s.o, input)
  {
    e := Step(s.o, input, open, now);
  }

  /** The number of the next command is on no command under way. */
  lemma NextIsUnused(s: Sys, i: InstanceId)
    requires LinkInv(s, i) && i in s.conns && i in s.o.links
    ensures s.o.commands.cmdSeq + 1 !in KeySet(CmdIds(s.conns[i].down))
  {
    KeySetSplits(AckIds(s.conns[i].up), CmdIds(s.conns[i].down));
  }

  lemma HandleCalmAt(s: Sys, input: Input, open: set<InstanceId>, now: Time, i: InstanceId, id: Text)
    requires SysValid(s) && LinksInv(s) && CalmInv(s, id)
    requires Enabled(s, Handle(input, open, now)) && Calm(s, Handle(input, open, now))
    ensures CalmAt(Next(s, Handle(input, open, now)), i, id)
  {
    hide SysValid, Enabled, Next, Step, OrchValid, Sensible, Changes, ConnCalm, Anchored, Making, Calm, GivesUp;
    var e := Handled(s, input, open, now);
    PostedKeeps(s.conns, e.sent);
    if i in s.conns {
      CalmHandler(s, input, open, now);
      StepSides(s.o, input, open, now, i);
      PostedTo(s.conns, e.sent, i);
      assert CalmAt(s, i, id) && LinkInv(s, i);
      NextIsUnused(s, i);
      if Asked(FramesTo(e.sent, i), id) {
        CreateIsFree(s.o, input, open, now, i, id);
        FreeIsDead(s, i, id);
      }
      ChangedCalm(s.o, e, input, i, s.conns[i], id);
    }
  }

  /** Without a create of it, an id is being made where it was. */
  lemma NothingNewMade(o: Orch, e: Effects, input: Input, i: InstanceId, id: Text)
    requires Changes(o, e, input, i) && !Asked(FramesTo(e.sent, i), id)
    requires OrchValid(e.orch) && e.orch.links == o.links
    ensures Making(FlightOf(e.orch.commands, i), id) ==> Making(FlightOf(o.commands, i), id)
  {
    var b, a, frames := SideOf(o, i), SideOf(e.orch, i), FramesTo(e.sent, i);
    if k :| Makes(a.flight, k, id) {
      assert i in e.orch.links;
      if Issued(b, a, frames, o.commands.cmdSeq + 1) {
        assert frames == [frames[0]] && !AsksFor(frames[0], id);
      }
      assert Makes(b.flight, k, id);
    }
  }

  /** A free id is live on no agent. */
  lemma FreeIsDead(s: Sys, i: InstanceId, id: Text)
    requires SysValid(s) && CalmInv(s, id) && i in s.conns && IsValidRoomId(id) && !Taken(s.o.fleet, id)
    ensures !FleetLive(s.conns[i].agent, id)
  {
    assert CalmAt(s, i, id);
    FreeIsNowhere(s.o, i, id);
  }

  lemma HandleCalm(s: Sys, input: Input, open: set<InstanceId>, now: Time, id: Text)
    requires SysValid(s) && LinksInv(s) && CalmInv(s, id)
    requires Enabled(s, Handle(input, open, now)) && Calm(s, Handle(input, open, now))
    ensures CalmInv(Next(s, Handle(input, open, now)), id)
  {
    hide SysValid, Enabled, Next, Step, OrchValid, Sensible, ConnCalm, Anchored, Making, Calm;
    var e := Handled(s, input, open, now);
    var s' := Next(s, Handle(input, open, now));
    CalmHandler(s, input, open, now);
    PostedKeeps(s.conns, e.sent);
    forall i
      ensures CalmAt(s', i, id)
    {
      HandleCalmAt(s, input, open, now, i, id);
    }
    forall i, j | i in s'.conns && i != j
      ensures !(FleetLive(s'.conns[i].agent, id) && Making(FlightOf(s'.o.commands, j), id))
    {
      HandleMaking(s, input, open, now, j, id);
      if !Making(FlightOf(s.o.commands, j), id) && Making(FlightOf(s'.o.commands, j), id) {
        FreeIsDead(s, i, id);
      }
    }
  }

  // ----- a connection opens -----

  lemma ConnectCalmAt(s: Sys, j: InstanceId, agent: Agent, open: set<InstanceId>, i: InstanceId, id: Text)
    requires SysValid(s) && Enabled(s, Connect(j, agent, open)) && agent.origins == {} && CalmAt(s, i, id)
    ensures CalmAt(Next(s, Connect(j, agent, open)), i, id)
  {
    hide OrchValid, AgentsValid, ConnCalm, Making;
    var e := Join(s.o, j, open);
    var conns := s.conns[j := Conn(agent, [], [])];
    var s' := Next(s, Connect(j, agent, open));
    PostedKeeps(conns, e.sent);
    if i in conns {
      assert Anchored(s'.o, i, id) == Anchored(s.o, i, id);
      PostedTo(conns, e.sent, i);
      JoinFrames(s.o, j, open, i);
      if i == j {
        assert s'.conns[i].down == FramesTo(e.sent, i);
        GreetedCalm(s'.conns[i], FlightOf(s'.o.commands, i), id, Anchored(s'.o, i, id));
      } else {
        assert s'.conns[i].down == s.conns[i].down + [] == s.conns[i].down;
      }
    }
  }

  /** A newcomer without fleet rooms keeps every id apart. */
  lemma NewcomerApart(s: Sys, o: Orch, conns: Conns, j: InstanceId, id: Text)
    requires Apart(s, id) && o.commands == s.o.commands && conns.Keys == s.conns.Keys + {j}
    requires forall i | i in conns :: FleetLive(conns[i].agent, id) ==> i in s.conns && FleetLive(s.conns[i].agent, id)
    ensures Apart(s.(o := o, conns := conns), id)
  {
  }

  /** One agent more, and no command. */
  lemma ConnectAdds(s: Sys, j: InstanceId, agent: Agent, open: set<InstanceId>)
    requires SysValid(s) && Enabled(s, Connect(j, agent, open))
    ensures var s' := Next(s, Connect(j, agent, open));
      && s'.o.commands == s.o.commands && s'.o.links == s.o.links + {j} && s'.conns.Keys == s.conns.Keys + {j}
      && forall i | i in s'.conns :: s'.conns[i].agent == if i == j then agent else s.conns[i].agent
  {
    hide SysValid, AgentValid, Posted;
    PostedKeeps(s.conns[j := Conn(agent, [], [])], Join(s.o, j, open).sent);
  }

  lemma ConnectCalm(s: Sys, j: InstanceId, agent: Agent, open: set<InstanceId>, id: Text)
    requires SysValid(s) && Enabled(s, Connect(j, agent, open)) && agent.origins == {} && CalmInv(s, id)
    ensures CalmInv(Next(s, Connect(j, agent, open)), id)
  {
    hide SysValid, Enabled, Next, ConnCalm, Making, Anchored;
    var s' := Next(s, Connect(j, agent, open));
    ConnectAdds(s, j, agent, open);
    NewcomerApart(s, s'.o, s'.conns, j, id);
    forall i
      ensures CalmAt(s', i, id)
    {
      assert CalmAt(s, i, id);
      ConnectCalmAt(s, j, agent, open, i, id);
    }
  }

  lemma GreetedCalm(c: Conn, flight: InFlight, id: Text, anchored: bool)
    requires c.up == [] && !FleetLive(c.agent, id)
    requires c.down == [] || exists f: Down :: f.Poll? && c.down == [Hello, f]
    ensures ConnCalm(c, flight, id, anchored)
  {
    if c.down != [] {
      var f: Down :| f.Poll? && c.down == [Hello, f];
      assert c.down[1..] == [f] && [f][1..] == [];
    }
  }

  // ----- the agent takes a frame -----

  lemma ReplyJoins(up: seq<Up>, flight: InFlight, id: Text, anchored: bool, f: Up)
    requires f.State?
    ensures Refused(up + [f], flight, id) <==> Refused(up, flight, id)
    ensures Covered(up, flight, id, anchored) && Reports(f.snapshot.content, id) ==>
      Covered(up + [f], flight, id, anchored)
  {
    assert [f][1..] == [];
    RefusedSplit(up, [f], flight, id);
    AllReportSplit(up, [f], id);
    forall k
      ensures AllReport(AfterAck(up, k), id) && Reports(f.snapshot.content, id) ==> AllReport(AfterAck(up + [f], k), id)
    {
      AfterAckSplit(up, [f], k);
      AllReportSplit(AfterAck(up, k), [f], id);
    }
  }

  lemma AckJoins(up: seq<Up>, flight: InFlight, id: Text, anchored: bool, f: Up)
    requires f.Ack?
    ensures Refused(up + [f], flight, id) <==> Refused(up, flight, id) || (!f.ok && Makes(flight, f.cmdId, id))
    ensures Covered(up, flight, id, anchored) ==> Covered(up + [f], flight, id, anchored)
  {
    assert [f][1..] == [];
    RefusedSplit(up, [f], flight, id);
    AllReportSplit(up, [f], id);
    forall k
      ensures AllReport(AfterAck(up, k), id) ==> AllReport(AfterAck(up + [f], k), id)
    {
      AfterAckSplit(up, [f], k);
      AllReportSplit(AfterAck(up, k), [f], id);
    }
  }

  /** A room made just now: its ack, if it gets away, is the last frame on its way. */
  lemma JustMade(up: seq<Up>, flight: InFlight, id: Text, anchored: bool, k: nat, answer: seq<Up>)
    requires Makes(flight, k, id) && k !in KeySet(AckIds(up))
    requires forall k' :: Makes(flight, k', id) ==> k' == k
    requires answer == [] || (exists f: Up :: f.Ack? && f.cmdId == k && answer == [f])
    ensures Covered(up + answer, flight, id, anchored)
  {
    AfterAckSplit(up, answer, k);
    assert AllReport(AfterAck(up + answer, k), id) by {
      if answer != [] {
        assert answer[1..] == [];
      }
    }
  }

  lemma OneMakerHere(o: Orch, j: InstanceId, id: Text)
    requires OrchValid(o)
    ensures var flight := FlightOf(o.commands, j);
      forall k, k' | Makes(flight, k, id) && Makes(flight, k', id) :: k == k'
  {
    var flight := FlightOf(o.commands, j);
    forall k, k' | Makes(flight, k, id) && Makes(flight, k', id)
      ensures k == k'
    {
      OneMaker(o, j, k, j, k', id);
    }
  }

  lemma TakeCalm(s: Sys, j: InstanceId, succeeds: bool, sends: bool, id: Text)
    requires SysValid(s) && LinksInv(s) && Enabled(s, AgentTakes(j, succeeds, sends)) && CalmInv(s, id)
    ensures CalmInv(Next(s, AgentTakes(j, succeeds, sends)), id)
  {
    hide Step, Receive, Join, OrchValid, ConnCalm, Anchored;
    var c, flight := s.conns[j], FlightOf(s.o.commands, j);
    assert CalmAt(s, j, id) && LinkInv(s, j);
    OneMakerHere(s.o, j, id);
    TakeValid(c.agent, c.down[0], succeeds);
    TakenCalm(c, flight, id, Anchored(s.o, j, id), succeeds, sends);
    var (agent, answer) := Take(c.agent, c.down[0], succeeds);
    if FleetLive(agent, id) && !FleetLive(c.agent, id) {
      var k :| Makes(flight, k, id);
      MadeApart(s, j, k, id);
    }
    AgentChanged(s, j, Conn(agent, c.down[1..], c.up + if sends then answer else []), id);
  }

  /** One connection changes, and its agent has the room live only if no other place has it. */
  lemma AgentChanged(s: Sys, j: InstanceId, c: Conn, id: Text)
    requires CalmInv(s, id) && j in s.conns
    requires ConnCalm(c, FlightOf(s.o.commands, j), id, Anchored(s.o, j, id))
    requires MarksLive(c.agent)
    requires FleetLive(c.agent, id) && !FleetLive(s.conns[j].agent, id) ==>
      && (forall i | i in s.conns && i != j :: !FleetLive(s.conns[i].agent, id))
      && (forall i | i != j :: !Making(FlightOf(s.o.commands, i), id))
    ensures CalmInv(s.(conns := s.conns[j := c]), id)
  {
    var s' := s.(conns := s.conns[j := c]);
    forall i
      ensures CalmAt(s', i, id)
    {
      assert CalmAt(s, i, id);
    }
  }

  lemma MadeApart(s: Sys, j: InstanceId, k: nat, id: Text)
    requires SysValid(s) && CalmInv(s, id) && j in s.conns && Makes(FlightOf(s.o.commands, j), k, id)
    ensures forall i | i in s.conns && i != j :: !FleetLive(s.conns[i].agent, id)
    ensures forall i | i != j :: !Making(FlightOf(s.o.commands, i), id)
  {
    forall i | i != j
      ensures !Making(FlightOf(s.o.commands, i), id)
    {
      if k' :| Makes(FlightOf(s.o.commands, i), k', id) {
        OneMaker(s.o, i, k', j, k, id);
      }
    }
  }

  lemma TakenCalm(c: Conn, flight: InFlight, id: Text, anchored: bool, succeeds: bool, sends: bool)
    requires c.down != [] && AgentValid(c.agent) && ConnCalm(c, flight, id, anchored) && Distinct(Ids(c))
    requires forall k, k' | Makes(flight, k, id) && Makes(flight, k', id) :: k == k'
    ensures var (agent, answer) := Take(c.agent, c.down[0], succeeds);
      && ConnCalm(Conn(agent, c.down[1..], c.up + if sends then answer else []), flight, id, anchored)
      && (FleetLive(agent, id) && !FleetLive(c.agent, id) ==> Making(flight, id))
  {
    var (agent, answer) := Take(c.agent, c.down[0], succeeds);
    assert c.up + [] == c.up;
    match c.down[0]
    case Hello =>
    case Poll(reqId, knownHash, _) =>
      ContentReports(c.agent, id);
      ReplyJoins(c.up, flight, id, anchored, answer[0]);
    case Cmd(k, op) => CommandTaken(c, flight, id, anchored, succeeds, sends);
  }

  lemma CommandTaken(c: Conn, flight: InFlight, id: Text, anchored: bool, succeeds: bool, sends: bool)
    requires c.down != [] && c.down[0].Cmd? && AgentValid(c.agent) && ConnCalm(c, flight, id, anchored)
      && Distinct(Ids(c))
    requires forall k, k' | Makes(flight, k, id) && Makes(flight, k', id) :: k == k'
    ensures var (agent, ack) := OnCmd(c.agent, c.down[0].cmdId, c.down[0].op, succeeds);
      && ConnCalm(Conn(agent, c.down[1..], c.up + if sends then [ack] else []), flight, id, anchored)
      && (FleetLive(agent, id) && !FleetLive(c.agent, id) ==> Making(flight, id))
  {
    var k, op := c.down[0].cmdId, c.down[0].op;
    var (agent, ack) := OnCmd(c.agent, k, op, succeeds);
    var answer := if sends then [ack] else [];
    assert c.up + [] == c.up;
    AckJoins(c.up, flight, id, anchored, ack);
    if op.Create? && op.roomId == id {
      assert Makes(flight, k, id) && !FleetLive(c.agent, id);
      AckNotYet(c, k);
      NotAskedTwice(c, flight, id);
      JustMade(c.up, flight, id, anchored, k, answer);
    } else {
      assert FleetLive(agent, id) ==> FleetLive(c.agent, id);
    }
  }

  /** A command is under way once: not also as an ack, nor behind itself. */
  lemma AckNotYet(c: Conn, k: nat)
    requires c.down != [] && c.down[0].Cmd? && c.down[0].cmdId == k && Distinct(Ids(c))
    ensures k !in KeySet(AckIds(c.up)) && k !in KeySet(CmdIds(c.down[1..]))
  {
    DistinctSplits(AckIds(c.up), CmdIds(c.down));
    assert CmdIds(c.down)[0] == k;
    KeySetHas(CmdIds(c.down), 0);
  }

  lemma {:induction false} AskedHasMaker(down: seq<Down>, flight: InFlight, id: Text) returns (k: nat)
    requires OpsMatch(down, flight) && Asked(down, id)
    ensures k in KeySet(CmdIds(down)) && Makes(flight, k, id)
  {
    if AsksFor(down[0], id) {
      k := down[0].cmdId;
    } else {
      k := AskedHasMaker(down[1..], flight, id);
    }
  }

  lemma {:induction false} RefusedHasMaker(up: seq<Up>, flight: InFlight, id: Text) returns (k: nat)
    requires Refused(up, flight, id)
    ensures k in KeySet(AckIds(up)) && Makes(flight, k, id)
  {
    if up[0].Ack? && !up[0].ok && Makes(flight, up[0].cmdId, id) {
      k := up[0].cmdId;
    } else {
      k := RefusedHasMaker(up[1..], flight, id);
    }
  }

  lemma NotAskedTwice(c: Conn, flight: InFlight, id: Text)
    requires c.down != [] && AsksFor(c.down[0], id) && OpsMatch(c.down, flight) && Distinct(Ids(c))
    requires forall k, k' | Makes(flight, k, id) && Makes(flight, k', id) :: k == k'
    ensures !Asked(c.down[1..], id) && !Refused(c.up, flight, id)
  {
    var k := c.down[0].cmdId;
    assert Makes(flight, k, id);
    AckNotYet(c, k);
    if Asked(c.down[1..], id) {
      var k' := AskedHasMaker(c.down[1..], flight, id);
    }
    if Refused(c.up, flight, id) {
      var k' := RefusedHasMaker(c.up, flight, id);
    }
  }

  // ----- game code acts -----

  lemma ActCalm(s: Sys, j: InstanceId, local: Local, id: Text)
    requires SysValid(s) && Enabled(s, AgentActs(j, local)) && CalmInv(s, id)
    ensures CalmInv(Next(s, AgentActs(j, local)), id)
  {
    var c := s.conns[j];
    LocallyValid(c.agent, local);
    assert CalmAt(s, j, id);
    AgentChanged(s, j, c.(agent := Locally(c.agent, local)), id);
  }

  // ----- the orchestrator receives -----

  /** A frame of one agent moves no hold of another. */
  lemma HoldsElsewhere(o: Orch, j: InstanceId, f: Up, valid: bool, now: Time, i: InstanceId, id: Text)
    requires OrchValid(o) && i != j && j in Receive(o, j, f, valid, now).orch.links
    ensures Anchored(Receive(o, j, f, valid, now).orch, i, id) <==> Anchored(o, i, id)
  {
    hide Receive, DeskValid, StreamValid, Visible;
    ReceiveOther(o, j, f, valid, now, i);
    HeldElsewhere(o, j, f, valid, now, i, id);
    assert SideOf(Receive(o, j, f, valid, now).orch, i).record == SideOf(o, i).record;
  }

  lemma HeldElsewhere(o: Orch, j: InstanceId, f: Up, valid: bool, now: Time, i: InstanceId, id: Text)
    requires OrchValid(o) && i != j && j in Receive(o, j, f, valid, now).orch.links
    ensures var h, h' := o.fleet.holds.pending, Receive(o, j, f, valid, now).orch.fleet.holds.pending;
      id in h' && h'[id] == i <==> id in h && h[id] == i
  {
    match f
    case State(reqId, full, snap) => StateHolds(o, j, reqId, full, snap, valid, now);
    case Ack(k, ok, already) => AckHolds(o, j, k, ok, already);
  }

  /** An applied or confirmed snapshot clears the holds of its own instance only. */
  lemma StateHolds(o: Orch, j: InstanceId, reqId: nat, full: bool, s: Snapshot, valid: bool, now: Time)
    requires OrchValid(o) && j in ReceiveState(o, j, reqId, full, s, valid, now).orch.links
    ensures var h, h' := o.fleet.holds, ReceiveState(o, j, reqId, full, s, valid, now).orch.fleet.holds;
      h' == h || h' == ClearPending(h, j)
  {
    NotLinkedAfter(o, j);
    if Replied(o.polls, j, reqId).1 {
      MatchedReply(o, j, reqId, full, s, valid, now);
    }
  }

  /** A settled create may add its own hold, under an id nobody held. */
  lemma AckHolds(o: Orch, j: InstanceId, k: nat, ok: bool, already: bool)
    requires OrchValid(o) && j in ReceiveAck(o, j, k, ok, already).orch.links
    ensures var h, h' := o.fleet.holds, ReceiveAck(o, j, k, ok, already).orch.fleet.holds;
      && k in FlightOf(o.commands, j)
      && var p := FlightOf(o.commands, j)[k];
        if ok && p.op.Create? then p.op.roomId !in h.pending
          && h'.pending == h.pending[p.op.roomId := j] else h'.pending == h.pending
  {
    NotLinkedAfter(o, j);
    if k in FlightOf(o.commands, j) {
      AckedHolds(DeskOf(o), j, k, ok, already);
      AckIs(o, j, k, ok, already);
    }
  }

  lemma AckIs(o: Orch, j: InstanceId, k: nat, ok: bool, already: bool)
    requires RowsValid(o.fleet.rows) && k in FlightOf(o.commands, j)
    ensures ReceiveAck(o, j, k, ok, already).orch.fleet.holds == Acked(DeskOf(o), j, k, ok, already).0.holds
  {
  }

  lemma AckedHolds(d: Desk, j: InstanceId, k: nat, ok: bool, already: bool)
    requires Conserved(d) && k in FlightOf(d.commands, j)
    ensures var h, h', p := d.holds, Acked(d, j, k, ok, already).0.holds, FlightOf(d.commands, j)[k];
      if ok && p.op.Create? then p.op.roomId !in h.pending
        && h'.pending == h.pending[p.op.roomId := j] else h'.pending == h.pending
  {
    var p := FlightOf(d.commands, j)[k];
    assert WellFormed(p, j);
    if p.op.Create? {
      assert ClaimOf(j, k, p) in Claims(d.commands);
      HoldIs(d.holds, p.op.roomId, p.reservation.value);
    }
  }

  lemma HoldIs(h: Holds, id: Text, r: Reservation)
    requires id !in h.pending
    ensures HoldUntilVisible(h, id, r).pending == h.pending[id := r.instanceId]
  {
  }

  /** A kicked instance is not linked. */
  lemma NotLinkedAfter(o: Orch, j: InstanceId)
    requires OrchValid(o)
    ensures j !in Teardown(o, j).links
  {
    TeardownSides(o, j, j);
    assert !SideOf(Teardown(o, j), j).linked;
  }

  lemma DeliverCalmAt(s: Sys, j: InstanceId, valid: bool, now: Time, i: InstanceId, id: Text)
    requires SysValid(s) && LinksInv(s) && AllDedup(s) && CalmInv(s, id)
    requires Enabled(s, Deliver(j, valid, now)) && Calm(s, Deliver(j, valid, now))
    ensures CalmAt(Next(s, Deliver(j, valid, now)), i, id)
  {
    hide Receive, OrchValid, AgentsValid, ConnCalm, Anchored, Making, Calm, LinkInv, DedupInv;
    var f := s.conns[j].up[0];
    assert CalmAt(s, i, id) && LinkInv(s, i) && DedupInv(s, i);
    if i != j {
      var o' := Next(s, Deliver(j, valid, now)).o;
      StaysLinked(s, j, valid, now);
      HoldsElsewhere(s.o, j, f, valid, now, i, id);
      ReceiveOther(s.o, j, f, valid, now, i);
      assert SideOf(o', i).flight == SideOf(s.o, i).flight;
    } else if f.State? {
      StateCalm(s, j, valid, now, id);
    } else {
      AckCalm(s, j, valid, now, id);
    }
  }

  lemma DeliverTakes(s: Sys, j: InstanceId, valid: bool, now: Time)
    requires SysValid(s) && Enabled(s, Deliver(j, valid, now))
    ensures j in s.conns && s.conns[j].up != []
    ensures Next(s, Deliver(j, valid, now)).conns == s.conns[j := s.conns[j].(up := s.conns[j].up[1..])]
  {
  }

  lemma DeliverCalm(s: Sys, j: InstanceId, valid: bool, now: Time, id: Text)
    requires SysValid(s) && LinksInv(s) && AllDedup(s) && CalmInv(s, id)
    requires Enabled(s, Deliver(j, valid, now)) && Calm(s, Deliver(j, valid, now))
    ensures CalmInv(Next(s, Deliver(j, valid, now)), id)
  {
    hide SysValid, Enabled, Next, Calm, LinksInv, AllDedup, ConnCalm, Making, Anchored;
    var s' := Next(s, Deliver(j, valid, now));
    StaysLinked(s, j, valid, now);
    DeliverTakes(s, j, valid, now);
    forall i
      ensures CalmAt(s', i, id)
    {
      DeliverCalmAt(s, j, valid, now, i, id);
    }
    forall i
      ensures Making(FlightOf(s'.o.commands, i), id) ==> Making(FlightOf(s.o.commands, i), id)
    {
      MakingShrinks(s, j, valid, now, i, id);
    }
  }

  /** In calm nobody is kicked, so every frame answers something pending. */
  lemma StaysLinked(s: Sys, j: InstanceId, valid: bool, now: Time)
    requires SysValid(s) && Enabled(s, Deliver(j, valid, now)) && Calm(s, Deliver(j, valid, now))
      && s.conns.Keys <= s.o.links
    ensures Next(s, Deliver(j, valid, now)).o.links == s.o.links
    ensures s.conns[j].up[0].Ack? ==> s.conns[j].up[0].cmdId in FlightOf(s.o.commands, j)
    ensures s.conns[j].up[0].State? ==> Replied(s.o.polls, j, s.conns[j].up[0].reqId).1
  {
    NotLinkedAfter(s.o, j);
    match s.conns[j].up[0]
    case State(reqId, full, snap) =>
      MatchedReply(s.o, j, reqId, full, snap, valid, now);
    case Ack(k, ok, already) =>
      AckKeepsLinks(s.o, j, k, ok, already);
  }

  lemma AckKeepsLinks(o: Orch, j: InstanceId, k: nat, ok: bool, already: bool)
    requires OrchValid(o) && k in FlightOf(o.commands, j)
    ensures ReceiveAck(o, j, k, ok, already).orch.links == o.links
  {
  }

  lemma MakingShrinks(s: Sys, j: InstanceId, valid: bool, now: Time, i: InstanceId, id: Text)
    requires SysValid(s) && Enabled(s, Deliver(j, valid, now)) && Calm(s, Deliver(j, valid, now))
      && s.conns.Keys <= s.o.links
    ensures var s' := Next(s, Deliver(j, valid, now));
      Making(FlightOf(s'.o.commands, i), id) ==> Making(FlightOf(s.o.commands, i), id)
  {
    var f := s.conns[j].up[0];
    var s' := Next(s, Deliver(j, valid, now));
    StaysLinked(s, j, valid, now);
    if i != j {
      ReceiveOther(s.o, j, f, valid, now, i);
      assert SideOf(s'.o, i).flight == SideOf(s.o, i).flight;
    } else {
      OwnFlight(s, j, valid, now);
      if k :| Makes(FlightOf(s'.o.commands, i), k, id) {
        assert Makes(FlightOf(s.o.commands, i), k, id);
      }
    }
  }

  lemma OwnFlight(s: Sys, j: InstanceId, valid: bool, now: Time)
    requires SysValid(s) && Enabled(s, Deliver(j, valid, now)) && Calm(s, Deliver(j, valid, now))
      && s.conns.Keys <= s.o.links
    ensures var f, flight, flight' := s.conns[j].up[0], FlightOf(s.o.commands, j),
      FlightOf(Next(s, Deliver(j, valid, now)).o.commands, j);
      && (f.State? ==> flight' == flight)
      && (f.Ack? ==> f.cmdId in flight && flight' == flight - {f.cmdId})
  {
    StaysLinked(s, j, valid, now);
    if s.conns[j].up[0].State? {
      StateFlight(s.o, j, s.conns[j].up[0], valid, now);
    } else {
      AckFlight(s.o, j, s.conns[j].up[0], valid, now);
    }
  }

  lemma StateFlight(o: Orch, j: InstanceId, f: Up, valid: bool, now: Time)
    requires OrchValid(o) && j in o.links && f.State? && Replied(o.polls, j, f.reqId).1
    ensures FlightOf(Receive(o, j, f, valid, now).orch.commands, j) == FlightOf(o.commands, j)
  {
    MatchedReply(o, j, f.reqId, f.full, f.snapshot, valid, now);
  }

  lemma AckFlight(o: Orch, j: InstanceId, f: Up, valid: bool, now: Time)
    requires OrchValid(o) && j in o.links && f.Ack? && f.cmdId in FlightOf(o.commands, j)
    ensures FlightOf(Receive(o, j, f, valid, now).orch.commands, j) == FlightOf(o.commands, j) - {f.cmdId}
  {
    AckOwn(o, j, f.cmdId, f.ok, f.already);
    assert SideOf(Receive(o, j, f, valid, now).orch, j).flight
      == FlightOf(Receive(o, j, f, valid, now).orch.commands, j);
  }

  lemma InfosShow(i: InstanceId, url: Text, rooms: seq<SyncRoom>, infos: seq<RoomInfo>, id: Text)
    requires infos == RoomInfos(i, url, rooms)
    ensures (exists k :: 0 <= k < |infos| && infos[k].id == id) <==> ListsId(rooms, id)
  {
    if k :| 0 <= k < |infos| && infos[k].id == id {
      assert rooms[k].id == id;
    }
    if k :| 0 <= k < |rooms| && rooms[k].id == id {
      assert infos[k] == RoomInfoOf(i, url, rooms[k]);
      assert infos[k].id == id;
    }
  }

  /** A row shows exactly what its snapshot reports. */
  lemma BuiltShows(i: InstanceId, c: Content, now: Time, r: Record, id: Text)
    requires r.info == BuildInstanceInfo(i, c, now)
    ensures Visible(Some(r), id) <==> Reports(c, id)
  {
    InfosShow(i, c.endpointUrl, c.rooms, r.info.rooms, id);
    assert Reports(c, id) <==> ListsId(c.rooms, id);
  }

  lemma StateCalm(s: Sys, i: InstanceId, valid: bool, now: Time, id: Text)
    requires SysValid(s) && LinksInv(s) && LinkInv(s, i) && DedupInv(s, i) && CalmInv(s, id) && CalmAt(s, i, id)
    requires Enabled(s, Deliver(i, valid, now)) && Calm(s, Deliver(i, valid, now)) && s.conns[i].up[0].State?
    ensures CalmAt(Next(s, Deliver(i, valid, now)), i, id)
  {
    hide Receive, AgentsValid, ConnCalm, Calm, LinkInv, DedupInv, LinksInv, DeskValid, StreamValid;
    var c, f := s.conns[i], s.conns[i].up[0];
    var s' := Next(s, Deliver(i, valid, now));
    OwnFlight(s, i, valid, now);
    ReplyConsumed(s, i, valid, now);
    if !f.full || valid {
      BuiltShows(i, f.snapshot.content, now, RecordOf(s'.o.fleet, i).value, id);
      StateTaken(c, FlightOf(s.o.commands, i), id, Anchored(s.o, i, id), Anchored(s'.o, i, id));
    } else {
      RejectedHolds(s.o, i, f, now, id);
      StateTaken(c, FlightOf(s.o.commands, i), id, Anchored(s.o, i, id), Anchored(s'.o, i, id));
    }
  }

  lemma RejectedHolds(o: Orch, i: InstanceId, f: Up, now: Time, id: Text)
    requires OrchValid(o) && f.State? && f.full && i in Receive(o, i, f, false, now).orch.links && i in o.links
    ensures Anchored(Receive(o, i, f, false, now).orch, i, id) <==> Anchored(o, i, id)
  {
    NotLinkedAfter(o, i);
    if Replied(o.polls, i, f.reqId).1 {
      MatchedReply(o, i, f.reqId, f.full, f.snapshot, false, now);
    }
  }

  /** The oldest frame, a snapshot, is gone; if it listed the room, the room is anchored now. */
  lemma StateTaken(c: Conn, flight: InFlight, id: Text, before: bool, after: bool)
    requires c.up != [] && c.up[0].State? && ConnCalm(c, flight, id, before)
    requires Reports(c.up[0].snapshot.content, id) && before ==> after
    ensures ConnCalm(c.(up := c.up[1..]), flight, id, after)
  {
    if FleetLive(c.agent, id) && Making(flight, id) {
      forall k | Makes(flight, k, id)
        ensures AllReport(AfterAck(c.up[1..], k), id)
      {
        assert AfterAck(c.up, k) == AfterAck(c.up[1..], k);
      }
    }
  }

  /** A settled command unanchors nothing, and a successful create anchors its room. */
  lemma AckAnchors(o: Orch, i: InstanceId, f: Up, valid: bool, now: Time, id: Text)
    requires OrchValid(o) && f.Ack? && i in o.links && i in Receive(o, i, f, valid, now).orch.links
    ensures Anchored(o, i, id) || (f.ok && Makes(FlightOf(o.commands, i), f.cmdId, id)) ==>
      Anchored(Receive(o, i, f, valid, now).orch, i, id)
  {
    AckHolds(o, i, f.cmdId, f.ok, f.already);
    AckOwn(o, i, f.cmdId, f.ok, f.already);
    assert SideOf(Receive(o, i, f, valid, now).orch, i).record == SideOf(o, i).record;
  }

  lemma AckCalm(s: Sys, i: InstanceId, valid: bool, now: Time, id: Text)
    requires SysValid(s) && LinksInv(s) && LinkInv(s, i) && CalmInv(s, id) && CalmAt(s, i, id)
    requires Enabled(s, Deliver(i, valid, now)) && Calm(s, Deliver(i, valid, now)) && s.conns[i].up[0].Ack?
    ensures CalmAt(Next(s, Deliver(i, valid, now)), i, id)
  {
    var c, f := s.conns[i], s.conns[i].up[0];
    var o' := Next(s, Deliver(i, valid, now)).o;
    hide Receive, OrchValid, AgentsValid, ConnCalm, Calm, LinksInv;
    StaysLinked(s, i, valid, now);
    OwnFlight(s, i, valid, now);
    AckAnchors(s.o, i, f, valid, now, id);
    OneMakerHere(s.o, i, id);
    AckTaken(c, FlightOf(s.o.commands, i), id, Anchored(s.o, i, id), Anchored(o', i, id));
  }

  /** The oldest frame, an ack, settles its command; a successful create of the room leaves it held. */
  lemma AckTaken(c: Conn, flight: InFlight, id: Text, before: bool, after: bool)
    requires c.up != [] && c.up[0].Ack? && ConnCalm(c, flight, id, before) && Distinct(Ids(c))
      && c.up[0].cmdId in flight
    requires forall k, k' | Makes(flight, k, id) && Makes(flight, k', id) :: k == k'
    requires before ==> after
    requires c.up[0].ok && Makes(flight, c.up[0].cmdId, id) ==> after
    ensures ConnCalm(c.(up := c.up[1..]), flight - {c.up[0].cmdId}, id, after)
  {
    var k, flight' := c.up[0].cmdId, flight - {c.up[0].cmdId};
    RestOfAck(c);
    AckGone(c);
    OpsMatchLess(c.down, flight, k);
    if Refused(c.up[1..], flight', id) {
      RefusedSame(c.up[1..], flight, flight', id);
    }
    if FleetLive(c.agent, id) {
      if Makes(flight, k, id) {
        assert AfterAck(c.up, k) == c.up[1..];
        if k' :| Makes(flight', k', id) {
          assert Makes(flight, k', id);
        }
      } else {
        assert forall k' :: Makes(flight', k', id) <==> Makes(flight, k', id);
        CoveredSame(c.up[1..], flight, flight', id, after);
        forall k' | Makes(flight, k', id)
          ensures AfterAck(c.up, k') == AfterAck(c.up[1..], k')
        {
        }
      }
    }
  }

  lemma AckGone(c: Conn)
    requires c.up != [] && c.up[0].Ack? && Distinct(Ids(c))
    ensures c.up[0].cmdId !in KeySet(CmdIds(c.down))
  {
    DistinctSplits(AckIds(c.up), CmdIds(c.down));
    assert AckIds(c.up)[0] == c.up[0].cmdId;
    KeySetHas(AckIds(c.up), 0);
  }

  // ----- every calm step, every calm run -----

  lemma NextCalm(s: Sys, a: Action, id: Text)
    requires SysValid(s) && LinksInv(s) && AllDedup(s) && Enabled(s, a) && Calm(s, a) && CalmInv(s, id)
    ensures CalmInv(Next(s, a), id)
  {
    assert a.Connect? ==> a.agent.origins == {};
    hide SysValid, Enabled, Next, Calm, CalmInv, LinksInv, AllDedup;
    match a
    case Connect(j, agent, open) => ConnectCalm(s, j, agent, open, id);
    case Handle(input, open, now) => HandleCalm(s, input, open, now, id);
    case Deliver(j, valid, now) => DeliverCalm(s, j, valid, now, id);
    case AgentTakes(j, succeeds, sends) => TakeCalm(s, j, succeeds, sends, id);
    case AgentActs(j, local) => ActCalm(s, j, local, id);
  }

  lemma {:induction false} RunCalm(s: Sys, actions: seq<Action>, id: Text)
    requires SysValid(s) && LinksInv(s) && AllDedup(s) && CalmInv(s, id) && CalmRun(s, actions)
    ensures Possible(s, actions) && CalmInv(Reached(s, actions), id)
    decreases actions
  {
    hide SysValid, Enabled, Next, Calm, CalmInv, LinksInv, AllDedup;
    if actions != [] {
      NextValid(s, actions[0]);
      NextLinks(s, actions[0]);
      NextDedup(s, actions[0]);
      NextCalm(s, actions[0], id);
      RunCalm(Next(s, actions[0]), actions[1..], id);
    }
  }

  /** In every calm run, no id is live as a fleet-created room on two agents. */
  lemma FleetIdsAreUnique(actions: seq<Action>, i: InstanceId, j: InstanceId, id: Text)
    requires CalmRun(Beginning(), actions)
    ensures Possible(Beginning(), actions)
    ensures var s := Reached(Beginning(), actions);
      i in s.conns && j in s.conns && FleetLive(s.conns[i].agent, id) && FleetLive(s.conns[j].agent, id) ==> i == j
  {
    hide SysValid, Enabled, Next, CalmRun, Possible, Reached;
    RunCalm(Beginning(), actions, id);
  }

  /** And while such a room exists its id is taken: reserved, held, or in the read model. */
  lemma LiveFleetIdsAreTaken(actions: seq<Action>, i: InstanceId, id: Text)
    requires CalmRun(Beginning(), actions) && IsValidRoomId(id)
    ensures Possible(Beginning(), actions)
    ensures var s := Reached(Beginning(), actions);
      i in s.conns && FleetLive(s.conns[i].agent, id) ==> Taken(s.o.fleet, id)
  {
    hide Enabled, Next, CalmRun, Possible, Reached;
    RunCalm(Beginning(), actions, id);
    var s := Reached(Beginning(), actions);
    if i in s.conns && !Taken(s.o.fleet, id) {
      FreeIsDead(s, i, id);
    }
  }

  /** The id is taken already while its create, or the answer to it, is on its way. */
  lemma UnderWayIdsAreTaken(actions: seq<Action>, i: InstanceId, id: Text)
    requires CalmRun(Beginning(), actions)
    ensures Possible(Beginning(), actions)
    ensures var s := Reached(Beginning(), actions);
      i in s.conns && (Asked(s.conns[i].down, id) || Answering(s.conns[i].up, FlightOf(s.o.commands, i), id)) ==>
        id in s.o.fleet.holds.reserved
  {
    hide Enabled, Next, CalmRun, Possible, Reached;
    RunCalm(Beginning(), actions, id);
    var s := Reached(Beginning(), actions);
    if i in s.conns {
      assert CalmAt(s, i, id);
      if Asked(s.conns[i].down, id) {
        var k := AskedHasMaker(s.conns[i].down, FlightOf(s.o.commands, i), id);
        var x := MakerIsClaim(s.o, i, k, id);
      } else if k :| k in KeySet(AckIds(s.conns[i].up)) && Makes(FlightOf(s.o.commands, i), k, id) {
        var x := MakerIsClaim(s.o, i, k, id);
      }
    }
  }

  /** The answer to a pending create of the room is on its way. */
  ghost predicate Answering(up: seq<Up>, flight: InFlight, id: Text) {
    exists k :: k in KeySet(AckIds(up)) && Makes(flight, k, id)
  }
}
