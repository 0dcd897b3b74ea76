/** Over whole runs: an acked drain takes an instance out of placement, and an acked undrain puts it back. */
module SystemStatus {
  import opened Prelude
  import opened Utf8
  import opened Ordered
  import opened FleetTypes
  import Reservations
  import opened Resolution
  import opened Commands
  import opened FleetModel
  import opened Placement
  import Hosting
  import opened Polling
  import opened Orchestration
  import opened OrchestrationLaws
  import opened StatusOverrides
  import opened Agents
  import opened AgentAnswers
  import opened FleetSystem
  import opened Sides
  import opened SystemLinks
  import opened SystemDedup
  import opened SystemAnswers

  // ----- commands under way are the pending ones -----

  ghost predicate SameOps(down: seq<Down>, flight: InFlight) {
    forall q :: 0 <= q < |down| && down[q].Cmd? && down[q].cmdId in flight ==> flight[down[q].cmdId].op == down[q].op
  }

  ghost predicate OpsInv(s: Sys, i: InstanceId) {
    i in s.o.links && i in s.conns ==> SameOps(s.conns[i].down, FlightOf(s.o.commands, i))
  }

  lemma {:induction false} CmdIdAt(down: seq<Down>, q: nat)
    requires q < |down| && down[q].Cmd?
    ensures down[q].cmdId in KeySet(CmdIds(down))
  {
    if q > 0 {
      CmdIdAt(down[1..], q - 1);
    }
  }

  lemma {:induction false} AckIdAt(up: seq<Up>, q: nat)
    requires q < |up| && up[q].Ack?
    ensures up[q].cmdId in KeySet(AckIds(up))
  {
    if q > 0 {
      AckIdAt(up[1..], q - 1);
    }
  }

  /** The number of the next command is on nothing under way. */
  ghost predicate Unused(c: Conn, k: nat) {
    && (forall q :: 0 <= q < |c.down| && c.down[q].Cmd? ==> c.down[q].cmdId != k)
    && (forall q :: 0 <= q < |c.up| && c.up[q].Ack? ==> c.up[q].cmdId != k)
  }

  lemma NextUnused(s: Sys, i: InstanceId)
    requires LinkInv(s, i) && i in s.conns && i in s.o.links
    ensures Unused(s.conns[i], s.o.commands.cmdSeq + 1)
  {
    var c, k := s.conns[i], s.o.commands.cmdSeq + 1;
    KeySetSplits(AckIds(c.up), CmdIds(c.down));
    forall q | 0 <= q < |c.down| && c.down[q].Cmd?
      ensures c.down[q].cmdId != k
    {
      CmdIdAt(c.down, q);
    }
    forall q | 0 <= q < |c.up| && c.up[q].Ack?
      ensures c.up[q].cmdId != k
    {
      AckIdAt(c.up, q);
    }
  }

  // ----- the flight of one connection through a step -----

  /** Nothing, one command less, or one more under a number not used before, whose frame is posted. */
  ghost predicate FlightMoves(flight: InFlight, flight': InFlight, frames: seq<Down>, k: nat) {
    || (flight' == flight && forall q :: 0 <= q < |frames| ==> !frames[q].Cmd?)
    || (frames == [] && exists gone :: flight' == flight - {gone})
    || (k in flight' && flight' == flight[k := flight'[k]] && frames == [Cmd(k, flight'[k].op)])
  }

  lemma ChangesMove(o: Orch, e: Effects, input: Input, i: InstanceId)
    requires Changes(o, e, input, i) && i in e.orch.links
    ensures FlightMoves(FlightOf(o.commands, i), FlightOf(e.orch.commands, i), FramesTo(e.sent, i),
      o.commands.cmdSeq + 1)
    ensures RecordOf(e.orch.fleet, i) == RecordOf(o.fleet, i)
  {
    var b, a, frames := SideOf(o, i), SideOf(e.orch, i), FramesTo(e.sent, i);
    assert b.flight == FlightOf(o.commands, i) && a.flight == FlightOf(e.orch.commands, i);
    assert b.record == RecordOf(o.fleet, i) && a.record == RecordOf(e.orch.fleet, i);
    if Issued(b, a, frames, o.commands.cmdSeq + 1) {
      assert frames == [Cmd(o.commands.cmdSeq + 1, a.flight[o.commands.cmdSeq + 1].op)];
    }
  }

  lemma SameOpsMoves(c: Conn, flight: InFlight, flight': InFlight, frames: seq<Down>, k: nat)
    requires SameOps(c.down, flight) && FlightMoves(flight, flight', frames, k) && Unused(c, k)
    ensures SameOps(c.down + frames, flight')
  {
  }

  lemma HandleOps(s: Sys, input: Input, open: set<InstanceId>, now: Time, i: InstanceId)
    requires SysValid(s) && Enabled(s, Handle(input, open, now)) && LinkInv(s, i) && OpsInv(s, i)
    ensures OpsInv(Next(s, Handle(input, open, now)), i)
  {
    hide SysValid, Step, OrchValid, Changes, LinkInv, SameOps, FlightMoves, Unused;
    var e := HandledIs(s, input, open, now, i);
    if i in e.orch.links && i in s.conns {
      NextUnused(s, i);
      ChangesMove(s.o, e, input, i);
      SameOpsMoves(s.conns[i], FlightOf(s.o.commands, i), FlightOf(e.orch.commands, i), FramesTo(e.sent, i),
        s.o.commands.cmdSeq + 1);
    }
  }

  /** A handler that runs for something other than a frame, seen from one connection. */
  lemma HandledIs(s: Sys, input: Input, open: set<InstanceId>, now: Time, i: InstanceId) returns (e: Effects)
    requires SysValid(s) && Enabled(s, Handle(input, open, now))
    ensures var s' := Next(s, Handle(input, open, now));
      && OrchValid(s.o) && Sensible(input) && !input.Joined? && !input.Received?
      && e == Step(s.o, input, open, now) && s'.o == e.orch
      && Changes(s.o, e, input, i) && e.orch.links <= s.o.links
      && s'.conns.Keys == s.conns.Keys
      && (i in s.conns ==> s'.conns[i] == s.conns[i].(down := s.conns[i].down + FramesTo(e.sent, i)))
  {
    e := Step(s.o, input, open, now);
    StepSides(s.o, input, open, now, i);
    StepSteady(s.o, input, open, now);
    PostedKeeps(s.conns, e.sent);
    if i in s.conns {
      PostedTo(s.conns, e.sent, i);
    }
  }

  /** Whatever connects, the others see nothing of it. */
  lemma ConnectedElsewhere(s: Sys, j: InstanceId, agent: Agent, open: set<InstanceId>, i: InstanceId)
    requires SysValid(s) && Enabled(s, Connect(j, agent, open)) && i in s.conns
    ensures var s' := Next(s, Connect(j, agent, open));
      && i != j && i in s'.conns && s'.conns[i] == s.conns[i]
      && (i in s'.o.links <==> i in s.o.links)
      && s'.o.fleet == s.o.fleet && s'.o.commands == s.o.commands
  {
    hide OrchValid, AgentsValid, AgentValid, Join, Started, PollFrame;
    var conns, e := s.conns[j := Conn(agent, [], [])], Join(s.o, j, open);
    PostedKeeps(conns, e.sent);
    PostedTo(conns, e.sent, i);
    JoinFrames(s.o, j, open, i);
    JoinLinks(s.o, j, open);
    JoinOverrides(s.o, j, open);
    assert s.conns[i].down + [] == s.conns[i].down;
  }

  ghost predicate NoCommands(down: seq<Down>) {
    forall q :: 0 <= q < |down| ==> !down[q].Cmd?
  }

  lemma JoinSendsNoCommand(o: Orch, j: InstanceId, open: set<InstanceId>)
    ensures NoCommands(FramesTo(Join(o, j, open).sent, j))
  {
    hide Join, PollFrame, Started;
    JoinFrames(o, j, open, j);
    FrameIs(o.fleet, j, o.polls.reqSeq + 1);
  }

  /** The newcomer is sent no command. */
  lemma ConnectedHere(s: Sys, j: InstanceId, agent: Agent, open: set<InstanceId>)
    requires SysValid(s) && Enabled(s, Connect(j, agent, open))
    ensures var s' := Next(s, Connect(j, agent, open));
      s'.conns.Keys == s.conns.Keys + {j} && NoCommands(s'.conns[j].down)
  {
    hide OrchValid, AgentsValid, AgentValid, Join, NoCommands;
    var conns, e := s.conns[j := Conn(agent, [], [])], Join(s.o, j, open);
    PostedKeeps(conns, e.sent);
    PostedTo(conns, e.sent, j);
    JoinSendsNoCommand(s.o, j, open);
    assert [] + FramesTo(e.sent, j) == FramesTo(e.sent, j);
  }

  /** A frame of one instance, seen from the connection of another. */
  lemma DeliveredElsewhere(s: Sys, j: InstanceId, valid: bool, now: Time, i: InstanceId)
    requires SysValid(s) && Enabled(s, Deliver(j, valid, now)) && i != j
    ensures var s' := Next(s, Deliver(j, valid, now));
      && (i in s'.o.links <==> i in s.o.links) && s'.conns.Keys == s.conns.Keys
      && FlightOf(s'.o.commands, i) == FlightOf(s.o.commands, i)
      && RecordOf(s'.o.fleet, i) == RecordOf(s.o.fleet, i)
      && (i in s.conns ==> s'.conns[i] == s.conns[i])
  {
    hide DeskValid, StreamValid, Nested, AgentsValid, Receive;
    ReceiveOther(s.o, j, s.conns[j].up[0], valid, now, i);
    var b, a := SideOf(s.o, i), SideOf(Next(s, Deliver(j, valid, now)).o, i);
    assert a.linked == b.linked && a.flight == b.flight && a.record == b.record;
  }

  /** Its own frame: an ack settles its command, a reply leaves commands alone, and whatever does neither is the end. */
  lemma DeliveredHere(s: Sys, i: InstanceId, valid: bool, now: Time)
    requires SysValid(s) && Enabled(s, Deliver(i, valid, now)) && LinkInv(s, i) && i in s.o.links
    ensures var s', f := Next(s, Deliver(i, valid, now)), s.conns[i].up[0];
      var flight := FlightOf(s.o.commands, i);
      && s'.conns == s.conns[i := s.conns[i].(up := s.conns[i].up[1..])]
      && (i in s'.o.links ==>
        FlightOf(s'.o.commands, i) == if f.Ack? then flight - {f.cmdId} else flight)
  {
    hide OrchValid, AgentsValid, Receive, AllKnown, Ids;
    var f := s.conns[i].up[0];
    if f.State? {
      RestOfState(s.conns[i]);
      StateTakes(s.o, i, f, valid, now);
    } else {
      AckTakes(s.o, i, f, valid, now);
    }
  }

  lemma DeliverOps(s: Sys, j: InstanceId, valid: bool, now: Time, i: InstanceId)
    requires SysValid(s) && Enabled(s, Deliver(j, valid, now)) && LinkInv(s, i) && OpsInv(s, i)
    ensures OpsInv(Next(s, Deliver(j, valid, now)), i)
  {
    hide SysValid, Next, LinkInv;
    if i != j {
      DeliveredElsewhere(s, j, valid, now, i);
    } else if i in s.o.links {
      DeliveredHere(s, i, valid, now);
    } else {
      StaysOut(s, i, valid, now);
    }
  }

  lemma StaysOut(s: Sys, i: InstanceId, valid: bool, now: Time)
    requires SysValid(s) && Enabled(s, Deliver(i, valid, now)) && i !in s.o.links
    ensures i !in Next(s, Deliver(i, valid, now)).o.links
  {
    hide DeskValid, StreamValid, Nested, AgentsValid;
  }

  lemma ConnectOps(s: Sys, j: InstanceId, agent: Agent, open: set<InstanceId>, i: InstanceId)
    requires SysValid(s) && Enabled(s, Connect(j, agent, open)) && OpsInv(s, i)
    ensures OpsInv(Next(s, Connect(j, agent, open)), i)
  {
    hide SysValid, Next;
    ConnectedHere(s, j, agent, open);
    if i in s.conns {
      ConnectedElsewhere(s, j, agent, open, i);
    }
  }

  lemma AgentOps(s: Sys, a: Action, i: InstanceId)
    requires SysValid(s) && Enabled(s, a) && (a.AgentTakes? || a.AgentActs?) && OpsInv(s, i)
    ensures OpsInv(Next(s, a), i)
  {
    hide OrchValid, Take, Locally;
  }

  lemma NextOps(s: Sys, a: Action, i: InstanceId)
    requires SysValid(s) && Enabled(s, a) && LinkInv(s, i) && OpsInv(s, i)
    ensures OpsInv(Next(s, a), i)
  {
    hide SysValid, Next, Enabled, LinkInv, OpsInv;
    match a
    case Connect(j, agent, open) => ConnectOps(s, j, agent, open, i);
    case Handle(input, open, now) => HandleOps(s, input, open, now, i);
    case Deliver(j, valid, now) => DeliverOps(s, j, valid, now, i);
    case AgentTakes(_, _, _) => AgentOps(s, a, i);
    case AgentActs(_, _) => AgentOps(s, a, i);
  }

  lemma NextOverrides(s: Sys, a: Action)
    requires SysValid(s) && Enabled(s, a) && OverridesRecorded(s.o.fleet)
    ensures OverridesRecorded(Next(s, a).o.fleet)
  {
    hide DeskValid, StreamValid, Nested, AgentsValid, Step, Receive, OverridesRecorded;
    match a
    case Connect(j, agent, open) => JoinOverrides(s.o, j, open);
    case Handle(input, open, now) => StepOverrides(s.o, input, open, now, 0);
    case Deliver(j, valid, now) => ReceiveOverridesOther(s.o, j, s.conns[j].up[0], valid, now, j);
    case AgentTakes(_, _, _) =>
    case AgentActs(_, _) =>
  }

  lemma {:induction false} RunOps(s: Sys, actions: seq<Action>, i: InstanceId)
    requires SysValid(s) && Possible(s, actions) && LinksInv(s) && OpsInv(s, i) && OverridesRecorded(s.o.fleet)
    ensures OpsInv(Reached(s, actions), i) && OverridesRecorded(Reached(s, actions).o.fleet)
    decreases actions
  {
    hide SysValid, Next, Enabled, LinkInv, OpsInv, OverridesRecorded;
    if actions != [] {
      assert LinkInv(s, i);
      NextValid(s, actions[0]);
      NextLinks(s, actions[0]);
      NextOps(s, actions[0], i);
      NextOverrides(s, actions[0]);
      RunOps(Next(s, actions[0]), actions[1..], i);
    }
  }

  // ----- what is believed of the status -----

  /** What placement takes the status to be, if it can consider the instance at all. */
  ghost predicate Believed(override: Option<Status>, record: Option<Record>, st: Status) {
    override == Some(st) || (override.None? && (record.Some? ==> record.value.info.status == st))
  }

  predicate Agrees(op: Op, st: Status) {
    TargetOf(op) == None || TargetOf(op) == Some(st)
  }

  /** No ack behind the mark is of a command that asks for another status. */
  ghost predicate AcksAgree(up: seq<Up>, from: nat, flight: InFlight, st: Status) {
    forall q :: from <= q < |up| && up[q].Ack? && up[q].cmdId in flight ==> Agrees(flight[up[q].cmdId].op, st)
  }

  /** The frame at the mark acks a command that asks for this status. */
  ghost predicate MarkAcks(up: seq<Up>, from: nat, flight: InFlight, st: Status) {
    from > 0 ==>
      && from <= |up| && up[from - 1].Ack? && up[from - 1].ok
      && (up[from - 1].cmdId in flight ==> TargetOf(flight[up[from - 1].cmdId].op) == Some(st))
  }

  ghost predicate Settling(s: Sys, i: InstanceId, from: nat, st: Status) {
    && i in s.conns
    && (i in s.o.links ==>
      && AcksAgree(s.conns[i].up, from, FlightOf(s.o.commands, i), st)
      && MarkAcks(s.conns[i].up, from, FlightOf(s.o.commands, i), st)
      && (from == 0 ==> Believed(OverrideOf(s.o.fleet, i), RecordOf(s.o.fleet, i), st)))
  }

  /** Game code does not flip the status, and the agent takes no command to do so. */
  ghost predicate Undisputed(s: Sys, a: Action, i: InstanceId, st: Status)
    requires Enabled(s, a)
  {
    && (a.AgentActs? && a.i == i && a.local.StatusFlipped? ==> a.local.to == st)
    && (a.AgentTakes? && a.i == i && s.conns[i].down[0].Cmd? ==> Agrees(s.conns[i].down[0].op, st))
  }

  // ----- one step -----

  lemma AcksMove(c: Conn, from: nat, flight: InFlight, flight': InFlight, frames: seq<Down>, k: nat, st: Status)
    requires FlightMoves(flight, flight', frames, k) && Unused(c, k)
    requires AcksAgree(c.up, from, flight, st) && MarkAcks(c.up, from, flight, st)
    ensures AcksAgree(c.up, from, flight', st) && MarkAcks(c.up, from, flight', st)
  {
  }

  lemma HandleSettles(s: Sys, input: Input, open: set<InstanceId>, now: Time, i: InstanceId, from: nat, st: Status)
    requires SysValid(s) && Enabled(s, Handle(input, open, now)) && LinkInv(s, i) && Settling(s, i, from, st)
    requires OverridesRecorded(s.o.fleet)
    ensures Settling(Next(s, Handle(input, open, now)), i, from, st)
  {
    hide SysValid, Step, OrchValid, Changes, LinkInv, AcksAgree, MarkAcks, FlightMoves, Unused, Believed;
    var e := HandledIs(s, input, open, now, i);
    if i in e.orch.links {
      NextUnused(s, i);
      ChangesMove(s.o, e, input, i);
      StepOverrides(s.o, input, open, now, i);
      AcksMove(s.conns[i], from, FlightOf(s.o.commands, i), FlightOf(e.orch.commands, i), FramesTo(e.sent, i),
        s.o.commands.cmdSeq + 1, st);
    }
  }

  lemma ConnectSettles(s: Sys, j: InstanceId, agent: Agent, open: set<InstanceId>, i: InstanceId, from: nat, st: Status)
    requires SysValid(s) && Enabled(s, Connect(j, agent, open)) && Settling(s, i, from, st)
    ensures Settling(Next(s, Connect(j, agent, open)), i, from, st)
  {
    hide SysValid, Enabled, Next, AcksAgree, MarkAcks, Believed;
    ConnectedElsewhere(s, j, agent, open, i);
  }

  /** An ack answers the command it was taken for. */
  lemma AnswerAcks(agent: Agent, f: Down, succeeds: bool)
    requires AgentValid(agent)
    ensures var answer := Take(agent, f, succeeds).1;
      forall x :: x in answer && x.Ack? ==> f.Cmd? && x.cmdId == f.cmdId
  {
    hide Take;
    match f
    case Hello => GreetingTaken(agent, succeeds);
    case Poll(reqId, knownHash, status) => PollTakenShows(agent, reqId, knownHash, status, succeeds);
    case Cmd(k, op) => CmdTakenAcks(agent, k, op, succeeds);
  }

  lemma AnswerAgrees(up: seq<Up>, answer: seq<Up>, from: nat, flight: InFlight, st: Status)
    requires AcksAgree(up, from, flight, st) && MarkAcks(up, from, flight, st)
    requires forall x :: x in answer && x.Ack? && x.cmdId in flight ==> Agrees(flight[x.cmdId].op, st)
    ensures AcksAgree(up + answer, from, flight, st) && MarkAcks(up + answer, from, flight, st)
    ensures AcksAgree(up + [], from, flight, st) && MarkAcks(up + [], from, flight, st)
  {
    assert up + [] == up;
  }

  lemma OldestSame(down: seq<Down>, flight: InFlight)
    requires down != [] && SameOps(down, flight)
    ensures down[0].Cmd? && down[0].cmdId in flight ==> flight[down[0].cmdId].op == down[0].op
  {
  }

  /** The agent's answer joins the queue; if it is an ack, its command agrees. */
  lemma TakeSettles(s: Sys, i: InstanceId, succeeds: bool, sends: bool, from: nat, st: Status)
    requires SysValid(s) && Enabled(s, AgentTakes(i, succeeds, sends)) && OpsInv(s, i) && Settling(s, i, from, st)
    requires Undisputed(s, AgentTakes(i, succeeds, sends), i, st)
    ensures Settling(Next(s, AgentTakes(i, succeeds, sends)), i, from, st)
  {
    hide OrchValid, Take, Believed, SameOps, AcksAgree, MarkAcks, Agrees;
    var c := s.conns[i];
    if i in s.o.links {
      AnswerAcks(c.agent, c.down[0], succeeds);
      OldestSame(c.down, FlightOf(s.o.commands, i));
      AnswerAgrees(c.up, Take(c.agent, c.down[0], succeeds).1, from, FlightOf(s.o.commands, i), st);
    }
  }

  lemma OtherSettles(s: Sys, a: Action, i: InstanceId, from: nat, st: Status)
    requires SysValid(s) && Enabled(s, a) && (a.AgentActs? || (a.AgentTakes? && a.i != i)) && Settling(s, i, from, st)
    ensures Settling(Next(s, a), i, from, st)
  {
    hide OrchValid, Take, Locally, AcksAgree, MarkAcks, Believed;
  }

  lemma ElsewhereSettles(s: Sys, j: InstanceId, valid: bool, now: Time, i: InstanceId, from: nat, st: Status)
    requires SysValid(s) && Enabled(s, Deliver(j, valid, now)) && i != j && Settling(s, i, from, st)
    requires OverridesRecorded(s.o.fleet)
    ensures Settling(Next(s, Deliver(j, valid, now)), i, from, st)
  {
    hide DeskValid, StreamValid, Nested, AgentsValid, Receive, AcksAgree, MarkAcks, Believed, OverridesRecorded;
    DeliveredElsewhere(s, j, valid, now, i);
    ReceiveOverridesOther(s.o, j, s.conns[j].up[0], valid, now, i);
  }

  lemma TailAgrees(up: seq<Up>, from: nat, flight: InFlight, flight': InFlight, st: Status)
    requires up != [] && AcksAgree(up, from, flight, st) && MarkAcks(up, from, flight, st)
    requires forall k :: k in flight' ==> k in flight && flight'[k] == flight[k]
    ensures var left := if from > 0 then from - 1 else 0;
      AcksAgree(up[1..], left, flight', st) && MarkAcks(up[1..], left, flight', st)
  {
  }

  /** An ack that does not end the connection settles its command. */
  lemma AckIsReceived(s: Sys, i: InstanceId, valid: bool, now: Time)
    requires SysValid(s) && Enabled(s, Deliver(i, valid, now)) && s.conns[i].up[0].Ack?
    requires i in s.o.links && i in Next(s, Deliver(i, valid, now)).o.links
    ensures var f, o' := s.conns[i].up[0], Next(s, Deliver(i, valid, now)).o;
      && f.cmdId in FlightOf(s.o.commands, i)
      && var target := TargetOf(FlightOf(s.o.commands, i)[f.cmdId].op);
        && RecordOf(o'.fleet, i) == RecordOf(s.o.fleet, i)
        && OverrideOf(o'.fleet, i)
          == if f.ok && target.Some? && RecordOf(s.o.fleet, i).Some? then target else OverrideOf(s.o.fleet, i)
  {
    hide DeskValid, StreamValid, Nested, AgentsValid, ReceiveAck;
    var f := s.conns[i].up[0];
    AckOwn(s.o, i, f.cmdId, f.ok, f.already);
    AckOverrides(s.o, i, f.cmdId, f.ok, f.already);
  }

  /** An ack of its own: at the mark it settles what is believed, behind it nothing disagrees. */
  lemma AckSettles(s: Sys, i: InstanceId, valid: bool, now: Time, from: nat, st: Status)
    requires SysValid(s) && Enabled(s, Deliver(i, valid, now)) && s.conns[i].up[0].Ack?
    requires Settling(s, i, from, st) && OverridesRecorded(s.o.fleet)
    requires i in s.o.links && i in Next(s, Deliver(i, valid, now)).o.links && from <= 1
    ensures var f := Next(s, Deliver(i, valid, now)).o.fleet; Believed(OverrideOf(f, i), RecordOf(f, i), st)
  {
    hide SysValid, Next;
    AckIsReceived(s, i, valid, now);
  }

  /** A reply behind the mark shows the status, so what is believed stays true. */
  lemma StateSettles(s: Sys, i: InstanceId, valid: bool, now: Time, st: Status)
    requires SysValid(s) && Enabled(s, Deliver(i, valid, now)) && s.conns[i].up[0].State?
    requires LinkInv(s, i) && DedupInv(s, i) && Settling(s, i, 0, st) && i in s.o.links
    requires s.conns[i].up[0].snapshot.content.status == st
    ensures var f := Next(s, Deliver(i, valid, now)).o.fleet; Believed(OverrideOf(f, i), RecordOf(f, i), st)
  {
    hide DeskValid, StreamValid, Nested, AgentsValid, ReceiveState, DedupInv, OneToken, AllKnown, Ids;
    var f := s.conns[i].up[0];
    RestOfState(s.conns[i]);
    OutstandingMatches(s, i);
    ReplyConsumed(s, i, valid, now);
    StateIsReceived(s.o, i, f, valid, now);
    StateOverrides(s.o, i, f.reqId, f.full, f.snapshot, valid, now);
  }

  lemma OutstandingMatches(s: Sys, i: InstanceId)
    requires SysValid(s) && i in s.conns && i in s.o.links && LinkInv(s, i)
    requires s.conns[i].up != [] && s.conns[i].up[0].State?
    ensures Replied(s.o.polls, i, s.conns[i].up[0].reqId).1
  {
    hide OrchValid, AgentsValid, AllKnown;
    RestOfState(s.conns[i]);
  }

  lemma HereSettles(s: Sys, i: InstanceId, valid: bool, now: Time, from: nat, st: Status)
    requires SysValid(s) && Enabled(s, Deliver(i, valid, now)) && LinkInv(s, i) && DedupInv(s, i)
    requires Settling(s, i, from, st) && OverridesRecorded(s.o.fleet) && Trailing(s.conns[i].up, from, Says(st))
    ensures Settling(Next(s, Deliver(i, valid, now)), i, if from > 0 then from - 1 else 0, st)
  {
    hide SysValid, Next, LinkInv, DedupInv, Believed, AcksAgree;
    var s' := Next(s, Deliver(i, valid, now));
    if i !in s.o.links {
      StaysOut(s, i, valid, now);
      NextConns(s, i, valid, now);
    } else {
      DeliveredHere(s, i, valid, now);
      if i in s'.o.links {
        TailAgrees(s.conns[i].up, from, FlightOf(s.o.commands, i), FlightOf(s'.o.commands, i), st);
        if s.conns[i].up[0].State? {
          if from == 0 {
            StateSettles(s, i, valid, now, st);
          }
        } else if from <= 1 {
          AckSettles(s, i, valid, now, from, st);
        }
      }
    }
  }

  lemma NextConns(s: Sys, i: InstanceId, valid: bool, now: Time)
    requires SysValid(s) && Enabled(s, Deliver(i, valid, now))
    ensures i in Next(s, Deliver(i, valid, now)).conns
  {
    hide OrchValid, AgentsValid;
  }

  /** Content that shows the status. */
  function Says(st: Status): Content -> bool {
    (c: Content) => c.status == st
  }

  lemma NextSettles(s: Sys, a: Action, i: InstanceId, from: nat, st: Status)
    requires SysValid(s) && Enabled(s, a) && LinkInv(s, i) && DedupInv(s, i) && OpsInv(s, i)
    requires Settling(s, i, from, st) && OverridesRecorded(s.o.fleet) && Trailing(s.conns[i].up, from, Says(st))
    requires Undisputed(s, a, i, st)
    ensures Settling(Next(s, a), i, Closer(from, a, i), st)
  {
    hide SysValid, Next, LinkInv, DedupInv, OpsInv, Settling, OverridesRecorded, Trailing;
    match a
    case Connect(j, agent, open) => ConnectSettles(s, j, agent, open, i, from, st);
    case Handle(input, open, now) => HandleSettles(s, input, open, now, i, from, st);
    case Deliver(j, valid, now) =>
      if i == j {
        HereSettles(s, i, valid, now, from, st);
      } else {
        ElsewhereSettles(s, j, valid, now, i, from, st);
      }
    case AgentTakes(j, succeeds, sends) =>
      if i == j {
        TakeSettles(s, i, succeeds, sends, from, st);
      } else {
        OtherSettles(s, a, i, from, st);
      }
    case AgentActs(_, _) => OtherSettles(s, a, i, from, st);
  }

  // ----- runs -----

  ghost predicate NeverDisputed(s: Sys, actions: seq<Action>, i: InstanceId, st: Status)
    requires SysValid(s) && Possible(s, actions)
    decreases actions
  {
    actions == []
    || (Undisputed(s, actions[0], i, st)
        && (NextValid(s, actions[0]); NeverDisputed(Next(s, actions[0]), actions[1..], i, st)))
  }

  ghost predicate HasStatus(s: Sys, i: InstanceId, st: Status) {
    i in s.conns && s.conns[i].agent.status == st
  }

  lemma StatusStays(s: Sys, a: Action, i: InstanceId, st: Status)
    requires SysValid(s) && Enabled(s, a) && HasStatus(s, i, st) && Undisputed(s, a, i, st)
    ensures HasStatus(Next(s, a), i, st)
  {
    hide OrchValid, Next, Take;
    ConnMoves(s, a, i);
    if a.AgentTakes? && a.i == i {
      TakenStatus(s.conns[i].agent, s.conns[i].down[0], a.succeeds, st);
    }
  }

  lemma TakenStatus(a: Agent, f: Down, succeeds: bool, st: Status)
    requires AgentValid(a) && a.status == st && (f.Cmd? ==> Agrees(f.op, st))
    ensures Take(a, f, succeeds).0.status == st
  {
    hide Take;
    match f
    case Hello => GreetingTaken(a, succeeds);
    case Poll(reqId, knownHash, status) => PollTakenShows(a, reqId, knownHash, status, succeeds);
    case Cmd(k, op) =>
      match op
      case Create(id, roomType) => CreateTaken(a, k, id, roomType, succeeds);
      case Destroy(id) => DestroyTaken(a, k, id, succeeds);
      case Drain => StatusTaken(a, k, true, succeeds);
      case Undrain => StatusTaken(a, k, false, succeeds);
  }

  lemma StatusSaid(s: Sys, i: InstanceId, st: Status)
    requires SysValid(s) && HasStatus(s, i, st)
    ensures Says(st)(BuildContent(s.conns[i].agent))
  {
    hide OrchValid;
    ContentShows(s.conns[i].agent);
  }

  lemma {:induction false} StatusThroughout(s: Sys, actions: seq<Action>, i: InstanceId, st: Status)
    requires SysValid(s) && Possible(s, actions) && HasStatus(s, i, st) && NeverDisputed(s, actions, i, st)
    ensures Throughout(s, actions, i, Says(st))
    decreases actions
  {
    hide SysValid, Enabled, Next, Undisputed, BuildContent, Says;
    StatusSaid(s, i, st);
    SaidIsConnected(s, i, st);
    if actions != [] {
      NextValid(s, actions[0]);
      StatusStays(s, actions[0], i, st);
      StatusThroughout(Next(s, actions[0]), actions[1..], i, st);
    }
  }

  lemma SaidIsConnected(s: Sys, i: InstanceId, st: Status)
    requires HasStatus(s, i, st)
    ensures i in s.conns
  {
  }

  lemma {:induction false} RunSettles(s: Sys, actions: seq<Action>, i: InstanceId, from: nat, st: Status)
    requires SysValid(s) && Possible(s, actions) && LinksInv(s) && AllDedup(s) && OpsInv(s, i)
    requires OverridesRecorded(s.o.fleet) && HasStatus(s, i, st) && NeverDisputed(s, actions, i, st)
    requires Settling(s, i, from, st) && Trailing(s.conns[i].up, from, Says(st))
    ensures Settling(Reached(s, actions), i, Ahead(from, actions, i), st)
    decreases actions
  {
    hide SysValid, Enabled, Next, Undisputed, Says, Settling, OpsInv, LinkInv, DedupInv, Trailing, OverridesRecorded;
    if actions != [] {
      var a := actions[0];
      assert LinkInv(s, i) && DedupInv(s, i);
      NextValid(s, a);
      NextLinks(s, a);
      NextDedup(s, a);
      NextOps(s, a, i);
      NextOverrides(s, a);
      NextSettles(s, a, i, from, st);
      StatusSaid(s, i, st);
      TrailingStep(s, a, i, from, Says(st));
      StatusStays(s, a, i, st);
      RunSettles(Next(s, a), actions[1..], i, Closer(from, a, i), st);
    }
  }

  // ----- what a status command achieves -----

  function CommandFor(st: Status): Op {
    if st == Draining then Drain else Undrain
  }

  lemma MarkAgrees(up: seq<Up>, k: nat, flight: InFlight, st: Status)
    requires k in flight ==> flight[k].op == CommandFor(st)
    ensures var queue := up + [Ack(k, true, false)];
      AcksAgree(queue, |queue|, flight, st) && MarkAcks(queue, |queue|, flight, st)
  {
  }

  lemma MarkSettles(taken: Sys, i: InstanceId, k: nat, st: Status, succeeds: bool, mark: Sys)
    requires SysValid(taken) && OpsInv(taken, i) && TakesCommand(taken, i, k, CommandFor(st), succeeds, mark)
    ensures i in taken.conns && i in mark.conns && mark.conns[i].up == taken.conns[i].up + [Ack(k, true, false)]
    ensures HasStatus(mark, i, st) && Settling(mark, i, |mark.conns[i].up|, st)
  {
    hide OrchValid, Take, Believed, SameOps, AcksAgree, MarkAcks;
    var c := taken.conns[i];
    StatusTaken(c.agent, k, st == Draining, succeeds);
    if i in taken.o.links {
      OldestSame(c.down, FlightOf(taken.o.commands, i));
      MarkAgrees(c.up, k, FlightOf(taken.o.commands, i), st);
    }
  }

  /** What holds when the ack has been sent. */
  lemma AtMark(before: seq<Action>, taken: Sys, i: InstanceId, k: nat, st: Status, succeeds: bool, mark: Sys)
    requires Leads(Beginning(), before, taken) && TakesCommand(taken, i, k, CommandFor(st), succeeds, mark)
    ensures SysValid(mark) && LinksInv(mark) && AllDedup(mark) && OpsInv(mark, i) && OverridesRecorded(mark.o.fleet)
    ensures i in taken.conns && i in mark.conns && mark.conns[i].up == taken.conns[i].up + [Ack(k, true, false)]
    ensures HasStatus(mark, i, st) && Settling(mark, i, |mark.conns[i].up|, st)
  {
    hide Possible, Reached, SysValid, Enabled, Next, OpsInv, OverridesRecorded, HasStatus, Settling;
    StartAgrees(i);
    AtAnswer(before, taken, i, k, CommandFor(st), succeeds, mark);
    RunLinks(Beginning(), before);
    RunOps(Beginning(), before, i);
    MarkSettles(taken, i, k, st, succeeds, mark);
    var a := AgentTakes(i, succeeds, true);
    assert LinkInv(taken, i);
    NextOps(taken, a, i);
    NextOverrides(taken, a);
  }

  lemma StartAgrees(i: InstanceId)
    ensures OpsInv(Beginning(), i) && OverridesRecorded(Beginning().o.fleet)
  {
  }

  /** A run from the mark on in which the status is not disputed, and at whose end the ack has been consumed. */
  ghost predicate Acked(mark: Sys, actions: seq<Action>, s: Sys, i: InstanceId, st: Status)
    requires SysValid(mark)
  {
    && Leads(mark, actions, s) && NeverDisputed(mark, actions, i, st)
    && i in mark.conns && Ahead(|mark.conns[i].up|, actions, i) == 0 && i in s.o.links
  }

  /**
   * A drain or undrain that the agent took is acked, and once the ack is consumed, the orchestrator takes the instance
   * to have that status, until game code or another command asks for the other one.
   */
  lemma StatusIsBelieved(before: seq<Action>, taken: Sys, i: InstanceId, k: nat, st: Status, succeeds: bool,
                         mark: Sys, actions: seq<Action>, s: Sys)
    requires Leads(Beginning(), before, taken) && TakesCommand(taken, i, k, CommandFor(st), succeeds, mark)
    requires SysValid(mark) && Acked(mark, actions, s, i, st)
    ensures i in taken.conns && mark.conns[i].up == taken.conns[i].up + [Ack(k, true, false)]
    ensures var f := s.o.fleet;
      i in f.rows.records ==> (if i in f.pendingStatus then f.pendingStatus[i] else f.rows.records[i].info.status) == st
  {
    hide Possible, Reached, SysValid, Enabled, Next, Says, OpsInv, OverridesRecorded, AcksAgree, MarkAcks, Trailing,
      TakesCommand;
    AtMark(before, taken, i, k, st, succeeds, mark);
    NothingTrails(mark.conns[i].up, Says(st));
    RunSettles(mark, actions, i, |mark.conns[i].up|, st);
  }

  /** The next snapshot that is consumed shows the status, in the reply and in the row. */
  lemma StatusIsReported(before: seq<Action>, taken: Sys, i: InstanceId, k: nat, st: Status, succeeds: bool,
                         mark: Sys, actions: seq<Action>, s: Sys, valid: bool, now: Time, f: Up, s': Sys)
    requires Leads(Beginning(), before, taken) && TakesCommand(taken, i, k, CommandFor(st), succeeds, mark)
    requires SysValid(mark) && Acked(mark, actions, s, i, st) && Consumes(s, i, valid, now, f, s')
    ensures f.snapshot.content.status == st
    ensures !f.full || valid ==> i in s'.o.fleet.rows.records && s'.o.fleet.rows.records[i].info.status == st
  {
    hide Possible, Reached, SysValid, Enabled, Next, OpsInv, OverridesRecorded, TakesCommand, Settling;
    AtMark(before, taken, i, k, st, succeeds, mark);
    StatusThroughout(mark, actions, i, st);
    ReplyAfterMark(mark, actions, s, i, Says(st), valid, now, f, s');
  }

  /** Placement that is not pinned never asks a draining instance to create a room. */
  lemma DrainingIsLeftOut(o: Orch, roomId: Option<Text>, draws: seq<Text>, request: Request, random: real,
                          open: set<InstanceId>, i: InstanceId)
    requires OrchValid(o) && Sensible(CreateAsked(roomId, draws, request, random))
    requires request.instanceId.None? && request.processUid.None?
    requires i in o.fleet.rows.records ==>
      (if i in o.fleet.pendingStatus then o.fleet.pendingStatus[i] else o.fleet.rows.records[i].info.status) == Draining
    ensures FramesTo(CreateRoom(o, roomId, draws, request, random, open).sent, i) == []
  {
    hide DeskValid, StreamValid, Nested, CreateSent, Taken, HasHeadroom, MatchesLabels;
    CreateRoomIs(o, roomId, draws, request, random, open);
    var target := CreateTarget(o.fleet, roomId, draws, request, random);
    if target.Some? {
      var f := o.fleet.(holds := Reservations.ReserveId(o.fleet.holds, target.value.0));
      PlacementIsSound(f, request, random);
    }
  }

  /** While its drain holds, no room is placed on the instance unless the caller pins it there. */
  lemma DrainedIsLeftOut(before: seq<Action>, taken: Sys, i: InstanceId, k: nat, succeeds: bool, mark: Sys,
                         actions: seq<Action>, s: Sys, roomId: Option<Text>, draws: seq<Text>, request: Request,
                         random: real, open: set<InstanceId>)
    requires Leads(Beginning(), before, taken) && TakesCommand(taken, i, k, Drain, succeeds, mark)
    requires SysValid(mark) && Acked(mark, actions, s, i, Draining)
    requires Sensible(CreateAsked(roomId, draws, request, random))
    requires request.instanceId.None? && request.processUid.None?
    ensures OrchValid(s.o) && FramesTo(CreateRoom(s.o, roomId, draws, request, random, open).sent, i) == []
  {
    hide Possible, Reached, Enabled, Next, OrchValid, TakesCommand, CreateRoom;
    StatusIsBelieved(before, taken, i, k, Draining, succeeds, mark, actions, s);
    DrainingIsLeftOut(s.o, roomId, draws, request, random, open, i);
  }

  /** While its undrain holds, the instance can host whatever its liveness, settings and load allow. */
  lemma UndrainedMayHost(before: seq<Action>, taken: Sys, i: InstanceId, k: nat, succeeds: bool, mark: Sys,
                         actions: seq<Action>, s: Sys, request: Request)
    requires Leads(Beginning(), before, taken) && TakesCommand(taken, i, k, Undrain, succeeds, mark)
    requires SysValid(mark) && Acked(mark, actions, s, i, Active)
    ensures Hosting.CanHost(s.o.fleet, request, i) <==>
      i in s.o.fleet.rows.records && Hosting.CouldHost(s.o.fleet, request, i)
  {
    hide Possible, Reached, SysValid, Enabled, Next, TakesCommand, Hosting.CouldHost;
    StatusIsBelieved(before, taken, i, k, Active, succeeds, mark, actions, s);
  }
}
