/** Over whole runs: an honest agent is kicked only for an ack whose command had timed out. */
module SystemLinks {
  import opened Prelude
  import opened Ordered
  import opened FleetTypes
  import opened Commands
  import opened FleetModel
  import opened Polling
  import opened Orchestration
  import opened OrchestrationLaws
  import opened Agents
  import opened FleetSystem
  import opened Sides

  // ----- what is under way -----

  function PollIds(down: seq<Down>): seq<nat> {
    if down == [] then []
    else if down[0].Poll? then [down[0].reqId] + PollIds(down[1..])
    else PollIds(down[1..])
  }

  function CmdIds(down: seq<Down>): seq<nat> {
    if down == [] then []
    else if down[0].Cmd? then [down[0].cmdId] + CmdIds(down[1..])
    else CmdIds(down[1..])
  }

  function StateIds(up: seq<Up>): seq<nat> {
    if up == [] then []
    else if up[0].State? then [up[0].reqId] + StateIds(up[1..])
    else StateIds(up[1..])
  }

  function AckIds(up: seq<Up>): seq<nat> {
    if up == [] then []
    else if up[0].Ack? then [up[0].cmdId] + AckIds(up[1..])
    else AckIds(up[1..])
  }

  lemma {:induction false} PollIdsSplit(a: seq<Down>, b: seq<Down>)
    ensures PollIds(a + b) == PollIds(a) + PollIds(b)
  {
    if a == [] {
      assert a + b == b;
    } else {
      assert (a + b)[1..] == a[1..] + b && (a + b)[0] == a[0];
      PollIdsSplit(a[1..], b);
    }
  }

  lemma {:induction false} CmdIdsSplit(a: seq<Down>, b: seq<Down>)
    ensures CmdIds(a + b) == CmdIds(a) + CmdIds(b)
  {
    if a == [] {
      assert a + b == b;
    } else {
      assert (a + b)[1..] == a[1..] + b && (a + b)[0] == a[0];
      CmdIdsSplit(a[1..], b);
    }
  }

  lemma {:induction false} StateIdsSplit(a: seq<Up>, b: seq<Up>)
    ensures StateIds(a + b) == StateIds(a) + StateIds(b)
  {
    if a == [] {
      assert a + b == b;
    } else {
      assert (a + b)[1..] == a[1..] + b && (a + b)[0] == a[0];
      StateIdsSplit(a[1..], b);
    }
  }

  lemma {:induction false} AckIdsSplit(a: seq<Up>, b: seq<Up>)
    ensures AckIds(a + b) == AckIds(a) + AckIds(b)
  {
    if a == [] {
      assert a + b == b;
    } else {
      assert (a + b)[1..] == a[1..] + b && (a + b)[0] == a[0];
      AckIdsSplit(a[1..], b);
    }
  }

  /** Polls and replies under way. */
  function Tokens(c: Conn): seq<nat> {
    StateIds(c.up) + PollIds(c.down)
  }

  /** Commands and acks under way. */
  function Ids(c: Conn): seq<nat> {
    AckIds(c.up) + CmdIds(c.down)
  }

  // ----- the invariant of one connection -----

  /** At most one poll or reply is under way, and it carries the outstanding request. */
  ghost predicate OneToken(outstanding: Option<nat>, tokens: seq<nat>) {
    |tokens| <= 1 && (tokens != [] ==> outstanding == Some(tokens[0]))
  }

  /** Commands and acks under way are all different, and pending unless they timed out. */
  ghost predicate AllKnown(flight: InFlight, i: InstanceId, ids: seq<nat>, late: set<(InstanceId, nat)>, cmdSeq: nat) {
    Distinct(ids) && forall k | k in KeySet(ids) :: k <= cmdSeq && (k in flight || (i, k) in late)
  }

  ghost predicate LinkInv(s: Sys, i: InstanceId) {
    i in s.o.links && i in s.conns ==>
      && OneToken(OutstandingOf(s.o.polls, i), Tokens(s.conns[i]))
      && AllKnown(FlightOf(s.o.commands, i), i, Ids(s.conns[i]), s.late, s.o.commands.cmdSeq)
  }

  ghost predicate LinksInv(s: Sys) {
    forall i :: LinkInv(s, i)
  }

  // ----- one step -----

  /** Queues that only gain frames for a changed side. */
  lemma HandleLinks(s: Sys, input: Input, open: set<InstanceId>, now: Time, i: InstanceId)
    requires SysValid(s) && Enabled(s, Handle(input, open, now)) && LinkInv(s, i)
    ensures LinkInv(Next(s, Handle(input, open, now)), i)
  {
    var e := Step(s.o, input, open, now);
    var s' := Next(s, Handle(input, open, now));
    if i in s'.o.links && i in s'.conns {
      StepSteady(s.o, input, open, now);
      StepValid(s.o, input, open, now);
      PostedKeeps(s.conns, e.sent);
      PostedTo(s.conns, e.sent, i);
      StepSides(s.o, input, open, now, i);
      ChangedLinks(s, s', e, input, i);
    }
  }

  lemma ChangedLinks(s: Sys, s': Sys, e: Effects, input: Input, i: InstanceId)
    requires i in s.o.links && i in s.conns && i in s'.conns && LinkInv(s, i) && Changes(s.o, e, input, i)
      && i in e.orch.links
    requires s'.o == e.orch && s'.conns[i] == s.conns[i].(down := s.conns[i].down + FramesTo(e.sent, i))
    requires s'.late == s.late + NewlyLate(s.o, input) && s'.o.commands.cmdSeq >= s.o.commands.cmdSeq
    requires forall k | k in FlightOf(s'.o.commands, i) :: k <= s'.o.commands.cmdSeq
    ensures LinkInv(s', i)
  {
    var c, c', frames := s.conns[i], s'.conns[i], FramesTo(e.sent, i);
    var b, a := SideOf(s.o, i), SideOf(e.orch, i);
    if frames == [] {
      assert c'.down == c.down;
    } else {
      assert frames == [frames[0]];
      if frames[0].Poll? {
        PolledTokens(c, frames[0]);
      } else {
        CommandedIds(c, frames[0]);
        NewIdFits(b.flight, a.flight, i, Ids(c), s'.late, s.o.commands.cmdSeq, s'.o.commands.cmdSeq, frames[0].cmdId);
      }
    }
  }

  lemma PolledTokens(c: Conn, f: Down)
    requires f.Poll?
    ensures var c' := c.(down := c.down + [f]); Tokens(c') == Tokens(c) + [f.reqId] && Ids(c') == Ids(c)
  {
    PollIdsSplit(c.down, [f]);
    CmdIdsSplit(c.down, [f]);
    assert [f][1..] == [];
    assert StateIds(c.up) + (PollIds(c.down) + [f.reqId]) == Tokens(c) + [f.reqId];
  }

  lemma CommandedIds(c: Conn, f: Down)
    requires f.Cmd?
    ensures var c' := c.(down := c.down + [f]); Tokens(c') == Tokens(c) && Ids(c') == Ids(c) + [f.cmdId]
  {
    PollIdsSplit(c.down, [f]);
    CmdIdsSplit(c.down, [f]);
    assert [f][1..] == [];
    assert AckIds(c.up) + (CmdIds(c.down) + [f.cmdId]) == Ids(c) + [f.cmdId];
  }

  lemma NewIdFits(flight: InFlight, flight': InFlight, i: InstanceId, ids: seq<nat>, late: set<(InstanceId, nat)>,
                  cmdSeq: nat, cmdSeq': nat, k: nat)
    requires cmdSeq < k <= cmdSeq' && k in flight' && flight.Keys <= flight'.Keys
    requires Distinct(ids) && forall j | j in KeySet(ids) :: j <= cmdSeq && (j in flight || (i, j) in late)
    ensures AllKnown(flight', i, ids + [k], late, cmdSeq')
  {
    DistinctSplits(ids, [k]);
    KeySetSplits(ids, [k]);
  }

  // ----- a connection opens -----

  /** Nothing but the first poll is under way. */
  lemma GreetedKnown(c: Conn, outstanding: Option<nat>, flight: InFlight, i: InstanceId, late: set<(InstanceId, nat)>,
                     cmdSeq: nat)
    requires c.up == [] && CmdIds(c.down) == []
    requires PollIds(c.down) == [] || (outstanding.Some? && PollIds(c.down) == [outstanding.value])
    ensures OneToken(outstanding, Tokens(c)) && AllKnown(flight, i, Ids(c), late, cmdSeq)
  {
  }

  lemma ConnectLinks(s: Sys, j: InstanceId, agent: Agent, open: set<InstanceId>, i: InstanceId)
    requires SysValid(s) && Enabled(s, Connect(j, agent, open)) && LinkInv(s, i)
    ensures LinkInv(Next(s, Connect(j, agent, open)), i)
  {
    hide OrchValid, AgentsValid, Join, Started, PollFrame, OneToken, AllKnown, Tokens, Ids;
    var e := Join(s.o, j, open);
    var conns := s.conns[j := Conn(agent, [], [])];
    PostedKeeps(conns, e.sent);
    if i in conns {
      PostedTo(conns, e.sent, i);
      JoinFrames(s.o, j, open, i);
      var c := Next(s, Connect(j, agent, open)).conns[i];
      if i == j {
        assert c.up == [] && c.down == FramesTo(e.sent, i);
        GreetedKnown(c, OutstandingOf(e.orch.polls, i), FlightOf(e.orch.commands, i), i, s.late,
          e.orch.commands.cmdSeq);
      } else {
        assert c.down == s.conns[i].down + [] == s.conns[i].down;
        assert SideOf(e.orch, i).flight == SideOf(s.o, i).flight;
        assert SideOf(e.orch, i).outstanding == SideOf(s.o, i).outstanding;
        assert SideOf(e.orch, i).linked == SideOf(s.o, i).linked;
      }
    }
  }

  /** A join greets, polls at once with a request of its own, and tells no one else. */
  lemma JoinFrames(o: Orch, j: InstanceId, open: set<InstanceId>, i: InstanceId)
    ensures var e := Join(o, j, open);
      && (i != j ==> FramesTo(e.sent, i) == [] && SideOf(e.orch, i) == SideOf(o, i))
      && e.orch.commands == o.commands
      && (j in open ==>
        && FramesTo(e.sent, j) == [Hello, PollFrame(o.fleet, j, o.polls.reqSeq + 1, true)]
        && OutstandingOf(e.orch.polls, j) == Some(o.polls.reqSeq + 1)
        && PollIds(FramesTo(e.sent, j)) == [o.polls.reqSeq + 1] && CmdIds(FramesTo(e.sent, j)) == [])
      && (j !in open ==> FramesTo(e.sent, j) == [])
  {
    if j in open {
      var f := PollFrame(o.fleet, j, o.polls.reqSeq + 1, true);
      FramesToTwo(j, Hello, f, i);
      FramesToTwo(j, Hello, f, j);
      assert Join(o, j, open).sent == [(j, Hello)] + [(j, f)];
      assert [Hello, f] == [Hello] + [f];
      PollIdsSplit([Hello], [f]);
      CmdIdsSplit([Hello], [f]);
    }
  }

  /** The first poll asks for everything. */
  lemma FrameIs(f: Fleet, i: InstanceId, r: nat)
    ensures var p := PollFrame(f, i, r, true); p.Poll? && p.reqId == r && p.knownHash == None
  {
  }

  lemma FramesToTwo(j: InstanceId, f: Down, g: Down, i: InstanceId)
    ensures FramesTo([(j, f)] + [(j, g)], i) == if i == j then [f, g] else []
  {
    var sent: seq<(InstanceId, Down)> := [(j, f)] + [(j, g)];
    assert sent[0] == (j, f) && sent[1..] == [(j, g)];
    assert FramesTo([(j, g)], i) == if i == j then [g] else [];
  }

  // ----- the agent takes a frame -----

  lemma TakeLinks(s: Sys, j: InstanceId, succeeds: bool, sends: bool, i: InstanceId)
    requires SysValid(s) && Enabled(s, AgentTakes(j, succeeds, sends)) && LinkInv(s, i)
    ensures LinkInv(Next(s, AgentTakes(j, succeeds, sends)), i)
  {
    if i == j && i in s.o.links {
      TakenLinks(s.conns[i], succeeds, sends, OutstandingOf(s.o.polls, i), FlightOf(s.o.commands, i), i, s.late,
        s.o.commands.cmdSeq);
    }
  }

  /** An answer takes the place of what it answers; a lost one leaves a gap. */
  lemma TakenLinks(c: Conn, succeeds: bool, sends: bool, outstanding: Option<nat>, flight: InFlight, i: InstanceId,
                   late: set<(InstanceId, nat)>, cmdSeq: nat)
    requires c.down != [] && AgentValid(c.agent)
    requires OneToken(outstanding, Tokens(c)) && AllKnown(flight, i, Ids(c), late, cmdSeq)
    ensures var answer := Take(c.agent, c.down[0], succeeds).1;
      var c' := Conn(Take(c.agent, c.down[0], succeeds).0, c.down[1..], c.up + if sends then answer else []);
      OneToken(outstanding, Tokens(c')) && AllKnown(flight, i, Ids(c'), late, cmdSeq)
  {
    var f, answer := c.down[0], Take(c.agent, c.down[0], succeeds).1;
    var added := if sends then answer else [];
    match f
    case Hello =>
      assert c.up + [] == c.up;
    case Poll(reqId, _, _) => PollTaken(c, added, reqId);
    case Cmd(k, op) => CmdTaken(c, added, k);
  }

  lemma PollTaken(c: Conn, added: seq<Up>, reqId: nat)
    requires c.down != [] && c.down[0].Poll? && c.down[0].reqId == reqId && |Tokens(c)| <= 1
    requires added == [] || (|added| == 1 && added[0].State? && added[0].reqId == reqId)
    ensures Tokens(c) == [reqId]
    ensures StateIds(c.up + added) + PollIds(c.down[1..]) == if added == [] then [] else [reqId]
    ensures AckIds(c.up + added) + CmdIds(c.down[1..]) == Ids(c)
  {
    StateIdsSplit(c.up, added);
    AckIdsSplit(c.up, added);
    assert StateIds(c.up) == [] && PollIds(c.down[1..]) == [];
    assert added == [] || added == [added[0]];
    assert AckIds(c.up) + [] == AckIds(c.up);
  }

  lemma CmdTaken(c: Conn, added: seq<Up>, k: nat)
    requires c.down != [] && c.down[0].Cmd? && c.down[0].cmdId == k
    requires added == [] || (|added| == 1 && added[0].Ack? && added[0].cmdId == k)
    ensures StateIds(c.up + added) + PollIds(c.down[1..]) == Tokens(c)
    ensures var ids := AckIds(c.up + added) + CmdIds(c.down[1..]);
      (Distinct(Ids(c)) ==> Distinct(ids)) && KeySet(ids) <= KeySet(Ids(c))
  {
    StateIdsSplit(c.up, added);
    AckIdsSplit(c.up, added);
    assert added == [] || added == [added[0]];
    assert AckIds(added) == (if added == [] then [] else [k]) && StateIds(added) == [];
    IdsMove(AckIds(c.up), k, CmdIds(c.down[1..]));
    assert StateIds(c.up) + [] == StateIds(c.up);
    assert Ids(c) == AckIds(c.up) + ([k] + CmdIds(c.down[1..]));
  }

  lemma IdsMove(acks: seq<nat>, k: nat, cmds: seq<nat>)
    ensures acks + ([k] + cmds) == (acks + [k]) + cmds
    ensures Distinct(acks + ([k] + cmds)) ==> Distinct(acks + cmds)
    ensures KeySet(acks + ([k] + cmds)) == KeySet(acks + cmds) + {k}
    ensures acks + [] == acks
  {
    DistinctSplits(acks, [k] + cmds);
    DistinctSplits([k], cmds);
    DistinctSplits(acks, cmds);
    KeySetSplits(acks, [k] + cmds);
    KeySetSplits([k], cmds);
    KeySetSplits(acks, cmds);
  }

  // ----- the orchestrator receives -----

  lemma DeliverOther(s: Sys, j: InstanceId, valid: bool, now: Time, i: InstanceId)
    requires SysValid(s) && Enabled(s, Deliver(j, valid, now)) && LinkInv(s, i) && i != j
    ensures LinkInv(Next(s, Deliver(j, valid, now)), i)
  {
    var s' := Next(s, Deliver(j, valid, now));
    ReceiveSteady(s.o, j, s.conns[j].up[0], valid, now);
    ReceiveOther(s.o, j, s.conns[j].up[0], valid, now, i);
    var b, a := SideOf(s.o, i), SideOf(s'.o, i);
    assert a.linked == b.linked && a.outstanding == b.outstanding && a.flight == b.flight;
  }

  lemma RestOfState(c: Conn)
    requires c.up != [] && c.up[0].State?
    ensures var c' := c.(up := c.up[1..]); Tokens(c) == [c.up[0].reqId] + Tokens(c') && Ids(c') == Ids(c)
  {
  }

  lemma RestOfAck(c: Conn)
    requires c.up != [] && c.up[0].Ack?
    ensures var c' := c.(up := c.up[1..]); Ids(c) == [c.up[0].cmdId] + Ids(c') && Tokens(c') == Tokens(c)
  {
  }

  lemma StateTakes(o: Orch, i: InstanceId, f: Up, valid: bool, now: Time)
    requires OrchValid(o) && i in o.links && f.State? && OutstandingOf(o.polls, i) == Some(f.reqId)
    ensures var o' := Receive(o, i, f, valid, now).orch;
      FlightOf(o'.commands, i) == FlightOf(o.commands, i) && o.commands.cmdSeq <= o'.commands.cmdSeq
  {
    hide DeskValid, StreamValid, Nested, Teardown;
    StateOwn(o, i, f.reqId, f.full, f.snapshot, valid, now);
    ReceiveSteady(o, i, f, valid, now);
    assert SideOf(Receive(o, i, f, valid, now).orch, i).flight == SideOf(o, i).flight;
  }

  lemma KnownLater(flight: InFlight, i: InstanceId, ids: seq<nat>, late: set<(InstanceId, nat)>, cmdSeq: nat,
                   cmdSeq': nat)
    requires AllKnown(flight, i, ids, late, cmdSeq) && cmdSeq <= cmdSeq'
    ensures AllKnown(flight, i, ids, late, cmdSeq')
  {
  }

  lemma DeliverState(s: Sys, valid: bool, now: Time, i: InstanceId)
    requires SysValid(s) && Enabled(s, Deliver(i, valid, now)) && LinkInv(s, i) && s.conns[i].up[0].State?
    ensures LinkInv(Next(s, Deliver(i, valid, now)), i)
  {
    if i in s.o.links {
      hide AgentsValid, OrchValid, Receive, Ids, Tokens, AllKnown;
      RestOfState(s.conns[i]);
      StateTakes(s.o, i, s.conns[i].up[0], valid, now);
      KnownLater(FlightOf(s.o.commands, i), i, Ids(s.conns[i]), s.late, s.o.commands.cmdSeq,
        Next(s, Deliver(i, valid, now)).o.commands.cmdSeq);
    }
  }

  /** The oldest ack settles its command, and the others are still known. */
  lemma RestKnown(c: Conn, flight: InFlight, i: InstanceId, late: set<(InstanceId, nat)>, cmdSeq: nat, cmdSeq': nat)
    requires c.up != [] && c.up[0].Ack? && AllKnown(flight, i, Ids(c), late, cmdSeq) && cmdSeq <= cmdSeq'
    ensures AllKnown(flight - {c.up[0].cmdId}, i, Ids(c.(up := c.up[1..])), late, cmdSeq')
  {
    var ids := Ids(c);
    RestOfAck(c);
    assert ids[0] == c.up[0].cmdId && ids[1..] == Ids(c.(up := c.up[1..]));
    assert ids[0] !in KeySet(ids[1..]) && KeySet(ids) == {ids[0]} + KeySet(ids[1..]);
  }

  lemma AckTakes(o: Orch, i: InstanceId, f: Up, valid: bool, now: Time)
    requires OrchValid(o) && i in o.links && f.Ack?
    ensures var o' := Receive(o, i, f, valid, now).orch;
      && (i in o'.links ==> FlightOf(o'.commands, i) == FlightOf(o.commands, i) - {f.cmdId})
      && (i in o'.links ==> OutstandingOf(o'.polls, i) == OutstandingOf(o.polls, i))
      && o.commands.cmdSeq <= o'.commands.cmdSeq
  {
    hide DeskValid, StreamValid, Nested, Teardown;
    AckOwn(o, i, f.cmdId, f.ok, f.already);
    ReceiveSteady(o, i, f, valid, now);
    hide Acked, DeskOf, ReceiveAck;
    var b, a := SideOf(o, i), SideOf(Receive(o, i, f, valid, now).orch, i);
    assert a.linked ==> a.flight == b.flight - {f.cmdId} && a.outstanding == b.outstanding;
  }

  lemma DeliverAck(s: Sys, valid: bool, now: Time, i: InstanceId)
    requires SysValid(s) && Enabled(s, Deliver(i, valid, now)) && LinkInv(s, i) && s.conns[i].up[0].Ack?
    ensures LinkInv(Next(s, Deliver(i, valid, now)), i)
  {
    if i in s.o.links {
      hide AgentsValid, OrchValid, Receive, Ids, Tokens, OneToken, AllKnown;
      RestOfAck(s.conns[i]);
      AckTakes(s.o, i, s.conns[i].up[0], valid, now);
      RestKnown(s.conns[i], FlightOf(s.o.commands, i), i, s.late, s.o.commands.cmdSeq,
        Next(s, Deliver(i, valid, now)).o.commands.cmdSeq);
    }
  }

  lemma DeliverLinks(s: Sys, j: InstanceId, valid: bool, now: Time, i: InstanceId)
    requires SysValid(s) && Enabled(s, Deliver(j, valid, now)) && LinkInv(s, i)
    ensures LinkInv(Next(s, Deliver(j, valid, now)), i)
  {
    if i != j {
      DeliverOther(s, j, valid, now, i);
    } else if s.conns[i].up[0].State? {
      DeliverState(s, valid, now, i);
    } else {
      DeliverAck(s, valid, now, i);
    }
  }

  // ----- every step, every run -----

  lemma ActLinks(s: Sys, j: InstanceId, local: Local, i: InstanceId)
    requires SysValid(s) && Enabled(s, AgentActs(j, local)) && LinkInv(s, i)
    ensures LinkInv(Next(s, AgentActs(j, local)), i)
  {
  }

  lemma NextLinks(s: Sys, a: Action)
    requires SysValid(s) && Enabled(s, a) && LinksInv(s)
    ensures LinksInv(Next(s, a))
  {
    forall i
      ensures LinkInv(Next(s, a), i)
    {
      assert LinkInv(s, i);
      if a.AgentActs? { ActLinks(s, a.i, a.local, i); }
      hide SysValid, Next, Enabled, LinkInv;
      match a
      case Connect(j, agent, open) => ConnectLinks(s, j, agent, open, i);
      case Handle(input, open, now) => HandleLinks(s, input, open, now, i);
      case Deliver(j, valid, now) => DeliverLinks(s, j, valid, now, i);
      case AgentTakes(j, succeeds, sends) => TakeLinks(s, j, succeeds, sends, i);
      case AgentActs(j, local) =>
    }
  }

  lemma {:induction false} RunLinks(s: Sys, actions: seq<Action>)
    requires SysValid(s) && LinksInv(s) && Possible(s, actions)
    ensures LinksInv(Reached(s, actions))
    decreases actions
  {
    if actions != [] {
      NextValid(s, actions[0]);
      NextLinks(s, actions[0]);
      RunLinks(Next(s, actions[0]), actions[1..]);
    }
  }

  /** In every run, a frame that gets its agent kicked is the ack of a command that had timed out. */
  lemma KickedOnlyForLateAcks(actions: seq<Action>, i: InstanceId, valid: bool, now: Time)
    requires Possible(Beginning(), actions)
    requires var s := Reached(Beginning(), actions);
      && Enabled(s, Deliver(i, valid, now)) && i in s.o.links && i !in Next(s, Deliver(i, valid, now)).o.links
    ensures var s := Reached(Beginning(), actions);
      && s.conns[i].up[0].Ack? && (i, s.conns[i].up[0].cmdId) in s.late
      && s.conns[i].up[0].cmdId !in FlightOf(s.o.commands, i)
  {
    hide Possible, Reached, SysValid;
    RunLinks(Beginning(), actions);
    KickedOnlyForLateAck(Reached(Beginning(), actions), i, valid, now);
  }

  lemma KickedOnlyForLateAck(s: Sys, i: InstanceId, valid: bool, now: Time)
    requires SysValid(s) && LinksInv(s)
    requires Enabled(s, Deliver(i, valid, now)) && i in s.o.links && i !in Next(s, Deliver(i, valid, now)).o.links
    ensures s.conns[i].up[0].Ack? && (i, s.conns[i].up[0].cmdId) in s.late
      && s.conns[i].up[0].cmdId !in FlightOf(s.o.commands, i)
  {
    hide AgentsValid, DeskValid, StreamValid, Nested, Teardown;
    var c := s.conns[i];
    assert LinkInv(s, i);
    match c.up[0]
    case State(reqId, full, snap) =>
      assert Tokens(c)[0] == reqId;
      StateOwn(s.o, i, reqId, full, snap, valid, now);
    case Ack(k, ok, already) =>
      AckOwn(s.o, i, k, ok, already);
      assert Ids(c)[0] == k;
  }

  /** In every run at most one poll or reply is under way on a connection, and it carries the outstanding request. */
  lemma OnePollUnderWay(actions: seq<Action>, i: InstanceId)
    requires Possible(Beginning(), actions) && i in Reached(Beginning(), actions).o.links
    ensures var s := Reached(Beginning(), actions);
      i in s.conns && OneToken(OutstandingOf(s.o.polls, i), Tokens(s.conns[i]))
  {
    RunLinks(Beginning(), actions);
    assert LinkInv(Reached(Beginning(), actions), i);
  }

  /**
   * In every run every ack under way answers a command that is pending, or one that has timed out, and no command is
   * acked twice.
   */
  lemma AcksAreKnown(actions: seq<Action>, i: InstanceId, k: nat)
    requires Possible(Beginning(), actions) && i in Reached(Beginning(), actions).o.links
    requires var s := Reached(Beginning(), actions); i in s.conns && k in KeySet(AckIds(s.conns[i].up))
    ensures var s := Reached(Beginning(), actions);
      && (k in FlightOf(s.o.commands, i) || (i, k) in s.late)
      && k !in KeySet(CmdIds(s.conns[i].down)) && Distinct(AckIds(s.conns[i].up))
  {
    RunLinks(Beginning(), actions);
    var c := Reached(Beginning(), actions).conns[i];
    assert LinkInv(Reached(Beginning(), actions), i);
    DistinctSplits(AckIds(c.up), CmdIds(c.down));
    KeySetSplits(AckIds(c.up), CmdIds(c.down));
  }
}
