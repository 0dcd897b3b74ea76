/** The orchestrator and its agents, joined by one queue down and one queue up per connection. */
module FleetSystem {
  import opened FleetTypes
  import opened Commands
  import opened Orchestration
  import opened OrchestrationLaws
  import opened Agents

  /** The agent's end of a connection, with the frames under way in both directions, oldest first. */
  datatype Conn = Conn(agent: Agent, down: seq<Down>, up: seq<Up>)

  type Conns = map<InstanceId, Conn>

  /** `late` remembers which commands have timed out on which connection. */
  datatype Sys = Sys(o: Orch, conns: Conns, late: set<(InstanceId, nat)>)

  const NEW_SYS: Sys := Sys(NEW_ORCH, map[], {})

  /**
   * What can happen next: an agent connects, the orchestrator runs a handler, a frame arrives at either end,
   * game code acts on an agent's rooms.  `open` are the links that take frames.
   */
  datatype Action =
    | Connect(i: InstanceId, agent: Agent, open: set<InstanceId>)
    | Handle(input: Input, open: set<InstanceId>, now: Time)
    | Deliver(i: InstanceId, valid: bool, now: Time)
    | AgentTakes(i: InstanceId, succeeds: bool, sends: bool)
    | AgentActs(i: InstanceId, local: Local)

  ghost predicate Enabled(s: Sys, a: Action) {
    match a
    case Connect(i, agent, _) => i !in s.conns && AgentValid(agent)
    case Handle(input, _, _) => !input.Joined? && !input.Received? && Sensible(input)
    case Deliver(i, _, _) => i in s.conns && s.conns[i].up != []
    case AgentTakes(i, _, _) => i in s.conns && s.conns[i].down != []
    case AgentActs(i, _) => i in s.conns
  }

  /** Frames handed to links join their queues. */
  function Posted(conns: Conns, sent: seq<(InstanceId, Down)>): Conns
    decreases sent
  {
    if sent == [] then conns
    else
      var (i, f) := sent[0];
      Posted(if i in conns then conns[i := conns[i].(down := conns[i].down + [f])] else conns, sent[1..])
  }

  /** Every agent keeps its own tables in order. */
  ghost predicate AgentsValid(conns: Conns) {
    forall i | i in conns :: AgentValid(conns[i].agent)
  }

  ghost predicate SysValid(s: Sys) {
    && OrchValid(s.o)
    && AgentsValid(s.conns)
    && s.o.links <= s.conns.Keys
  }

  ghost function Next(s: Sys, a: Action): Sys
    requires SysValid(s) && Enabled(s, a)
  {
    match a
    case Connect(i, agent, open) =>
      var e := Join(s.o, i, open);
      s.(o := e.orch, conns := Posted(s.conns[i := Conn(agent, [], [])], e.sent))
    case Handle(input, open, now) =>
      var e := Step(s.o, input, open, now);
      Sys(e.orch, Posted(s.conns, e.sent), s.late + NewlyLate(s.o, input))
    case Deliver(i, valid, now) =>
      var c := s.conns[i];
      s.(o := Receive(s.o, i, c.up[0], valid, now).orch, conns := s.conns[i := c.(up := c.up[1..])])
    case AgentTakes(i, succeeds, sends) =>
      var c := s.conns[i];
      var (agent, answer) := Take(c.agent, c.down[0], succeeds);
      s.(conns := s.conns[i := Conn(agent, c.down[1..], c.up + if sends then answer else [])])
    case AgentActs(i, local) =>
      s.(conns := s.conns[i := s.conns[i].(agent := Locally(s.conns[i].agent, local))])
  }

  function NewlyLate(o: Orch, input: Input): set<(InstanceId, nat)> {
    if input.CommandTimeout? && input.cmdId in FlightOf(o.commands, input.i) then {(input.i, input.cmdId)} else {}
  }

  // ----- links and connections -----

  lemma {:induction false} PostedKeeps(conns: Conns, sent: seq<(InstanceId, Down)>)
    ensures Posted(conns, sent).Keys == conns.Keys
    ensures forall i | i in conns ::
      Posted(conns, sent)[i].agent == conns[i].agent && Posted(conns, sent)[i].up == conns[i].up
    decreases sent
  {
    if sent != [] {
      var (i, f) := sent[0];
      PostedKeeps(if i in conns then conns[i := conns[i].(down := conns[i].down + [f])] else conns, sent[1..]);
    }
  }

  lemma JoinLinks(o: Orch, i: InstanceId, open: set<InstanceId>)
    ensures Join(o, i, open).orch.links == o.links + {i}
  {
  }

  lemma ConnectValid(s: Sys, i: InstanceId, agent: Agent, open: set<InstanceId>)
    requires SysValid(s) && Enabled(s, Connect(i, agent, open))
    ensures SysValid(Next(s, Connect(i, agent, open)))
  {
    hide OrchValid, AgentValid, Join;
    JoinValid(s.o, i, open);
    JoinLinks(s.o, i, open);
    PostedKeeps(s.conns[i := Conn(agent, [], [])], Join(s.o, i, open).sent);
  }

  lemma HandleValid(s: Sys, input: Input, open: set<InstanceId>, now: Time)
    requires SysValid(s) && Enabled(s, Handle(input, open, now))
    ensures SysValid(Next(s, Handle(input, open, now)))
  {
    StepValid(s.o, input, open, now);
    StepSteady(s.o, input, open, now);
    PostedKeeps(s.conns, Step(s.o, input, open, now).sent);
  }

  lemma DeliverValid(s: Sys, i: InstanceId, valid: bool, now: Time)
    requires SysValid(s) && Enabled(s, Deliver(i, valid, now))
    ensures SysValid(Next(s, Deliver(i, valid, now)))
  {
    hide DeskValid, StreamValid, Nested, AgentValid, Receive;
    ReceiveValid(s.o, i, s.conns[i].up[0], valid, now);
    ReceiveSteady(s.o, i, s.conns[i].up[0], valid, now);
  }

  lemma TakesValid(s: Sys, i: InstanceId, succeeds: bool, sends: bool)
    requires SysValid(s) && Enabled(s, AgentTakes(i, succeeds, sends))
    ensures SysValid(Next(s, AgentTakes(i, succeeds, sends)))
  {
    TakeValid(s.conns[i].agent, s.conns[i].down[0], succeeds);
  }

  lemma ActsValid(s: Sys, i: InstanceId, local: Local)
    requires SysValid(s) && Enabled(s, AgentActs(i, local))
    ensures SysValid(Next(s, AgentActs(i, local)))
  {
    hide AgentValid, Locally, OrchValid;
    LocallyValid(s.conns[i].agent, local);
  }

  lemma NextValid(s: Sys, a: Action)
    requires SysValid(s) && Enabled(s, a)
    ensures SysValid(Next(s, a))
  {
    hide SysValid, Enabled, Next;
    match a
    case Connect(i, agent, open) => ConnectValid(s, i, agent, open);
    case Handle(input, open, now) => HandleValid(s, input, open, now);
    case Deliver(i, valid, now) => DeliverValid(s, i, valid, now);
    case AgentTakes(i, succeeds, sends) => TakesValid(s, i, succeeds, sends);
    case AgentActs(i, local) => ActsValid(s, i, local);
  }

  // ----- runs -----

  ghost function Beginning(): (s: Sys)
    ensures SysValid(s) && s == NEW_SYS
  {
    StartValid();
    NEW_SYS
  }

  /** The actions of a run are enabled one after the other. */
  ghost predicate Possible(s: Sys, actions: seq<Action>)
    requires SysValid(s)
    decreases actions
  {
    actions == [] ||
    (Enabled(s, actions[0]) && (NextValid(s, actions[0]); Possible(Next(s, actions[0]), actions[1..])))
  }

  ghost function Reached(s: Sys, actions: seq<Action>): (r: Sys)
    requires SysValid(s) && Possible(s, actions)
    ensures SysValid(r)
    decreases actions
  {
    if actions == [] then s else NextValid(s, actions[0]); Reached(Next(s, actions[0]), actions[1..])
  }
}
