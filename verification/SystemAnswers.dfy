/** Over whole runs: what an agent was like when it acked, the snapshots consumed after the ack show. */
module SystemAnswers {
  import opened FleetTypes
  import opened Commands
  import opened Orchestration
  import opened OrchestrationLaws
  import opened Agents
  import opened AgentAnswers
  import opened FleetSystem
  import opened SystemLinks
  import opened SystemDedup

  // ----- one step, seen from one connection -----

  /** What an action does to the agent's end of a connection and to the queue up. */
  lemma ConnMoves(s: Sys, a: Action, i: InstanceId)
    requires SysValid(s) && Enabled(s, a) && i in s.conns
    ensures i in Next(s, a).conns
    ensures var c, c' := s.conns[i], Next(s, a).conns[i];
      if a.Deliver? && a.i == i then c'.agent == c.agent && c'.up == c.up[1..]
      else if a.AgentTakes? && a.i == i then
        var (agent, answer) := Take(c.agent, c.down[0], a.succeeds);
        c'.agent == agent && c'.up == c.up + if a.sends then answer else []
      else if a.AgentActs? && a.i == i then c'.agent == Locally(c.agent, a.local) && c'.up == c.up
      else c'.agent == c.agent && c'.up == c.up
  {
    hide OrchValid, AgentValid, Join, Step, Receive, Take, Locally;
    match a
    case Connect(j, agent, open) => PostedKeeps(s.conns[j := Conn(agent, [], [])], Join(s.o, j, open).sent);
    case Handle(input, open, now) => HandlePosts(s, input, open, now);
    case _ =>
  }

  lemma HandlePosts(s: Sys, input: Input, open: set<InstanceId>, now: Time)
    requires SysValid(s) && Enabled(s, Handle(input, open, now))
    ensures Next(s, Handle(input, open, now)).conns.Keys == s.conns.Keys
    ensures forall i | i in s.conns ::
      && Next(s, Handle(input, open, now)).conns[i].agent == s.conns[i].agent
      && Next(s, Handle(input, open, now)).conns[i].up == s.conns[i].up
  {
    hide DeskValid, StreamValid, Nested, AgentsValid, Step;
    PostedKeeps(s.conns, Step(s.o, input, open, now).sent);
  }

  // ----- frames behind a mark in the queue -----

  /** Every snapshot behind the first `from` frames has the property. */
  ghost predicate Trailing(up: seq<Up>, from: nat, p: Content -> bool) {
    forall q :: from <= q < |up| && up[q].State? ==> p(up[q].snapshot.content)
  }

  function Closer(from: nat, a: Action, i: InstanceId): nat {
    if a.Deliver? && a.i == i && from > 0 then from - 1 else from
  }

  /** How many of the first `from` frames are still in the queue after the actions. */
  function Ahead(from: nat, actions: seq<Action>, i: InstanceId): nat
    decreases actions
  {
    if actions == [] then from else Ahead(Closer(from, actions[0], i), actions[1..], i)
  }

  /** What the agent would report has the property all along. */
  ghost predicate Throughout(s: Sys, actions: seq<Action>, i: InstanceId, p: Content -> bool)
    requires SysValid(s) && Possible(s, actions)
    decreases actions
  {
    && i in s.conns && p(BuildContent(s.conns[i].agent))
    && (actions == [] || (NextValid(s, actions[0]); Throughout(Next(s, actions[0]), actions[1..], i, p)))
  }

  lemma TrailingTail(up: seq<Up>, from: nat, p: Content -> bool)
    requires up != [] && Trailing(up, from, p)
    ensures Trailing(up[1..], if from > 0 then from - 1 else 0, p)
  {
    forall q | 0 <= q < |up| - 1 && from <= q + 1
      ensures up[1..][q] == up[q + 1]
    {
    }
  }

  lemma TrailingMore(up: seq<Up>, answer: seq<Up>, from: nat, p: Content -> bool)
    requires Trailing(up, from, p) && Trailing(answer, 0, p)
    ensures Trailing(up + answer, from, p) && Trailing(up + [], from, p)
  {
    assert up + [] == up;
  }

  lemma TrailingStep(s: Sys, a: Action, i: InstanceId, from: nat, p: Content -> bool)
    requires SysValid(s) && Enabled(s, a) && i in s.conns && Trailing(s.conns[i].up, from, p)
    requires p(BuildContent(s.conns[i].agent))
    ensures i in Next(s, a).conns && Trailing(Next(s, a).conns[i].up, Closer(from, a, i), p)
  {
    hide OrchValid, Next, BuildContent, Trailing, Take;
    ConnMoves(s, a, i);
    var up := s.conns[i].up;
    if a.AgentTakes? && a.i == i {
      AnswerShows(s, a, i, p);
      TrailingMore(up, Take(s.conns[i].agent, s.conns[i].down[0], a.succeeds).1, from, p);
    } else if a.Deliver? && a.i == i {
      TrailingTail(up, from, p);
    }
  }

  /** A snapshot is of the agent as it was when the poll reached it. */
  lemma AnswerShows(s: Sys, a: Action, i: InstanceId, p: Content -> bool)
    requires SysValid(s) && Enabled(s, a) && a.AgentTakes? && a.i == i && p(BuildContent(s.conns[i].agent))
    ensures Trailing(Take(s.conns[i].agent, s.conns[i].down[0], a.succeeds).1, 0, p)
  {
    hide OrchValid, BuildContent, Take;
    var agent, f := s.conns[i].agent, s.conns[i].down[0];
    match f
    case Hello => GreetingTaken(agent, a.succeeds);
    case Poll(reqId, knownHash, status) => PollTakenShows(agent, reqId, knownHash, status, a.succeeds);
    case Cmd(k, op) => CmdTakenAcks(agent, k, op, a.succeeds);
  }

  /** Once the frames ahead have been consumed, every snapshot under way has the property. */
  lemma {:induction false} TrailingRun(s: Sys, actions: seq<Action>, i: InstanceId, from: nat, p: Content -> bool)
    requires SysValid(s) && Possible(s, actions) && Throughout(s, actions, i, p)
    requires Trailing(s.conns[i].up, from, p)
    ensures i in Reached(s, actions).conns && Trailing(Reached(s, actions).conns[i].up, Ahead(from, actions, i), p)
    decreases actions
  {
    hide SysValid, Enabled, Next, Trailing, BuildContent;
    if actions != [] {
      NextValid(s, actions[0]);
      TrailingStep(s, actions[0], i, from, p);
      TrailingRun(Next(s, actions[0]), actions[1..], i, Closer(from, actions[0], i), p);
    }
  }

  ghost predicate Leads(s: Sys, actions: seq<Action>, s': Sys)
    requires SysValid(s)
  {
    Possible(s, actions) && s' == Reached(s, actions) && SysValid(s')
  }

  /** The agent takes a command, and its answer goes out. */
  ghost predicate TakesCommand(taken: Sys, i: InstanceId, k: nat, op: Op, succeeds: bool, mark: Sys)
    requires SysValid(taken)
  {
    && Enabled(taken, AgentTakes(i, succeeds, true)) && taken.conns[i].down[0] == Cmd(k, op)
    && mark == Next(taken, AgentTakes(i, succeeds, true))
  }

  /** What holds when the answer has been sent. */
  lemma AtAnswer(before: seq<Action>, taken: Sys, i: InstanceId, k: nat, op: Op, succeeds: bool, mark: Sys)
    requires Leads(Beginning(), before, taken) && TakesCommand(taken, i, k, op, succeeds, mark)
    ensures SysValid(mark) && LinksInv(mark) && AllDedup(mark)
  {
    hide Possible, Reached, SysValid, Enabled, Next;
    RunLinks(Beginning(), before);
    RunDedup(Beginning(), before);
    var a := AgentTakes(i, succeeds, true);
    NextValid(taken, a);
    NextLinks(taken, a);
    NextDedup(taken, a);
  }

  /** The orchestrator consumes a reply of a linked instance. */
  ghost predicate Consumes(s: Sys, i: InstanceId, valid: bool, now: Time, f: Up, s': Sys)
    requires SysValid(s)
  {
    && Enabled(s, Deliver(i, valid, now)) && i in s.o.links
    && s.conns[i].up[0] == f && f.State?
    && s' == Next(s, Deliver(i, valid, now))
  }

  /** A reply consumed after all that was under way at the mark has the property, and leaves a row built from it. */
  lemma ReplyAfterMark(mark: Sys, actions: seq<Action>, s: Sys, i: InstanceId, p: Content -> bool, valid: bool,
                       now: Time, f: Up, s': Sys)
    requires SysValid(mark) && LinksInv(mark) && AllDedup(mark) && Leads(mark, actions, s)
    requires Throughout(mark, actions, i, p) && Ahead(|mark.conns[i].up|, actions, i) == 0
    requires Consumes(s, i, valid, now, f, s')
    ensures p(f.snapshot.content)
    ensures !f.full || valid ==>
      i in s'.o.fleet.rows.records
      && s'.o.fleet.rows.records[i].info == BuildInstanceInfo(i, f.snapshot.content, now)
  {
    hide Possible, Reached, SysValid, Enabled, Next, BuildContent, BuildInstanceInfo;
    RunLinks(mark, actions);
    RunDedup(mark, actions);
    NothingTrails(mark.conns[i].up, p);
    TrailingRun(mark, actions, i, |mark.conns[i].up|, p);
    OldestHas(s, i, valid, now, p);
    assert LinkInv(s, i) && DedupInv(s, i);
    ReplyConsumed(s, i, valid, now);
  }

  lemma NothingTrails(up: seq<Up>, p: Content -> bool)
    ensures Trailing(up, |up|, p)
  {
  }

  lemma OldestHas(s: Sys, i: InstanceId, valid: bool, now: Time, p: Content -> bool)
    requires SysValid(s) && Enabled(s, Deliver(i, valid, now)) && Trailing(s.conns[i].up, 0, p)
    ensures s.conns[i].up[0].State? ==> p(s.conns[i].up[0].snapshot.content)
  {
    hide SysValid;
  }
}
