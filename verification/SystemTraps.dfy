/**
 * What happens outside the calm of `SystemUnique`: the timeout of a create, a teardown and a newcomer with rooms each
 * lead to one id live as a fleet-created room on two agents.
 */
module SystemTraps {
  import opened Prelude
  import opened Utf8
  import opened RoomId
  import opened Ordered
  import opened FleetTypes
  import opened SnapshotHash
  import opened Resolution
  import opened PublicIds
  import opened Reservations
  import opened Commands
  import opened CommandHomes
  import opened FleetModel
  import opened Placement
  import opened Polling
  import opened FleetStates
  import opened Orchestration
  import opened OrchestrationLaws
  import opened Agents
  import opened FleetSystem
  import opened Sides
  import opened SystemLinks
  import opened SystemUnique

  // ----- a timeout frees the id too early -----

  lemma ExpiredHolds(o: Orch, i: InstanceId, k: nat, id: Text)
    requires OrchValid(o) && Makes(FlightOf(o.commands, i), k, id)
    ensures var f := Expire(o, i, k).fleet;
      && f.rows == o.fleet.rows && id !in f.holds.reserved && id in f.holds.pending && f.holds.pending[id] == i
    ensures Expire(o, i, k).polls == o.polls && Expire(o, i, k).links == o.links
  {
    var x := MakerIsClaim(o, i, k, id);
    var p := FlightOf(o.commands, i)[k];
    assert WellFormed(p, i);
    HoldIs(o.fleet.holds, id, p.reservation.value);
  }

  lemma {:induction false} TouchedReports(r: Rows, i: InstanceId, now: Time, id: Text)
    requires RowsValid(r) && i in r.records && IsValidRoomId(id)
    ensures RowsValid(Touched(r, i, now)) && (Locate(Touched(r, i, now), id).Some? <==> Locate(r, id).Some?)
  {
    var m, n := r.records, Touched(r, i, now).records;
    TouchedValid(r, i, now);
    TouchedIsSame(r, i, now);
    FoundIffReported(r.order, m, id);
    FoundIffReported(r.order, n, id);
    if s :| Present(m, s) && RoomAt(m, s).id == id {
      FleetStates.SameRooms(m, n, s);
      assert Present(n, s) && RoomAt(n, s).id == id;
    }
    if s :| Present(n, s) && RoomAt(n, s).id == id {
      FleetStates.SameRooms(m, n, s);
      assert Present(m, s) && RoomAt(m, s).id == id;
    }
  }

  /**
   * Why timeouts of creates are left out above: once a create has timed out, any unchanged poll reply clears its hold,
   * even one built before the agent got to see the create.  The id is free again while the create is still on its way.
   */
  lemma TimeoutFreesIdUnderWay(s: Sys, i: InstanceId, k: nat, id: Text, valid: bool, now: Time) returns (t: Sys, u: Sys)
    requires SysValid(s) && LinkInv(s, i) && i in s.conns && i in s.o.links && i in s.o.fleet.rows.records
    requires Makes(FlightOf(s.o.commands, i), k, id) && Asked(s.conns[i].down, id)
    requires IsValidRoomId(id) && Locate(s.o.fleet.rows, id).None?
    requires s.conns[i].up != [] && s.conns[i].up[0].State? && !s.conns[i].up[0].full
    ensures Enabled(s, Handle(CommandTimeout(i, k), {}, now)) && t == Next(s, Handle(CommandTimeout(i, k), {}, now))
    ensures SysValid(t) && Taken(t.o.fleet, id)
    ensures Enabled(t, Deliver(i, valid, now)) && u == Next(t, Deliver(i, valid, now))
    ensures SysValid(u) && !Taken(u.o.fleet, id) && i in u.conns && Asked(u.conns[i].down, id)
  {
    hide Receive, Expire, AgentsValid, Locate, DeskValid, StreamValid, Makes;
    t := TimeoutStep(s, i, k, now);
    u := Next(t, Deliver(i, valid, now));
    ExpiredHolds(s.o, i, k, id);
    NextValid(t, Deliver(i, valid, now));
    RestOfState(s.conns[i]);
    UnchangedReplyFrees(t.o, i, s.conns[i].up[0], valid, now, id);
  }

  lemma TimeoutStep(s: Sys, i: InstanceId, k: nat, now: Time) returns (t: Sys)
    requires SysValid(s)
    ensures Enabled(s, Handle(CommandTimeout(i, k), {}, now)) && t == Next(s, Handle(CommandTimeout(i, k), {}, now))
    ensures SysValid(t) && t.conns == s.conns && t.o == Expire(s.o, i, k)
  {
    hide Expire, OrchValid, AgentsValid;
    NextValid(s, Handle(CommandTimeout(i, k), {}, now));
    t := Next(s, Handle(CommandTimeout(i, k), {}, now));
  }

  lemma UnchangedReplyFrees(o: Orch, i: InstanceId, f: Up, valid: bool, now: Time, id: Text)
    requires OrchValid(o) && i in o.links && i in o.fleet.rows.records && f.State? && !f.full
      && Replied(o.polls, i, f.reqId).1
    requires IsValidRoomId(id) && Locate(o.fleet.rows, id).None? && id !in o.fleet.holds.reserved
    requires id in o.fleet.holds.pending && o.fleet.holds.pending[id] == i
    ensures RowsValid(Receive(o, i, f, valid, now).orch.fleet.rows)
      && !Taken(Receive(o, i, f, valid, now).orch.fleet, id)
  {
    MatchedReply(o, i, f.reqId, f.full, f.snapshot, valid, now);
    TouchedReports(o.fleet.rows, i, now, id);
    HeldIsCounted(o.fleet.holds, i, id);
  }

  lemma HeldIsCounted(h: Holds, i: InstanceId, id: Text)
    requires Valid(h) && id in h.pending && h.pending[id] == i
    ensures id !in ClearPending(h, i).pending
  {
    assert id in Owned(h.pending, i);
    assert Get(h.pendingCount, i) == |Owned(h.pending, i)|;
  }

  /** A consumed reply, hash-only or applied, frees an id held for its instance exactly when no row reports it then. */
  lemma ReplyFreesExactly(o: Orch, i: InstanceId, f: Up, valid: bool, now: Time, id: Text)
    requires OrchValid(o) && i in o.links && f.State? && Replied(o.polls, i, f.reqId).1
    requires f.full ==> valid && ApplySnapshot(o.fleet, i, f.snapshot, now).1
    requires IsValidRoomId(id) && id in o.fleet.holds.pending && o.fleet.holds.pending[id] == i
    ensures var after := Receive(o, i, f, valid, now).orch.fleet;
      RowsValid(after.rows) && (!Taken(after, id) <==> !Reported(after.rows.records, id))
  {
    var after := Receive(o, i, f, valid, now).orch.fleet;
    ReceiveValid(o, i, f, valid, now);
    MatchedReply(o, i, f.reqId, f.full, f.snapshot, valid, now);
    HeldIsCounted(o.fleet.holds, i, id);
    assert after.holds == ClearPending(o.fleet.holds, i) by {
      if f.full {
        ApplyIs(SetStale(o.fleet, i, false), i, f.snapshot, now);
      }
    }
    FoundIffReported(after.rows.order, after.rows.records, id);
  }

  // ----- runs, piece by piece -----

  /** The actions are possible from `s` and lead to `t`. */
  ghost predicate Leads(s: Sys, actions: seq<Action>, t: Sys)
    requires SysValid(s)
  {
    Possible(s, actions) && Reached(s, actions) == t
  }

  lemma LeadsNowhere(s: Sys)
    requires SysValid(s)
    ensures Leads(s, [], s)
  {
  }

  lemma LeadsFirst(s: Sys, a: Action, rest: seq<Action>, t: Sys)
    requires SysValid(s) && Enabled(s, a) && SysValid(Next(s, a)) && Leads(Next(s, a), rest, t)
    ensures Leads(s, [a] + rest, t)
  {
    var all := [a] + rest;
    assert all[0] == a && all[1..] == rest;
  }

  lemma LeadsOnce(s: Sys, a: Action, t: Sys)
    requires SysValid(s) && Enabled(s, a) && t == Next(s, a)
    ensures SysValid(t) && Leads(s, [a], t)
  {
    NextValid(s, a);
    LeadsNowhere(t);
    LeadsFirst(s, a, [], t);
    assert [a] + [] == [a];
  }

  lemma {:induction false} LeadsOn(s: Sys, xs: seq<Action>, m: Sys, ys: seq<Action>, t: Sys)
    requires SysValid(s) && Leads(s, xs, m) && SysValid(m) && Leads(m, ys, t)
    ensures Leads(s, xs + ys, t)
    decreases xs
  {
    hide SysValid, Next, Enabled;
    if xs == [] {
      assert xs + ys == ys;
    } else {
      NextValid(s, xs[0]);
      LeadsOn(Next(s, xs[0]), xs[1..], m, ys, t);
      LeadsFirst(s, xs[0], xs[1..] + ys, t);
      assert xs + ys == [xs[0]] + (xs[1..] + ys);
    }
  }

  // ----- an agent joins and reports -----

  const ID: Text := [97]
  const TYPE: Text := [116]

  /** An agent that takes creates and has no rooms yet. */
  ghost predicate Bare(a: Agent) {
    && AgentValid(a) && a.order == [] && a.rooms == map[] && a.origins == {} && a.status == Active
    && a.config.autoCreate && a.config.capacity.maxRooms == None
  }

  function Enroll(i: InstanceId, a: Agent): seq<Action> {
    [Connect(i, a, {i})] + [AgentTakes(i, true, true)] + [AgentTakes(i, true, true)] + [Deliver(i, true, 0)]
  }

  /** Its row shows an empty instance that can host, and nothing is under way to it or from it. */
  ghost predicate Ready(s: Sys, i: InstanceId) {
    && SysValid(s) && i in s.conns && Bare(s.conns[i].agent) && s.conns[i].down == []
    && i in s.o.links && Hosting(s.o.fleet, i) && FlightOf(s.o.commands, i) == map[]
  }

  ghost predicate Hosting(f: Fleet, i: InstanceId) {
    && i in f.rows.records && f.rows.records[i].info.rooms == [] && f.rows.records[i].info.status == Active
    && f.rows.records[i].info.autoCreate && i !in f.stale && f.pendingStatus == map[]
  }

  lemma JoinIs(o: Orch, i: InstanceId)
    ensures var e := Join(o, i, {i});
      && e.orch == o.(links := o.links + {i}, polls := Started(o.polls, i).0)
      && forall j :: FramesTo(e.sent, j) == if j == i then [Hello, PollFrame(o.fleet, i, o.polls.reqSeq + 1, true)]
         else []
  {
    forall j
      ensures FramesTo(Join(o, i, {i}).sent, j) == if j == i
        then [Hello, PollFrame(o.fleet, i, o.polls.reqSeq + 1, true)] else []
    {
      JoinFrames(o, i, {i}, j);
    }
  }

  lemma PostedOne(conns: Conns, sent: seq<(InstanceId, Down)>, i: InstanceId, frames: seq<Down>)
    requires i in conns && forall j :: FramesTo(sent, j) == if j == i then frames else []
    ensures Posted(conns, sent) == conns[i := conns[i].(down := conns[i].down + frames)]
  {
    PostedKeeps(conns, sent);
    forall j | j in conns
      ensures Posted(conns, sent)[j] == if j == i then conns[i].(down := conns[i].down + frames) else conns[j]
    {
      PostedTo(conns, sent, j);
      assert conns[j].down + [] == conns[j].down;
    }
  }

  lemma Connects(s: Sys, i: InstanceId, a: Agent) returns (t: Sys)
    requires SysValid(s) && i !in s.conns && AgentValid(a)
    ensures Enabled(s, Connect(i, a, {i})) && t == Next(s, Connect(i, a, {i})) && SysValid(t)
    ensures t.o == s.o.(links := s.o.links + {i}, polls := Started(s.o.polls, i).0)
    ensures t.conns == s.conns[i := Conn(a, [Hello, PollFrame(s.o.fleet, i, s.o.polls.reqSeq + 1, true)], [])]
  {
    hide Join, Posted, OrchValid, Started, PollFrame, AgentValid;
    NextValid(s, Connect(i, a, {i}));
    t := Next(s, Connect(i, a, {i}));
    var frames := [Hello, PollFrame(s.o.fleet, i, s.o.polls.reqSeq + 1, true)];
    JoinIs(s.o, i);
    PostedOne(s.conns[i := Conn(a, [], [])], Join(s.o, i, {i}).sent, i, frames);
    assert [] + frames == frames;
  }

  /** Greeted and polled, an agent answers with all it has. */
  lemma FirstAnswer(a: Agent, reqId: nat, status: Status)
    requires Bare(a)
    ensures var (greeted, none) := Take(a, Hello, true);
      var content := BuildContent(a);
      && none == [] && KeySet(greeted.order) <= greeted.rooms.Keys
      && Take(greeted, Poll(reqId, None, status), true)
         == (a.(seqNo := 1), [State(reqId, true, Snapshot(1, HashOf(content), content))])
  {
  }

  lemma TakesFrame(s: Sys, i: InstanceId) returns (t: Sys)
    requires SysValid(s) && i in s.conns && s.conns[i].down != []
    ensures Enabled(s, AgentTakes(i, true, true)) && t == Next(s, AgentTakes(i, true, true)) && SysValid(t)
      && t.o == s.o
    ensures var c := s.conns[i];
      var (agent, answer) := Take(c.agent, c.down[0], true);
      t.conns == s.conns[i := Conn(agent, c.down[1..], c.up + answer)]
  {
    NextValid(s, AgentTakes(i, true, true));
    t := Next(s, AgentTakes(i, true, true));
  }

  lemma ReceivedFull(o: Orch, i: InstanceId, reqId: nat, snap: Snapshot)
    requires OrchValid(o) && i in o.links && Replied(o.polls, i, reqId).1
    ensures var o' := Receive(o, i, State(reqId, true, snap), true, 0).orch;
      && o'.links == o.links && o'.commands == o.commands && o'.polls == Replied(o.polls, i, reqId).0
      && o'.fleet == ApplySnapshot(SetStale(o.fleet, i, false), i, snap, 0).0
  {
    MatchedReply(o, i, reqId, true, snap, true, 0);
  }

  lemma NothingHeld(o: Orch, i: InstanceId)
    requires OrchValid(o) && i !in o.fleet.rows.records
    ensures ClearPending(o.fleet.holds, i) == o.fleet.holds
  {
    NothingToClear(o.fleet.holds, i);
  }

  /** The first full snapshot makes the row. */
  lemma FirstReport(o: Orch, i: InstanceId, reqId: nat, snap: Snapshot)
    requires OrchValid(o) && i in o.links && i !in o.fleet.rows.records && Replied(o.polls, i, reqId).1
    requires o.fleet.pendingStatus == map[] && snap.content.rooms == [] && snap.content.status == Active
      && snap.content.autoCreate
    ensures var o' := Receive(o, i, State(reqId, true, snap), true, 0).orch;
      && o'.links == o.links && o'.commands == o.commands && o'.polls == Replied(o.polls, i, reqId).0
      && o'.fleet.holds == o.fleet.holds && o'.fleet.rows.records.Keys == o.fleet.rows.records.Keys + {i}
      && (forall j | j in o.fleet.rows.records :: o'.fleet.rows.records[j] == o.fleet.rows.records[j])
      && o'.fleet.rows.records[i].lastHash == snap.hash
         && o'.fleet.rows.records[i].info == BuildInstanceInfo(i, snap.content, 0)
      && o'.fleet.stale == o.fleet.stale - {i} && Hosting(o'.fleet, i)
  {
    hide DeskValid, StreamValid, Nested, Receive, ReceiveState, ClearPending;
    var live := SetStale(o.fleet, i, false);
    ReceivedFull(o, i, reqId, snap);
    ApplyIs(live, i, snap, 0);
    NothingHeld(o, i);
  }

  lemma Receives(s: Sys, i: InstanceId) returns (t: Sys)
    requires SysValid(s) && i in s.conns && s.conns[i].up != []
    ensures Enabled(s, Deliver(i, true, 0)) && t == Next(s, Deliver(i, true, 0)) && SysValid(t)
    ensures t.o == Receive(s.o, i, s.conns[i].up[0], true, 0).orch
    ensures t.conns == s.conns[i := s.conns[i].(up := s.conns[i].up[1..])]
  {
    NextValid(s, Deliver(i, true, 0));
    t := Next(s, Deliver(i, true, 0));
  }

  lemma BareContent(a: Agent)
    requires Bare(a)
    ensures var c := BuildContent(a); c.rooms == [] && c.status == Active && c.autoCreate
  {
  }

  /** Greeting, first poll and first reply, with the queues empty again before the reply is consumed. */
  lemma Greets(s: Sys, i: InstanceId, a: Agent) returns (t: Sys)
    requires SysValid(s) && i !in s.conns && Bare(a)
    ensures var first := [Connect(i, a, {i})] + [AgentTakes(i, true, true)] + [AgentTakes(i, true, true)];
      SysValid(t) && Leads(s, first, t)
    ensures var r, content := s.o.polls.reqSeq + 1, BuildContent(a);
      t.conns == s.conns[i := Conn(a.(seqNo := 1), [], [State(r, true, Snapshot(1, HashOf(content), content))])]
    ensures t.o == s.o.(links := s.o.links + {i}, polls := Started(s.o.polls, i).0)
  {
    hide SysValid, OrchValid, Enabled, Next, Leads, Take, BuildContent, HashOf, Started, PollFrame;
    var f := PollFrame(s.o.fleet, i, s.o.polls.reqSeq + 1, true);
    var s1 := Connects(s, i, a);
    var s2 := TakesFrame(s1, i);
    assert [Hello, f][1..] == [f] && [f][1..] == [];
    FrameIs(s.o.fleet, i, s.o.polls.reqSeq + 1);
    FirstAnswer(a, f.reqId, f.status);
    var greeted := Take(a, Hello, true).0;
    var nothing: seq<Up> := [];
    assert nothing + Take(a, Hello, true).1 == nothing;
    assert s2.conns[i] == Conn(greeted, [f], nothing);
    assert s2.conns == s.conns[i := Conn(greeted, [f], nothing)];
    t := TakesFrame(s2, i);
    var reply := State(f.reqId, true, Snapshot(1, HashOf(BuildContent(a)), BuildContent(a)));
    assert nothing + [reply] == [reply];
    assert t.conns == s.conns[i := Conn(a.(seqNo := 1), [], [reply])];
    LeadsOnce(s, Connect(i, a, {i}), s1);
    LeadsOnce(s1, AgentTakes(i, true, true), s2);
    LeadsOnce(s2, AgentTakes(i, true, true), t);
    LeadsOn(s, [Connect(i, a, {i})], s1, [AgentTakes(i, true, true)], s2);
    LeadsOn(s, [Connect(i, a, {i})] + [AgentTakes(i, true, true)], s2, [AgentTakes(i, true, true)], t);
  }

  lemma StartedIs(p: Polls, i: InstanceId)
    ensures var (q, matched) := Replied(Started(p, i).0, i, p.reqSeq + 1);
      && matched && i in q.entries && q.entries[i] == Entry(true, None, 0, 1)
      && Replied(Started(p, i).0, i, p.reqSeq + 1).1
  {
  }

  /** Nothing but the newcomer's own tables changes. */
  lemma Enrolls(s: Sys, i: InstanceId, a: Agent) returns (t: Sys)
    requires SysValid(s) && i !in s.conns && Bare(a) && s.o.fleet.pendingStatus == map[]
    ensures SysValid(t) && Leads(s, Enroll(i, a), t) && Ready(t, i)
    ensures t.conns == s.conns[i := Conn(a.(seqNo := 1), [], [])]
    ensures t.o.commands == s.o.commands && t.o.fleet.holds == s.o.fleet.holds
    ensures t.o.fleet.rows.records.Keys == s.o.fleet.rows.records.Keys + {i}
    ensures forall j | j in s.o.fleet.rows.records :: t.o.fleet.rows.records[j] == s.o.fleet.rows.records[j]
    ensures t.o.fleet.rows.records[i].lastHash == HashOf(BuildContent(a))
    ensures i in t.o.polls.entries && t.o.polls.entries[i] == Entry(true, None, 0, 1)
  {
    hide Enabled, Next, Leads, BuildContent, HashOf, Receive, Started, Replied, OrchValid, BuildInstanceInfo,
      AgentValid;
    var m := Greets(s, i, a);
    t := Receives(m, i);
    StartedIs(s.o.polls, i);
    BareContent(a);
    var content := BuildContent(a);
    NewHere(s, i);
    FirstReport(m.o, i, s.o.polls.reqSeq + 1, Snapshot(1, HashOf(content), content));
    LeadsOnce(m, Deliver(i, true, 0), t);
    LeadsOn(s, [Connect(i, a, {i})] + [AgentTakes(i, true, true)] + [AgentTakes(i, true, true)], m,
      [Deliver(i, true, 0)], t);
    assert [State(s.o.polls.reqSeq + 1, true, Snapshot(1, HashOf(content), content))][1..] == [];
  }

  lemma NewHere(s: Sys, i: InstanceId)
    requires SysValid(s) && i !in s.conns
    ensures i !in s.o.links && i !in s.o.fleet.rows.records && FlightOf(s.o.commands, i) == map[]
  {
    NothingHere(s.o, i);
  }

  // ----- a room is asked for and made -----

  /** Nobody has the id: it is not reserved, not held, and no row reports it. */
  ghost predicate Free(o: Orch) {
    ID !in o.fleet.holds.reserved && ID !in o.fleet.holds.pending && !Reported(o.fleet.rows.records, ID)
  }

  lemma FreeIsNotTaken(o: Orch)
    requires OrchValid(o)
    ensures Free(o) <==> !Taken(o.fleet, ID)
  {
    assert IsValidRoomId(ID);
    FoundIffReported(o.fleet.rows.order, o.fleet.rows.records, ID);
  }

  function Pin(i: InstanceId): Request {
    Request(TYPE, Some(i), None, false, None, None)
  }

  function Ask(i: InstanceId): Action {
    Handle(CreateAsked(Some(ID), [], Pin(i), 0.0), {i}, 0)
  }

  /** A pinned create on an instance that hosts gets away at once. */
  lemma AskIs(o: Orch, i: InstanceId)
    requires OrchValid(o) && i in o.links && Hosting(o.fleet, i) && Free(o) && FlightOf(o.commands, i) == map[]
    ensures var e, k := CreateRoom(o, Some(ID), [], Pin(i), 0.0, {i}), o.commands.cmdSeq + 1;
      && e.sent == [(i, Cmd(k, Create(ID, TYPE)))] && Makes(FlightOf(e.orch.commands, i), k, ID)
      && e.orch.links == o.links && e.orch.polls == o.polls
      && e.orch.fleet.rows == o.fleet.rows && e.orch.fleet.stale == o.fleet.stale
      && e.orch.fleet.pendingStatus == o.fleet.pendingStatus
  {
    hide CreateTarget, IdToReserve, Selected, Taken, Hosting, Free, OrchValid, CreateRoom, Conserved;
    TargetIs(o, i);
    CreateRoomIs(o, Some(ID), [], Pin(i), 0.0, {i});
    SentOn(DeskOf(o).(holds := HeldFor(o.fleet.holds, i, ID)), i, CreatePending(o.fleet.holds, i, ID, TYPE), true);
  }

  lemma TargetIs(o: Orch, i: InstanceId)
    requires OrchValid(o) && Hosting(o.fleet, i) && Free(o)
    ensures CreateTarget(o.fleet, Some(ID), [], Pin(i), 0.0) == Some((ID, i))
  {
    hide Taken;
    FreeIsNotTaken(o);
    PinSelects(o.fleet.(holds := ReserveId(o.fleet.holds, ID)), i);
  }

  lemma PinSelects(f: Fleet, i: InstanceId)
    requires RowsValid(f.rows) && Hosting(f, i)
    ensures Selected(f, Pin(i), 0.0) == Ok(f.rows.records[i].info) && f.rows.records[i].info.id == i
  {
  }

  lemma Asks(s: Sys, i: InstanceId) returns (t: Sys)
    requires Ready(s, i) && Free(s.o)
    ensures Enabled(s, Ask(i)) && t == Next(s, Ask(i)) && SysValid(t)
    ensures var k := s.o.commands.cmdSeq + 1;
      && t.conns == s.conns[i := s.conns[i].(down := [Cmd(k, Create(ID, TYPE))])]
      && Makes(FlightOf(t.o.commands, i), k, ID)
    ensures t.o.links == s.o.links && t.o.polls == s.o.polls && t.o.fleet.rows == s.o.fleet.rows
    ensures t.o.fleet.pendingStatus == s.o.fleet.pendingStatus
  {
    hide CreateRoom, Posted, AgentsValid, RowsValid, DeskValid, StreamValid, Hosting, Free, Makes;
    NextValid(s, Ask(i));
    t := Next(s, Ask(i));
    AskIs(s.o, i);
    var frames := [Cmd(s.o.commands.cmdSeq + 1, Create(ID, TYPE))];
    OneFrame(i, frames[0]);
    PostedOne(s.conns, CreateRoom(s.o, Some(ID), [], Pin(i), 0.0, {i}).sent, i, frames);
    assert s.conns[i].down + frames == frames;
  }

  lemma OneFrame(i: InstanceId, f: Down)
    ensures forall j :: FramesTo([(i, f)], j) == if j == i then [f] else []
  {
    var sent: seq<(InstanceId, Down)> := [(i, f)];
    assert sent[1..] == [];
  }

  /** The create arrives, and the room is there. */
  lemma Creates(s: Sys, i: InstanceId, k: nat) returns (t: Sys)
    requires SysValid(s) && i in s.conns && s.conns[i].down == [Cmd(k, Create(ID, TYPE))]
    requires Bare(s.conns[i].agent)
    ensures Enabled(s, AgentTakes(i, true, true)) && t == Next(s, AgentTakes(i, true, true)) && SysValid(t)
      && t.o == s.o
    ensures i in t.conns && t.conns == s.conns[i := t.conns[i]] && FleetLive(t.conns[i].agent, ID)
  {
    t := TakesFrame(s, i);
  }

  function Host(i: InstanceId): seq<Action> {
    [Ask(i)] + [AgentTakes(i, true, true)]
  }

  lemma Hosts(s: Sys, i: InstanceId) returns (t: Sys)
    requires Ready(s, i) && Free(s.o)
    ensures SysValid(t) && Leads(s, Host(i), t)
    ensures i in t.conns && t.conns == s.conns[i := t.conns[i]] && FleetLive(t.conns[i].agent, ID)
    ensures t.o.links == s.o.links && t.o.fleet.rows == s.o.fleet.rows
      && t.o.fleet.pendingStatus == s.o.fleet.pendingStatus
  {
    hide SysValid, Enabled, Next, Leads, Hosting, Free, FleetLive;
    var m := Asks(s, i);
    t := Creates(m, i, s.o.commands.cmdSeq + 1);
    LeadsOnce(s, Ask(i), m);
    LeadsOnce(m, AgentTakes(i, true, true), t);
    LeadsOn(s, [Ask(i)], m, [AgentTakes(i, true, true)], t);
  }

  lemma EnrollKeepsFree(o: Orch, o': Orch, i: InstanceId)
    requires Free(o) && o'.fleet.holds == o.fleet.holds && Hosting(o'.fleet, i)
    requires o'.fleet.rows.records.Keys == o.fleet.rows.records.Keys + {i}
    requires forall j | j in o.fleet.rows.records :: o'.fleet.rows.records[j] == o.fleet.rows.records[j]
    ensures Free(o')
  {
    var m, n := o.fleet.rows.records, o'.fleet.rows.records;
    if x :| Present(n, x) && RoomAt(n, x).id == ID {
      assert x.instance in m && Present(m, x) && RoomAt(m, x).id == ID;
    }
  }

  /** A second agent joins and hosts the same id. */
  lemma HostsToo(s: Sys, i: InstanceId, a: Agent) returns (t: Sys)
    requires SysValid(s) && i !in s.conns && Bare(a) && s.o.fleet.pendingStatus == map[] && Free(s.o)
    ensures SysValid(t) && Leads(s, Enroll(i, a) + Host(i), t)
    ensures i in t.conns && t.conns == s.conns[i := t.conns[i]] && FleetLive(t.conns[i].agent, ID)
  {
    hide SysValid, Enabled, Next, Leads, Hosting, Free, FleetLive, Bare;
    var m := Enrolls(s, i, a);
    EnrolledHosts(m, i);
    EnrollKeepsFree(s.o, m.o, i);
    t := Hosts(m, i);
    LeadsOn(s, Enroll(i, a), m, Host(i), t);
  }

  lemma EnrolledHosts(s: Sys, i: InstanceId)
    requires Ready(s, i)
    ensures Hosting(s.o.fleet, i)
  {
  }

  // ----- the runs -----

  const FIRST: Agent := Agent(
    Content([], [49], [], 0, [], [], Capacity(None, None), true, [], [], Active), [], [], map[], {}, Active, 0)

  const SECOND: Agent := Agent(
    Content([], [50], [], 0, [], [], Capacity(None, None), true, [], [], Active), [], [], map[], {}, Active, 0)

  lemma BothBare()
    ensures Bare(FIRST) && Bare(SECOND)
  {
  }

  /** One id is live as a fleet-created room on both agents. */
  ghost predicate Twice(s: Sys) {
    1 in s.conns && 2 in s.conns && FleetLive(s.conns[1].agent, ID) && FleetLive(s.conns[2].agent, ID)
  }

  lemma BeginsFree()
    ensures Free(Beginning().o) && Beginning().conns == map[] && Beginning().o.fleet.pendingStatus == map[]
    ensures Beginning().o.fleet.rows.records == map[] && Beginning().o.commands.cmdSeq == 0
  {
  }

  /** The first agent makes the room and leaves; the second is asked for it too. */
  function TeardownRun(): seq<Action> {
    Enroll(1, FIRST) + Host(1) + [Handle(Left(1), {}, 0)] + (Enroll(2, SECOND) + Host(2))
  }

  /** When the only recorded instance leaves, nothing of any id is left. */
  lemma Leaves(s: Sys, i: InstanceId) returns (t: Sys)
    requires SysValid(s) && i in s.o.links && s.o.fleet.rows.records.Keys == {i} && s.o.fleet.pendingStatus == map[]
    ensures Enabled(s, Handle(Left(i), {}, 0)) && t == Next(s, Handle(Left(i), {}, 0)) && SysValid(t)
    ensures t.conns == s.conns && Free(t.o) && t.o.fleet.pendingStatus == map[]
  {
    hide AgentsValid, OrchValid, Step, Free;
    NextValid(s, Handle(Left(i), {}, 0));
    t := Next(s, Handle(Left(i), {}, 0));
    LeavesNothing(s.o, i);
  }

  lemma LeavesNothing(o: Orch, i: InstanceId)
    requires OrchValid(o) && i in o.links && o.fleet.rows.records.Keys == {i} && o.fleet.pendingStatus == map[]
    ensures var e := Step(o, Left(i), {}, 0); e.sent == [] && Free(e.orch) && e.orch.fleet.pendingStatus == map[]
  {
    hide DeskValid, StreamValid, Nested, Free;
    StepValid(o, Left(i), {}, 0);
    TeardownIs(o, i);
    assert o.fleet.rows.records - {i} == map[];
    NobodyHolds(Step(o, Left(i), {}, 0).orch);
  }

  lemma ReservedAtHome(o: Orch, id: Text) returns (i: InstanceId)
    requires OrchValid(o) && id in o.fleet.holds.reserved
    ensures i in o.fleet.rows.records
  {
    var x :| x in Claims(o.commands) && x.room == id;
    i := x.instance;
  }

  lemma NobodyHolds(o: Orch)
    requires OrchValid(o) && o.fleet.rows.records == map[]
    ensures Free(o)
  {
    if ID in o.fleet.holds.reserved {
      var i := ReservedAtHome(o, ID);
    }
  }

  lemma TeardownMakesTwice()
    ensures Possible(Beginning(), TeardownRun()) && Twice(Reached(Beginning(), TeardownRun()))
  {
    hide SysValid, Enabled, Next, Hosting, Free, FleetLive, Bare, Possible, Reached;
    BeginsFree();
    BothBare();
    var s := Beginning();
    var t1 := Enrolls(s, 1, FIRST);
    EnrolledHosts(t1, 1);
    EnrollKeepsFree(s.o, t1.o, 1);
    var t2 := Hosts(t1, 1);
    var t3 := Leaves(t2, 1);
    var t4 := HostsToo(t3, 2, SECOND);
    LeadsOn(s, Enroll(1, FIRST), t1, Host(1), t2);
    LeadsOnce(t2, Handle(Left(1), {}, 0), t3);
    LeadsOn(s, Enroll(1, FIRST) + Host(1), t2, [Handle(Left(1), {}, 0)], t3);
    LeadsOn(s, Enroll(1, FIRST) + Host(1) + [Handle(Left(1), {}, 0)], t3, Enroll(2, SECOND) + Host(2), t4);
  }

  /** An agent that already has a fleet-created room, as after a restart of the orchestrator. */
  function Heir(uid: Text): Agent {
    Agent(Content([], uid, [], 0, [], [], Capacity(None, None), true, [], [], Active),
          [], [ID], map[ID := LiveRoom(TYPE, 0)], {ID}, Active, 0)
  }

  /** The first agent is ready; the second joins with the room; before it reports, the first is asked for the room. */
  function NewcomerRun(): seq<Action> {
    Enroll(1, FIRST) + [Connect(2, Heir([50]), {2})] + Host(1)
  }

  lemma HeirIsValid(uid: Text)
    ensures AgentValid(Heir(uid)) && FleetLive(Heir(uid), ID)
  {
    OrdersAppend<Text, LiveRoom>([], map[], ID, LiveRoom(TYPE, 0));
    assert [] + [ID] == [ID];
  }

  lemma JoinKeepsReady(s: Sys, t: Sys, i: InstanceId)
    requires Ready(s, i) && SysValid(t) && i in t.conns && t.conns[i] == s.conns[i]
    requires t.o.fleet == s.o.fleet && t.o.commands == s.o.commands && s.o.links <= t.o.links
    ensures Ready(t, i)
  {
    hide SysValid, Hosting, Bare;
  }

  lemma BareIsEmpty(a: Agent)
    requires Bare(a)
    ensures !FleetLive(a.(seqNo := 1), ID)
  {
  }

  /** The newcomer alone has the room when it joins, and nobody but it knows of the id; that does not save it. */
  lemma NewcomerMakesTwice()
    ensures Possible(Beginning(), Enroll(1, FIRST))
    ensures var s := Reached(Beginning(), Enroll(1, FIRST));
      Free(s.o) && s.conns.Keys == {1} && !FleetLive(s.conns[1].agent, ID)
    ensures Possible(Beginning(), NewcomerRun()) && Twice(Reached(Beginning(), NewcomerRun()))
  {
    hide SysValid, Enabled, Next, Hosting, Free, FleetLive, Bare, Possible, Reached, Ready;
    BeginsFree();
    BothBare();
    HeirIsValid([50]);
    BareIsEmpty(FIRST);
    var s := Beginning();
    var t := Enrolls(s, 1, FIRST);
    EnrolledHosts(t, 1);
    EnrollKeepsFree(s.o, t.o, 1);
    var u := Connects(t, 2, Heir([50]));
    JoinKeepsReady(t, u, 1);
    SameFree(t.o, u.o);
    var v := Hosts(u, 1);
    LeadsOnce(t, Connect(2, Heir([50]), {2}), u);
    LeadsOn(s, Enroll(1, FIRST), t, [Connect(2, Heir([50]), {2})], u);
    LeadsOn(s, Enroll(1, FIRST) + [Connect(2, Heir([50]), {2})], u, Host(1), v);
  }

  /**
   * The first agent is polled and answers; the create is sent and times out before the agent gets to it; the answer,
   * older than the create, clears the hold; the agent makes the room; the second agent is asked for it too.
   */
  function TimeoutRun(): seq<Action> {
    Enroll(1, FIRST) + ([Handle(TimerFired(1), {1}, 0)] + [AgentTakes(1, true, true)])
      + ([Ask(1)] + [Handle(CommandTimeout(1, 1), {}, 0)] + [Deliver(1, true, 0)] + [AgentTakes(1, true, true)])
      + (Enroll(2, SECOND) + Host(2))
  }

  /** A tick of an answered instance polls it with the hash of its row. */
  lemma Polls(s: Sys, i: InstanceId) returns (t: Sys)
    requires Ready(s, i) && i in s.o.polls.entries && s.o.polls.entries[i] == Entry(true, None, 0, 1)
    ensures Enabled(s, Handle(TimerFired(i), {i}, 0)) && t == Next(s, Handle(TimerFired(i), {i}, 0)) && SysValid(t)
    ensures var r := s.o.polls.reqSeq + 1;
      && t.conns == s.conns[i := s.conns[i].(down := [Poll(r, Some(s.o.fleet.rows.records[i].lastHash), Active)])]
      && Replied(t.o.polls, i, r).1
    ensures t.o.fleet == s.o.fleet && t.o.commands == s.o.commands && t.o.links == s.o.links
  {
    hide Posted, AgentValid, Tick, DeskValid, StreamValid, Nested;
    NextValid(s, Handle(TimerFired(i), {i}, 0));
    t := Next(s, Handle(TimerFired(i), {i}, 0));
    var frames := [Poll(s.o.polls.reqSeq + 1, Some(s.o.fleet.rows.records[i].lastHash), Active)];
    TickIs(s.o, i);
    OneFrame(i, frames[0]);
    PostedOne(s.conns, Tick(s.o, i, {i}).sent, i, frames);
    assert s.conns[i].down + frames == frames;
  }

  lemma TickIs(o: Orch, i: InstanceId)
    requires RowsValid(o.fleet.rows) && i in o.links && Hosting(o.fleet, i)
    requires i in o.polls.entries && o.polls.entries[i] == Entry(true, None, 0, 1)
    ensures var e, r := Tick(o, i, {i}), o.polls.reqSeq + 1;
      && e.sent == [(i, Poll(r, Some(o.fleet.rows.records[i].lastHash), Active))]
      && e.orch == o.(polls := e.orch.polls) && Replied(e.orch.polls, i, r).1
  {
  }

  /** Nothing has changed since the last snapshot, so the hash is all the agent sends. */
  lemma UnchangedAnswer(a: Agent, reqId: nat)
    requires Bare(a)
    ensures Take(a, Poll(reqId, Some(HashOf(BuildContent(a))), Active), true)
         == (a.(seqNo := a.seqNo + 1),
             [State(reqId, false, Snapshot(a.seqNo + 1, HashOf(BuildContent(a)), BuildContent(a)))])
  {
    hide HashOf, BuildContent, AgentValid;
    assert KeySet(a.order) <= a.rooms.Keys;
  }

  /** Polled once more, with the answer under way. */
  lemma Answers(s: Sys, i: InstanceId) returns (t: Sys)
    requires Ready(s, i) && i in s.o.polls.entries && s.o.polls.entries[i] == Entry(true, None, 0, 1)
      && s.conns[i].up == []
    requires s.o.fleet.rows.records[i].lastHash == HashOf(BuildContent(s.conns[i].agent))
    ensures Leads(s, [Handle(TimerFired(i), {i}, 0)] + [AgentTakes(i, true, true)], t) && Ready(t, i)
    ensures var c := s.conns[i];
      && t.conns.Keys == s.conns.Keys && |t.conns[i].up| == 1 && t.conns[i].up[0].State? && !t.conns[i].up[0].full
      && Replied(t.o.polls, i, t.conns[i].up[0].reqId).1
    ensures t.o.fleet == s.o.fleet && t.o.commands == s.o.commands && t.o.links == s.o.links
  {
    hide SysValid, Enabled, Next, Leads, HashOf, BuildContent, Replied;
    var m := Polls(s, i);
    UnchangedAnswer(s.conns[i].agent, s.o.polls.reqSeq + 1);
    t := TakesFrame(m, i);
    LeadsOnce(s, Handle(TimerFired(i), {i}, 0), m);
    LeadsOnce(m, AgentTakes(i, true, true), t);
    LeadsOn(s, [Handle(TimerFired(i), {i}, 0)], m, [AgentTakes(i, true, true)], t);
  }

  /** Asked, given up, unreserved by the old answer, and made after all. */
  lemma MadeTooLate(s: Sys, i: InstanceId, k: nat) returns (t: Sys)
    requires Ready(s, i) && Free(s.o) && k == s.o.commands.cmdSeq + 1
    requires |s.conns[i].up| == 1 && s.conns[i].up[0].State? && !s.conns[i].up[0].full
    requires Replied(s.o.polls, i, s.conns[i].up[0].reqId).1
    ensures SysValid(t) && Leads(s, [Ask(i)] + [Handle(CommandTimeout(i, k), {}, 0)] + [Deliver(i, true, 0)]
      + [AgentTakes(i, true, true)], t)
    ensures t.conns.Keys == s.conns.Keys && FleetLive(t.conns[i].agent, ID) && Free(t.o)
      && t.o.fleet.pendingStatus == map[]
  {
    hide SysValid, Enabled, Next, Leads, Replied, Receive, Free, FleetLive, Bare;
    var asked := Asks(s, i);
    var late := TimeoutStep(asked, i, k, 0);
    var heard := Receives(late, i);
    StillClear(s, asked, i);
    ClearedEarly(asked.o, i, k, s.conns[i].up[0]);
    t := Creates(heard, i, k);
    var ask, lapse, hear, make := [Ask(i)], [Handle(CommandTimeout(i, k), {}, 0)], [Deliver(i, true, 0)],
      [AgentTakes(i, true, true)];
    LeadsOnce(s, Ask(i), asked);
    LeadsOnce(asked, Handle(CommandTimeout(i, k), {}, 0), late);
    LeadsOnce(late, Deliver(i, true, 0), heard);
    LeadsOnce(heard, AgentTakes(i, true, true), t);
    LeadsOn(s, ask, asked, lapse, late);
    LeadsOn(s, ask + lapse, late, hear, heard);
    LeadsOn(s, ask + lapse + hear, heard, make, t);
  }

  lemma StillClear(s: Sys, asked: Sys, i: InstanceId)
    requires Ready(s, i) && Free(s.o) && SysValid(asked) && asked.o.links == s.o.links
    requires asked.o.fleet.rows == s.o.fleet.rows && asked.o.fleet.pendingStatus == s.o.fleet.pendingStatus
    ensures OrchValid(asked.o) && i in asked.o.links && i in asked.o.fleet.rows.records
    ensures asked.o.fleet.pendingStatus == map[] && !Reported(asked.o.fleet.rows.records, ID)
  {
  }

  lemma ClearedEarly(o: Orch, i: InstanceId, k: nat, f: Up)
    requires OrchValid(o) && i in o.links && i in o.fleet.rows.records && o.fleet.pendingStatus == map[]
    requires Makes(FlightOf(o.commands, i), k, ID) && !Reported(o.fleet.rows.records, ID)
    requires f.State? && !f.full && Replied(o.polls, i, f.reqId).1
    ensures var after := Receive(Expire(o, i, k), i, f, true, 0).orch; Free(after) && after.fleet.pendingStatus == map[]
  {
    hide Receive, OrchValid, Locate, Free, Taken, Replied;
    var late := Expire(o, i, k);
    ExpiredHolds(o, i, k, ID);
    ExpireValid(o, i, k);
    UnreportedIsLost(late, ID);
    UnchangedReplyFrees(late, i, f, true, 0, ID);
    ReceiveValid(late, i, f, true, 0);
    ReplyKeepsStatus(late, i, f);
    FreeIsNotTaken(Receive(late, i, f, true, 0).orch);
  }

  lemma UnreportedIsLost(o: Orch, id: Text)
    requires OrchValid(o) && id == ID && !Reported(o.fleet.rows.records, id)
    ensures IsValidRoomId(id) && Locate(o.fleet.rows, id).None?
  {
    assert IsValidRoomId(ID);
    FoundIffReported(o.fleet.rows.order, o.fleet.rows.records, id);
  }

  lemma ReplyKeepsStatus(o: Orch, i: InstanceId, f: Up)
    requires OrchValid(o) && i in o.links && f.State? && !f.full && Replied(o.polls, i, f.reqId).1
      && o.fleet.pendingStatus == map[]
    ensures Receive(o, i, f, true, 0).orch.fleet.pendingStatus == map[]
  {
    MatchedReply(o, i, f.reqId, f.full, f.snapshot, true, 0);
  }

  lemma TimeoutMakesTwice()
    ensures Possible(Beginning(), TimeoutRun()) && Twice(Reached(Beginning(), TimeoutRun()))
  {
    hide SysValid, Enabled, Next, Hosting, Free, FleetLive, Bare, Possible, Reached, HashOf, BuildContent, Replied;
    BeginsFree();
    BothBare();
    var s := Beginning();
    var t1 := Enrolls(s, 1, FIRST);
    EnrolledHosts(t1, 1);
    EnrollKeepsFree(s.o, t1.o, 1);
    SameContent(FIRST);
    var t2 := Answers(t1, 1);
    SameFree(t1.o, t2.o);
    var t3 := MadeTooLate(t2, 1, 1);
    var t4 := HostsToo(t3, 2, SECOND);
    var poll := [Handle(TimerFired(1), {1}, 0)] + [AgentTakes(1, true, true)];
    var late := [Ask(1)] + [Handle(CommandTimeout(1, 1), {}, 0)] + [Deliver(1, true, 0)] + [AgentTakes(1, true, true)];
    LeadsOn(s, Enroll(1, FIRST), t1, poll, t2);
    LeadsOn(s, Enroll(1, FIRST) + poll, t2, late, t3);
    LeadsOn(s, Enroll(1, FIRST) + poll + late, t3, Enroll(2, SECOND) + Host(2), t4);
  }

  lemma SameContent(a: Agent)
    requires Bare(a)
    ensures Bare(a.(seqNo := 1)) && BuildContent(a.(seqNo := 1)) == BuildContent(a)
  {
  }

  lemma SameFree(o: Orch, o': Orch)
    requires Free(o) && o'.fleet == o.fleet
    ensures Free(o')
  {
  }
}
