/** Over whole runs: hash dedup never leaves the read model wrong. */
module SystemDedup {
  import opened Prelude
  import opened Utf8
  import opened FleetTypes
  import opened SnapshotHash
  import opened Resolution
  import opened FleetModel
  import opened Polling
  import opened Orchestration
  import opened OrchestrationLaws
  import opened Agents
  import opened FleetSystem
  import opened Sides
  import opened SystemLinks

  // ----- what a row was built from -----

  function SyncRoomOf(r: RoomInfo): SyncRoom {
    SyncRoom(r.id, r.roomType, r.connections, !r.local)
  }

  function SyncRooms(rooms: seq<RoomInfo>): seq<SyncRoom> {
    if rooms == [] then [] else [SyncRoomOf(rooms[0])] + SyncRooms(rooms[1..])
  }

  /** The content a row shows. */
  function ContentOf(x: InstanceInfo): Content {
    Content(x.name, x.processUid, x.agentVersion, x.protocolVersion, x.endpointUrl, x.labels, x.capacity, x.autoCreate,
      x.roomTypes, SyncRooms(x.rooms), x.status)
  }

  lemma {:induction false} SyncRoomsInvert(i: InstanceId, url: Text, rooms: seq<SyncRoom>)
    ensures SyncRooms(RoomInfos(i, url, rooms)) == rooms
  {
    if rooms != [] {
      SyncRoomsInvert(i, url, rooms[1..]);
      assert RoomInfos(i, url, rooms)[1..] == RoomInfos(i, url, rooms[1..]);
    }
  }

  lemma ContentOfBuilt(i: InstanceId, c: Content, t: Time)
    ensures ContentOf(BuildInstanceInfo(i, c, t)) == c
  {
    SyncRoomsInvert(i, c.endpointUrl, c.rooms);
  }

  // ----- the invariant of one connection -----

  /** The record is a snapshot with its own hash. */
  ghost predicate Truthful(i: InstanceId, r: Record, labels: seq<Label>) {
    var c := ContentOf(r.info);
    && r.info == BuildInstanceInfo(i, c, r.info.lastSyncAt)
    && r.lastHash == HashOf(c)
    && c.labels == labels
  }

  /** Polls under way carry the hash of the record. */
  ghost predicate PollsMatch(down: seq<Down>, record: Option<Record>) {
    down == [] ||
    (&& (down[0].Poll? && down[0].knownHash.Some? ==> record.Some? && down[0].knownHash == Some(record.value.lastHash))
     && PollsMatch(down[1..], record))
  }

  /** Replies under way are newer than the record; a hash-only one has its hash. */
  ghost predicate Honest(f: Up, record: Option<Record>, labels: seq<Label>, seqNo: nat) {
    f.State? ==>
      && f.snapshot.hash == HashOf(f.snapshot.content) && f.snapshot.content.labels == labels
      && f.snapshot.seqNo <= seqNo
      && (record.Some? ==> record.value.lastSeq < f.snapshot.seqNo)
      && (!f.full ==> record.Some? && record.value.lastHash == f.snapshot.hash)
  }

  ghost predicate RepliesHonest(up: seq<Up>, record: Option<Record>, labels: seq<Label>, seqNo: nat) {
    up == [] || (Honest(up[0], record, labels, seqNo) && RepliesHonest(up[1..], record, labels, seqNo))
  }

  predicate NoHello(down: seq<Down>) {
    down == [] || (!down[0].Hello? && NoHello(down[1..]))
  }

  predicate Greeting(c: Conn) {
    c.down != [] && c.down[0].Hello?
  }

  /** The greeting comes first; until it is taken, nothing has been reported. */
  ghost predicate GreetedFirst(c: Conn, record: Option<Record>) {
    if Greeting(c) then NoHello(c.down[1..]) && StateIds(c.up) == [] && record.None? else NoHello(c.down)
  }

  ghost predicate ConnTrue(i: InstanceId, c: Conn, record: Option<Record>) {
    var labels := c.agent.config.labels;
    && GreetedFirst(c, record)
    && (record.Some? ==> Truthful(i, record.value, labels))
    && PollsMatch(c.down, record)
    && RepliesHonest(c.up, record, labels, c.agent.seqNo)
    && (!Greeting(c) && record.Some? ==> record.value.lastSeq <= c.agent.seqNo)
  }

  ghost predicate DedupInv(s: Sys, i: InstanceId) {
    i in s.o.links && i in s.conns ==> ConnTrue(i, s.conns[i], RecordOf(s.o.fleet, i))
  }

  // ----- queues -----

  lemma {:induction false} PollsMatchSplit(a: seq<Down>, b: seq<Down>, record: Option<Record>)
    ensures PollsMatch(a + b, record) <==> PollsMatch(a, record) && PollsMatch(b, record)
  {
    if a == [] {
      assert a + b == b;
    } else {
      assert (a + b)[1..] == a[1..] + b && (a + b)[0] == a[0];
      PollsMatchSplit(a[1..], b, record);
    }
  }

  lemma {:induction false} NoHelloSplit(a: seq<Down>, b: seq<Down>)
    ensures NoHello(a + b) <==> NoHello(a) && NoHello(b)
  {
    if a == [] {
      assert a + b == b;
    } else {
      assert (a + b)[1..] == a[1..] + b && (a + b)[0] == a[0];
      NoHelloSplit(a[1..], b);
    }
  }

  lemma {:induction false} RepliesSplit(a: seq<Up>, b: seq<Up>, record: Option<Record>, labels: seq<Label>, seqNo: nat)
    ensures RepliesHonest(a + b, record, labels, seqNo) <==>
      RepliesHonest(a, record, labels, seqNo) && RepliesHonest(b, record, labels, seqNo)
  {
    if a == [] {
      assert a + b == b;
    } else {
      assert (a + b)[1..] == a[1..] + b && (a + b)[0] == a[0];
      RepliesSplit(a[1..], b, record, labels, seqNo);
    }
  }

  /** Without polls or replies under way there is nothing to match. */
  lemma {:induction false} NoPollsMatch(down: seq<Down>, record: Option<Record>)
    requires PollIds(down) == []
    ensures PollsMatch(down, record)
  {
    if down != [] {
      NoPollsMatch(down[1..], record);
    }
  }

  lemma {:induction false} NoRepliesHonest(up: seq<Up>, record: Option<Record>, labels: seq<Label>, seqNo: nat)
    requires StateIds(up) == []
    ensures RepliesHonest(up, record, labels, seqNo)
  {
    if up != [] {
      NoRepliesHonest(up[1..], record, labels, seqNo);
    }
  }

  lemma {:induction false} RepliesLater(up: seq<Up>, record: Option<Record>, labels: seq<Label>, seqNo: nat, later: nat)
    requires RepliesHonest(up, record, labels, seqNo) && seqNo <= later
    ensures RepliesHonest(up, record, labels, later)
  {
    if up != [] {
      RepliesLater(up[1..], record, labels, seqNo, later);
    }
  }

  // ----- handlers that do not receive -----

  lemma FrameAppended(i: InstanceId, c: Conn, record: Option<Record>, f: Down)
    requires ConnTrue(i, c, record) && !f.Hello?
    requires f.Poll? && f.knownHash.Some? ==> record.Some? && f.knownHash == Some(record.value.lastHash)
    ensures ConnTrue(i, c.(down := c.down + [f]), record)
  {
    PollsMatchSplit(c.down, [f], record);
    NoHelloSplit(c.down, [f]);
    assert [f][1..] == [];
    if Greeting(c) {
      assert (c.down + [f])[1..] == c.down[1..] + [f];
      NoHelloSplit(c.down[1..], [f]);
    }
  }

  lemma HandleDedup(s: Sys, input: Input, open: set<InstanceId>, now: Time, i: InstanceId)
    requires SysValid(s) && Enabled(s, Handle(input, open, now)) && DedupInv(s, i)
    ensures DedupInv(Next(s, Handle(input, open, now)), i)
  {
    var e := Step(s.o, input, open, now);
    var s' := Next(s, Handle(input, open, now));
    if i in s'.o.links && i in s'.conns {
      StepSteady(s.o, input, open, now);
      PostedKeeps(s.conns, e.sent);
      PostedTo(s.conns, e.sent, i);
      StepSides(s.o, input, open, now, i);
      ChangedDedup(s.o, e, input, i, s.conns[i]);
    }
  }

  lemma ChangedDedup(o: Orch, e: Effects, input: Input, i: InstanceId, c: Conn)
    requires Changes(o, e, input, i) && i in e.orch.links && ConnTrue(i, c, RecordOf(o.fleet, i))
    ensures ConnTrue(i, c.(down := c.down + FramesTo(e.sent, i)), RecordOf(e.orch.fleet, i))
  {
    var frames := FramesTo(e.sent, i);
    assert SideOf(e.orch, i).record == SideOf(o, i).record;
    if frames == [] {
      assert c.down + [] == c.down;
    } else {
      assert frames == [frames[0]];
      FrameAppended(i, c, RecordOf(o.fleet, i), frames[0]);
    }
  }

  // ----- a connection opens -----

  lemma ConnectDedup(s: Sys, j: InstanceId, agent: Agent, open: set<InstanceId>, i: InstanceId)
    requires SysValid(s) && Enabled(s, Connect(j, agent, open)) && DedupInv(s, i)
    ensures DedupInv(Next(s, Connect(j, agent, open)), i)
  {
    hide OrchValid, AgentsValid, ConnTrue, Join, Posted;
    var e := Join(s.o, j, open);
    var conns := s.conns[j := Conn(agent, [], [])];
    PostedKeeps(conns, e.sent);
    if i in conns {
      PostedTo(conns, e.sent, i);
      if i == j {
        JoinedFresh(s, j, agent, open);
      } else {
        JoinFrames(s.o, j, open, i);
        assert SideOf(e.orch, i).record == SideOf(s.o, i).record && SideOf(e.orch, i).linked == SideOf(s.o, i).linked;
        assert s.conns[i].down + [] == s.conns[i].down;
      }
    }
  }

  lemma JoinedFresh(s: Sys, j: InstanceId, agent: Agent, open: set<InstanceId>)
    requires SysValid(s) && j !in s.conns
    ensures var e := Join(s.o, j, open);
      RecordOf(e.orch.fleet, j) == None && ConnTrue(j, Conn(agent, [] + FramesTo(e.sent, j), []), None)
  {
    hide DeskValid, StreamValid, AgentsValid, ConnTrue, Started, PollFrame;
    JoinFrames(s.o, j, open, j);
    FrameIs(s.o.fleet, j, s.o.polls.reqSeq + 1);
    var frames := FramesTo(Join(s.o, j, open).sent, j);
    assert [] + frames == frames;
    FreshConn(j, Conn(agent, frames, []), PollFrame(s.o.fleet, j, s.o.polls.reqSeq + 1, true));
  }

  lemma FreshConn(i: InstanceId, c: Conn, f: Down)
    requires c.up == [] && f.Poll? && f.knownHash.None? && (c.down == [] || c.down == [Hello, f])
    ensures ConnTrue(i, c, None)
  {
    if c.down != [] {
      assert c.down[1..] == [f] && [f][1..] == [];
    }
  }

  // ----- the agent takes a frame -----

  lemma TakeDedup(s: Sys, j: InstanceId, succeeds: bool, sends: bool, i: InstanceId)
    requires SysValid(s) && Enabled(s, AgentTakes(j, succeeds, sends)) && DedupInv(s, i)
    ensures DedupInv(Next(s, AgentTakes(j, succeeds, sends)), i)
  {
    if i == j && i in s.o.links {
      TakenDedup(i, s.conns[i], RecordOf(s.o.fleet, i), succeeds, sends);
    }
  }

  lemma TakenDedup(i: InstanceId, c: Conn, record: Option<Record>, succeeds: bool, sends: bool)
    requires c.down != [] && AgentValid(c.agent) && ConnTrue(i, c, record)
    ensures var (agent, answer) := Take(c.agent, c.down[0], succeeds);
      ConnTrue(i, Conn(agent, c.down[1..], c.up + if sends then answer else []), record)
  {
    match c.down[0]
    case Hello => HelloTaken(i, c, record, sends);
    case Poll(reqId, knownHash, _) => PollAnswered(i, c, record, sends);
    case Cmd(k, op) => CmdAnswered(i, c, record, succeeds, sends);
  }

  lemma HelloTaken(i: InstanceId, c: Conn, record: Option<Record>, sends: bool)
    requires ConnTrue(i, c, record) && Greeting(c)
    ensures ConnTrue(i, Conn(c.agent.(seqNo := 0), c.down[1..], c.up + if sends then [] else []), record)
  {
    assert c.up + [] == c.up;
    NoRepliesHonest(c.up, record, c.agent.config.labels, 0);
  }

  /** A frame other than the greeting is taken, and an honest answer may join the queue. */
  lemma Answered(i: InstanceId, c: Conn, record: Option<Record>, agent: Agent, answer: seq<Up>)
    requires c.down != [] && !c.down[0].Hello? && ConnTrue(i, c, record)
    requires agent.config == c.agent.config && agent.seqNo >= c.agent.seqNo
    requires RepliesHonest(answer, record, c.agent.config.labels, agent.seqNo)
    ensures ConnTrue(i, Conn(agent, c.down[1..], c.up + answer), record)
  {
    assert NoHello(c.down[1..]);
    RepliesLater(c.up, record, c.agent.config.labels, c.agent.seqNo, agent.seqNo);
    RepliesSplit(c.up, answer, record, c.agent.config.labels, agent.seqNo);
  }

  lemma PollAnswered(i: InstanceId, c: Conn, record: Option<Record>, sends: bool)
    requires c.down != [] && c.down[0].Poll? && AgentValid(c.agent) && ConnTrue(i, c, record)
    ensures var (agent, reply) := PollReply(c.agent, c.down[0].reqId, c.down[0].knownHash);
      ConnTrue(i, Conn(agent, c.down[1..], c.up + if sends then [reply] else []), record)
  {
    var (agent, reply) := PollReply(c.agent, c.down[0].reqId, c.down[0].knownHash);
    var answer := if sends then [reply] else [];
    assert Honest(reply, record, c.agent.config.labels, agent.seqNo);
    assert sends ==> answer[1..] == [];
    Answered(i, c, record, agent, answer);
  }

  lemma CmdAnswered(i: InstanceId, c: Conn, record: Option<Record>, succeeds: bool, sends: bool)
    requires c.down != [] && c.down[0].Cmd? && AgentValid(c.agent) && ConnTrue(i, c, record)
    ensures var (agent, ack) := OnCmd(c.agent, c.down[0].cmdId, c.down[0].op, succeeds);
      ConnTrue(i, Conn(agent, c.down[1..], c.up + if sends then [ack] else []), record)
  {
    var (agent, ack) := OnCmd(c.agent, c.down[0].cmdId, c.down[0].op, succeeds);
    var answer := if sends then [ack] else [];
    assert agent.config == c.agent.config && agent.seqNo == c.agent.seqNo && ack.Ack?;
    assert sends ==> answer[1..] == [];
    Answered(i, c, record, agent, answer);
  }

  // ----- the orchestrator receives -----

  lemma AckDelivered(i: InstanceId, c: Conn, record: Option<Record>)
    requires c.up != [] && c.up[0].Ack? && ConnTrue(i, c, record)
    ensures ConnTrue(i, c.(up := c.up[1..]), record)
  {
  }

  /** The last reply under way is consumed: whatever the record is now, nothing is left to contradict it. */
  lemma StateDelivered(i: InstanceId, c: Conn, before: Option<Record>, after: Option<Record>)
    requires c.up != [] && c.up[0].State? && ConnTrue(i, c, before) && |Tokens(c)| <= 1
    requires after.Some? ==> Truthful(i, after.value, c.agent.config.labels) && after.value.lastSeq <= c.agent.seqNo
    ensures ConnTrue(i, c.(up := c.up[1..]), after)
  {
    assert StateIds(c.up[1..]) == [] && PollIds(c.down) == [];
    NoPollsMatch(c.down, after);
    NoRepliesHonest(c.up[1..], after, c.agent.config.labels, c.agent.seqNo);
  }

  /** What the record becomes, and that it is the content the reply was built from. */
  lemma ReplyConsumed(s: Sys, i: InstanceId, valid: bool, now: Time)
    requires SysValid(s) && Enabled(s, Deliver(i, valid, now)) && LinkInv(s, i) && DedupInv(s, i)
    requires i in s.o.links && s.conns[i].up[0].State?
    ensures var f, s' := s.conns[i].up[0], Next(s, Deliver(i, valid, now));
      var before, after := RecordOf(s.o.fleet, i), RecordOf(s'.o.fleet, i);
      && i in s'.o.links
      && (f.full && !valid ==> after == before)
      && (!f.full || valid ==>
        && after.Some? && after.value.info == BuildInstanceInfo(i, f.snapshot.content, now)
        && after.value.lastHash == f.snapshot.hash && after.value.lastSeq <= f.snapshot.seqNo)
  {
    hide DeskValid, StreamValid, Teardown, ReceiveState, Applied, BuildInstanceInfo;
    var c, f := s.conns[i], s.conns[i].up[0];
    RestOfState(c);
    StateIsReceived(s.o, i, f, valid, now);
    StateOwn(s.o, i, f.reqId, f.full, f.snapshot, valid, now);
    assert Honest(f, RecordOf(s.o.fleet, i), c.agent.config.labels, c.agent.seqNo);
    if f.full {
      AppliedIs(s.o.fleet.rows, i, f.snapshot, now);
    } else {
      SameHashSameRow(i, RecordOf(s.o.fleet, i).value, f, c.agent.config.labels, now);
    }
  }

  lemma StateIsReceived(o: Orch, i: InstanceId, f: Up, valid: bool, now: Time)
    requires OrchValid(o) && i in o.links && f.State?
    ensures Receive(o, i, f, valid, now) == ReceiveState(o, i, f.reqId, f.full, f.snapshot, valid, now)
  {
  }

  lemma AppliedIs(r: Rows, i: InstanceId, snap: Snapshot, now: Time)
    ensures var m := Applied(r, i, snap, now).records;
      && i in m && m[i].info == BuildInstanceInfo(i, snap.content, now) && m[i].lastHash == snap.hash
      && m[i].lastSeq == snap.seqNo
  {
  }

  /** The content behind an equal hash is the content of the row. */
  lemma SameHashSameRow(i: InstanceId, r: Record, f: Up, labels: seq<Label>, now: Time)
    requires Truthful(i, r, labels) && f.State? && f.snapshot.hash == HashOf(f.snapshot.content)
    requires f.snapshot.content.labels == labels && r.lastHash == f.snapshot.hash && LabelsDistinct(labels)
    ensures r.info.(lastSyncAt := now) == BuildInstanceInfo(i, f.snapshot.content, now)
  {
    hide HashOf, ContentOf;
    HashDecides(ContentOf(r.info), f.snapshot.content);
  }

  lemma StateDedup(s: Sys, valid: bool, now: Time, i: InstanceId)
    requires SysValid(s) && Enabled(s, Deliver(i, valid, now)) && LinkInv(s, i) && DedupInv(s, i)
    requires i in s.o.links && s.conns[i].up[0].State?
    ensures DedupInv(Next(s, Deliver(i, valid, now)), i)
  {
    hide OrchValid, AgentsValid, Receive;
    var c, f := s.conns[i], s.conns[i].up[0];
    var s' := Next(s, Deliver(i, valid, now));
    ReplyConsumed(s, i, valid, now);
    RestOfState(c);
    ContentOfBuilt(i, f.snapshot.content, now);
    assert Honest(f, RecordOf(s.o.fleet, i), c.agent.config.labels, c.agent.seqNo);
    assert !Greeting(c);
    StateDelivered(i, c, RecordOf(s.o.fleet, i), RecordOf(s'.o.fleet, i));
  }

  lemma DeliverDedup(s: Sys, j: InstanceId, valid: bool, now: Time, i: InstanceId)
    requires SysValid(s) && Enabled(s, Deliver(j, valid, now)) && LinkInv(s, i) && DedupInv(s, i)
    ensures DedupInv(Next(s, Deliver(j, valid, now)), i)
  {
    hide DeskValid, StreamValid, AgentsValid, ConnTrue, LinkInv, Teardown, ReceiveState;
    var f := s.conns[j].up[0];
    var s' := Next(s, Deliver(j, valid, now));
    ReceiveSteady(s.o, j, f, valid, now);
    if i != j {
      ReceiveOther(s.o, j, f, valid, now, i);
      assert SideOf(s'.o, i).record == SideOf(s.o, i).record && SideOf(s'.o, i).linked == SideOf(s.o, i).linked;
    } else if i in s.o.links {
      if f.State? {
        StateDedup(s, valid, now, i);
      } else {
        AckOwn(s.o, i, f.cmdId, f.ok, f.already);
        AckDelivered(i, s.conns[i], RecordOf(s.o.fleet, i));
        assert i in s'.o.links ==> SideOf(s'.o, i).record == SideOf(s.o, i).record;
      }
    }
  }

  // ----- every step, every run -----

  ghost predicate AllDedup(s: Sys) {
    forall i :: DedupInv(s, i)
  }

  lemma ActDedup(s: Sys, j: InstanceId, local: Local, i: InstanceId)
    requires SysValid(s) && Enabled(s, AgentActs(j, local)) && DedupInv(s, i)
    ensures DedupInv(Next(s, AgentActs(j, local)), i)
  {
    hide AgentValid, Locally, OrchValid;
    LocallyValid(s.conns[j].agent, local);
  }

  lemma NextDedup(s: Sys, a: Action)
    requires SysValid(s) && Enabled(s, a) && LinksInv(s) && AllDedup(s)
    ensures AllDedup(Next(s, a))
  {
    forall i
      ensures DedupInv(Next(s, a), i)
    {
      assert LinkInv(s, i) && DedupInv(s, i);
      if a.AgentActs? { ActDedup(s, a.i, a.local, i); }
      hide SysValid, Next, Enabled, LinkInv, DedupInv;
      match a
      case Connect(j, agent, open) => ConnectDedup(s, j, agent, open, i);
      case Handle(input, open, now) => HandleDedup(s, input, open, now, i);
      case Deliver(j, valid, now) => DeliverDedup(s, j, valid, now, i);
      case AgentTakes(j, succeeds, sends) => TakeDedup(s, j, succeeds, sends, i);
      case AgentActs(j, local) =>
    }
  }

  lemma {:induction false} RunDedup(s: Sys, actions: seq<Action>)
    requires SysValid(s) && LinksInv(s) && AllDedup(s) && Possible(s, actions)
    ensures AllDedup(Reached(s, actions))
    decreases actions
  {
    if actions != [] {
      NextValid(s, actions[0]);
      NextLinks(s, actions[0]);
      NextDedup(s, actions[0]);
      RunDedup(Next(s, actions[0]), actions[1..]);
    }
  }

  /**
   * In every run, after every consumed reply that is hash-only, or full and accepted by validation, the row is
   * the content the agent had when it built that reply; in particular no honest full reply is dropped as old.
   */
  lemma RowIsWhatWasReported(actions: seq<Action>, i: InstanceId, valid: bool, now: Time)
    requires Possible(Beginning(), actions)
    requires var s := Reached(Beginning(), actions);
      Enabled(s, Deliver(i, valid, now)) && i in s.o.links && s.conns[i].up[0].State?
    ensures var s := Reached(Beginning(), actions);
      var f, after := s.conns[i].up[0], RecordOf(Next(s, Deliver(i, valid, now)).o.fleet, i);
      && (!f.full || valid ==> after.Some? && after.value.info == BuildInstanceInfo(i, f.snapshot.content, now))
      && (f.full && !valid ==> after == RecordOf(s.o.fleet, i))
  {
    hide Possible, Reached, SysValid, Enabled, Next, BuildInstanceInfo;
    RunLinks(Beginning(), actions);
    RunDedup(Beginning(), actions);
    var s := Reached(Beginning(), actions);
    assert LinkInv(s, i) && DedupInv(s, i);
    ReplyConsumed(s, i, valid, now);
  }
}
