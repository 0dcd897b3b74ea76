/** Over whole runs: a room whose create was acked is listed by its instance, and one whose destroy was acked is not. */
module SystemRooms {
  import opened Utf8
  import opened RoomId
  import opened FleetTypes
  import opened Resolution
  import opened Commands
  import opened FleetModel
  import opened Orchestration
  import opened OrchestrationLaws
  import opened Agents
  import opened AgentAnswers
  import opened FleetSystem
  import opened SystemAnswers
  import Clashes

  // ----- created -----

  /** Content that lists the room as one the fleet created. */
  ghost predicate Lists(c: Content, id: Text, roomType: Text) {
    exists r :: r in c.rooms && r.id == id && r.roomType == roomType && r.fleet
  }

  ghost function Listing(id: Text, roomType: Text): Content -> bool {
    (c: Content) => Lists(c, id, roomType)
  }

  ghost predicate HasRoom(s: Sys, i: InstanceId, id: Text, roomType: Text) {
    && i in s.conns
    && var a := s.conns[i].agent;
      id in a.rooms && a.rooms[id].roomType == roomType && id in a.origins
  }

  /** Neither game code nor a command destroys the room. */
  ghost predicate Spared(s: Sys, a: Action, i: InstanceId, id: Text)
    requires Enabled(s, a)
  {
    && (a.AgentActs? && a.i == i ==> a.local != RoomClosed(id))
    && (a.AgentTakes? && a.i == i && s.conns[i].down[0].Cmd? ==> s.conns[i].down[0].op != Destroy(id))
  }

  lemma TakenKeepsRoom(a: Agent, f: Down, succeeds: bool, id: Text)
    requires AgentValid(a) && id in a.rooms && (f.Cmd? ==> f.op != Destroy(id))
    ensures var b := Take(a, f, succeeds).0;
      id in b.rooms && b.rooms[id] == a.rooms[id] && (id in a.origins ==> id in b.origins)
  {
    hide Take;
    match f
    case Hello => GreetingTaken(a, succeeds);
    case Poll(reqId, knownHash, status) => PollTakenShows(a, reqId, knownHash, status, succeeds);
    case Cmd(k, op) =>
      match op
      case Create(newId, roomType) => CreateTaken(a, k, newId, roomType, succeeds);
      case Destroy(goneId) => DestroyTaken(a, k, goneId, succeeds);
      case Drain => StatusTaken(a, k, true, succeeds);
      case Undrain => StatusTaken(a, k, false, succeeds);
  }

  lemma RoomStays(s: Sys, a: Action, i: InstanceId, id: Text, roomType: Text)
    requires SysValid(s) && Enabled(s, a) && HasRoom(s, i, id, roomType) && Spared(s, a, i, id)
    ensures HasRoom(Next(s, a), i, id, roomType)
  {
    hide OrchValid, Next, Take;
    ConnMoves(s, a, i);
    if a.AgentTakes? && a.i == i {
      TakenKeepsRoom(s.conns[i].agent, s.conns[i].down[0], a.succeeds, id);
    }
  }

  lemma RoomListed(s: Sys, i: InstanceId, id: Text, roomType: Text)
    requires SysValid(s) && HasRoom(s, i, id, roomType)
    ensures i in s.conns && Listing(id, roomType)(BuildContent(s.conns[i].agent))
  {
    hide OrchValid;
    var a := s.conns[i].agent;
    ContentShows(a);
    var r := SyncRoom(id, roomType, a.rooms[id].connections, true);
    assert Shows(a, r) && r in BuildContent(a).rooms;
  }

  ghost predicate NeverDestroyed(s: Sys, actions: seq<Action>, i: InstanceId, id: Text)
    requires SysValid(s) && Possible(s, actions)
    decreases actions
  {
    actions == []
    || (Spared(s, actions[0], i, id)
        && (NextValid(s, actions[0]); NeverDestroyed(Next(s, actions[0]), actions[1..], i, id)))
  }

  lemma {:induction false} RoomThroughout(s: Sys, actions: seq<Action>, i: InstanceId, id: Text, roomType: Text)
    requires SysValid(s) && Possible(s, actions) && HasRoom(s, i, id, roomType) && NeverDestroyed(s, actions, i, id)
    ensures Throughout(s, actions, i, Listing(id, roomType))
    decreases actions
  {
    hide SysValid, Enabled, Next, Spared, BuildContent, Listing, HasRoom;
    RoomListed(s, i, id, roomType);
    if actions != [] {
      NextValid(s, actions[0]);
      RoomStays(s, actions[0], i, id, roomType);
      RoomThroughout(Next(s, actions[0]), actions[1..], i, id, roomType);
    }
  }

  /** The answer the agent sends last says that the command succeeded. */
  ghost predicate SaysDone(mark: Sys, i: InstanceId, k: nat) {
    i in mark.conns && var up := mark.conns[i].up; up != [] && up[|up| - 1] == Ack(k, true, false)
  }

  lemma RoomMade(taken: Sys, i: InstanceId, k: nat, id: Text, roomType: Text, succeeds: bool, mark: Sys)
    requires SysValid(taken) && TakesCommand(taken, i, k, Create(id, roomType), succeeds, mark) && SaysDone(mark, i, k)
    ensures HasRoom(mark, i, id, roomType) && mark.conns[i].agent.rooms[id].connections == 0
  {
    hide OrchValid, Take;
    CreateTaken(taken.conns[i].agent, k, id, roomType, succeeds);
  }

  /** The row lists the room as a fleet room of the type, and its id leads somewhere. */
  ghost predicate RowLists(f: Fleet, i: InstanceId, id: Text, roomType: Text) {
    && RowsValid(f.rows) && Locate(f.rows, EncodedRoomId(id)).Some?
    && i in f.rows.records
    && exists r :: r in f.rows.records[i].info.rooms && r.id == id && r.roomType == roomType && !r.local
  }

  /**
   * A room whose create was acked as done is listed in its row and found, once the ack and then a snapshot have been
   * consumed, unless it has been destroyed since.
   */
  lemma CreatedIsReported(before: seq<Action>, taken: Sys, i: InstanceId, k: nat, id: Text, roomType: Text,
                          succeeds: bool, mark: Sys, actions: seq<Action>, s: Sys, valid: bool, now: Time, f: Up,
                          s': Sys)
    requires Leads(Beginning(), before, taken)
    requires TakesCommand(taken, i, k, Create(id, roomType), succeeds, mark) && SaysDone(mark, i, k)
    requires SysValid(mark) && Leads(mark, actions, s) && NeverDestroyed(mark, actions, i, id)
    requires Ahead(|mark.conns[i].up|, actions, i) == 0 && Consumes(s, i, valid, now, f, s') && (!f.full || valid)
    ensures RowLists(s'.o.fleet, i, id, roomType)
  {
    hide Possible, Reached, SysValid, Enabled, Next, NeverDestroyed, BuildInstanceInfo, Locate, RowLists;
    RoomMade(taken, i, k, id, roomType, succeeds, mark);
    AtAnswer(before, taken, i, k, Create(id, roomType), succeeds, mark);
    RoomThroughout(mark, actions, i, id, roomType);
    ReplyAfterMark(mark, actions, s, i, Listing(id, roomType), valid, now, f, s');
    NextValid(s, Deliver(i, valid, now));
    BuiltLists(s', i, f.snapshot.content, now, id, roomType);
  }

  lemma BuiltLists(s: Sys, i: InstanceId, c: Content, now: Time, id: Text, roomType: Text)
    requires SysValid(s) && Lists(c, id, roomType)
    requires i in s.o.fleet.rows.records && s.o.fleet.rows.records[i].info == BuildInstanceInfo(i, c, now)
    ensures RowLists(s.o.fleet, i, id, roomType)
  {
    hide DeskValid, StreamValid, Nested, AgentsValid, Locate;
    var m := s.o.fleet.rows.records;
    var q :| 0 <= q < |c.rooms| && c.rooms[q].id == id && c.rooms[q].roomType == roomType && c.rooms[q].fleet;
    var r := m[i].info.rooms[q];
    assert r in m[i].info.rooms && r.id == id && r.roomType == roomType && !r.local;
    assert Present(m, Slot(i, q)) && RoomAt(m, Slot(i, q)).id == id;
    Clashes.OwnerIsLocated(s.o.fleet.rows, id);
  }

  // ----- destroyed -----

  ghost function Lacking(id: Text): Content -> bool {
    (c: Content) => !Reports(c, id)
  }

  ghost predicate LacksRoom(s: Sys, i: InstanceId, id: Text) {
    i in s.conns && id !in s.conns[i].agent.rooms
  }

  /** Neither game code nor a command makes a room of this id. */
  ghost predicate Unmade(s: Sys, a: Action, i: InstanceId, id: Text)
    requires Enabled(s, a)
  {
    && (a.AgentActs? && a.i == i && a.local.RoomOpened? ==> a.local.newId != id)
    && (a.AgentTakes? && a.i == i && s.conns[i].down[0].Cmd? && s.conns[i].down[0].op.Create? ==>
      s.conns[i].down[0].op.roomId != id)
  }

  lemma TakenMakesNoRoom(a: Agent, f: Down, succeeds: bool, id: Text)
    requires AgentValid(a) && id !in a.rooms && (f.Cmd? && f.op.Create? ==> f.op.roomId != id)
    ensures id !in Take(a, f, succeeds).0.rooms
  {
    hide Take;
    match f
    case Hello => GreetingTaken(a, succeeds);
    case Poll(reqId, knownHash, status) => PollTakenShows(a, reqId, knownHash, status, succeeds);
    case Cmd(k, op) =>
      match op
      case Create(newId, roomType) => CreateTaken(a, k, newId, roomType, succeeds);
      case Destroy(goneId) => DestroyTaken(a, k, goneId, succeeds);
      case Drain => StatusTaken(a, k, true, succeeds);
      case Undrain => StatusTaken(a, k, false, succeeds);
  }

  lemma RoomStaysAway(s: Sys, a: Action, i: InstanceId, id: Text)
    requires SysValid(s) && Enabled(s, a) && LacksRoom(s, i, id) && Unmade(s, a, i, id)
    ensures LacksRoom(Next(s, a), i, id)
  {
    hide OrchValid, Next, Take;
    ConnMoves(s, a, i);
    if a.AgentTakes? && a.i == i {
      TakenMakesNoRoom(s.conns[i].agent, s.conns[i].down[0], a.succeeds, id);
    }
  }

  lemma RoomUnlisted(s: Sys, i: InstanceId, id: Text)
    requires SysValid(s) && LacksRoom(s, i, id)
    ensures i in s.conns && Lacking(id)(BuildContent(s.conns[i].agent))
  {
    hide OrchValid;
    ContentReports(s.conns[i].agent, id);
  }

  ghost predicate NeverMade(s: Sys, actions: seq<Action>, i: InstanceId, id: Text)
    requires SysValid(s) && Possible(s, actions)
    decreases actions
  {
    actions == []
    || (Unmade(s, actions[0], i, id)
        && (NextValid(s, actions[0]); NeverMade(Next(s, actions[0]), actions[1..], i, id)))
  }

  lemma {:induction false} NoRoomThroughout(s: Sys, actions: seq<Action>, i: InstanceId, id: Text)
    requires SysValid(s) && Possible(s, actions) && LacksRoom(s, i, id) && NeverMade(s, actions, i, id)
    ensures Throughout(s, actions, i, Lacking(id))
    decreases actions
  {
    hide SysValid, Enabled, Next, Unmade, BuildContent, Lacking, LacksRoom;
    RoomUnlisted(s, i, id);
    if actions != [] {
      NextValid(s, actions[0]);
      RoomStaysAway(s, actions[0], i, id);
      NoRoomThroughout(Next(s, actions[0]), actions[1..], i, id);
    }
  }

  lemma RoomUnmade(taken: Sys, i: InstanceId, k: nat, id: Text, succeeds: bool, mark: Sys)
    requires SysValid(taken) && TakesCommand(taken, i, k, Destroy(id), succeeds, mark) && SaysDone(mark, i, k)
    ensures LacksRoom(mark, i, id)
  {
    hide OrchValid, Take;
    DestroyTaken(taken.conns[i].agent, k, id, succeeds);
  }

  /**
   * A room whose destroy was acked as done is gone from its row, once the ack and then a snapshot have been consumed,
   * unless it has been made again since.
   */
  lemma DestroyedIsGone(before: seq<Action>, taken: Sys, i: InstanceId, k: nat, id: Text, succeeds: bool, mark: Sys,
                        actions: seq<Action>, s: Sys, valid: bool, now: Time, f: Up, s': Sys)
    requires Leads(Beginning(), before, taken)
    requires TakesCommand(taken, i, k, Destroy(id), succeeds, mark) && SaysDone(mark, i, k)
    requires SysValid(mark) && Leads(mark, actions, s) && NeverMade(mark, actions, i, id)
    requires Ahead(|mark.conns[i].up|, actions, i) == 0 && Consumes(s, i, valid, now, f, s') && (!f.full || valid)
    ensures i in s'.o.fleet.rows.records
    ensures forall r | r in s'.o.fleet.rows.records[i].info.rooms :: r.id != id
  {
    hide Possible, Reached, SysValid, Enabled, Next, NeverMade, BuildInstanceInfo;
    RoomUnmade(taken, i, k, id, succeeds, mark);
    AtAnswer(before, taken, i, k, Destroy(id), succeeds, mark);
    NoRoomThroughout(mark, actions, i, id);
    ReplyAfterMark(mark, actions, s, i, Lacking(id), valid, now, f, s');
    BuiltLacks(i, f.snapshot.content, now, id);
  }

  lemma BuiltLacks(i: InstanceId, c: Content, now: Time, id: Text)
    requires !Reports(c, id)
    ensures forall r | r in BuildInstanceInfo(i, c, now).rooms :: r.id != id
  {
  }
}
