/** What the orchestrator holds about one connection, and the few ways a handler can change it. */
module Sides {
  import opened Prelude
  import opened Utf8
  import opened RoomId
  import opened FleetTypes
  import opened Resolution
  import opened Reservations
  import opened Commands
  import opened CommandHomes
  import opened FleetModel
  import opened Placement
  import opened Polling
  import opened Orchestration
  import opened OrchestrationLaws
  import opened FleetSystem

  /** The orchestrator's side of a connection. */
  datatype Side = Side(linked: bool, outstanding: Option<nat>, flight: InFlight, record: Option<Record>)

  function OutstandingOf(p: Polls, i: InstanceId): Option<nat> {
    if i in p.entries then p.entries[i].outstanding else None
  }

  function RecordOf(f: Fleet, i: InstanceId): Option<Record> {
    if i in f.rows.records then Some(f.rows.records[i]) else None
  }

  function SideOf(o: Orch, i: InstanceId): Side {
    Side(i in o.links, OutstandingOf(o.polls, i), FlightOf(o.commands, i), RecordOf(o.fleet, i))
  }

  function FramesTo(sent: seq<(InstanceId, Down)>, i: InstanceId): seq<Down> {
    if sent == [] then [] else (if sent[0].0 == i then [sent[0].1] else []) + FramesTo(sent[1..], i)
  }

  lemma {:induction false} PostedTo(conns: Conns, sent: seq<(InstanceId, Down)>, i: InstanceId)
    requires i in conns
    ensures i in Posted(conns, sent)
    ensures Posted(conns, sent)[i] == conns[i].(down := conns[i].down + FramesTo(sent, i))
    decreases sent
  {
    if sent == [] {
      assert conns[i].down + [] == conns[i].down;
    } else {
      var (j, f) := sent[0];
      var next := if j in conns then conns[j := conns[j].(down := conns[j].down + [f])] else conns;
      PostedTo(next, sent[1..], i);
      if i == j {
        assert (conns[i].down + [f]) + FramesTo(sent[1..], i) == conns[i].down + ([f] + FramesTo(sent[1..], i));
      }
    }
  }

  // ----- the ways a side changes -----

  /** Nothing that matters to the connection. */
  ghost predicate Quietly(b: Side, a: Side, frames: seq<Down>) {
    a == b && frames == []
  }

  ghost predicate Gone(a: Side, frames: seq<Down>) {
    !a.linked && frames == []
  }

  /** A new poll, with the last hash or none; the frame may be lost. */
  ghost predicate PollSent(b: Side, a: Side, frames: seq<Down>) {
    && b.outstanding.None? && a.outstanding.Some? && a == b.(outstanding := a.outstanding)
    && (frames == [] ||
        (&& |frames| == 1 && frames[0].Poll? && a.outstanding == Some(frames[0].reqId)
         && (frames[0].knownHash.None? || (b.record.Some? && frames[0].knownHash == Some(b.record.value.lastHash)))))
  }

  ghost predicate Issued(b: Side, a: Side, frames: seq<Down>, k: nat) {
    && |frames| == 1 && frames[0].Cmd? && frames[0].cmdId == k
    && k in a.flight && k !in b.flight && a == b.(flight := b.flight[k := a.flight[k]])
    && a.flight[k].op == frames[0].op
  }

  ghost predicate Lapsed(b: Side, a: Side, frames: seq<Down>, k: nat) {
    k in b.flight && a == b.(flight := b.flight - {k}) && frames == []
  }

  /** One of them, whatever handler ran. */
  ghost predicate Changes(o: Orch, e: Effects, input: Input, i: InstanceId) {
    var b, a, frames := SideOf(o, i), SideOf(e.orch, i), FramesTo(e.sent, i);
    || Quietly(b, a, frames)
    || Gone(a, frames)
    || PollSent(b, a, frames)
    || Issued(b, a, frames, o.commands.cmdSeq + 1)
    || (input.CommandTimeout? && input.i == i && Lapsed(b, a, frames, input.cmdId))
  }

  lemma TeardownSides(o: Orch, j: InstanceId, i: InstanceId)
    requires OrchValid(o)
    ensures SideOf(Teardown(o, j), i) == if i == j then Side(false, None, map[], None) else SideOf(o, i)
  {
    if j in o.links {
      TeardownIs(o, j);
      RejectHome(DeskOf(o), j, o.fleet.rows.records.Keys, o.links);
      assert RejectedAll(DeskOf(o), j).commands.pending == o.commands.pending - {j};
    } else {
      NothingHere(o, j);
    }
  }

  /** Counting a tick touches the connection's own request only; without a poll to send, not even that. */
  lemma TickedOutstanding(p: Polls, j: InstanceId, i: InstanceId)
    ensures var (p', effect) := Ticked(p, j);
      OutstandingOf(p', i) ==
        if i == j && effect.SendPoll? then Some(effect.reqId) else OutstandingOf(p, i)
    ensures Ticked(p, j).1.SendPoll? ==> OutstandingOf(p, j).None?
  {
  }

  lemma EvictSides(o: Orch, j: InstanceId, open: set<InstanceId>, i: InstanceId)
    requires OrchValid(o) && Ticked(o.polls, j).1 == OnEvict
    ensures Changes(o, Tick(o, j, open), TimerFired(j), i)
  {
    var polls := Ticked(o.polls, j).0;
    TickedKeys(o.polls, j);
    PolledValid(o, polls);
    TickedOutstanding(o.polls, j, i);
    TeardownSides(o.(polls := polls), j, i);
  }

  lemma StaySides(o: Orch, j: InstanceId, open: set<InstanceId>, i: InstanceId)
    requires RowsValid(o.fleet.rows) && Ticked(o.polls, j).1 != OnEvict
    ensures Changes(o, Tick(o, j, open), TimerFired(j), i)
  {
    TickedOutstanding(o.polls, j, i);
  }

  lemma TickSides(o: Orch, j: InstanceId, open: set<InstanceId>, i: InstanceId)
    requires OrchValid(o)
    ensures Changes(o, Tick(o, j, open), TimerFired(j), i)
  {
    hide DeskValid, StreamValid;
    if Ticked(o.polls, j).1 == OnEvict {
      EvictSides(o, j, open, i);
    } else {
      StaySides(o, j, open, i);
    }
  }

  lemma ExpireSides(o: Orch, j: InstanceId, k: nat, i: InstanceId)
    requires OrchValid(o)
    ensures Changes(o, Silent(Expire(o, j, k)), CommandTimeout(j, k), i)
  {
    hide RowsValid, DeskValid, StreamValid, Nested, HoldOrRelease;
    if k in FlightOf(o.commands, j) {
      ExpiredFlights(o, j, k, i);
    }
  }

  lemma ExpiredFlights(o: Orch, j: InstanceId, k: nat, i: InstanceId)
    requires k in FlightOf(o.commands, j)
    ensures var o' := Expire(o, j, k);
      && o'.links == o.links && o'.polls == o.polls && o'.fleet.rows == o.fleet.rows
      && FlightOf(o'.commands, i) == if i == j then FlightOf(o.commands, i) - {k} else FlightOf(o.commands, i)
  {
  }

  /** Issuing adds at most the new command, to the flight of its own instance. */
  lemma IssuedFlights(d: Desk, j: InstanceId, p: Pending, sends: bool, i: InstanceId)
    requires AllWellFormed(d.commands)
    ensures var (d', r) := SentNext(d, j, p, sends);
      var k := d.commands.cmdSeq + 1;
      && k !in FlightOf(d.commands, j)
      && FlightOf(d'.commands, i) == if i == j && r == Underway then FlightOf(d.commands, j)[k := p]
         else FlightOf(d.commands, i)
  {
    NextIdIsNew(d.commands, j);
    SentOn(d, j, p, sends);
    SentBack(d, j, p, sends);
    SameFlight(d.commands, d.commands.cmdSeq + 1, j);
  }

  lemma IssueSides(o: Orch, j: InstanceId, op: Op, p: Pending, h: Holds, sends: bool, input: Input, i: InstanceId)
    requires OrchValid(o) && p.op == op
    ensures Changes(o, Issue(o, j, op, SentNext(DeskOf(o).(holds := h), j, p, sends)), input, i)
  {
    var d := DeskOf(o).(holds := h);
    IssuedFlights(d, j, p, sends, i);
    IssuedChanges(o, j, op, p, SentNext(d, j, p, sends), input, i);
  }

  lemma IssuedChanges(o: Orch, j: InstanceId, op: Op, p: Pending, sent: (Desk, SendResult), input: Input, i: InstanceId)
    requires p.op == op && o.commands.cmdSeq + 1 !in FlightOf(o.commands, j)
    requires FlightOf(sent.0.commands, i)
          == if i == j && sent.1 == Underway then FlightOf(o.commands, j)[o.commands.cmdSeq + 1 := p]
            else FlightOf(o.commands, i)
    ensures Changes(o, Issue(o, j, op, sent), input, i)
  {
    var e := Issue(o, j, op, sent);
    if sent.1 == Underway {
      assert e.sent[1..] == [];
      if i == j {
        assert FramesTo(e.sent, i) == [Cmd(o.commands.cmdSeq + 1, op)];
        assert Issued(SideOf(o, i), SideOf(e.orch, i), FramesTo(e.sent, i), o.commands.cmdSeq + 1);
      }
    }
  }

  lemma CreateSides(o: Orch, roomId: Option<Text>, draws: seq<Text>, request: Request, random: real,
                    open: set<InstanceId>, i: InstanceId)
    requires OrchValid(o) && 0.0 <= random <= 1.0 && forall d :: d in draws ==> IsValidRoomId(d)
    ensures Changes(o, CreateRoom(o, roomId, draws, request, random, open),
      CreateAsked(roomId, draws, request, random), i)
  {
    CreateRoomIs(o, roomId, draws, request, random, open);
    var target := CreateTarget(o.fleet, roomId, draws, request, random);
    if target.Some? {
      var (id, j) := target.value;
      IssueSides(o, j, Create(id, request.roomType), CreatePending(o.fleet.holds, j, id, request.roomType),
                 HeldFor(o.fleet.holds, j, id), j in open, CreateAsked(roomId, draws, request, random), i);
    }
  }

  lemma DestroySides(o: Orch, publicId: Text, open: set<InstanceId>, i: InstanceId)
    requires OrchValid(o)
    ensures Changes(o, DestroyRoom(o, publicId, open), DestroyAsked(publicId), i)
  {
    if Locate(o.fleet.rows, publicId).Some? {
      var found := Locate(o.fleet.rows, publicId).value;
      var op := Destroy(found.rawRoomId);
      assert DeskOf(o).(holds := o.fleet.holds) == DeskOf(o);
      IssueSides(o, found.instanceId, op, Pending(op, None, None), o.fleet.holds, found.instanceId in open,
        DestroyAsked(publicId), i);
    }
  }

  lemma StatusSides(o: Orch, j: InstanceId, drain: bool, open: set<InstanceId>, i: InstanceId)
    requires OrchValid(o)
    ensures Changes(o, StatusCommand(o, j, if drain then Drain else Undrain, open), StatusAsked(j, drain), i)
  {
    var op := if drain then Drain else Undrain;
    assert DeskOf(o).(holds := o.fleet.holds) == DeskOf(o);
    IssueSides(o, j, op, Pending(op, None, None), o.fleet.holds, j in open, StatusAsked(j, drain), i);
  }

  lemma StepSides(o: Orch, input: Input, open: set<InstanceId>, now: Time, i: InstanceId)
    requires OrchValid(o) && Sensible(input) && !input.Joined? && !input.Received?
    ensures Changes(o, Step(o, input, open, now), input, i)
  {
    match input
    case Left(j) => TeardownSides(o, j, i);
    case TimerFired(j) => TickSides(o, j, open, i);
    case CommandTimeout(j, k) => ExpireSides(o, j, k, i);
    case CreateAsked(roomId, draws, request, random) => CreateSides(o, roomId, draws, request, random, open, i);
    case DestroyAsked(publicId) => DestroySides(o, publicId, open, i);
    case StatusAsked(j, drain) => StatusSides(o, j, drain, open, i);
  }

  // ----- frames from one agent -----

  /** A frame concerns the connection it came over. */
  lemma ReceiveOther(o: Orch, j: InstanceId, f: Up, valid: bool, now: Time, i: InstanceId)
    requires OrchValid(o) && i != j
    ensures SideOf(Receive(o, j, f, valid, now).orch, i) == SideOf(o, i)
  {
    if j in o.links {
      match f
      case State(reqId, full, s) => StateOther(o, j, reqId, full, s, valid, now, i);
      case Ack(k, ok, already) => AckOther(o, j, k, ok, already, i);
    }
  }

  lemma TouchOther(f: Fleet, j: InstanceId, now: Time, i: InstanceId)
    requires i != j
    ensures RecordOf(Touch(f, j, now), i) == RecordOf(f, i)
  {
  }

  lemma ApplyOther(f: Fleet, j: InstanceId, s: Snapshot, now: Time, i: InstanceId)
    requires i != j
    ensures RecordOf(ApplySnapshot(f, j, s, now).0, i) == RecordOf(f, i)
  {
  }

  /** An awaited reply leaves links and commands alone. */
  lemma MatchedReply(o: Orch, j: InstanceId, reqId: nat, full: bool, s: Snapshot, valid: bool, now: Time)
    requires RowsValid(o.fleet.rows) && Replied(o.polls, j, reqId).1
    ensures var o' := ReceiveState(o, j, reqId, full, s, valid, now).orch;
      && o'.links == o.links && o'.commands == o.commands && o'.polls == Replied(o.polls, j, reqId).0
      && o'.fleet == var live := SetStale(o.fleet, j, false);
        if !full then Touch(live, j, now) else if valid then ApplySnapshot(live, j, s, now).0 else live
  {
  }

  lemma StateOther(o: Orch, j: InstanceId, reqId: nat, full: bool, s: Snapshot, valid: bool, now: Time, i: InstanceId)
    requires OrchValid(o) && i != j
    ensures SideOf(ReceiveState(o, j, reqId, full, s, valid, now).orch, i) == SideOf(o, i)
  {
    if !Replied(o.polls, j, reqId).1 {
      TeardownSides(o, j, i);
    } else {
      MatchedReply(o, j, reqId, full, s, valid, now);
      TouchOther(SetStale(o.fleet, j, false), j, now, i);
      ApplyOther(SetStale(o.fleet, j, false), j, s, now, i);
    }
  }

  lemma AckOther(o: Orch, j: InstanceId, k: nat, ok: bool, already: bool, i: InstanceId)
    requires OrchValid(o) && i != j
    ensures SideOf(ReceiveAck(o, j, k, ok, already).orch, i) == SideOf(o, i)
  {
    if k !in FlightOf(o.commands, j) {
      TeardownSides(o, j, i);
    }
  }

  /** What an awaited reply does to its side. */
  lemma StateOwn(o: Orch, i: InstanceId, reqId: nat, full: bool, s: Snapshot, valid: bool, now: Time)
    requires OrchValid(o) && i in o.links && OutstandingOf(o.polls, i) == Some(reqId)
    ensures var b, a := SideOf(o, i), SideOf(ReceiveState(o, i, reqId, full, s, valid, now).orch, i);
      && a == b.(outstanding := None, record := a.record)
      && a.record ==
        if !full then (if b.record.Some? then Some(b.record.value.(info := b.record.value.info.(lastSyncAt := now)))
          else None)
        else if !valid || (b.record.Some? && s.seqNo <= b.record.value.lastSeq) then b.record
        else RecordOf(Fleet(Applied(o.fleet.rows, i, s, now), {}, map[], NONE), i)
  {
    assert i in o.polls.entries;
  }

  /** What an ack does: settle its command, or end the connection. */
  lemma AckOwn(o: Orch, i: InstanceId, k: nat, ok: bool, already: bool)
    requires OrchValid(o) && i in o.links
    ensures var b, a := SideOf(o, i), SideOf(ReceiveAck(o, i, k, ok, already).orch, i);
      if k in b.flight then a == b.(flight := b.flight - {k}) else !a.linked
  {
    if k !in FlightOf(o.commands, i) {
      TeardownSides(o, i, i);
    }
  }
}
