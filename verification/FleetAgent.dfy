/** The agent as a program: its rooms, its snapshot builder and its frame handlers. */
module FleetAgents {
  import opened Prelude
  import opened Utf8
  import opened Ordered
  import opened FleetTypes
  import opened SnapshotHash
  import opened Commands
  import opened Orchestration
  import opened Agents

  /** The rooms the process hosts, in creation order, and the types it defines, sorted. */
  class RoomManager {
    var order: seq<Text>
    var rooms: map<Text, LiveRoom>
    var types: seq<Text>

    ghost predicate Valid()
      reads this
    {
      Orders(order, rooms)
    }

    constructor (types: seq<Text>)
      ensures Valid() && order == [] && rooms == map[] && this.types == types
    {
      order, rooms, this.types := [], map[], types;
    }

    method Create(roomType: Text, id: Text)
      requires Valid() && id !in rooms
      modifies `order, `rooms
      ensures Valid() && order == old(order) + [id] && rooms == old(rooms)[id := LiveRoom(roomType, 0)]
    {
      OrdersAppend(order, rooms, id, LiveRoom(roomType, 0));
      order, rooms := order + [id], rooms[id := LiveRoom(roomType, 0)];
    }

    method Destroy(id: Text)
      requires Valid()
      modifies `order, `rooms
      ensures Valid() && order == Ordered.Without(old(order), id) && rooms == old(rooms) - {id}
    {
      OrdersWithout(order, rooms, id);
      order, rooms := Ordered.Without(order, id), rooms - {id};
    }
  }

  class Snapshot {
    const config: Content
    const host: RoomManager
    var fleetOrigins: set<Text>
    var statusValue: Status
    var seqNo: nat

    ghost function Model(): Agent
      reads this, host
    {
      Agent(config, host.types, host.order, host.rooms, fleetOrigins, statusValue, seqNo)
    }

    ghost predicate Valid()
      reads this, host
    {
      AgentValid(Model())
    }

    constructor (host: RoomManager, config: Content)
      requires host.Valid() && LabelsDistinct(config.labels)
      ensures this.host == host && this.config == config && Valid()
      ensures fleetOrigins == {} && statusValue == config.status && seqNo == 0
    {
      this.host, this.config := host, config;
      fleetOrigins, statusValue, seqNo := {}, config.status, 0;
    }

    method SetStatus(status: Status)
      modifies `statusValue
      ensures statusValue == status
    {
      statusValue := status;
    }

    method MarkFleetOrigin(id: Text)
      modifies `fleetOrigins
      ensures fleetOrigins == old(fleetOrigins) + {id}
    {
      fleetOrigins := fleetOrigins + {id};
    }

    method ForgetRoom(id: Text)
      modifies `fleetOrigins
      ensures fleetOrigins == old(fleetOrigins) - {id}
    {
      fleetOrigins := fleetOrigins - {id};
    }

    method ResetConnection()
      modifies `seqNo
      ensures seqNo == 0
    {
      seqNo := 0;
    }

    method NextSeq() returns (n: nat)
      modifies `seqNo
      ensures n == seqNo == old(seqNo) + 1
    {
      seqNo := seqNo + 1;
      n := seqNo;
    }

    /** Each room with its origin, then sorted by id: the content never shows the order of creation. */
    method BuildContent() returns (content: Content)
      requires Valid()
      ensures content == Agents.BuildContent(Model())
    {
      var rooms: seq<SyncRoom> := [];
      var k := 0;
      while k < |host.order|
        invariant 0 <= k <= |host.order| && KeySet(host.order[k..]) <= KeySet(host.order) <= host.rooms.Keys
        invariant rooms + Listed(Model(), host.order[k..]) == Listed(Model(), host.order)
      {
        var id := host.order[k];
        assert host.order[k..] == [id] + host.order[k + 1..];
        var room := SyncRoom(id, host.rooms[id].roomType, host.rooms[id].connections, id in fleetOrigins);
        ghost var rest := Listed(Model(), host.order[k + 1..]);
        assert rooms + ([room] + rest) == (rooms + [room]) + rest;
        rooms := rooms + [room];
        k := k + 1;
      }
      assert host.order[k..] == [];
      assert rooms == Listed(Model(), host.order);
      content := config.(roomTypes := host.types, rooms := SortRooms(rooms), status := statusValue);
    }

    /** Full when the orchestrator's hash is missing or different; the counter advances either way. */
    method PollReply(reqId: nat, knownHash: Option<Hash>) returns (reply: Up)
      requires Valid()
      modifies `seqNo
      ensures Valid() && (Model(), reply) == Agents.PollReply(old(Model()), reqId, knownHash)
    {
      hide Agents.BuildContent, HashOf;
      var content := BuildContent();
      var hash := HashOf(content);
      var n := NextSeq();
      if knownHash.Some? && hash == knownHash.value {
        return State(reqId, false, FleetModel.Snapshot(n, hash, content));
      }
      reply := State(reqId, true, FleetModel.Snapshot(n, hash, content));
    }
  }

  datatype Lifecycle = Closed | Connecting | Connected | Draining

  /** A caller of `drain` or `undrain` waiting for the orchestrator to echo the status. */
  datatype Waiting = Waiting(ticket: nat, target: Status)

  /** Those still waiting after a poll that echoes this status. */
  function StillWaiting(waiting: seq<Waiting>, echoed: Status): seq<Waiting> {
    if waiting == [] then []
    else (if waiting[0].target == echoed then [] else [waiting[0]]) + StillWaiting(waiting[1..], echoed)
  }

  /** Those the poll resolves. */
  function Echoed(waiting: seq<Waiting>, echoed: Status): seq<Waiting> {
    if waiting == [] then []
    else (if waiting[0].target == echoed then [waiting[0]] else []) + Echoed(waiting[1..], echoed)
  }

  /** A caller is resolved exactly when the status it waits for is echoed; the others go on waiting, none is lost. */
  lemma {:induction false} EchoDecides(waiting: seq<Waiting>, echoed: Status, w: Waiting)
    ensures w in Echoed(waiting, echoed) <==> w in waiting && w.target == echoed
    ensures w in StillWaiting(waiting, echoed) <==> w in waiting && w.target != echoed
    ensures |Echoed(waiting, echoed)| + |StillWaiting(waiting, echoed)| == |waiting|
  {
    if waiting != [] {
      EchoDecides(waiting[1..], echoed, w);
    }
  }

  lemma EchoFirst(all: seq<Waiting>, k: nat, echoed: Status)
    requires k < |all|
    ensures var x, rest := all[k], all[k + 1..];
      && StillWaiting(all[k..], echoed) == (if x.target == echoed then [] else [x]) + StillWaiting(rest, echoed)
      && Echoed(all[k..], echoed) == (if x.target == echoed then [x] else []) + Echoed(rest, echoed)
  {
    assert all[k..][0] == all[k] && all[k..][1..] == all[k + 1..];
  }

  /** The first of the waiting is resolved or goes on waiting. */
  lemma EchoStep(all: seq<Waiting>, k: nat, remaining: seq<Waiting>, resolved: seq<Waiting>, echoed: Status)
    requires k < |all|
    ensures var x, rest := all[k], all[k + 1..];
      if x.target == echoed then
        && remaining + StillWaiting(rest, echoed) == remaining + StillWaiting(all[k..], echoed)
        && (resolved + [x]) + Echoed(rest, echoed) == resolved + Echoed(all[k..], echoed)
      else
        && (remaining + [x]) + StillWaiting(rest, echoed) == remaining + StillWaiting(all[k..], echoed)
        && resolved + Echoed(rest, echoed) == resolved + Echoed(all[k..], echoed)
  {
    hide Echoed, StillWaiting;
    var x, rest := all[k], all[k + 1..];
    EchoFirst(all, k, echoed);
    assert [] + StillWaiting(rest, echoed) == StillWaiting(rest, echoed);
    assert [] + Echoed(rest, echoed) == Echoed(rest, echoed);
    assert (resolved + [x]) + Echoed(rest, echoed) == resolved + ([x] + Echoed(rest, echoed));
    assert (remaining + [x]) + StillWaiting(rest, echoed) == remaining + ([x] + StillWaiting(rest, echoed));
  }

  class FleetAgent {
    const snapshot: Snapshot
    const host: RoomManager
    var lifecycle: Lifecycle
    var pendingStatus: seq<Waiting>
    var resolved: seq<Waiting>
    /** Whether the socket takes frames, and those it took. */
    var online: bool
    var outbox: seq<Up>

    ghost function Model(): Agent
      reads snapshot, host
      requires snapshot.host == host
    {
      snapshot.Model()
    }

    ghost predicate Valid()
      reads snapshot, host
    {
      snapshot.host == host && snapshot.Valid()
    }

    constructor (snapshot: Snapshot)
      requires snapshot.Valid()
      ensures Valid() && this.snapshot == snapshot && lifecycle == Closed && pendingStatus == resolved == [] && !online
        && outbox == []
    {
      this.snapshot, host := snapshot, snapshot.host;
      lifecycle, pendingStatus, resolved, online, outbox := Closed, [], [], false, [];
    }

    method Send(frame: Up)
      modifies `outbox
      ensures outbox == old(outbox) + if online then [frame] else []
    {
      if online {
        outbox := outbox + [frame];
      }
    }

    /** The greeting starts the frame counter anew. */
    method OnHello()
      requires Valid()
      modifies `lifecycle, snapshot`seqNo
      ensures Valid() && Model() == Take(old(Model()), Hello, true).0
      ensures lifecycle == if snapshot.statusValue == Status.Draining then Lifecycle.Draining else Connected
    {
      snapshot.ResetConnection();
      lifecycle := if snapshot.statusValue == Status.Draining then Lifecycle.Draining else Connected;
    }

    method ResolveStatusOnEcho(echoed: Status)
      modifies `pendingStatus, `resolved
      ensures pendingStatus == StillWaiting(old(pendingStatus), echoed)
      ensures resolved == old(resolved) + Echoed(old(pendingStatus), echoed)
    {
      var all, remaining, k := pendingStatus, [], 0;
      ghost var before := resolved;
      while k < |all|
        invariant 0 <= k <= |all|
        invariant remaining + StillWaiting(all[k..], echoed) == StillWaiting(all, echoed)
        invariant resolved + Echoed(all[k..], echoed) == before + Echoed(all, echoed)
      {
        EchoStep(all, k, remaining, resolved, echoed);
        if all[k].target == echoed {
          resolved := resolved + [all[k]];
        } else {
          remaining := remaining + [all[k]];
        }
        k := k + 1;
      }
      assert all[k..] == [];
      pendingStatus := remaining;
    }

    /** A poll is answered only over a live socket, but its echo is heard in any case. */
    method OnPoll(reqId: nat, knownHash: Option<Hash>, status: Status)
      requires Valid()
      modifies `pendingStatus, `resolved, `outbox, snapshot`seqNo
      ensures Valid()
      ensures pendingStatus == StillWaiting(old(pendingStatus), status)
      ensures online ==>
        var (agent, answer) := Take(old(Model()), Down.Poll(reqId, knownHash, status), true);
        Model() == agent && outbox == old(outbox) + answer
      ensures !online ==> Model() == old(Model()) && outbox == old(outbox)
    {
      ResolveStatusOnEcho(status);
      if online {
        var reply := snapshot.PollReply(reqId, knownHash);
        Send(reply);
      }
    }

    method OnCmd(cmdId: nat, op: Op, succeeds: bool)
      requires Valid()
      modifies `lifecycle, `outbox, snapshot`fleetOrigins, snapshot`statusValue, host`order, host`rooms
      ensures Valid()
      ensures var (agent, ack) := Agents.OnCmd(old(Model()), cmdId, op, succeeds);
        Model() == agent && outbox == old(outbox) + if online then [ack] else []
      ensures lifecycle == match op case Drain => Lifecycle.Draining case Undrain => Connected case _ => old(lifecycle)
    {
      match op
      case Create(id, roomType) => ExecCreate(cmdId, id, roomType, succeeds);
      case Destroy(id) => ExecDestroy(cmdId, id, succeeds);
      case Drain => ExecStatusCmd(cmdId, Status.Draining);
      case Undrain => ExecStatusCmd(cmdId, Active);
    }

    /** `succeeds`: the room's own code does not object. */
    method ExecCreate(cmdId: nat, id: Text, roomType: Text, succeeds: bool)
      requires Valid()
      modifies `outbox, snapshot`fleetOrigins, host`order, host`rooms
      ensures Valid()
      ensures var (agent, ack) := Agents.ExecCreate(old(Model()), cmdId, id, roomType, succeeds);
        Model() == agent && outbox == old(outbox) + if online then [ack] else []
    {
      if !snapshot.config.autoCreate {
        Send(Ack(cmdId, false, false));
        return;
      }
      var max := snapshot.config.capacity.maxRooms;
      if max.Some? && |host.order| >= max.value {
        Send(Ack(cmdId, false, false));
        return;
      }
      if id in host.rooms {
        Send(Ack(cmdId, false, true));
        return;
      }
      if !succeeds {
        Send(Ack(cmdId, false, false));
        return;
      }
      host.Create(roomType, id);
      snapshot.MarkFleetOrigin(id);
      Send(Ack(cmdId, true, false));
    }

    method ExecDestroy(cmdId: nat, id: Text, succeeds: bool)
      requires Valid()
      modifies `outbox, snapshot`fleetOrigins, host`order, host`rooms
      ensures Valid()
      ensures var (agent, ack) := Agents.ExecDestroy(old(Model()), cmdId, id, succeeds);
        Model() == agent && outbox == old(outbox) + if online then [ack] else []
    {
      if id !in host.rooms {
        Send(Ack(cmdId, true, false));
        return;
      }
      if !succeeds {
        Send(Ack(cmdId, false, false));
        return;
      }
      host.Destroy(id);
      snapshot.ForgetRoom(id);
      Send(Ack(cmdId, true, false));
    }

    /** The agent owns its status: it flips it and says so. */
    method ExecStatusCmd(cmdId: nat, status: Status)
      requires Valid()
      modifies `lifecycle, `outbox, snapshot`statusValue
      ensures Valid()
      ensures var (agent, ack) := ExecStatus(old(Model()), cmdId, status);
        Model() == agent && outbox == old(outbox) + if online then [ack] else []
      ensures lifecycle == if status == Status.Draining then Lifecycle.Draining else Connected
    {
      snapshot.SetStatus(status);
      lifecycle := if status == Status.Draining then Lifecycle.Draining else Connected;
      Send(Ack(cmdId, true, false));
    }

    /** A local drain or undrain flips the status at once and waits for the echo. */
    method RequestStatus(ticket: nat, target: Status)
      requires Valid()
      modifies `lifecycle, `pendingStatus, snapshot`statusValue
      ensures Valid() && Model() == Locally(old(Model()), StatusFlipped(target))
      ensures pendingStatus == old(pendingStatus) + [Waiting(ticket, target)]
      ensures lifecycle == if target == Status.Draining then Lifecycle.Draining else Connected
    {
      snapshot.SetStatus(target);
      lifecycle := if target == Status.Draining then Lifecycle.Draining else Connected;
      pendingStatus := pendingStatus + [Waiting(ticket, target)];
    }

    /** A room the host destroys loses its provenance, so a later room of the same id is not taken for the fleet's. */
    method OnRoomDestroy(id: Text)
      requires Valid() && id in host.rooms
      modifies snapshot`fleetOrigins, host`order, host`rooms
      ensures Valid() && Model() == Locally(old(Model()), RoomClosed(id))
    {
      host.Destroy(id);
      snapshot.ForgetRoom(id);
    }
  }
}
