/** The agents' room on the transport, and the command engine that sends through it. */
module CommandEngines {
  import opened Prelude
  import opened FleetTypes
  import opened Reservations
  import opened Commands
  import Desks = Commands
  import opened Orchestration
  import opened FleetStates

  /** One room hosts every agent; a link is an actor of it. */
  class FleetRoom {
    /** The actors whose sockets take frames. */
    var open: set<InstanceId>
    /** Frames handed over, oldest first. */
    var sent: seq<(InstanceId, Down)>
    var kicked: set<InstanceId>

    constructor ()
      ensures open == {} && sent == [] && kicked == {}
    {
      open, sent, kicked := {}, [], {};
    }

    /** Sending to a socket that takes no frames fails. */
    method Send(i: InstanceId, frame: Down) returns (ok: bool)
      modifies `sent
      ensures ok == (i in open) && sent == if ok then old(sent) + [(i, frame)] else old(sent)
    {
      ok := i in open;
      if ok {
        sent := sent + [(i, frame)];
      }
    }

    method Kick(i: InstanceId)
      modifies `kicked
      ensures kicked == old(kicked) + {i}
    {
      kicked := kicked + {i};
    }
  }

  class CommandEngine {
    const reservations: FleetState
    /** Pending commands by instance, then by command id; a timer runs for each. */
    var pending: map<InstanceId, InFlight>
    var cmdSeq: nat
    /** How the callers' promises settled. */
    var settled: map<nat, Outcome>

    ghost function Model(): Commands
      reads this
    {
      Commands(pending, cmdSeq, settled)
    }

    /** The commands together with the reservations they ride on. */
    ghost function DeskModel(): Desk
      reads this, reservations
    {
      Desk(reservations.HoldsModel(), Model())
    }

    constructor (state: FleetState)
      ensures reservations == state && Model() == IDLE
    {
      reservations := state;
      pending, cmdSeq, settled := map[], 0, map[];
    }

    method NextCmdId() returns (cmdId: nat)
      modifies `cmdSeq
      ensures cmdId == cmdSeq && DeskModel() == Numbered(old(DeskModel()))
    {
      cmdSeq := cmdSeq + 1;
      cmdId := cmdSeq;
    }

    function OpOf(i: InstanceId, cmdId: nat): (op: Option<Op>)
      reads this
      ensures op == if cmdId in FlightOf(Model(), i) then Some(FlightOf(Model(), i)[cmdId].op) else None
    {
      if i in pending && cmdId in pending[i] then Some(pending[i][cmdId].op) else None
    }

    // ----- disposing of reservations -----

    method ReleaseReservations(p: Pending)
      modifies reservations`reservations, reservations`reservedByInstance, reservations`reservedRoomIds
      ensures reservations.HoldsModel() == ReleaseBoth(old(reservations.HoldsModel()), p)
    {
      if p.reservation.Some? {
        reservations.Release(p.reservation.value);
      }
      if p.roomId.Some? {
        reservations.ReleaseRoomId(p.roomId.value);
      }
    }

    method HoldOrRelease(p: Pending)
      modifies reservations`reservations, reservations`reservedByInstance, reservations`reservedRoomIds,
               reservations`pendingRoomIds, reservations`pendingByInstance
      ensures reservations.HoldsModel() == Desks.HoldOrRelease(old(reservations.HoldsModel()), p)
    {
      if p.reservation.Some? && p.roomId.Some? {
        reservations.HoldUntilVisible(p.roomId.value, p.reservation.value);
      } else {
        ReleaseReservations(p);
      }
    }

    // ----- settling -----

    /** Remove exactly one pending command, with its timer; nothing if it is not there. */
    method Take(i: InstanceId, cmdId: nat) returns (p: Option<Pending>)
      modifies `pending
      ensures p == if cmdId in FlightOf(old(Model()), i) then Some(FlightOf(old(Model()), i)[cmdId]) else None
      ensures p.Some? ==> Model() == Without(old(DeskModel()), i, cmdId)
      ensures p.None? ==> Model() == old(Model())
    {
      if i !in pending || cmdId !in pending[i] {
        return None;
      }
      p := Some(pending[i][cmdId]);
      pending := pending[i := pending[i] - {cmdId}];
    }

    method Ack(i: InstanceId, cmdId: nat, ok: bool, already: bool) returns (matched: bool)
      modifies this, reservations`reservations, reservations`reservedByInstance, reservations`reservedRoomIds,
               reservations`pendingRoomIds, reservations`pendingByInstance
      ensures (DeskModel(), matched) == Acked(old(DeskModel()), i, cmdId, ok, already)
    {
      var p := Take(i, cmdId);
      if p.None? {
        return false;
      }
      if ok {
        HoldOrRelease(p.value);
        settled := settled[cmdId := Fulfilled];
      } else {
        ReleaseReservations(p.value);
        settled := settled[cmdId := if already then RoomExists else Failed];
      }
      return true;
    }

    /** The timer of a command fires: the room may exist all the same, so its id stays held. */
    method TimeOut(i: InstanceId, cmdId: nat)
      modifies this, reservations`reservations, reservations`reservedByInstance, reservations`reservedRoomIds,
               reservations`pendingRoomIds, reservations`pendingByInstance
      ensures DeskModel() == Expired(old(DeskModel()), i, cmdId)
    {
      var p := Take(i, cmdId);
      if p.Some? {
        HoldOrRelease(p.value);
        settled := settled[cmdId := TimedOut];
      }
    }

    // ----- sending -----

    /** The commands of an instance, in a map that is there from now on. */
    method MapFor(i: InstanceId) returns (flight: InFlight)
      modifies `pending
      ensures flight == FlightOf(old(Model()), i) && pending == old(pending)[i := flight]
    {
      if i !in pending {
        pending := pending[i := map[]];
      }
      flight := pending[i];
    }

    /** At most so many commands are in flight per instance; one that cannot be sent is settled at once. */
    method Send(room: FleetRoom, i: InstanceId, cmdId: nat, p: Pending) returns (result: SendResult)
      modifies this, room`sent, reservations`reservations, reservations`reservedByInstance, reservations`reservedRoomIds
      ensures (DeskModel(), result) == Sent(old(DeskModel()), i, cmdId, p, i in room.open)
      ensures room.sent == old(room.sent) + if result == Underway then [(i, Cmd(cmdId, p.op))] else []
    {
      var flight := MapFor(i);
      if |flight| >= MAX_INFLIGHT {
        ReleaseReservations(p);
        settled := settled[cmdId := Busied];
        return Busy;
      }
      var ok := Dispatch(room, i, cmdId, p);
      assert pending == old(pending)[i := if ok then With(flight, cmdId, p) else flight - {cmdId}];
      result := if ok then Underway else Unsent;
    }

    /** The command is pending before its frame is handed over, and taken back if that fails. */
    method Dispatch(room: FleetRoom, i: InstanceId, cmdId: nat, p: Pending) returns (ok: bool)
      requires i in pending
      modifies `pending, `settled, room`sent, reservations`reservations, reservations`reservedByInstance,
        reservations`reservedRoomIds
      ensures ok == (i in room.open)
      ensures pending == old(pending)[i := if ok then With(old(pending)[i], cmdId, p) else old(pending)[i] - {cmdId}]
      ensures settled == if ok then old(settled) else old(settled)[cmdId := Disconnected]
      ensures reservations.HoldsModel() == if ok then old(reservations.HoldsModel())
        else ReleaseBoth(old(reservations.HoldsModel()), p)
      ensures room.sent == old(room.sent) + if ok then [(i, Cmd(cmdId, p.op))] else []
    {
      ghost var flight := pending[i];
      pending := pending[i := With(pending[i], cmdId, p)];
      ok := room.Send(i, Cmd(cmdId, p.op));
      if !ok {
        RejectOne(i, cmdId);
        assert With(flight, cmdId, p) - {cmdId} == flight - {cmdId};
      }
    }

    // ----- rejecting -----

    /** Reject every command of an instance, oldest first. */
    method RejectAll(i: InstanceId)
      modifies this, reservations`reservations, reservations`reservedByInstance, reservations`reservedRoomIds
      ensures DeskModel() == RejectedAll(old(DeskModel()), i)
    {
      if i !in pending {
        assert pending - {i} == pending;
        return;
      }
      RejectEach(i);
      pending := pending - {i};
    }

    method RejectEach(i: InstanceId)
      requires i in pending
      modifies `pending, `settled, reservations`reservations, reservations`reservedByInstance,
        reservations`reservedRoomIds
      ensures pending == old(pending)[i := map[]]
      ensures reservations.HoldsModel() == ReleaseAll(old(reservations.HoldsModel()), old(pending)[i])
      ensures settled == Disconnecting(old(settled), old(pending)[i])
    {
      ghost var base, start := pending, Turn(reservations.HoldsModel(), settled, pending[i]);
      var rest := pending[i];
      while rest != map[]
        invariant pending == base[i := rest]
        invariant Ends(Turn(reservations.HoldsModel(), settled, rest)) == Ends(start)
        decreases |rest|
      {
        var cmdId := Least(rest.Keys);
        RejectStep(reservations.HoldsModel(), settled, rest, cmdId);
        RejectOne(i, cmdId);
        rest := rest - {cmdId};
      }
      NoneLeft(reservations.HoldsModel(), settled);
    }

    method RejectOne(i: InstanceId, cmdId: nat)
      requires i in pending && cmdId in pending[i]
      modifies `pending, `settled, reservations`reservations, reservations`reservedByInstance,
        reservations`reservedRoomIds
      ensures pending == old(pending)[i := old(pending)[i] - {cmdId}]
      ensures reservations.HoldsModel() == ReleaseBoth(old(reservations.HoldsModel()), old(pending)[i][cmdId])
      ensures settled == old(settled)[cmdId := Disconnected]
    {
      var p := Take(i, cmdId);
      ReleaseReservations(p.value);
      settled := settled[cmdId := Disconnected];
    }
  }

  function With(flight: InFlight, cmdId: nat, p: Pending): InFlight {
    flight[cmdId := p]
  }

  /** Every command of the flight settled as disconnected. */
  ghost function Disconnecting(settled: map<nat, Outcome>, flight: InFlight): map<nat, Outcome> {
    settled + map k | k in flight :: Disconnected
  }

  /** Where rejecting commands one after the other has got to. */
  datatype Turn = Turn(holds: Holds, settled: map<nat, Outcome>, rest: InFlight)

  ghost function Ends(t: Turn): (Holds, map<nat, Outcome>) {
    (ReleaseAll(t.holds, t.rest), Disconnecting(t.settled, t.rest))
  }

  lemma RejectStep(h: Holds, settled: map<nat, Outcome>, flight: InFlight, k: nat)
    requires flight != map[] && k == Least(flight.Keys)
    ensures |flight - {k}| < |flight|
    ensures Ends(Turn(ReleaseBoth(h, flight[k]), settled[k := Disconnected], flight - {k}))
      == Ends(Turn(h, settled, flight))
  {
    Smaller(flight, k);
    assert Disconnecting(settled[k := Disconnected], flight - {k}) == Disconnecting(settled, flight);
  }

  lemma NoneLeft(h: Holds, settled: map<nat, Outcome>)
    ensures Ends(Turn(h, settled, map[])) == (h, settled)
  {
    assert Disconnecting(settled, map[]) == settled;
  }
}
