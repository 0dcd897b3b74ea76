/** What the control surface answers: the room promised, or why there is none. */
module ControlAnswers {
  import opened Prelude
  import opened Utf8
  import opened RoomId
  import opened FleetTypes
  import opened PublicIds
  import Reservations
  import opened FleetModel
  import opened Placement
  import opened Hosting
  import opened FleetStates
  import opened Clashes
  import opened ControlRequests
  import opened FleetControls

  /** The id is neither reserved nor held nor reported. */
  ghost predicate InUse(f: Fleet, id: Text)
    requires RowsValid(f.rows)
  {
    id in f.holds.reserved || id in f.holds.pending || Locate(f.rows, id).Some?
  }

  /** An id that is not legal is invalid, one in use is taken; without one, every draw of the first thousand is. */
  lemma IdRefused(f: Fleet, links: set<InstanceId>, roomId: Option<Text>, draws: seq<Text>, request: Request,
                  random: real)
    requires RowsValid(f.rows) && 0.0 <= random <= 1.0
    ensures var answer := CreateAnswer(f, links, roomId, draws, request, random);
      && (roomId.Some? && !IsValidRoomId(roomId.value) ==> answer == Err(ValidationFailed))
      && (roomId.Some? && IsValidRoomId(roomId.value) && InUse(f, roomId.value) ==> answer == Err(RoomIdTaken))
      && (roomId.None? && (forall d | 0 <= d < |draws| && d < 1000 :: InUse(f, draws[d])) ==>
        answer == Err(RoomIdTaken))
  {
    hide Locate, PlacedAnswer;
    if roomId.None? && (forall d | 0 <= d < |draws| && d < 1000 :: InUse(f, draws[d])) {
      NoneFree(f, draws, 1000);
    }
  }

  /** A legal id that is free is granted; without one, the first draw that is free. */
  lemma IdGranted(f: Fleet, roomId: Option<Text>, draws: seq<Text>)
    requires RowsValid(f.rows)
    ensures roomId.Some? && IsValidRoomId(roomId.value) && !InUse(f, roomId.value) ==>
      IdToReserve(f, roomId, draws) == Ok(roomId.value)
    ensures forall d | roomId.None? && 0 <= d < |draws| && d < 1000 && !InUse(f, draws[d])
      && (forall c | 0 <= c < d :: InUse(f, draws[c])) :: IdToReserve(f, roomId, draws) == Ok(draws[d])
  {
    hide Locate;
    forall d | roomId.None? && 0 <= d < |draws| && d < 1000 && !InUse(f, draws[d])
      && (forall c | 0 <= c < d :: InUse(f, draws[c]))
      ensures IdToReserve(f, roomId, draws) == Ok(draws[d])
    {
      FirstIsDrawn(f, draws, 1000, d);
    }
  }

  lemma {:induction false} FirstIsDrawn(f: Fleet, draws: seq<Text>, attempts: nat, d: nat)
    requires RowsValid(f.rows) && d < |draws| && d < attempts && !InUse(f, draws[d])
    requires forall c | 0 <= c < d :: InUse(f, draws[c])
    ensures FirstFree(f, draws, attempts) == Some(draws[d])
    decreases attempts
  {
    hide Locate;
    if d > 0 {
      forall c | 0 <= c < d - 1
        ensures InUse(f, draws[1..][c])
      {
        assert draws[1..][c] == draws[c + 1];
      }
      FirstIsDrawn(f, draws[1..], attempts - 1, d - 1);
    }
  }

  lemma {:induction false} NoneFree(f: Fleet, draws: seq<Text>, attempts: nat)
    requires RowsValid(f.rows) && forall d | 0 <= d < |draws| && d < attempts :: InUse(f, draws[d])
    ensures FirstFree(f, draws, attempts) == None
    decreases attempts
  {
    hide Locate;
    if attempts > 0 && draws != [] {
      forall d | 0 <= d < |draws[1..]| && d < attempts - 1
        ensures InUse(f, draws[1..][d])
      {
        assert draws[1..][d] == draws[d + 1];
      }
      NoneFree(f, draws[1..], attempts - 1);
    }
  }

  /** The room promised: new, empty, the fleet's, at an instance that fits and is connected. */
  lemma RoomPromised(f: Fleet, links: set<InstanceId>, roomId: Option<Text>, draws: seq<Text>, request: Request,
                     random: real)
    requires RowsValid(f.rows) && Reservations.Valid(f.holds) && 0.0 <= random <= 1.0
    requires forall d :: d in draws ==> IsValidRoomId(d)
    requires CreateAnswer(f, links, roomId, draws, request, random).Ok?
    ensures var room := CreateAnswer(f, links, roomId, draws, request, random).value;
      && IdFits(f, roomId, draws, room.id) && PlaceFits(f, request, room.instanceId)
      && room.instanceId in links && room.instanceId in f.rows.records
      && room == RoomInfo(room.id, request.roomType, 0, room.instanceId,
        f.rows.records[room.instanceId].info.endpointUrl, false)
  {
    hide IdToReserve, Selected, IdFits, PlaceFits, Reservations.Valid;
    IdFound(f, roomId, draws);
    var id := IdToReserve(f, roomId, draws).value;
    FitsIsNotPending(f, roomId, draws, id);
    ChosenFits(f, id, request, random);
    SelectedRecorded(f.(holds := Reservations.ReserveId(f.holds, id)), request, random);
  }

  lemma FitsIsNotPending(f: Fleet, roomId: Option<Text>, draws: seq<Text>, id: Text)
    requires RowsValid(f.rows) && IdFits(f, roomId, draws, id)
    ensures id !in f.holds.pending
  {
  }

  lemma SelectedRecorded(f: Fleet, request: Request, random: real)
    requires RowsValid(f.rows) && 0.0 <= random <= 1.0 && Selected(f, request, random).Ok?
    ensures var info := Selected(f, request, random).value;
      info.id in f.rows.records && f.rows.records[info.id].info == info
  {
    if IsPinned(request) {
      PinIsHonoured(f, request, random);
    } else {
      PlacementIsSound(f, request, random);
    }
  }

  /** With the id granted and no pin, the answer is that there is no candidate exactly if nobody can host the room. */
  lemma NoCandidateExactly(f: Fleet, links: set<InstanceId>, roomId: Option<Text>, draws: seq<Text>, request: Request,
                           random: real)
    requires RowsValid(f.rows) && Reservations.Valid(f.holds) && 0.0 <= random <= 1.0
    requires forall d :: d in draws ==> IsValidRoomId(d)
    requires IdToReserve(f, roomId, draws).Ok? && request.instanceId.None? && request.processUid.None?
    ensures CreateAnswer(f, links, roomId, draws, request, random) == Err(NoCandidate) <==>
      forall i :: !CanHost(f, request, i)
  {
    hide IdToReserve, Selected, IdFits, CanHost, MayTake, Reservations.Valid;
    IdFound(f, roomId, draws);
    var id := IdToReserve(f, roomId, draws).value;
    FitsIsNotPending(f, roomId, draws, id);
    var g := f.(holds := Reservations.ReserveId(f.holds, id));
    StillValid(f.holds, id);
    PlacedOnFavoured(g, request, random);
    forall i
      ensures CanHost(g, request, i) == CanHost(f, request, i)
    {
      CanHostSame(f, id, request, i);
    }
    if Selected(g, request, random).Ok? {
      MayHost(g, request, Selected(g, request, random).value.id);
    }
  }

  lemma StillValid(h: Reservations.Holds, id: Text)
    requires Reservations.Valid(h) && id !in h.pending
    ensures Reservations.Valid(Reservations.ReserveId(h, id))
  {
  }

  /** An id nobody reports is not found; otherwise its owner is asked, unless it is no longer connected. */
  lemma DestroyAnswered(f: Fleet, links: set<InstanceId>, id: Text)
    requires RowsValid(f.rows)
    ensures var answer := DestroyAnswer(f, links, EncodedRoomId(id));
      && (!Reported(f.rows.records, id) ==> answer == Err(RoomNotFound))
      && forall s | Owns(f.rows.records, s, id) ::
        answer == if s.instance in links then Ok(s.instance) else Err(FleetError.InstanceDisconnected)
  {
    hide Locate, Owns, Reported;
    OwnerIsLocated(f.rows, id);
  }
}
