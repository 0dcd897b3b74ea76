/** Choosing an instance for a new room, under status, liveness and capacity limits. */
module Placement {
  import opened Prelude
  import opened Utf8
  import opened Ordered
  import opened FleetTypes
  import opened Resolution
  import opened Reservations
  import opened FleetModel

  datatype Strategy = LeastLoaded | MostLoaded | Random

  datatype Request = Request(
    roomType: Text, instanceId: Option<InstanceId>, processUid: Option<Text>, force: bool,
    labels: Option<seq<Label>>, strategy: Option<Strategy>)

  datatype FleetError =
    | ValidationFailed | InstanceNotFound | InstanceDraining | InstanceDisconnected | NoCandidate
    | RoomIdTaken | RoomNotFound | InstanceBusy | CommandFailed | TooLate

  // ----- filtering -----

  function LabelValue(labels: seq<Label>, key: Text): Option<Text> {
    if labels == [] then None
    else if labels[0].key == key then Some(labels[0].value)
    else LabelValue(labels[1..], key)
  }

  /** Every required pair is there. */
  predicate MatchesLabels(labels: seq<Label>, required: seq<Label>) {
    required == [] || (LabelValue(labels, required[0].key) == Some(required[0].value)
      && MatchesLabels(labels, required[1..]))
  }

  function EffectiveStatus(f: Fleet, info: InstanceInfo): Status {
    if info.id in f.pendingStatus then f.pendingStatus[info.id] else info.status
  }

  /** Rooms reported, reserved and held. */
  function Load(f: Fleet, info: InstanceInfo): nat {
    |info.rooms| + Occupied(f.holds, info.id)
  }

  predicate HasHeadroom(f: Fleet, info: InstanceInfo) {
    && (info.capacity.maxRooms.Some? ==> Load(f, info) < info.capacity.maxRooms.value)
    && (info.capacity.maxConnections.Some? ==> info.connections < info.capacity.maxConnections.value)
  }

  predicate IsCandidate(f: Fleet, req: Request, info: InstanceInfo) {
    && EffectiveStatus(f, info) == Active
    && info.id !in f.stale
    && info.autoCreate
    && req.roomType in info.roomTypes
    && (req.labels.Some? ==> MatchesLabels(info.labels, req.labels.value))
    && HasHeadroom(f, info)
  }

  function Candidates(f: Fleet, req: Request, order: seq<InstanceId>): seq<InstanceInfo>
    requires KeySet(order) <= f.rows.records.Keys
  {
    if order == [] then []
    else
      var info := f.rows.records[order[0]].info;
      (if IsCandidate(f, req, info) then [info] else []) + Candidates(f, req, order[1..])
  }

  // ----- picking -----

  predicate AllDeclare(candidates: seq<InstanceInfo>) {
    candidates == [] || (candidates[0].capacity.maxConnections.Some? && AllDeclare(candidates[1..]))
  }

  /** Load per connection slot where every candidate declares one, otherwise plain connections. */
  function Score(info: InstanceInfo, normalised: bool): real {
    if normalised && info.capacity.maxConnections.Some? && info.capacity.maxConnections.value > 0
    then info.connections as real / info.capacity.maxConnections.value as real
    else info.connections as real
  }

  function BestScore(candidates: seq<InstanceInfo>, normalised: bool, most: bool, best: real): real {
    if candidates == [] then best
    else
      var score := Score(candidates[0], normalised);
      BestScore(candidates[1..], normalised, most, if (if most then score > best else score < best) then score
        else best)
  }

  function Tied(candidates: seq<InstanceInfo>, normalised: bool, best: real): seq<InstanceInfo> {
    if candidates == [] then [] else
      var first := if Score(candidates[0], normalised) == best then [candidates[0]] else [];
      first + Tied(candidates[1..], normalised, best)
  }

  /** A draw of exactly one is clamped to the last entry. */
  function Choose(list: seq<InstanceInfo>, random: real): InstanceInfo
    requires list != [] && 0.0 <= random <= 1.0
  {
    var index := Scaled(random, |list|).Floor;
    ScaledInRange(random, |list|);
    list[if index < |list| then index else |list| - 1]
  }

  function Scaled(random: real, n: nat): real {
    random * n as real
  }

  lemma ScaledNotNegative(random: real, n: nat)
    requires 0.0 <= random
    ensures Scaled(random, n) >= 0.0
  {
  }

  lemma ScaledInRange(random: real, n: nat)
    requires 0.0 <= random <= 1.0
    ensures 0 <= Scaled(random, n).Floor <= n
  {
    ScaledNotNegative(random, n);
    ScaledNotNegative(1.0 - random, n);
    assert Scaled(1.0 - random, n) == n as real - Scaled(random, n);
  }

  function Pick(candidates: seq<InstanceInfo>, strategy: Strategy, random: real): InstanceInfo
    requires candidates != [] && 0.0 <= random <= 1.0
  {
    if strategy.Random? then Choose(candidates, random)
    else
      var normalised := AllDeclare(candidates);
      var best := BestScore(candidates, normalised, strategy.MostLoaded?, Score(candidates[0], normalised));
      TiedNotEmpty(candidates, strategy.MostLoaded?);
      Choose(Tied(candidates, normalised, best), random)
  }

  // ----- placing -----

  function LatestOf(order: seq<InstanceId>, m: Records, uid: Text, latest: Option<Record>): Option<Record>
    requires KeySet(order) <= m.Keys
  {
    if order == [] then latest
    else
      var r := m[order[0]];
      LatestOf(order[1..], m, uid,
        if r.info.processUid == uid && (latest.None? || r.joinSeq > latest.value.joinSeq) then Some(r) else latest)
  }

  function Pinned(f: Fleet, req: Request): Option<InstanceInfo>
    requires KeySet(f.rows.order) <= f.rows.records.Keys
  {
    if req.instanceId.Some? then
      if req.instanceId.value in f.rows.records then Some(f.rows.records[req.instanceId.value].info) else None
    else if req.processUid.Some? then
      var latest := LatestOf(f.rows.order, f.rows.records, req.processUid.value, None);
      if latest.Some? then Some(latest.value.info) else None
    else None
  }

  predicate IsPinned(req: Request) {
    req.instanceId.Some? || req.processUid.Some?
  }

  function Selected(f: Fleet, req: Request, random: real): Result<InstanceInfo, FleetError>
    requires KeySet(f.rows.order) <= f.rows.records.Keys && 0.0 <= random <= 1.0
  {
    if req.instanceId.Some? && req.processUid.Some? then Err(ValidationFailed)
    else if IsPinned(req) then
      match Pinned(f, req)
      case None => Err(InstanceNotFound)
      case Some(info) =>
        if EffectiveStatus(f, info) == Draining && !req.force then Err(InstanceDraining)
        else if info.id in f.stale && !req.force then Err(InstanceDisconnected)
        else if !info.autoCreate then Err(NoCandidate)
        else Ok(info)
    else
      var candidates := Candidates(f, req, f.rows.order);
      if candidates == [] then Err(NoCandidate)
      else Ok(Pick(candidates, if req.strategy.Some? then req.strategy.value else LeastLoaded, random))
  }

  /** Selecting and reserving is one step. */
  function Place(f: Fleet, req: Request, random: real): (Fleet, Result<InstanceInfo, FleetError>)
    requires KeySet(f.rows.order) <= f.rows.records.Keys && 0.0 <= random <= 1.0
  {
    match Selected(f, req, random)
    case Err(e) => (f, Err(e))
    case Ok(info) => (f.(holds := Reserve(f.holds, info.id)), Ok(info))
  }

  // ----- what a placement promises -----

  lemma {:induction false} CandidatesAre(f: Fleet, req: Request, order: seq<InstanceId>, info: InstanceInfo)
    requires KeySet(order) <= f.rows.records.Keys
    ensures info in Candidates(f, req, order) <==>
      IsCandidate(f, req, info) && exists i :: i in KeySet(order) && f.rows.records[i].info == info
  {
    if order != [] {
      CandidatesAre(f, req, order[1..], info);
      if i :| i in KeySet(order) && f.rows.records[i].info == info {
        assert i == order[0] || i in KeySet(order[1..]);
      }
      if i :| i in KeySet(order[1..]) && f.rows.records[i].info == info {
        assert i in KeySet(order);
      }
      if f.rows.records[order[0]].info == info {
        assert order[0] in KeySet(order);
      }
    }
  }

  lemma {:induction false} BestScoreBounds(candidates: seq<InstanceInfo>, normalised: bool, most: bool, best: real)
    ensures var b := BestScore(candidates, normalised, most, best);
      && (if most then best <= b else b <= best)
      && (forall c :: c in candidates ==> if most then Score(c, normalised) <= b else b <= Score(c, normalised))
      && (b == best || exists c :: c in candidates && Score(c, normalised) == b)
    decreases candidates
  {
    if candidates != [] {
      var score := Score(candidates[0], normalised);
      var next := if (if most then score > best else score < best) then score else best;
      BestScoreBounds(candidates[1..], normalised, most, next);
      var b := BestScore(candidates, normalised, most, best);
      assert candidates == [candidates[0]] + candidates[1..];
      if b != next {
        var c :| c in candidates[1..] && Score(c, normalised) == b;
        assert c in candidates;
      } else if next == score {
        assert candidates[0] in candidates;
      }
    }
  }

  lemma {:induction false} TiedAre(candidates: seq<InstanceInfo>, normalised: bool, best: real, c: InstanceInfo)
    ensures c in Tied(candidates, normalised, best) <==> c in candidates && Score(c, normalised) == best
  {
    if candidates != [] {
      TiedAre(candidates[1..], normalised, best, c);
      assert candidates == [candidates[0]] + candidates[1..];
    }
  }

  lemma TiedNotEmpty(candidates: seq<InstanceInfo>, most: bool)
    requires candidates != []
    ensures var normalised := AllDeclare(candidates);
      Tied(candidates, normalised, BestScore(candidates, normalised, most, Score(candidates[0], normalised))) != []
  {
    var normalised := AllDeclare(candidates);
    var first := Score(candidates[0], normalised);
    var best := BestScore(candidates, normalised, most, first);
    BestScoreBounds(candidates, normalised, most, first);
    var c := candidates[0];
    if best != first {
      c :| c in candidates && Score(c, normalised) == best;
    }
    TiedAre(candidates, normalised, best, c);
  }

  /** Strategy placement: a live, willing candidate with room, as little (or as much) loaded as any. */
  lemma PlacementIsSound(f: Fleet, req: Request, random: real)
    requires RowsValid(f.rows) && 0.0 <= random <= 1.0 && !IsPinned(req) && Selected(f, req, random).Ok?
    ensures var info := Selected(f, req, random).value;
      && info.id in f.rows.records && f.rows.records[info.id].info == info && IsCandidate(f, req, info)
      && var all := Candidates(f, req, f.rows.order);
        && info in all
        && (req.strategy.None? || req.strategy.value.LeastLoaded? ==>
              forall c :: c in all ==> Score(info, AllDeclare(all)) <= Score(c, AllDeclare(all)))
        && (req.strategy == Some(MostLoaded) ==>
              forall c :: c in all ==> Score(info, AllDeclare(all)) >= Score(c, AllDeclare(all)))
  {
    var all := Candidates(f, req, f.rows.order);
    var info := Selected(f, req, random).value;
    var strategy := if req.strategy.Some? then req.strategy.value else LeastLoaded;
    PickIsBest(all, strategy, random);
    CandidatesAre(f, req, f.rows.order, info);
  }

  function BestOf(all: seq<InstanceInfo>, most: bool): real
    requires all != []
  {
    BestScore(all, AllDeclare(all), most, Score(all[0], AllDeclare(all)))
  }

  lemma PickHasBestScore(all: seq<InstanceInfo>, strategy: Strategy, random: real)
    requires all != [] && 0.0 <= random <= 1.0
    ensures Pick(all, strategy, random) in all
    ensures !strategy.Random? ==>
      Score(Pick(all, strategy, random), AllDeclare(all)) == BestOf(all, strategy.MostLoaded?)
  {
    if !strategy.Random? {
      TiedNotEmpty(all, strategy.MostLoaded?);
      TiedAre(all, AllDeclare(all), BestOf(all, strategy.MostLoaded?), Pick(all, strategy, random));
    }
  }

  lemma PickIsBest(all: seq<InstanceInfo>, strategy: Strategy, random: real)
    requires all != [] && 0.0 <= random <= 1.0
    ensures var info := Pick(all, strategy, random);
      && info in all
      && (strategy.LeastLoaded? ==> forall c :: c in all ==> Score(info, AllDeclare(all)) <= Score(c, AllDeclare(all)))
      && (strategy.MostLoaded? ==> forall c :: c in all ==> Score(info, AllDeclare(all)) >= Score(c, AllDeclare(all)))
  {
    PickHasBestScore(all, strategy, random);
    BestScoreBounds(all, AllDeclare(all), strategy.MostLoaded?, Score(all[0], AllDeclare(all)));
  }

  /** No placement exactly when nothing can host the room. */
  lemma PlacementIsComplete(f: Fleet, req: Request, random: real)
    requires RowsValid(f.rows) && 0.0 <= random <= 1.0 && !IsPinned(req)
    ensures Selected(f, req, random).Ok? <==> exists i ::
      i in f.rows.records && IsCandidate(f, req, f.rows.records[i].info)
    ensures Selected(f, req, random).Err? ==> Selected(f, req, random).error == NoCandidate
  {
    var all := Candidates(f, req, f.rows.order);
    if all != [] {
      CandidatesAre(f, req, f.rows.order, all[0]);
    }
    if i :| i in f.rows.records && IsCandidate(f, req, f.rows.records[i].info) {
      CandidatesAre(f, req, f.rows.order, f.rows.records[i].info);
    }
  }

  /** Two placements never share the last slot: the reservation already counts. */
  lemma PlacementNeverOverAdmits(f: Fleet, req: Request, random: real)
    requires RowsValid(f.rows) && 0.0 <= random <= 1.0 && !IsPinned(req) && Place(f, req, random).1.Ok?
    ensures var f', info := Place(f, req, random).0, Place(f, req, random).1.value;
      && (info.capacity.maxRooms.Some? ==> Load(f', info) <= info.capacity.maxRooms.value)
      && Load(f', info) == Load(f, info) + 1
      && forall other | other in f.rows.records && other != info.id ::
        Load(f', f.rows.records[other].info) == Load(f, f.rows.records[other].info)
  {
    PlacementIsSound(f, req, random);
  }

  /** A pin names the instance, or the latest connection of a process; it ignores capacity but not status. */
  lemma PinIsHonoured(f: Fleet, req: Request, random: real)
    requires RowsValid(f.rows) && 0.0 <= random <= 1.0 && IsPinned(req) && Selected(f, req, random).Ok?
    ensures var info := Selected(f, req, random).value;
      && info.id in f.rows.records && f.rows.records[info.id].info == info && info.autoCreate
      && (req.instanceId.Some? ==> info.id == req.instanceId.value)
      && (req.processUid.Some? ==> info.processUid == req.processUid.value && forall i | i in f.rows.records &&
            f.rows.records[i].info.processUid == req.processUid.value ::
              f.rows.records[i].joinSeq <= f.rows.records[info.id].joinSeq)
      && (req.force || (EffectiveStatus(f, info) == Active && info.id !in f.stale))
  {
    if req.processUid.Some? {
      LatestIs(f.rows, f.rows.order, req.processUid.value, None);
    }
  }

  lemma {:induction false} LatestIs(r: Rows, order: seq<InstanceId>, uid: Text, latest: Option<Record>)
    requires RowsValid(r) && KeySet(order) <= r.records.Keys
    requires latest.Some? ==>
      latest.value.info.processUid == uid && latest.value.info.id in r.records
        && r.records[latest.value.info.id] == latest.value
    ensures var last := LatestOf(order, r.records, uid, latest);
      && (last.Some? ==>
        && last.value.info.processUid == uid && last.value.info.id in r.records
        && r.records[last.value.info.id] == last.value)
      && (latest.Some? ==> last.Some? && latest.value.joinSeq <= last.value.joinSeq)
      && forall i | i in KeySet(order) && r.records[i].info.processUid == uid ::
        last.Some? && r.records[i].joinSeq <= last.value.joinSeq
    decreases order
  {
    if order != [] {
      var x := r.records[order[0]];
      var next := if x.info.processUid == uid && (latest.None? || x.joinSeq > latest.value.joinSeq) then Some(x)
        else latest;
      LatestIs(r, order[1..], uid, next);
    }
  }
}
