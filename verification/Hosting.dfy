/** Where a new room goes, said of the fields of the fleet and nothing else. */
module Hosting {
  import opened Prelude
  import opened Ordered
  import opened FleetTypes
  import R = Reservations
  import opened FleetModel
  import opened Placement

  // ----- who can host -----

  /** The value an instance gives the key, its first entry for it, is the one asked for. */
  ghost predicate Labelled(labels: seq<Label>, l: Label) {
    exists j :: 0 <= j < |labels| && labels[j] == l && forall k :: 0 <= k < j ==> labels[k].key != l.key
  }

  /** Rooms reported, creates in flight, and settled creates not reported yet. */
  ghost function SlotsTaken(f: Fleet, i: InstanceId): nat
    requires i in f.rows.records
  {
    |f.rows.records[i].info.rooms| + |set t | t in f.holds.tokens && f.holds.tokens[t] == i|
      + |set id | id in f.holds.pending && f.holds.pending[id] == i|
  }

  /** Active as far as is known: an acked drain or undrain counts before the next snapshot shows it. */
  ghost predicate IsActive(f: Fleet, i: InstanceId)
    requires i in f.rows.records
  {
    if i in f.pendingStatus then f.pendingStatus[i] == Active else f.rows.records[i].info.status == Active
  }

  /** Active, live, willing and able, with a slot and a connection to spare. */
  ghost predicate CanHost(f: Fleet, req: Request, i: InstanceId) {
    i in f.rows.records && IsActive(f, i) && CouldHost(f, req, i)
  }

  /** All of it but the status. */
  ghost predicate CouldHost(f: Fleet, req: Request, i: InstanceId)
    requires i in f.rows.records
  {
    var info := f.rows.records[i].info;
    && i !in f.stale
    && info.autoCreate
    && req.roomType in info.roomTypes
    && (req.labels.Some? ==> forall l :: l in req.labels.value ==> Labelled(info.labels, l))
    && (info.capacity.maxRooms.Some? ==> SlotsTaken(f, i) < info.capacity.maxRooms.value)
    && (info.capacity.maxConnections.Some? ==> info.connections < info.capacity.maxConnections.value)
  }

  lemma {:induction false} LabelValueIs(labels: seq<Label>, l: Label)
    ensures LabelValue(labels, l.key) == Some(l.value) <==> Labelled(labels, l)
  {
    if labels != [] {
      LabelValueIs(labels[1..], l);
      if labels[0].key == l.key {
        assert labels[0] == l <==> labels[0].value == l.value;
      } else {
        if j :| 0 <= j < |labels| && labels[j] == l && forall k :: 0 <= k < j ==> labels[k].key != l.key {
          assert labels[1..][j - 1] == l;
          assert forall k :: 0 <= k < j - 1 ==> labels[1..][k].key != l.key;
        }
        if j :| 0 <= j < |labels| - 1 && labels[1..][j] == l && forall k :: 0 <= k < j ==> labels[1..][k].key != l.key {
          assert labels[j + 1] == l;
          forall k | 0 <= k < j + 1
            ensures labels[k].key != l.key
          {
            assert k > 0 ==> labels[k] == labels[1..][k - 1];
          }
        }
      }
    }
  }

  lemma {:induction false} MatchesLabelsIs(labels: seq<Label>, required: seq<Label>)
    ensures MatchesLabels(labels, required) <==> forall l :: l in required ==> Labelled(labels, l)
  {
    if required != [] {
      LabelValueIs(labels, required[0]);
      MatchesLabelsIs(labels, required[1..]);
      assert required == [required[0]] + required[1..];
    }
  }

  lemma SlotsAre(f: Fleet, i: InstanceId)
    requires R.Valid(f.holds) && i in f.rows.records
    ensures SlotsTaken(f, i) == Load(f, f.rows.records[i].info.(id := i))
  {
    assert R.Get(f.holds.tokenCount, i) == |R.Owned(f.holds.tokens, i)|;
    assert R.Get(f.holds.pendingCount, i) == |R.Owned(f.holds.pending, i)|;
    assert R.Owned(f.holds.tokens, i) == set t | t in f.holds.tokens && f.holds.tokens[t] == i;
    assert R.Owned(f.holds.pending, i) == set id | id in f.holds.pending && f.holds.pending[id] == i;
  }

  lemma HostsAre(f: Fleet, req: Request, i: InstanceId)
    requires RowsValid(f.rows) && R.Valid(f.holds) && i in f.rows.records
    ensures CanHost(f, req, i) <==> IsCandidate(f, req, f.rows.records[i].info)
  {
    hide LabelValue, MatchesLabels, Labelled;
    var info := f.rows.records[i].info;
    if req.labels.Some? {
      MatchesLabelsIs(info.labels, req.labels.value);
    }
    SlotsAre(f, i);
  }

  lemma HostsAreReported(f: Fleet, req: Request, c: InstanceId)
    requires CanHost(f, req, c)
    ensures c in f.rows.records
  {
  }

  lemma CandidatesHost(f: Fleet, req: Request, info: InstanceInfo)
    requires RowsValid(f.rows) && R.Valid(f.holds)
    ensures info in Candidates(f, req, f.rows.order) <==>
      CanHost(f, req, info.id) && f.rows.records[info.id].info == info
  {
    hide CanHost, IsCandidate, R.Valid;
    CandidatesAre(f, req, f.rows.order, info);
    if info.id in f.rows.records {
      HostsAre(f, req, info.id);
    } else if CanHost(f, req, info.id) {
      HostsAreReported(f, req, info.id);
    }
  }

  // ----- who is preferred -----

  /** Loads compare by share where every host declares how many connections it takes, and by number otherwise. */
  ghost predicate NoMoreLoaded(f: Fleet, req: Request, i: InstanceId, j: InstanceId)
    requires CanHost(f, req, i) && CanHost(f, req, j)
  {
    var x, y := f.rows.records[i].info, f.rows.records[j].info;
    if forall c :: CanHost(f, req, c) ==> f.rows.records[c].info.capacity.maxConnections.Some?
    then x.connections * y.capacity.maxConnections.value <= y.connections * x.capacity.maxConnections.value
    else x.connections <= y.connections
  }

  /** A host the strategy allows: the least loaded unless the caller asks otherwise. */
  ghost predicate MayTake(f: Fleet, req: Request, i: InstanceId) {
    && CanHost(f, req, i)
    && (req.strategy == Some(MostLoaded) ==> forall j :: CanHost(f, req, j) ==> NoMoreLoaded(f, req, j, i))
    && (req.strategy == None || req.strategy == Some(LeastLoaded) ==>
      forall j :: CanHost(f, req, j) ==> NoMoreLoaded(f, req, i, j))
  }

  lemma ProductOrder(p: real, q: real, k: real)
    requires k > 0.0
    ensures p <= q <==> p * k <= q * k
  {
  }

  lemma ShareOrder(x: nat, m: nat, y: nat, n: nat)
    requires m > 0 && n > 0
    ensures x as real / m as real <= y as real / n as real <==> x * n <= y * m
  {
    var p, q := x as real / m as real, y as real / n as real;
    ProductOrder(p, q, m as real * n as real);
    assert p * m as real == x as real && q * n as real == y as real;
    assert p * (m as real * n as real) == x as real * n as real == (x * n) as real;
    assert q * (m as real * n as real) == y as real * m as real == (y * m) as real;
  }

  lemma {:induction false} AllDeclareIs(all: seq<InstanceInfo>)
    ensures AllDeclare(all) <==> forall c :: c in all ==> c.capacity.maxConnections.Some?
  {
    if all != [] {
      AllDeclareIs(all[1..]);
      assert all == [all[0]] + all[1..];
    }
  }

  ghost function Hosts(f: Fleet, req: Request): seq<InstanceInfo>
    requires RowsValid(f.rows)
  {
    Candidates(f, req, f.rows.order)
  }

  lemma HostsDeclare(f: Fleet, req: Request)
    requires RowsValid(f.rows) && R.Valid(f.holds)
    ensures AllDeclare(Hosts(f, req)) <==>
      forall c :: CanHost(f, req, c) ==> f.rows.records[c].info.capacity.maxConnections.Some?
  {
    hide CanHost, Candidates, AllDeclare, R.Valid, Orders;
    AllDeclareIs(Hosts(f, req));
    forall c | CanHost(f, req, c)
      ensures c in f.rows.records && f.rows.records[c].info in Hosts(f, req)
    {
      HostsAreReported(f, req, c);
      CandidatesHost(f, req, f.rows.records[c].info);
    }
    forall info | info in Hosts(f, req)
      ensures CanHost(f, req, info.id) && info.id in f.rows.records && f.rows.records[info.id].info == info
    {
      CandidatesHost(f, req, info);
      HostsAreReported(f, req, info.id);
    }
  }

  /** The score orders two hosts as their loads compare. */
  lemma ScoresCompare(f: Fleet, req: Request, i: InstanceId, j: InstanceId)
    requires RowsValid(f.rows) && R.Valid(f.holds) && CanHost(f, req, i) && CanHost(f, req, j)
    ensures var all := AllDeclare(Hosts(f, req));
      Score(f.rows.records[i].info, all) <= Score(f.rows.records[j].info, all) <==> NoMoreLoaded(f, req, i, j)
  {
    hide Candidates, AllDeclare, R.Valid, Orders;
    HostsDeclare(f, req);
    var x, y := f.rows.records[i].info, f.rows.records[j].info;
    if AllDeclare(Hosts(f, req)) {
      ShareOrder(x.connections, x.capacity.maxConnections.value, y.connections, y.capacity.maxConnections.value);
    }
  }

  // ----- who is chosen -----

  /** Those the draw decides between. */
  ghost function Finalists(all: seq<InstanceInfo>, strategy: Strategy): (finalists: seq<InstanceInfo>)
    requires all != []
    ensures finalists != []
  {
    TiedNotEmpty(all, strategy.MostLoaded?);
    if strategy.Random? then all else Tied(all, AllDeclare(all), BestOf(all, strategy.MostLoaded?))
  }

  ghost function StrategyOf(req: Request): Strategy {
    if req.strategy.Some? then req.strategy.value else LeastLoaded
  }

  lemma FinalistsScore(all: seq<InstanceInfo>, strategy: Strategy, info: InstanceInfo)
    requires all != []
    ensures info in Finalists(all, strategy) <==>
      && info in all
      && (strategy.LeastLoaded? ==> forall c :: c in all ==> Score(info, AllDeclare(all)) <= Score(c, AllDeclare(all)))
      && (strategy.MostLoaded? ==> forall c :: c in all ==> Score(c, AllDeclare(all)) <= Score(info, AllDeclare(all)))
  {
    hide AllDeclare, Score, BestScore, Tied;
    BestScoreBounds(all, AllDeclare(all), strategy.MostLoaded?, Score(all[0], AllDeclare(all)));
    TiedAre(all, AllDeclare(all), BestOf(all, strategy.MostLoaded?), info);
    assert all[0] in all;
  }

  /** The finalists are exactly those who may take the room. */
  lemma FinalistsMayTake(f: Fleet, req: Request, info: InstanceInfo)
    requires RowsValid(f.rows) && R.Valid(f.holds) && Hosts(f, req) != []
    ensures info in Finalists(Hosts(f, req), StrategyOf(req)) <==>
      MayTake(f, req, info.id) && f.rows.records[info.id].info == info
  {
    hide CanHost, Candidates, AllDeclare, Score, NoMoreLoaded, Finalists, R.Valid, Orders;
    var all := Hosts(f, req);
    FinalistsScore(all, StrategyOf(req), info);
    CandidatesHost(f, req, info);
    if info in all {
      HostsAreReported(f, req, info.id);
      forall j | CanHost(f, req, j)
        ensures j in f.rows.records && f.rows.records[j].info in all
        ensures Score(info, AllDeclare(all)) <= Score(f.rows.records[j].info, AllDeclare(all)) <==>
          NoMoreLoaded(f, req, info.id, j)
        ensures Score(f.rows.records[j].info, AllDeclare(all)) <= Score(info, AllDeclare(all)) <==>
          NoMoreLoaded(f, req, j, info.id)
      {
        HostsAreReported(f, req, j);
        CandidatesHost(f, req, f.rows.records[j].info);
        ScoresCompare(f, req, info.id, j);
        ScoresCompare(f, req, j, info.id);
      }
      forall c | c in all
        ensures CanHost(f, req, c.id) && c.id in f.rows.records && f.rows.records[c.id].info == c
      {
        CandidatesHost(f, req, c);
        HostsAreReported(f, req, c.id);
      }
    }
  }

  ghost function Ids(list: seq<InstanceInfo>): (ids: seq<InstanceId>)
    ensures |ids| == |list|
  {
    if list == [] then [] else [list[0].id] + Ids(list[1..])
  }

  lemma {:induction false} IdsAt(list: seq<InstanceInfo>, k: nat)
    requires k < |list|
    ensures Ids(list)[k] == list[k].id
  {
    if k > 0 {
      IdsAt(list[1..], k - 1);
    }
  }

  lemma {:induction false} CandidatesDistinct(f: Fleet, req: Request, order: seq<InstanceId>)
    requires RowsValid(f.rows) && KeySet(order) <= f.rows.records.Keys && Distinct(order)
    ensures var ids := Ids(Candidates(f, req, order)); Distinct(ids) && KeySet(ids) <= KeySet(order)
  {
    hide IsCandidate;
    if order != [] {
      CandidatesDistinct(f, req, order[1..]);
      var rest := Candidates(f, req, order[1..]);
      var info := f.rows.records[order[0]].info;
      if IsCandidate(f, req, info) {
        assert ([info] + rest)[1..] == rest;
        assert Ids([info] + rest)[1..] == Ids(rest);
      } else {
        assert [] + rest == rest;
      }
    }
  }

  lemma {:induction false} TiedDistinct(all: seq<InstanceInfo>, normalised: bool, best: real)
    requires Distinct(Ids(all))
    ensures var ids := Ids(Tied(all, normalised, best)); Distinct(ids) && KeySet(ids) <= KeySet(Ids(all))
  {
    hide Score;
    if all != [] {
      assert Ids(all)[1..] == Ids(all[1..]);
      TiedDistinct(all[1..], normalised, best);
      var rest := Tied(all[1..], normalised, best);
      if Score(all[0], normalised) == best {
        assert ([all[0]] + rest)[1..] == rest;
        assert Ids([all[0]] + rest)[1..] == Ids(rest);
      } else {
        assert [] + rest == rest;
      }
    }
  }

  lemma {:induction false} DistinctAt(ids: seq<InstanceId>, a: nat, b: nat)
    requires Distinct(ids) && a < b < |ids|
    ensures ids[a] != ids[b]
  {
    if a > 0 {
      DistinctAt(ids[1..], a - 1, b - 1);
    } else {
      KeySetHas(ids[1..], b - 1);
    }
  }

  ghost function Favoured(f: Fleet, req: Request): set<InstanceId> {
    set i | i in f.rows.records && MayTake(f, req, i)
  }

  /** Each of those who may take the room is a finalist once. */
  lemma FinalistsCount(f: Fleet, req: Request)
    requires RowsValid(f.rows) && R.Valid(f.holds) && Hosts(f, req) != []
    ensures var finalists := Finalists(Hosts(f, req), StrategyOf(req));
      |finalists| == |Favoured(f, req)| && Distinct(Ids(finalists))
  {
    hide Candidates, AllDeclare, Score, BestScore, Tied, R.Valid, MayTake;
    var all, finalists := Hosts(f, req), Finalists(Hosts(f, req), StrategyOf(req));
    var ids := Ids(finalists);
    CandidatesDistinct(f, req, f.rows.order);
    TiedDistinct(all, AllDeclare(all), BestOf(all, StrategyOf(req).MostLoaded?));
    forall i
      ensures i in KeySet(ids) <==> i in Favoured(f, req)
    {
      if i in KeySet(ids) {
        var k := KeyPosition(ids, i);
        IdsAt(finalists, k);
        FinalistsMayTake(f, req, finalists[k]);
        FavouredReported(f, req, i);
      }
      if i in Favoured(f, req) {
        FinalistsMayTake(f, req, f.rows.records[i].info);
        var k :| 0 <= k < |finalists| && finalists[k] == f.rows.records[i].info;
        IdsAt(finalists, k);
        KeySetHas(ids, k);
      }
    }
    assert KeySet(ids) == Favoured(f, req);
    DistinctSize(ids);
  }

  lemma FavouredReported(f: Fleet, req: Request, i: InstanceId)
    requires MayTake(f, req, i)
    ensures i in f.rows.records
  {
  }

  lemma SelectedIs(f: Fleet, req: Request, random: real)
    requires RowsValid(f.rows) && 0.0 <= random <= 1.0 && !IsPinned(req)
    ensures Selected(f, req, random) ==
      if Hosts(f, req) == [] then Err(NoCandidate)
      else Ok(Choose(Finalists(Hosts(f, req), StrategyOf(req)), random))
  {
  }

  /** Without a pin the room goes to an instance that may take it, and to none exactly when none can host it. */
  lemma PlacedOnFavoured(f: Fleet, req: Request, random: real)
    requires RowsValid(f.rows) && R.Valid(f.holds) && 0.0 <= random <= 1.0
    requires req.instanceId.None? && req.processUid.None?
    ensures match Selected(f, req, random)
      case Ok(info) => MayTake(f, req, info.id) && f.rows.records[info.id].info == info
      case Err(e) => e == NoCandidate && forall i :: !CanHost(f, req, i)
  {
    hide CanHost, Candidates, MayTake, R.Valid, Finalists, Selected;
    SelectedIs(f, req, random);
    var all := Hosts(f, req);
    if all == [] {
      forall i
        ensures !CanHost(f, req, i)
      {
        if CanHost(f, req, i) {
          HostsAreReported(f, req, i);
          CandidatesHost(f, req, f.rows.records[i].info);
        }
      }
    } else {
      FinalistsMayTake(f, req, Choose(Finalists(all, StrategyOf(req)), random));
    }
  }

  /** The `k`-th of `n` equal parts of the range of the draw. */
  ghost predicate InPart(random: real, k: nat, n: nat) {
    k as real <= random * n as real < (k + 1) as real
  }

  /** The draw gives each of the `n` instances that may take the room one `n`-th of the range. */
  lemma DrawIsEven(f: Fleet, req: Request, i: InstanceId) returns (k: nat)
    requires RowsValid(f.rows) && R.Valid(f.holds)
    requires req.instanceId.None? && req.processUid.None? && MayTake(f, req, i)
    ensures var n := |set j | j in f.rows.records && MayTake(f, req, j)|;
      && k < n && i in f.rows.records
      && forall random: real :: 0.0 <= random < 1.0 ==>
        (Selected(f, req, random) == Ok(f.rows.records[i].info) <==> InPart(random, k, n))
  {
    hide CanHost, Candidates, MayTake, R.Valid, Finalists, Selected, Choose, InPart;
    FavouredReported(f, req, i);
    MayHost(f, req, i);
    var info, all := f.rows.records[i].info, Hosts(f, req);
    CandidatesHost(f, req, info);
    FinalistsMayTake(f, req, info);
    FinalistsCount(f, req);
    var finalists := Finalists(all, StrategyOf(req));
    k :| 0 <= k < |finalists| && finalists[k] == info;
    assert Favoured(f, req) == set j | j in f.rows.records && MayTake(f, req, j);
    forall random: real | 0.0 <= random < 1.0
      ensures Selected(f, req, random) == Ok(info) <==> InPart(random, k, |finalists|)
    {
      SelectedIs(f, req, random);
      ChosenAt(finalists, k, random);
    }
  }

  lemma MayHost(f: Fleet, req: Request, i: InstanceId)
    requires MayTake(f, req, i)
    ensures CanHost(f, req, i)
  {
  }

  lemma ChosenAt(list: seq<InstanceInfo>, k: nat, random: real)
    requires Distinct(Ids(list)) && k < |list| && 0.0 <= random < 1.0
    ensures Choose(list, random) == list[k] <==> InPart(random, k, |list|)
  {
    hide Scaled, InPart, Ids, Distinct;
    var index := Scaled(random, |list|).Floor;
    ScaledInRange(random, |list|);
    ScaledBelow(random, |list|);
    PartIsFloor(random, k, |list|);
    IdsAt(list, k);
    IdsAt(list, index);
    if index < k {
      DistinctAt(Ids(list), index, k);
    } else if k < index {
      DistinctAt(Ids(list), k, index);
    }
  }

  lemma ScaledBelow(random: real, n: nat)
    requires random < 1.0 && n > 0
    ensures Scaled(random, n) < n as real
  {
    ProductOrder(1.0, random, n as real);
  }

  lemma PartIsFloor(random: real, k: nat, n: nat)
    ensures InPart(random, k, n) <==> Scaled(random, n).Floor == k
  {
  }

  // ----- pins -----

  /** The instance the pin names: by its id, or as the one of that process that joined last. */
  ghost predicate Named(f: Fleet, req: Request, i: InstanceId) {
    && i in f.rows.records
    && (req.instanceId.Some? ==> i == req.instanceId.value)
    && (req.processUid.Some? ==>
      && f.rows.records[i].info.processUid == req.processUid.value
      && forall j :: j in f.rows.records && f.rows.records[j].info.processUid == req.processUid.value ==>
        f.rows.records[j].joinSeq <= f.rows.records[i].joinSeq)
  }

  /** A pin is refused for a reason the caller can see, and otherwise honoured whatever the load. */
  lemma PinExactly(f: Fleet, req: Request, random: real)
    requires RowsValid(f.rows) && 0.0 <= random <= 1.0 && (req.instanceId.Some? || req.processUid.Some?)
    ensures var answer := Selected(f, req, random);
      && (answer == Err(ValidationFailed) <==> req.instanceId.Some? && req.processUid.Some?)
      && (answer != Err(ValidationFailed) ==>
        && (answer == Err(InstanceNotFound) <==> forall i :: !Named(f, req, i))
        && (answer != Err(InstanceNotFound) ==> exists i :: Named(f, req, i) && answer == PinAnswer(f, req, i)))
  {
    if req.instanceId.None? {
      LatestIs(f.rows, f.rows.order, req.processUid.value, None);
      var latest := LatestOf(f.rows.order, f.rows.records, req.processUid.value, None);
      if latest.Some? {
        assert Named(f, req, latest.value.info.id);
      }
    } else if req.processUid.None? && req.instanceId.value in f.rows.records {
      assert Named(f, req, req.instanceId.value);
    }
  }

  ghost function PinAnswer(f: Fleet, req: Request, i: InstanceId): Result<InstanceInfo, FleetError>
    requires i in f.rows.records
  {
    var info := f.rows.records[i].info;
    var status := if i in f.pendingStatus then f.pendingStatus[i] else info.status;
    if !req.force && status == Draining then Err(InstanceDraining)
    else if !req.force && i in f.stale then Err(InstanceDisconnected)
    else if !info.autoCreate then Err(NoCandidate)
    else Ok(info)
  }
}
