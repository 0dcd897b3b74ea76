/**
 * What the semantic state hash sees: everything about the instances except their order, the order of their labels, and
 * when they last reported.
 */
module StateHash {
  import opened Prelude
  import opened FleetTypes
  import opened FleetModel
  import opened SnapshotHash
  import opened CanonicalSame
  import opened CanonicalInjective
  import C = Canonical

  function Timeless(xs: seq<InstanceInfo>): seq<InstanceInfo> {
    if xs == [] then [] else [xs[0].(lastSyncAt := 0)] + Timeless(xs[1..])
  }

  lemma {:induction false} TimelessInsert(x: InstanceInfo, sorted: seq<InstanceInfo>)
    ensures Timeless(InsertById(x, sorted)) == InsertById(x.(lastSyncAt := 0), Timeless(sorted))
  {
    if sorted != [] && sorted[0].id < x.id {
      TimelessInsert(x, sorted[1..]);
    }
  }

  lemma {:induction false} TimelessSort(xs: seq<InstanceInfo>)
    ensures Timeless(SortById(xs)) == SortById(Timeless(xs))
  {
    if xs != [] {
      TimelessSort(xs[1..]);
      TimelessInsert(xs[0], SortById(xs[1..]));
    }
  }

  lemma {:induction false} TimelessProjections(xs: seq<InstanceInfo>)
    ensures Projections(Timeless(xs)) == Projections(xs)
  {
    if xs != [] {
      TimelessProjections(xs[1..]);
      assert Projection(xs[0].(lastSyncAt := 0)) == Projection(xs[0]);
    }
  }

  /** Liveness bookkeeping never shows in the hash. */
  lemma HashIgnoresLastSync(xs: seq<InstanceInfo>, ys: seq<InstanceInfo>)
    requires Timeless(xs) == Timeless(ys)
    ensures ComputeStateHash(xs) == ComputeStateHash(ys)
  {
    TimelessSort(xs);
    TimelessSort(ys);
    TimelessProjections(SortById(xs));
    TimelessProjections(SortById(ys));
  }

  // ----- order -----

  ghost predicate Ascending(xs: seq<InstanceInfo>) {
    |xs| < 2 || (xs[0].id < xs[1].id && Ascending(xs[1..]))
  }

  ghost predicate DistinctIds(xs: seq<InstanceInfo>) {
    xs == [] || ((forall y :: y in xs[1..] ==> y.id != xs[0].id) && DistinctIds(xs[1..]))
  }

  lemma {:induction false} InsertKeeps(x: InstanceInfo, sorted: seq<InstanceInfo>)
    requires Ascending(sorted) && forall y :: y in sorted ==> y.id != x.id
    ensures Ascending(InsertById(x, sorted)) && multiset(InsertById(x, sorted)) == multiset(sorted) + multiset{x}
    ensures sorted != [] ==> InsertById(x, sorted)[0] == if x.id <= sorted[0].id then x else sorted[0]
    ensures |InsertById(x, sorted)| == |sorted| + 1
  {
    if sorted != [] {
      assert sorted[0] in sorted;
      assert sorted == [sorted[0]] + sorted[1..];
      if sorted[0].id < x.id {
        InsertKeeps(x, sorted[1..]);
        assert InsertById(x, sorted)[1..] == InsertById(x, sorted[1..]);
      } else {
        assert InsertById(x, sorted)[1..] == sorted;
      }
    }
  }

  lemma {:induction false} SortKeeps(xs: seq<InstanceInfo>)
    requires DistinctIds(xs)
    ensures Ascending(SortById(xs)) && multiset(SortById(xs)) == multiset(xs)
  {
    if xs != [] {
      SortKeeps(xs[1..]);
      assert xs == [xs[0]] + xs[1..];
      var rest := SortById(xs[1..]);
      forall y | y in rest
        ensures y.id != xs[0].id
      {
        assert y in multiset(rest);
        assert y in xs[1..];
      }
      InsertKeeps(xs[0], rest);
    }
  }

  lemma {:induction false} FirstIsLeast(xs: seq<InstanceInfo>, y: InstanceInfo)
    requires Ascending(xs) && y in xs
    ensures xs[0].id <= y.id && (xs[0].id == y.id ==> y == xs[0])
  {
    if y != xs[0] {
      assert xs == [xs[0]] + xs[1..];
      FirstIsLeast(xs[1..], y);
    }
  }

  lemma RestCounts(xs: seq<InstanceInfo>)
    requires xs != []
    ensures xs == [xs[0]] + xs[1..] && multiset(xs[1..]) == multiset(xs) - multiset{xs[0]}
  {
    assert xs == [xs[0]] + xs[1..];
  }

  lemma {:induction false} AscendingUnique(xs: seq<InstanceInfo>, ys: seq<InstanceInfo>)
    requires Ascending(xs) && Ascending(ys) && multiset(xs) == multiset(ys)
    ensures xs == ys
  {
    if xs == [] {
      assert |multiset(ys)| == |multiset(xs)| == 0;
    } else {
      assert xs[0] in multiset(xs);
      assert ys != [] && ys[0] in multiset(ys);
      FirstIsLeast(xs, ys[0]);
      FirstIsLeast(ys, xs[0]);
      RestCounts(xs);
      RestCounts(ys);
      AscendingUnique(xs[1..], ys[1..]);
    }
  }

  /** The hash is a function of the state, not of how the records iterate. */
  lemma HashIgnoresOrder(xs: seq<InstanceInfo>, ys: seq<InstanceInfo>)
    requires DistinctIds(xs) && DistinctIds(ys) && multiset(xs) == multiset(ys)
    ensures ComputeStateHash(xs) == ComputeStateHash(ys)
  {
    SortKeeps(xs);
    SortKeeps(ys);
    AscendingUnique(SortById(xs), SortById(ys));
  }

  // ----- fields -----

  /** Its counts are exact integers and its labels a record. */
  ghost predicate Exact(x: InstanceInfo) {
    x.connections <= MAX_SAFE && LabelsDistinct(x.labels)
  }

  /** The same labels in some order. */
  ghost predicate LabelsAgree(a: seq<Label>, b: seq<Label>) {
    forall l :: l in a <==> l in b
  }

  /** Equal up to when they last reported and the order of their labels. */
  ghost predicate Alike(x: InstanceInfo, y: InstanceInfo) {
    x.(lastSyncAt := y.lastSyncAt, labels := y.labels) == y && LabelsAgree(x.labels, y.labels)
  }

  lemma SameAsItself(v: C.Json)
    requires C.WellFormed(v)
    ensures Same(v, v)
  {
    CanonicalTextDecides(v, v);
  }

  /** The converse of `SameFields`. */
  lemma FieldsSame(names: seq<string>, a: seq<C.Json>, b: seq<C.Json>)
    requires |names| == |a| == |b|
    requires forall i :: 0 <= i < |a| ==> a[i] != C.Undef && b[i] != C.Undef && Same(a[i], b[i])
    ensures Same(C.Obj(Fields(names, a)), C.Obj(Fields(names, b)))
  {
    var xs, ys := Fields(names, a), Fields(names, b);
    forall i | 0 <= i < |xs|
      ensures Matched(xs[i].key, xs[i].value, ys)
    {
      assert Keeps(ys, ys[i]);
    }
    forall y | Keeps(ys, y)
      ensures HasKey(xs, y.key)
    {
      var i :| 0 <= i < |ys| && ys[i] == y;
      assert xs[i].key == y.key;
    }
  }

  lemma SameIds(i: InstanceId, j: InstanceId)
    requires Same(IdJson(i), IdJson(j))
    ensures i == j
  {
    assert C.Decimal(i) + [] == C.Decimal(i) && C.Decimal(j) + [] == C.Decimal(j);
    DecimalReads(i, [], j, []);
  }

  /** A label of the one is a label of the other: same key, hence the same entry. */
  lemma LabelMet(a: seq<Label>, b: seq<Label>, i: nat)
    requires Same(LabelsJson(a), LabelsJson(b)) && i < |a|
    ensures a[i] in b
  {
    var x, ys := LabelsJson(a), LabelsJson(b).entries;
    assert x.entries[i].value != C.Undef;
    assert Matched(x.entries[i].key, x.entries[i].value, ys);
    var y :| Keeps(ys, y) && y.key == x.entries[i].key && Same(x.entries[i].value, y.value);
    var j :| 0 <= j < |ys| && ys[j] == y;
    Utf16Injective(a[i].key, b[j].key);
    SameStrings(a[i].value, b[j].value);
    assert a[i] == b[j];
  }

  lemma LabelMissed(a: seq<Label>, b: seq<Label>, j: nat)
    requires Same(LabelsJson(a), LabelsJson(b)) && j < |b| && LabelsDistinct(b)
    ensures b[j] in a
  {
    var xs, ys := LabelsJson(a).entries, LabelsJson(b).entries;
    assert Keeps(ys, ys[j]);
    assert HasKey(xs, ys[j].key);
    var i :| 0 <= i < |xs| && xs[i].value != C.Undef && xs[i].key == ys[j].key;
    Utf16Injective(a[i].key, b[j].key);
    LabelMet(a, b, i);
    var k :| 0 <= k < |b| && b[k] == a[i];
    assert b[k] == b[j];
  }

  lemma LabelsSame(a: seq<Label>, b: seq<Label>)
    requires LabelsAgree(a, b)
    ensures Same(LabelsJson(a), LabelsJson(b))
  {
    var xs, ys := LabelsJson(a).entries, LabelsJson(b).entries;
    forall i | 0 <= i < |xs|
      ensures Matched(xs[i].key, xs[i].value, ys)
    {
      assert a[i] in b;
      var j :| 0 <= j < |b| && b[j] == a[i];
      assert Keeps(ys, ys[j]) && ys[j] == xs[i];
      SameAsItself(xs[i].value);
    }
    forall y | Keeps(ys, y)
      ensures HasKey(xs, y.key)
    {
      var j :| 0 <= j < |ys| && ys[j] == y;
      assert b[j] in a;
      var i :| 0 <= i < |a| && a[i] == b[j];
      assert xs[i].value != C.Undef && xs[i].key == y.key;
    }
  }

  lemma LabelsDecide(a: seq<Label>, b: seq<Label>)
    requires LabelsDistinct(b)
    ensures Same(LabelsJson(a), LabelsJson(b)) <==> LabelsAgree(a, b)
  {
    if Same(LabelsJson(a), LabelsJson(b)) {
      forall l
        ensures l in a <==> l in b
      {
        if i :| 0 <= i < |a| && a[i] == l { LabelMet(a, b, i); }
        if j :| 0 <= j < |b| && b[j] == l { LabelMissed(a, b, j); }
      }
    }
    if LabelsAgree(a, b) {
      LabelsSame(a, b);
    }
  }

  // ----- rooms -----

  lemma PublicRoomDistinguished()
    ensures Distinguished(PUBLIC_ROOM_FIELDS)
  {
  }

  lemma SamePublicField(a: RoomInfo, b: RoomInfo, i: nat)
    requires Same(C.Obj(Fields(PUBLIC_ROOM_FIELDS, PublicRoomValues(a))),
                  C.Obj(Fields(PUBLIC_ROOM_FIELDS, PublicRoomValues(b))))
    requires i < 6
    ensures Same(PublicRoomValues(a)[i], PublicRoomValues(b)[i])
  {
    PublicRoomDistinguished();
    assert PublicRoomValues(a)[i] != C.Undef;
    SameFields(PUBLIC_ROOM_FIELDS, PublicRoomValues(a), PublicRoomValues(b));
  }

  lemma SamePublicRoom(a: RoomInfo, b: RoomInfo)
    requires Same(C.Obj(Fields(PUBLIC_ROOM_FIELDS, PublicRoomValues(a))),
                  C.Obj(Fields(PUBLIC_ROOM_FIELDS, PublicRoomValues(b))))
    ensures a == b
  {
    SamePublicField(a, b, 0);
    SamePublicField(a, b, 1);
    SamePublicField(a, b, 2);
    SamePublicField(a, b, 3);
    SamePublicField(a, b, 4);
    SamePublicField(a, b, 5);
    SameStrings(a.id, b.id);
    SameStrings(a.roomType, b.roomType);
    SameIds(a.instanceId, b.instanceId);
    SameStrings(a.endpointUrl, b.endpointUrl);
  }

  lemma {:induction false} PublicItemsAre(rooms: seq<RoomInfo>, i: nat)
    requires i < |rooms|
    ensures |PublicRoomItems(rooms)| == |rooms|
    ensures PublicRoomItems(rooms)[i] == C.Obj(Fields(PUBLIC_ROOM_FIELDS, PublicRoomValues(rooms[i])))
  {
    if |rooms| > 1 {
      PublicItemsAre(rooms[1..], if i == 0 then 0 else i - 1);
    }
  }

  lemma SamePublicRooms(a: seq<RoomInfo>, b: seq<RoomInfo>)
    requires Same(C.Arr(PublicRoomItems(a)), C.Arr(PublicRoomItems(b)))
    ensures a == b
  {
    if a != [] { PublicItemsAre(a, 0); }
    if b != [] { PublicItemsAre(b, 0); }
    forall i | 0 <= i < |a|
      ensures a[i] == b[i]
    {
      PublicItemsAre(a, i);
      PublicItemsAre(b, i);
      SamePublicRoom(a[i], b[i]);
    }
  }

  lemma PublicItemsWellFormed(rooms: seq<RoomInfo>)
    ensures C.WellFormed(C.Arr(PublicRoomItems(rooms)))
  {
    PublicRoomDistinguished();
    if rooms != [] { PublicItemsAre(rooms, 0); }
    forall i | 0 <= i < |rooms|
      ensures C.WellFormed(PublicRoomItems(rooms)[i])
    {
      PublicItemsAre(rooms, i);
      FieldsWellFormed(PUBLIC_ROOM_FIELDS, PublicRoomValues(rooms[i]));
    }
  }

  // ----- one instance -----

  lemma InstanceDistinguished()
    ensures Distinguished(INSTANCE_FIELDS)
  {
  }

  lemma ValuesWellFormed(x: InstanceInfo, i: nat)
    requires Exact(x) && i < 13
    ensures C.WellFormed(InstanceValues(x)[i]) && InstanceValues(x)[i] != C.Undef
  {
    if i == 4 {
      LabelsWellFormed(x.labels);
    } else if i == 7 {
      CapacityDistinguished();
      FieldsWellFormed(CAPACITY_FIELDS, [LimitJson(x.capacity.maxConnections), LimitJson(x.capacity.maxRooms)]);
    } else if i == 12 {
      PublicItemsWellFormed(x.rooms);
    }
  }

  lemma ProjectionWellFormed(x: InstanceInfo)
    requires Exact(x)
    ensures C.WellFormed(Projection(x))
  {
    InstanceDistinguished();
    forall i | 0 <= i < |InstanceValues(x)|
      ensures C.WellFormed(InstanceValues(x)[i])
    {
      ValuesWellFormed(x, i);
    }
    FieldsWellFormed(INSTANCE_FIELDS, InstanceValues(x));
  }

  lemma SameValue(x: InstanceInfo, y: InstanceInfo, i: nat)
    requires Exact(x) && Same(Projection(x), Projection(y)) && i < 13
    ensures Same(InstanceValues(x)[i], InstanceValues(y)[i])
  {
    InstanceDistinguished();
    ValuesWellFormed(x, i);
    SameFields(INSTANCE_FIELDS, InstanceValues(x), InstanceValues(y));
  }

  lemma SameTexts(x: InstanceInfo, y: InstanceInfo)
    requires Exact(x) && Same(Projection(x), Projection(y))
    ensures x.id == y.id && x.name == y.name && x.processUid == y.processUid && x.endpointUrl == y.endpointUrl
      && x.agentVersion == y.agentVersion
  {
    hide Same, Projection, Exact, IdJson, StringJson;
    SameValue(x, y, 0);
    SameValue(x, y, 1);
    SameValue(x, y, 2);
    SameValue(x, y, 3);
    SameValue(x, y, 10);
    SameIds(x.id, y.id);
    SameStrings(x.name, y.name);
    SameStrings(x.processUid, y.processUid);
    SameStrings(x.endpointUrl, y.endpointUrl);
    SameStrings(x.agentVersion, y.agentVersion);
  }

  lemma SameCounts(x: InstanceInfo, y: InstanceInfo)
    requires Exact(x) && Same(Projection(x), Projection(y))
    ensures x.connections == y.connections && x.capacity == y.capacity && x.autoCreate == y.autoCreate
      && x.protocolVersion == y.protocolVersion
  {
    hide Same, Projection, Exact, CapacityJson;
    SameValue(x, y, 6);
    SameValue(x, y, 7);
    SameValue(x, y, 8);
    SameValue(x, y, 11);
    SameInts(x.connections, y.connections);
    SameCapacities(x.capacity, y.capacity);
    SameFlags(x.autoCreate, y.autoCreate);
    SameInts(x.protocolVersion, y.protocolVersion);
  }

  lemma SameRest(x: InstanceInfo, y: InstanceInfo)
    requires Exact(x) && Same(Projection(x), Projection(y))
    ensures x.roomTypes == y.roomTypes && x.status == y.status && x.rooms == y.rooms
      && Same(LabelsJson(x.labels), LabelsJson(y.labels))
  {
    hide Same, Projection, Exact, StatusJson, LabelsJson, TypeItems, PublicRoomItems;
    SameValue(x, y, 4);
    SameValue(x, y, 5);
    SameValue(x, y, 9);
    SameValue(x, y, 12);
    SameTypeItems(x.roomTypes, y.roomTypes);
    SamePublicRooms(x.rooms, y.rooms);
    SameStatuses(x.status, y.status);
  }

  lemma AlikeValue(x: InstanceInfo, y: InstanceInfo, i: nat)
    requires Exact(x) && Exact(y) && Alike(x, y) && i < 13
    ensures InstanceValues(x)[i] != C.Undef && InstanceValues(y)[i] != C.Undef
      && Same(InstanceValues(x)[i], InstanceValues(y)[i])
  {
    hide Same, CapacityJson, LabelsJson, StringJson, IdJson, StatusJson, TypeItems, PublicRoomItems;
    ValuesWellFormed(x, i);
    ValuesWellFormed(y, i);
    if i == 4 {
      LabelsDecide(x.labels, y.labels);
    } else {
      SameAsItself(InstanceValues(x)[i]);
    }
  }

  lemma AlikeSame(x: InstanceInfo, y: InstanceInfo)
    requires Exact(x) && Exact(y) && Alike(x, y)
    ensures Same(Projection(x), Projection(y))
  {
    hide Same, Alike, Exact;
    forall i | 0 <= i < |InstanceValues(x)|
      ensures InstanceValues(x)[i] != C.Undef && InstanceValues(y)[i] != C.Undef
        && Same(InstanceValues(x)[i], InstanceValues(y)[i])
    {
      AlikeValue(x, y, i);
    }
    FieldsSame(INSTANCE_FIELDS, InstanceValues(x), InstanceValues(y));
  }

  lemma ProjectionDecides(x: InstanceInfo, y: InstanceInfo)
    requires Exact(x) && Exact(y)
    ensures Same(Projection(x), Projection(y)) <==> Alike(x, y)
  {
    if Same(Projection(x), Projection(y)) {
      SameTexts(x, y);
      SameCounts(x, y);
      SameRest(x, y);
      LabelsDecide(x.labels, y.labels);
    }
    if Alike(x, y) {
      AlikeSame(x, y);
    }
  }

  // ----- all instances -----

  ghost predicate AllExact(xs: seq<InstanceInfo>) {
    forall x :: x in xs ==> Exact(x)
  }

  /** Instance by instance. */
  ghost predicate AllAlike(xs: seq<InstanceInfo>, ys: seq<InstanceInfo>) {
    |xs| == |ys| && forall i :: 0 <= i < |xs| ==> Alike(xs[i], ys[i])
  }

  lemma {:induction false} ProjectionsAre(xs: seq<InstanceInfo>, i: nat)
    requires i < |xs|
    ensures |Projections(xs)| == |xs| && Projections(xs)[i] == Projection(xs[i])
  {
    if |xs| > 1 {
      ProjectionsAre(xs[1..], if i == 0 then 0 else i - 1);
    }
  }

  lemma ProjectionsWellFormed(xs: seq<InstanceInfo>)
    requires AllExact(xs)
    ensures |Projections(xs)| == |xs| && C.WellFormed(C.Arr(Projections(xs)))
  {
    if xs != [] { ProjectionsAre(xs, 0); }
    forall i | 0 <= i < |xs|
      ensures C.WellFormed(Projections(xs)[i])
    {
      ProjectionsAre(xs, i);
      ProjectionWellFormed(xs[i]);
    }
  }

  lemma TextDecides(xs: seq<InstanceInfo>, ys: seq<InstanceInfo>)
    requires AllExact(xs) && AllExact(ys)
    ensures Hash64(C.Arr(Projections(xs))) == Hash64(C.Arr(Projections(ys))) <==> AllAlike(xs, ys)
  {
    ProjectionsWellFormed(xs);
    ProjectionsWellFormed(ys);
    CanonicalTextDecides(C.Arr(Projections(xs)), C.Arr(Projections(ys)));
    if |xs| == |ys| {
      forall i | 0 <= i < |xs|
        ensures Same(Projections(xs)[i], Projections(ys)[i]) <==> Alike(xs[i], ys[i])
      {
        ProjectionsAre(xs, i);
        ProjectionsAre(ys, i);
        ProjectionDecides(xs[i], ys[i]);
      }
    }
  }

  /** Every instance of the one fleet has a match in the other. */
  ghost predicate AllMet(xs: seq<InstanceInfo>, ys: seq<InstanceInfo>) {
    forall x :: x in xs ==> Met(x, ys)
  }

  ghost predicate Met(x: InstanceInfo, ys: seq<InstanceInfo>) {
    exists y :: y in ys && Alike(x, y)
  }

  lemma {:induction false} FirstIsLess(xs: seq<InstanceInfo>, y: InstanceInfo)
    requires Ascending(xs) && xs != [] && y in xs[1..]
    ensures xs[0].id < y.id
  {
    FirstIsLeast(xs[1..], y);
  }

  lemma AlikeIds(x: InstanceInfo, y: InstanceInfo)
    requires Alike(x, y)
    ensures x.id == y.id
  {
  }

  lemma LaterMet(x: InstanceInfo, ys: seq<InstanceInfo>)
    requires ys != [] && ys[0].id != x.id && Met(x, ys)
    ensures Met(x, ys[1..])
  {
    hide Alike;
    var y :| y in ys && Alike(x, y);
    AlikeIds(x, y);
    assert ys == [ys[0]] + ys[1..];
    assert y in ys[1..];
  }

  lemma RestMet(xs: seq<InstanceInfo>, ys: seq<InstanceInfo>)
    requires Ascending(xs) && Ascending(ys) && xs != [] && ys != [] && xs[0].id == ys[0].id && AllMet(xs, ys)
    ensures Ascending(xs[1..]) && AllMet(xs[1..], ys[1..])
  {
    forall x | x in xs[1..]
      ensures Met(x, ys[1..])
    {
      hide Ascending, Alike, Met;
      FirstIsLess(xs, x);
      assert x in xs && Met(x, ys);
      LaterMet(x, ys);
    }
  }

  lemma NobodyMeets(ys: seq<InstanceInfo>)
    ensures AllMet(ys, []) ==> ys == []
  {
    if ys != [] {
      assert ys[0] in ys && !Met(ys[0], []);
    }
  }

  lemma HeadMeets(xs: seq<InstanceInfo>, ys: seq<InstanceInfo>) returns (y: InstanceInfo)
    requires Ascending(ys) && AllMet(xs, ys) && xs != []
    ensures ys != [] && ys[0].id <= xs[0].id && (ys[0].id == xs[0].id ==> Alike(xs[0], ys[0]))
  {
    assert xs[0] in xs;
    assert Met(xs[0], ys);
    y :| y in ys && Alike(xs[0], y);
    FirstIsLeast(ys, y);
  }

  lemma HeadsMeet(xs: seq<InstanceInfo>, ys: seq<InstanceInfo>)
    requires Ascending(xs) && Ascending(ys) && AllMet(xs, ys) && AllMet(ys, xs) && xs != []
    ensures ys != [] && Alike(xs[0], ys[0])
  {
    hide Ascending, AllMet, Alike;
    var y := HeadMeets(xs, ys);
    var x := HeadMeets(ys, xs);
  }

  /** In ascending order the matches are in the same places. */
  lemma {:induction false} MetInPlace(xs: seq<InstanceInfo>, ys: seq<InstanceInfo>)
    requires Ascending(xs) && Ascending(ys) && AllMet(xs, ys) && AllMet(ys, xs)
    ensures AllAlike(xs, ys)
  {
    if xs == [] {
      NobodyMeets(ys);
    } else {
      HeadsMeet(xs, ys);
      assert xs[0].id == ys[0].id;
      hide Alike, AllMet, Ascending;
      RestMet(xs, ys);
      RestMet(ys, xs);
      MetInPlace(xs[1..], ys[1..]);
      assert xs == [xs[0]] + xs[1..] && ys == [ys[0]] + ys[1..];
    }
  }

  lemma InPlaceMet(xs: seq<InstanceInfo>, ys: seq<InstanceInfo>)
    requires AllAlike(xs, ys)
    ensures AllMet(xs, ys) && AllMet(ys, xs)
  {
    forall x | x in xs
      ensures Met(x, ys)
    {
      var i :| 0 <= i < |xs| && xs[i] == x;
      assert ys[i] in ys;
    }
    forall y | y in ys
      ensures Met(y, xs)
    {
      var i :| 0 <= i < |ys| && ys[i] == y;
      assert xs[i] in xs && Alike(xs[i], y);
      assert Alike(y, xs[i]);
    }
  }

  lemma SortHas(xs: seq<InstanceInfo>)
    requires DistinctIds(xs)
    ensures Ascending(SortById(xs)) && forall x :: x in SortById(xs) <==> x in xs
  {
    SortKeeps(xs);
    forall x
      ensures x in SortById(xs) <==> x in xs
    {
      assert x in SortById(xs) <==> x in multiset(SortById(xs));
      assert x in xs <==> x in multiset(xs);
    }
  }

  /**
   * Two fleets have the same state hash exactly when each instance of either is in the other, up to when it last
   * reported and the order of its labels.
   */
  lemma StateHashDecides(xs: seq<InstanceInfo>, ys: seq<InstanceInfo>)
    requires DistinctIds(xs) && DistinctIds(ys) && AllExact(xs) && AllExact(ys)
    ensures ComputeStateHash(xs) == ComputeStateHash(ys) <==> AllMet(xs, ys) && AllMet(ys, xs)
  {
    SortHas(xs);
    SortHas(ys);
    var a, b := SortById(xs), SortById(ys);
    TextDecides(a, b);
    if AllAlike(a, b) {
      InPlaceMet(a, b);
    }
    if AllMet(xs, ys) && AllMet(ys, xs) {
      SortedMet(xs, ys, a, b);
      SortedMet(ys, xs, b, a);
      MetInPlace(a, b);
    }
    if AllMet(a, b) && AllMet(b, a) {
      SortedMet(a, b, xs, ys);
      SortedMet(b, a, ys, xs);
    }
  }

  lemma SortedMet(xs: seq<InstanceInfo>, ys: seq<InstanceInfo>, a: seq<InstanceInfo>, b: seq<InstanceInfo>)
    requires AllMet(xs, ys) && (forall x :: x in a ==> x in xs) && forall y :: y in ys ==> y in b
    ensures AllMet(a, b)
  {
    forall x | x in a
      ensures Met(x, b)
    {
      assert Met(x, ys);
    }
  }
}
