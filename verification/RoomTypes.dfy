/** The room types a fleet offers: each once, in order of their code units. */
module RoomTypes {
  import opened Utf8
  import opened FleetTypes
  import opened SnapshotHash
  import C = Canonical

  predicate Before(a: Text, b: Text) {
    C.Less(Utf16(a), Utf16(b))
  }

  function InsertType(t: Text, sorted: seq<Text>): seq<Text> {
    if sorted == [] || Before(t, sorted[0]) then [t] + sorted
    else if t == sorted[0] then sorted
    else [sorted[0]] + InsertType(t, sorted[1..])
  }

  function TypesInto(sorted: seq<Text>, types: seq<Text>): seq<Text>
    decreases types
  {
    if types == [] then sorted else TypesInto(InsertType(types[0], sorted), types[1..])
  }

  function TypesFrom(sorted: seq<Text>, instances: seq<InstanceInfo>): seq<Text>
    decreases instances
  {
    if instances == [] then sorted else TypesFrom(TypesInto(sorted, instances[0].roomTypes), instances[1..])
  }

  ghost predicate BeforeAll(first: Text, rest: seq<Text>) {
    forall x | x in rest :: Before(first, x)
  }

  /** Strictly ascending, so without duplicates. */
  ghost predicate Ascending(sorted: seq<Text>) {
    sorted == [] || (BeforeAll(sorted[0], sorted[1..]) && Ascending(sorted[1..]))
  }

  lemma BeforeIsTotal(a: Text, b: Text)
    ensures a != b ==> Before(a, b) || Before(b, a)
  {
    C.LessTotal(Utf16(a), Utf16(b));
    if Utf16(a) == Utf16(b) {
      Utf16Injective(a, b);
    }
  }

  lemma BeforeFollows(t: Text, first: Text, rest: seq<Text>)
    requires Before(t, first) && BeforeAll(first, rest)
    ensures BeforeAll(t, [first] + rest)
  {
    forall x | x in [first] + rest
      ensures Before(t, x)
    {
      if x != first {
        C.LessTransitive(Utf16(t), Utf16(first), Utf16(x));
      }
    }
  }

  lemma {:induction false} Inserted(t: Text, sorted: seq<Text>, x: Text)
    ensures x in InsertType(t, sorted) <==> x == t || x in sorted
  {
    hide Before;
    if sorted != [] && !Before(t, sorted[0]) && t != sorted[0] {
      Inserted(t, sorted[1..], x);
      assert sorted == [sorted[0]] + sorted[1..];
    }
  }

  lemma {:induction false} InsertAscends(t: Text, sorted: seq<Text>)
    requires Ascending(sorted)
    ensures Ascending(InsertType(t, sorted))
  {
    hide Before;
    if sorted == [] {
      assert [t] + [] == [t];
    } else if Before(t, sorted[0]) {
      BeforeFollows(t, sorted[0], sorted[1..]);
      assert sorted == [sorted[0]] + sorted[1..] && ([t] + sorted)[1..] == sorted;
    } else if t != sorted[0] {
      BeforeIsTotal(t, sorted[0]);
      InsertAscends(t, sorted[1..]);
      var rest := InsertType(t, sorted[1..]);
      forall x | x in rest
        ensures Before(sorted[0], x)
      {
        Inserted(t, sorted[1..], x);
      }
      assert InsertType(t, sorted)[1..] == rest;
    }
  }

  lemma {:induction false} IntoKeeps(sorted: seq<Text>, types: seq<Text>, x: Text)
    requires Ascending(sorted)
    ensures Ascending(TypesInto(sorted, types)) && (x in TypesInto(sorted, types) <==> x in sorted || x in types)
    decreases types
  {
    if types != [] {
      InsertAscends(types[0], sorted);
      Inserted(types[0], sorted, x);
      IntoKeeps(InsertType(types[0], sorted), types[1..], x);
      assert types == [types[0]] + types[1..];
    }
  }

  ghost predicate Offered(instances: seq<InstanceInfo>, x: Text) {
    exists k :: 0 <= k < |instances| && x in instances[k].roomTypes
  }

  lemma {:induction false} FromKeeps(sorted: seq<Text>, instances: seq<InstanceInfo>, x: Text)
    requires Ascending(sorted)
    ensures Ascending(TypesFrom(sorted, instances))
    ensures x in TypesFrom(sorted, instances) <==> x in sorted || Offered(instances, x)
    decreases instances
  {
    if instances != [] {
      IntoKeeps(sorted, instances[0].roomTypes, x);
      FromKeeps(TypesInto(sorted, instances[0].roomTypes), instances[1..], x);
      if k :| 0 <= k < |instances| && x in instances[k].roomTypes {
        assert k == 0 || x in instances[1..][k - 1].roomTypes;
      }
      if k :| 0 <= k < |instances[1..]| && x in instances[1..][k].roomTypes {
        assert x in instances[k + 1].roomTypes;
      }
    }
  }

  function TypesOf(instances: seq<InstanceInfo>): seq<Text> {
    TypesFrom([], instances)
  }

  /** Exactly the types some instance offers, each once and in order. */
  lemma TypesAreOffered(instances: seq<InstanceInfo>, x: Text)
    ensures Ascending(TypesOf(instances)) && (x in TypesOf(instances) <==> Offered(instances, x))
  {
    FromKeeps([], instances, x);
  }

  method CollectTypes(instances: seq<InstanceInfo>) returns (types: seq<Text>)
    ensures types == TypesOf(instances)
  {
    types := [];
    var a := 0;
    while a < |instances|
      invariant 0 <= a <= |instances| && TypesFrom(types, instances[a..]) == TypesOf(instances)
    {
      assert instances[a..] == [instances[a]] + instances[a + 1..];
      types := CollectFrom(types, instances[a].roomTypes);
      a := a + 1;
    }
  }

  method CollectFrom(sorted: seq<Text>, offered: seq<Text>) returns (types: seq<Text>)
    ensures types == TypesInto(sorted, offered)
  {
    types := sorted;
    var b := 0;
    while b < |offered|
      invariant 0 <= b <= |offered| && TypesInto(types, offered[b..]) == TypesInto(sorted, offered)
    {
      assert offered[b..] == [offered[b]] + offered[b + 1..];
      types := InsertType(offered[b], types);
      b := b + 1;
    }
  }
}
