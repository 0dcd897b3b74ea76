/** Canonical text decides sameness of data: equal text exactly when equal up to key order. */
module CanonicalSame {
  import opened Prelude
  import opened Canonical
  import opened CanonicalInjective

  predicate IsNull(v: Json) {
    v.Null? || v.Undef? || v.NonFinite?
  }

  /** `e` is an entry that JSON keeps. */
  predicate Keeps(entries: seq<Entry>, e: Entry) {
    e in entries && e.value != Undef
  }

  /** The same data up to key order, with undefined entries absent and other undefined values null. */
  ghost predicate Same(a: Json, b: Json)
    decreases a, 1
  {
    match a
    case Null => IsNull(b)
    case Undef => IsNull(b)
    case NonFinite => IsNull(b)
    case Bool(x) => b == Bool(x)
    case Int(n) => b == Int(n)
    case Text(s) => b == Text(s)
    case Arr(xs) => b.Arr? && |xs| == |b.items| && forall i :: 0 <= i < |xs| ==> Same(xs[i], b.items[i])
    case Obj(xs) => b.Obj? && AllMatched(a, b.entries) && AllKeysMet(xs, b.entries)
  }

  /** Every kept entry of `a` has a counterpart in `ys`. */
  ghost predicate AllMatched(a: Json, ys: seq<Entry>)
    requires a.Obj?
    decreases a, 0
  {
    forall i :: 0 <= i < |a.entries| && a.entries[i].value != Undef ==>
      Matched(a.entries[i].key, a.entries[i].value, ys)
  }

  ghost predicate Matched(key: Str, v: Json, ys: seq<Entry>)
    decreases v, 2
  {
    exists y :: Keeps(ys, y) && y.key == key && Same(v, y.value)
  }

  /** Every kept key of `ys` is a kept key of `xs`. */
  ghost predicate AllKeysMet(xs: seq<Entry>, ys: seq<Entry>) {
    forall y :: Keeps(ys, y) ==> HasKey(xs, y.key)
  }

  ghost predicate HasKey(xs: seq<Entry>, key: Str) {
    exists i :: 0 <= i < |xs| && xs[i].value != Undef && xs[i].key == key
  }

  // ----- sorting -----

  ghost predicate Strict(es: seq<Entry>) {
    forall i, j :: 0 <= i < j < |es| ==> Less(es[i].key, es[j].key)
  }

  ghost predicate DistinctKeys(es: seq<Entry>) {
    forall i, j :: 0 <= i < j < |es| ==> es[i].key != es[j].key
  }

  lemma {:induction false} InsertStrict(e: Entry, sorted: seq<Entry>)
    requires Strict(sorted) && forall x :: x in sorted ==> x.key != e.key
    ensures Strict(InsertEntry(e, sorted))
  {
    if sorted != [] {
      LessTotal(e.key, sorted[0].key);
      if Less(e.key, sorted[0].key) {
        forall j | 1 <= j < |sorted|
          ensures Less(e.key, sorted[j].key)
        {
          LessTransitive(e.key, sorted[0].key, sorted[j].key);
        }
      } else {
        InsertStrict(e, sorted[1..]);
        var rest := InsertEntry(e, sorted[1..]);
        forall j | 0 <= j < |rest|
          ensures Less(sorted[0].key, rest[j].key)
        {
          assert rest[j] in rest;
          assert rest[j] == e || rest[j] in sorted[1..];
        }
      }
    }
  }

  lemma {:induction false} SortStrict(es: seq<Entry>)
    requires DistinctKeys(es)
    ensures Strict(SortEntries(es))
  {
    if es != [] {
      SortStrict(es[1..]);
      InsertStrict(es[0], SortEntries(es[1..]));
    }
  }

  lemma {:induction false} DefinedStrict(es: seq<Entry>)
    requires Strict(es)
    ensures Strict(Defined(es))
  {
    if es != [] {
      DefinedStrict(es[1..]);
      var rest := Defined(es[1..]);
      forall j | 0 <= j < |rest|
        ensures Less(es[0].key, rest[j].key)
      {
        assert rest[j] in rest && rest[j] in es[1..];
      }
    }
  }

  // ----- branches -----

  ghost predicate StrictBranches(bs: seq<Branch>) {
    forall i, j :: 0 <= i < j < |bs| ==> Less(bs[i].key, bs[j].key)
  }

  /** Strictly sorted branches are determined by which branches there are. */
  lemma {:induction false} BranchesDetermined(xs: seq<Branch>, ys: seq<Branch>)
    requires StrictBranches(xs) && StrictBranches(ys)
    requires forall b :: b in xs <==> b in ys
    ensures xs == ys
  {
    if xs == [] || ys == [] {
      NoneIn(xs, ys);
    } else {
      assert xs[0] in ys;
      FirstIsLeast(xs, ys);
      forall b
        ensures b in xs[1..] <==> b in ys[1..]
      {
        NotFirstAgain(xs);
        NotFirstAgain(ys);
      }
      BranchesDetermined(xs[1..], ys[1..]);
      assert xs == [xs[0]] + xs[1..] && ys == [ys[0]] + ys[1..];
    }
  }

  lemma NoneIn(xs: seq<Branch>, ys: seq<Branch>)
    requires xs == [] || ys == []
    requires forall b :: b in xs <==> b in ys
    ensures xs == ys
  {
    if xs != [] {
      HeadIn(xs);
    } else if ys != [] {
      HeadIn(ys);
    }
  }

  lemma HeadIn(xs: seq<Branch>)
    requires xs != []
    ensures xs[0] in xs
  {
  }

  lemma NotFirstAgain(xs: seq<Branch>)
    requires StrictBranches(xs) && xs != []
    ensures forall b :: b in xs[1..] <==> b in xs && b != xs[0]
  {
    forall j | 1 <= j < |xs|
      ensures xs[j] != xs[0]
    {
      LessTotal(xs[0].key, xs[j].key);
    }
  }

  lemma FirstIsLeast(xs: seq<Branch>, ys: seq<Branch>)
    requires StrictBranches(xs) && StrictBranches(ys) && xs != [] && ys != []
    requires xs[0] in ys && ys[0] in xs
    ensures xs[0] == ys[0]
  {
    var i :| 0 <= i < |ys| && ys[i] == xs[0];
    var j :| 0 <= j < |xs| && xs[j] == ys[0];
    if i > 0 && j > 0 {
      LessTotal(xs[0].key, ys[0].key);
    }
  }

  lemma {:induction false} NormalEntriesHave(v: Json, kept: seq<Entry>, b: Branch)
    requires v.Obj? && forall x :: x in kept ==> x in v.entries
    ensures b in NormalEntries(v, kept) <==> exists x :: x in kept && b == Branch(x.key, Normal(x.value))
    decreases |kept|
  {
    if kept != [] {
      NormalEntriesHave(v, kept[1..], b);
      assert forall x :: x in kept <==> x == kept[0] || x in kept[1..];
    }
  }

  lemma NormalObj(v: Json)
    requires v.Obj? && WellFormed(v)
    ensures StrictBranches(Normal(v).entries)
    ensures forall b :: b in Normal(v).entries <==>
      exists x :: Keeps(v.entries, x) && b == Branch(x.key, Normal(x.value))
  {
    var kept := Defined(SortEntries(v.entries));
    SortStrict(v.entries);
    DefinedStrict(SortEntries(v.entries));
    forall b
      ensures b in Normal(v).entries <==> exists x :: Keeps(v.entries, x) && b == Branch(x.key, Normal(x.value))
    {
      NormalEntriesHave(v, kept, b);
      assert forall x :: x in kept <==> Keeps(v.entries, x);
    }
  }

  // ----- sameness -----

  lemma {:induction false} NormalDecidesSame(a: Json, b: Json)
    requires WellFormed(a) && WellFormed(b)
    ensures Normal(a) == Normal(b) <==> Same(a, b)
    decreases a, 1
  {
    match a
    case Arr(xs) =>
      if b.Arr? {
        ItemsDecideSame(a, b);
      }
    case Obj(xs) =>
      if b.Obj? {
        if Normal(a) == Normal(b) {
          EqualTreesAreSame(a, b);
        }
        if Same(a, b) {
          SameTreesAreEqual(a, b);
        }
      }
    case _ =>
  }

  lemma {:induction false} ItemsDecideSame(a: Json, b: Json)
    requires a.Arr? && b.Arr? && WellFormed(a) && WellFormed(b)
    ensures Normal(a).items == Normal(b).items
       <==> |a.items| == |b.items| && forall i :: 0 <= i < |a.items| ==> Same(a.items[i], b.items[i])
    decreases a, 0
  {
    var xs, ys := a.items, b.items;
    assert |Normal(a).items| == |xs| && |Normal(b).items| == |ys|;
    if |xs| == |ys| {
      forall i | 0 <= i < |xs|
        ensures Normal(a).items[i] == Normal(b).items[i] <==> Same(xs[i], ys[i])
      {
        NormalDecidesSame(xs[i], ys[i]);
      }
    }
  }

  lemma {:induction false} EqualTreesAreSame(a: Json, b: Json)
    requires a.Obj? && b.Obj? && WellFormed(a) && WellFormed(b)
    requires Normal(a) == Normal(b)
    ensures AllMatched(a, b.entries) && AllKeysMet(a.entries, b.entries)
    decreases a, 0
  {
    NormalObj(a);
    NormalObj(b);
    forall i | 0 <= i < |a.entries| && a.entries[i].value != Undef
      ensures Matched(a.entries[i].key, a.entries[i].value, b.entries)
    {
      var x := a.entries[i];
      assert Keeps(a.entries, x);
      var y := SharedBranch(a, b, x);
      NormalDecidesSame(x.value, y.value);
    }
    forall y | Keeps(b.entries, y)
      ensures HasKey(a.entries, y.key)
    {
      var x := SharedBranch(b, a, y);
      var i :| 0 <= i < |a.entries| && a.entries[i] == x;
    }
  }

  lemma SharedBranch(a: Json, b: Json, x: Entry) returns (y: Entry)
    requires a.Obj? && b.Obj? && WellFormed(a) && WellFormed(b) && Normal(a) == Normal(b) && Keeps(a.entries, x)
    ensures Keeps(b.entries, y) && y.key == x.key && Normal(y.value) == Normal(x.value)
  {
    NormalObj(a);
    NormalObj(b);
    var br := Branch(x.key, Normal(x.value));
    assert br in Normal(a).entries;
    y :| Keeps(b.entries, y) && br == Branch(y.key, Normal(y.value));
  }

  lemma {:induction false} CounterpartBranch(a: Json, b: Json, i: nat) returns (y: Entry)
    requires a.Obj? && b.Obj? && WellFormed(a) && WellFormed(b) && AllMatched(a, b.entries)
    requires i < |a.entries| && a.entries[i].value != Undef
    ensures Keeps(b.entries, y) && y.key == a.entries[i].key && Normal(y.value) == Normal(a.entries[i].value)
    decreases a, 0, 0
  {
    var x := a.entries[i];
    assert Matched(x.key, x.value, b.entries);
    y :| Keeps(b.entries, y) && y.key == x.key && Same(x.value, y.value);
    NormalDecidesSame(x.value, y.value);
  }

  lemma SameKeySameEntry(b: Json, y: Entry, z: Entry)
    requires b.Obj? && WellFormed(b) && y in b.entries && z in b.entries && y.key == z.key
    ensures y == z
  {
    var j :| 0 <= j < |b.entries| && b.entries[j] == y;
    var k :| 0 <= k < |b.entries| && b.entries[k] == z;
  }

  lemma {:induction false} SameTreesAreEqual(a: Json, b: Json)
    requires a.Obj? && b.Obj? && WellFormed(a) && WellFormed(b)
    requires AllMatched(a, b.entries) && AllKeysMet(a.entries, b.entries)
    ensures Normal(a) == Normal(b)
    decreases a, 0
  {
    NormalObj(a);
    NormalObj(b);
    var xs, ys := a.entries, b.entries;
    forall br | br in Normal(a).entries
      ensures br in Normal(b).entries
    {
      var x :| Keeps(xs, x) && br == Branch(x.key, Normal(x.value));
      var i :| 0 <= i < |xs| && xs[i] == x;
      var y := CounterpartBranch(a, b, i);
      assert br == Branch(y.key, Normal(y.value));
    }
    forall br | br in Normal(b).entries
      ensures br in Normal(a).entries
    {
      var y :| Keeps(ys, y) && br == Branch(y.key, Normal(y.value));
      assert HasKey(xs, y.key);
      var i :| 0 <= i < |xs| && xs[i].value != Undef && xs[i].key == y.key;
      var z := CounterpartBranch(a, b, i);
      SameKeySameEntry(b, y, z);
      assert Keeps(xs, xs[i]) && br == Branch(xs[i].key, Normal(xs[i].value));
    }
    BranchesDetermined(Normal(a).entries, Normal(b).entries);
  }

  /** The law the snapshot hash and the ETag rest on. */
  lemma CanonicalTextDecides(a: Json, b: Json)
    requires WellFormed(a) && WellFormed(b)
    ensures Canonicalize(a) == Canonicalize(b) <==> Same(a, b)
  {
    CanonicalizePrints(a);
    CanonicalizePrints(b);
    NormalDecidesSame(a, b);
    if Canonicalize(a) == Canonicalize(b) {
      PrintInjective(Normal(a), Normal(b));
    }
  }

  /** In particular the insertion order of an object's entries never shows. */
  lemma KeyOrderNeverShows(a: Json, b: Json)
    requires a.Obj? && b.Obj? && WellFormed(a) && WellFormed(b)
    requires multiset(a.entries) == multiset(b.entries)
    ensures Canonicalize(a) == Canonicalize(b)
  {
    NormalObj(a);
    NormalObj(b);
    assert forall x :: x in a.entries <==> x in multiset(a.entries);
    assert forall x :: x in b.entries <==> x in multiset(b.entries);
    assert forall x :: Keeps(a.entries, x) <==> Keeps(b.entries, x);
    BranchesDetermined(Normal(a).entries, Normal(b).entries);
    CanonicalizePrints(a);
    CanonicalizePrints(b);
  }
}
