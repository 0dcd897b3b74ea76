/** Key sequences of JavaScript maps: iteration follows insertion order. */
module Ordered {

  function KeySet<K(==)>(order: seq<K>): set<K> {
    if order == [] then {} else {order[0]} + KeySet(order[1..])
  }

  ghost predicate Distinct<K>(order: seq<K>) {
    order == [] || (order[0] !in KeySet(order[1..]) && Distinct(order[1..]))
  }

  /** A map together with the order its keys iterate in. */
  ghost predicate Orders<K, V>(order: seq<K>, m: map<K, V>) {
    Distinct(order) && KeySet(order) == m.Keys
  }

  /** The keys of `order` that are not `gone`, in order. */
  function Minus<K(==)>(order: seq<K>, gone: set<K>): seq<K> {
    if order == [] then []
    else if order[0] in gone then Minus(order[1..], gone)
    else [order[0]] + Minus(order[1..], gone)
  }

  function Without<K(==)>(order: seq<K>, key: K): seq<K> {
    if order == [] then []
    else if order[0] == key then Without(order[1..], key)
    else [order[0]] + Without(order[1..], key)
  }

  // ----- the keys of a sequence -----

  lemma {:induction false} KeySetSplits<K>(a: seq<K>, b: seq<K>)
    ensures KeySet(a + b) == KeySet(a) + KeySet(b)
  {
    if a == [] {
      assert a + b == b;
    } else {
      assert (a + b)[1..] == a[1..] + b;
      KeySetSplits(a[1..], b);
    }
  }

  lemma {:induction false} KeySetHas<K>(order: seq<K>, i: nat)
    requires i < |order|
    ensures order[i] in KeySet(order)
  {
    if i > 0 {
      KeySetHas(order[1..], i - 1);
    }
  }

  /** Every key has a position. */
  lemma {:induction false} KeyPosition<K>(order: seq<K>, k: K) returns (i: nat)
    requires k in KeySet(order)
    ensures i < |order| && order[i] == k
  {
    if order[0] == k {
      i := 0;
    } else {
      i := KeyPosition(order[1..], k);
      i := i + 1;
    }
  }

  lemma {:induction false} KeySetMinus<K>(order: seq<K>, gone: set<K>)
    ensures KeySet(Minus(order, gone)) == KeySet(order) - gone
  {
    if order != [] {
      KeySetMinus(order[1..], gone);
    }
  }

  lemma {:induction false} KeySetWithout<K>(order: seq<K>, key: K)
    ensures KeySet(Without(order, key)) == KeySet(order) - {key}
  {
    if order != [] {
      KeySetWithout(order[1..], key);
    }
  }

  lemma {:induction false} DistinctMinus<K>(order: seq<K>, gone: set<K>)
    requires Distinct(order)
    ensures Distinct(Minus(order, gone))
  {
    if order != [] {
      DistinctMinus(order[1..], gone);
      KeySetMinus(order[1..], gone);
    }
  }

  lemma {:induction false} DistinctWithout<K>(order: seq<K>, key: K)
    requires Distinct(order)
    ensures Distinct(Without(order, key))
  {
    if order != [] {
      DistinctWithout(order[1..], key);
      KeySetWithout(order[1..], key);
    }
  }

  lemma {:induction false} DistinctSplits<K>(a: seq<K>, b: seq<K>)
    ensures Distinct(a + b) <==> Distinct(a) && Distinct(b) && KeySet(a) !! KeySet(b)
  {
    if a == [] {
      assert a + b == b;
    } else {
      assert (a + b)[1..] == a[1..] + b;
      DistinctSplits(a[1..], b);
      KeySetSplits(a[1..], b);
    }
  }

  lemma {:induction false} WithoutAbsent<K>(order: seq<K>, key: K)
    requires key !in KeySet(order)
    ensures Without(order, key) == order
  {
    if order != [] {
      WithoutAbsent(order[1..], key);
    }
  }

  lemma {:induction false} MinusWithout<K>(order: seq<K>, key: K, gone: set<K>)
    ensures Minus(Without(order, key), gone) == Minus(order, gone + {key})
  {
    if order != [] {
      MinusWithout(order[1..], key, gone);
    }
  }

  lemma {:induction false} MinusSame<K>(order: seq<K>, gone: set<K>, gone': set<K>)
    requires gone * KeySet(order) == gone' * KeySet(order)
    ensures Minus(order, gone) == Minus(order, gone')
  {
    if order != [] {
      assert order[0] in gone <==> order[0] in gone * KeySet(order);
      assert gone * KeySet(order[1..]) == (gone * KeySet(order)) * KeySet(order[1..]);
      assert gone' * KeySet(order[1..]) == (gone' * KeySet(order)) * KeySet(order[1..]);
      MinusSame(order[1..], gone, gone');
    }
  }

  // ----- ordered maps -----

  /** An ordered map has as many keys as its order. */
  lemma {:induction false} DistinctSize<K>(order: seq<K>)
    requires Distinct(order)
    ensures |order| == |KeySet(order)|
  {
    if order != [] {
      DistinctSize(order[1..]);
    }
  }

  lemma OrderSize<K, V>(order: seq<K>, m: map<K, V>)
    requires Orders(order, m)
    ensures |order| == |m|
  {
    DistinctSize(order);
    assert |m| == |m.Keys|;
  }

  /** What deleting an entry leaves. */
  lemma OrdersWithout<K, V>(order: seq<K>, m: map<K, V>, key: K)
    requires Orders(order, m)
    ensures Orders(Without(order, key), m - {key})
  {
    DistinctWithout(order, key);
    KeySetWithout(order, key);
  }

  /** What inserting a new entry leaves. */
  lemma OrdersAppend<K, V>(order: seq<K>, m: map<K, V>, key: K, v: V)
    requires Orders(order, m) && key !in m
    ensures Orders(order + [key], m[key := v])
  {
    DistinctSplits(order, [key]);
    KeySetSplits(order, [key]);
  }

  lemma OrdersMinus<K, V>(order: seq<K>, m: map<K, V>, gone: set<K>)
    requires Orders(order, m)
    ensures Orders(Minus(order, gone), m - gone)
  {
    DistinctMinus(order, gone);
    KeySetMinus(order, gone);
  }

  /** Visiting the listed keys one after the other, deleting those that are to go. */
  ghost function Deleting<K, V>(order: seq<K>, m: map<K, V>, ids: seq<K>, gone: set<K>): (seq<K>, map<K, V>)
    decreases ids
  {
    if ids == [] then (order, m)
    else if ids[0] in m && ids[0] in gone then Deleting(Without(order, ids[0]), m - {ids[0]}, ids[1..], gone)
    else Deleting(order, m, ids[1..], gone)
  }

  /** Iterating while deleting leaves exactly the rest, in the old order. */
  lemma {:induction false} DeletingLeaves<K, V>(order: seq<K>, m: map<K, V>, ids: seq<K>, gone: set<K>)
    requires Orders(order, m)
    ensures Deleting(order, m, ids, gone) == (Minus(order, gone * KeySet(ids)), m - gone * KeySet(ids))
    decreases ids
  {
    if ids == [] {
      assert gone * {} == {} && m - {} == m;
      MinusNothing(order);
    } else {
      var id, rest := ids[0], gone * KeySet(ids[1..]);
      var all := gone * KeySet(ids);
      if id in m && id in gone {
        OrdersWithout(order, m, id);
        DeletingLeaves(Without(order, id), m - {id}, ids[1..], gone);
        MinusWithout(order, id, rest);
        assert all == rest + {id};
        assert m - {id} - rest == m - all;
      } else {
        DeletingLeaves(order, m, ids[1..], gone);
        MinusSame(order, rest, all);
        assert m - rest == m - all;
      }
    }
  }

  lemma {:induction false} MinusNothing<K>(order: seq<K>)
    ensures Minus(order, {}) == order
  {
    if order != [] {
      MinusNothing(order[1..]);
    }
  }

  lemma DeletingAll<K, V>(order: seq<K>, m: map<K, V>, gone: set<K>)
    requires Orders(order, m)
    ensures Deleting(order, m, order, gone) == (Minus(order, gone), m - gone)
  {
    DeletingLeaves(order, m, order, gone);
    MinusSame(order, gone * KeySet(order), gone);
    assert m - gone * m.Keys == m - gone;
  }

  /** Deleting the least recent key. */
  lemma OrdersTail<K, V>(order: seq<K>, m: map<K, V>)
    requires Orders(order, m) && order != []
    ensures order[0] in m && Without(order, order[0]) == order[1..]
    ensures Orders(order[1..], m - {order[0]}) && |m - {order[0]}| == |m| - 1 && |order| == |m|
  {
    WithoutAbsent(order[1..], order[0]);
    OrdersWithout(order, m, order[0]);
    OrderSize(order, m);
    OrderSize(order[1..], m - {order[0]});
  }

  lemma {:induction false} SubsetSize<K>(a: set<K>, b: set<K>)
    requires a <= b
    ensures |a| <= |b|
  {
    if a != {} {
      var x :| x in a;
      SubsetSize(a - {x}, b - {x});
    }
  }
}
