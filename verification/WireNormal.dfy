/** Which messages survive encoding and decoding unchanged. */
module WireNormal {
  import opened Prelude
  import opened Utf8
  import opened Varint
  import opened Wire
  import opened WireRoundTrip

  /** Every property is a field, required fields are there, lists are not empty, scalars are in range. */
  ghost predicate Exact(s: Schema, t: string, m: Message)
    decreases Msg(m), 1
  {
    && t in s.types
    && (forall k :: k in m ==> exists i :: 0 <= i < |s.types[t]| && s.types[t][i].key == k)
    && (forall i :: 0 <= i < |s.types[t]| ==> ExactField(s, s.types[t][i], m))
  }

  ghost predicate ExactField(s: Schema, f: Field, m: Message)
    decreases Msg(m), 0
  {
    if f.key !in m then f.rule != Required
    else if f.rule == Repeated then
      var v := m[f.key];
      v.List? && v.items != [] && forall k :: 0 <= k < |v.items| ==> ExactValue(s, f.ty, v.items[k])
    else ExactValue(s, f.ty, m[f.key])
  }

  ghost predicate ExactValue(s: Schema, ty: FieldType, v: Value)
    decreases v, 2
  {
    match ty
    case TString => v.Str? && !(v.text != [] && v.text[0] == BOM)
    case TBytes => v.Blob?
    case TUint32 => v.Num? && 0 <= v.n < 0x1_0000_0000
    case TInt32 => v.Num? && -0x8000_0000 <= v.n < 0x8000_0000
    case TBool => v.Flag?
    case TMessage(u) => v.Msg? && Exact(s, u, v.fields)
  }

  lemma {:induction false} NormalFieldsAt(s: Schema, t: string, m: Message, i: nat, j: nat)
    requires WellFormed(s) && Kinded(s, t, m) && t in s.types && DistinctKeys(s.types[t])
    requires j < i <= |s.types[t]|
    ensures SameAt(s.types[t][j].key, NormalFields(s, t, m, i), NormalField(s, t, m, j))
  {
    var before, v := NormalFields(s, t, m, i - 1), NormalField(s, t, m, i - 1);
    var after := NormalFields(s, t, m, i);
    assert after == PutOption(before, s.types[t][i - 1].key, v);
    if j == i - 1 {
      LastPut(before, s.types[t], j, v);
    } else {
      NormalFieldsAt(s, t, m, i - 1, j);
      EarlierPut(before, s.types[t], j, i - 1, v, NormalField(s, t, m, j));
    }
  }

  lemma LastPut(before: Message, fields: seq<Field>, j: nat, v: Option<Value>)
    requires j < |fields| && DistinctKeys(fields)
    requires forall k :: k in before ==> exists i :: 0 <= i < j && fields[i].key == k
    ensures SameAt(fields[j].key, PutOption(before, fields[j].key, v), v)
  {
    assert fields[j].key !in before;
  }

  lemma EarlierPut(before: Message, fields: seq<Field>, j: nat, i: nat, v: Option<Value>, w: Option<Value>)
    requires j < i < |fields| && DistinctKeys(fields) && SameAt(fields[j].key, before, w)
    ensures SameAt(fields[j].key, PutOption(before, fields[i].key, v), w)
  {
    assert fields[j].key != fields[i].key;
  }

  lemma {:induction false} NormalItemsAt(s: Schema, ty: FieldType, items: seq<Value>, k: nat)
    requires WellFormed(s) && k <= |items|
    requires AllKind(s, ty, items)
    ensures forall j :: 0 <= j < k ==> NormalItems(s, ty, items, k)[j] == NormalValue(s, ty, items[j])
  {
    if k > 0 {
      NormalItemsAt(s, ty, items, k - 1);
    }
  }

  /** Normalisation leaves a message of a defined type alone exactly when the message is `Exact`. */
  lemma {:induction false} NormalFixpoint(s: Schema, t: string, m: Message)
    requires WellFormed(s) && AllDistinctKeys(s) && Kinded(s, t, m) && t in s.types
    requires AllTypesDefined(s)
    ensures Normal(s, t, m) == m <==> Exact(s, t, m)
    decreases Msg(m), 0
  {
    var fields, r := s.types[t], Normal(s, t, m);
    assert DistinctKeys(fields);
    forall i | 0 <= i < |fields|
      ensures ExactField(s, fields[i], m) <==> AgreeAt(m, r, fields[i].key)
    {
      NormalFieldsAt(s, t, m, |fields|, i);
      FieldFixpoint(s, t, m, i);
    }
    if Exact(s, t, m) {
      AgreeOnFields(fields, m, r);
    }
  }

  predicate AgreeAt(m: Message, r: Message, key: string) {
    (key in m <==> key in r) && (key in m ==> m[key] == r[key])
  }

  lemma AgreeOnFields(fields: seq<Field>, m: Message, r: Message)
    requires forall k :: k in m || k in r ==> exists i :: 0 <= i < |fields| && fields[i].key == k
    requires forall i :: 0 <= i < |fields| ==> AgreeAt(m, r, fields[i].key)
    ensures m == r
  {
    assert forall k :: k in m || k in r ==> AgreeAt(m, r, k);
    assert m.Keys == r.Keys;
  }

  /** Every nested type a field mentions is defined. */
  ghost predicate AllTypesDefined(s: Schema) {
    forall t, i :: t in s.types && 0 <= i < |s.types[t]| && s.types[t][i].ty.TMessage? ==>
      s.types[t][i].ty.name in s.types
  }

  predicate SameAt(key: string, m: Message, v: Option<Value>) {
    if key in m then v == Some(m[key]) else v == None
  }

  lemma {:induction false} FieldFixpoint(s: Schema, t: string, m: Message, i: nat)
    requires WellFormed(s) && AllDistinctKeys(s) && Kinded(s, t, m) && t in s.types && i < |s.types[t]|
    requires AllTypesDefined(s)
    ensures ExactField(s, s.types[t][i], m) <==> SameAt(s.types[t][i].key, m, NormalField(s, t, m, i))
    decreases Msg(m), 0, 0
  {
    var f := s.types[t][i];
    if Present(m, f.key) {
      var v := m[f.key];
      assert FieldKinded(s, f, v);
      if f.rule != Repeated {
        ValueFixpoint(s, f.ty, v);
      } else if v.List? && v.items != [] {
        NormalItemsAt(s, f.ty, v.items, |v.items|);
        forall k | 0 <= k < |v.items|
          ensures ExactValue(s, f.ty, v.items[k]) <==> NormalValue(s, f.ty, v.items[k]) == v.items[k]
        {
          ValueFixpoint(s, f.ty, v.items[k]);
        }
        assert NormalItems(s, f.ty, v.items, |v.items|) == v.items <==>
          forall k :: 0 <= k < |v.items| ==> NormalValue(s, f.ty, v.items[k]) == v.items[k];
      }
    }
  }

  lemma {:induction false} ValueFixpoint(s: Schema, ty: FieldType, v: Value)
    requires WellFormed(s) && AllDistinctKeys(s) && HasKind(s, ty, v) && AllTypesDefined(s)
    requires ty.TMessage? ==> ty.name in s.types
    ensures ExactValue(s, ty, v) <==> NormalValue(s, ty, v) == v
    decreases v, 1
  {
    if ty.TMessage? && v.Msg? {
      NormalFixpoint(s, ty.name, v.fields);
    }
  }

  /** Encoding then decoding is the identity on exactly the `Exact` messages. */
  lemma IdentityOnExact(s: Schema, t: string, m: Message)
    requires WellFormed(s) && AllDistinctKeys(s) && AllTypesDefined(s) && Kinded(s, t, m) && t in s.types
    requires WriteMessage(s, t, m).Ok?
    ensures ReadMessage(s, t, WriteMessage(s, t, m).value) == Ok(m) <==> Exact(s, t, m)
  {
    RoundTrip(s, s, t, m);
    NormalFixpoint(s, t, m);
  }
}
