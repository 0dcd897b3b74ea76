/** Which messages encode at all, and to how many bytes. */
module WireSize {
  import opened Prelude
  import opened Utf8
  import opened Varint
  import opened Wire

  // ----- how long an encoding is -----

  function VarintSize(n: nat): nat {
    |VarintBytes(n)|
  }

  function NumberSize(tag: nat, n: nat): nat {
    VarintSize(8 * tag) + VarintSize(n)
  }

  /** A key, a length and so many bytes. */
  function ChunkSize(tag: nat, length: nat): nat {
    VarintSize(8 * tag + 2) + VarintSize(length) + length
  }

  /** The bytes of a scalar that come with their length. */
  function TextLength(ty: FieldType, v: Value): nat {
    if ty.TString? && v.Str? then |Encode(v.text)| else if ty.TBytes? && v.Blob? then |v.bytes| else 0
  }

  function ScalarSize(tag: nat, ty: FieldType, v: Value): nat {
    match ty
    case TString => ChunkSize(tag, TextLength(ty, v))
    case TBytes => ChunkSize(tag, TextLength(ty, v))
    case TUint32 => NumberSize(tag, if v.Num? then ToUint32(v.n) else 0)
    case TInt32 => NumberSize(tag, if v.Num? then ZigZag(ToInt32(v.n)) else 0)
    case TBool => NumberSize(tag, 1)
    case TMessage(_) => 0
  }

  ghost function Size(s: Schema, t: string, m: Message): nat
    requires WellFormed(s) && Kinded(s, t, m)
    decreases Nonempty(Msg(m)), Msg(m), Rank(s, t), 3, 0
  {
    if t !in s.types then 0 else FieldsSize(s, t, m, 0)
  }

  ghost function FieldsSize(s: Schema, t: string, m: Message, i: nat): nat
    requires WellFormed(s) && Kinded(s, t, m) && t in s.types && i <= |s.types[t]|
    decreases Nonempty(Msg(m)), Msg(m), Rank(s, t), 2, |s.types[t]| - i
  {
    if i == |s.types[t]| then 0 else FieldSize(s, t, m, i) + FieldsSize(s, t, m, i + 1)
  }

  /** Absent fields cost nothing, unless they are required. */
  ghost function FieldSize(s: Schema, t: string, m: Message, i: nat): nat
    requires WellFormed(s) && Kinded(s, t, m) && t in s.types && i < |s.types[t]|
    decreases Nonempty(Msg(m)), Msg(m), Rank(s, t), 1, 0
  {
    var f, tag := s.types[t][i], i + 1;
    assert WellFormedType(s, t);
    if Present(m, f.key) then
      assert m != map[] && FieldKinded(s, f, m[f.key]);
      if f.rule != Repeated then ValueSize(s, tag, f.ty, m[f.key])
      else if m[f.key].List? then ItemsSize(s, tag, f.ty, m[f.key].items, 0)
      else 0
    else if f.rule != Required then 0
    else if f.ty.TMessage? then ChunkSize(tag, Size(s, f.ty.name, map[]))
    else ScalarSize(tag, f.ty, ScalarDefault(f.ty))
  }

  ghost function ItemsSize(s: Schema, tag: nat, ty: FieldType, items: seq<Value>, k: nat): nat
    requires WellFormed(s) && k <= |items| && AllKind(s, ty, items)
    decreases true, List(items), 0, 5, |items| - k
  {
    if k == |items| then 0 else ValueSize(s, tag, ty, items[k]) + ItemsSize(s, tag, ty, items, k + 1)
  }

  ghost function ValueSize(s: Schema, tag: nat, ty: FieldType, v: Value): nat
    requires WellFormed(s) && HasKind(s, ty, v)
    decreases Nonempty(v), v, TypeRank(s, ty), 4, 0
  {
    if ty.TMessage? then ChunkSize(tag, Size(s, ty.name, NestedFields(v))) else ScalarSize(tag, ty, v)
  }

  // ----- what encodes -----

  /** Every type met is defined, every repeated value is a list, and nothing is longer than an array can be. */
  ghost predicate Encodable(s: Schema, t: string, m: Message)
    requires WellFormed(s) && Kinded(s, t, m)
    decreases Nonempty(Msg(m)), Msg(m), Rank(s, t), 3, 0
  {
    t in s.types && FieldsEncodable(s, t, m, 0)
  }

  ghost predicate FieldsEncodable(s: Schema, t: string, m: Message, i: nat)
    requires WellFormed(s) && Kinded(s, t, m) && t in s.types && i <= |s.types[t]|
    decreases Nonempty(Msg(m)), Msg(m), Rank(s, t), 2, |s.types[t]| - i
  {
    i == |s.types[t]| || (FieldEncodable(s, t, m, i) && FieldsEncodable(s, t, m, i + 1))
  }

  ghost predicate FieldEncodable(s: Schema, t: string, m: Message, i: nat)
    requires WellFormed(s) && Kinded(s, t, m) && t in s.types && i < |s.types[t]|
    decreases Nonempty(Msg(m)), Msg(m), Rank(s, t), 1, 0
  {
    var f := s.types[t][i];
    assert WellFormedType(s, t);
    if Present(m, f.key) then
      assert m != map[] && FieldKinded(s, f, m[f.key]);
      if f.rule != Repeated then ValueEncodable(s, f.ty, m[f.key])
      else m[f.key].List? && ItemsEncodable(s, f.ty, m[f.key].items, 0)
    else if f.rule != Required || !f.ty.TMessage? then true
    else Encodable(s, f.ty.name, map[]) && Size(s, f.ty.name, map[]) <= MAX_SAFE
  }

  ghost predicate ItemsEncodable(s: Schema, ty: FieldType, items: seq<Value>, k: nat)
    requires WellFormed(s) && k <= |items| && AllKind(s, ty, items)
    decreases true, List(items), 0, 5, |items| - k
  {
    k == |items| || (ValueEncodable(s, ty, items[k]) && ItemsEncodable(s, ty, items, k + 1))
  }

  ghost predicate ValueEncodable(s: Schema, ty: FieldType, v: Value)
    requires WellFormed(s) && HasKind(s, ty, v)
    decreases Nonempty(v), v, TypeRank(s, ty), 4, 0
  {
    if ty.TMessage? then Encodable(s, ty.name, NestedFields(v)) && Size(s, ty.name, NestedFields(v)) <= MAX_SAFE
    else TextLength(ty, v) <= MAX_SAFE
  }

  // ----- exactly those, and so many bytes -----

  ghost predicate Exactly(r: Result<seq<Byte>, WireError>, encodable: bool, size: nat) {
    (r.Ok? <==> encodable) && (r.Ok? ==> |r.value| == size)
  }

  /** A message encodes if and only if it is encodable, and its encoding is as long as its size says. */
  lemma {:induction false} EncodesExactly(s: Schema, t: string, m: Message)
    requires WellFormed(s) && Kinded(s, t, m)
    ensures WriteMessage(s, t, m).Ok? <==> Encodable(s, t, m)
    ensures WriteMessage(s, t, m).Ok? ==> |WriteMessage(s, t, m).value| == Size(s, t, m)
    decreases Nonempty(Msg(m)), Msg(m), Rank(s, t), 3, 0
  {
    if t in s.types {
      FieldsExactly(s, t, m, 0);
    }
  }

  lemma {:induction false} FieldsExactly(s: Schema, t: string, m: Message, i: nat)
    requires WellFormed(s) && Kinded(s, t, m) && t in s.types && i <= |s.types[t]|
    ensures Exactly(WriteFields(s, t, m, i), FieldsEncodable(s, t, m, i), FieldsSize(s, t, m, i))
    decreases Nonempty(Msg(m)), Msg(m), Rank(s, t), 2, |s.types[t]| - i
  {
    if i < |s.types[t]| {
      FieldExactly(s, t, m, i);
      FieldsExactly(s, t, m, i + 1);
    }
  }

  lemma NestExactly(tag: nat, body: Result<seq<Byte>, WireError>, encodable: bool, size: nat)
    requires Exactly(body, encodable, size)
    ensures Exactly(Nest(tag, body), encodable && size <= MAX_SAFE, ChunkSize(tag, size))
  {
  }

  lemma ScalarExactly(tag: nat, ty: FieldType, v: Value)
    requires !ty.TMessage? && (ty.TString? ==> v.Str?) && (ty.TUint32? || ty.TInt32? ==> v.Num?)
    ensures Exactly(WriteScalar(tag, ty, v), TextLength(ty, v) <= MAX_SAFE, ScalarSize(tag, ty, v))
  {
    assert VarintBytes(0) == [0] && VarintBytes(1) == [1];
  }

  lemma {:induction false} FieldExactly(s: Schema, t: string, m: Message, i: nat)
    requires WellFormed(s) && Kinded(s, t, m) && t in s.types && i < |s.types[t]|
    ensures Exactly(WriteField(s, t, m, i), FieldEncodable(s, t, m, i), FieldSize(s, t, m, i))
    decreases Nonempty(Msg(m)), Msg(m), Rank(s, t), 1, 0
  {
    var f, tag := s.types[t][i], i + 1;
    assert WellFormedType(s, t);
    if Present(m, f.key) {
      assert m != map[] && FieldKinded(s, f, m[f.key]);
      if f.rule != Repeated {
        ValueExactly(s, tag, f.ty, m[f.key]);
      } else if m[f.key].List? {
        ItemsExactly(s, tag, f.ty, m[f.key].items, 0);
      }
    } else if f.rule == Required {
      if f.ty.TMessage? {
        EncodesExactly(s, f.ty.name, map[]);
        NestExactly(tag, WriteMessage(s, f.ty.name, map[]), Encodable(s, f.ty.name, map[]), Size(s, f.ty.name, map[]));
      } else {
        ScalarExactly(tag, f.ty, ScalarDefault(f.ty));
      }
    }
  }

  lemma {:induction false} ItemsExactly(s: Schema, tag: nat, ty: FieldType, items: seq<Value>, k: nat)
    requires WellFormed(s) && k <= |items| && AllKind(s, ty, items)
    ensures Exactly(WriteItems(s, tag, ty, items, k), ItemsEncodable(s, ty, items, k), ItemsSize(s, tag, ty, items, k))
    decreases true, List(items), 0, 5, |items| - k
  {
    if k < |items| {
      ValueExactly(s, tag, ty, items[k]);
      ItemsExactly(s, tag, ty, items, k + 1);
    }
  }

  lemma {:induction false} ValueExactly(s: Schema, tag: nat, ty: FieldType, v: Value)
    requires WellFormed(s) && HasKind(s, ty, v)
    ensures Exactly(WriteValue(s, tag, ty, v), ValueEncodable(s, ty, v), ValueSize(s, tag, ty, v))
    decreases Nonempty(v), v, TypeRank(s, ty), 4, 0
  {
    if ty.TMessage? {
      var m := NestedFields(v);
      EncodesExactly(s, ty.name, m);
      NestExactly(tag, WriteMessage(s, ty.name, m), Encodable(s, ty.name, m), Size(s, ty.name, m));
    } else {
      ScalarExactly(tag, ty, v);
    }
  }
}
