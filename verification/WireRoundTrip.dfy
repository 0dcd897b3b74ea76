/**
 * Decoding inverts encoding up to normalisation, even when the decoder's schema has grown since:
 * `D` may extend every type of the writer's schema `s` with further fields.
 */
module WireRoundTrip {
  import opened Prelude
  import opened Utf8
  import opened Varint
  import opened Wire

  // ----- what a decoded message looks like, stated without bytes -----

  /** Appending fields is the only change from `s` to `d`. */
  ghost predicate Extends(s: Schema, d: Schema) {
    forall t :: t in s.types ==> t in d.types && s.types[t] <= d.types[t]
  }

  ghost predicate AllDistinctKeys(d: Schema) {
    forall t :: t in d.types ==> DistinctKeys(d.types[t])
  }

  /** A message with defaults filled in, empty lists dropped, scalars in range and unknown keys gone. */
  ghost function Normal(s: Schema, t: string, m: Message): Message
    requires WellFormed(s) && Kinded(s, t, m)
    decreases Nonempty(Msg(m)), Msg(m), Rank(s, t), 3, 0
  {
    if t in s.types then NormalFields(s, t, m, |s.types[t]|) else map[]
  }

  /** The normal form of fields below `i`. */
  ghost function NormalFields(s: Schema, t: string, m: Message, i: nat): (r: Message)
    requires WellFormed(s) && Kinded(s, t, m) && t in s.types && i <= |s.types[t]|
    ensures forall k :: k in r ==> exists j :: 0 <= j < i && s.types[t][j].key == k
    decreases Nonempty(Msg(m)), Msg(m), Rank(s, t), 2, i
  {
    if i == 0 then map[]
    else PutOption(NormalFields(s, t, m, i - 1), s.types[t][i - 1].key, NormalField(s, t, m, i - 1))
  }

  function PutOption(m: Message, key: string, v: Option<Value>): Message {
    if v.Some? then m[key := v.value] else m
  }

  ghost function NormalField(s: Schema, t: string, m: Message, i: nat): Option<Value>
    requires WellFormed(s) && Kinded(s, t, m) && t in s.types && i < |s.types[t]|
    decreases Nonempty(Msg(m)), Msg(m), Rank(s, t), 1, 0
  {
    var f := s.types[t][i];
    assert WellFormedType(s, t);
    if Present(m, f.key) then
      assert m != map[] && FieldKinded(s, f, m[f.key]);
      if f.rule != Repeated then Some(NormalValue(s, f.ty, m[f.key]))
      else if m[f.key].List? && m[f.key].items != [] then
        Some(List(NormalItems(s, f.ty, m[f.key].items, |m[f.key].items|)))
      else None
    else if f.rule != Required then None
    else if f.ty.TMessage? then Some(Msg(Normal(s, f.ty.name, map[])))
    else Some(ScalarDefault(f.ty))
  }

  ghost function NormalItems(s: Schema, ty: FieldType, items: seq<Value>, k: nat): (r: seq<Value>)
    requires WellFormed(s) && k <= |items|
    requires AllKind(s, ty, items)
    ensures |r| == k
    decreases true, List(items), 0, 5, k
  {
    if k == 0 then [] else NormalItems(s, ty, items, k - 1) + [NormalValue(s, ty, items[k - 1])]
  }

  ghost function NormalValue(s: Schema, ty: FieldType, v: Value): Value
    requires WellFormed(s) && HasKind(s, ty, v)
    decreases Nonempty(v), v, TypeRank(s, ty), 4, 0
  {
    match ty
    case TString => Str(StripBom(v.text))
    case TBytes => if v.Blob? then v else Blob([])
    case TUint32 => Num(ToUint32(v.n))
    case TInt32 => Num(ToInt32(v.n))
    case TBool => Flag(Truthy(v))
    case TMessage(u) => Msg(Normal(s, u, NestedFields(v)))
  }

  // ----- reading one written field -----

  lemma NextVarintField(tag: nat, n: nat, rest: seq<Byte>)
    requires 8 * tag < 0x1_0000_0000 && n <= MAX_SAFE
    ensures VarintField(tag, n) != []
    ensures NextField(VarintField(tag, n) + rest) == Ok((tag, Number(n), rest))
  {
    var b, key := VarintField(tag, n) + rest, 8 * tag;
    assert b == VarintBytes(key) + (VarintBytes(n) + rest);
    ReadVarintInverts(key, VarintBytes(n) + rest);
    ReadVarintInverts(n, rest);
    assert key % 8 == 0 && ToUint32(key) / 8 == tag;
  }

  lemma NextLenField(tag: nat, bytes: seq<Byte>, rest: seq<Byte>)
    requires 8 * tag + 2 < 0x1_0000_0000 && |bytes| <= MAX_SAFE
    ensures LenField(tag, bytes) != []
    ensures NextField(LenField(tag, bytes) + rest) == Ok((tag, Chunk(bytes), rest))
  {
    var key, tail := 8 * tag + 2, bytes + rest;
    var b1 := VarintBytes(|bytes|) + tail;
    assert LenField(tag, bytes) + rest == VarintBytes(key) + b1;
    ReadVarintInverts(key, b1);
    ReadVarintInverts(|bytes|, tail);
    assert Take(tail, |bytes|) == Ok((bytes, rest));
    NextLenFieldFrom(VarintBytes(key) + b1, key, b1, |bytes|, tail, bytes, rest);
  }

  lemma NextLenFieldFrom(b: seq<Byte>, key: nat, b1: seq<Byte>, len: nat, b2: seq<Byte>, bytes: seq<Byte>,
                         b3: seq<Byte>)
    requires b != [] && ReadVarint(b) == Ok((key, b1)) && key < 0x1_0000_0000 && key % 8 == 2
    requires ReadVarint(b1) == Ok((len, b2)) && Take(b2, len) == Ok((bytes, b3))
    ensures NextField(b) == Ok((key / 8, Chunk(bytes), b3))
  {
  }

  /** `chunk` is one field whose payload reads as `v` under `d`. */
  ghost predicate ReadsAs(d: Schema, tag: nat, ty: FieldType, chunk: seq<Byte>, v: Value) {
    chunk != [] &&
    exists p: Payload ::
      && ReadValue(d, ty, p) == Ok(v)
      && forall rest: seq<Byte> :: NextField(chunk + rest) == Ok((tag, p, rest))
  }

  lemma VarintReadsAs(d: Schema, tag: nat, ty: FieldType, n: nat, v: Value)
    requires 8 * tag < 0x1_0000_0000 && n <= MAX_SAFE && ReadValue(d, ty, Number(n)) == Ok(v)
    ensures ReadsAs(d, tag, ty, VarintField(tag, n), v)
  {
    forall rest: seq<Byte>
      ensures NextField(VarintField(tag, n) + rest) == Ok((tag, Number(n), rest))
    {
      NextVarintField(tag, n, rest);
    }
    NextVarintField(tag, n, []);
  }

  lemma LenReadsAs(d: Schema, tag: nat, ty: FieldType, bytes: seq<Byte>, v: Value)
    requires 8 * tag + 2 < 0x1_0000_0000 && |bytes| <= MAX_SAFE && ReadValue(d, ty, Chunk(bytes)) == Ok(v)
    ensures ReadsAs(d, tag, ty, LenField(tag, bytes), v)
  {
    forall rest: seq<Byte>
      ensures NextField(LenField(tag, bytes) + rest) == Ok((tag, Chunk(bytes), rest))
    {
      NextLenField(tag, bytes, rest);
    }
    NextLenField(tag, bytes, []);
  }

  lemma ReadFieldsOne(d: Schema, fields: seq<Field>, b: seq<Byte>, tag: nat, p: Payload, v: Value, rest: seq<Byte>,
                      acc: Message)
    requires b != [] && NextField(b) == Ok((tag, p, rest))
    requires 1 <= tag <= |fields| && ReadValue(d, fields[tag - 1].ty, p) == Ok(v)
    ensures ReadFields(d, fields, b, acc) == ReadFields(d, fields, rest, Put(acc, fields[tag - 1], v))
  {
  }

  lemma ReadFieldsStep(d: Schema, fields: seq<Field>, tag: nat, chunk: seq<Byte>, v: Value, rest: seq<Byte>,
                       acc: Message)
    requires 1 <= tag <= |fields| && ReadsAs(d, tag, fields[tag - 1].ty, chunk, v)
    ensures ReadFields(d, fields, chunk + rest, acc) == ReadFields(d, fields, rest, Put(acc, fields[tag - 1], v))
  {
    var p: Payload :|
      && ReadValue(d, fields[tag - 1].ty, p) == Ok(v)
      && forall rest: seq<Byte> :: NextField(chunk + rest) == Ok((tag, p, rest));
    ReadFieldsOne(d, fields, chunk + rest, tag, p, v, rest, acc);
  }

  lemma ScalarReadsAs(s: Schema, d: Schema, tag: nat, ty: FieldType, v: Value)
    requires WellFormed(s) && HasKind(s, ty, v) && !ty.TMessage? && tag <= 0x1000_0000 - 1
    requires WriteScalar(tag, ty, v).Ok?
    ensures ReadsAs(d, tag, ty, WriteScalar(tag, ty, v).value, NormalValue(s, ty, v))
  {
    match ty
    case TString =>
      DecodeTextInverts(v.text);
      LenReadsAs(d, tag, ty, Encode(v.text), NormalValue(s, ty, v));
    case TBytes =>
      LenReadsAs(d, tag, ty, if v.Blob? then v.bytes else [], NormalValue(s, ty, v));
    case TUint32 =>
      VarintReadsAs(d, tag, ty, ToUint32(v.n), NormalValue(s, ty, v));
    case TInt32 =>
      UnZigZagInverts(ToInt32(v.n));
      VarintReadsAs(d, tag, ty, ZigZag(ToInt32(v.n)), NormalValue(s, ty, v));
    case TBool =>
      VarintReadsAs(d, tag, ty, if Truthy(v) then 1 else 0, NormalValue(s, ty, v));
  }

  // ----- the round trip -----

  lemma KeyNotWrittenYet(s: Schema, d: Schema, t: string, m: Message, i: nat)
    requires WellFormed(s) && Extends(s, d) && AllDistinctKeys(d) && Kinded(s, t, m)
    requires t in s.types && i < |s.types[t]|
    ensures s.types[t][i].key !in NormalFields(s, t, m, i)
  {
    assert DistinctKeys(d.types[t]);
    assert forall j :: 0 <= j < |s.types[t]| ==> d.types[t][j] == s.types[t][j];
  }

  /**
   * Decoding an encoded message gives its normal form, under the writer's own schema (`d == s`)
   * and under every schema that only appends fields to it.
   */
  lemma {:induction false} RoundTrip(s: Schema, d: Schema, t: string, m: Message)
    requires WellFormed(s) && Extends(s, d) && AllDistinctKeys(d) && Kinded(s, t, m)
    requires WriteMessage(s, t, m).Ok?
    ensures ReadMessage(d, t, WriteMessage(s, t, m).value) == Ok(Normal(s, t, m))
    decreases Nonempty(Msg(m)), Msg(m), Rank(s, t), 3, 0
  {
    ReadsWrittenFields(s, d, t, m, 0);
  }

  lemma {:induction false} ReadsWrittenFields(s: Schema, d: Schema, t: string, m: Message, i: nat)
    requires WellFormed(s) && Extends(s, d) && AllDistinctKeys(d) && Kinded(s, t, m)
    requires t in s.types && i <= |s.types[t]| && WriteFields(s, t, m, i).Ok?
    ensures ReadFields(d, d.types[t], WriteFields(s, t, m, i).value, NormalFields(s, t, m, i))
         == Ok(Normal(s, t, m))
    decreases Nonempty(Msg(m)), Msg(m), Rank(s, t), 2, |s.types[t]| - i
  {
    if i < |s.types[t]| {
      var rest := WriteFields(s, t, m, i + 1).value;
      ReadsWrittenField(s, d, t, m, i, rest);
      ReadsWrittenFields(s, d, t, m, i + 1);
    }
  }

  lemma {:induction false} ReadsWrittenField(s: Schema, d: Schema, t: string, m: Message, i: nat, rest: seq<Byte>)
    requires WellFormed(s) && Extends(s, d) && AllDistinctKeys(d) && Kinded(s, t, m)
    requires t in s.types && i < |s.types[t]| && WriteField(s, t, m, i).Ok?
    ensures ReadFields(d, d.types[t], WriteField(s, t, m, i).value + rest, NormalFields(s, t, m, i))
         == ReadFields(d, d.types[t], rest, NormalFields(s, t, m, i + 1))
    decreases Nonempty(Msg(m)), Msg(m), Rank(s, t), 1, 0
  {
    var f, tag, acc := s.types[t][i], i + 1, NormalFields(s, t, m, i);
    var chunk := WriteField(s, t, m, i).value;
    assert WellFormedType(s, t) && DistinctKeys(d.types[t]) && d.types[t][i] == f;
    KeyNotWrittenYet(s, d, t, m, i);
    if Present(m, f.key) {
      assert FieldKinded(s, f, m[f.key]);
      if f.rule != Repeated {
        ValueReadsAs(s, d, tag, f.ty, m[f.key]);
        ReadFieldsStep(d, d.types[t], tag, chunk, NormalValue(s, f.ty, m[f.key]), rest, acc);
      } else {
        var items := m[f.key].items;
        ReadsWrittenItems(s, d, d.types[t], tag, items, 0, rest, acc);
        if items == [] {
          assert chunk + rest == rest;
        }
      }
    } else if f.rule != Required {
      assert chunk + rest == rest;
    } else if f.ty.TMessage? {
      RoundTrip(s, d, f.ty.name, map[]);
      var body := WriteMessage(s, f.ty.name, map[]).value;
      LenReadsAs(d, tag, f.ty, body, Msg(Normal(s, f.ty.name, map[])));
      ReadFieldsStep(d, d.types[t], tag, chunk, Msg(Normal(s, f.ty.name, map[])), rest, acc);
    } else {
      ScalarReadsAs(s, d, tag, f.ty, ScalarDefault(f.ty));
      assert NormalValue(s, f.ty, ScalarDefault(f.ty)) == ScalarDefault(f.ty);
      ReadFieldsStep(d, d.types[t], tag, chunk, ScalarDefault(f.ty), rest, acc);
    }
  }

  /** `acc` with elements of a repeated field collected under its key. */
  function Collected(acc: Message, key: string, items: seq<Value>): Message {
    if items == [] then acc else acc[key := List(items)]
  }

  lemma ReadItemStep(d: Schema, fields: seq<Field>, tag: nat, chunk: seq<Byte>, v: Value, more: seq<Byte>,
                     rest: seq<Byte>,
                     acc: Message, before: seq<Value>)
    requires 1 <= tag <= |fields| && ReadsAs(d, tag, fields[tag - 1].ty, chunk, v)
    requires fields[tag - 1].rule == Repeated && fields[tag - 1].key !in acc
    ensures ReadFields(d, fields, chunk + more + rest, Collected(acc, fields[tag - 1].key, before))
         == ReadFields(d, fields, more + rest, Collected(acc, fields[tag - 1].key, before + [v]))
  {
    var f := fields[tag - 1];
    assert chunk + more + rest == chunk + (more + rest);
    ReadFieldsStep(d, fields, tag, chunk, v, more + rest, Collected(acc, f.key, before));
    assert Put(Collected(acc, f.key, before), f, v) == Collected(acc, f.key, before + [v]);
  }

  lemma {:induction false} ReadsWrittenItems(s: Schema, d: Schema, fields: seq<Field>, tag: nat, items: seq<Value>,
                                             k: nat,
                                             rest: seq<Byte>, acc: Message)
    requires WellFormed(s) && Extends(s, d) && AllDistinctKeys(d)
    requires 1 <= tag <= |fields| && tag < 0x1000_0000 && k <= |items|
    requires fields[tag - 1].rule == Repeated && fields[tag - 1].key !in acc
    requires AllKind(s, fields[tag - 1].ty, items)
    requires WriteItems(s, tag, fields[tag - 1].ty, items, k).Ok?
    ensures ReadFields(d, fields, WriteItems(s, tag, fields[tag - 1].ty, items, k).value + rest,
                       Collected(acc, fields[tag - 1].key, NormalItems(s, fields[tag - 1].ty, items, k)))
         == ReadFields(d, fields, rest,
                       Collected(acc, fields[tag - 1].key, NormalItems(s, fields[tag - 1].ty, items, |items|)))
    decreases true, List(items), 0, 5, |items| - k
  {
    var ty := fields[tag - 1].ty;
    var chunks := WriteItems(s, tag, ty, items, k).value;
    if k == |items| {
      assert chunks + rest == rest;
    } else {
      ValueReadsAs(s, d, tag, ty, items[k]);
      ReadsWrittenItems(s, d, fields, tag, items, k + 1, rest, acc);
      var chunk, more := WriteValue(s, tag, ty, items[k]).value, WriteItems(s, tag, ty, items, k + 1).value;
      assert chunks == chunk + more;
      ReadItemStep(d, fields, tag, chunk, NormalValue(s, ty, items[k]), more, rest, acc, NormalItems(s, ty, items, k));
    }
  }

  lemma {:induction false} ValueReadsAs(s: Schema, d: Schema, tag: nat, ty: FieldType, v: Value)
    requires WellFormed(s) && Extends(s, d) && AllDistinctKeys(d) && HasKind(s, ty, v)
    requires tag <= 0x1000_0000 - 1 && WriteValue(s, tag, ty, v).Ok?
    ensures ReadsAs(d, tag, ty, WriteValue(s, tag, ty, v).value, NormalValue(s, ty, v))
    decreases Nonempty(v), v, TypeRank(s, ty), 4, 0
  {
    if ty.TMessage? {
      RoundTrip(s, d, ty.name, NestedFields(v));
      LenReadsAs(d, tag, ty, WriteMessage(s, ty.name, NestedFields(v)).value, NormalValue(s, ty, v));
    } else {
      ScalarReadsAs(s, d, tag, ty, v);
    }
  }
}
