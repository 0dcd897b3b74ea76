/** The bytes on the wire, field by field, as the format is documented: a key, then a number or a length and bytes. */
module WireLayout {
  import opened Prelude
  import opened Utf8
  import opened Varint
  import opened Wire

  // ----- LEB128 -----

  /** Seven bits of every byte, least significant first. */
  function GroupsValue(b: seq<Byte>): nat {
    if b == [] then 0 else b[0] % 0x80 + 0x80 * GroupsValue(b[1..])
  }

  /** The shortest LEB128 form of a number: the top bit says that more follows. */
  ghost predicate IsLeb128(b: seq<Byte>, n: nat) {
    && b != [] && GroupsValue(b) == n
    && b[|b| - 1] < 0x80 && (|b| > 1 ==> b[|b| - 1] != 0)
    && forall i :: 0 <= i < |b| - 1 ==> b[i] >= 0x80
  }

  lemma {:induction false} VarintIsLeb128(n: nat)
    ensures IsLeb128(VarintBytes(n), n)
  {
    var b := VarintBytes(n);
    if n < 0x80 {
      assert b[1..] == [];
    } else {
      VarintIsLeb128(n / 0x80);
      assert b[1..] == VarintBytes(n / 0x80);
      assert b[|b| - 1] == b[1..][|b| - 2];
      forall i | 0 <= i < |b| - 1
        ensures b[i] >= 0x80
      {
        assert i > 0 ==> b[i] == b[1..][i - 1];
      }
    }
  }

  // ----- fields -----

  /** A field that carries a number. */
  ghost predicate NumberField(b: seq<Byte>, tag: nat, n: nat) {
    exists cut :: 0 <= cut <= |b| && IsLeb128(b[..cut], 8 * tag) && IsLeb128(b[cut..], n)
  }

  /** A field that carries bytes. */
  ghost predicate BytesField(b: seq<Byte>, tag: nat, bytes: seq<Byte>) {
    exists cut, end :: 0 <= cut <= end <= |b|
      && IsLeb128(b[..cut], 8 * tag + 2) && IsLeb128(b[cut..end], |bytes|) && b[end..] == bytes
  }

  lemma NumberFieldIs(tag: nat, n: nat)
    ensures NumberField(VarintField(tag, n), tag, n)
  {
    var key, b := VarintBytes(8 * tag), VarintField(tag, n);
    VarintIsLeb128(8 * tag);
    VarintIsLeb128(n);
    assert b[..|key|] == key && b[|key|..] == VarintBytes(n);
  }

  lemma BytesFieldIs(tag: nat, bytes: seq<Byte>)
    ensures BytesField(LenField(tag, bytes), tag, bytes)
  {
    var key, len, b := VarintBytes(8 * tag + 2), VarintBytes(|bytes|), LenField(tag, bytes);
    VarintIsLeb128(8 * tag + 2);
    VarintIsLeb128(|bytes|);
    assert b == key + len + bytes;
    assert b[..|key|] == key && b[|key|..|key + len|] == len && b[|key + len|..] == bytes;
  }

  lemma ZigZagIs(n: int)
    requires -0x8000_0000 <= n < 0x8000_0000
    ensures ZigZag(n) == if n >= 0 then 2 * n else -2 * n - 1
  {
    if n >= 0 {
      assert ToUint32(ToInt32(2 * n)) == 2 * n;
    } else {
      assert ToInt32(2 * n) == 2 * n || ToInt32(2 * n) == 2 * n + 0x1_0000_0000;
    }
  }

  /** What counts as false. */
  predicate Falsy(v: Value) {
    v == Str([]) || v == Num(0) || v == Flag(false) || v == Undefined
  }

  /**
   * Text goes out as UTF-8, integers as they are or with the sign in the lowest bit, truth as 0 or 1; what is not bytes
   * goes out as no bytes.
   */
  ghost predicate Laid(b: seq<Byte>, tag: nat, ty: FieldType, v: Value) {
    match ty
    case TString => v.Str? ==> BytesField(b, tag, Encode(v.text))
    case TBytes => BytesField(b, tag, if v.Blob? then v.bytes else [])
    case TUint32 => v.Num? && 0 <= v.n < 0x1_0000_0000 ==> NumberField(b, tag, v.n)
    case TInt32 => v.Num? && -0x8000_0000 <= v.n < 0x8000_0000 ==>
      NumberField(b, tag, if v.n >= 0 then 2 * v.n else -2 * v.n - 1)
    case TBool => NumberField(b, tag, if Falsy(v) then 0 else 1)
    case TMessage(_) => true
  }

  /** The layout of every scalar that is written, as a field of its own or as an element of a repeated one. */
  lemma ScalarLayout(s: Schema, tag: nat, ty: FieldType, v: Value)
    requires WellFormed(s) && HasKind(s, ty, v) && !ty.TMessage? && WriteValue(s, tag, ty, v).Ok?
    ensures Laid(WriteValue(s, tag, ty, v).value, tag, ty, v)
  {
    hide VarintField, LenField, NumberField, BytesField, WellFormed, ZigZag, ToInt32;
    match ty
    case TString => BytesFieldIs(tag, Encode(v.text));
    case TBytes => BytesFieldIs(tag, if v.Blob? then v.bytes else []);
    case TUint32 => NumberFieldIs(tag, ToUint32(v.n));
    case TInt32 =>
      NumberFieldIs(tag, ZigZag(ToInt32(v.n)));
      if -0x8000_0000 <= v.n < 0x8000_0000 {
        ZigZagIs(v.n);
      }
    case TBool => NumberFieldIs(tag, if Falsy(v) then 0 else 1);
    case TMessage(_) =>
  }

  /** A nested message is written as the bytes of its own body. */
  lemma MessageLayout(s: Schema, tag: nat, u: string, v: Value)
    requires WellFormed(s) && v.Msg? && HasKind(s, TMessage(u), v) && WriteValue(s, tag, TMessage(u), v).Ok?
    ensures WriteMessage(s, u, v.fields).Ok?
    ensures BytesField(WriteValue(s, tag, TMessage(u), v).value, tag, WriteMessage(s, u, v.fields).value)
  {
    hide LenField, BytesField, WriteMessage;
    BytesFieldIs(tag, WriteMessage(s, u, v.fields).value);
  }

  // ----- messages -----

  function Joined(parts: seq<seq<Byte>>): seq<Byte> {
    if parts == [] then [] else parts[0] + Joined(parts[1..])
  }

  /** The body is what the fields are written as, in the order of the list. */
  lemma {:induction false} FieldsLayout(s: Schema, t: string, m: Message, i: nat) returns (parts: seq<seq<Byte>>)
    requires WellFormed(s) && Kinded(s, t, m) && t in s.types && i <= |s.types[t]| && WriteFields(s, t, m, i).Ok?
    ensures |parts| == |s.types[t]| - i && WriteFields(s, t, m, i).value == Joined(parts)
    ensures forall k :: i <= k < |s.types[t]| ==> WriteField(s, t, m, k) == Ok(parts[k - i])
    decreases |s.types[t]| - i
  {
    hide WriteField, Kinded, WellFormed;
    if i == |s.types[t]| {
      parts := [];
    } else {
      var rest := FieldsLayout(s, t, m, i + 1);
      parts := [WriteField(s, t, m, i).value] + rest;
      assert parts[1..] == rest;
    }
  }

  /** An absent field leaves nothing, unless it is required: then an empty or zero value stands in. */
  lemma AbsentLayout(s: Schema, t: string, m: Message, i: nat)
    requires WellFormed(s) && Kinded(s, t, m) && t in s.types && i < |s.types[t]| && !Present(m, s.types[t][i].key)
    ensures s.types[t][i].rule != Required ==> WriteField(s, t, m, i) == Ok([])
    ensures s.types[t][i].rule == Required && !s.types[t][i].ty.TMessage? ==>
      var r := WriteField(s, t, m, i);
      r.Ok? && match s.types[t][i].ty
        case TString => BytesField(r.value, i + 1, [])
        case TBytes => BytesField(r.value, i + 1, [])
        case _ => NumberField(r.value, i + 1, 0)
  {
    hide VarintField, LenField, NumberField, BytesField, Kinded;
    BytesFieldIs(i + 1, []);
    NumberFieldIs(i + 1, 0);
  }
}
