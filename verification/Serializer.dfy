/** The serializer itself: loops over a Writer and a Reader, proved against the byte-level functions. */
module WireSerializer {
  import opened Prelude
  import opened Utf8
  import opened Varint
  import opened Wire

  class Serializer {
    var types: map<string, seq<Field>>
    ghost var rank: map<string, nat>

    ghost function Schema(): Schema
      reads this
    {
      Wire.Schema(types, rank)
    }

    constructor ()
      ensures types == map[] && rank == map[]
    {
      types := map[];
      rank := map[];
    }

    method Define(typeName: string, fields: seq<Field>)
      modifies this`types
      ensures types == old(types)[typeName := fields]
    {
      types := types[typeName := fields];
    }

    method Encode(typeName: string, message: Message) returns (r: Result<seq<Byte>, WireError>)
      requires WellFormed(Schema()) && Kinded(Schema(), typeName, message)
      ensures r == WriteMessage(Schema(), typeName, message)
    {
      ghost var spec := WriteMessage(Schema(), typeName, message);
      var w := new Writer();
      var failed := Write(w, typeName, message);
      assert Wrote(spec, failed, [], w);
      if failed.Some? {
        return Err(failed.value);
      }
      var bytes := w.Done();
      assert [] + spec.value == spec.value;
      r := Ok(bytes);
    }

    method Decode(typeName: string, buffer: seq<Byte>) returns (r: Result<Message, WireError>)
      ensures r == ReadMessage(Schema(), typeName, buffer)
    {
      r := ReadType(typeName, buffer);
    }

    // ----- writing -----

    /** The writer after a call: `spec` appended, or the error `spec` reports. */
    ghost predicate Wrote(spec: Result<seq<Byte>, WireError>, failed: Option<WireError>, before: seq<Byte>, w: Writer)
      requires w.Valid()
      reads w, w.buf
    {
      match spec
      case Ok(bytes) => failed == None && w.Contents() == before + bytes
      case Err(e) => failed == Some(e)
    }

    method Write(w: Writer, typeName: string, message: Message) returns (failed: Option<WireError>)
      requires w.Valid() && WellFormed(Schema()) && Kinded(Schema(), typeName, message)
      modifies w, w.buf
      ensures w.Valid() && (w.buf == old(w.buf) || fresh(w.buf))
      ensures Wrote(WriteMessage(Schema(), typeName, message), failed, old(w.Contents()), w)
      decreases Nonempty(Msg(message)), Msg(message), Rank(Schema(), typeName), 3, 0
    {
      if typeName !in types {
        return Some(UnknownType(typeName));
      }
      hide Prefixed, Underway, Kinded, Wire.WriteField;
      var fields := types[typeName];
      var i := 0;
      ghost var s, before := Schema(), w.Contents();
      ghost var whole := WriteFields(s, typeName, message, 0);
      UnderwayAtFirst(whole, before);
      while i < |fields|
        invariant 0 <= i <= |fields| && Schema() == s
        invariant w.Valid() && (w.buf == old(w.buf) || fresh(w.buf))
        invariant Underway(whole, WriteFields(s, typeName, message, i), before, w.Contents())
      {
        failed := WriteNextField(w, typeName, message, i, whole, before);
        if failed.Some? {
          return;
        }
        i := i + 1;
      }
      failed := None;
      UnderwayAtLast(whole, before, w.Contents());
    }

    method WriteNextField(w: Writer, typeName: string, message: Message, i: nat,
                          ghost whole: Result<seq<Byte>, WireError>, ghost before: seq<Byte>)
      returns (failed: Option<WireError>)
      requires w.Valid() && WellFormed(Schema()) && Kinded(Schema(), typeName, message)
      requires typeName in types && i < |types[typeName]|
      requires Underway(whole, WriteFields(Schema(), typeName, message, i), before, w.Contents())
      modifies w, w.buf
      ensures w.Valid() && (w.buf == old(w.buf) || fresh(w.buf))
      ensures failed == None ==>
        Underway(whole, WriteFields(Schema(), typeName, message, i + 1), before, w.Contents())
      ensures failed.Some? ==> whole == Err(failed.value)
      decreases Nonempty(Msg(message)), Msg(message), Rank(Schema(), typeName), 2, 0
    {
      ghost var s, now := Schema(), w.Contents();
      failed := WriteField(w, typeName, message, i);
      if failed == None {
        UnderwayStep(whole, Wire.WriteField(s, typeName, message, i).value, WriteFields(s, typeName, message, i + 1),
                     before, now);
      }
    }

    /** Bytes already written, put in front of what remains. */
    static function Prefixed(done: seq<Byte>, rest: Result<seq<Byte>, WireError>): Result<seq<Byte>, WireError> {
      match rest
      case Ok(bytes) => Ok(done + bytes)
      case Err(e) => Err(e)
    }

    static lemma PrefixedNothing(rest: Result<seq<Byte>, WireError>)
      ensures Prefixed([], rest) == rest
    {
      if rest.Ok? {
        assert [] + rest.value == rest.value;
      }
    }

    static lemma PrefixedStep(done: seq<Byte>, chunk: seq<Byte>, rest: Result<seq<Byte>, WireError>)
      ensures Prefixed(done, Prefixed(chunk, rest)) == Prefixed(done + chunk, rest)
    {
      if rest.Ok? {
        assert done + (chunk + rest.value) == (done + chunk) + rest.value;
      }
    }

    method WriteField(w: Writer, typeName: string, message: Message, i: nat) returns (failed: Option<WireError>)
      requires w.Valid() && WellFormed(Schema()) && Kinded(Schema(), typeName, message)
      requires typeName in types && i < |types[typeName]|
      modifies w, w.buf
      ensures w.Valid() && (w.buf == old(w.buf) || fresh(w.buf))
      ensures Wrote(Wire.WriteField(Schema(), typeName, message, i), failed, old(w.Contents()), w)
      decreases Nonempty(Msg(message)), Msg(message), Rank(Schema(), typeName), 1, 0
    {
      var field, tag := types[typeName][i], i + 1;
      assert WellFormedType(Schema(), typeName);
      if Present(message, field.key) {
        var value := message[field.key];
        assert message != map[] && FieldKinded(Schema(), field, value);
        if field.rule == Repeated {
          if !value.List? {
            return Some(NotAnArray(field.key));
          }
          failed := WriteItems(w, tag, field.ty, value.items);
        } else {
          failed := WriteValue(w, tag, field.ty, value);
        }
      } else if field.rule == Required {
        if field.ty.TMessage? {
          failed := WriteNested(w, tag, field.ty.name, map[]);
        } else {
          failed := WriteScalarValue(w, tag, field.ty, ScalarDefault(field.ty));
        }
      } else {
        failed := None;
        assert w.Contents() + [] == w.Contents();
      }
    }

    method WriteItems(w: Writer, tag: nat, ty: FieldType, items: seq<Value>) returns (failed: Option<WireError>)
      requires w.Valid() && WellFormed(Schema()) && tag < 0x1000_0000
      requires AllKind(Schema(), ty, items)
      modifies w, w.buf
      ensures w.Valid() && (w.buf == old(w.buf) || fresh(w.buf))
      ensures Wrote(Wire.WriteItems(Schema(), tag, ty, items, 0), failed, old(w.Contents()), w)
      decreases true, List(items), 0, 6
    {
      var k := 0;
      hide Prefixed, Underway, Wire.WriteValue;
      ghost var s, before := Schema(), w.Contents();
      ghost var whole := Wire.WriteItems(s, tag, ty, items, 0);
      UnderwayAtFirst(whole, before);
      while k < |items|
        invariant 0 <= k <= |items| && Schema() == s
        invariant w.Valid() && (w.buf == old(w.buf) || fresh(w.buf))
        invariant Underway(whole, Wire.WriteItems(s, tag, ty, items, k), before, w.Contents())
      {
        failed := WriteItem(w, tag, ty, items, k, whole, before);
        if failed.Some? {
          return;
        }
        k := k + 1;
      }
      failed := None;
      UnderwayAtLast(whole, before, w.Contents());
    }

    /** `whole` is what has been written since `before` and then `rest`. */
    static ghost predicate Underway(whole: Result<seq<Byte>, WireError>, rest: Result<seq<Byte>, WireError>,
                                    before: seq<Byte>, now: seq<Byte>) {
      before <= now && whole == Prefixed(now[|before|..], rest)
    }

    static lemma UnderwayAtFirst(whole: Result<seq<Byte>, WireError>, before: seq<Byte>)
      ensures Underway(whole, whole, before, before)
    {
      PrefixedNothing(whole);
      assert before[|before|..] == [];
    }

    static lemma UnderwayAtLast(whole: Result<seq<Byte>, WireError>, before: seq<Byte>, now: seq<Byte>)
      requires Underway(whole, Ok([]), before, now)
      ensures whole.Ok? && now == before + whole.value
    {
      assert now[|before|..] + [] == now[|before|..];
    }

    static lemma UnderwayStep(whole: Result<seq<Byte>, WireError>, chunk: seq<Byte>, rest: Result<seq<Byte>, WireError>,
                              before: seq<Byte>, now: seq<Byte>)
      requires Underway(whole, Prefixed(chunk, rest), before, now)
      ensures Underway(whole, rest, before, now + chunk)
    {
      PrefixedStep(now[|before|..], chunk, rest);
      assert (now + chunk)[|before|..] == now[|before|..] + chunk;
    }

    method WriteItem(w: Writer, tag: nat, ty: FieldType, items: seq<Value>, k: nat,
                     ghost whole: Result<seq<Byte>, WireError>, ghost before: seq<Byte>)
      returns (failed: Option<WireError>)
      requires w.Valid() && WellFormed(Schema()) && tag < 0x1000_0000
      requires k < |items| && AllKind(Schema(), ty, items)
      requires Underway(whole, Wire.WriteItems(Schema(), tag, ty, items, k), before, w.Contents())
      modifies w, w.buf
      ensures w.Valid() && (w.buf == old(w.buf) || fresh(w.buf))
      ensures failed == None ==> Underway(whole, Wire.WriteItems(Schema(), tag, ty, items, k + 1), before, w.Contents())
      ensures failed.Some? ==> whole == Err(failed.value)
      decreases true, List(items), 0, 5
    {
      ghost var s, now := Schema(), w.Contents();
      failed := WriteValue(w, tag, ty, items[k]);
      if failed == None {
        UnderwayStep(whole, Wire.WriteValue(s, tag, ty, items[k]).value, Wire.WriteItems(s, tag, ty, items, k + 1),
          before, now);
      }
    }

    method WriteValue(w: Writer, tag: nat, ty: FieldType, v: Value) returns (failed: Option<WireError>)
      requires w.Valid() && WellFormed(Schema()) && HasKind(Schema(), ty, v) && tag < 0x1000_0000
      modifies w, w.buf
      ensures w.Valid() && (w.buf == old(w.buf) || fresh(w.buf))
      ensures Wrote(Wire.WriteValue(Schema(), tag, ty, v), failed, old(w.Contents()), w)
      decreases Nonempty(v), v, TypeRank(Schema(), ty), 4, 0
    {
      if ty.TMessage? {
        failed := WriteNested(w, tag, ty.name, NestedFields(v));
      } else {
        failed := WriteScalarValue(w, tag, ty, v);
      }
    }

    method WriteNested(w: Writer, tag: nat, typeName: string, message: Message) returns (failed: Option<WireError>)
      requires w.Valid() && WellFormed(Schema()) && Kinded(Schema(), typeName, message) && tag < 0x1000_0000
      modifies w, w.buf
      ensures w.Valid() && (w.buf == old(w.buf) || fresh(w.buf))
      ensures Wrote(Nest(tag, WriteMessage(Schema(), typeName, message)), failed, old(w.Contents()), w)
      decreases Nonempty(Msg(message)), Msg(message), Rank(Schema(), typeName), 3, 1
    {
      var child := new Writer();
      failed := Write(child, typeName, message);
      if failed.Some? {
        return;
      }
      var body := child.Done();
      assert body == WriteMessage(Schema(), typeName, message).value;
      failed := WriteLen(w, tag, body);
    }

    method WriteScalarValue(w: Writer, tag: nat, ty: FieldType, v: Value) returns (failed: Option<WireError>)
      requires w.Valid() && !ty.TMessage? && tag < 0x1000_0000
      requires (ty.TString? ==> v.Str?) && (ty.TUint32? || ty.TInt32? ==> v.Num?)
      modifies w, w.buf
      ensures w.Valid() && (w.buf == old(w.buf) || fresh(w.buf))
      ensures Wrote(WriteScalar(tag, ty, v), failed, old(w.Contents()), w)
    {
      match ty
      case TString =>
        failed := WriteLen(w, tag, Utf8.Encode(v.text));
      case TBytes =>
        failed := WriteLen(w, tag, if v.Blob? then v.bytes else []);
      case TUint32 =>
        WriteNumber(w, tag, ToUint32(v.n));
        failed := None;
      case TInt32 =>
        WriteNumber(w, tag, ZigZag(ToInt32(v.n)));
        failed := None;
      case TBool =>
        WriteNumber(w, tag, if Truthy(v) then 1 else 0);
        failed := None;
    }

    method WriteNumber(w: Writer, tag: nat, n: nat)
      requires w.Valid() && tag < 0x1000_0000 && n < 0x1_0000_0000
      modifies w, w.buf
      ensures w.Valid() && (w.buf == old(w.buf) || fresh(w.buf))
      ensures w.Contents() == old(w.Contents()) + VarintField(tag, n)
    {
      w.Varint(8 * tag);
      w.Varint(n);
    }

    method WriteLen(w: Writer, tag: nat, bytes: seq<Byte>) returns (failed: Option<WireError>)
      requires w.Valid() && tag < 0x1000_0000
      modifies w, w.buf
      ensures w.Valid() && (w.buf == old(w.buf) || fresh(w.buf))
      ensures Wrote(BoundedLenField(tag, bytes), failed, old(w.Contents()), w)
    {
      if |bytes| > MAX_SAFE {
        return Some(TooLarge);
      }
      ghost var before := w.Contents();
      w.Varint(8 * tag + 2);
      w.LenBytes(bytes);
      failed := None;
      assert w.Contents() == before + LenField(tag, bytes);
    }

    // ----- reading -----

    method ReadType(typeName: string, bytes: seq<Byte>) returns (r: Result<Message, WireError>)
      ensures r == ReadMessage(Schema(), typeName, bytes)
      decreases |bytes|, 2
    {
      if typeName !in types {
        return Err(UnknownType(typeName));
      }
      var reader := new Reader(bytes);
      r := Read(types[typeName], reader);
    }

    method Read(fields: seq<Field>, r: Reader) returns (result: Result<Message, WireError>)
      requires r.Valid() && r.off == 0
      modifies r
      ensures result == ReadFields(Schema(), fields, r.buf, map[])
      decreases |r.buf|, 1
    {
      hide ReadFields, NextField, ReadValue, Put;
      var message: Message := map[];
      assert r.Rest() == r.buf;
      var more := r.More();
      while more
        invariant r.Valid() && |r.Rest()| <= |r.buf| && (more <==> r.Rest() != [])
        invariant ReadFields(Schema(), fields, r.buf, map[]) == ReadFields(Schema(), fields, r.Rest(), message)
        decreases |r.Rest()|
      {
        ghost var here := r.Rest();
        var next := ReadPayload(r);
        if next.Err? {
          ReadStops(Schema(), fields, here, message);
          return Err(next.error);
        }
        var (tag, payload) := next.value;
        ReadStep(Schema(), fields, here, message, tag, payload, r.Rest());
        if 1 <= tag <= |fields| {
          var field := fields[tag - 1];
          var value := ReadFieldValue(field.ty, payload);
          if value.Err? {
            return Err(value.error);
          }
          message := Put(message, field, value.value);
        }
        more := r.More();
      }
      ReadNothing(Schema(), fields, message);
      result := Ok(message);
    }

    /** A field's key and payload, leaving the reader after them. */
    method ReadPayload(r: Reader) returns (result: Result<(nat, Payload), WireError>)
      requires r.Valid() && r.Rest() != []
      modifies r
      ensures r.Valid()
      ensures match NextField(old(r.Rest()))
              case Ok((tag, p, rest)) => result == Ok((tag, p)) && r.Rest() == rest
              case Err(e) => result == Err(e)
    {
      var key := r.Varint();
      if key.Err? {
        return Err(key.error);
      }
      var tag, wire := ToUint32(key.value) / 8, key.value % 8;
      if wire == 0 {
        var n := r.Varint();
        if n.Err? {
          return Err(n.error);
        }
        result := Ok((tag, Number(n.value)));
      } else if wire == 2 {
        var len := r.Varint();
        if len.Err? {
          return Err(len.error);
        }
        var bytes := r.Take(len.value);
        if bytes.Err? {
          return Err(bytes.error);
        }
        result := Ok((tag, Chunk(bytes.value)));
      } else {
        result := Err(UnsupportedWireType(wire));
      }
    }

    method ReadFieldValue(ty: FieldType, p: Payload) returns (r: Result<Value, WireError>)
      ensures r == ReadValue(Schema(), ty, p)
      decreases if p.Chunk? then |p.bytes| else 0, 3
    {
      match ty
      case TString => r := Ok(Str(if p.Chunk? then DecodeText(p.bytes) else []));
      case TBytes => r := Ok(Blob(if p.Chunk? then p.bytes else []));
      case TUint32 => r := Ok(Num(if p.Number? then ToUint32(p.n) else 0));
      case TInt32 => r := Ok(Num(if p.Number? then UnZigZag(p.n) else 0));
      case TBool => r := Ok(Flag(p.Number? && p.n != 0));
      case TMessage(u) =>
        if p.Number? {
          return Ok(Undefined);
        }
        var m := ReadType(u, p.bytes);
        r := match m case Ok(fields) => Ok(Msg(fields)) case Err(e) => Err(e);
    }
  }
}
