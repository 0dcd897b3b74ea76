/**
 * The schema-driven binary format: which bytes a message is written as, and which message any
 * byte string is read as.  A message is a sequence of fields, each a key varint
 * (8 * tag + wire type) followed by a varint or by length-prefixed bytes.
 */
module Wire {
  import opened Prelude
  import opened Utf8
  import opened Varint

  datatype Rule = Optional | Required | Repeated

  datatype FieldType = TString | TBytes | TUint32 | TInt32 | TBool | TMessage(name: string)

  datatype Field = Field(key: string, ty: FieldType, rule: Rule)

  /** `types` are the defined field lists; `rank` numbers the types so that required nesting descends. */
  datatype Schema = Schema(types: map<string, seq<Field>>, rank: map<string, nat>)

  /** What a message property holds; an own property set to `undefined` is `Undefined`. */
  datatype Value =
    | Str(text: Text)
    | Blob(bytes: seq<Byte>)
    | Num(n: int)
    | Flag(b: bool)
    | Msg(fields: map<string, Value>)
    | List(items: seq<Value>)
    | Undefined

  type Message = map<string, Value>

  function Rank(s: Schema, t: string): nat {
    if t !in s.types then 0 else if t in s.rank then 1 + s.rank[t] else 1
  }

  /** Required nesting is acyclic, and every key `tag << 3 | wire` stays a positive 32-bit integer. */
  ghost predicate WellFormed(s: Schema) {
    forall t :: t in s.types ==> WellFormedType(s, t)
  }

  ghost predicate WellFormedType(s: Schema, t: string)
    requires t in s.types
  {
    && |s.types[t]| < 0x1000_0000
    && forall i :: 0 <= i < |s.types[t]| && s.types[t][i].rule == Required && s.types[t][i].ty.TMessage? ==>
         Rank(s, s.types[t][i].ty.name) < Rank(s, t)
  }

  ghost predicate DistinctKeys(fields: seq<Field>) {
    forall i, j :: 0 <= i < j < |fields| ==> fields[i].key != fields[j].key
  }

  // ----- well-typed messages -----

  /** The value has the kind its field type calls for.  `bytes` and `bool` accept anything. */
  ghost predicate HasKind(s: Schema, ty: FieldType, v: Value)
    decreases v, 1
  {
    match ty
    case TString => v.Str?
    case TUint32 => v.Num?
    case TInt32 => v.Num?
    case TBytes => true
    case TBool => true
    case TMessage(u) => v == Undefined || (v.Msg? && Kinded(s, u, v.fields))
  }

  predicate Present(m: Message, key: string) {
    key in m && m[key] != Undefined
  }

  ghost predicate Kinded(s: Schema, t: string, m: Message)
    decreases Msg(m), 0
  {
    t in s.types ==>
      forall i :: 0 <= i < |s.types[t]| && Present(m, s.types[t][i].key) ==>
        FieldKinded(s, s.types[t][i], m[s.types[t][i].key])
  }

  ghost predicate AllKind(s: Schema, ty: FieldType, items: seq<Value>)
    decreases List(items), 0
  {
    forall k :: 0 <= k < |items| ==> HasKind(s, ty, items[k])
  }

  ghost predicate FieldKinded(s: Schema, f: Field, v: Value)
    decreases v, 2
  {
    if f.rule == Repeated then
      v.List? ==> AllKind(s, f.ty, v.items)
    else HasKind(s, f.ty, v)
  }

  // ----- 32-bit coercions -----

  function ToUint32(n: int): (r: nat)
    ensures r < 0x1_0000_0000
    ensures 0 <= n < 0x1_0000_0000 ==> r == n
  {
    n % 0x1_0000_0000
  }

  function ToInt32(n: int): (r: int)
    ensures -0x8000_0000 <= r < 0x8000_0000
    ensures -0x8000_0000 <= n < 0x8000_0000 ==> r == n
  {
    var u := ToUint32(n);
    if u < 0x8000_0000 then u else u - 0x1_0000_0000
  }

  /** `((n << 1) ^ (n >> 31)) >>> 0`: the right operand of `^` is 0 or -1, and `x ^ -1` is `-x - 1`. */
  function ZigZag(n: int): nat {
    var doubled := ToInt32(2 * n);
    ToUint32(if n < 0 then -doubled - 1 else doubled)
  }

  /** `(num >>> 1) ^ -(num & 1)` */
  function UnZigZag(num: nat): int {
    var half := ToUint32(num) / 2;
    if num % 2 == 0 then half else -half - 1
  }

  lemma UnZigZagInverts(n: int)
    requires -0x8000_0000 <= n < 0x8000_0000
    ensures UnZigZag(ZigZag(n)) == n
    ensures ZigZag(n) < 0x1_0000_0000
  {
    if n >= 0 {
      assert ToUint32(ToInt32(2 * n)) == 2 * n;
    } else {
      assert ToInt32(2 * n) == 2 * n || ToInt32(2 * n) == 2 * n + 0x1_0000_0000;
      assert ZigZag(n) == -2 * n - 1;
    }
  }

  // ----- writing -----

  function VarintField(tag: nat, n: nat): seq<Byte> {
    VarintBytes(8 * tag) + VarintBytes(n)
  }

  function LenField(tag: nat, bytes: seq<Byte>): seq<Byte> {
    VarintBytes(8 * tag + 2) + LenBytes(bytes)
  }

  /** No engine allocates an array longer than the largest safe integer. */
  function BoundedLenField(tag: nat, bytes: seq<Byte>): Result<seq<Byte>, WireError> {
    if |bytes| > MAX_SAFE then Err(TooLarge) else Ok(LenField(tag, bytes))
  }

  predicate Truthy(v: Value) {
    match v
    case Str(text) => text != []
    case Num(n) => n != 0
    case Flag(b) => b
    case Undefined => false
    case _ => true
  }

  function WriteScalar(tag: nat, ty: FieldType, v: Value): Result<seq<Byte>, WireError>
    requires !ty.TMessage?
    requires (ty.TString? ==> v.Str?) && (ty.TUint32? || ty.TInt32? ==> v.Num?)
  {
    match ty
    case TString => BoundedLenField(tag, Encode(v.text))
    case TBytes => BoundedLenField(tag, if v.Blob? then v.bytes else [])
    case TUint32 => Ok(VarintField(tag, ToUint32(v.n)))
    case TInt32 => Ok(VarintField(tag, ZigZag(ToInt32(v.n))))
    case TBool => Ok(VarintField(tag, if Truthy(v) then 1 else 0))
  }

  function ScalarDefault(ty: FieldType): Value {
    match ty
    case TString => Str([])
    case TBytes => Blob([])
    case TUint32 => Num(0)
    case TInt32 => Num(0)
    case TBool => Flag(false)
    case TMessage(_) => Msg(map[])
  }

  /** `value ?? {}` */
  function NestedFields(v: Value): Message {
    if v.Msg? then v.fields else map[]
  }

  predicate Nonempty(v: Value) {
    v != Msg(map[])
  }

  function TypeRank(s: Schema, ty: FieldType): nat {
    if ty.TMessage? then Rank(s, ty.name) else 0
  }

  ghost function WriteMessage(s: Schema, t: string, m: Message): Result<seq<Byte>, WireError>
    requires WellFormed(s) && Kinded(s, t, m)
    decreases Nonempty(Msg(m)), Msg(m), Rank(s, t), 3, 0
  {
    if t !in s.types then Err(UnknownType(t)) else WriteFields(s, t, m, 0)
  }

  /** Fields `i` and later, in schema order. */
  ghost function WriteFields(s: Schema, t: string, m: Message, i: nat): Result<seq<Byte>, WireError>
    requires WellFormed(s) && Kinded(s, t, m) && t in s.types && i <= |s.types[t]|
    decreases Nonempty(Msg(m)), Msg(m), Rank(s, t), 2, |s.types[t]| - i
  {
    if i == |s.types[t]| then Ok([]) else
      match WriteField(s, t, m, i)
      case Err(e) => Err(e)
      case Ok(b) => match WriteFields(s, t, m, i + 1)
        case Err(e) => Err(e)
        case Ok(rest) => Ok(b + rest)
  }

  ghost function WriteField(s: Schema, t: string, m: Message, i: nat): Result<seq<Byte>, WireError>
    requires WellFormed(s) && Kinded(s, t, m) && t in s.types && i < |s.types[t]|
    decreases Nonempty(Msg(m)), Msg(m), Rank(s, t), 1, 0
  {
    var f, tag := s.types[t][i], i + 1;
    assert WellFormedType(s, t);
    if Present(m, f.key) then
      assert m != map[] && FieldKinded(s, f, m[f.key]);
      if f.rule != Repeated then WriteValue(s, tag, f.ty, m[f.key])
      else if m[f.key].List? then WriteItems(s, tag, f.ty, m[f.key].items, 0)
      else Err(NotAnArray(f.key))
    else if f.rule != Required then Ok([])
    else if f.ty.TMessage? then Nest(tag, WriteMessage(s, f.ty.name, map[]))
    else WriteScalar(tag, f.ty, ScalarDefault(f.ty))
  }

  /** Elements `k` and later of a repeated field, each under the field's own tag. */
  ghost function WriteItems(s: Schema, tag: nat, ty: FieldType, items: seq<Value>, k: nat)
    : Result<seq<Byte>, WireError>
    requires WellFormed(s) && k <= |items|
    requires AllKind(s, ty, items)
    decreases true, List(items), 0, 5, |items| - k
  {
    if k == |items| then Ok([]) else
      match WriteValue(s, tag, ty, items[k])
      case Err(e) => Err(e)
      case Ok(b) => match WriteItems(s, tag, ty, items, k + 1)
        case Err(e) => Err(e)
        case Ok(rest) => Ok(b + rest)
  }

  ghost function WriteValue(s: Schema, tag: nat, ty: FieldType, v: Value): Result<seq<Byte>, WireError>
    requires WellFormed(s) && HasKind(s, ty, v)
    decreases Nonempty(v), v, TypeRank(s, ty), 4, 0
  {
    if ty.TMessage? then Nest(tag, WriteMessage(s, ty.name, NestedFields(v))) else WriteScalar(tag, ty, v)
  }

  function Nest(tag: nat, body: Result<seq<Byte>, WireError>): Result<seq<Byte>, WireError> {
    match body
    case Err(e) => Err(e)
    case Ok(b) => BoundedLenField(tag, b)
  }

  // ----- reading -----

  datatype Payload = Number(n: nat) | Chunk(bytes: seq<Byte>)

  /** The first field of `b`: its tag, its payload and the bytes after it. */
  function NextField(b: seq<Byte>): (r: Result<(nat, Payload, seq<Byte>), WireError>)
    requires b != []
    ensures r.Ok? ==> |r.value.2| < |b| && (r.value.1.Chunk? ==> |r.value.1.bytes| < |b|)
  {
    match ReadVarint(b)
    case Err(e) => Err(e)
    case Ok((key, b1)) =>
      var tag, wire := ToUint32(key) / 8, key % 8;
      if wire == 0 then
        match ReadVarint(b1)
        case Err(e) => Err(e)
        case Ok((n, b2)) => Ok((tag, Number(n), b2))
      else if wire == 2 then
        match ReadVarint(b1)
        case Err(e) => Err(e)
        case Ok((len, b2)) => match Take(b2, len)
          case Err(e) => Err(e)
          case Ok((bytes, b3)) => Ok((tag, Chunk(bytes), b3))
      else Err(UnsupportedWireType(wire))
  }

  /** Repeated fields collect, every other field keeps its last value. */
  function Put(m: Message, f: Field, v: Value): Message {
    if f.rule == Repeated then
      m[f.key := List((if f.key in m && m[f.key].List? then m[f.key].items else []) + [v])]
    else m[f.key := v]
  }

  function ReadMessage(s: Schema, t: string, b: seq<Byte>): Result<Message, WireError>
    decreases |b|, 2
  {
    if t !in s.types then Err(UnknownType(t)) else ReadFields(s, s.types[t], b, map[])
  }

  function ReadFields(s: Schema, fields: seq<Field>, b: seq<Byte>, acc: Message): Result<Message, WireError>
    decreases |b|, 1
  {
    if b == [] then Ok(acc) else
      match NextField(b)
      case Err(e) => Err(e)
      case Ok((tag, payload, rest)) =>
        if !(1 <= tag <= |fields|) then ReadFields(s, fields, rest, acc) else
          match ReadValue(s, fields[tag - 1].ty, payload)
          case Err(e) => Err(e)
          case Ok(v) => ReadFields(s, fields, rest, Put(acc, fields[tag - 1], v))
  }

  function ReadValue(s: Schema, ty: FieldType, p: Payload): Result<Value, WireError>
    decreases if p.Chunk? then |p.bytes| else 0, 3
  {
    match ty
    case TString => Ok(Str(if p.Chunk? then DecodeText(p.bytes) else []))
    case TBytes => Ok(Blob(if p.Chunk? then p.bytes else []))
    case TUint32 => Ok(Num(if p.Number? then ToUint32(p.n) else 0))
    case TInt32 => Ok(Num(if p.Number? then UnZigZag(p.n) else 0))
    case TBool => Ok(Flag(p.Number? && p.n != 0))
    case TMessage(u) =>
      if p.Number? then Ok(Undefined) else
        match ReadMessage(s, u, p.bytes)
        case Err(e) => Err(e)
        case Ok(m) => Ok(Msg(m))
  }

  // ----- reading, one field at a time -----

  lemma ReadNothing(s: Schema, fields: seq<Field>, acc: Message)
    ensures ReadFields(s, fields, [], acc) == Ok(acc)
  {
  }

  /** A body that is read has a readable first field. */
  lemma ReadGoesOn(s: Schema, fields: seq<Field>, b: seq<Byte>, acc: Message)
    requires b != [] && ReadFields(s, fields, b, acc).Ok?
    ensures NextField(b).Ok?
    ensures var (tag, p, _) := NextField(b).value;
      1 <= tag <= |fields| ==> ReadValue(s, fields[tag - 1].ty, p).Ok?
  {
  }

  lemma ReadStops(s: Schema, fields: seq<Field>, b: seq<Byte>, acc: Message)
    requires b != [] && NextField(b).Err?
    ensures ReadFields(s, fields, b, acc) == Err(NextField(b).error)
  {
  }

  /** The first field is put, or skipped if it is not known, and the rest is read on top of that. */
  lemma ReadStep(s: Schema, fields: seq<Field>, b: seq<Byte>, acc: Message, tag: nat, p: Payload, rest: seq<Byte>)
    requires b != [] && NextField(b) == Ok((tag, p, rest))
    ensures if 1 <= tag <= |fields| then
        match ReadValue(s, fields[tag - 1].ty, p)
        case Err(e) => ReadFields(s, fields, b, acc) == Err(e)
        case Ok(v) => ReadFields(s, fields, b, acc) == ReadFields(s, fields, rest, Put(acc, fields[tag - 1], v))
      else ReadFields(s, fields, b, acc) == ReadFields(s, fields, rest, acc)
  {
  }
}
