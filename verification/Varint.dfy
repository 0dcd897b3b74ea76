/** LEB128 varints and length-prefixed bytes: the byte plumbing under the serializer. */
module Varint {
  import opened Prelude

  datatype WireError =
    | Truncated
    | TooLong
    | LengthExceedsBuffer
    | UnsupportedWireType(wire: nat)
    | UnknownType(name: string)
    | NotAnArray(key: string)
    | TooLarge

  // ----- writing -----

  function VarintBytes(n: nat): (b: seq<Byte>)
    ensures b != []
  {
    if n < 0x80 then [n] else [n % 0x80 + 0x80] + VarintBytes(n / 0x80)
  }

  function Pow128(k: nat): (p: nat)
    ensures p > 0
  {
    if k == 0 then 1 else 0x80 * Pow128(k - 1)
  }

  lemma {:induction false} VarintLength(n: nat, k: nat)
    requires k > 0 && n < Pow128(k)
    ensures |VarintBytes(n)| <= k
  {
    if n >= 0x80 {
      assert k > 1 by { assert Pow128(0) == 1 && Pow128(1) == 0x80 * Pow128(0); }
      VarintLength(n / 0x80, k - 1);
    }
  }

  /** Every count a JavaScript number holds exactly fits in the eight bytes a reader accepts. */
  lemma SafeVarintLength(n: nat)
    requires n <= MAX_SAFE
    ensures |VarintBytes(n)| <= 8
  {
    assert Pow128(2) == 0x80 * Pow128(1) && Pow128(1) == 0x80 * Pow128(0);
    assert Pow128(4) == 0x80 * Pow128(3) && Pow128(3) == 0x80 * Pow128(2);
    assert Pow128(6) == 0x80 * Pow128(5) && Pow128(5) == 0x80 * Pow128(4);
    assert Pow128(8) == 0x80 * Pow128(7) && Pow128(7) == 0x80 * Pow128(6);
    VarintLength(n, 8);
  }

  // ----- reading -----

  /** The multiple of `unit` nearest to `n`, ties to the even one. */
  function RoundHalfEven(q: nat, rest: nat, unit: nat): nat {
    if 2 * rest < unit || (2 * rest == unit && q % 2 == 0) then q else q + 1
  }

  /** The double that a sum below 2^56 rounds to: 53 significant bits, ties to even. */
  function RoundDouble(n: nat): (r: nat)
    ensures n <= MAX_SAFE ==> r == n
  {
    if n <= MAX_SAFE then n
    else if n < 0x40_0000_0000_0000 then 2 * RoundHalfEven(n / 2, n % 2, 2)
    else if n < 0x80_0000_0000_0000 then 4 * RoundHalfEven(n / 4, n % 4, 4)
    else 8 * RoundHalfEven(n / 8, n % 8, 8)
  }

  /** `x * 0x80^count` */
  function Scale(x: nat, count: nat): nat {
    if count == 0 then x else 0x80 * Scale(x, count - 1)
  }

  /** Seven more bits of a varint, added as doubles. */
  function AddGroup(acc: nat, byte: Byte, count: nat): nat {
    RoundDouble(acc + Scale(byte % 0x80, count))
  }

  /** `Reader.varint` after `count` bytes gave `acc`; the result is the value and the bytes left over. */
  function ReadTail(b: seq<Byte>, count: nat, acc: nat): (r: Result<(nat, seq<Byte>), WireError>)
    ensures r.Ok? ==> |r.value.1| < |b|
    decreases |b|
  {
    if b == [] then Err(Truncated)
    else if count >= 8 then Err(TooLong)
    else
      var next := AddGroup(acc, b[0], count);
      if b[0] >= 0x80 then ReadTail(b[1..], count + 1, next) else Ok((next, b[1..]))
  }

  function ReadVarint(b: seq<Byte>): (r: Result<(nat, seq<Byte>), WireError>)
    ensures r.Ok? ==> |r.value.1| < |b|
  {
    ReadTail(b, 0, 0)
  }

  lemma {:induction false} ScaleSplits(n: nat, count: nat)
    ensures Scale(n, count) == Scale(n % 0x80, count) + Scale(n / 0x80, count + 1)
  {
    if count > 0 {
      ScaleSplits(n, count - 1);
    }
  }

  lemma {:induction false} ScaleIsProduct(x: nat, count: nat)
    ensures Scale(x, count) == x * Pow128(count)
  {
    if count > 0 {
      ScaleIsProduct(x, count - 1);
    }
  }

  lemma {:induction false} ReadTailInverts(n: nat, rest: seq<Byte>, count: nat, acc: nat)
    requires count + |VarintBytes(n)| <= 8
    requires acc + Scale(n, count) <= MAX_SAFE
    ensures ReadTail(VarintBytes(n) + rest, count, acc) == Ok((acc + Scale(n, count), rest))
    decreases n
  {
    var b := VarintBytes(n) + rest;
    if n < 0x80 {
      assert b[0] == n && b[1..] == rest;
    } else {
      var q, low := n / 0x80, n % 0x80;
      assert b[0] == low + 0x80 && b[1..] == VarintBytes(q) + rest;
      ScaleSplits(n, count);
      assert AddGroup(acc, b[0], count) == acc + Scale(low, count);
      ReadTailInverts(q, rest, count + 1, acc + Scale(low, count));
    }
  }

  /** Reading undoes writing for every exact integer, whatever follows it. */
  lemma ReadVarintInverts(n: nat, rest: seq<Byte>)
    requires n <= MAX_SAFE
    ensures ReadVarint(VarintBytes(n) + rest) == Ok((n, rest))
  {
    SafeVarintLength(n);
    ReadTailInverts(n, rest, 0, 0);
  }

  /** Length-prefixed bytes. */
  function LenBytes(bytes: seq<Byte>): seq<Byte> {
    VarintBytes(|bytes|) + bytes
  }

  /** `r.take(len)`: the next `len` bytes and what follows them. */
  function Take(b: seq<Byte>, len: nat): (r: Result<(seq<Byte>, seq<Byte>), WireError>)
  {
    if len > |b| then Err(LengthExceedsBuffer) else Ok((b[..len], b[len..]))
  }

  // ----- the growable writer -----

  lemma VarintStep(done: seq<Byte>, v: nat)
    requires v >= 0x80
    ensures done + [v % 0x80 + 0x80] + VarintBytes(v / 0x80) == done + VarintBytes(v)
    ensures |VarintBytes(v)| == 1 + |VarintBytes(v / 0x80)|
  {
  }

  class Writer {
    var buf: array<Byte>
    var len: nat

    ghost predicate Valid()
      reads this
    {
      len <= buf.Length && buf.Length > 0
    }

    ghost function Contents(): seq<Byte>
      requires Valid()
      reads this, buf
    {
      buf[..len]
    }

    constructor ()
      ensures Valid() && fresh(buf) && Contents() == []
    {
      buf := new Byte[64];
      len := 0;
    }

    method Grow(extra: nat)
      requires Valid()
      modifies this
      ensures Valid() && Contents() == old(Contents())
      ensures len == old(len) && len + extra <= buf.Length
      ensures buf == old(buf) || fresh(buf)
    {
      if len + extra <= buf.Length {
        return;
      }
      var cap := buf.Length;
      while cap < len + extra
        invariant cap >= buf.Length
      {
        cap := cap * 2;
      }
      var next := new Byte[cap];
      forall i | 0 <= i < len {
        next[i] := buf[i];
      }
      buf := next;
    }

    method Varint(value: nat)
      requires Valid() && value <= MAX_SAFE
      modifies this, buf
      ensures Valid() && Contents() == old(Contents()) + VarintBytes(value)
      ensures buf == old(buf) || fresh(buf)
    {
      SafeVarintLength(value);
      Grow(10);
      var v := value;
      ghost var before := Contents();
      while v >= 0x80
        invariant Valid() && (buf == old(buf) || fresh(buf))
        invariant Contents() + VarintBytes(v) == before + VarintBytes(value)
        invariant len + |VarintBytes(v)| <= buf.Length
      {
        VarintStep(Contents(), v);
        Put(v % 0x80 + 0x80);
        v := v / 0x80;
      }
      Put(v);
    }

    /** One byte, where there is room for it. */
    method Put(byte: Byte)
      requires Valid() && len < buf.Length
      modifies `len, buf
      ensures Valid() && len == old(len) + 1 && Contents() == old(Contents()) + [byte]
    {
      buf[len] := byte;
      len := len + 1;
    }

    method LenBytes(bytes: seq<Byte>)
      requires Valid() && |bytes| <= MAX_SAFE
      modifies this, buf
      ensures Valid() && Contents() == old(Contents()) + VarintBytes(|bytes|) + bytes
      ensures buf == old(buf) || fresh(buf)
    {
      Varint(|bytes|);
      Grow(|bytes|);
      ghost var before := Contents();
      var at := len;
      forall i | 0 <= i < |bytes| {
        buf[at + i] := bytes[i];
      }
      len := len + |bytes|;
      assert buf[..at] == before;
      assert buf[at..len] == bytes;
    }

    method Done() returns (b: seq<Byte>)
      requires Valid()
      ensures b == Contents()
    {
      b := buf[..len];
    }
  }

  // ----- the cursor -----

  class Reader {
    const buf: seq<Byte>
    var off: nat

    ghost predicate Valid()
      reads this
    {
      off <= |buf|
    }

    /** The bytes not read yet. */
    ghost function Rest(): seq<Byte>
      requires Valid()
      reads this
    {
      buf[off..]
    }

    constructor (bytes: seq<Byte>)
      ensures Valid() && Rest() == bytes && buf == bytes
    {
      buf := bytes;
      off := 0;
    }

    method More() returns (more: bool)
      requires Valid()
      ensures more <==> Rest() != []
    {
      more := off < |buf|;
    }

    method Varint() returns (r: Result<nat, WireError>)
      requires Valid()
      modifies this
      ensures Valid()
      ensures match ReadVarint(old(Rest()))
              case Ok((value, rest)) => r == Ok(value) && Rest() == rest
              case Err(e) => r == Err(e)
    {
      var result: nat, mul: nat, count: nat := 0, 1, 0;
      ghost var start := Rest();
      while true
        invariant Valid()
        invariant ReadVarint(start) == ReadTail(Rest(), count, result) && mul == Pow128(count)
        decreases |buf| - off
      {
        if off >= |buf| {
          return Err(Truncated);
        }
        var byte := buf[off];
        ghost var here := Rest();
        off := off + 1;
        assert here[0] == byte && here[1..] == Rest();
        if count >= 8 {
          return Err(TooLong);
        }
        ScaleIsProduct(byte % 0x80, count);
        result := RoundDouble(result + byte % 0x80 * mul);
        mul := 0x80 * mul;
        count := count + 1;
        if byte < 0x80 {
          return Ok(result);
        }
      }
    }

    method Take(len: nat) returns (r: Result<seq<Byte>, WireError>)
      requires Valid()
      modifies this
      ensures Valid()
      ensures len <= |old(Rest())| ==>
        r == Ok(old(Rest())[..len]) && Rest() == old(Rest())[len..]
      ensures len > |old(Rest())| ==> r == Err(LengthExceedsBuffer) && off == old(off)
    {
      var start := off;
      var stop := start + len;
      if stop > |buf| {
        return Err(LengthExceedsBuffer);
      }
      ghost var here := Rest();
      off := stop;
      assert buf[start..stop] == here[..len] && buf[stop..] == here[len..];
      r := Ok(buf[start..stop]);
    }
  }
}
