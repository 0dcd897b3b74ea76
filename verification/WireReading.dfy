/** What a reader makes of any bytes: which it refuses, and what number a varint is. */
module WireReading {
  import opened Prelude
  import opened Varint
  import opened Wire
  import opened WireLayout

  // ----- numbers -----

  /** What a double makes of a sum below 2^56: a multiple of a unit, as near as can be, and an even one if in doubt. */
  lemma RoundsToNearest(n: nat) returns (unit: nat, h: nat)
    requires n < 0x100_0000_0000_0000
    ensures unit == if n < 0x20_0000_0000_0000 then 1 else if n < 0x40_0000_0000_0000 then 2
      else if n < 0x80_0000_0000_0000 then 4 else 8
    ensures RoundDouble(n) == unit * h && 2 * (unit * h - n) <= unit && 2 * (n - unit * h) <= unit
    ensures 2 * (unit * h - n) == unit || 2 * (n - unit * h) == unit ==> h % 2 == 0
  {
    if n < 0x20_0000_0000_0000 {
      unit, h := 1, n;
    } else if n < 0x40_0000_0000_0000 {
      unit, h := 2, RoundHalfEven(n / 2, n % 2, 2);
    } else if n < 0x80_0000_0000_0000 {
      unit, h := 4, RoundHalfEven(n / 4, n % 4, 4);
    } else {
      unit, h := 8, RoundHalfEven(n / 8, n % 8, 8);
    }
  }

  /** Where the first varint ends: the first byte without the top bit. */
  ghost predicate EndsAt(b: seq<Byte>, k: nat) {
    k < |b| && b[k] < 0x80 && forall i :: 0 <= i < k ==> b[i] >= 0x80
  }

  lemma PowersGrow(j: nat, k: nat)
    requires j <= k
    ensures Pow128(j) <= Pow128(k)
    decreases k
  {
    if j < k {
      PowersGrow(j, k - 1);
    }
  }

  lemma SevenGroupsAreExact(n: nat, count: nat)
    requires count <= 7 && n < Pow128(count)
    ensures n <= MAX_SAFE && RoundDouble(n) == n
  {
    PowersGrow(count, 7);
    assert Pow128(2) == 0x80 * Pow128(1) && Pow128(1) == 0x80 * Pow128(0);
    assert Pow128(4) == 0x80 * Pow128(3) && Pow128(3) == 0x80 * Pow128(2);
    assert Pow128(6) == 0x80 * Pow128(5) && Pow128(5) == 0x80 * Pow128(4);
    assert Pow128(7) == 0x80 * Pow128(6);
  }

  lemma GroupsStep(b: seq<Byte>, k: nat, count: nat)
    requires k < |b|
    ensures Scale(GroupsValue(b[..k + 1]), count)
      == Scale(b[0] % 0x80, count) + if k == 0 then 0 else Scale(GroupsValue(b[1..][..k]), count + 1)
  {
    var s := b[..k + 1];
    assert s[0] == b[0] && s[1..] == b[1..][..k];
    var n := GroupsValue(s);
    assert n % 0x80 == b[0] % 0x80 && n / 0x80 == GroupsValue(s[1..]);
    ScaleSplits(n, count);
    if k == 0 {
      assert s[1..] == [];
      ScaleZero(count + 1);
    }
  }

  lemma {:induction false} ScaleZero(count: nat)
    ensures Scale(0, count) == 0
  {
    if count > 0 {
      ScaleZero(count - 1);
    }
  }

  lemma GroupFits(acc: nat, byte: Byte, count: nat)
    requires acc < Pow128(count)
    ensures acc + Scale(byte % 0x80, count) < Pow128(count + 1)
  {
    ScaleIsProduct(byte % 0x80, count);
    AtMostAll(byte % 0x80, Pow128(count));
  }

  lemma AtMostAll(x: nat, p: nat)
    requires x < 0x80
    ensures x * p + p <= 0x80 * p
  {
    assert (0x7F - x) * p >= 0;
  }

  /** A varint of at most eight bytes is the number its groups make, as a double. */
  lemma {:induction false} TailReads(b: seq<Byte>, k: nat, count: nat, acc: nat)
    requires EndsAt(b, k) && count + k < 8 && acc < Pow128(count)
    ensures ReadTail(b, count, acc) == Ok((RoundDouble(acc + Scale(GroupsValue(b[..k + 1]), count)), b[k + 1..]))
    decreases k
  {
    hide Scale, GroupsValue, RoundDouble, Pow128;
    GroupsStep(b, k, count);
    if k > 0 {
      GroupFits(acc, b[0], count);
      SevenGroupsAreExact(acc + Scale(b[0] % 0x80, count), count + 1);
      assert b[1..][k - 1] == b[k] && forall i :: 0 <= i < k - 1 ==> b[1..][i] == b[i + 1];
      TailReads(b[1..], k - 1, count + 1, acc + Scale(b[0] % 0x80, count));
      assert b[1..][k..] == b[k + 1..];
    }
  }

  lemma {:induction false} TailRefuses(b: seq<Byte>, count: nat, acc: nat)
    requires count <= 8 && forall i :: 0 <= i < |b| && i < 8 - count ==> b[i] >= 0x80
    ensures ReadTail(b, count, acc) == Err(if |b| <= 8 - count then Truncated else TooLong)
    decreases |b|
  {
    if b != [] && count < 8 {
      TailRefuses(b[1..], count + 1, AddGroup(acc, b[0], count));
    }
  }

  /**
   * Of any bytes: a varint that ends within eight bytes is its number; one that does not is too long, or cut off if
   * the bytes end first.
   */
  lemma VarintReadsExactly(b: seq<Byte>)
    ensures forall k :: EndsAt(b, k) && k < 8 ==>
      ReadVarint(b) == Ok((RoundDouble(GroupsValue(b[..k + 1])), b[k + 1..]))
    ensures (forall i :: 0 <= i < |b| && i < 8 ==> b[i] >= 0x80) ==>
      ReadVarint(b) == Err(if |b| <= 8 then Truncated else TooLong)
  {
    forall k | EndsAt(b, k) && k < 8
      ensures ReadVarint(b) == Ok((RoundDouble(GroupsValue(b[..k + 1])), b[k + 1..]))
    {
      TailReads(b, k, 0, 0);
    }
    if forall i :: 0 <= i < |b| && i < 8 ==> b[i] >= 0x80 {
      TailRefuses(b, 0, 0);
    }
  }

  // ----- fields -----

  /** The first varint of the bytes, a number that a double holds exactly, and what follows it. */
  ghost predicate StartsWith(b: seq<Byte>, n: nat, rest: seq<Byte>) {
    exists k :: EndsAt(b, k) && k < 8 && GroupsValue(b[..k + 1]) == n <= MAX_SAFE && b[k + 1..] == rest
  }

  lemma StartReads(b: seq<Byte>, n: nat, rest: seq<Byte>)
    requires StartsWith(b, n, rest)
    ensures ReadVarint(b) == Ok((n, rest))
  {
    VarintReadsExactly(b);
  }

  /** A key says which field follows, and how it goes on; anything but a number or a length is refused. */
  lemma KindReadsExactly(b: seq<Byte>, key: nat, rest: seq<Byte>)
    requires b != [] && StartsWith(b, key, rest) && key < 0x1_0000_0000 && key % 8 != 0 && key % 8 != 2
    ensures NextField(b) == Err(UnsupportedWireType(key % 8))
  {
    hide ReadVarint, StartsWith;
    StartReads(b, key, rest);
  }

  /** What follows the key is the number, or a length and as many bytes, all of which must be there. */
  lemma FieldReadsExactly(b: seq<Byte>, key: nat, rest: seq<Byte>, n: nat, after: seq<Byte>)
    requires b != [] && StartsWith(b, key, rest) && key < 0x1_0000_0000 && StartsWith(rest, n, after)
    ensures key % 8 == 0 ==> NextField(b) == Ok((key / 8, Number(n), after))
    ensures key % 8 == 2 && n > |after| ==> NextField(b) == Err(LengthExceedsBuffer)
    ensures key % 8 == 2 && n <= |after| ==> NextField(b) == Ok((key / 8, Chunk(after[..n]), after[n..]))
  {
    hide ReadVarint, StartsWith;
    StartReads(b, key, rest);
    StartReads(rest, n, after);
  }

  /** A field of another kind than the schema says is not an error: it reads as empty, zero or absent. */
  lemma MismatchReadsEmpty(s: Schema, n: nat, bytes: seq<Byte>)
    ensures ReadValue(s, TString, Number(n)) == Ok(Str([])) && ReadValue(s, TBytes, Number(n)) == Ok(Blob([]))
    ensures ReadValue(s, TUint32, Chunk(bytes)) == ReadValue(s, TInt32, Chunk(bytes)) == Ok(Num(0))
    ensures ReadValue(s, TBool, Chunk(bytes)) == Ok(Flag(false))
    ensures forall u :: ReadValue(s, TMessage(u), Number(n)) == Ok(Undefined)
  {
  }
}
