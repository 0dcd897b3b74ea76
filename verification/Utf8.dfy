/**
 * Well-formed text and its UTF-8 form (section 3 of RFC 3629).  `Encode` is what `TextEncoder`
 * and `Buffer.from(id, 'utf8')` produce; `DecodeText` is a non-fatal `TextDecoder`: malformed
 * input becomes U+FFFD and a leading U+FEFF is dropped.
 */
module Utf8 {
  import opened Prelude

  /** A Unicode scalar value: any code point that is not a surrogate. */
  type Scalar = c: int | 0 <= c < 0xD800 || 0xE000 <= c < 0x11_0000

  type Text = seq<Scalar>

  const REPLACEMENT: Scalar := 0xFFFD
  const BOM: Scalar := 0xFEFF

  // ----- encoding -----

  function EncodeScalar(c: Scalar): (b: seq<Byte>)
    ensures 1 <= |b| <= 4
  {
    if c < 0x80 then [c]
    else if c < 0x800 then [0xC0 + c / 64, 0x80 + c % 64]
    else if c < 0x1_0000 then [0xE0 + c / 64 / 64, 0x80 + c / 64 % 64, 0x80 + c % 64]
    else [0xF0 + c / 64 / 64 / 64, 0x80 + c / 64 / 64 % 64, 0x80 + c / 64 % 64, 0x80 + c % 64]
  }

  function Encode(s: Text): seq<Byte> {
    if s == [] then [] else EncodeScalar(s[0]) + Encode(s[1..])
  }

  // ----- decoding -----

  /** How many continuation bytes follow a lead byte, and the range allowed for the first of them. */
  datatype Lead = Lead(need: nat, lo: Byte, hi: Byte)

  function LeadOf(b: Byte): Option<Lead> {
    if 0xC2 <= b <= 0xDF then Some(Lead(1, 0x80, 0xBF))
    else if b == 0xE0 then Some(Lead(2, 0xA0, 0xBF))
    else if b == 0xED then Some(Lead(2, 0x80, 0x9F))
    else if 0xE1 <= b <= 0xEF then Some(Lead(2, 0x80, 0xBF))
    else if b == 0xF0 then Some(Lead(3, 0x90, 0xBF))
    else if b == 0xF4 then Some(Lead(3, 0x80, 0x8F))
    else if 0xF1 <= b <= 0xF3 then Some(Lead(3, 0x80, 0xBF))
    else None
  }

  predicate Continues(b: seq<Byte>, i: nat, lo: Byte, hi: Byte) {
    i < |b| && lo <= b[i] <= hi
  }

  /** Six more bits below the bits read so far. */
  function Shift6(bits: int, b: Byte): int {
    64 * bits + (b - 0x80)
  }

  /** The first scalar a decoder emits for `b` and the number of bytes it consumes for it. */
  function DecodeOne(b: seq<Byte>): (r: (Scalar, nat))
    requires b != []
    ensures 1 <= r.1 <= |b|
  {
    if b[0] < 0x80 then (b[0], 1)
    else match LeadOf(b[0])
      case None => (REPLACEMENT, 1)
      case Some(Lead(need, lo, hi)) =>
        if !Continues(b, 1, lo, hi) then (REPLACEMENT, 1)
        else if need == 1 then (Shift6(b[0] as int - 0xC0, b[1]), 2)
        else if !Continues(b, 2, 0x80, 0xBF) then (REPLACEMENT, 2)
        else if need == 2 then (Shift6(Shift6(b[0] as int - 0xE0, b[1]), b[2]), 3)
        else if !Continues(b, 3, 0x80, 0xBF) then (REPLACEMENT, 3)
        else (Shift6(Shift6(Shift6(b[0] as int - 0xF0, b[1]), b[2]), b[3]), 4)
  }

  function DecodeAll(b: seq<Byte>): Text {
    if b == [] then [] else
      var (c, n) := DecodeOne(b);
      [c] + DecodeAll(b[n..])
  }

  function StripBom(s: Text): Text {
    if s != [] && s[0] == BOM then s[1..] else s
  }

  function DecodeText(b: seq<Byte>): Text {
    StripBom(DecodeAll(b))
  }

  // ----- the two are inverse on well-formed text -----

  lemma DecodeOneInverts(c: Scalar, rest: seq<Byte>)
    ensures DecodeOne(EncodeScalar(c) + rest) == (c, |EncodeScalar(c)|)
  {
    var b, u := EncodeScalar(c) + rest, c / 64;
    assert c == 64 * u + c % 64;
    if c < 0x80 {
    } else if c < 0x800 {
      assert b[0] == 0xC0 + u && b[1] == 0x80 + c % 64;
    } else {
      var v := u / 64;
      assert u == 64 * v + u % 64;
      if c < 0x1_0000 {
        assert b[0] == 0xE0 + v && b[1] == 0x80 + u % 64 && b[2] == 0x80 + c % 64;
      } else {
        assert b[0] == 0xF0 + v / 64 && b[1] == 0x80 + v % 64 && b[2] == 0x80 + u % 64 && b[3] == 0x80 + c % 64;
      }
    }
  }

  lemma {:induction false} DecodeAllInverts(s: Text)
    ensures DecodeAll(Encode(s)) == s
  {
    if s != [] {
      var head, tail := EncodeScalar(s[0]), Encode(s[1..]);
      DecodeOneInverts(s[0], tail);
      assert (head + tail)[|head|..] == tail;
      DecodeAllInverts(s[1..]);
    }
  }

  /** Text survives encoding and decoding exactly when it does not start with U+FEFF. */
  lemma DecodeTextInverts(s: Text)
    ensures DecodeText(Encode(s)) == StripBom(s)
    ensures DecodeText(Encode(s)) == s <==> !(s != [] && s[0] == BOM)
  {
    DecodeAllInverts(s);
  }

  lemma EncodeInjective(s: Text, t: Text)
    requires Encode(s) == Encode(t)
    ensures s == t
  {
    DecodeAllInverts(s);
    DecodeAllInverts(t);
  }

  // ----- scalar boundaries inside an encoding -----

  lemma {:induction false} EncodeSplits(s: Text, k: nat)
    requires k <= |s|
    ensures Encode(s) == Encode(s[..k]) + Encode(s[k..])
  {
    if k == 0 {
      assert s[..0] == [] && s[0..] == s;
    } else {
      var tail := s[1..];
      EncodeSplits(tail, k - 1);
      assert tail[..k - 1] == s[..k][1..] && tail[k - 1..] == s[k..];
      EncodeHead(s);
      EncodeHead(s[..k]);
      AppendAssociates(EncodeScalar(s[0]), Encode(tail[..k - 1]), Encode(s[k..]));
    }
  }

  lemma EncodeHead(s: Text)
    requires s != []
    ensures Encode(s) == EncodeScalar(s[0]) + Encode(s[1..])
  {
  }

  lemma AppendAssociates(a: seq<Byte>, b: seq<Byte>, c: seq<Byte>)
    ensures a + (b + c) == (a + b) + c
  {
  }

  /** Byte offset of the boundary before scalar `k`. */
  function Offset(s: Text, k: nat): nat
    requires k <= |s|
  {
    |Encode(s[..k])|
  }

  lemma OffsetStep(s: Text, k: nat)
    requires k < |s|
    ensures Offset(s, k + 1) == Offset(s, k) + |EncodeScalar(s[k])| <= |Encode(s)|
    ensures Encode(s)[Offset(s, k)..Offset(s, k + 1)] == EncodeScalar(s[k])
  {
    EncodeSplits(s, k);
    EncodeSplits(s[..k + 1], k);
    EncodeSplits(s, k + 1);
    assert s[..k + 1][..k] == s[..k] && s[..k + 1][k..] == [s[k]];
    assert Encode([s[k]]) == EncodeScalar(s[k]) + Encode([]);
  }

  lemma {:induction false} OffsetMonotone(s: Text, j: nat, k: nat)
    requires j <= k <= |s|
    ensures Offset(s, j) + (k - j) <= Offset(s, k) <= Offset(s, j) + 4 * (k - j)
    decreases k
  {
    if j < k {
      OffsetMonotone(s, j, k - 1);
      OffsetStep(s, k - 1);
    }
  }
}
