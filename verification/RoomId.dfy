/** Room-id charset, percent-encoding (section 2.1 of RFC 3986) and the namespace separator. */
module RoomId {
  import opened Prelude
  import opened Utf8

  const TILDE: Scalar := 0x7E
  const PERCENT: Scalar := 0x25

  /** `A-Z a-z 0-9 _ -` */
  predicate InCharset(c: int) {
    0x41 <= c <= 0x5A || 0x61 <= c <= 0x7A || 0x30 <= c <= 0x39 || c == 0x5F || c == 0x2D
  }

  predicate IsValidRoomId(id: Text) {
    1 <= |id| <= 64 && forall i :: 0 <= i < |id| ==> InCharset(id[i])
  }

  function UpperHex(d: nat): Scalar
    requires d < 16
  {
    if d < 10 then 0x30 + d else 0x41 + d - 10
  }

  function EncodeByte(b: Byte): (e: Text)
    ensures e != []
  {
    if InCharset(b) then [b] else [PERCENT, UpperHex(b / 16), UpperHex(b % 16)]
  }

  function PercentEncode(bytes: seq<Byte>): Text {
    if bytes == [] then [] else EncodeByte(bytes[0]) + PercentEncode(bytes[1..])
  }

  /** The API-safe form of any room id. */
  function EncodedRoomId(id: Text): Text {
    if IsValidRoomId(id) then id else PercentEncode(Encode(id))
  }

  method EncodeRoomId(id: Text) returns (out: Text)
    ensures out == EncodedRoomId(id)
  {
    if IsValidRoomId(id) {
      return id;
    }
    out := [];
    var bytes := Encode(id);
    var i := 0;
    while i < |bytes|
      invariant 0 <= i <= |bytes|
      invariant out + PercentEncode(bytes[i..]) == PercentEncode(bytes)
    {
      var byte := bytes[i];
      PercentStep(bytes, i, out);
      if InCharset(byte) {
        out := out + [byte];
      } else {
        out := out + [PERCENT, UpperHex(byte / 16), UpperHex(byte % 16)];
      }
      i := i + 1;
    }
  }

  lemma PercentStep(bytes: seq<Byte>, i: nat, done: Text)
    requires i < |bytes|
    ensures done + PercentEncode(bytes[i..]) == done + EncodeByte(bytes[i]) + PercentEncode(bytes[i + 1..])
  {
    var rest := bytes[i..];
    assert rest[0] == bytes[i] && rest[1..] == bytes[i + 1..];
    assert done + (EncodeByte(bytes[i]) + PercentEncode(bytes[i + 1..]))
      == done + EncodeByte(bytes[i]) + PercentEncode(bytes[i + 1..]);
  }

  function NamespaceRoomId(processUid: Text, encodedRoomId: Text): Text {
    processUid + [TILDE] + encodedRoomId
  }

  // ----- no two ids share an encoding -----

  /** Leaving valid ids alone is no exception: they percent-encode to themselves. */
  lemma EncodedIsPercentEncode(id: Text)
    ensures EncodedRoomId(id) == PercentEncode(Encode(id))
  {
    if IsValidRoomId(id) {
      CharsetEncodesToItself(id);
    }
  }

  lemma {:induction false} CharsetEncodesToItself(id: Text)
    requires forall i :: 0 <= i < |id| ==> InCharset(id[i])
    ensures PercentEncode(Encode(id)) == id
  {
    if id != [] {
      CharsetEncodesToItself(id[1..]);
      assert EncodeScalar(id[0]) == [id[0]];
      assert Encode(id) == [id[0]] + Encode(id[1..]);
      assert Encode(id)[1..] == Encode(id[1..]);
      assert id == [id[0]] + id[1..];
    }
  }

  lemma UpperHexInjective(c: nat, d: nat)
    requires c < 16 && d < 16 && UpperHex(c) == UpperHex(d)
    ensures c == d
  {
  }

  lemma EncodeByteReads(a: Byte, x: Text, b: Byte, y: Text)
    requires EncodeByte(a) + x == EncodeByte(b) + y
    ensures a == b && x == y
  {
    var p, q := EncodeByte(a), EncodeByte(b);
    assert (p + x)[0] == p[0] && (q + y)[0] == q[0];
    assert |p| == |q|;
    assert p == (p + x)[..|p|] && q == (q + y)[..|q|] && x == (p + x)[|p|..] && y == (q + y)[|q|..];
    if !InCharset(a) {
      assert p[1] == q[1] && p[2] == q[2];
      UpperHexInjective(a / 16, b / 16);
      UpperHexInjective(a % 16, b % 16);
    }
  }

  lemma {:induction false} PercentEncodeInjective(a: seq<Byte>, b: seq<Byte>)
    requires PercentEncode(a) == PercentEncode(b)
    ensures a == b
  {
    if a != [] && b != [] {
      EncodeByteReads(a[0], PercentEncode(a[1..]), b[0], PercentEncode(b[1..]));
      PercentEncodeInjective(a[1..], b[1..]);
      assert a == [a[0]] + a[1..] && b == [b[0]] + b[1..];
    }
  }

  lemma EncodedRoomIdInjective(a: Text, b: Text)
    requires EncodedRoomId(a) == EncodedRoomId(b)
    ensures a == b
  {
    EncodedIsPercentEncode(a);
    EncodedIsPercentEncode(b);
    PercentEncodeInjective(Encode(a), Encode(b));
    EncodeInjective(a, b);
  }

  // ----- reading an encoded id back -----

  /** An upper-case hexadecimal digit. */
  function HexValue(c: Scalar): (d: Option<nat>)
    ensures d.Some? ==> d.value < 16
  {
    if 0x30 <= c <= 0x39 then Some(c - 0x30) else if 0x41 <= c <= 0x46 then Some(c - 0x41 + 10) else None
  }

  /** The bytes a text stands for, if it escapes exactly what is outside the charset, with upper-case digits. */
  function PercentDecode(s: Text): Option<seq<Byte>> {
    if s == [] then Some([])
    else if InCharset(s[0]) then
      match PercentDecode(s[1..])
      case None => None
      case Some(bytes) => Some([s[0]] + bytes)
    else if s[0] != PERCENT || |s| < 3 then None
    else match (HexValue(s[1]), HexValue(s[2]), PercentDecode(s[3..]))
      case (Some(high), Some(low), Some(bytes)) =>
        if InCharset(16 * high + low) then None else Some([16 * high + low] + bytes)
      case _ => None
  }

  lemma {:induction false} PercentDecodeInverts(bytes: seq<Byte>)
    ensures PercentDecode(PercentEncode(bytes)) == Some(bytes)
  {
    if bytes != [] {
      var b, e, rest := bytes[0], EncodeByte(bytes[0]), PercentEncode(bytes[1..]);
      PercentDecodeInverts(bytes[1..]);
      assert (e + rest)[|e|..] == rest && (e + rest)[0] == e[0];
      assert bytes == [b] + bytes[1..];
      if !InCharset(b) {
        assert (e + rest)[1] == UpperHex(b / 16) && (e + rest)[2] == UpperHex(b % 16);
        assert 16 * (b / 16) + b % 16 == b;
      }
    }
  }

  /** Reading an encoded id back gives the UTF-8 bytes of the id. */
  lemma EncodedRoomIdReads(id: Text)
    ensures PercentDecode(EncodedRoomId(id)) == Some(Encode(id))
  {
    EncodedIsPercentEncode(id);
    PercentDecodeInverts(Encode(id));
  }

  // ----- the separator cannot be forged -----

  predicate UrlSafe(c: Scalar) {
    InCharset(c) || c == PERCENT
  }

  lemma {:induction false} PercentEncodeSafe(bytes: seq<Byte>)
    ensures forall i :: 0 <= i < |PercentEncode(bytes)| ==> UrlSafe(PercentEncode(bytes)[i])
  {
    if bytes != [] {
      PercentEncodeSafe(bytes[1..]);
    }
  }

  /** Encoded ids use the charset and `%` only, so no encoded id contains the separator. */
  lemma EncodedRoomIdSafe(id: Text)
    ensures forall i :: 0 <= i < |EncodedRoomId(id)| ==> UrlSafe(EncodedRoomId(id)[i])
    ensures TILDE !in EncodedRoomId(id)
  {
    EncodedIsPercentEncode(id);
    PercentEncodeSafe(Encode(id));
  }

  /** Whatever the process id contains, the last separator splits a namespaced id. */
  lemma NamespaceUnambiguous(uid1: Text, base1: Text, uid2: Text, base2: Text)
    requires TILDE !in base1 && TILDE !in base2
    requires NamespaceRoomId(uid1, base1) == NamespaceRoomId(uid2, base2)
    ensures uid1 == uid2 && base1 == base2
  {
    var a, b := NamespaceRoomId(uid1, base1), NamespaceRoomId(uid2, base2);
    assert a[|uid1|] == TILDE && b[|uid2|] == TILDE;
    TildeIsLast(uid1, base1, |uid2|);
    TildeIsLast(uid2, base2, |uid1|);
    assert uid1 == a[..|uid1|] && uid2 == b[..|uid2|];
    assert base1 == a[|uid1| + 1..] && base2 == b[|uid2| + 1..];
  }

  lemma TildeIsLast(uid: Text, base: Text, i: nat)
    requires TILDE !in base && i < |NamespaceRoomId(uid, base)| && NamespaceRoomId(uid, base)[i] == TILDE
    ensures i <= |uid|
  {
  }

  /** A namespaced id is never an encoded id, so losers of a collision cannot collide with a keeper. */
  lemma NamespacedIsNotEncoded(uid: Text, base: Text, id: Text)
    ensures NamespaceRoomId(uid, base) != EncodedRoomId(id)
  {
    EncodedRoomIdSafe(id);
    assert NamespaceRoomId(uid, base)[|uid|] == TILDE;
  }
}
