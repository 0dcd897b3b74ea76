/** Close reasons: both truncations to the 123 bytes of section 5.5 of RFC 6455, and the close frame. */
module CloseFrame {
  import opened Prelude
  import opened Utf8
  import opened Wire
  import opened WireRoundTrip
  import opened WireSerializer

  const MAX_CLOSE_REASON_BYTES: nat := 123

  // ----- reference: how much of a text fits -----

  /** The most scalars of `s` that encode to at most `max` bytes. */
  function FitCount(s: Text, max: nat): (j: nat)
    ensures j <= |s| && Offset(s, j) <= max
    ensures j < |s| ==> Offset(s, j + 1) > max
  {
    FitFrom(s, max, 0)
  }

  function FitFrom(s: Text, max: nat, from: nat): (j: nat)
    requires from <= |s| && Offset(s, from) <= max
    ensures from <= j <= |s| && Offset(s, j) <= max
    ensures j < |s| ==> Offset(s, j + 1) > max
    decreases |s| - from
  {
    if from < |s| && Offset(s, from + 1) <= max then FitFrom(s, max, from + 1) else from
  }

  lemma FitCountUnique(s: Text, max: nat, j: nat)
    requires j <= |s| && Offset(s, j) <= max
    requires j < |s| ==> Offset(s, j + 1) > max
    ensures j == FitCount(s, max)
  {
    var k := FitCount(s, max);
    if j < k {
      OffsetMonotone(s, j + 1, k);
    } else if k < j {
      OffsetMonotone(s, k + 1, j);
    }
  }

  lemma WholeTextFits(s: Text, max: nat)
    ensures FitCount(s, max) == |s| <==> |Encode(s)| <= max
  {
    assert s[..|s|] == s;
    if |Encode(s)| <= max {
      FitCountUnique(s, max, |s|);
    }
  }

  /**
   * Text that fits is left alone; otherwise the longest prefix whose encoding fits, less a leading
   * U+FEFF, which the decoder drops.
   */
  function Truncated(s: Text, max: nat): Text {
    if |Encode(s)| <= max then s else StripBom(s[..FitCount(s, max)])
  }

  lemma TruncatedFits(s: Text, max: nat)
    ensures |Encode(Truncated(s, max))| <= max
    ensures !(s != [] && s[0] == BOM) ==> Truncated(s, max) == s[..FitCount(s, max)]
  {
    WholeTextFits(s, max);
    assert s[..|s|] == s;
    StripBomShrinks(s[..FitCount(s, max)]);
  }

  /** The longest fitting prefix is what comes out, except of an over-long text whose leading U+FEFF fits. */
  lemma PrefixExactly(s: Text, max: nat)
    ensures Truncated(s, max) == s[..FitCount(s, max)] <==> |Encode(s)| <= max || max < 3 || s == [] || s[0] != BOM
  {
    WholeTextFits(s, max);
    assert s[..|s|] == s;
    if |Encode(s)| > max && s != [] && s[0] == BOM {
      assert s[..1] == [BOM] && Encode(s[1..][..0]) == [];
      OffsetStep(s, 0);
      assert Offset(s, 1) == 3;
      if FitCount(s, max) == 0 {
        assert max < 3;
      } else {
        OffsetMonotone(s, 1, FitCount(s, max));
      }
    }
  }

  function Letters(n: nat): Text {
    if n == 0 then [] else Letters(n - 1) + [97]
  }

  lemma {:induction false} LettersEncode(n: nat)
    ensures |Letters(n)| == n && |Encode([BOM] + Letters(n))| == n + 3
  {
    if n == 0 {
      assert [BOM] + [] == [BOM] && [BOM][1..] == [];
    } else {
      LettersEncode(n - 1);
      var s := [BOM] + Letters(n);
      assert s[..n] == [BOM] + Letters(n - 1) && s[n..] == [97] && [97][1..] == [];
      EncodeSplits(s, n);
      assert |Encode([97])| == 1;
    }
  }

  lemma LettersPrefix(n: nat, k: nat)
    requires k <= n
    ensures |Letters(n)| == n && Letters(n)[..k] == Letters(k)
    decreases n
  {
    LettersEncode(n);
    if k < n {
      LettersPrefix(n - 1, k);
    }
  }

  /** A reason of one U+FEFF and 121 letters is a byte too long; it loses its last letter and the U+FEFF. */
  lemma LeadingBomIsLost()
    ensures var s := [BOM] + Letters(121);
      && Truncated(s, MAX_CLOSE_REASON_BYTES) == Letters(120)
      && s[..FitCount(s, MAX_CLOSE_REASON_BYTES)] == [BOM] + Letters(120)
  {
    var s := [BOM] + Letters(121);
    LettersEncode(121);
    LettersEncode(120);
    LettersPrefix(121, 120);
    assert s[..121] == [BOM] + Letters(120) && s[..122] == s;
    FitCountUnique(s, MAX_CLOSE_REASON_BYTES, 121);
  }

  lemma StripBomShrinks(s: Text)
    ensures |Encode(StripBom(s))| <= |Encode(s)|
  {
  }

  // ----- closeFrame.ts: forward walk -----

  /** Bytes in the sequence a lead byte starts; 0 for a stray continuation byte. */
  function SequenceLength(b: Byte): nat {
    if b < 0x80 then 1
    else if 0xC0 <= b < 0xE0 then 2
    else if 0xE0 <= b < 0xF0 then 3
    else if 0xF0 <= b < 0xF8 then 4
    else 0
  }

  method TruncateUtf8(s: Text, maxBytes: nat) returns (r: Text)
    ensures r == Truncated(s, maxBytes)
  {
    var buf := Encode(s);
    if |buf| <= maxBytes {
      return s;
    }
    var i := 0;
    ghost var k := 0;
    assert s[..|s|] == s;
    while i < maxBytes
      invariant k <= |s| && i == Offset(s, k) <= maxBytes
    {
      OffsetStep(s, k);
      var b := buf[i];
      assert b == EncodeScalar(s[k])[0];
      // TextEncoder emits no stray continuation byte, so the walk always stands on a lead byte.
      var seqLen := SequenceLength(b);
      if i + seqLen > maxBytes {
        break;
      }
      i := i + seqLen;
      k := k + 1;
    }
    if k < |s| {
      OffsetStep(s, k);
    }
    FitCountUnique(s, maxBytes, k);
    EncodeSplits(s, k);
    assert buf[..i] == Encode(s[..k]);
    DecodeTextInverts(s[..k]);
    r := DecodeText(buf[..i]);
  }

  // ----- TLayer.ts: backward walk -----

  /** Walking back from `end`: stop after an ASCII byte, or before a lead byte. */
  function CutBefore(p: seq<Byte>, end: nat): (cut: nat)
    requires end <= |p|
    ensures cut <= end
    ensures forall i :: cut < i < end ==> 0x80 <= p[i] < 0xC0
    ensures cut == 0 || p[cut - 1] < 0x80 || (cut < end && p[cut] >= 0xC0)
  {
    if end == 0 then 0
    else if p[end - 1] < 0x80 then end
    else if p[end - 1] >= 0xC0 then end - 1
    else CutBefore(p, end - 1)
  }

  /** The bytes a kick carries for any payload. */
  function KickReason(payload: seq<Byte>): (r: seq<Byte>)
    ensures |r| <= MAX_CLOSE_REASON_BYTES && r <= payload
  {
    if |payload| <= MAX_CLOSE_REASON_BYTES then payload
    else payload[..CutBefore(payload, MAX_CLOSE_REASON_BYTES)]
  }

  predicate IsContinuation(b: Byte) {
    0x80 <= b < 0xC0
  }

  /** Cut right after an ASCII byte or right before a lead byte; from there to the limit all bytes are continuations. */
  ghost predicate CutBack(payload: seq<Byte>, cut: nat)
    requires cut <= MAX_CLOSE_REASON_BYTES < |payload|
  {
    && (forall i :: cut < i < MAX_CLOSE_REASON_BYTES ==> IsContinuation(payload[i]))
    && if cut < MAX_CLOSE_REASON_BYTES && payload[cut] >= 0xC0 then true
      else
        && (cut < MAX_CLOSE_REASON_BYTES ==> IsContinuation(payload[cut]))
        && (cut > 0 ==> payload[cut - 1] < 0x80)
  }

  /** Of the payload a kick carries everything that fits, and otherwise what is left of the limit when cut back. */
  ghost predicate Kicked(payload: seq<Byte>, r: seq<Byte>) {
    if |payload| <= MAX_CLOSE_REASON_BYTES then r == payload
    else |r| <= MAX_CLOSE_REASON_BYTES && r == payload[..|r|] && CutBack(payload, |r|)
  }

  lemma KickReasonIs(payload: seq<Byte>)
    ensures Kicked(payload, KickReason(payload))
  {
    if |payload| > MAX_CLOSE_REASON_BYTES {
      CutBeforeIs(payload, MAX_CLOSE_REASON_BYTES);
    }
  }

  lemma {:induction false} CutBeforeIs(p: seq<Byte>, end: nat)
    requires end <= MAX_CLOSE_REASON_BYTES < |p|
    requires forall i :: end <= i < MAX_CLOSE_REASON_BYTES ==> IsContinuation(p[i])
    ensures CutBack(p, CutBefore(p, end))
  {
    if end > 0 && 0x80 <= p[end - 1] < 0xC0 {
      CutBeforeIs(p, end - 1);
    }
  }

  method TruncateCloseReason(payload: seq<Byte>) returns (r: seq<Byte>)
    ensures |payload| <= 123 ==> r == payload
    ensures Kicked(payload, r) && r == KickReason(payload)
  {
    KickReasonIs(payload);
    if |payload| <= MAX_CLOSE_REASON_BYTES {
      return payload;
    }
    var end := MAX_CLOSE_REASON_BYTES;
    while end > 0
      invariant 0 <= end <= MAX_CLOSE_REASON_BYTES
      invariant CutBefore(payload, MAX_CLOSE_REASON_BYTES) == CutBefore(payload, end)
    {
      var b := payload[end - 1];
      if b < 0x80 {
        break;
      }
      if b >= 0xC0 {
        end := end - 1;
        break;
      }
      end := end - 1;
    }
    r := payload[..end];
  }

  lemma ScalarBytes(c: Scalar)
    ensures var e := EncodeScalar(c);
            (|e| == 1 ==> e[0] < 0x80) && (|e| > 1 ==> e[0] >= 0xC0) && forall i :: 1 <= i < |e| ==> 0x80 <= e[i] < 0xC0
  {
  }

  lemma CutInScalar(s: Text, k: nat)
    requires k < |s| && Offset(s, k) < MAX_CLOSE_REASON_BYTES <= Offset(s, k + 1)
    ensures |Encode(s)| >= MAX_CLOSE_REASON_BYTES
    ensures var cut := CutBefore(Encode(s), MAX_CLOSE_REASON_BYTES);
            && cut == (if s[k] < 0x80 then Offset(s, k + 1) else Offset(s, k))
            && (s[k] < 0x80 ==> cut == MAX_CLOSE_REASON_BYTES)
            && MAX_CLOSE_REASON_BYTES - 4 <= cut <= MAX_CLOSE_REASON_BYTES
  {
    OffsetStep(s, k);
    WalkBackFromScalar(Encode(s), Offset(s, k), s[k], MAX_CLOSE_REASON_BYTES);
  }

  lemma WalkBackFromScalar(b: seq<Byte>, at: nat, c: Scalar, end: nat)
    requires at < end <= at + |EncodeScalar(c)| <= |b| && b[at..at + |EncodeScalar(c)|] == EncodeScalar(c)
    ensures CutBefore(b, end) == if c < 0x80 then at + 1 else at
  {
    ScalarBytes(c);
    forall i | at <= i < end
      ensures b[i] == EncodeScalar(c)[i - at]
    {
      assert b[i] == b[at..at + |EncodeScalar(c)|][i - at];
    }
    WalkBack(b, at, end);
  }

  /** From inside a scalar that starts at `at`, the walk reaches `at`, or `at + 1` for ASCII. */
  lemma {:induction false} WalkBack(b: seq<Byte>, at: nat, end: nat)
    requires at < end <= |b|
    requires forall i :: at < i < end ==> 0x80 <= b[i] < 0xC0
    requires b[at] < 0x80 || b[at] >= 0xC0
    ensures CutBefore(b, end) == if b[at] < 0x80 then at + 1 else at
  {
    if end > at + 1 {
      WalkBack(b, at, end - 1);
    }
  }

  /** The scalar that holds the last byte within the limit. */
  lemma LastWithin(s: Text) returns (k: nat)
    requires |Encode(s)| > MAX_CLOSE_REASON_BYTES
    ensures k < |s| && Offset(s, k) <= MAX_CLOSE_REASON_BYTES - 1 < Offset(s, k + 1)
  {
    k := FitCount(s, MAX_CLOSE_REASON_BYTES - 1);
    WholeTextFits(s, MAX_CLOSE_REASON_BYTES - 1);
  }

  /** There is one place to cut. */
  lemma KickedIsOne(payload: seq<Byte>, r: seq<Byte>)
    requires Kicked(payload, r)
    ensures r == KickReason(payload)
  {
    KickReasonIs(payload);
  }

  /**
   * A text that is too long loses the scalar that holds byte 122 and all that follows; that scalar stays only if it
   * is ASCII.  At most four of the 123 bytes are given away.
   */
  lemma KickedText(s: Text, r: seq<Byte>, k: nat)
    requires Kicked(Encode(s), r) && |Encode(s)| > MAX_CLOSE_REASON_BYTES
    requires k < |s| && Offset(s, k) <= MAX_CLOSE_REASON_BYTES - 1 < Offset(s, k + 1)
    ensures r == Encode(s[..if s[k] < 0x80 then k + 1 else k])
    ensures 119 <= |r| <= 123
  {
    KickedIsOne(Encode(s), r);
    CutInScalar(s, k);
    EncodeSplits(s, if s[k] < 0x80 then k + 1 else k);
  }

  /** What the receiver reads from a kick: a prefix of the reason that was sent. */
  lemma KickReasonIsPrefix(s: Text, r: seq<Byte>) returns (j: nat)
    requires Kicked(Encode(s), r)
    ensures j <= |s| && r == Encode(s[..j]) && (j == |s| <==> |Encode(s)| <= MAX_CLOSE_REASON_BYTES)
    ensures DecodeText(r) == StripBom(s[..j])
  {
    assert s[..|s|] == s;
    if |Encode(s)| <= MAX_CLOSE_REASON_BYTES {
      j := |s|;
    } else {
      var k := LastWithin(s);
      KickedText(s, r, k);
      j := if s[k] < 0x80 then k + 1 else k;
    }
    DecodeTextInverts(s[..j]);
  }

  /** The receiver reads the reason that was sent exactly if that fits and does not start with U+FEFF. */
  lemma KickReasonArrivesExactly(s: Text, r: seq<Byte>)
    requires Kicked(Encode(s), r)
    ensures DecodeText(r) == s <==> |Encode(s)| <= 123 && !(s != [] && s[0] == BOM)
  {
    var j := KickReasonIsPrefix(s, r);
    assert s[..|s|] == s;
  }

  /** A reason that went through a kick is not shortened again for the close frame. */
  lemma KickReasonFitsCloseFrame(s: Text, r: seq<Byte>)
    requires Kicked(Encode(s), r)
    ensures Truncated(DecodeText(r), MAX_CLOSE_REASON_BYTES) == DecodeText(r)
  {
    var j := KickReasonIsPrefix(s, r);
    StripBomShrinks(s[..j]);
  }

  // ----- the close frame -----

  const CLOSE_FRAME_MODEL := "rivalis_close_frame"

  const CLOSE_FIELDS: seq<Field> := [Field("code", TUint32, Required), Field("reason", TString, Required)]

  const CLOSE_SCHEMA: Schema := Schema(map[CLOSE_FRAME_MODEL := CLOSE_FIELDS], map[])

  function CloseMessage(code: int, reason: Text): Message {
    map["code" := Num(code), "reason" := Str(reason)]
  }

  method GetSerializer() returns (s: Serializer)
    ensures fresh(s) && s.Schema() == CLOSE_SCHEMA
  {
    s := new Serializer();
    s.Define(CLOSE_FRAME_MODEL, CLOSE_FIELDS);
  }

  /**
   * Decoding a close frame gives the code as a 32-bit number and the truncated reason; a U+FEFF that
   * truncation left in front is dropped then.
   */
  method EncodeCloseFrame(code: int, reason: Text) returns (frame: seq<Byte>)
    ensures ReadMessage(CLOSE_SCHEMA, CLOSE_FRAME_MODEL, frame)
         == Ok(CloseMessage(ToUint32(code), StripBom(Truncated(reason, MAX_CLOSE_REASON_BYTES))))
  {
    var truncated := TruncateUtf8(reason, MAX_CLOSE_REASON_BYTES);
    TruncatedFits(reason, MAX_CLOSE_REASON_BYTES);
    var s := GetSerializer();
    var m := CloseMessage(code, truncated);
    CloseSchemaOk(m, truncated);
    CloseFrameFits(code, truncated);
    var r := s.Encode(CLOSE_FRAME_MODEL, m);
    frame := r.value;
    RoundTrip(CLOSE_SCHEMA, CLOSE_SCHEMA, CLOSE_FRAME_MODEL, m);
    CloseNormal(code, truncated);
  }

  lemma CloseSchemaOk(m: Message, reason: Text)
    requires "code" in m && m["code"].Num? && "reason" in m && m["reason"] == Str(reason)
    ensures WellFormed(CLOSE_SCHEMA) && AllDistinctKeys(CLOSE_SCHEMA) && Extends(CLOSE_SCHEMA, CLOSE_SCHEMA)
    ensures Kinded(CLOSE_SCHEMA, CLOSE_FRAME_MODEL, m)
  {
    assert WellFormedType(CLOSE_SCHEMA, CLOSE_FRAME_MODEL);
    assert FieldKinded(CLOSE_SCHEMA, CLOSE_FIELDS[0], m["code"]);
    assert FieldKinded(CLOSE_SCHEMA, CLOSE_FIELDS[1], m["reason"]);
  }

  lemma CloseFrameFits(code: int, reason: Text)
    requires |Encode(reason)| <= MAX_CLOSE_REASON_BYTES
    requires WellFormed(CLOSE_SCHEMA) && Kinded(CLOSE_SCHEMA, CLOSE_FRAME_MODEL, CloseMessage(code, reason))
    ensures WriteMessage(CLOSE_SCHEMA, CLOSE_FRAME_MODEL, CloseMessage(code, reason)).Ok?
  {
    var s, t, m := CLOSE_SCHEMA, CLOSE_FRAME_MODEL, CloseMessage(code, reason);
    assert WriteFields(s, t, m, 2) == Ok([]);
    assert WriteField(s, t, m, 1).Ok?;
    assert WriteFields(s, t, m, 1).Ok?;
    assert WriteField(s, t, m, 0).Ok?;
  }

  lemma CloseNormal(code: int, reason: Text)
    requires WellFormed(CLOSE_SCHEMA) && Kinded(CLOSE_SCHEMA, CLOSE_FRAME_MODEL, CloseMessage(code, reason))
    ensures Normal(CLOSE_SCHEMA, CLOSE_FRAME_MODEL, CloseMessage(code, reason))
         == CloseMessage(ToUint32(code), StripBom(reason))
  {
    var s, t, m := CLOSE_SCHEMA, CLOSE_FRAME_MODEL, CloseMessage(code, reason);
    assert NormalFields(s, t, m, 0) == map[];
    assert NormalField(s, t, m, 0) == Some(Num(ToUint32(code)));
    assert NormalFields(s, t, m, 1) == map["code" := Num(ToUint32(code))];
    assert NormalField(s, t, m, 1) == Some(Str(StripBom(reason)));
  }
}
