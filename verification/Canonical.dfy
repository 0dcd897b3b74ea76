/**
 * Canonical JSON: keys sorted by UTF-16 code units, strings quoted as section 7 of RFC 8259 asks,
 * undefined values skipped in objects and null in arrays.  Two values get the same text exactly when
 * they are the same data up to key order.
 */
module Canonical {
  import opened Prelude

  /** A UTF-16 code unit, lone surrogates included. */
  type Unit = c: int | 0 <= c < 0x1_0000

  type Str = seq<Unit>

  /** An object keeps its entries in insertion order; numbers here are integers or not finite. */
  datatype Json =
    | Null
    | Undef
    | Bool(b: bool)
    | Int(n: int)
    | NonFinite
    | Text(s: Str)
    | Arr(items: seq<Json>)
    | Obj(entries: seq<Entry>)

  datatype Entry = Entry(key: Str, value: Json)

  /** JavaScript objects have one entry per key, and counts print in full below 10^21. */
  ghost predicate WellFormed(v: Json)
    decreases v
  {
    match v
    case Int(n) => -(MAX_SAFE as int) <= n <= MAX_SAFE
    case Arr(items) => forall i :: 0 <= i < |items| ==> WellFormed(items[i])
    case Obj(entries) =>
      && (forall i, j :: 0 <= i < j < |entries| ==> entries[i].key != entries[j].key)
      && forall i :: 0 <= i < |entries| ==> WellFormed(entries[i].value)
    case _ => true
  }

  // ----- the order on keys -----

  /** `a < b` on JavaScript strings: by code unit, a proper prefix first. */
  predicate Less(a: Str, b: Str) {
    if b == [] then false
    else if a == [] then true
    else if a[0] != b[0] then a[0] < b[0]
    else Less(a[1..], b[1..])
  }

  lemma {:induction false} LessTotal(a: Str, b: Str)
    ensures Less(a, b) || Less(b, a) <==> a != b
    ensures !(Less(a, b) && Less(b, a))
  {
    if a != [] && b != [] && a[0] == b[0] {
      LessTotal(a[1..], b[1..]);
      assert a == [a[0]] + a[1..] && b == [b[0]] + b[1..];
    }
  }

  lemma {:induction false} LessTransitive(a: Str, b: Str, c: Str)
    requires Less(a, b) && Less(b, c)
    ensures Less(a, c)
  {
    if a != [] && a[0] == b[0] && b[0] == c[0] {
      LessTransitive(a[1..], b[1..], c[1..]);
    }
  }

  /** One string comes before another exactly if it is smaller where they first differ, or ends there. */
  lemma {:induction false} LessExactly(a: Str, b: Str)
    ensures Less(a, b) <==> exists n ::
      0 <= n <= |a| && n < |b| && a[..n] == b[..n] && (n == |a| || a[n] < b[n])
  {
    if a != [] && b != [] && a[0] == b[0] {
      LessExactly(a[1..], b[1..]);
      if n :| 0 <= n <= |a[1..]| && n < |b[1..]| && a[1..][..n] == b[1..][..n]
              && (n == |a[1..]| || a[1..][n] < b[1..][n]) {
        assert a[..n + 1] == [a[0]] + a[1..][..n] && b[..n + 1] == [b[0]] + b[1..][..n];
      }
      if n :| 0 <= n <= |a| && n < |b| && a[..n] == b[..n] && (n == |a| || a[n] < b[n]) {
        assert n > 0 && a[1..][..n - 1] == a[..n][1..] && b[1..][..n - 1] == b[..n][1..];
      }
    } else if b != [] {
      assert a[..0] == b[..0];
      if n :| 0 < n <= |a| && n < |b| && a[..n] == b[..n] && (n == |a| || a[n] < b[n]) {
        assert a[..n][0] == b[..n][0];
      }
    }
  }

  // ----- quoting -----

  function HexDigit(d: nat): Unit
    requires d < 16
  {
    if d < 10 then 0x30 + d else 0x61 + d - 10
  }

  /** `\uXXXX` */
  function HexEscape(u: Unit): Str {
    [0x5C, 0x75, HexDigit(u / 16 / 16 / 16), HexDigit(u / 16 / 16 % 16), HexDigit(u / 16 % 16), HexDigit(u % 16)]
  }

  predicate HighSurrogate(u: Unit) { 0xD800 <= u < 0xDC00 }

  predicate LowSurrogate(u: Unit) { 0xDC00 <= u < 0xE000 }

  /** Is unit `i` half of a surrogate pair? */
  predicate Paired(s: Str, i: nat)
    requires i < |s|
  {
    (HighSurrogate(s[i]) && i + 1 < |s| && LowSurrogate(s[i + 1]))
    || (LowSurrogate(s[i]) && i > 0 && HighSurrogate(s[i - 1]))
  }

  function Escape(u: Unit, paired: bool): (e: Str)
    ensures e != []
  {
    if u == 0x22 || u == 0x5C then [0x5C, u]
    else if u == 0x08 then [0x5C, 0x62]
    else if u == 0x09 then [0x5C, 0x74]
    else if u == 0x0A then [0x5C, 0x6E]
    else if u == 0x0C then [0x5C, 0x66]
    else if u == 0x0D then [0x5C, 0x72]
    else if u < 0x20 then HexEscape(u)
    else if (HighSurrogate(u) || LowSurrogate(u)) && !paired then HexEscape(u)
    else [u]
  }

  function QuoteFrom(s: Str, i: nat): Str
    requires i <= |s|
    decreases |s| - i
  {
    if i == |s| then [0x22] else Escape(s[i], Paired(s, i)) + QuoteFrom(s, i + 1)
  }

  /** `JSON.stringify` of a string. */
  function Quote(s: Str): Str {
    [0x22] + QuoteFrom(s, 0)
  }

  // ----- numbers -----

  function Digits(n: nat): (d: Str)
    ensures d != [] && forall i :: 0 <= i < |d| ==> 0x30 <= d[i] <= 0x39
  {
    if n < 10 then [0x30 + n] else Digits(n / 10) + [0x30 + n % 10]
  }

  function Decimal(n: int): Str {
    if n < 0 then [0x2D] + Digits(-n) else Digits(n)
  }

  // ----- the encoder -----

  const NULL: Str := [0x6E, 0x75, 0x6C, 0x6C]
  const TRUE: Str := [0x74, 0x72, 0x75, 0x65]
  const FALSE: Str := [0x66, 0x61, 0x6C, 0x73, 0x65]

  function InsertEntry(e: Entry, sorted: seq<Entry>): (r: seq<Entry>)
    ensures |r| == |sorted| + 1
    ensures forall x :: x in r <==> x == e || x in sorted
  {
    if sorted == [] || Less(e.key, sorted[0].key) then [e] + sorted
    else [sorted[0]] + InsertEntry(e, sorted[1..])
  }

  /** Entries in key order. */
  function SortEntries(entries: seq<Entry>): (r: seq<Entry>)
    ensures |r| == |entries|
    ensures forall x :: x in r <==> x in entries
  {
    if entries == [] then [] else InsertEntry(entries[0], SortEntries(entries[1..]))
  }

  function Defined(entries: seq<Entry>): (r: seq<Entry>)
    ensures forall x :: x in r <==> x in entries && x.value != Undef
  {
    if entries == [] then []
    else (if entries[0].value == Undef then [] else [entries[0]]) + Defined(entries[1..])
  }

  function Canonicalize(v: Json): Str
    decreases v, 2
  {
    match v
    case Null => NULL
    case Undef => NULL
    case NonFinite => NULL
    case Bool(b) => if b then TRUE else FALSE
    case Int(n) => Decimal(n)
    case Text(s) => Quote(s)
    case Arr(items) => [0x5B] + EncodeItems(v, items, 0)
    case Obj(entries) =>
      var kept := Defined(SortEntries(entries));
      assert forall x :: x in kept ==> x in entries;
      [0x7B] + EncodeEntries(v, kept, 0)
  }

  /** Elements `i` and later, separated by commas, and the closing bracket. */
  function EncodeItems(ghost v: Json, items: seq<Json>, i: nat): Str
    requires i <= |items| && v.Arr? && v.items == items
    decreases v, 1, |items| - i
  {
    if i == |items| then [0x5D]
    else (if i == 0 then [] else [0x2C]) + Canonicalize(items[i]) + EncodeItems(v, items, i + 1)
  }

  function EncodeEntries(ghost v: Json, entries: seq<Entry>, i: nat): Str
    requires i <= |entries| && v.Obj? && forall x :: x in entries ==> x in v.entries
    decreases v, 1, |entries| - i
  {
    if i == |entries| then [0x7D]
    else
      assert entries[i] in v.entries;
      (if i == 0 then [] else [0x2C]) + Quote(entries[i].key) + [0x3A] + Canonicalize(entries[i].value)
      + EncodeEntries(v, entries, i + 1)
  }
}
