/** A reader of JSON as sections 2 to 7 of RFC 8259 give it, for whole numbers and without whitespace between tokens. */
module JsonReader {
  import opened Prelude
  import opened Canonical
  import opened CanonicalInjective

  // ----- the reader -----

  function Ascii(word: string): (s: Str)
    requires forall i :: 0 <= i < |word| ==> word[i] < 128 as char
    ensures |s| == |word|
  {
    seq(|word|, i requires 0 <= i < |word| => word[i] as int)
  }

  function HexValue(u: Unit): (d: Option<nat>)
    ensures d.Some? ==> d.value < 16
  {
    if '0' as int <= u <= '9' as int then Some(u - '0' as int)
    else if 'a' as int <= u <= 'f' as int then Some(10 + u - 'a' as int)
    else if 'A' as int <= u <= 'F' as int then Some(10 + u - 'A' as int)
    else None
  }

  function ReadHex4(a: Unit, b: Unit, c: Unit, d: Unit): Option<Unit> {
    match (HexValue(a), HexValue(b), HexValue(c), HexValue(d))
    case (Some(p), Some(q), Some(r), Some(s)) => Some(((16 * p + q) * 16 + r) * 16 + s)
    case _ => None
  }

  /** What a two-character escape stands for. */
  function Unescape(u: Unit): Option<Unit> {
    if u == '"' as int || u == '\\' as int || u == '/' as int then Some(u)
    else if u == 'b' as int then Some(0x08)
    else if u == 'f' as int then Some(0x0C)
    else if u == 'n' as int then Some(0x0A)
    else if u == 'r' as int then Some(0x0D)
    else if u == 't' as int then Some(0x09)
    else None
  }

  /** The first character of the inside of a string: its code units, and how many units of text it takes. */
  function ReadChar(s: Str): (r: Option<(Str, nat)>)
    requires s != []
    ensures r.Some? ==> 1 <= r.value.1 <= |s|
  {
    if s[0] == '\\' as int then
      if |s| >= 6 && s[1] == 'u' as int then
        match ReadHex4(s[2], s[3], s[4], s[5])
        case None => None
        case Some(u) => Some(([u], 6))
      else if |s| >= 2 then
        match Unescape(s[1])
        case None => None
        case Some(u) => Some(([u], 2))
      else None
    else if s[0] < 0x20 || LowSurrogate(s[0]) then None
    else if HighSurrogate(s[0]) then
      if |s| >= 2 && LowSurrogate(s[1]) then Some((s[..2], 2)) else None
    else Some(([s[0]], 1))
  }

  /** The inside of a string up to its closing quote, and the text after it. */
  function ReadChars(s: Str): (r: Option<(Str, Str)>)
    ensures r.Some? ==> |r.value.1| < |s|
    decreases |s|
  {
    if s == [] then None
    else if s[0] == '"' as int then Some(([], s[1..]))
    else match ReadChar(s)
      case None => None
      case Some((units, n)) =>
        match ReadChars(s[n..])
        case None => None
        case Some((more, rest)) => Some((units + more, rest))
  }

  function DigitRun(s: Str): (n: nat)
    ensures n <= |s|
  {
    if s != [] && IsDigit(s[0]) then 1 + DigitRun(s[1..]) else 0
  }

  /** Digits without a leading zero. */
  function ReadDigits(s: Str): (r: Option<(int, Str)>)
    ensures r.Some? ==> |r.value.1| < |s|
  {
    var n := DigitRun(s);
    if n == 0 || (n > 1 && s[0] == '0' as int) then None else Some((NumberOf(s[..n]), s[n..]))
  }

  function ReadNumber(s: Str): (r: Option<(int, Str)>)
    requires s != []
    ensures r.Some? ==> |r.value.1| < |s|
  {
    if s[0] == '-' as int then
      match ReadDigits(s[1..])
      case None => None
      case Some((n, rest)) => Some((-n, rest))
    else ReadDigits(s)
  }

  predicate Starts(s: Str, word: Str) {
    |word| <= |s| && s[..|word|] == word
  }

  /** One value, and the text after it. */
  function ReadValue(s: Str): (r: Option<(Tree, Str)>)
    ensures r.Some? ==> |r.value.1| < |s|
    decreases |s|, 1
  {
    if s == [] then None
    else if Starts(s, Ascii("null")) then Some((TNull, s[4..]))
    else if Starts(s, Ascii("true")) then Some((TBool(true), s[4..]))
    else if Starts(s, Ascii("false")) then Some((TBool(false), s[5..]))
    else if s[0] == '"' as int then
      match ReadChars(s[1..])
      case None => None
      case Some((text, rest)) => Some((TText(text), rest))
    else if s[0] == '[' as int then
      if Starts(s[1..], Ascii("]")) then Some((TArr([]), s[2..]))
      else match ReadItems(s[1..])
        case None => None
        case Some((items, rest)) => Some((TArr(items), rest))
    else if s[0] == '{' as int then
      if Starts(s[1..], Ascii("}")) then Some((TObj([]), s[2..]))
      else match ReadMembers(s[1..])
        case None => None
        case Some((entries, rest)) => Some((TObj(entries), rest))
    else match ReadNumber(s)
      case None => None
      case Some((n, rest)) => Some((TInt(n), rest))
  }

  /** Values with commas between them, and a closing bracket. */
  function ReadItems(s: Str): (r: Option<(seq<Tree>, Str)>)
    ensures r.Some? ==> |r.value.1| < |s|
    decreases |s|, 2
  {
    match ReadValue(s)
    case None => None
    case Some((t, rest)) =>
      if Starts(rest, Ascii("]")) then Some(([t], rest[1..]))
      else if !Starts(rest, Ascii(",")) then None
      else match ReadItems(rest[1..])
        case None => None
        case Some((more, after)) => Some(([t] + more, after))
  }

  /** A string, a colon and a value. */
  function ReadMember(s: Str): (r: Option<(Branch, Str)>)
    ensures r.Some? ==> |r.value.1| < |s|
    decreases |s|, 2
  {
    if !Starts(s, Ascii("\"")) then None
    else match ReadChars(s[1..])
      case None => None
      case Some((key, rest)) =>
        if !Starts(rest, Ascii(":")) then None
        else match ReadValue(rest[1..])
          case None => None
          case Some((t, after)) => Some((Branch(key, t), after))
  }

  function ReadMembers(s: Str): (r: Option<(seq<Branch>, Str)>)
    ensures r.Some? ==> |r.value.1| < |s|
    decreases |s|, 3
  {
    match ReadMember(s)
    case None => None
    case Some((b, rest)) =>
      if Starts(rest, Ascii("}")) then Some(([b], rest[1..]))
      else if !Starts(rest, Ascii(",")) then None
      else match ReadMembers(rest[1..])
        case None => None
        case Some((more, after)) => Some(([b] + more, after))
  }

  /** A whole text. */
  function ReadJson(s: Str): Option<Tree> {
    match ReadValue(s)
    case None => None
    case Some((t, rest)) => if rest == [] then Some(t) else None
  }

  // ----- strings -----

  lemma HexInverts(u: Unit, r: Str)
    ensures ReadChar(HexEscape(u) + r) == Some(([u], 6))
  {
    var e := HexEscape(u) + r;
    assert e[0] == 0x5C && e[1] == 0x75;
    assert e[2] == HexDigit(u / 16 / 16 / 16) && e[3] == HexDigit(u / 16 / 16 % 16) && e[4] == HexDigit(u / 16 % 16)
      && e[5] == HexDigit(u % 16);
    assert ((16 * (u / 16 / 16 / 16) + u / 16 / 16 % 16) * 16 + u / 16 % 16) * 16 + u % 16 == u;
  }

  /** Position `i` is not inside a surrogate pair. */
  predicate Between(s: Str, i: nat)
    requires i <= |s|
  {
    0 < i < |s| ==> !(HighSurrogate(s[i - 1]) && LowSurrogate(s[i]))
  }

  lemma EscapeInverts(s: Str, i: nat, r: Str)
    requires i < |s| && Between(s, i) && !(HighSurrogate(s[i]) && Paired(s, i))
    ensures var e := Escape(s[i], Paired(s, i)); ReadChar(e + r) == Some(([s[i]], |e|)) && (e + r)[0] != 0x22
  {
    var u, e := s[i], Escape(s[i], Paired(s, i));
    assert (e + r)[0] == e[0];
    if e == HexEscape(u) {
      HexInverts(u, r);
    } else if |e| == 2 {
      assert (e + r)[1] == e[1];
    }
  }

  lemma PairReads(hi: Unit, lo: Unit, r: Str)
    requires HighSurrogate(hi) && LowSurrogate(lo)
    ensures ReadChar([hi, lo] + r) == Some(([hi, lo], 2)) && ([hi, lo] + r)[0] != 0x22
  {
    var e := [hi, lo] + r;
    assert e[0] == hi && e[1] == lo && e[..2] == [hi, lo];
  }

  lemma CharThenRest(e: Str, units: Str, rest: Str, more: Str, r: Str)
    requires e != [] && ReadChar(e + rest) == Some((units, |e|)) && (e + rest)[0] != 0x22
    requires ReadChars(rest) == Some((more, r))
    ensures ReadChars(e + rest) == Some((units + more, r))
  {
    hide ReadChar;
    assert (e + rest)[|e|..] == rest;
  }

  /** The rest of a string from position `i` on reads back. */
  ghost predicate ReadsFrom(s: Str, i: nat, r: Str)
    requires i <= |s|
  {
    ReadChars(QuoteFrom(s, i) + r) == Some((s[i..], r))
  }

  lemma EndReads(s: Str, r: Str)
    ensures ReadsFrom(s, |s|, r)
  {
    assert ([0x22] + r)[1..] == r && s[|s|..] == [];
  }

  lemma PairFrom(s: Str, i: nat, r: Str)
    requires i + 1 < |s| && HighSurrogate(s[i]) && Paired(s, i) && ReadsFrom(s, i + 2, r)
    ensures ReadsFrom(s, i, r)
  {
    hide ReadChar, ReadChars, QuoteFrom, Paired, HighSurrogate, LowSurrogate, Between;
    PairStep(s, i, r);
    PairReads(s[i], s[i + 1], QuoteFrom(s, i + 2) + r);
    CharThenRest([s[i], s[i + 1]], [s[i], s[i + 1]], QuoteFrom(s, i + 2) + r, s[i + 2..], r);
    assert s[i..] == [s[i], s[i + 1]] + s[i + 2..];
  }

  lemma SingleFrom(s: Str, i: nat, r: Str)
    requires i < |s| && Between(s, i) && !(HighSurrogate(s[i]) && Paired(s, i)) && ReadsFrom(s, i + 1, r)
    ensures ReadsFrom(s, i, r)
  {
    hide ReadChar, ReadChars, QuoteFrom, Escape, Paired, HighSurrogate, LowSurrogate, Between;
    SingleStep(s, i, r);
    var e, rest := Escape(s[i], Paired(s, i)), QuoteFrom(s, i + 1) + r;
    EscapeInverts(s, i, rest);
    CharThenRest(e, [s[i]], rest, s[i + 1..], r);
    assert s[i..] == [s[i]] + s[i + 1..];
  }

  lemma {:induction false} QuoteInverts(s: Str, i: nat, r: Str)
    requires i <= |s| && Between(s, i)
    ensures ReadsFrom(s, i, r)
    decreases |s| - i
  {
    hide ReadsFrom;
    if i == |s| {
      EndReads(s, r);
    } else if HighSurrogate(s[i]) && Paired(s, i) {
      PairStep(s, i, r);
      QuoteInverts(s, i + 2, r);
      PairFrom(s, i, r);
    } else {
      SingleStep(s, i, r);
      QuoteInverts(s, i + 1, r);
      SingleFrom(s, i, r);
    }
  }

  lemma SingleStep(s: Str, i: nat, r: Str)
    requires i < |s| && !(HighSurrogate(s[i]) && Paired(s, i))
    ensures Between(s, i + 1)
    ensures QuoteFrom(s, i) + r == Escape(s[i], Paired(s, i)) + (QuoteFrom(s, i + 1) + r)
  {
    hide Escape;
  }

  lemma PairStep(s: Str, i: nat, r: Str)
    requires i < |s| && HighSurrogate(s[i]) && Paired(s, i)
    ensures i + 1 < |s| && LowSurrogate(s[i + 1]) && Between(s, i + 2)
    ensures QuoteFrom(s, i) + r == [s[i], s[i + 1]] + (QuoteFrom(s, i + 2) + r)
  {
    assert Paired(s, i + 1);
    EscapePaired(s[i]);
    EscapePaired(s[i + 1]);
    hide Escape, Paired, HighSurrogate, LowSurrogate;
    assert QuoteFrom(s, i + 1) == [s[i + 1]] + QuoteFrom(s, i + 2);
    assert QuoteFrom(s, i) == [s[i]] + QuoteFrom(s, i + 1);
  }

  lemma EscapePaired(u: Unit)
    requires HighSurrogate(u) || LowSurrogate(u)
    ensures Escape(u, true) == [u]
  {
  }

  /** A quoted string reads back, whatever follows it. */
  lemma QuoteReadsBack(s: Str, r: Str)
    ensures Quote(s) + r != [] && (Quote(s) + r)[0] == 0x22 && ReadChars((Quote(s) + r)[1..]) == Some((s, r))
  {
    QuoteInverts(s, 0, r);
    hide QuoteFrom, ReadChars;
    var all := Quote(s) + r;
    assert all[1..] == QuoteFrom(s, 0) + r;
    assert s[0..] == s;
  }

  // ----- numbers -----

  lemma {:induction false} RunIs(d: Str, r: Str)
    requires AllDigits(d) && (r == [] || !IsDigit(r[0]))
    ensures DigitRun(d + r) == |d|
  {
    if d == [] {
      assert d + r == r;
    } else {
      assert (d + r)[1..] == d[1..] + r && (d + r)[0] == d[0];
      RunIs(d[1..], r);
    }
  }

  lemma {:induction false} NoLeadingZero(n: nat)
    ensures n > 0 ==> Digits(n)[0] != 0x30
    ensures n < 10 <==> |Digits(n)| == 1
  {
    if n >= 10 {
      NoLeadingZero(n / 10);
      assert Digits(n)[0] == Digits(n / 10)[0];
    }
  }

  lemma DigitsReadBack(n: nat, r: Str)
    requires Delimited(r)
    ensures ReadDigits(Digits(n) + r) == Some((n, r))
  {
    var d := Digits(n);
    RunIs(d, r);
    NoLeadingZero(n);
    NumberOfDigits(n);
    assert (d + r)[..|d|] == d && (d + r)[|d|..] == r && (d + r)[0] == d[0];
  }

  lemma DecimalReadsBack(n: int, r: Str)
    requires Delimited(r)
    ensures ReadNumber(Decimal(n) + r) == Some((n, r))
  {
    hide ReadDigits, Digits, IsDigit, Delimited;
    if n < 0 {
      NegativeReadsBack(n, r);
    } else {
      DigitsReadBack(n, r);
      assert (Decimal(n) + r)[0] == Digits(n)[0] != 0x2D;
    }
  }

  lemma NegativeReadsBack(n: int, r: Str)
    requires n < 0 && Delimited(r)
    ensures ReadNumber([0x2D] + Digits(-n) + r) == Some((n, r))
  {
    DigitsReadBack(-n, r);
    hide ReadDigits, Digits, IsDigit, Delimited;
    var all := [0x2D] + Digits(-n) + r;
    assert all[0] == 0x2D && all[1..] == Digits(-n) + r;
  }

  // ----- values -----

  lemma WordsAre()
    ensures Ascii("null") == NULL && Ascii("true") == TRUE && Ascii("false") == FALSE
    ensures Ascii("]") == [0x5D] && Ascii("}") == [0x7D] && Ascii(",") == [0x2C] && Ascii(":") == [0x3A]
  {
  }

  lemma StartsHead(s: Str, u: Unit)
    ensures Starts(s, [u]) <==> s != [] && s[0] == u
  {
    if s != [] {
      assert s[..1] == [s[0]];
    }
  }

  lemma StartsWord(word: Str, r: Str)
    ensures Starts(word + r, word) && (word + r)[|word|..] == r
  {
  }

  lemma StartsNot(s: Str, word: Str)
    requires s != [] && word != [] && s[0] != word[0]
    ensures !Starts(s, word)
  {
  }

  /** A text that starts like no word is read by its first character. */
  lemma NoWord(s: Str)
    requires s != [] && s[0] != 0x6E && s[0] != 0x74 && s[0] != 0x66
    ensures !Starts(s, Ascii("null")) && !Starts(s, Ascii("true")) && !Starts(s, Ascii("false"))
  {
    WordsAre();
    StartsNot(s, NULL);
    StartsNot(s, TRUE);
    StartsNot(s, FALSE);
  }

  lemma ArrayOpens(s: Str)
    requires s != [] && s[0] == 0x5B
    ensures Starts(s[1..], [0x5D]) ==> ReadValue(s) == Some((TArr([]), s[2..]))
    ensures forall items, rest | !Starts(s[1..], [0x5D]) && ReadItems(s[1..]) == Some((items, rest)) ::
      ReadValue(s) == Some((TArr(items), rest))
  {
    hide ReadItems, ReadMembers, ReadNumber, ReadChars, Starts;
    WordsAre();
    NoWord(s);
  }

  lemma ObjectOpens(s: Str)
    requires s != [] && s[0] == 0x7B
    ensures Starts(s[1..], [0x7D]) ==> ReadValue(s) == Some((TObj([]), s[2..]))
    ensures forall entries, rest | !Starts(s[1..], [0x7D]) && ReadMembers(s[1..]) == Some((entries, rest)) ::
      ReadValue(s) == Some((TObj(entries), rest))
  {
    hide ReadItems, ReadMembers, ReadNumber, ReadChars, Starts;
    WordsAre();
    NoWord(s);
  }

  lemma TextReadsBack(text: Str, r: Str)
    ensures ReadValue(Quote(text) + r) == Some((TText(text), r))
  {
    hide ReadChars, Quote, Starts, ReadItems, ReadMembers, ReadNumber;
    QuoteReadsBack(text, r);
    NoWord(Quote(text) + r);
  }

  lemma NumberReadsBack(n: int, r: Str)
    requires Delimited(r)
    ensures ReadValue(Decimal(n) + r) == Some((TInt(n), r))
  {
    DecimalReadsBack(n, r);
    DecimalStarts(n, r);
    hide ReadChars, Starts, ReadItems, ReadMembers, ReadNumber, Decimal;
    NoWord(Decimal(n) + r);
  }

  lemma DecimalStarts(n: int, r: Str)
    ensures Decimal(n) + r != [] && ((Decimal(n) + r)[0] == 0x2D || IsDigit((Decimal(n) + r)[0]))
  {
    assert (Decimal(n) + r)[0] == Decimal(n)[0];
  }

  lemma WordReadsBack(t: Tree, r: Str)
    requires t.TNull? || t.TBool?
    ensures ReadValue(Print(t) + r) == Some((t, r))
  {
    WordsAre();
    hide ReadItems, ReadMembers, ReadNumber, ReadChars;
    var s := Print(t) + r;
    StartsWord(Print(t), r);
    assert s[0] == Print(t)[0];
    hide Starts, Ascii;
    if !t.TNull? {
      StartsNot(s, NULL);
      if !t.b {
        StartsNot(s, TRUE);
      }
    }
  }

  /** What is left of an opened array or object, and then any text. */
  ghost predicate ItemsBack(items: seq<Tree>, r: Str)
    requires items != []
  {
    ReadItems(Print(items[0]) + (PrintItems(items[1..], false) + r)) == Some((items, r))
  }

  lemma OpenItems(items: seq<Tree>, r: Str)
    requires items != [] ==> ItemsBack(items, r)
    ensures ReadValue([0x5B] + PrintItems(items, true) + r) == Some((TArr(items), r))
  {
    hide ReadValue, ReadItems, Print;
    var s := [0x5B] + PrintItems(items, true) + r;
    assert s[0] == 0x5B && s[1..] == PrintItems(items, true) + r;
    ArrayOpens(s);
    ItemsStart(items, true);
    StartsHead(s[1..], 0x5D);
    if items == [] {
      assert s[2..] == r;
    } else {
      hide PrintItems;
      ItemParts(items, true, r);
      assert s[1..] == Print(items[0]) + (PrintItems(items[1..], false) + r);
    }
  }

  lemma ItemsGoOn(items: seq<Tree>, r: Str)
    requires items != [] && (|items| > 1 ==> ItemsBack(items[1..], r))
    requires var x := PrintItems(items[1..], false) + r; ReadValue(Print(items[0]) + x) == Some((items[0], x))
    ensures ItemsBack(items, r)
  {
    hide ReadValue, Print;
    var x := PrintItems(items[1..], false) + r;
    WordsAre();
    StartsHead(x, 0x5D);
    StartsHead(x, 0x2C);
    hide Starts, Ascii;
    if |items| == 1 {
      assert x == [0x5D] + r && x[1..] == r;
      assert items == [items[0]];
    } else {
      ItemParts(items[1..], false, r);
      var y := Print(items[1]) + (PrintItems(items[2..], false) + r);
      assert items[1..][0] == items[1] && items[1..][1..] == items[2..];
      assert x == [0x2C] + y && x[1..] == y;
      assert items == [items[0]] + items[1..];
    }
  }

  lemma DelimitedAfter(x: Str, r: Str)
    requires x != [] && Delimited(x)
    ensures Delimited(x + r)
  {
    assert (x + r)[0] == x[0];
  }

  /** What is left of an opened object, and then any text. */
  ghost predicate MembersBack(entries: seq<Branch>, r: Str)
    requires entries != []
  {
    ReadMembers(Quote(entries[0].key) + ([0x3A] + (Print(entries[0].tree) + (PrintBranches(entries[1..], false) + r))))
      == Some((entries, r))
  }

  lemma MemberBack(b: Branch, x: Str)
    requires ReadValue(Print(b.tree) + x) == Some((b.tree, x))
    ensures ReadMember(Quote(b.key) + ([0x3A] + (Print(b.tree) + x))) == Some((b, x))
  {
    hide ReadValue, Print, Quote, ReadChars;
    var y := [0x3A] + (Print(b.tree) + x);
    QuoteReadsBack(b.key, y);
    WordsAre();
    StartsHead(Quote(b.key) + y, 0x22);
    StartsHead(y, 0x3A);
    assert Ascii("\"") == [0x22];
    hide Starts, Ascii;
    assert y[1..] == Print(b.tree) + x;
  }

  lemma MembersGoOn(entries: seq<Branch>, r: Str)
    requires entries != [] && (|entries| > 1 ==> MembersBack(entries[1..], r))
    requires var x := PrintBranches(entries[1..], false) + r;
      ReadValue(Print(entries[0].tree) + x) == Some((entries[0].tree, x))
    ensures MembersBack(entries, r)
  {
    hide ReadValue, Print, Quote, ReadMember;
    var x := PrintBranches(entries[1..], false) + r;
    MemberBack(entries[0], x);
    WordsAre();
    StartsHead(x, 0x7D);
    StartsHead(x, 0x2C);
    hide Starts, Ascii;
    if |entries| == 1 {
      assert x == [0x7D] + r && x[1..] == r;
      assert entries == [entries[0]];
    } else {
      BranchParts(entries[1..], false, r);
      var b := entries[1];
      var y := Quote(b.key) + ([0x3A] + (Print(b.tree) + (PrintBranches(entries[2..], false) + r)));
      assert entries[1..][0] == b && entries[1..][1..] == entries[2..];
      assert x == [0x2C] + y && x[1..] == y;
      assert entries == [entries[0]] + entries[1..];
    }
  }

  lemma OpenMembers(entries: seq<Branch>, r: Str)
    requires entries != [] ==> MembersBack(entries, r)
    ensures ReadValue([0x7B] + PrintBranches(entries, true) + r) == Some((TObj(entries), r))
  {
    hide ReadValue, ReadMembers, Print, Quote;
    var s := [0x7B] + PrintBranches(entries, true) + r;
    assert s[0] == 0x7B && s[1..] == PrintBranches(entries, true) + r;
    ObjectOpens(s);
    BranchesStart(entries, true);
    StartsHead(s[1..], 0x7D);
    if entries == [] {
      assert s[2..] == r;
    } else {
      hide PrintBranches;
      BranchParts(entries, true, r);
      assert s[1..] ==
        Quote(entries[0].key) + ([0x3A] + (Print(entries[0].tree) + (PrintBranches(entries[1..], false) + r)));
    }
  }

  /** Printed data reads back, whatever delimiter follows it. */
  lemma {:induction false} PrintReadsBack(t: Tree, r: Str)
    requires Delimited(r)
    ensures ReadValue(Print(t) + r) == Some((t, r))
    decreases t
  {
    hide ReadValue;
    match t
    case TNull => WordReadsBack(t, r);
    case TBool(_) => WordReadsBack(t, r);
    case TInt(n) => NumberReadsBack(n, r);
    case TText(text) => TextReadsBack(text, r);
    case TArr(items) =>
      if items != [] {
        ItemsReadBack(items, r);
      }
      OpenItems(items, r);
    case TObj(entries) =>
      if entries != [] {
        MembersReadBack(entries, r);
      }
      OpenMembers(entries, r);
  }

  lemma {:induction false} ItemsReadBack(items: seq<Tree>, r: Str)
    requires items != [] && Delimited(r)
    ensures ItemsBack(items, r)
    decreases items
  {
    hide ReadValue, Print, ItemsBack, PrintItems;
    ItemsStart(items[1..], false);
    DelimitedAfter(PrintItems(items[1..], false), r);
    PrintReadsBack(items[0], PrintItems(items[1..], false) + r);
    if |items| > 1 {
      ItemsReadBack(items[1..], r);
    }
    ItemsGoOn(items, r);
  }

  lemma {:induction false} MembersReadBack(entries: seq<Branch>, r: Str)
    requires entries != [] && Delimited(r)
    ensures MembersBack(entries, r)
    decreases entries
  {
    hide ReadValue, Print, MembersBack, PrintBranches;
    BranchesStart(entries[1..], false);
    DelimitedAfter(PrintBranches(entries[1..], false), r);
    PrintReadsBack(entries[0].tree, PrintBranches(entries[1..], false) + r);
    if |entries| > 1 {
      MembersReadBack(entries[1..], r);
    }
    MembersGoOn(entries, r);
  }

  /** The canonical text is JSON, and what it says is the data of the value. */
  lemma CanonicalReadsBack(v: Json)
    ensures ReadJson(Canonicalize(v)) == Some(Normal(v))
  {
    hide ReadValue, Normal, Print, Canonicalize;
    CanonicalizePrints(v);
    PrintReadsBack(Normal(v), []);
    assert Print(Normal(v)) + [] == Print(Normal(v));
  }
}
