/** Why equal canonical text means equal data: the text can be read back in only one way. */
module CanonicalInjective {
  import opened Prelude
  import opened Canonical

  // ----- the data a value stands for: sorted trees -----

  datatype Tree =
    | TNull
    | TBool(b: bool)
    | TInt(n: int)
    | TText(s: Str)
    | TArr(items: seq<Tree>)
    | TObj(entries: seq<Branch>)

  datatype Branch = Branch(key: Str, tree: Tree)

  function Normal(v: Json): Tree
    decreases v, 1
  {
    match v
    case Null => TNull
    case Undef => TNull
    case NonFinite => TNull
    case Bool(b) => TBool(b)
    case Int(n) => TInt(n)
    case Text(s) => TText(s)
    case Arr(items) => TArr(seq(|items|, i requires 0 <= i < |items| => Normal(items[i])))
    case Obj(entries) =>
      var kept := Defined(SortEntries(entries));
      TObj(NormalEntries(v, kept))
  }

  function NormalEntries(ghost v: Json, kept: seq<Entry>): (r: seq<Branch>)
    requires v.Obj? && forall x :: x in kept ==> x in v.entries
    ensures |r| == |kept|
    ensures forall i :: 0 <= i < |kept| ==> r[i].key == kept[i].key
    decreases v, 0, |kept|
  {
    if kept == [] then [] else
      assert kept[0] in v.entries;
      [Branch(kept[0].key, Normal(kept[0].value))] + NormalEntries(v, kept[1..])
  }

  function Print(t: Tree): Str
    decreases t
  {
    match t
    case TNull => NULL
    case TBool(b) => if b then TRUE else FALSE
    case TInt(n) => Decimal(n)
    case TText(s) => Quote(s)
    case TArr(items) => [0x5B] + PrintItems(items, true)
    case TObj(entries) => [0x7B] + PrintBranches(entries, true)
  }

  function Comma(first: bool): Str {
    if first then [] else [0x2C]
  }

  function PrintItems(items: seq<Tree>, first: bool): Str
    decreases items
  {
    if items == [] then [0x5D] else Comma(first) + Print(items[0]) + PrintItems(items[1..], false)
  }

  function PrintBranches(entries: seq<Branch>, first: bool): Str
    decreases entries
  {
    if entries == [] then [0x7D]
    else Comma(first) + Quote(entries[0].key) + [0x3A] + Print(entries[0].tree) + PrintBranches(entries[1..], false)
  }

  lemma {:induction false} CanonicalizePrints(v: Json)
    ensures Canonicalize(v) == Print(Normal(v))
    decreases v, 2
  {
    match v
    case Arr(items) => ItemsPrint(v, 0);
    case Obj(entries) => EntriesPrint(v, Defined(SortEntries(entries)), 0);
    case _ =>
  }

  lemma {:induction false} ItemsPrint(v: Json, i: nat)
    requires v.Arr? && i <= |v.items|
    ensures EncodeItems(v, v.items, i) == PrintItems(Normal(v).items[i..], i == 0)
    decreases v, 1, |v.items| - i
  {
    if i < |v.items| {
      CanonicalizePrints(v.items[i]);
      ItemsPrint(v, i + 1);
      var rest := Normal(v).items[i..];
      assert rest[0] == Normal(v.items[i]) && rest[1..] == Normal(v).items[i + 1..];
    }
  }

  lemma {:induction false} EntriesPrint(v: Json, kept: seq<Entry>, i: nat)
    requires v.Obj? && i <= |kept| && forall x :: x in kept ==> x in v.entries
    ensures EncodeEntries(v, kept, i) == PrintBranches(NormalEntries(v, kept[i..]), i == 0)
    decreases v, 1, |kept| - i
  {
    if i < |kept| {
      assert kept[i] in v.entries;
      CanonicalizePrints(kept[i].value);
      EntriesPrint(v, kept, i + 1);
      assert kept[i..][0] == kept[i] && kept[i..][1..] == kept[i + 1..];
    }
  }

  // ----- reading numbers back -----

  function NumberOf(d: Str): int {
    if d == [] then 0 else 10 * NumberOf(d[..|d| - 1]) + (d[|d| - 1] as int - 0x30)
  }

  lemma {:induction false} NumberOfDigits(n: nat)
    ensures NumberOf(Digits(n)) == n
  {
    if n >= 10 {
      NumberOfDigits(n / 10);
      assert Digits(n)[..|Digits(n)| - 1] == Digits(n / 10);
    } else {
      assert Digits(n)[..0] == [];
    }
  }

  predicate IsDigit(u: Unit) {
    0x30 <= u <= 0x39
  }

  predicate AllDigits(d: Str) {
    forall i :: 0 <= i < |d| ==> IsDigit(d[i])
  }

  /** What may follow a value: nothing, a comma or a closing bracket. */
  predicate Delimited(r: Str) {
    r == [] || r[0] == 0x2C || r[0] == 0x5D || r[0] == 0x7D
  }

  lemma {:induction false} DigitsEnd(a: Str, r1: Str, b: Str, r2: Str)
    requires AllDigits(a) && AllDigits(b) && Delimited(r1) && Delimited(r2)
    requires a + r1 == b + r2
    ensures a == b && r1 == r2
  {
    if a == [] || b == [] {
      assert a + r1 == if a == [] then r1 else a + r1;
      assert b + r2 == if b == [] then r2 else b + r2;
      assert (a + r1 != [] && IsDigit((a + r1)[0])) <==> a != [];
      assert (b + r2 != [] && IsDigit((b + r2)[0])) <==> b != [];
    } else {
      assert (a + r1)[1..] == a[1..] + r1 && (b + r2)[1..] == b[1..] + r2;
      assert (a + r1)[0] == a[0] && (b + r2)[0] == b[0];
      DigitsEnd(a[1..], r1, b[1..], r2);
      assert a == [a[0]] + a[1..] && b == [b[0]] + b[1..];
    }
  }

  lemma DigitsRead(n: nat, r1: Str, m: nat, r2: Str)
    requires Delimited(r1) && Delimited(r2) && Digits(n) + r1 == Digits(m) + r2
    ensures n == m && r1 == r2
  {
    DigitsEnd(Digits(n), r1, Digits(m), r2);
    NumberOfDigits(n);
    NumberOfDigits(m);
  }

  lemma SignReads(n: int, r1: Str, m: int, r2: Str)
    requires Decimal(n) + r1 == Decimal(m) + r2
    ensures n < 0 <==> m < 0
  {
    assert (Decimal(n) + r1)[0] == Decimal(n)[0] && (Decimal(m) + r2)[0] == Decimal(m)[0];
  }

  lemma DecimalReads(n: int, r1: Str, m: int, r2: Str)
    requires Delimited(r1) && Delimited(r2) && Decimal(n) + r1 == Decimal(m) + r2
    ensures n == m && r1 == r2
  {
    SignReads(n, r1, m, r2);
    if n < 0 {
      Tails(0x2D, Digits(-n), r1, Digits(-m), r2);
      DigitsRead(-n, r1, -m, r2);
    } else {
      DigitsRead(n, r1, m, r2);
    }
  }

  // ----- reading strings back -----

  lemma HexReads(u: Unit, v: Unit)
    requires HexEscape(u) == HexEscape(v)
    ensures u == v
  {
    var a, b := HexEscape(u), HexEscape(v);
    assert a[2] == b[2] && a[3] == b[3] && a[4] == b[4] && a[5] == b[5];
    HexDigitInjective(u % 16, v % 16);
    HexDigitInjective(u / 16 % 16, v / 16 % 16);
    HexDigitInjective(u / 16 / 16 % 16, v / 16 / 16 % 16);
    HexDigitInjective(u / 16 / 16 / 16, v / 16 / 16 / 16);
    assert u / 16 / 16 == v / 16 / 16;
    assert u / 16 == v / 16;
  }

  lemma HexDigitInjective(c: nat, d: nat)
    requires c < 16 && d < 16 && HexDigit(c) == HexDigit(d)
    ensures c == d
  {
  }

  /** The length of the escape at the front of `e`. */
  function EscapeLength(e: Str): nat {
    if |e| >= 2 && e[0] == 0x5C then if e[1] == 0x75 then 6 else 2 else 1
  }

  lemma EscapeSelfDelimits(u: Unit, paired: bool, x: Str)
    ensures |Escape(u, paired)| == EscapeLength(Escape(u, paired) + x)
  {
    var e := Escape(u, paired) + x;
    assert e[0] == Escape(u, paired)[0];
    assert |Escape(u, paired)| >= 2 ==> e[1] == Escape(u, paired)[1];
  }

  lemma EscapeInjective(u: Unit, p: bool, v: Unit, q: bool)
    requires Escape(u, p) == Escape(v, q)
    ensures u == v
  {
    if |Escape(u, p)| == 6 {
      HexReads(u, v);
    } else if |Escape(u, p)| == 2 {
      assert Escape(u, p)[1] == Escape(v, q)[1];
    } else {
      assert Escape(u, p)[0] == Escape(v, q)[0];
    }
  }

  lemma EscapeReads(u: Unit, p: bool, x: Str, v: Unit, q: bool, y: Str)
    requires Escape(u, p) + x == Escape(v, q) + y
    ensures u == v && x == y
  {
    var a, b := Escape(u, p), Escape(v, q);
    EscapeSelfDelimits(u, p, x);
    EscapeSelfDelimits(v, q, y);
    assert a == (a + x)[..|a|] && b == (b + y)[..|b|];
    assert x == (a + x)[|a|..] && y == (b + y)[|b|..];
    EscapeInjective(u, p, v, q);
  }

  lemma EscapeIsNotQuote(u: Unit, p: bool, x: Str)
    ensures (Escape(u, p) + x)[0] != 0x22
  {
  }

  lemma QuoteStep(s: Str, i: nat, r: Str)
    requires i <= |s|
    ensures i < |s| ==> QuoteFrom(s, i) + r == Escape(s[i], Paired(s, i)) + (QuoteFrom(s, i + 1) + r)
    ensures (QuoteFrom(s, i) + r)[0] == 0x22 <==> i == |s|
  {
    if i < |s| {
      var e := Escape(s[i], Paired(s, i));
      assert e + QuoteFrom(s, i + 1) + r == e + (QuoteFrom(s, i + 1) + r);
      EscapeIsNotQuote(s[i], Paired(s, i), QuoteFrom(s, i + 1) + r);
    }
  }

  lemma {:induction false} QuoteFromReads(s: Str, i: nat, r1: Str, t: Str, j: nat, r2: Str)
    requires i <= |s| && j <= |t| && QuoteFrom(s, i) + r1 == QuoteFrom(t, j) + r2
    ensures s[i..] == t[j..] && r1 == r2
    decreases |s| - i
  {
    QuoteStep(s, i, r1);
    QuoteStep(t, j, r2);
    if i == |s| {
      Suffixes([0x22], r1, r2);
    } else {
      EscapeReads(s[i], Paired(s, i), QuoteFrom(s, i + 1) + r1, t[j], Paired(t, j), QuoteFrom(t, j + 1) + r2);
      QuoteFromReads(s, i + 1, r1, t, j + 1, r2);
      assert s[i..] == [s[i]] + s[i + 1..] && t[j..] == [t[j]] + t[j + 1..];
    }
  }

  lemma QuoteReads(s: Str, r1: Str, t: Str, r2: Str)
    requires Quote(s) + r1 == Quote(t) + r2
    ensures s == t && r1 == r2
  {
    assert QuoteFrom(s, 0) + r1 == (Quote(s) + r1)[1..] && QuoteFrom(t, 0) + r2 == (Quote(t) + r2)[1..];
    QuoteFromReads(s, 0, r1, t, 0, r2);
    assert s[0..] == s && t[0..] == t;
  }

  // ----- reading trees back -----

  /** The first code unit tells which kind of tree was printed. */
  function Kind(t: Tree): nat {
    match t
    case TNull => 0
    case TBool(b) => if b then 1 else 2
    case TInt(_) => 3
    case TText(_) => 4
    case TArr(_) => 5
    case TObj(_) => 6
  }

  function KindOfUnit(u: Unit): nat {
    if u == 0x6E then 0 else if u == 0x74 then 1 else if u == 0x66 then 2
    else if u == 0x22 then 4 else if u == 0x5B then 5 else if u == 0x7B then 6 else 3
  }

  lemma FirstUnit(t: Tree)
    ensures Print(t) != [] && KindOfUnit(Print(t)[0]) == Kind(t)
    ensures !Delimited(Print(t))
  {
  }

  lemma SameKind(t: Tree, r1: Str, u: Tree, r2: Str)
    requires Print(t) + r1 == Print(u) + r2
    ensures Kind(t) == Kind(u)
  {
    FirstUnit(t);
    FirstUnit(u);
    assert (Print(t) + r1)[0] == Print(t)[0] && (Print(u) + r2)[0] == Print(u)[0];
  }

  lemma {:induction false} PrintReads(t: Tree, r1: Str, u: Tree, r2: Str)
    requires Print(t) + r1 == Print(u) + r2 && Delimited(r1) && Delimited(r2)
    ensures t == u && r1 == r2
    decreases t
  {
    SameKind(t, r1, u, r2);
    match t
    case TNull => Suffixes(NULL, r1, r2);
    case TBool(b) => Suffixes(Print(t), r1, r2);
    case TInt(n) => DecimalReads(n, r1, u.n, r2);
    case TText(s) => QuoteReads(s, r1, u.s, r2);
    case TArr(items) =>
      Tails(0x5B, PrintItems(items, true), r1, PrintItems(u.items, true), r2);
      ItemsRead(items, r1, u.items, r2, true);
    case TObj(entries) =>
      Tails(0x7B, PrintBranches(entries, true), r1, PrintBranches(u.entries, true), r2);
      BranchesRead(entries, r1, u.entries, r2, true);
  }

  lemma Suffixes(p: Str, r1: Str, r2: Str)
    requires p + r1 == p + r2
    ensures r1 == r2
  {
    assert r1 == (p + r1)[|p|..] && r2 == (p + r2)[|p|..];
  }

  lemma Tails(c: Unit, x: Str, r1: Str, y: Str, r2: Str)
    requires [c] + x + r1 == [c] + y + r2
    ensures x + r1 == y + r2
  {
    assert [c] + (x + r1) == [c] + x + r1 && [c] + (y + r2) == [c] + y + r2;
    Suffixes([c], x + r1, y + r2);
  }

  lemma ItemsStart(items: seq<Tree>, first: bool)
    ensures PrintItems(items, first) != []
    ensures items == [] <==> PrintItems(items, first)[0] == 0x5D
    ensures !first ==> Delimited(PrintItems(items, first))
  {
    if items != [] {
      FirstUnit(items[0]);
    }
  }

  lemma {:induction false} ItemsRead(xs: seq<Tree>, r1: Str, ys: seq<Tree>, r2: Str, first: bool)
    requires PrintItems(xs, first) + r1 == PrintItems(ys, first) + r2 && Delimited(r1) && Delimited(r2)
    ensures xs == ys && r1 == r2
    decreases xs
  {
    ItemsStart(xs, first);
    ItemsStart(ys, first);
    assert (PrintItems(xs, first) + r1)[0] == PrintItems(xs, first)[0];
    assert (PrintItems(ys, first) + r2)[0] == PrintItems(ys, first)[0];
    if xs == [] {
      Suffixes([0x5D], r1, r2);
    } else {
      var x, y := PrintItems(xs[1..], false), PrintItems(ys[1..], false);
      ItemsStart(xs[1..], false);
      ItemsStart(ys[1..], false);
      ItemParts(xs, first, r1);
      ItemParts(ys, first, r2);
      Suffixes(Comma(first), Print(xs[0]) + (x + r1), Print(ys[0]) + (y + r2));
      PrintReads(xs[0], x + r1, ys[0], y + r2);
      ItemsRead(xs[1..], r1, ys[1..], r2, false);
      assert xs == [xs[0]] + xs[1..] && ys == [ys[0]] + ys[1..];
    }
  }

  lemma ItemParts(xs: seq<Tree>, first: bool, r: Str)
    requires xs != []
    ensures PrintItems(xs, first) + r == Comma(first) + (Print(xs[0]) + (PrintItems(xs[1..], false) + r))
  {
    var c, p, x := Comma(first), Print(xs[0]), PrintItems(xs[1..], false);
    assert PrintItems(xs, first) == c + p + x;
    Regroup([], [], c, p, x, r);
    assert [] + [] + c + p + x + r == c + p + x + r;
    assert [] + ([] + (c + (p + (x + r)))) == c + (p + (x + r));
  }

  lemma BranchesStart(entries: seq<Branch>, first: bool)
    ensures PrintBranches(entries, first) != []
    ensures entries == [] <==> PrintBranches(entries, first)[0] == 0x7D
    ensures !first ==> Delimited(PrintBranches(entries, first))
  {
  }

  lemma {:induction false} BranchesRead(xs: seq<Branch>, r1: Str, ys: seq<Branch>, r2: Str, first: bool)
    requires PrintBranches(xs, first) + r1 == PrintBranches(ys, first) + r2 && Delimited(r1) && Delimited(r2)
    ensures xs == ys && r1 == r2
    decreases xs
  {
    BranchesStart(xs, first);
    BranchesStart(ys, first);
    assert (PrintBranches(xs, first) + r1)[0] == PrintBranches(xs, first)[0];
    assert (PrintBranches(ys, first) + r2)[0] == PrintBranches(ys, first)[0];
    if xs == [] {
      Suffixes([0x7D], r1, r2);
    } else {
      var x, y := PrintBranches(xs[1..], false), PrintBranches(ys[1..], false);
      BranchesStart(xs[1..], false);
      BranchesStart(ys[1..], false);
      BranchParts(xs, first, r1);
      BranchParts(ys, first, r2);
      var a, b := [0x3A] + (Print(xs[0].tree) + (x + r1)), [0x3A] + (Print(ys[0].tree) + (y + r2));
      Suffixes(Comma(first), Quote(xs[0].key) + a, Quote(ys[0].key) + b);
      QuoteReads(xs[0].key, a, ys[0].key, b);
      Suffixes([0x3A], Print(xs[0].tree) + (x + r1), Print(ys[0].tree) + (y + r2));
      PrintReads(xs[0].tree, x + r1, ys[0].tree, y + r2);
      BranchesRead(xs[1..], r1, ys[1..], r2, false);
      assert xs == [xs[0]] + xs[1..] && ys == [ys[0]] + ys[1..];
    }
  }

  lemma BranchParts(xs: seq<Branch>, first: bool, r: Str)
    requires xs != []
    ensures PrintBranches(xs, first) + r
         == Comma(first) + (Quote(xs[0].key) + ([0x3A] + (Print(xs[0].tree) + (PrintBranches(xs[1..], false) + r))))
  {
    var c, q, p, x := Comma(first), Quote(xs[0].key), Print(xs[0].tree), PrintBranches(xs[1..], false);
    assert PrintBranches(xs, first) == c + q + [0x3A] + p + x;
    Regroup(c, q, [0x3A], p, x, r);
  }

  lemma Regroup(c: Str, q: Str, k: Str, p: Str, x: Str, r: Str)
    ensures c + q + k + p + x + r == c + (q + (k + (p + (x + r))))
  {
  }

  lemma PrintInjective(t: Tree, u: Tree)
    requires Print(t) == Print(u)
    ensures t == u
  {
    assert Print(t) + [] == Print(t) && Print(u) + [] == Print(u);
    PrintReads(t, [], u, []);
  }
}
