/** Human-readable sequence numbers: question numbers, batch numbers and task numbers.

    A number is a prefix followed by a decimal sequence. The next one is derived from the row that
    `ORDER BY LENGTH(no) DESC, no DESC LIMIT 1` puts first, so it is the string order, not the
    numeric order, that has to pick the greatest sequence. */
module Numbering {
  import opened Base

  // ---------------------------------------------------------------- printing and parsing

  function DigitChar(d: nat): char
    requires d < 10
  {
    '0' + d as char
  }

  predicate IsDigit(c: char) {
    '0' <= c <= '9'
  }

  predicate AllDigits(s: string) {
    forall i :: 0 <= i < |s| ==> IsDigit(s[i])
  }

  /** `%d` of a non-negative number. */
  function Decimal(n: nat): string {
    if n < 10 then [DigitChar(n)] else Decimal(n / 10) + [DigitChar(n % 10)]
  }

  function ZeroFilled(n: nat, width: nat): string {
    var s := Decimal(n);
    if |s| >= width then s else seq(width - |s|, i => '0') + s
  }

  /** `%04d`: padded to four characters, wider when it needs to be; a sign takes one of the four. */
  function Padded(n: int): string {
    if n >= 0 then ZeroFilled(n, 4) else "-" + ZeroFilled(-n, 3)
  }

  /** The value of a run of digits, most significant first. */
  function Value(s: string): nat
    requires AllDigits(s)
  {
    if s == "" then 0 else 10 * Value(s[..|s| - 1]) + (s[|s| - 1] - '0') as nat
  }

  /** Base-10 `strconv.ParseInt`: an optional sign and at least one digit, or an error. */
  function ParseInt(s: string): Option<int> {
    if s == "" then None
    else
      var signed := s[0] == '+' || s[0] == '-';
      var digits := if signed then s[1..] else s;
      if digits == "" || !AllDigits(digits) then None
      else
        var v: int := Value(digits);
        Some(if s[0] == '-' then -v else v)
  }

  // ---------------------------------------------------------------- the order the query uses

  predicate LexLess(a: string, b: string) {
    b != "" && (a == "" || a[0] < b[0] || (a[0] == b[0] && LexLess(a[1..], b[1..])))
  }

  /** `x` comes before `y` when sorting by length and then by text, both ascending. */
  predicate LengthLexLess(x: string, y: string) {
    |x| < |y| || (|x| == |y| && LexLess(x, y))
  }

  lemma {:induction false} LexTrichotomy(a: string, b: string)
    ensures a == b || LexLess(a, b) || LexLess(b, a)
    ensures !(LexLess(a, b) && LexLess(b, a))
    ensures LexLess(a, b) ==> a != b
  {
    if a != "" && b != "" {
      LexTrichotomy(a[1..], b[1..]);
      assert a == [a[0]] + a[1..] && b == [b[0]] + b[1..];
    }
  }

  lemma {:induction false} LexTransitive(a: string, b: string, c: string)
    requires LexLess(a, b) && LexLess(b, c)
    ensures LexLess(a, c)
  {
    if a != "" && a[0] == b[0] && b[0] == c[0] {
      LexTransitive(a[1..], b[1..], c[1..]);
    }
  }

  lemma LengthLexTransitive(a: string, b: string, c: string)
    requires LengthLexLess(a, b) && LengthLexLess(b, c)
    ensures LengthLexLess(a, c)
  {
    if |a| == |b| == |c| { LexTransitive(a, b, c); }
  }

  /** The row a `LENGTH DESC, text DESC LIMIT 1` query returns: every other row sorts below it. */
  predicate IsTop(rows: set<string>, top: string) {
    top in rows && forall x :: x in rows ==> x == top || LengthLexLess(x, top)
  }

  lemma TopIsUnique(rows: set<string>, a: string, b: string)
    requires IsTop(rows, a) && IsTop(rows, b)
    ensures a == b
  {
    LexTrichotomy(a, b);
  }

  /** A non-empty table always has a first row. */
  lemma {:induction false} TopExists(rows: set<string>)
    requires rows != {}
    ensures exists top :: IsTop(rows, top)
    decreases |rows|
  {
    var x :| x in rows;
    var rest := rows - {x};
    if rest == {} {
      assert rows == {x};
      assert IsTop(rows, x);
    } else {
      TopExists(rest);
      var t :| IsTop(rest, t);
      LexTrichotomy(x, t);
      var top := if LengthLexLess(t, x) then x else t;
      forall y | y in rows ensures y == top || LengthLexLess(y, top) {
        if y != x && y != t && top == x { LengthLexTransitive(y, t, x); }
      }
      assert IsTop(rows, top);
    }
  }

  function Top(rows: set<string>): (top: string)
    requires rows != {}
    ensures IsTop(rows, top)
  {
    TopExists(rows);
    assert forall a, b | IsTop(rows, a) && IsTop(rows, b) :: a == b by {
      forall a, b | IsTop(rows, a) && IsTop(rows, b) ensures a == b { TopIsUnique(rows, a, b); }
    }
    var top :| top in rows && IsTop(rows, top);
    top
  }

  // ---------------------------------------------------------------- string order is numeric order

  lemma {:induction false} LexSnoc(a: string, b: string, x: char, y: char)
    requires |a| == |b|
    ensures LexLess(a + [x], b + [y]) <==> LexLess(a, b) || (a == b && x < y)
  {
    if a != "" {
      LexSnoc(a[1..], b[1..], x, y);
      assert (a + [x])[1..] == a[1..] + [x] && (b + [y])[1..] == b[1..] + [y];
      assert a == [a[0]] + a[1..] && b == [b[0]] + b[1..];
    }
  }

  /** Among digit strings of one length, text order and numeric order are the same order. */
  lemma {:induction false} LexIsNumeric(a: string, b: string)
    requires |a| == |b| && AllDigits(a) && AllDigits(b)
    ensures LexLess(a, b) <==> Value(a) < Value(b)
    ensures a == b <==> Value(a) == Value(b)
  {
    if a != "" {
      var m := |a| - 1;
      LexIsNumeric(a[..m], b[..m]);
      LexSnoc(a[..m], b[..m], a[m], b[m]);
      assert a == a[..m] + [a[m]] && b == b[..m] + [b[m]];
    }
  }

  lemma {:induction false} DecimalFacts(n: nat)
    ensures AllDigits(Decimal(n)) && |Decimal(n)| >= 1
    ensures Value(Decimal(n)) == n
  {
    var s := Decimal(n);
    if n >= 10 { DecimalFacts(n / 10); }
    assert s[..|s| - 1] == if n < 10 then "" else Decimal(n / 10);
    assert (s[|s| - 1] - '0') as nat == n % 10;
  }

  lemma {:induction false} LeadingZeros(k: nat, s: string)
    requires AllDigits(s)
    ensures AllDigits(seq(k, i => '0') + s)
    ensures Value(seq(k, i => '0') + s) == Value(s)
    decreases k + |s|
  {
    var z := seq(k, i => '0');
    var t := z + s;
    if s != "" {
      LeadingZeros(k, s[..|s| - 1]);
      assert t[..|t| - 1] == z + s[..|s| - 1];
    } else if k > 0 {
      LeadingZeros(k - 1, "");
      assert t[..|t| - 1] == seq(k - 1, i => '0') + "";
    }
  }

  lemma PaddedFacts(n: nat)
    ensures AllDigits(Padded(n)) && |Padded(n)| >= 4
    ensures Value(Padded(n)) == n
  {
    DecimalFacts(n);
    if |Decimal(n)| < 4 { LeadingZeros(4 - |Decimal(n)|, Decimal(n)); }
  }

  lemma {:induction false} DecimalLengthGrows(m: nat, n: nat)
    requires m <= n
    ensures |Decimal(m)| <= |Decimal(n)|
  {
    if m >= 10 { DecimalLengthGrows(m / 10, n / 10); } else { DecimalFacts(n); }
  }

  lemma ParseDigits(s: string)
    requires s != "" && AllDigits(s)
    ensures ParseInt(s) == Some(Value(s))
  {
    assert IsDigit(s[0]);
  }

  /** Parsing inverts printing, at every width. */
  lemma ParseInvertsPrinting(n: nat)
    ensures ParseInt(Padded(n)) == Some(n)
    ensures ParseInt(Decimal(n)) == Some(n)
  {
    PaddedFacts(n);
    DecimalFacts(n);
    ParseDigits(Padded(n));
    ParseDigits(Decimal(n));
  }

  /** "Longer, then textually greater" is "numerically greater", for padded and for plain numbers. */
  lemma PrintedOrderIsNumeric(m: nat, n: nat)
    ensures LengthLexLess(Padded(m), Padded(n)) <==> m < n
    ensures LengthLexLess(Decimal(m), Decimal(n)) <==> m < n
  {
    PaddedFacts(m); PaddedFacts(n);
    DecimalFacts(m); DecimalFacts(n);
    DecimalLengthGrows(if m <= n then m else n, if m <= n then n else m);
    if |Padded(m)| == |Padded(n)| { LexIsNumeric(Padded(m), Padded(n)); }
    if |Decimal(m)| == |Decimal(n)| { LexIsNumeric(Decimal(m), Decimal(n)); }
  }

  lemma {:induction false} PrefixKeepsOrder(p: string, a: string, b: string)
    ensures LengthLexLess(p + a, p + b) <==> LengthLexLess(a, b)
  {
    if p != "" {
      PrefixKeepsOrder(p[1..], a, b);
      assert (p + a)[1..] == p[1..] + a && (p + b)[1..] == p[1..] + b;
    } else {
      assert p + a == a && p + b == b;
    }
  }

  // ---------------------------------------------------------------- four-digit sequences

  predicate StartsWith(s: string, p: string) {
    |p| <= |s| && s[..|p|] == p
  }

  function WithPrefix(nos: set<string>, prefix: string): set<string> {
    set x | x in nos && StartsWith(x, prefix)
  }

  /** The greatest sequence under a prefix; 0 for no row and for a tail that is not a number. */
  function MaxSeq(nos: set<string>, prefix: string): int {
    var rows := WithPrefix(nos, prefix);
    if rows == {} then 0
    else match ParseInt(Top(rows)[|prefix|..])
      case None => 0
      case Some(v) => v
  }

  /** Every row under the prefix was issued by this scheme, from sequence 1 upwards. */
  ghost predicate Issued(nos: set<string>, prefix: string) {
    forall x :: x in WithPrefix(nos, prefix) ==> exists k: nat :: k >= 1 && x == prefix + Padded(k)
  }

  lemma PaddedInjective(prefix: string, j: nat, k: nat)
    requires prefix + Padded(j) == prefix + Padded(k)
    ensures j == k
  {
    assert (prefix + Padded(j))[|prefix|..] == Padded(j);
    assert (prefix + Padded(k))[|prefix|..] == Padded(k);
    PaddedFacts(j); PaddedFacts(k);
  }

  /** The row picked by string order carries the numeric maximum of all issued sequences. */
  lemma MaxSeqIsNumericMaximum(nos: set<string>, prefix: string)
    requires Issued(nos, prefix)
    ensures MaxSeq(nos, prefix) >= 0
    ensures MaxSeq(nos, prefix) == 0 <==> WithPrefix(nos, prefix) == {}
    ensures MaxSeq(nos, prefix) > 0 ==> prefix + Padded(MaxSeq(nos, prefix)) in nos
    ensures forall k: nat :: prefix + Padded(k) in nos ==> k <= MaxSeq(nos, prefix)
  {
    var rows := WithPrefix(nos, prefix);
    if rows != {} {
      var top := Top(rows);
      var t: nat :| t >= 1 && top == prefix + Padded(t);
      assert top[|prefix|..] == Padded(t);
      ParseInvertsPrinting(t);
      assert MaxSeq(nos, prefix) == t;
      forall k: nat | prefix + Padded(k) in nos ensures k <= t {
        assert prefix + Padded(k) in rows;
        PrefixKeepsOrder(prefix, Padded(k), Padded(t));
        PrintedOrderIsNumeric(k, t);
        if prefix + Padded(k) == top { PaddedInjective(prefix, k, t); }
      }
    } else {
      forall k: nat ensures prefix + Padded(k) !in nos {
        assert prefix + Padded(k) !in rows && StartsWith(prefix + Padded(k), prefix);
      }
    }
  }

  /** The next number: one above the greatest, whether or not the greatest has outgrown four digits. */
  function NextPadded(nos: set<string>, prefix: string): string {
    prefix + Padded(MaxSeq(nos, prefix) + 1)
  }

  /** A fresh number is new, sorts above every number of its prefix, and keeps the table issued. */
  lemma NextPaddedIsFresh(nos: set<string>, prefix: string)
    requires Issued(nos, prefix)
    ensures NextPadded(nos, prefix) !in nos
    ensures forall x :: x in WithPrefix(nos, prefix) ==> LengthLexLess(x, NextPadded(nos, prefix))
    ensures Issued(nos + {NextPadded(nos, prefix)}, prefix)
    ensures MaxSeq(nos + {NextPadded(nos, prefix)}, prefix) == MaxSeq(nos, prefix) + 1
  {
    MaxSeqIsNumericMaximum(nos, prefix);
    var m := MaxSeq(nos, prefix);
    var next := NextPadded(nos, prefix);
    forall x | x in WithPrefix(nos, prefix) ensures LengthLexLess(x, next) {
      var k: nat :| k >= 1 && x == prefix + Padded(k);
      PrintedOrderIsNumeric(k, m + 1);
      PrefixKeepsOrder(prefix, Padded(k), Padded(m + 1));
    }
    var more := nos + {next};
    assert Issued(more, prefix) by {
      forall x | x in WithPrefix(more, prefix)
        ensures exists k: nat :: k >= 1 && x == prefix + Padded(k)
      {
        if x in nos { assert x in WithPrefix(nos, prefix); }
      }
    }
    MaxSeqIsNumericMaximum(more, prefix);
    if MaxSeq(more, prefix) > m + 1 {
      var big := MaxSeq(more, prefix);
      assert prefix + Padded(big) in more;
      if prefix + Padded(big) == next { PaddedInjective(prefix, big, m + 1); }
    }
  }

  // ---------------------------------------------------------------- numbering a whole batch

  datatype Source = AI | Scale

  function PrefixOf(source: Source): string {
    match source
    case AI => "Q-AG-"
    case Scale => "Q-Scale-"
  }

  /** Every question number in the table was issued under one of the two prefixes. */
  ghost predicate QuestionNosIssued(nos: set<string>) {
    Issued(nos, PrefixOf(AI)) && Issued(nos, PrefixOf(Scale))
  }

  function Elements(s: seq<string>): set<string> {
    set x | x in s
  }

  /** Number a list one question at a time, each against the table grown so far. */
  function Sequential(next: (set<string>, Source) -> string, nos: set<string>, sources: seq<Source>): (out: seq<string>)
    ensures |out| == |sources|
  {
    if sources == [] then []
    else
      var before := Sequential(next, nos, sources[..|sources| - 1]);
      before + [next(nos + Elements(before), sources[|sources| - 1])]
  }

  function NextFor(nos: set<string>, source: Source): string {
    NextPadded(nos, PrefixOf(source))
  }

  /** The reference: the next number of its prefix for every question, read again each time. */
  function OneAtATime(nos: set<string>, sources: seq<Source>): (out: seq<string>)
    ensures |out| == |sources|
  {
    Sequential(NextFor, nos, sources)
  }

  /** The first number of each prefix, and what a number past the padded width looks like. */
  lemma FirstNumbers()
    ensures NextFor({}, AI) == "Q-AG-0001" && NextFor({}, Scale) == "Q-Scale-0001"
    ensures Padded(42) == "0042" && Padded(9999) == "9999" && Padded(10000) == "10000" && Padded(-7) == "-007"
    ensures DecimalInt(0) == "0" && DecimalInt(-12) == "-12"
    ensures MaxSeq({"Q-AG-x"}, PrefixOf(AI)) == 0
  {
    assert Decimal(12) == "12" by { assert Decimal(1) == "1"; }
    assert WithPrefix({"Q-AG-x"}, PrefixOf(AI)) == {"Q-AG-x"};
    assert "Q-AG-x"[5..] == "x" && !IsDigit("x"[0]);
    assert WithPrefix({}, PrefixOf(AI)) == {} && WithPrefix({}, PrefixOf(Scale)) == {};
    assert Decimal(1) == "1" && Decimal(7) == "7";
    assert Decimal(42) == "42" by { assert Decimal(4) == "4"; }
    assert Decimal(99) == "99" by { assert Decimal(9) == "9"; }
    assert Decimal(9999) == "9999" by { assert Decimal(999) == Decimal(99) + "9"; }
    assert Decimal(10) == "10";
    assert Decimal(10000) == "10000" by { assert Decimal(100) == "100"; assert Decimal(1000) == "1000"; }
  }

  lemma PrefixesDisjoint(no: string)
    ensures !(StartsWith(no, PrefixOf(AI)) && StartsWith(no, PrefixOf(Scale)))
  {
    if StartsWith(no, PrefixOf(AI)) {
      assert no[..5][2] == 'A';
      if |no| >= 8 { assert no[..8][2] == 'A' && PrefixOf(Scale)[2] == 'S'; }
    }
  }

  lemma NextStartsWithPrefix(nos: set<string>, prefix: string)
    ensures StartsWith(NextPadded(nos, prefix), prefix)
  {
  }

  /** A new number under one prefix is invisible to the query under the other. */
  lemma OtherPrefixUntouched(nos: set<string>, source: Source, other: Source)
    requires source != other
    ensures WithPrefix(nos + {NextPadded(nos, PrefixOf(source))}, PrefixOf(other)) == WithPrefix(nos, PrefixOf(other))
  {
    var no := NextPadded(nos, PrefixOf(source));
    NextStartsWithPrefix(nos, PrefixOf(source));
    PrefixesDisjoint(no);
  }

  lemma IssueOneMore(nos: set<string>, source: Source)
    requires QuestionNosIssued(nos)
    ensures QuestionNosIssued(nos + {NextPadded(nos, PrefixOf(source))})
    ensures NextPadded(nos, PrefixOf(source)) !in nos
    ensures StartsWith(NextPadded(nos, PrefixOf(source)), PrefixOf(source))
  {
    var other := if source == AI then Scale else AI;
    NextPaddedIsFresh(nos, PrefixOf(source));
    OtherPrefixUntouched(nos, source, other);
  }

  lemma ElementsSnoc(nos: set<string>, s: seq<string>, x: string)
    ensures nos + Elements(s + [x]) == (nos + Elements(s)) + {x}
  {
  }

  /** A numbered block: as many numbers as questions, all new, all different, each under its prefix. */
  predicate FreshBlock(nos: set<string>, sources: seq<Source>, out: seq<string>) {
    && |out| == |sources|
    && (forall i :: 0 <= i < |out| ==> out[i] !in nos && StartsWith(out[i], PrefixOf(sources[i])))
    && (forall i, j :: 0 <= i < j < |out| ==> out[i] != out[j])
  }

  lemma FreshBlockSnoc(nos: set<string>, sources: seq<Source>, out: seq<string>, source: Source, next: string)
    requires FreshBlock(nos, sources, out)
    requires next !in nos + Elements(out) && StartsWith(next, PrefixOf(source))
    ensures FreshBlock(nos, sources + [source], out + [next])
  {
    assert forall i :: 0 <= i < |out| ==> out[i] in Elements(out);
  }

  /** One-at-a-time numbering keeps the table well issued and never repeats a number. */
  lemma {:induction false} OneAtATimeFresh(nos: set<string>, sources: seq<Source>)
    requires QuestionNosIssued(nos)
    ensures QuestionNosIssued(nos + Elements(OneAtATime(nos, sources)))
    ensures FreshBlock(nos, sources, OneAtATime(nos, sources))
  {
    if sources == [] {
      assert nos + Elements([]) == nos;
    } else {
      var init, source := sources[..|sources| - 1], sources[|sources| - 1];
      assert sources == init + [source];
      OneAtATimeFresh(nos, init);
      FreshSnoc(nos, init, OneAtATime(nos, init), source);
      OneAtATimeSnoc(nos, init, source);
    }
  }

  lemma OneAtATimeSnoc(nos: set<string>, init: seq<Source>, source: Source)
    ensures var before := OneAtATime(nos, init);
            OneAtATime(nos, init + [source]) == before + [NextPadded(nos + Elements(before), PrefixOf(source))]
  {
    assert (init + [source])[..|init|] == init;
  }

  /** One more number on top of a fresh block. */
  lemma FreshSnoc(nos: set<string>, init: seq<Source>, before: seq<string>, source: Source)
    requires QuestionNosIssued(nos + Elements(before)) && FreshBlock(nos, init, before)
    ensures var all := before + [NextPadded(nos + Elements(before), PrefixOf(source))];
            QuestionNosIssued(nos + Elements(all)) && FreshBlock(nos, init + [source], all)
  {
    var next := NextPadded(nos + Elements(before), PrefixOf(source));
    IssueOneMore(nos + Elements(before), source);
    ElementsSnoc(nos, before, next);
    FreshBlockSnoc(nos, init, before, source, next);
  }

  lemma {:induction false} SequentialPrefix(next: (set<string>, Source) -> string, nos: set<string>, sources: seq<Source>, n: nat)
    requires n <= |sources|
    ensures Sequential(next, nos, sources)[..n] == Sequential(next, nos, sources[..n])
    decreases |sources|
  {
    if n == |sources| {
      assert sources[..n] == sources;
    } else {
      var init := sources[..|sources| - 1];
      SequentialPrefix(next, nos, init, n);
      assert init[..n] == sources[..n];
    }
  }

  lemma NextIsAbove(nos: set<string>, init: seq<Source>, source: Source, i: nat)
    requires QuestionNosIssued(nos) && i < |init| && init[i] == source
    ensures LengthLexLess(OneAtATime(nos, init)[i], NextFor(nos + Elements(OneAtATime(nos, init)), source))
  {
    OneAtATimeFresh(nos, init);
    AboveEarlier(nos, OneAtATime(nos, init), source, OneAtATime(nos, init)[i]);
  }

  /** Within a batch, the sequences under one prefix strictly increase in position order. */
  lemma OneAtATimeIncreases(nos: set<string>, sources: seq<Source>, i: nat, j: nat)
    requires QuestionNosIssued(nos)
    requires i < j < |sources| && sources[i] == sources[j]
    ensures LengthLexLess(OneAtATime(nos, sources)[i], OneAtATime(nos, sources)[j])
  {
    NextIsAbove(nos, sources[..j], sources[j], i);
    NumberAt(NextFor, nos, sources, i, j);
  }

  lemma NumberAt(next: (set<string>, Source) -> string, nos: set<string>, sources: seq<Source>, i: nat, j: nat)
    requires i < j < |sources|
    ensures Sequential(next, nos, sources)[i] == Sequential(next, nos, sources[..j])[i]
    ensures Sequential(next, nos, sources)[j] == next(nos + Elements(Sequential(next, nos, sources[..j])), sources[j])
  {
    SequentialPrefix(next, nos, sources, j);
    SequentialPrefix(next, nos, sources, j + 1);
    assert sources[..j + 1][..j] == sources[..j];
    var out := Sequential(next, nos, sources);
    assert out[..j + 1][j] == out[j] && out[..j][i] == out[i];
  }

  lemma AboveEarlier(nos: set<string>, before: seq<string>, source: Source, earlier: string)
    requires QuestionNosIssued(nos + Elements(before))
    requires earlier in before && StartsWith(earlier, PrefixOf(source))
    ensures LengthLexLess(earlier, NextPadded(nos + Elements(before), PrefixOf(source)))
  {
    NextPaddedIsFresh(nos + Elements(before), PrefixOf(source));
    assert earlier in WithPrefix(nos + Elements(before), PrefixOf(source));
  }

  /** How many questions of a list come from one source. */
  function Uses(sources: seq<Source>, source: Source): nat {
    if sources == [] then 0
    else Uses(sources[..|sources| - 1], source) + if sources[|sources| - 1] == source then 1 else 0
  }

  /** Labels counted up from the maximum of each source, as `read` reports it. */
  function CountedUp(read: Source -> int, write: (Source, int) -> string, sources: seq<Source>): (out: seq<string>)
    ensures |out| == |sources|
  {
    if sources == [] then []
    else
      var init, source := sources[..|sources| - 1], sources[|sources| - 1];
      CountedUp(read, write, init) + [write(source, read(source) + Uses(init, source) + 1)]
  }

  function Label(source: Source, k: int): string {
    PrefixOf(source) + Padded(k)
  }

  /** The query for a source's maximum. */
  function Maximum(nos: set<string>): Source -> int {
    source => MaxSeq(nos, PrefixOf(source))
  }

  /** What the create-batch transaction computes: the maximum read once per prefix, then counted up. */
  function Block(nos: set<string>, sources: seq<Source>): (out: seq<string>)
    ensures |out| == |sources|
  {
    CountedUp(Maximum(nos), Label, sources)
  }

  lemma MaxSeqReadsItsPrefix(a: set<string>, b: set<string>, prefix: string)
    requires WithPrefix(a, prefix) == WithPrefix(b, prefix)
    ensures MaxSeq(a, prefix) == MaxSeq(b, prefix)
  {
  }

  /** Numbering one at a time raises the maximum of a prefix by one for every question of its source. */
  lemma {:induction false} MaximumCountsUp(nos: set<string>, sources: seq<Source>, source: Source)
    requires QuestionNosIssued(nos)
    ensures MaxSeq(nos + Elements(OneAtATime(nos, sources)), PrefixOf(source))
         == MaxSeq(nos, PrefixOf(source)) + Uses(sources, source)
  {
    if sources == [] {
      assert nos + Elements([]) == nos;
    } else {
      var init, last := sources[..|sources| - 1], sources[|sources| - 1];
      var before := OneAtATime(nos, init);
      var grown := nos + Elements(before);
      MaximumCountsUp(nos, init, source);
      OneAtATimeFresh(nos, init);
      ElementsSnoc(nos, before, NextPadded(grown, PrefixOf(last)));
      if last == source {
        NextPaddedIsFresh(grown, PrefixOf(source));
      } else {
        OtherPrefixUntouched(grown, last, source);
        MaxSeqReadsItsPrefix(grown + {NextPadded(grown, PrefixOf(last))}, grown, PrefixOf(source));
      }
    }
  }

  /** Along a list, the next number is always the one counted up from the maximum before it. */
  ghost predicate NextIsCounted(next: (set<string>, Source) -> string, read: Source -> int, write: (Source, int) -> string,
                                nos: set<string>, sources: seq<Source>)
  {
    sources == []
    || (var init, last := sources[..|sources| - 1], sources[|sources| - 1];
        NextIsCounted(next, read, write, nos, init)
        && next(nos + Elements(Sequential(next, nos, init)), last) == write(last, read(last) + Uses(init, last) + 1))
  }

  lemma {:induction false} SequentialIsCounted(next: (set<string>, Source) -> string, read: Source -> int,
                                               write: (Source, int) -> string, nos: set<string>, sources: seq<Source>)
    requires NextIsCounted(next, read, write, nos, sources)
    ensures Sequential(next, nos, sources) == CountedUp(read, write, sources)
    decreases |sources|
  {
    if sources != [] { SequentialIsCounted(next, read, write, nos, sources[..|sources| - 1]); }
  }

  lemma NextOfMaximum(nos: set<string>, grown: set<string>, source: Source, uses: nat)
    requires MaxSeq(grown, PrefixOf(source)) == MaxSeq(nos, PrefixOf(source)) + uses
    ensures NextFor(grown, source) == Label(source, Maximum(nos)(source) + uses + 1)
  {
  }

  lemma {:induction false} IssuedIsCounted(nos: set<string>, sources: seq<Source>)
    requires QuestionNosIssued(nos)
    ensures NextIsCounted(NextFor, Maximum(nos), Label, nos, sources)
    decreases |sources|
  {
    if sources != [] {
      var init, last := sources[..|sources| - 1], sources[|sources| - 1];
      IssuedIsCounted(nos, init);
      MaximumCountsUp(nos, init, last);
      NextOfMaximum(nos, nos + Elements(OneAtATime(nos, init)), last, Uses(init, last));
    }
  }

  /** Reading the maximum once per prefix equals reading it again for every single question. */
  lemma BlockIsOneAtATime(nos: set<string>, sources: seq<Source>)
    requires QuestionNosIssued(nos)
    ensures Block(nos, sources) == OneAtATime(nos, sources)
  {
    IssuedIsCounted(nos, sources);
    SequentialIsCounted(NextFor, Maximum(nos), Label, nos, sources);
  }

  ghost predicate CounterAgrees(seqs: map<Source, int>, read: Source -> int, done: seq<Source>, source: Source) {
    if source in seqs then seqs[source] == read(source) + Uses(done, source) else Uses(done, source) == 0
  }

  /** The counters of the create-batch transaction, kept per source: each source's maximum is read when its
      first question comes, and counted up in memory. */
  method CountUp(read: Source -> int, write: (Source, int) -> string, sources: seq<Source>) returns (out: seq<string>)
    ensures out == CountedUp(read, write, sources)
  {
    var seqs: map<Source, int> := map[];
    out := [];
    for i := 0 to |sources|
      invariant out == CountedUp(read, write, sources[..i])
      invariant CounterAgrees(seqs, read, sources[..i], AI)
      invariant CounterAgrees(seqs, read, sources[..i], Scale)
    {
      assert sources[..i + 1][..i] == sources[..i];
      assert sources[i] == AI || sources[i] == Scale;
      if sources[i] !in seqs {
        seqs := seqs[sources[i] := read(sources[i])];
      }
      seqs := seqs[sources[i] := seqs[sources[i]] + 1];
      out := out + [write(sources[i], seqs[sources[i]])];
    }
    assert sources[..|sources|] == sources;
  }

  /** Block numbering, on any table whatever. */
  method NumberBlock(nos: set<string>, sources: seq<Source>) returns (out: seq<string>)
    ensures out == Block(nos, sources)
  {
    out := CountUp(Maximum(nos), Label, sources);
  }

  // ---------------------------------------------------------------- batch numbers

  /** The k-th batch number of a day: no suffix, then -2, -3, ... */
  function BatchNo(stem: string, k: nat): string
    requires k >= 1
  {
    if k == 1 then stem else stem + "-" + Decimal(k)
  }

  function DecimalInt(n: int): string {
    if n >= 0 then Decimal(n) else "-" + Decimal(-n)
  }

  /** The next batch number under a stem, or None where the source reports an unparsable tail. */
  function NextBatchNo(nos: set<string>, stem: string): Option<string> {
    var rows := WithPrefix(nos, stem);
    if rows == {} then Some(stem)
    else
      var tail := Top(rows)[|stem|..];
      if tail == "" then Some(stem + "-2")
      else match ParseInt(tail[1..])
        case None => None
        case Some(n) => Some(stem + "-" + DecimalInt(n + 1))
  }

  ghost predicate BatchNosIssued(nos: set<string>, stem: string) {
    forall x :: x in WithPrefix(nos, stem) ==> exists k: nat :: k >= 1 && x == BatchNo(stem, k)
  }

  lemma BatchNoTail(stem: string, k: nat)
    requires k >= 1
    ensures StartsWith(BatchNo(stem, k), stem)
    ensures BatchNo(stem, k)[|stem|..] == if k == 1 then "" else "-" + Decimal(k)
  {
    if k == 1 { assert stem[|stem|..] == ""; }
    else { assert stem + "-" + Decimal(k) == stem + ("-" + Decimal(k)); }
  }

  lemma BatchNoOrder(stem: string, j: nat, k: nat)
    requires j >= 1 && k >= 1
    ensures LengthLexLess(BatchNo(stem, j), BatchNo(stem, k)) <==> j < k
    ensures BatchNo(stem, j) == BatchNo(stem, k) <==> j == k
  {
    BatchNoTail(stem, j); BatchNoTail(stem, k);
    DecimalFacts(j); DecimalFacts(k);
    PrintedOrderIsNumeric(j, k);
    LexTrichotomy(stem, stem);
    if j > 1 && k > 1 {
      PrefixKeepsOrder(stem + "-", Decimal(j), Decimal(k));
      if BatchNo(stem, j) == BatchNo(stem, k) {
        assert ("-" + Decimal(j))[1..] == Decimal(j) && ("-" + Decimal(k))[1..] == Decimal(k);
      }
    }
  }

  lemma NextFromTop(nos: set<string>, stem: string, k: nat)
    requires k >= 1 && WithPrefix(nos, stem) != {} && Top(WithPrefix(nos, stem)) == BatchNo(stem, k)
    ensures NextBatchNo(nos, stem) == Some(BatchNo(stem, k + 1))
  {
    BatchNoTail(stem, k);
    if k > 1 {
      assert ("-" + Decimal(k))[1..] == Decimal(k);
      ParseInvertsPrinting(k);
    } else {
      assert stem + "-" + Decimal(2) == stem + "-2" by { assert Decimal(2) == "2"; }
    }
  }

  lemma TopIsGreatestBatch(nos: set<string>, stem: string, k: nat, j: nat)
    requires k >= 1 && WithPrefix(nos, stem) != {} && Top(WithPrefix(nos, stem)) == BatchNo(stem, k)
    requires j >= 1 && BatchNo(stem, j) in nos
    ensures j <= k
  {
    BatchNoTail(stem, j);
    assert BatchNo(stem, j) in WithPrefix(nos, stem);
    BatchNoOrder(stem, j, k);
  }

  lemma OneMoreBatchIssued(nos: set<string>, stem: string, k: nat)
    requires k >= 1 && BatchNosIssued(nos, stem)
    ensures BatchNosIssued(nos + {BatchNo(stem, k)}, stem)
  {
    forall x | x in WithPrefix(nos + {BatchNo(stem, k)}, stem)
      ensures exists j: nat :: j >= 1 && x == BatchNo(stem, j)
    {
      if x in nos { assert x in WithPrefix(nos, stem); }
    }
  }

  /** The next batch number is the numeric successor of the greatest one in use, and it is new. */
  lemma NextBatchNoIsSuccessor(nos: set<string>, stem: string) returns (k: nat)
    requires BatchNosIssued(nos, stem)
    ensures NextBatchNo(nos, stem) == Some(BatchNo(stem, k + 1))
    ensures BatchNo(stem, k + 1) !in nos
    ensures k == 0 <==> WithPrefix(nos, stem) == {}
    ensures k > 0 ==> BatchNo(stem, k) in nos
    ensures forall j: nat | j >= 1 && BatchNo(stem, j) in nos :: j <= k
    ensures BatchNosIssued(nos + {BatchNo(stem, k + 1)}, stem)
  {
    if WithPrefix(nos, stem) == {} {
      k := 0;
      forall j: nat | j >= 1 ensures BatchNo(stem, j) !in nos {
        BatchNoTail(stem, j);
        assert BatchNo(stem, j) !in WithPrefix(nos, stem);
      }
    } else {
      k :| k >= 1 && Top(WithPrefix(nos, stem)) == BatchNo(stem, k);
      NextFromTop(nos, stem, k);
      forall j: nat | j >= 1 && BatchNo(stem, j) in nos ensures j <= k {
        TopIsGreatestBatch(nos, stem, k, j);
      }
    }
    OneMoreBatchIssued(nos, stem, k + 1);
  }
}
