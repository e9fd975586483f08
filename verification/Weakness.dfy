/** Common weaknesses of a module: the two lowest dimension averages, and a third that ties the second.

    Averages are compared up to an epsilon. Scores are integers and averages quotients, so as long as
    head counts stay moderate the comparison is the exact one, rounding included. */
module Weakness {
  import opened Numbering
  import Folding
  import Sorting

  const AVG_MIN_PEOPLE := 3
  const WEAKNESS_MAX_COUNT := 2
  const WEAKNESS_HARD_CAP := 3
  const LOW_SCORE_LINE := 60
  const EPSILON := 0.000000001

  /** One dimension's totals; `avg` is the stored average, the quotient up to rounding. */
  datatype Agg = Agg(sum: int, count: nat, low: nat, avg: real)
  datatype Item = Item(code: string, agg: Agg)
  type Aggs = map<string, Agg>

  function Abs(x: real): real {
    if x < 0.0 then -x else x
  }

  /** The comparator: a difference beyond epsilon decides, else the code. */
  predicate Less(a: Item, b: Item) {
    if Abs(a.agg.avg - b.agg.avg) > EPSILON then a.agg.avg < b.agg.avg else LexLess(a.code, b.code)
  }

  // ---------------------------------------------------------------- exact averages

  /** The exact average. */
  function Quotient(a: Agg): real {
    if a.count == 0 then 0.0 else a.sum as real / a.count as real
  }

  predicate SameAverage(a: Agg, b: Agg) {
    Quotient(a) == Quotient(b)
  }

  predicate LowerAverage(a: Agg, b: Agg) {
    Quotient(a) < Quotient(b)
  }

  /** Exact order of averages, then of codes. */
  predicate ExactBefore(a: Item, b: Item) {
    LowerAverage(a.agg, b.agg) || (SameAverage(a.agg, b.agg) && LexLess(a.code, b.code))
  }

  /** The stored average is the quotient up to `r`. */
  predicate Rounded(a: Agg, r: real) {
    a.count > 0 && Abs(a.avg - Quotient(a)) <= r
  }

  /** The epsilon widened by the rounding of two averages. */
  function Margin(r: real): real {
    EPSILON + 2.0 * r
  }

  /** A product as one term. */
  function Times(x: real, y: real): real {
    x * y
  }

  function Gcd(m: nat, n: nat): (g: nat)
    ensures m > 0 || n > 0 ==> g > 0
    decreases n
  {
    if n == 0 then m else Gcd(n, m % n)
  }

  lemma DivMod(m: nat, n: nat) returns (q: nat, r: nat)
    requires n > 0
    ensures r == m % n < n && q == m / n && q * n + r == m
  {
    q, r := m / n, m % n;
  }

  lemma CombinedParts(q: nat, n: nat, r: nat, c: nat, d: nat, g: nat) returns (a: nat)
    requires n == c * g && r == d * g
    ensures q * n + r == a * g
  {
    a := q * c + d;
    assert q * (c * g) == (q * c) * g;
    assert (q * c + d) * g == (q * c) * g + d * g;
  }

  /** The greatest common divisor divides both. */
  lemma {:induction false} GcdParts(m: nat, n: nat) returns (a: nat, b: nat)
    ensures m == a * Gcd(m, n) && n == b * Gcd(m, n)
    decreases n
  {
    if n == 0 {
      a, b := 1, 0;
    } else {
      var q, r := DivMod(m, n);
      var c, d := GcdParts(n, r);
      a := CombinedParts(q, n, r, c, d, Gcd(n, r));
      b := c;
    }
  }

  /** It is a combination of the two. */
  lemma {:induction false} Bezout(m: nat, n: nat) returns (x: int, y: int)
    ensures x * m + y * n == Gcd(m, n)
    decreases n
  {
    if n == 0 {
      x, y := 1, 0;
    } else {
      var q, r := DivMod(m, n);
      var u, v := Bezout(n, r);
      y := BezoutStep(m, n, u, v, q, r);
      x := v;
    }
  }

  lemma BezoutStep(m: nat, n: nat, u: int, v: int, q: nat, r: nat) returns (y: int)
    requires q * n + r == m
    ensures v * m + y * n == u * n + v * r
  {
    y := u - q * v;
    assert v * (q * n + r) == q * v * n + v * r;
    assert (u - q * v) * n == u * n - q * v * n;
  }

  function Product(m: nat, n: nat): nat {
    m * n
  }

  function Quot(n: nat, g: nat): nat
    requires g > 0
  {
    n / g
  }

  function Lcm(m: nat, n: nat): nat {
    if m == 0 || n == 0 then 0 else Product(m, Quot(n, Gcd(m, n)))
  }

  /** Both counts divide the least common multiple. */
  lemma LcmParts(m: nat, n: nat) returns (k: nat, l: nat)
    requires m > 0 && n > 0
    ensures k > 0 && l > 0 && Lcm(m, n) == m * k == n * l
    ensures m == l * Gcd(m, n) && n == k * Gcd(m, n)
  {
    var g := Gcd(m, n);
    l, k := GcdParts(m, n);
    Quotients(n, k, g);
    assert m * k == (l * g) * k == (k * g) * l == n * l;
  }

  lemma Quotients(n: nat, k: nat, g: nat)
    requires n == k * g && g > 0
    ensures n / g == k
  {
    var q, r := n / g, n % g;
    assert n == q * g + r;
    assert (k - q) * g == k * g - q * g == r;
    SmallMultiple(k - q, g);
  }

  lemma SmallMultiple(t: int, g: nat)
    requires 0 <= t * g < g
    ensures t == 0
  {
    if t >= 1 { ProductAtLeast(t, g); }
    if t <= -1 { ProductAtLeast(-t, g); }
  }

  function CommonHeads(a: Agg, b: Agg): real {
    Lcm(a.count, b.count) as real
  }

  /** Head counts moderate enough for the epsilon. Without rounding: their least common multiple is below
      10^9. */
  predicate Moderate(a: Agg, b: Agg, r: real) {
    0.0 <= 2.0 * r <= EPSILON && Times(Margin(r), CommonHeads(a, b)) < 1.0
  }

  lemma QuotientTimes(a: Agg, m: nat)
    requires a.count > 0
    ensures Quotient(a) * (a.count * m) as real == (a.sum * m) as real
  {
    var q, n := Quotient(a), a.count as real;
    assert q * n == a.sum as real;
    assert (a.count * m) as real == n * m as real;
    assert q * (n * m as real) == (q * n) * m as real;
  }

  /** The difference of two averages, cleared of denominators, is whole. */
  lemma DifferenceTimes(a: Agg, b: Agg) returns (d: int)
    requires a.count > 0 && b.count > 0
    ensures Times(Quotient(a) - Quotient(b), CommonHeads(a, b)) == d as real
  {
    var k, l := LcmParts(a.count, b.count);
    QuotientTimes(a, k);
    QuotientTimes(b, l);
    SumTimes(Quotient(a), Quotient(b), CommonHeads(a, b));
    d := a.sum * k - b.sum * l;
  }

  lemma NonNegativeTimes(x: real, p: real)
    requires x >= 0.0 && p >= 0.0
    ensures x * p >= 0.0
  {
  }

  lemma SumTimes(x: real, y: real, p: real)
    ensures (x - y) * p == x * p - y * p
    ensures (x + y) * p == x * p + y * p
  {
  }

  lemma SmallTimes(x: real, bound: real, p: real)
    requires Abs(x) <= bound && p > 0.0 && Times(bound, p) < 1.0
    ensures -1.0 < Times(x, p) < 1.0
  {
    NonNegativeTimes(bound - x, p);
    NonNegativeTimes(bound + x, p);
    SumTimes(bound, x, p);
    var t, u := x * p, bound * p;
    assert t <= u && -t <= u;
  }

  lemma SignTimes(x: real, p: real)
    requires p > 0.0
    ensures x < 0.0 <==> Times(x, p) < 0.0
    ensures x > 0.0 <==> Times(x, p) > 0.0
  {
    if x < 0.0 { assert (-x) * p > 0.0; }
    if x > 0.0 { assert x * p > 0.0; }
  }

  lemma CloseMeansZero(u: real, v: real, x: real, r: real, bound: real, p: real, d: int)
    requires Abs(u - v - x) <= 2.0 * r && EPSILON + 2.0 * r <= bound && p > 0.0 && Times(bound, p) < 1.0 && Times(x, p) == d as real
    requires Abs(u - v) <= EPSILON
    ensures x == 0.0
  {
    assert Abs(x) <= bound;
    SmallTimes(x, bound, p);
    SignTimes(x, p);
  }

  /** Within the bound the epsilon separates exactly the different averages. */
  lemma EpsilonIsExact(a: Agg, b: Agg, r: real)
    requires Rounded(a, r) && Rounded(b, r) && Moderate(a, b, r)
    ensures Abs(a.avg - b.avg) <= EPSILON <==> SameAverage(a, b)
    ensures Abs(a.avg - b.avg) > EPSILON ==> (a.avg < b.avg <==> LowerAverage(a, b))
  {
    var x := Quotient(a) - Quotient(b);
    var d := DifferenceTimes(a, b);
    var k, l := LcmParts(a.count, b.count);
    PositiveProduct(a.count, k);
    if Abs(a.avg - b.avg) <= EPSILON {
      CloseMeansZero(a.avg, b.avg, x, r, Margin(r), CommonHeads(a, b), d);
    }
  }

  predicate ToldApart(x: int, m: nat, y: int, n: nat)
    requires m > 0 && n > 0
  {
    var p, q := x as real / m as real, y as real / n as real;
    Abs(p - q) <= EPSILON ==> p == q
  }

  /** Whatever the sums, different averages of `m` and of `n` heads are told apart. */
  ghost predicate EpsilonSeparates(m: nat, n: nat)
    requires m > 0 && n > 0
  {
    forall x: int, y: int :: ToldApart(x, m, y, n)
  }

  /** Two averages as close as these head counts allow, both between 0 and 1. */
  lemma ClosestAverages(m: nat, n: nat) returns (x: int, y: int)
    requires m > 0 && n > 0
    ensures 0 <= x <= m && 0 <= y <= n && x * n - y * m == Gcd(m, n)
  {
    var g := Gcd(m, n);
    var u, v := Bezout(m, n);
    var q := v / m;
    x, y := v % m, -u - q * n;
    assert v == q * m + x;
    Shifted(m, n, u, v, q, x, y, g);
    var l, k := GcdParts(m, n);
    AtMost(l, g, m);
    if y < 0 {
      NegativeBelow(x, n, y, m, g);
      assert (x + m) * n - (y + n) * m == x * n - y * m;
      x, y := x + m, y + n;
    } else {
      PositiveBelow(x, n, y, m, g);
    }
  }

  lemma Shifted(m: nat, n: nat, u: int, v: int, q: int, x: int, y: int, g: nat)
    requires u * m + v * n == g && v == q * m + x && y == -u - q * n
    ensures x * n - y * m == g
  {
    assert v * n == q * m * n + x * n;
    assert y * m == -u * m - q * n * m;
    assert q * n * m == q * m * n;
  }

  lemma AtMost(l: nat, g: nat, m: nat)
    requires m == l * g && m > 0
    ensures g <= m
  {
    assert l != 0;
    ProductAtLeast(l, g);
  }

  /** A negative second sum means the first is zero and the second minus one. */
  lemma NegativeBelow(x: int, n: nat, y: int, m: nat, g: nat)
    requires 0 <= x < m && x * n - y * m == g && y < 0 && 0 < g <= m && n > 0
    ensures x == 0 && y == -1
  {
    assert -y * m >= m by { ProductAtLeast(-y, m); }
    if x > 0 { ProductAtLeast(x, n); }
    if y < -1 { TwiceAtLeast(-y, m); }
  }

  lemma ProductAtLeast(k: int, m: nat)
    requires k >= 1
    ensures k * m >= m
  {
  }

  lemma TwiceAtLeast(k: int, m: nat)
    requires k >= 2
    ensures k * m >= 2 * m
  {
  }

  lemma PositiveBelow(x: int, n: nat, y: int, m: nat, g: nat)
    requires 0 <= x < m && x * n - y * m == g && y >= 0 && g > 0
    ensures y <= n
  {
    MoreHeads(m, x, n);
    assert n * m == m * n;
    SmallerFactor(y, n, m);
  }

  lemma SmallerFactor(y: int, n: nat, m: nat)
    requires y * m < n * m
    ensures y < n
  {
    if y >= n { MoreHeads(y, n, m); }
  }

  lemma MoreHeads(k: int, l: int, m: nat)
    requires k >= l
    ensures k * m >= l * m
  {
  }

  /** Without rounding the epsilon separates all different averages of two head counts exactly when their
      least common multiple is below 10^9. */
  lemma EpsilonSeparatesIff(m: nat, n: nat)
    requires m > 0 && n > 0
    ensures EpsilonSeparates(m, n) <==> Lcm(m, n) < 1_000_000_000
  {
    var k, l := LcmParts(m, n);
    PositiveProduct(m, k);
    if Lcm(m, n) < 1_000_000_000 {
      forall x: int, y: int ensures ToldApart(x, m, y, n) {
        var a, b := Agg(x, m, 0, x as real / m as real), Agg(y, n, 0, y as real / n as real);
        assert Times(Margin(0.0), CommonHeads(a, b)) == 0.000000001 * Lcm(m, n) as real;
        EpsilonIsExact(a, b, 0.0);
      }
    } else {
      var x, y := ClosestAverages(m, n);
      CloseButDifferent(m, n, x, y, k, l);
      assert !ToldApart(x, m, y, n);
    }
  }

  lemma CloseButDifferent(m: nat, n: nat, x: int, y: int, k: nat, l: nat)
    requires m > 0 && n > 0 && k > 0 && l > 0 && Lcm(m, n) == m * k == n * l >= 1_000_000_000
    requires m == l * Gcd(m, n) && n == k * Gcd(m, n) && x * n - y * m == Gcd(m, n)
    ensures 0.0 < x as real / m as real - y as real / n as real <= EPSILON
  {
    var g := Gcd(m, n);
    var a, b := Agg(x, m, 0, 0.0), Agg(y, n, 0, 0.0);
    QuotientTimes(a, k);
    QuotientTimes(b, l);
    var diff, heads := Quotient(a) - Quotient(b), Lcm(m, n) as real;
    SumTimes(Quotient(a), Quotient(b), heads);
    WholeStep(x, y, k, l, g, m, n);
    assert diff * heads == 1.0;
    OneOver(diff, heads);
  }

  lemma WholeStep(x: int, y: int, k: nat, l: nat, g: nat, m: nat, n: nat)
    requires m == l * g && n == k * g && x * n - y * m == g > 0
    ensures x * k - y * l == 1
  {
    assert x * (k * g) == (x * k) * g && y * (l * g) == (y * l) * g;
    assert (x * k - y * l) * g == g;
    OnlyOne(x * k - y * l, g);
  }

  lemma OnlyOne(t: int, g: nat)
    requires t * g == g && g > 0
    ensures t == 1
  {
    assert (t - 1) * g == 0;
  }

  lemma OneOver(diff: real, heads: real)
    requires diff * heads == 1.0 && heads >= 1_000_000_000.0
    ensures 0.0 < diff <= EPSILON
  {
    SumTimes(diff, EPSILON, heads);
    SignTimes(diff, heads);
    SignTimes(diff - EPSILON, heads);
  }

  lemma PositiveProduct(m: nat, n: nat)
    requires m > 0 && n > 0
    ensures m * n > 0
  {
  }

  /** Without a bound the comparator is no order at all: three averages close in pairs but not overall. */
  lemma CompareCanCycle()
    ensures exists a: Item, b: Item, c: Item :: Rounded(a.agg, 0.0) && Rounded(b.agg, 0.0) && Rounded(c.agg, 0.0)
                              && Less(a, b) && Less(b, c) && Less(c, a)
  {
    var c := Item("c", Agg(14999, 29999, 0, 14999.0 / 29999.0));
    var b := Item("b", Agg(29999, 60000, 0, 29999.0 / 60000.0));
    var a := Item("a", Agg(15000, 30001, 0, 15000.0 / 30001.0));
    assert LexLess("a", "b") && LexLess("b", "c");
    assert Less(a, b) && Less(b, c) && Less(c, a);
  }

  // ---------------------------------------------------------------- the comparator, within the bound

  lemma LessIsExact(a: Item, b: Item, r: real)
    requires Rounded(a.agg, r) && Rounded(b.agg, r) && Moderate(a.agg, b.agg, r)
    ensures Less(a, b) <==> ExactBefore(a, b)
  {
    EpsilonIsExact(a.agg, b.agg, r);
  }

  /** Exact averages form a total order with the codes. */
  lemma ExactTrichotomy(a: Item, b: Item)
    ensures a.code == b.code || ExactBefore(a, b) || ExactBefore(b, a)
    ensures !(ExactBefore(a, b) && ExactBefore(b, a))
  {
    LexTrichotomy(a.code, b.code);
  }

  lemma ExactIsStrict()
    ensures Sorting.StrictOrder(ExactBefore)
  {
    forall x, y | ExactBefore(x, y) ensures !ExactBefore(y, x) {
      LexTrichotomy(x.code, y.code);
    }
    forall x, y, z | ExactBefore(x, z) ensures ExactBefore(x, y) || ExactBefore(y, z) {
      LexTrichotomy(x.code, y.code);
      LexTrichotomy(y.code, z.code);
      if LexLess(x.code, z.code) && LexLess(y.code, x.code) { LexTransitive(y.code, x.code, z.code); }
    }
  }

  // ---------------------------------------------------------------- the result

  /** The items in sorted order, cut as the source cuts them. */
  function Cut(sorted: seq<Item>): set<string> {
    var n := if WEAKNESS_MAX_COUNT > |sorted| then |sorted| else WEAKNESS_MAX_COUNT;
    (set i | 0 <= i < n :: sorted[i].code)
    + (set i | WEAKNESS_MAX_COUNT <= i < |sorted| && i < WEAKNESS_HARD_CAP
               && Abs(sorted[i].agg.avg - sorted[WEAKNESS_MAX_COUNT - 1].agg.avg) <= EPSILON :: sorted[i].code)
  }

  function ItemsOf(aggs: Aggs): set<Item> {
    set c | c in aggs :: Item(c, aggs[c])
  }

  /** How many dimensions are exactly lower. */
  function Rank(aggs: Aggs, x: Item): nat {
    |set y | y in ItemsOf(aggs) && ExactBefore(y, x)|
  }

  /** The reference: rank below two, or third with exactly the average of the second. */
  ghost predicate IsWeak(aggs: Aggs, code: string) {
    && code in aggs
    && var x := Item(code, aggs[code]);
       || Rank(aggs, x) < 2
       || (Rank(aggs, x) == 2 && exists y :: y in ItemsOf(aggs) && Rank(aggs, y) == 1 && SameAverage(x.agg, y.agg))
  }

  ghost predicate Arranges(aggs: Aggs, s: seq<Item>) {
    && (forall x :: x in s <==> x in ItemsOf(aggs))
    && (forall i, j :: 0 <= i < j < |s| ==> s[i].code != s[j].code)
  }

  ghost predicate ModerateAggs(aggs: Aggs, r: real) {
    && (forall c :: c in aggs ==> Rounded(aggs[c], r))
    && (forall c, d :: c in aggs && d in aggs && c != d ==> Moderate(aggs[c], aggs[d], r))
  }

  /** In a sorted arrangement, earlier means exactly lower. */
  lemma SortedIsExact(aggs: Aggs, s: seq<Item>, r: real, i: nat, j: nat)
    requires Arranges(aggs, s) && ModerateAggs(aggs, r) && Sorting.Sorted(s, Less) && i < |s| && j < |s|
    ensures i < j <==> ExactBefore(s[i], s[j])
  {
    assert s[i] in s && s[j] in s;
    if i != j {
      LessIsExact(s[i], s[j], r);
      LessIsExact(s[j], s[i], r);
    }
    ExactTrichotomy(s[i], s[j]);
  }

  lemma {:induction false} PrefixSize(s: seq<Item>, n: nat)
    requires n <= |s| && forall i, j :: 0 <= i < j < |s| ==> s[i].code != s[j].code
    ensures |set i | 0 <= i < n :: s[i]| == n
    decreases n
  {
    if n > 0 {
      PrefixSize(s, n - 1);
      assert (set i | 0 <= i < n :: s[i]) == (set i | 0 <= i < n - 1 :: s[i]) + {s[n - 1]};
    }
  }

  lemma RankIsPosition(aggs: Aggs, s: seq<Item>, r: real, i: nat)
    requires Arranges(aggs, s) && ModerateAggs(aggs, r) && Sorting.Sorted(s, Less) && i < |s|
    ensures Rank(aggs, s[i]) == i
  {
    var before := set y | y in ItemsOf(aggs) && ExactBefore(y, s[i]);
    forall y ensures y in before <==> y in (set k | 0 <= k < i :: s[k]) {
      if y in before {
        var k :| 0 <= k < |s| && s[k] == y;
        SortedIsExact(aggs, s, r, k, i);
      }
      if y in (set k | 0 <= k < i :: s[k]) {
        var k :| 0 <= k < i && s[k] == y;
        SortedIsExact(aggs, s, r, k, i);
      }
    }
    PrefixSize(s, i);
    assert before == set k | 0 <= k < i :: s[k];
  }

  /** Whatever order the map was read in and whichever way it was sorted, the cut is the reference. */
  lemma CutIsWeakest(aggs: Aggs, s: seq<Item>, r: real, code: string)
    requires Arranges(aggs, s) && ModerateAggs(aggs, r) && Sorting.Sorted(s, Less)
    ensures code in Cut(s) <==> IsWeak(aggs, code)
  {
    forall i | 0 <= i < |s| ensures Rank(aggs, s[i]) == i && s[i].code in aggs && s[i] == Item(s[i].code, aggs[s[i].code]) {
      RankIsPosition(aggs, s, r, i);
      assert s[i] in s;
    }
    if |s| > 2 {
      EpsilonIsExact(s[2].agg, s[1].agg, r);
      assert s[1] in s;
    }
    if code in aggs {
      var x := Item(code, aggs[code]);
      assert x in ItemsOf(aggs);
      var i :| 0 <= i < |s| && s[i] == x;
      CutAt(s, i);
      if i == 2 {
        forall y | y in ItemsOf(aggs) && Rank(aggs, y) == 1 ensures y == s[1] {
          var k :| 0 <= k < |s| && s[k] == y;
        }
      }
    } else {
      CutMembers(s, code);
    }
  }

  lemma CutAt(s: seq<Item>, i: nat)
    requires i < |s| && forall i, j :: 0 <= i < j < |s| ==> s[i].code != s[j].code
    ensures s[i].code in Cut(s) <==> i < 2 || (i == 2 && Abs(s[2].agg.avg - s[1].agg.avg) <= EPSILON)
  {
  }

  lemma CutOfFew(aggs: Aggs, s: seq<Item>, code: string)
    requires Arranges(aggs, s) && |s| <= WEAKNESS_MAX_COUNT
    ensures code in Cut(s) <==> code in aggs
  {
    if code in aggs {
      assert Item(code, aggs[code]) in ItemsOf(aggs);
      var i :| 0 <= i < |s| && s[i] == Item(code, aggs[code]);
      CutAt(s, i);
    }
    if code in Cut(s) {
      CutMembers(s, code);
      var i :| 0 <= i < |s| && s[i].code == code;
      assert s[i] in s;
    }
  }

  lemma CutMembers(s: seq<Item>, code: string)
    ensures code in Cut(s) ==> exists i :: 0 <= i < |s| && s[i].code == code
  {
  }

  lemma LcmAtMostProduct(m: nat, n: nat)
    ensures Lcm(m, n) <= m * n
  {
    if m > 0 && n > 0 {
      var k, l := LcmParts(m, n);
      var g := Gcd(m, n);
      assert n == k * g >= k by { ProductAtLeast(g, k); }
      MoreHeads(n, k, m);
    }
  }

  /** What the bound means in head counts: exact quotients allow a least common multiple just below 10^9,
      quotients stored with an error of 10^-13 one of 999 million, and with it any product up to that. */
  lemma ModerateInHeads(a: Agg, b: Agg)
    ensures Moderate(a, b, 0.0) <==> Lcm(a.count, b.count) < 1_000_000_000
    ensures Lcm(a.count, b.count) <= 999_000_000 ==> Moderate(a, b, 0.0000000000001)
    ensures a.count * b.count <= 999_000_000 ==> Moderate(a, b, 0.0000000000001)
  {
    var p := CommonHeads(a, b);
    LcmAtMostProduct(a.count, b.count);
    assert Times(Margin(0.0), p) == 0.000000001 * p;
    assert Times(Margin(0.0000000000001), p) == 0.0000000010002 * p;
  }

  // ---------------------------------------------------------------- aggregation

  datatype Row = Row(code: string, source: string, success: bool, insufficient: bool, score: int)

  predicate Takes(r: Row, source: string, code: string) {
    r.source == source && r.success && !r.insufficient && r.code == code
  }

  datatype Acc = Acc(sum: int, count: nat, low: nat)

  function AddRow(source: string, code: string): (Acc, Row) -> Acc {
    (acc: Acc, r: Row) =>
      if Takes(r, source, code) then Acc(acc.sum + r.score, acc.count + 1, acc.low + if r.score < LOW_SCORE_LINE then 1 else 0)
      else acc
  }

  function Totals(rows: seq<Row>, source: string, code: string): Acc {
    Folding.Fold(Acc(0, 0, 0), rows, AddRow(source, code))
  }

  /** A dimension's totals do not depend on the order in which the rows are read. */
  lemma TotalsIgnoreOrder(a: seq<Row>, b: seq<Row>, source: string, code: string)
    requires multiset(a) == multiset(b)
    ensures Totals(a, source, code) == Totals(b, source, code)
  {
    Folding.FoldIgnoresOrder(Acc(0, 0, 0), a, b, AddRow(source, code));
  }

  /** The rows that count towards a dimension, below a line or altogether. */
  ghost function Counted(rows: seq<Row>, source: string, code: string, lowOnly: bool): set<int> {
    set i | 0 <= i < |rows| && rows[i].code == code && rows[i].source == source && rows[i].success && !rows[i].insufficient
            && (lowOnly ==> rows[i].score < 60)
  }

  /** The scores of the counted rows, added up. */
  ghost function ScoreSum(rows: seq<Row>, counted: set<int>): int
    requires forall i :: i in counted ==> 0 <= i < |rows|
    decreases |rows|
  {
    if rows == [] then 0
    else
      var k := |rows| - 1;
      ScoreSum(rows[..k], counted - {k}) + if k in counted then rows[k].score else 0
  }

  lemma CountedSnoc(rows: seq<Row>, source: string, code: string, lowOnly: bool)
    requires rows != []
    ensures var k := |rows| - 1;
            && Counted(rows, source, code, lowOnly) - {k} == Counted(rows[..k], source, code, lowOnly)
            && |Counted(rows, source, code, lowOnly)|
               == |Counted(rows[..k], source, code, lowOnly)| + if k in Counted(rows, source, code, lowOnly) then 1 else 0
  {
    var k := |rows| - 1;
    assert Counted(rows, source, code, lowOnly) - {k} == Counted(rows[..k], source, code, lowOnly);
  }

  /** The totals of a dimension count its successful, sufficient rows of the source, add up their scores,
      and count those below 60. */
  lemma {:induction false} TotalsCount(rows: seq<Row>, source: string, code: string)
    ensures var t := Totals(rows, source, code);
            && t.count == |Counted(rows, source, code, false)|
            && t.low == |Counted(rows, source, code, true)|
            && t.sum == ScoreSum(rows, Counted(rows, source, code, false))
    decreases |rows|
  {
    if rows != [] {
      TotalsCount(rows[..|rows| - 1], source, code);
      CountedSnoc(rows, source, code, false);
      CountedSnoc(rows, source, code, true);
    }
  }

  /** Every dimension with at least three counted rows, and no other. `round` is the rounding of the
      quotient. */
  ghost predicate Aggregates(rows: seq<Row>, source: string, round: real -> real, out: Aggs) {
    forall c ::
      var t := Totals(rows, source, c);
      && (c in out <==> t.count >= AVG_MIN_PEOPLE)
      && (c in out ==> out[c] == Agg(t.sum, t.count, t.low, round(t.sum as real / t.count as real)))
  }

  /** In terms of the rows: a dimension has an average exactly when three of its rows count, and then its
      share of low scores is that of the rows counted. */
  lemma AggregatesCount(rows: seq<Row>, source: string, round: real -> real, out: Aggs, c: string)
    requires Aggregates(rows, source, round, out)
    ensures c in out <==> |Counted(rows, source, c, false)| >= 3
    ensures c in out ==>
              && out[c].count == |Counted(rows, source, c, false)| && out[c].low == |Counted(rows, source, c, true)|
              && out[c].avg == round(ScoreSum(rows, Counted(rows, source, c, false)) as real / out[c].count as real)
  {
    TotalsCount(rows, source, c);
  }

  method AggregateDimScores(rows: seq<Row>, source: string, round: real -> real) returns (out: Aggs)
    ensures Aggregates(rows, source, round, out)
  {
    var byCode: map<string, Acc> := map[];
    for i := 0 to |rows|
      invariant forall c :: Totals(rows[..i], source, c) == if c in byCode then byCode[c] else Acc(0, 0, 0)
    {
      var r := rows[i];
      assert rows[..i + 1][..i] == rows[..i];
      if r.source != source || !r.success || r.insufficient {
        assert forall c :: Totals(rows[..i + 1], source, c) == Totals(rows[..i], source, c);
        continue;
      }
      var a := if r.code in byCode then byCode[r.code] else Acc(0, 0, 0);
      a := Acc(a.sum + r.score, a.count + 1, a.low + if r.score < LOW_SCORE_LINE then 1 else 0);
      forall c ensures Totals(rows[..i + 1], source, c) == if c == r.code then a else Totals(rows[..i], source, c) {
      }
      byCode := byCode[r.code := a];
    }
    assert rows[..|rows|] == rows;
    out := map[];
    var rest := byCode.Keys;
    while rest != {}
      invariant rest <= byCode.Keys
      invariant forall c :: c in out <==> c in byCode && c !in rest && byCode[c].count >= AVG_MIN_PEOPLE
      invariant forall c :: c in out ==>
                  var t := byCode[c]; out[c] == Agg(t.sum, t.count, t.low, round(t.sum as real / t.count as real))
      decreases |rest|
    {
      var c :| c in rest;
      rest := rest - {c};
      var t := byCode[c];
      if t.count < AVG_MIN_PEOPLE {
        continue;
      }
      out := out[c := Agg(t.sum, t.count, t.low, round(t.sum as real / t.count as real))];
    }
  }

  /** The library sort under the comparator. Within the bound the comparator is an order and the result is
      sorted; beyond it the result is some arrangement. */
  method SortItems(aggs: Aggs, items: seq<Item>, ghost r: real) returns (sorted: seq<Item>)
    requires Arranges(aggs, items)
    ensures Arranges(aggs, sorted) && |sorted| == |items|
    ensures ModerateAggs(aggs, r) ==> Sorting.Sorted(sorted, Less)
  {
    sorted := Sorting.Sort(items, Less);
    Sorting.SortPermutes(items, Less);
    forall x ensures x in sorted <==> x in items {
      assert x in sorted <==> x in multiset(sorted);
      assert x in items <==> x in multiset(items);
    }
    DistinctAfterSort(items, sorted);
    if ModerateAggs(aggs, r) {
      forall i, j | 0 <= i < |items| && 0 <= j < |items| ensures Less(items[i], items[j]) == ExactBefore(items[i], items[j]) {
        assert items[i] in items && items[j] in items;
        if i != j {
          LessIsExact(items[i], items[j], r);
        } else {
          LexTrichotomy(items[i].code, items[i].code);
        }
      }
      Sorting.SortAgrees(items, Less, ExactBefore);
      ExactIsStrict();
      Sorting.SortMeaning(items, ExactBefore);
      forall i, j | 0 <= i < j < |sorted| ensures !Less(sorted[j], sorted[i]) {
        assert sorted[i] in sorted && sorted[j] in sorted;
        LessIsExact(sorted[j], sorted[i], r);
      }
    }
  }

  /** Rearranging keeps codes distinct. */
  lemma DistinctAfterSort(items: seq<Item>, sorted: seq<Item>)
    requires multiset(items) == multiset(sorted) && forall i, j :: 0 <= i < j < |items| ==> items[i].code != items[j].code
    ensures forall i, j :: 0 <= i < j < |sorted| ==> sorted[i].code != sorted[j].code
  {
    forall i, j | 0 <= i < j < |sorted| ensures sorted[i].code != sorted[j].code {
      var a, b := sorted[i], sorted[j];
      assert a in multiset(items) && b in multiset(items);
      if a == b {
        TwoPlaces(sorted, i, j);
        CountsOnce(items, a);
      }
    }
  }

  lemma TwoPlaces(s: seq<Item>, i: nat, j: nat)
    requires i < j < |s| && s[i] == s[j]
    ensures multiset(s)[s[i]] >= 2
  {
    assert s == s[..j] + s[j..];
    assert s[i] in multiset(s[..j]) by { assert s[..j][i] == s[i]; }
    assert s[i] in multiset(s[j..]) by { assert s[j..][0] == s[i]; }
  }

  lemma {:induction false} CountsOnce(s: seq<Item>, a: Item)
    requires forall i, j :: 0 <= i < j < |s| ==> s[i].code != s[j].code
    ensures multiset(s)[a] <= 1
    decreases |s|
  {
    if s != [] {
      var init, last := s[..|s| - 1], s[|s| - 1];
      assert s == init + [last];
      CountsOnce(init, a);
      if last == a { assert a !in multiset(init); }
    }
  }

  /** The map's entries, in whatever order it yields them. */
  method Enumerate(aggs: Aggs) returns (items: seq<Item>)
    ensures Arranges(aggs, items) && |items| == |aggs|
  {
    items := [];
    var rest := aggs.Keys;
    while rest != {}
      invariant rest <= aggs.Keys && |items| == |aggs.Keys| - |rest|
      invariant forall x :: x in items <==> x.code in aggs && x.code !in rest && x.agg == aggs[x.code]
      invariant forall i, j :: 0 <= i < j < |items| ==> items[i].code != items[j].code
      decreases |rest|
    {
      var c :| c in rest;
      rest := rest - {c};
      items := items + [Item(c, aggs[c])];
    }
  }

  /** The first two, then the third if it is within epsilon of the second. */
  method CutSorted(sorted: seq<Item>) returns (weak: set<string>)
    ensures weak == Cut(sorted)
  {
    weak := {};
    var n := WEAKNESS_MAX_COUNT;
    if n > |sorted| {
      n := |sorted|;
    }
    for i := 0 to n
      invariant weak == set k | 0 <= k < i :: sorted[k].code
    {
      weak := weak + {sorted[i].code};
    }
    var i := WEAKNESS_MAX_COUNT;
    ghost var low := weak;
    while i < |sorted| && i < WEAKNESS_HARD_CAP
      invariant WEAKNESS_MAX_COUNT <= i <= WEAKNESS_HARD_CAP
      invariant weak == low + set k | WEAKNESS_MAX_COUNT <= k < |sorted| && k < i
                                      && Abs(sorted[k].agg.avg - sorted[WEAKNESS_MAX_COUNT - 1].agg.avg) <= EPSILON :: sorted[k].code
      decreases WEAKNESS_HARD_CAP - i
    {
      if Abs(sorted[i].agg.avg - sorted[WEAKNESS_MAX_COUNT - 1].agg.avg) <= EPSILON {
        weak := weak + {sorted[i].code};
      }
      i := i + 1;
    }
    assert i == WEAKNESS_HARD_CAP || |sorted| <= i;
    assert forall c :: c in weak <==> c in Cut(sorted);
  }

  /** Codes in map order, sorted by the comparator, cut. With moderate head counts the result is the
      reference, whatever the map order. */
  method WeaknessSet(aggs: Aggs, ghost r: real) returns (weak: set<string>)
    ensures ModerateAggs(aggs, r) ==> forall c :: c in weak <==> IsWeak(aggs, c)
    ensures |aggs| <= WEAKNESS_MAX_COUNT ==> weak == aggs.Keys
  {
    var items := Enumerate(aggs);
    var sorted := SortItems(aggs, items, r);
    weak := CutSorted(sorted);
    if |aggs| <= WEAKNESS_MAX_COUNT {
      forall c ensures c in weak <==> c in aggs.Keys {
        CutOfFew(aggs, sorted, c);
      }
    }
    if ModerateAggs(aggs, r) {
      forall c ensures c in weak <==> IsWeak(aggs, c) {
        CutIsWeakest(aggs, sorted, r, c);
      }
    }
  }
}
