/** Sorting by a strict order, and why its result does not depend on the input's order. */
module Sorting {
  /** A strict weak order: what a comparator must be for sorting to mean anything. */
  ghost predicate StrictOrder<T(!new)>(before: (T, T) -> bool) {
    && (forall x, y :: before(x, y) ==> !before(y, x))
    && (forall x, y, z :: before(x, z) ==> before(x, y) || before(y, z))
  }

  /** Nothing comes before something listed earlier. */
  predicate Sorted<T>(s: seq<T>, before: (T, T) -> bool) {
    forall i, j :: 0 <= i < j < |s| ==> !before(s[j], s[i])
  }

  /** Any two different elements are ordered one way or the other. */
  predicate Distinguished<T(==)>(s: seq<T>, before: (T, T) -> bool) {
    forall i, j :: 0 <= i < |s| && 0 <= j < |s| ==> s[i] == s[j] || before(s[i], s[j]) || before(s[j], s[i])
  }

  /** Insert after everything that does not come later. */
  function Insert<T>(x: T, s: seq<T>, before: (T, T) -> bool): seq<T>
    decreases |s|
  {
    if s == [] then [x]
    else
      var last := s[|s| - 1];
      if before(x, last) then Insert(x, s[..|s| - 1], before) + [last] else s + [x]
  }

  /** The stable sort: elements of equal rank keep their order. */
  function Sort<T>(s: seq<T>, before: (T, T) -> bool): seq<T>
    decreases |s|
  {
    if s == [] then [] else Insert(s[|s| - 1], Sort(s[..|s| - 1], before), before)
  }

  lemma {:induction false} InsertPermutes<T>(x: T, s: seq<T>, before: (T, T) -> bool)
    ensures multiset(Insert(x, s, before)) == multiset(s) + multiset{x}
    decreases |s|
  {
    if s != [] {
      assert s == s[..|s| - 1] + [s[|s| - 1]];
      InsertPermutes(x, s[..|s| - 1], before);
    }
  }

  lemma NotBefore<T(!new)>(x: T, y: T, z: T, before: (T, T) -> bool)
    requires StrictOrder(before) && !before(x, y) && !before(y, z)
    ensures !before(x, z)
  {
  }

  lemma {:induction false} InsertSorts<T(!new)>(x: T, s: seq<T>, before: (T, T) -> bool)
    requires StrictOrder(before) && Sorted(s, before)
    ensures Sorted(Insert(x, s, before), before)
    decreases |s|
  {
    if s != [] {
      var init, last := s[..|s| - 1], s[|s| - 1];
      if before(x, last) {
        InsertSorts(x, init, before);
        InsertPermutes(x, init, before);
        var r := Insert(x, init, before);
        forall i | 0 <= i < |r| ensures !before(last, r[i]) {
          assert r[i] in multiset(r);
        }
      } else {
        forall i | 0 <= i < |s| ensures !before(x, s[i]) {
          assert i < |init| ==> !before(last, s[i]);
          NotBefore(x, last, s[i], before);
        }
      }
    }
  }

  /** Whatever the comparator, sorting rearranges. */
  lemma {:induction false} SortPermutes<T>(s: seq<T>, before: (T, T) -> bool)
    ensures multiset(Sort(s, before)) == multiset(s) && |Sort(s, before)| == |s|
    decreases |s|
  {
    if s != [] {
      SortPermutes(s[..|s| - 1], before);
      InsertPermutes(s[|s| - 1], Sort(s[..|s| - 1], before), before);
      assert s == s[..|s| - 1] + [s[|s| - 1]];
    }
    assert |multiset(Sort(s, before))| == |multiset(s)|;
  }

  lemma {:induction false} SortMeaning<T(!new)>(s: seq<T>, before: (T, T) -> bool)
    requires StrictOrder(before)
    ensures Sorted(Sort(s, before), before) && multiset(Sort(s, before)) == multiset(s)
    ensures |Sort(s, before)| == |s|
    decreases |s|
  {
    SortPermutes(s, before);
    if s != [] {
      SortMeaning(s[..|s| - 1], before);
      InsertSorts(s[|s| - 1], Sort(s[..|s| - 1], before), before);
    }
  }

  lemma {:induction false} InsertAgrees<T>(x: T, s: seq<T>, f: (T, T) -> bool, g: (T, T) -> bool)
    requires forall i :: 0 <= i < |s| ==> f(x, s[i]) == g(x, s[i])
    ensures Insert(x, s, f) == Insert(x, s, g)
    decreases |s|
  {
    if s != [] { InsertAgrees(x, s[..|s| - 1], f, g); }
  }

  /** Only the comparisons between the elements at hand matter. */
  lemma {:induction false} SortAgrees<T>(s: seq<T>, f: (T, T) -> bool, g: (T, T) -> bool)
    requires forall i, j :: 0 <= i < |s| && 0 <= j < |s| ==> f(s[i], s[j]) == g(s[i], s[j])
    ensures Sort(s, f) == Sort(s, g)
    decreases |s|
  {
    if s != [] {
      var init := s[..|s| - 1];
      SortAgrees(init, f, g);
      SortPermutes(init, f);
      var r := Sort(init, f);
      forall i | 0 <= i < |r| ensures f(s[|s| - 1], r[i]) == g(s[|s| - 1], r[i]) {
        assert r[i] in multiset(init);
        var k :| 0 <= k < |init| && init[k] == r[i];
        assert s[k] == r[i];
      }
      InsertAgrees(s[|s| - 1], r, f, g);
    }
  }

  lemma HeadsAgree<T(!new)>(a: seq<T>, b: seq<T>, before: (T, T) -> bool)
    requires Sorted(a, before) && Sorted(b, before) && Distinguished(a, before) && multiset(a) == multiset(b) && a != []
    ensures b != [] && a[0] == b[0]
  {
    assert a[0] in multiset(b);
    assert b[0] in multiset(a);
    var i :| 0 <= i < |a| && a[i] == b[0];
    var j :| 0 <= j < |b| && b[j] == a[0];
  }

  lemma TailStaysSorted<T>(s: seq<T>, before: (T, T) -> bool)
    requires s != [] && Sorted(s, before)
    ensures Sorted(s[1..], before)
  {
  }

  lemma TailStaysDistinguished<T>(s: seq<T>, before: (T, T) -> bool)
    requires s != [] && Distinguished(s, before)
    ensures Distinguished(s[1..], before)
  {
  }

  lemma TailElements<T>(s: seq<T>)
    requires s != []
    ensures multiset(s[1..]) == multiset(s) - multiset{s[0]}
  {
    assert s == [s[0]] + s[1..];
  }

  /** Two sorted arrangements of the same elements, no two of equal rank, are the same sequence. */
  lemma {:induction false} SortedIsUnique<T(!new)>(a: seq<T>, b: seq<T>, before: (T, T) -> bool)
    requires Sorted(a, before) && Sorted(b, before) && Distinguished(a, before) && multiset(a) == multiset(b)
    ensures a == b
    decreases |a|
  {
    if a == [] {
      assert |multiset(b)| == 0;
    } else {
      HeadsAgree(a, b, before);
      TailStaysSorted(a, before);
      TailStaysSorted(b, before);
      TailStaysDistinguished(a, before);
      TailElements(a);
      TailElements(b);
      SortedIsUnique(a[1..], b[1..], before);
      assert a == [a[0]] + a[1..] && b == [b[0]] + b[1..];
    }
  }

  /** Sorting forgets the order of its input. */
  lemma SortIgnoresOrder<T(!new)>(a: seq<T>, b: seq<T>, before: (T, T) -> bool)
    requires StrictOrder(before) && Distinguished(a, before) && multiset(a) == multiset(b)
    ensures Sort(a, before) == Sort(b, before)
  {
    SortMeaning(a, before);
    SortMeaning(b, before);
    var s := Sort(a, before);
    forall i, j | 0 <= i < |s| && 0 <= j < |s| ensures s[i] == s[j] || before(s[i], s[j]) || before(s[j], s[i]) {
      assert s[i] in multiset(a) && s[j] in multiset(a);
    }
    SortedIsUnique(s, Sort(b, before), before);
  }
}
