/** Accumulating over a list in any order. */
module Folding {
  function Fold<A, T>(start: A, s: seq<T>, add: (A, T) -> A): A
    decreases |s|
  {
    if s == [] then start else add(Fold(start, s[..|s| - 1], add), s[|s| - 1])
  }

  /** Adding two elements in either order gives the same. */
  ghost predicate Commutes<A(!new), T(!new)>(add: (A, T) -> A) {
    forall a, x, y :: add(add(a, x), y) == add(add(a, y), x)
  }

  function Without<T>(s: seq<T>, i: nat): seq<T>
    requires i < |s|
  {
    s[..i] + s[i + 1..]
  }

  /** Any element may be added last. */
  lemma {:induction false} AddLast<A(!new), T(!new)>(start: A, s: seq<T>, add: (A, T) -> A, i: nat)
    requires Commutes(add) && i < |s|
    ensures Fold(start, s, add) == add(Fold(start, Without(s, i), add), s[i])
    decreases |s|
  {
    var init, last := s[..|s| - 1], s[|s| - 1];
    if i == |s| - 1 {
      assert Without(s, i) == init;
    } else {
      AddLast(start, init, add, i);
      assert Without(s, i)[..|s| - 2] == Without(init, i);
    }
  }

  lemma WithoutElements<T>(s: seq<T>, i: nat)
    requires i < |s|
    ensures multiset(Without(s, i)) == multiset(s) - multiset{s[i]}
  {
    assert s == s[..i] + [s[i]] + s[i + 1..];
  }

  /** The result depends on the elements, not on their order. */
  lemma {:induction false} FoldIgnoresOrder<A(!new), T(!new)>(start: A, a: seq<T>, b: seq<T>, add: (A, T) -> A)
    requires Commutes(add) && multiset(a) == multiset(b)
    ensures Fold(start, a, add) == Fold(start, b, add)
    decreases |a|
  {
    if a == [] {
      assert |multiset(b)| == 0;
    } else {
      var k := |a| - 1;
      assert a[k] in multiset(b);
      var i :| 0 <= i < |b| && b[i] == a[k];
      AddLast(start, b, add, i);
      WithoutElements(a, k);
      WithoutElements(b, i);
      assert Without(a, k) == a[..k];
      FoldIgnoresOrder(start, a[..k], Without(b, i), add);
    }
  }
}
