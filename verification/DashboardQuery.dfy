/** The dashboard queries that loop: the pick of a batch for suggestions, and the list of periods. */
module DashboardQuery {
  import opened Base
  import opened Suggestions
  import Sorting

  /** The suggestion rows as a query returns them. */
  ghost predicate ListsRows(rows: Rows, list: seq<(Period, Suggestion)>) {
    && (forall i :: 0 <= i < |list| ==> list[i].0 in rows && rows[list[i].0] == list[i].1)
    && (forall p :: p in rows ==> (p, rows[p]) in list)
  }

  lemma NotListed(rows: Rows, list: seq<(Period, Suggestion)>, p: Period)
    requires ListsRows(rows, list) && forall i :: 0 <= i < |list| ==> list[i].0 != p
    ensures p !in rows
  {
  }

  lemma {:induction false} OwnerPrefix(listing: seq<Batch>, p: Period, no: No, n: nat)
    requires n < |listing| && listing[n].period == p && listing[n].no == no
    requires forall i :: 0 <= i < n ==> !(listing[i].period == p && listing[i].no == no)
    ensures Owner(listing, p, no) == Some(listing[n])
    decreases n
  {
    if n > 0 { OwnerPrefix(listing[1..], p, no, n - 1); }
  }

  lemma {:induction false} NoOwner(listing: seq<Batch>, p: Period, no: No)
    requires forall i :: 0 <= i < |listing| ==> !(listing[i].period == p && listing[i].no == no)
    ensures Owner(listing, p, no) == None
    decreases |listing|
  {
    if listing != [] { NoOwner(listing[1..], p, no); }
  }

  /** The period's row, then the batch that owns it, each found by a loop that stops at the first match. */
  method PendingSuggestBatch(batch: Batch, batches: seq<Batch>, list: seq<(Period, Suggestion)>, ghost rows: Rows)
    returns (pending: bool)
    requires ListsRows(rows, list)
    ensures pending == Pending(batch, batches, rows)
  {
    var suggestion: Option<Suggestion> := None;
    for i := 0 to |list|
      invariant suggestion == None && forall j :: 0 <= j < i ==> list[j].0 != batch.period
    {
      if list[i].0 == batch.period {
        suggestion := Some(list[i].1);
        break;
      }
    }
    if suggestion == None {
      NotListed(rows, list, batch.period);
      return true;
    }
    if suggestion.value.status == Generating {
      return false;
    }
    var owner: Option<int> := None;
    for i := 0 to |batches|
      invariant owner == None
      invariant forall j :: 0 <= j < i ==> !(batches[j].period == batch.period && batches[j].no == suggestion.value.batchNo)
    {
      if batches[i].period == batch.period && batches[i].no == suggestion.value.batchNo {
        owner := Some(batches[i].triggeredAt);
        OwnerPrefix(batches, batch.period, suggestion.value.batchNo, i);
        break;
      }
    }
    if owner == None {
      NoOwner(batches, batch.period, suggestion.value.batchNo);
      return false;
    }
    pending := batch.status == Succeeded && batch.triggeredAt > owner.value;
  }

  lemma {:induction false} FirstPendingSkips(candidates: seq<Batch>, listing: seq<Batch>, rows: Rows, n: nat)
    requires n <= |candidates| && forall i :: 0 <= i < n ==> !Pending(candidates[i], listing, rows)
    ensures FirstPending(candidates, listing, rows) == FirstPending(candidates[n..], listing, rows)
    decreases n
  {
    if n > 0 {
      FirstPendingSkips(candidates[1..], listing, rows, n - 1);
      assert candidates[1..][n - 1..] == candidates[n..];
    }
  }

  /** Over the finished scheduled batches in trigger order, the first that passes. */
  method FindEarliestPendingSuggestBatch(batches: seq<Batch>, list: seq<(Period, Suggestion)>, ghost rows: Rows)
    returns (found: Option<Batch>)
    requires ListsRows(rows, list)
    ensures found == EarliestPending(batches, rows)
  {
    var listing := Listing(batches);
    for i := 0 to |listing|
      invariant forall j :: 0 <= j < i ==> !Pending(listing[j], listing, rows)
    {
      var pending := PendingSuggestBatch(listing[i], listing, list, rows);
      if pending {
        FirstPendingSkips(listing, listing, rows, i);
        return Some(listing[i]);
      }
    }
    FirstPendingSkips(listing, listing, rows, |listing|);
    found := None;
  }

  // ---------------------------------------------------------------- periods, newest first

  /** Insertion sort in place, each element swapped down to its place. */
  method SortPeriodsDesc(a: array<Period>)
    modifies a
    ensures Sorting.Sorted(a[..], Newer) && multiset(a[..]) == multiset(old(a[..]))
  {
    var i := 1;
    while i < a.Length
      invariant 1 <= i && (i <= a.Length || a.Length == 0)
      invariant forall x, y :: 0 <= x < y < i && y < a.Length ==> !Newer(a[y], a[x])
      invariant multiset(a[..]) == multiset(old(a[..]))
      decreases a.Length - i
    {
      SwapDown(a, i);
      i := i + 1;
    }
  }

  /** The inner loop: everything before `i` is in order; afterwards everything up to `i` is. */
  method SwapDown(a: array<Period>, i: nat)
    requires i < a.Length && forall x, y :: 0 <= x < y < i ==> !Newer(a[y], a[x])
    modifies a
    ensures forall x, y :: 0 <= x < y <= i ==> !Newer(a[y], a[x])
    ensures multiset(a[..]) == multiset(old(a[..]))
  {
    var j := i;
    while j > 0
      invariant 0 <= j <= i
      invariant forall x, y :: 0 <= x < y <= i && y != j ==> !Newer(a[y], a[x])
      invariant multiset(a[..]) == multiset(old(a[..]))
    {
      if !Newer(a[j], a[j - 1]) {
        break;
      }
      Swap(a, j);
      j := j - 1;
    }
  }

  method Swap(a: array<Period>, j: nat)
    requires 0 < j < a.Length
    modifies a
    ensures a[j] == old(a[j - 1]) && a[j - 1] == old(a[j])
    ensures forall x :: 0 <= x < a.Length && x != j && x != j - 1 ==> a[x] == old(a[x])
    ensures multiset(a[..]) == multiset(old(a[..]))
  {
    a[j - 1], a[j] := a[j], a[j - 1];
  }

  /** The periods of three tables, each once, newest first; the order in which the set is read does not matter. */
  method ListPeriods(tables: seq<seq<Period>>) returns (list: seq<Period>)
    ensures forall p :: p in list <==> exists t :: 0 <= t < |tables| && p in tables[t]
    ensures forall i, j :: 0 <= i < j < |list| ==> Newer(list[i], list[j])
  {
    var seen: set<Period> := {};
    for t := 0 to |tables|
      invariant forall p :: p in seen <==> exists u :: 0 <= u < t && p in tables[u]
    {
      for i := 0 to |tables[t]|
        invariant forall p :: p in seen <==> (exists u :: 0 <= u < t && p in tables[u]) || p in tables[t][..i]
      {
        seen := seen + {tables[t][i]};
      }
      assert tables[t][..|tables[t]|] == tables[t];
    }
    var bounds := Enumerate(seen);
    var a := new Period[|bounds|](i requires 0 <= i < |bounds| => bounds[i]);
    assert a[..] == bounds;
    SortPeriodsDesc(a);
    list := a[..];
    forall p ensures p in list <==> p in seen {
      assert p in list <==> p in multiset(list);
      assert p in bounds <==> p in multiset(bounds);
    }
    forall i, j | 0 <= i < j < |list| ensures Newer(list[i], list[j]) {
      if list[i] == list[j] { Twice(list, bounds, i, j); }
    }
  }

  method Enumerate(s: set<Period>) returns (list: seq<Period>)
    ensures forall p :: p in list <==> p in s
    ensures forall i, j :: 0 <= i < j < |list| ==> list[i] != list[j]
  {
    list := [];
    var rest := s;
    while rest != {}
      invariant forall p :: p in list <==> p in s && p !in rest
      invariant forall i, j :: 0 <= i < j < |list| ==> list[i] != list[j]
      invariant rest <= s
      decreases |rest|
    {
      var p :| p in rest;
      list := list + [p];
      rest := rest - {p};
    }
  }

  /** A sequence without repetitions has no rearrangement with one. */
  lemma Twice(list: seq<Period>, bounds: seq<Period>, i: nat, j: nat)
    requires multiset(list) == multiset(bounds) && i < j < |list| && list[i] == list[j]
    ensures exists x, y :: 0 <= x < y < |bounds| && bounds[x] == bounds[y]
  {
    var p := list[i];
    assert list == list[..j] + list[j..];
    assert p in multiset(list[..j]) by { assert list[..j][i] == p; }
    assert p in multiset(list[j..]) by { assert list[j..][0] == p; }
    assert multiset(bounds)[p] >= 2;
    CountsTwice(bounds, p);
  }

  lemma {:induction false} CountsTwice(s: seq<Period>, p: Period)
    requires multiset(s)[p] >= 2
    ensures exists x, y :: 0 <= x < y < |s| && s[x] == s[y]
    decreases |s|
  {
    var init, last := s[..|s| - 1], s[|s| - 1];
    assert s == init + [last];
    if last == p {
      assert p in multiset(init);
      var x :| 0 <= x < |init| && init[x] == p;
      assert s[x] == s[|s| - 1];
    } else {
      CountsTwice(init, p);
      var x, y :| 0 <= x < y < |init| && init[x] == init[y];
      assert s[x] == s[y];
    }
  }
}
