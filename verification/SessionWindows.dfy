/** Sessions of a period: fetching the whole list page by page, dropping repeats, and attributing every
    feature row to the period of its last turn. */
module SessionWindows {
  import opened Base

  const PAGE_SIZE := 100
  const MAX_PAGES := 100
  /** Seven days, in seconds. */
  const LOOKBACK := 7 * 24 * 3600

  datatype Session = Session(key: string, token: string, turns: nat)

  // ---------------------------------------------------------------- paging

  /** A server: page number to the page's items, or a failed call. */
  type Server = nat -> Option<seq<Session>>

  /** The pages from `page` on, joined, up to the first short one; nothing on a failed call or when the
      page cap is reached. */
  function FetchFrom(server: Server, page: nat): Option<seq<Session>>
    decreases MAX_PAGES + 1 - page
  {
    if page > MAX_PAGES then None
    else
      match server(page)
      case None => None
      case Some(items) =>
        if |items| < PAGE_SIZE then Some(items)
        else
          match FetchFrom(server, page + 1)
          case None => None
          case Some(rest) => Some(items + rest)
  }

  function Min(a: nat, b: nat): nat {
    if a < b then a else b
  }

  /** Successive slices of a fixed list, pages counted from one. */
  function PageOf(list: seq<Session>, page: nat): seq<Session> {
    if page == 0 then [] else list[Min(PAGE_SIZE * (page - 1), |list|)..Min(PAGE_SIZE * page, |list|)]
  }

  function Slices(list: seq<Session>): Server {
    (page: nat) => Some(PageOf(list, page))
  }

  lemma {:induction false} FetchFromSlices(list: seq<Session>, page: nat)
    requires 1 <= page <= MAX_PAGES + 1 && PAGE_SIZE * (page - 1) <= |list|
    ensures FetchFrom(Slices(list), page)
         == if |list| < PAGE_SIZE * MAX_PAGES then Some(list[PAGE_SIZE * (page - 1)..]) else None
    decreases MAX_PAGES + 1 - page
  {
    if page <= MAX_PAGES {
      var items := PageOf(list, page);
      if PAGE_SIZE * page <= |list| {
        FetchFromSlices(list, page + 1);
        assert items + list[PAGE_SIZE * page..] == list[PAGE_SIZE * (page - 1)..];
      } else {
        assert items == list[PAGE_SIZE * (page - 1)..];
      }
    }
  }

  /** Against a fixed list the fetch returns all of it when it has fewer than ten thousand items, and an
      error otherwise: never a silently shortened list. */
  lemma FetchIsAllOrNothing(list: seq<Session>)
    ensures FetchFrom(Slices(list), 1) == if |list| < 10_000 then Some(list) else None
  {
    FetchFromSlices(list, 1);
    assert list[0..] == list;
  }

  function Joined(server: Server, first: nat, last: nat): seq<Session>
    decreases last + 1 - first
  {
    if first > last then []
    else (match server(first) case None => [] case Some(items) => items) + Joined(server, first + 1, last)
  }

  predicate FullPage(server: Server, page: nat) {
    server(page).Some? && |server(page).value| >= PAGE_SIZE
  }

  /** Against any server: a result ends with the first short page and holds every page up to it, in order. */
  lemma {:induction false} FetchStopsAtShortPage(server: Server, page: nat) returns (last: nat)
    requires FetchFrom(server, page).Some?
    ensures page <= last <= MAX_PAGES && server(last).Some? && |server(last).value| < PAGE_SIZE
    ensures forall k :: page <= k < last ==> FullPage(server, k)
    ensures FetchFrom(server, page).value == Joined(server, page, last)
    decreases MAX_PAGES + 1 - page
  {
    var items := server(page).value;
    if |items| < PAGE_SIZE {
      last := page;
      assert Joined(server, page + 1, page) == [];
    } else {
      last := FetchStopsAtShortPage(server, page + 1);
    }
  }

  function Prepend(all: seq<Session>, rest: Option<seq<Session>>): Option<seq<Session>> {
    match rest
    case None => None
    case Some(items) => Some(all + items)
  }

  lemma PrependTwice(all: seq<Session>, items: seq<Session>, rest: Option<seq<Session>>)
    ensures Prepend(all, Prepend(items, rest)) == Prepend(all + items, rest)
    ensures Prepend([], rest) == rest
  {
    if rest.Some? {
      assert all + (items + rest.value) == (all + items) + rest.value;
      assert [] + rest.value == rest.value;
    }
  }

  /** The loop: one page after the other, at most a hundred calls. */
  method FetchAllSessions(server: Server) returns (result: Option<seq<Session>>, calls: nat)
    ensures result == FetchFrom(server, 1) && calls <= MAX_PAGES
  {
    var all: seq<Session> := [];
    calls := 0;
    PrependTwice([], [], FetchFrom(server, 1));
    for page := 1 to MAX_PAGES + 1
      invariant calls == page - 1
      invariant FetchFrom(server, 1) == Prepend(all, FetchFrom(server, page))
    {
      calls := calls + 1;
      var items := server(page);
      if items == None {
        return None, calls;
      }
      if |items.value| < PAGE_SIZE {
        return Some(all + items.value), calls;
      }
      PrependTwice(all, items.value, FetchFrom(server, page + 1));
      assert FetchFrom(server, page) == Prepend(items.value, FetchFrom(server, page + 1));
      all := all + items.value;
    }
    result := None;
  }

  // ---------------------------------------------------------------- repeats

  predicate HasKey(s: seq<Session>, key: string) {
    exists i :: 0 <= i < |s| && s[i].key == key
  }

  /** Keep a session unless its key was seen before. */
  function Dedup(s: seq<Session>): seq<Session>
    decreases |s|
  {
    if s == [] then []
    else
      var init, last := s[..|s| - 1], s[|s| - 1];
      Dedup(init) + if HasKey(init, last.key) then [] else [last]
  }

  ghost predicate DistinctKeys(s: seq<Session>) {
    forall i, j :: 0 <= i < j < |s| ==> s[i].key != s[j].key
  }

  lemma {:induction false} DedupKeys(s: seq<Session>, key: string)
    ensures HasKey(Dedup(s), key) <==> HasKey(s, key)
    decreases |s|
  {
    if s != [] {
      var init, last := s[..|s| - 1], s[|s| - 1];
      DedupKeys(init, key);
      HasKeySnoc(init, last, key);
      HasKeySnoc(Dedup(init), last, key);
      assert s == init + [last];
      assert HasKey(init, last.key) ==> Dedup(s) == Dedup(init);
    }
  }

  lemma HasKeySnoc(s: seq<Session>, x: Session, key: string)
    ensures HasKey(s + [x], key) <==> HasKey(s, key) || x.key == key
  {
    assert (s + [x])[|s|] == x;
    if HasKey(s, key) {
      var i :| 0 <= i < |s| && s[i].key == key;
      assert (s + [x])[i].key == key;
    }
  }

  /** Each key once, no key lost. */
  lemma {:induction false} DedupIsDistinct(s: seq<Session>)
    ensures DistinctKeys(Dedup(s))
    decreases |s|
  {
    if s != [] {
      var init, last := s[..|s| - 1], s[|s| - 1];
      DedupIsDistinct(init);
      DedupKeys(init, last.key);
    }
  }

  /** The first session with its key. */
  ghost predicate IsFirst(s: seq<Session>, i: nat) {
    i < |s| && forall j :: 0 <= j < i ==> s[j].key != s[i].key
  }

  /** Of the sessions with one key the first is kept, and the kept ones stay in order. */
  lemma {:induction false} DedupKeepsFirsts(s: seq<Session>, i: nat) returns (a: nat)
    requires IsFirst(s, i)
    ensures a < |Dedup(s)| && Dedup(s)[a] == s[i] && |Dedup(s[..i])| == a
    decreases |s|
  {
    var k := |s| - 1;
    if i < k {
      assert s[..k][..i] == s[..i];
      a := DedupKeepsFirsts(s[..k], i);
    } else {
      a := |Dedup(s[..k])|;
    }
  }

  /** Nothing else is in the result. */
  lemma {:induction false} DedupHasOnlyFirsts(s: seq<Session>, a: nat) returns (i: nat)
    requires a < |Dedup(s)|
    ensures IsFirst(s, i) && Dedup(s)[a] == s[i]
    decreases |s|
  {
    var k := |s| - 1;
    if a < |Dedup(s[..k])| {
      i := DedupHasOnlyFirsts(s[..k], a);
    } else {
      i := k;
      forall j | 0 <= j < k ensures s[j].key != s[k].key {
        assert s[..k][j] == s[j];
      }
    }
  }

  lemma {:induction false} DistinctIsKept(s: seq<Session>)
    requires DistinctKeys(s)
    ensures Dedup(s) == s
    decreases |s|
  {
    if s != [] {
      DistinctIsKept(s[..|s| - 1]);
      assert s == s[..|s| - 1] + [s[|s| - 1]];
    }
  }

  /** What was deduplicated earlier may be replaced by its result. */
  lemma {:induction false} DedupInParts(a: seq<Session>, b: seq<Session>)
    ensures Dedup(a + b) == Dedup(Dedup(a) + b)
    decreases |b|
  {
    if b == [] {
      DedupIsDistinct(a);
      DistinctIsKept(Dedup(a));
      assert a + b == a && Dedup(a) + b == Dedup(a);
    } else {
      var init, last := b[..|b| - 1], b[|b| - 1];
      DedupInParts(a, init);
      DedupKeys(a + init, last.key);
      DedupKeys(Dedup(a) + init, last.key);
      assert (a + b)[..|a + b| - 1] == a + init;
      assert (Dedup(a) + b)[..|Dedup(a) + b| - 1] == Dedup(a) + init;
    }
  }

  lemma {:induction false} RepeatsVanish(list: seq<Session>, x: seq<Session>)
    requires DistinctKeys(list) && forall i :: 0 <= i < |x| ==> x[i] in list
    ensures Dedup(list + x) == list
    decreases |x|
  {
    if x == [] {
      DistinctIsKept(list);
      assert list + x == list;
    } else {
      var init, last := x[..|x| - 1], x[|x| - 1];
      RepeatsVanish(list, init);
      assert (list + x)[..|list + x| - 1] == list + init;
      assert last in list;
      var i :| 0 <= i < |list| && list[i] == last;
      assert (list + init)[i].key == last.key;
    }
  }

  /** Pages as windows of a list, each starting no later than where the ones before it reached. */
  datatype Window = Window(from: nat, upto: nat)

  function Reach(ws: seq<Window>): nat
    decreases |ws|
  {
    if ws == [] then 0
    else
      var r, w := Reach(ws[..|ws| - 1]), ws[|ws| - 1];
      if w.upto > r then w.upto else r
  }

  predicate Overlapping(ws: seq<Window>, n: nat)
    decreases |ws|
  {
    ws == [] || (var w := ws[|ws| - 1];
                 Overlapping(ws[..|ws| - 1], n) && w.from <= Reach(ws[..|ws| - 1]) && w.from <= w.upto <= n)
  }

  function Concatenated(list: seq<Session>, ws: seq<Window>): seq<Session>
    requires Overlapping(ws, |list|)
    decreases |ws|
  {
    if ws == [] then [] else Concatenated(list, ws[..|ws| - 1]) + list[ws[|ws| - 1].from..ws[|ws| - 1].upto]
  }

  /** Pages that overlap, repeat or fall back are repaired: the result is the list itself, as far as the
      pages reach. */
  lemma {:induction false} DedupRepairsOverlaps(list: seq<Session>, ws: seq<Window>)
    requires DistinctKeys(list) && Overlapping(ws, |list|)
    ensures Reach(ws) <= |list|
    ensures Dedup(Concatenated(list, ws)) == list[..Reach(ws)]
    decreases |ws|
  {
    if ws != [] {
      var init, w := ws[..|ws| - 1], ws[|ws| - 1];
      DedupRepairsOverlaps(list, init);
      var r := Reach(init);
      DedupInParts(Concatenated(list, init), list[w.from..w.upto]);
      ExtendPrefix(list, r, w);
    }
  }

  lemma RepeatOfPrefix(list: seq<Session>, r: nat, from: nat, upto: nat)
    requires DistinctKeys(list) && from <= upto <= r <= |list|
    ensures Dedup(list[..r] + list[from..upto]) == list[..r]
  {
    var known, repeated := list[..r], list[from..upto];
    forall i | 0 <= i < |repeated| ensures repeated[i] in known {
      assert known[from + i] == repeated[i];
    }
    RepeatsVanish(known, repeated);
  }

  lemma ExtendPrefix(list: seq<Session>, r: nat, w: Window)
    requires DistinctKeys(list) && r <= |list| && w.from <= r && w.from <= w.upto <= |list|
    ensures Dedup(list[..r] + list[w.from..w.upto]) == list[..if w.upto > r then w.upto else r]
  {
    if w.upto <= r {
      RepeatOfPrefix(list, r, w.from, w.upto);
    } else {
      SlicesJoin(list, w.from, r, w.upto);
      RepeatOfPrefix(list, r, w.from, r);
      DedupInParts(list[..r] + list[w.from..r], list[r..w.upto]);
      DistinctIsKept(list[..w.upto]);
    }
  }

  lemma SlicesJoin(list: seq<Session>, from: nat, mid: nat, upto: nat)
    requires from <= mid <= upto <= |list|
    ensures list[..mid] + list[from..upto] == (list[..mid] + list[from..mid]) + list[mid..upto]
    ensures list[..mid] + list[mid..upto] == list[..upto]
  {
  }

  method DedupSessions(sessions: seq<Session>) returns (out: seq<Session>)
    ensures out == Dedup(sessions)
  {
    var seen: set<string> := {};
    out := [];
    for i := 0 to |sessions|
      invariant out == Dedup(sessions[..i])
      invariant forall k :: k in seen <==> HasKey(sessions[..i], k)
    {
      var s := sessions[i];
      assert sessions[..i + 1][..i] == sessions[..i];
      assert sessions[..i + 1] == sessions[..i] + [s];
      forall k ensures HasKey(sessions[..i + 1], k) <==> HasKey(sessions[..i], k) || s.key == k {
        HasKeySnoc(sessions[..i], s, k);
      }
      if s.key in seen {
        continue;
      }
      seen := seen + {s.key};
      out := out + [s];
    }
    assert sessions[..|sessions|] == sessions;
  }

  // ---------------------------------------------------------------- windows

  datatype FeatureStatus = Success | Failed | Skipped
  datatype Feature = Feature(token: string, status: FeatureStatus, firstTurn: int, lastTurn: int)
  datatype Period = Period(start: int, end: int)

  /** Fetched by first turn with seven days of lookback, kept by last turn. */
  predicate Attributed(f: Feature, token: string, p: Period) {
    && f.token == token
    && p.start - LOOKBACK <= f.firstTurn <= p.end
    && p.start <= f.lastTurn < p.end
  }

  function WindowOf(rows: seq<Feature>, token: string, p: Period): seq<Feature>
    decreases |rows|
  {
    if rows == [] then []
    else
      var f := rows[|rows| - 1];
      WindowOf(rows[..|rows| - 1], token, p) + if Attributed(f, token, p) then [f] else []
  }

  lemma OneMore(rows: seq<Feature>, last: Feature, f: Feature)
    ensures multiset(rows + [last])[f] == multiset(rows)[f] + if last == f then 1 else 0
  {
  }

  /** The attributed rows are kept, each as often as it was there, and no other. */
  lemma {:induction false} WindowKeepsAttributed(rows: seq<Feature>, token: string, p: Period, f: Feature)
    ensures multiset(WindowOf(rows, token, p))[f]
         == if f.token == token && p.start - 604_800 <= f.firstTurn <= p.end && p.start <= f.lastTurn < p.end then multiset(rows)[f] else 0
    decreases |rows|
  {
    if rows != [] {
      var init, last := rows[..|rows| - 1], rows[|rows| - 1];
      WindowKeepsAttributed(init, token, p, f);
      assert rows == init + [last];
      OneMore(init, last, f);
      if Attributed(last, token, p) { OneMore(WindowOf(init, token, p), last, f); }
    }
  }

  /** The query by range, then the filter in memory. */
  method FetchWindowDigests(rows: seq<Feature>, token: string, p: Period) returns (kept: seq<Feature>)
    ensures kept == WindowOf(rows, token, p)
  {
    kept := [];
    for i := 0 to |rows|
      invariant kept == WindowOf(rows[..i], token, p)
    {
      assert rows[..i + 1][..i] == rows[..i];
      var f := rows[i];
      if f.token == token && f.firstTurn >= p.start - LOOKBACK && f.firstTurn <= p.end {
        if f.lastTurn >= p.start && f.lastTurn < p.end {
          kept := kept + [f];
        }
      }
    }
    assert rows[..|rows|] == rows;
  }

  predicate Adjacent(ps: seq<Period>) {
    && (forall i :: 0 <= i < |ps| ==> ps[i].start < ps[i].end)
    && (forall i :: 0 <= i < |ps| - 1 ==> ps[i].end == ps[i + 1].start)
  }

  lemma {:induction false} AdjacentOrdered(ps: seq<Period>, i: nat, j: nat)
    requires Adjacent(ps) && i < j < |ps|
    ensures ps[i].end <= ps[j].start
    decreases j - i
  {
    if i + 1 < j { AdjacentOrdered(ps, i, j - 1); }
  }

  /** No row belongs to two periods. */
  lemma AtMostOnePeriod(ps: seq<Period>, f: Feature, token: string, i: nat, j: nat)
    requires Adjacent(ps) && i < |ps| && j < |ps| && Attributed(f, token, ps[i]) && Attributed(f, token, ps[j])
    ensures i == j
  {
    if i < j { AdjacentOrdered(ps, i, j); }
    if j < i { AdjacentOrdered(ps, j, i); }
  }

  lemma {:induction false} PeriodOf(ps: seq<Period>, t: int) returns (k: nat)
    requires Adjacent(ps) && ps != [] && ps[0].start <= t < ps[|ps| - 1].end
    ensures k < |ps| && ps[k].start <= t < ps[k].end
    decreases |ps|
  {
    if t < ps[0].end {
      k := 0;
    } else {
      var j := PeriodOf(ps[1..], t);
      k := j + 1;
    }
  }

  ghost predicate Covered(ps: seq<Period>, f: Feature, token: string) {
    exists k :: 0 <= k < |ps| && Attributed(f, token, ps[k])
  }

  /** A row belongs to some period exactly when its last turn is covered and its first turn is no more than
      seven days before that period; a session of at most seven days always is. */
  lemma CoveredIff(ps: seq<Period>, f: Feature, token: string)
    requires Adjacent(ps) && ps != [] && f.token == token && f.firstTurn <= f.lastTurn
    ensures Covered(ps, f, token)
       <==> exists k :: 0 <= k < |ps| && ps[k].start <= f.lastTurn < ps[k].end && ps[k].start - LOOKBACK <= f.firstTurn
    ensures ps[0].start <= f.lastTurn < ps[|ps| - 1].end && f.lastTurn - f.firstTurn <= LOOKBACK ==> Covered(ps, f, token)
    ensures Covered(ps, f, token) ==> ps[0].start <= f.lastTurn < ps[|ps| - 1].end
  {
    if exists k :: 0 <= k < |ps| && ps[k].start <= f.lastTurn < ps[k].end && ps[k].start - LOOKBACK <= f.firstTurn {
      var k :| 0 <= k < |ps| && ps[k].start <= f.lastTurn < ps[k].end && ps[k].start - LOOKBACK <= f.firstTurn;
      assert Attributed(f, token, ps[k]);
    }
    if ps[0].start <= f.lastTurn < ps[|ps| - 1].end && f.lastTurn - f.firstTurn <= LOOKBACK {
      var k := PeriodOf(ps, f.lastTurn);
      assert Attributed(f, token, ps[k]);
    }
    if Covered(ps, f, token) {
      var k :| 0 <= k < |ps| && Attributed(f, token, ps[k]);
      if k > 0 { AdjacentOrdered(ps, 0, k); }
      if k < |ps| - 1 { AdjacentOrdered(ps, k, |ps| - 1); }
    }
  }

  // ---------------------------------------------------------------- counts

  function SumOverPeriods(rows: seq<Feature>, token: string, ps: seq<Period>): nat
    decreases |ps|
  {
    if ps == [] then 0
    else SumOverPeriods(rows, token, ps[..|ps| - 1]) + |WindowOf(rows, token, ps[|ps| - 1])|
  }

  ghost function CoveredRows(rows: seq<Feature>, token: string, ps: seq<Period>): nat
    decreases |rows|
  {
    if rows == [] then 0
    else CoveredRows(rows[..|rows| - 1], token, ps) + if Covered(ps, rows[|rows| - 1], token) then 1 else 0
  }

  /** Adding a period to the end: it and the earlier ones never claim the same row. */
  lemma CoveredSnoc(ps: seq<Period>, f: Feature, token: string)
    requires Adjacent(ps) && ps != []
    ensures var init, p := ps[..|ps| - 1], ps[|ps| - 1];
            && (Covered(ps, f, token) <==> Covered(init, f, token) || Attributed(f, token, p))
            && !(Covered(init, f, token) && Attributed(f, token, p))
  {
    var init, p := ps[..|ps| - 1], ps[|ps| - 1];
    if k :| 0 <= k < |init| && Attributed(f, token, init[k]) {
      assert Attributed(f, token, ps[k]);
      if Attributed(f, token, p) { AtMostOnePeriod(ps, f, token, k, |ps| - 1); }
    }
    if k :| 0 <= k < |ps| - 1 && Attributed(f, token, ps[k]) {
      assert init[k] == ps[k];
    }
  }

  lemma {:induction false} OneMoreRow(rows: seq<Feature>, f: Feature, token: string, ps: seq<Period>)
    requires Adjacent(ps)
    ensures SumOverPeriods(rows + [f], token, ps) == SumOverPeriods(rows, token, ps) + if Covered(ps, f, token) then 1 else 0
    decreases |ps|
  {
    if ps != [] {
      OneMoreRow(rows, f, token, ps[..|ps| - 1]);
      assert (rows + [f])[..|rows|] == rows;
      CoveredSnoc(ps, f, token);
    }
  }

  /** Counting period by period counts every attributed row once. */
  lemma {:induction false} PeriodsPartition(rows: seq<Feature>, token: string, ps: seq<Period>)
    requires Adjacent(ps)
    ensures SumOverPeriods(rows, token, ps) == CoveredRows(rows, token, ps)
    decreases |rows|
  {
    if rows == [] {
      NoRowsNoSum(token, ps);
    } else {
      var init := rows[..|rows| - 1];
      PeriodsPartition(init, token, ps);
      OneMoreRow(init, rows[|rows| - 1], token, ps);
      assert rows == init + [rows[|rows| - 1]];
    }
  }

  lemma {:induction false} NoRowsNoSum(token: string, ps: seq<Period>)
    ensures SumOverPeriods([], token, ps) == 0
    decreases |ps|
  {
    if ps != [] { NoRowsNoSum(token, ps[..|ps| - 1]); }
  }
}
