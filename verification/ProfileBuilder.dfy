/** The profile set as the source builds it: one pass of counting, a sort, and a loop that stops at the
    first block that does not fit. */
module ProfileBuilder {
  import opened Numbering
  import opened ProfileSets
  import Folding
  import Sorting

  /** The counters added so far, all but the rest. */
  ghost function MergeExcept(m: map<string, int>, d: map<string, int>, rest: set<string>): map<string, int> {
    Merge(m, map k | k in d && k !in rest :: d[k])
  }

  lemma MergeEnds(m: map<string, int>, d: map<string, int>)
    ensures MergeExcept(m, d, d.Keys) == m && MergeExcept(m, d, {}) == Merge(m, d)
  {
    assert (map k | k in d && k !in {} :: d[k]) == d;
  }

  lemma MergeOneMore(r: map<string, int>, m: map<string, int>, d: map<string, int>, rest: set<string>, k: string)
    requires k in rest && rest <= d.Keys && r == MergeExcept(m, d, rest)
    ensures r[k := At(r, k) + d[k]] == MergeExcept(m, d, rest - {k})
  {
  }

  /** Counters added key by key, in whatever order the map yields them. */
  method AddCounts(m: map<string, int>, d: map<string, int>) returns (r: map<string, int>)
    ensures r == Merge(m, d)
  {
    r := m;
    var rest := d.Keys;
    MergeEnds(m, d);
    while rest != {}
      invariant rest <= d.Keys && r == MergeExcept(m, d, rest)
      decreases |rest|
    {
      var k :| k in rest;
      MergeOneMore(r, m, d, rest, k);
      r, rest := r[k := At(r, k) + d[k]], rest - {k};
    }
  }

  lemma BumpIsMerge(m: map<string, int>, counts: map<string, int>, kind: string)
    ensures Merge(m, Merge(counts, map[kind := 1])) == Merge(m, counts)[kind := At(Merge(m, counts), kind) + 1]
  {
  }

  method AddFingerprints(kinds: map<string, int>, seen: Seen, fps: seq<Fingerprint>) returns (kinds': map<string, int>, seen': Seen)
    ensures kinds' == Merge(kinds, KindCounts(fps))
    ensures seen' == WithFingerprints(seen, fps)
  {
    kinds', seen' := kinds, seen;
    NothingAdded(kinds, seen);
    for i := 0 to |fps|
      invariant Added(kinds, seen, fps[..i], kinds', seen')
    {
      OneMoreFingerprint(kinds, kinds', seen, seen', fps, i);
      kinds' := kinds'[fps[i].kind := At(kinds', fps[i].kind) + 1];
      seen' := WithFingerprint(seen', fps[i]);
    }
    assert fps[..|fps|] == fps;
  }

  ghost predicate Added(kinds: map<string, int>, seen: Seen, fps: seq<Fingerprint>, kinds': map<string, int>, seen': Seen) {
    kinds' == Merge(kinds, KindCounts(fps)) && seen' == WithFingerprints(seen, fps)
  }

  function WithFingerprint(seen: Seen, fp: Fingerprint): Seen {
    seen.(specHashes := seen.specHashes + {fp.hash}, sections := seen.sections + Elements(fp.sections))
  }

  lemma OneMoreFingerprint(kinds: map<string, int>, so: map<string, int>, seen: Seen, seenSo: Seen, fps: seq<Fingerprint>, i: nat)
    requires i < |fps| && Added(kinds, seen, fps[..i], so, seenSo)
    ensures Added(kinds, seen, fps[..i + 1], so[fps[i].kind := At(so, fps[i].kind) + 1], WithFingerprint(seenSo, fps[i]))
  {
    assert fps[..i + 1][..i] == fps[..i];
    assert fps[..i + 1] == fps[..i] + [fps[i]];
    BumpIsMerge(kinds, KindCounts(fps[..i]), fps[i].kind);
    HashesSnoc(seen, fps[..i], fps[i]);
  }

  function WithFingerprints(seen: Seen, fps: seq<Fingerprint>): Seen {
    seen.(specHashes := seen.specHashes + Hashes(fps), sections := seen.sections + Sections(fps))
  }

  lemma NothingAdded(kinds: map<string, int>, seen: Seen)
    ensures Added(kinds, seen, [], kinds, seen)
  {
  }

  lemma HashesSnoc(seen: Seen, fps: seq<Fingerprint>, fp: Fingerprint)
    ensures WithFingerprints(seen, fps + [fp]) == WithFingerprint(WithFingerprints(seen, fps), fp)
  {
    SetsSnoc(fps, fp);
    assert seen.specHashes + (Hashes(fps) + {fp.hash}) == (seen.specHashes + Hashes(fps)) + {fp.hash};
    assert seen.sections + (Sections(fps) + Elements(fp.sections)) == (seen.sections + Sections(fps)) + Elements(fp.sections);
  }

  lemma SetsSnoc(fps: seq<Fingerprint>, fp: Fingerprint)
    ensures Hashes(fps + [fp]) == Hashes(fps) + {fp.hash}
    ensures Sections(fps + [fp]) == Sections(fps) + Elements(fp.sections)
  {
    var more := fps + [fp];
    forall h | h in Hashes(fps) + {fp.hash} ensures h in Hashes(more) {
      if h in Hashes(fps) {
        var i :| 0 <= i < |fps| && fps[i].hash == h;
        assert more[i].hash == h;
      } else {
        assert more[|fps|].hash == h;
      }
    }
    forall s | s in Sections(fps) + Elements(fp.sections) ensures s in Sections(more) {
      if s in Sections(fps) {
        var i, j :| 0 <= i < |fps| && 0 <= j < |fps[i].sections| && fps[i].sections[j] == s;
        assert more[i].sections[j] == s;
      } else {
        var j :| 0 <= j < |fp.sections| && fp.sections[j] == s;
        assert more[|fps|].sections[j] == s;
      }
    }
  }

  method CountNumbers(n: Numbers, d: Digest) returns (r: Numbers)
    ensures r == AddNumbers(n, d)
  {
    r := n.(total := n.total + 1);
    match d.status {
      case Success => r := r.(valid := r.valid + 1);
      case Failed => r := r.(valid := r.valid + 1, failed := r.failed + 1);
      case Skipped => r := r.(skipped := r.skipped + 1);
    }
    r := r.(userMsgs := r.userMsgs + d.stats.userMsgs);
    if d.stats.userMsgs == 0 {
      r := r.(zeroInput := r.zeroInput + 1);
    }
    r := r.(interrupts := r.interrupts + d.stats.interrupts, pasteChars := r.pasteChars + d.stats.pasteChars);
    if d.stats.pasteChars > 0 {
      r := r.(pasteMsgs := r.pasteMsgs + 1);
    }
    if d.stats.continuation {
      r := r.(continuations := r.continuations + 1);
    }
  }

  /** One pass over all digests, whatever their status. */
  method AggregateWindow(digests: seq<Digest>) returns (w: WindowStats)
    ensures w == Aggregate(digests)
  {
    w := NO_STATS;
    for i := 0 to |digests|
      invariant w == Aggregate(digests[..i])
    {
      assert digests[..i + 1][..i] == digests[..i];
      var d := digests[i];
      var numbers := CountNumbers(w.numbers, d);
      var tools := AddCounts(w.tables.tools, d.stats.tools);
      var turns := AddCounts(w.tables.turns, d.stats.turns);
      var kinds, seen := AddFingerprints(w.tables.kinds, w.seen, d.stats.fingerprints);
      seen := seen.(cmdHashes := seen.cmdHashes + Elements(d.stats.cmdHashes));
      w := WindowStats(numbers, Tables(tools, kinds, turns), seen);
    }
    assert digests[..|digests|] == digests;
  }

  method DensityOf(s: Stats) returns (n: int)
    ensures n == Density(s)
  {
    var tools := 0;
    var rest := s.tools;
    while rest != map[]
      invariant tools + Total(rest) == Total(s.tools)
      decreases |rest|
    {
      var k :| k in rest;
      TotalAnyFirst(rest, k);
      tools := tools + rest[k];
      rest := rest - {k};
    }
    n := s.userMsgs * 3 + tools + |s.fingerprints| * 2;
    if s.pasteChars > 0 {
      n := n + 2;
    }
  }

  /** One block: three texts and their sizes. */
  method Block(d: Digest) returns (c: Cand)
    ensures c == CandOf(d)
  {
    var size := |d.profile.summary|;
    var text := "session_key: " + d.key + "\nsummary: " + d.profile.summary + "\n";
    ghost var head := text;
    var segs := d.profile.instructions;
    for i := 0 to |segs|
      invariant size == |d.profile.summary| + InstructionSize(segs[..i])
      invariant text == head + InstructionText(segs[..i])
    {
      assert segs[..i + 1][..i] == segs[..i];
      size := size + |segs[i]|;
      text := text + "instruction: " + segs[i] + "\n";
    }
    assert segs[..|segs|] == segs;
    size := size + |d.profile.behavior|;
    text := text + "behavior: " + d.profile.behavior;
    var dens := DensityOf(d.stats);
    c := Cand(d.key, text, size, dens);
  }

  /** Candidates in input order, sorted, then packed until the first overflow. */
  method BuildProfileSet(digests: seq<Digest>) returns (result: ProfileSet, visible: nat)
    ensures result == SetOf(digests) && visible == |result.blocks|
  {
    var w := AggregateWindow(digests);
    var cands: seq<Cand> := [];
    var absent, total := 0, 0;
    for i := 0 to |digests|
      invariant cands == Cands(digests[..i]) && absent == Absent(digests[..i]) && total == |cands|
    {
      assert digests[..i + 1][..i] == digests[..i];
      var d := digests[i];
      if d.status != Success {
        continue;
      }
      total := total + 1;
      if d.profile.narrativeAbsent {
        absent := absent + 1;
      }
      var c := Block(d);
      cands := cands + [c];
    }
    assert digests[..|digests|] == digests;
    BeforeIsStrict();
    Sorting.SortMeaning(cands, Before);
    cands := Sorting.Sort(cands, Before);
    var blocks := Pack(cands);
    result := ProfileSet(w, absent, blocks, total);
    visible := |blocks|;
  }

  method Pack(cands: seq<Cand>) returns (blocks: seq<string>)
    ensures blocks == Texts(cands[..Fitting(cands)])
  {
    var used := 0;
    blocks := [];
    for i := 0 to |cands|
      invariant used == SizeOf(cands[..i]) <= MAX_PROFILE_SET_CHARS
      invariant blocks == Texts(cands[..i])
    {
      assert cands[..i + 1][..i] == cands[..i];
      FittingIsLongestPrefix(cands, i);
      FittingIsLongestPrefix(cands, i + 1);
      if used + cands[i].size > MAX_PROFILE_SET_CHARS {
        return;
      }
      used := used + cands[i].size;
      blocks := blocks + [cands[i].text];
    }
    FittingIsLongestPrefix(cands, |cands|);
    assert cands[..|cands|] == cands;
  }

  // ---------------------------------------------------------------- rankings of counters

  predicate Ahead(a: (string, int), b: (string, int)) {
    a.1 > b.1 || (a.1 == b.1 && LexLess(a.0, b.0))
  }

  lemma AheadIsStrict()
    ensures Sorting.StrictOrder(Ahead)
  {
    forall x, y | Ahead(x, y) ensures !Ahead(y, x) {
      LexTrichotomy(x.0, y.0);
    }
    forall x, y, z | Ahead(x, z) ensures Ahead(x, y) || Ahead(y, z) {
      LexTrichotomy(x.0, y.0);
      LexTrichotomy(y.0, z.0);
      if x.1 == y.1 == z.1 && LexLess(y.0, x.0) { LexTransitive(y.0, x.0, z.0); }
    }
  }

  /** All counters of a map, each once, largest first and by name among equals. */
  ghost predicate Ranks(m: map<string, int>, s: seq<(string, int)>) {
    Sorting.Sorted(s, Ahead) && multiset(s) == multiset(m.Items)
  }

  lemma RankingIsUnique(m: map<string, int>, s: seq<(string, int)>, t: seq<(string, int)>)
    requires Ranks(m, s) && Ranks(m, t)
    ensures s == t
  {
    forall i, j | 0 <= i < |s| && 0 <= j < |s| ensures s[i] == s[j] || Ahead(s[i], s[j]) || Ahead(s[j], s[i]) {
      assert s[i] in multiset(m.Items) && s[j] in multiset(m.Items);
      LexTrichotomy(s[i].0, s[j].0);
    }
    Sorting.SortedIsUnique(s, t, Ahead);
  }

  /** What a counter line shows: the whole ranking, or its first `topN`. */
  function Shown(s: seq<(string, int)>, topN: nat): seq<(string, int)> {
    if topN > 0 && |s| > topN then s[..topN] else s
  }

  /** A limit of zero shows everything; any other shows that many, from the front, or all there are. */
  lemma ShownIsHead(s: seq<(string, int)>, topN: nat)
    ensures Shown(s, topN) <= s && Shown(s, 0) == s
    ensures topN > 0 ==> |Shown(s, topN)| == if |s| < topN then |s| else topN
  {
  }

  function Part(e: (string, int)): string {
    e.0 + "=" + DecimalInt(e.1)
  }

  function PartsOf(s: seq<(string, int)>): seq<string> {
    seq(|s|, i requires 0 <= i < |s| => Part(s[i]))
  }

  function Joined(parts: seq<string>): string
    decreases |parts|
  {
    if parts == [] then ""
    else if |parts| == 1 then parts[0]
    else Joined(parts[..|parts| - 1]) + ", " + parts[|parts| - 1]
  }

  /** A part shows the name up to the sign and the count after it. */
  lemma PartReads(e: (string, int))
    ensures |Part(e)| == |e.0| + 1 + |DecimalInt(e.1)| && Part(e)[..|e.0|] == e.0
    ensures Part(e)[|e.0|] == '=' && Part(e)[|e.0| + 1..] == DecimalInt(e.1)
  {
  }

  /** Joining goes part by part: nothing for none, a part for itself, a comma and a space in between. */
  lemma {:induction false} JoinedConcat(a: seq<string>, b: seq<string>)
    requires a != [] && b != []
    ensures Joined(a + b) == Joined(a) + ", " + Joined(b)
    ensures Joined([]) == "" && Joined([a[0]]) == a[0]
    decreases |b|
  {
    var last := b[|b| - 1];
    assert (a + b)[..|a + b| - 1] == a + b[..|b| - 1];
    if |b| == 1 {
      assert a + b[..0] == a;
    } else {
      JoinedConcat(a, b[..|b| - 1]);
    }
  }

  /** The line of a counter map: the ranking, cut, each entry as name=count, joined by commas. */
  method FormatCounts(m: map<string, int>, topN: nat) returns (text: string)
    ensures exists s :: Ranks(m, s) && text == Joined(PartsOf(Shown(s, topN)))
  {
    var ranking := RankCounts(m);
    var entries := ranking;
    if topN > 0 && |entries| > topN {
      entries := entries[..topN];
    }
    assert entries == Shown(ranking, topN);
    var parts: seq<string> := [];
    for i := 0 to |entries|
      invariant parts == PartsOf(entries[..i])
    {
      assert entries[..i + 1][..i] == entries[..i];
      parts := parts + [entries[i].0 + "=" + DecimalInt(entries[i].1)];
      assert parts == PartsOf(entries[..i + 1]);
    }
    assert entries[..|entries|] == entries;
    text := Joined(parts);
  }

  /** The entries in map order, then the library sort. */
  method RankCounts(m: map<string, int>) returns (entries: seq<(string, int)>)
    ensures Ranks(m, entries)
  {
    entries := [];
    var rest := m.Items;
    while rest != {}
      invariant rest <= m.Items
      invariant multiset(entries) + multiset(rest) == multiset(m.Items)
      decreases |rest|
    {
      var e :| e in rest;
      assert multiset(rest) == multiset(rest - {e}) + multiset{e};
      rest := rest - {e};
      entries := entries + [e];
    }
    AheadIsStrict();
    Sorting.SortMeaning(entries, Ahead);
    entries := Sorting.Sort(entries, Ahead);
  }
}
