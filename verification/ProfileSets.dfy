/** Assembling the profile set: period statistics over all digests, and the session blocks that fit the
    budget, densest first. */
module ProfileSets {
  import opened Numbering
  import Folding
  import Sorting

  /** Thirty thousand tokens, at three characters a token. */
  const MAX_PROFILE_SET_CHARS := 30000 * 3

  datatype Status = Success | Failed | Skipped
  datatype Fingerprint = Fingerprint(kind: string, hash: string, sections: seq<string>)
  datatype Stats = Stats(userMsgs: int, interrupts: int, pasteChars: int, continuation: bool,
                         tools: map<string, int>, turns: map<string, int>,
                         fingerprints: seq<Fingerprint>, cmdHashes: seq<string>)
  /** The parsed profile; `behavior` is the behaviour block as it is rendered. */
  datatype Profile = Profile(summary: string, instructions: seq<string>, behavior: string, narrativeAbsent: bool)
  datatype Digest = Digest(key: string, status: Status, stats: Stats, profile: Profile)

  // ---------------------------------------------------------------- counts

  function At(m: map<string, int>, k: string): int {
    if k in m then m[k] else 0
  }

  function Merge(m: map<string, int>, d: map<string, int>): map<string, int> {
    map k | k in m.Keys + d.Keys :: At(m, k) + At(d, k)
  }

  function KindCounts(fps: seq<Fingerprint>): map<string, int>
    decreases |fps|
  {
    if fps == [] then map[] else Merge(KindCounts(fps[..|fps| - 1]), map[fps[|fps| - 1].kind := 1])
  }

  function Hashes(fps: seq<Fingerprint>): set<string> {
    set i | 0 <= i < |fps| :: fps[i].hash
  }

  function Sections(fps: seq<Fingerprint>): set<string> {
    set i, j | 0 <= i < |fps| && 0 <= j < |fps[i].sections| :: fps[i].sections[j]
  }

  /** The sum of a map's values, in no particular order. */
  ghost function Total(m: map<string, int>): int
    decreases |m|
  {
    if m == map[] then 0
    else
      var k :| k in m;
      m[k] + Total(m - {k})
  }

  lemma {:induction false} TotalAnyFirst(m: map<string, int>, k: string)
    requires k in m
    ensures Total(m) == m[k] + Total(m - {k})
    decreases |m|
  {
    var c :| c in m && Total(m) == m[c] + Total(m - {c});
    if c != k {
      TotalAnyFirst(m - {c}, k);
      TotalAnyFirst(m - {k}, c);
      assert m - {c} - {k} == m - {k} - {c};
    }
  }

  // ---------------------------------------------------------------- period statistics

  datatype Numbers = Numbers(total: int, valid: int, skipped: int, failed: int, userMsgs: int, zeroInput: int,
                             interrupts: int, pasteChars: int, pasteMsgs: int, continuations: int)
  datatype Tables = Tables(tools: map<string, int>, kinds: map<string, int>, turns: map<string, int>)
  datatype Seen = Seen(specHashes: set<string>, sections: set<string>, cmdHashes: set<string>)
  datatype WindowStats = WindowStats(numbers: Numbers, tables: Tables, seen: Seen)

  const NO_STATS := WindowStats(Numbers(0, 0, 0, 0, 0, 0, 0, 0, 0, 0), Tables(map[], map[], map[]), Seen({}, {}, {}))

  function One(b: bool): int {
    if b then 1 else 0
  }

  function AddNumbers(n: Numbers, d: Digest): Numbers {
    Numbers(n.total + 1, n.valid + One(d.status != Skipped), n.skipped + One(d.status == Skipped),
            n.failed + One(d.status == Failed), n.userMsgs + d.stats.userMsgs, n.zeroInput + One(d.stats.userMsgs == 0),
            n.interrupts + d.stats.interrupts, n.pasteChars + d.stats.pasteChars,
            n.pasteMsgs + One(d.stats.pasteChars > 0), n.continuations + One(d.stats.continuation))
  }

  function AddTables(t: Tables, d: Digest): Tables {
    Tables(Merge(t.tools, d.stats.tools), Merge(t.kinds, KindCounts(d.stats.fingerprints)), Merge(t.turns, d.stats.turns))
  }

  function AddSeen(s: Seen, d: Digest): Seen {
    Seen(s.specHashes + Hashes(d.stats.fingerprints), s.sections + Sections(d.stats.fingerprints),
         s.cmdHashes + Elements(d.stats.cmdHashes))
  }

  function AddDigest(w: WindowStats, d: Digest): WindowStats {
    WindowStats(AddNumbers(w.numbers, d), AddTables(w.tables, d), AddSeen(w.seen, d))
  }

  function Aggregate(digests: seq<Digest>): WindowStats {
    Folding.Fold(NO_STATS, digests, AddDigest)
  }

  lemma MergeSwaps(m: map<string, int>, a: map<string, int>, b: map<string, int>)
    ensures Merge(Merge(m, a), b) == Merge(Merge(m, b), a)
  {
  }

  lemma TablesSwap(t: Tables, x: Digest, y: Digest)
    ensures AddTables(AddTables(t, x), y) == AddTables(AddTables(t, y), x)
  {
    MergeSwaps(t.tools, x.stats.tools, y.stats.tools);
    MergeSwaps(t.kinds, KindCounts(x.stats.fingerprints), KindCounts(y.stats.fingerprints));
    MergeSwaps(t.turns, x.stats.turns, y.stats.turns);
  }

  lemma SeenSwap(s: Seen, x: Digest, y: Digest)
    ensures AddSeen(AddSeen(s, x), y) == AddSeen(AddSeen(s, y), x)
  {
    assert forall a: set<string>, b, c :: (a + b) + c == (a + c) + b;
  }

  lemma NumbersSwap(n: Numbers, x: Digest, y: Digest)
    ensures AddNumbers(AddNumbers(n, x), y) == AddNumbers(AddNumbers(n, y), x)
  {
  }

  lemma DigestsSwap(w: WindowStats, x: Digest, y: Digest)
    ensures AddDigest(AddDigest(w, x), y) == AddDigest(AddDigest(w, y), x)
  {
    NumbersSwap(w.numbers, x, y);
    TablesSwap(w.tables, x, y);
    SeenSwap(w.seen, x, y);
  }

  lemma DigestsCommute()
    ensures Folding.Commutes(AddDigest)
  {
    forall w, x, y ensures AddDigest(AddDigest(w, x), y) == AddDigest(AddDigest(w, y), x) {
      DigestsSwap(w, x, y);
    }
  }

  // ---------------------------------------------------------------- what the statistics count

  ghost function Places(digests: seq<Digest>, p: Digest -> bool): set<int> {
    set i | 0 <= i < |digests| && p(digests[i])
  }

  ghost function Sum(digests: seq<Digest>, f: Digest -> int): int
    decreases |digests|
  {
    if digests == [] then 0 else Sum(digests[..|digests| - 1], f) + f(digests[|digests| - 1])
  }

  lemma PlacesSnoc(digests: seq<Digest>, p: Digest -> bool)
    requires digests != []
    ensures |Places(digests, p)| == |Places(digests[..|digests| - 1], p)| + if p(digests[|digests| - 1]) then 1 else 0
  {
    var k := |digests| - 1;
    if p(digests[k]) {
      assert Places(digests, p) == Places(digests[..k], p) + {k};
    } else {
      assert Places(digests, p) == Places(digests[..k], p);
    }
  }

  /** Each number counts the digests it is named for, or adds up their column. */
  lemma {:induction false} NumbersCountDigests(digests: seq<Digest>)
    ensures var n := Aggregate(digests).numbers;
            && n.total == |digests|
            && n.valid == |Places(digests, (d: Digest) => d.status == Success || d.status == Failed)|
            && n.failed == |Places(digests, (d: Digest) => d.status == Failed)|
            && n.skipped == |Places(digests, (d: Digest) => d.status == Skipped)|
            && n.zeroInput == |Places(digests, (d: Digest) => d.stats.userMsgs == 0)|
            && n.pasteMsgs == |Places(digests, (d: Digest) => d.stats.pasteChars > 0)|
            && n.continuations == |Places(digests, (d: Digest) => d.stats.continuation)|
            && n.userMsgs == Sum(digests, (d: Digest) => d.stats.userMsgs)
            && n.interrupts == Sum(digests, (d: Digest) => d.stats.interrupts)
            && n.pasteChars == Sum(digests, (d: Digest) => d.stats.pasteChars)
    decreases |digests|
  {
    if digests != [] {
      NumbersCountDigests(digests[..|digests| - 1]);
      PlacesSnoc(digests, (d: Digest) => d.status == Success || d.status == Failed);
      PlacesSnoc(digests, (d: Digest) => d.status == Failed);
      PlacesSnoc(digests, (d: Digest) => d.status == Skipped);
      PlacesSnoc(digests, (d: Digest) => d.stats.userMsgs == 0);
      PlacesSnoc(digests, (d: Digest) => d.stats.pasteChars > 0);
      PlacesSnoc(digests, (d: Digest) => d.stats.continuation);
    }
  }

  ghost function OfKind(fps: seq<Fingerprint>, kind: string): set<int> {
    set i | 0 <= i < |fps| && fps[i].kind == kind
  }

  lemma OfKindSnoc(fps: seq<Fingerprint>, kind: string)
    requires fps != []
    ensures |OfKind(fps, kind)| == |OfKind(fps[..|fps| - 1], kind)| + if fps[|fps| - 1].kind == kind then 1 else 0
  {
    var k := |fps| - 1;
    if fps[k].kind == kind {
      assert OfKind(fps, kind) == OfKind(fps[..k], kind) + {k};
    } else {
      assert OfKind(fps, kind) == OfKind(fps[..k], kind);
    }
  }

  lemma {:induction false} KindsCount(fps: seq<Fingerprint>, kind: string)
    ensures At(KindCounts(fps), kind) == |OfKind(fps, kind)|
    decreases |fps|
  {
    if fps != [] {
      KindsCount(fps[..|fps| - 1], kind);
      OfKindSnoc(fps, kind);
    }
  }

  /** Each counter of a table adds up the digests' counters of that name; a fingerprint counts for its kind. */
  lemma {:induction false} TablesAddUp(digests: seq<Digest>, name: string)
    ensures var t := Aggregate(digests).tables;
            && At(t.tools, name) == Sum(digests, (d: Digest) => At(d.stats.tools, name))
            && At(t.turns, name) == Sum(digests, (d: Digest) => At(d.stats.turns, name))
            && At(t.kinds, name) == Sum(digests, (d: Digest) => |OfKind(d.stats.fingerprints, name)|)
    decreases |digests|
  {
    if digests != [] {
      TablesAddUp(digests[..|digests| - 1], name);
      KindsCount(digests[|digests| - 1].stats.fingerprints, name);
    }
  }

  /** A hash, a section or a command is seen exactly when some digest has it. */
  lemma {:induction false} SeenMembers(digests: seq<Digest>, x: string)
    ensures var s := Aggregate(digests).seen;
            && (x in s.specHashes <==> exists d :: d in digests && x in Hashes(d.stats.fingerprints))
            && (x in s.sections <==> exists d :: d in digests && x in Sections(d.stats.fingerprints))
            && (x in s.cmdHashes <==> exists d :: d in digests && x in d.stats.cmdHashes)
    decreases |digests|
  {
    if digests != [] {
      var init, last := digests[..|digests| - 1], digests[|digests| - 1];
      SeenMembers(init, x);
      assert digests == init + [last];
      assert last in digests && forall d :: d in digests <==> d in init || d == last;
    }
  }

  // ---------------------------------------------------------------- candidates

  /** A success profile as a block: its text, the size that counts against the budget, and its density. */
  datatype Cand = Cand(key: string, text: string, size: nat, dens: int)

  ghost function Density(s: Stats): int {
    3 * s.userMsgs + Total(s.tools) + 2 * |s.fingerprints| + if s.pasteChars > 0 then 2 else 0
  }

  function InstructionText(segs: seq<string>): string
    decreases |segs|
  {
    if segs == [] then "" else InstructionText(segs[..|segs| - 1]) + "instruction: " + segs[|segs| - 1] + "\n"
  }

  function InstructionSize(segs: seq<string>): nat
    decreases |segs|
  {
    if segs == [] then 0 else InstructionSize(segs[..|segs| - 1]) + |segs[|segs| - 1]|
  }

  function BlockText(key: string, p: Profile): string {
    "session_key: " + key + "\nsummary: " + p.summary + "\n" + InstructionText(p.instructions) + "behavior: " + p.behavior
  }

  /** Labels and separators are not counted. */
  function BlockSize(p: Profile): nat {
    |p.summary| + InstructionSize(p.instructions) + |p.behavior|
  }

  ghost function CandOf(d: Digest): Cand {
    Cand(d.key, BlockText(d.key, d.profile), BlockSize(d.profile), Density(d.stats))
  }

  /** The blocks of the success digests, in input order. */
  ghost function Cands(digests: seq<Digest>): seq<Cand>
    decreases |digests|
  {
    if digests == [] then []
    else
      var d := digests[|digests| - 1];
      Cands(digests[..|digests| - 1]) + if d.status == Success then [CandOf(d)] else []
  }

  function Absent(digests: seq<Digest>): nat
    decreases |digests|
  {
    if digests == [] then 0
    else
      var d := digests[|digests| - 1];
      Absent(digests[..|digests| - 1]) + if d.status == Success && d.profile.narrativeAbsent then 1 else 0
  }

  /** Denser first; equal density by key. */
  predicate Before(a: Cand, b: Cand) {
    a.dens > b.dens || (a.dens == b.dens && LexLess(a.key, b.key))
  }

  lemma BeforeIsStrict()
    ensures Sorting.StrictOrder(Before)
  {
    forall x, y | Before(x, y) ensures !Before(y, x) {
      LexTrichotomy(x.key, y.key);
    }
    forall x, y, z | Before(x, z) ensures Before(x, y) || Before(y, z) {
      LexTrichotomy(x.key, y.key);
      LexTrichotomy(y.key, z.key);
      if x.dens == y.dens == z.dens && LexLess(y.key, x.key) { LexTransitive(y.key, x.key, z.key); }
    }
  }

  /** What evidence weighs: a user message three, a tool call one, a fingerprint two, any pasted text two. */
  lemma DensityWeighs(s: Stats, tool: string, fp: Fingerprint, n: int)
    ensures Density(s.(userMsgs := s.userMsgs + 1)) == Density(s) + 3
    ensures Density(s.(tools := s.tools[tool := At(s.tools, tool) + n])) == Density(s) + n
    ensures Density(s.(fingerprints := s.fingerprints + [fp])) == Density(s) + 2
    ensures s.pasteChars <= 0 < n ==> Density(s.(pasteChars := n)) == Density(s) + 2
    ensures s.pasteChars > 0 && n > 0 ==> Density(s.(pasteChars := n)) == Density(s)
    ensures Density(Stats(0, s.interrupts, 0, s.continuation, map[], s.turns, [], s.cmdHashes)) == 0
  {
    var more := s.tools[tool := At(s.tools, tool) + n];
    TotalAnyFirst(more, tool);
    assert more - {tool} == s.tools - {tool};
    if tool in s.tools { TotalAnyFirst(s.tools, tool); } else { assert s.tools - {tool} == s.tools; }
  }

  /** Where a block's instructions end and its behaviour begins. */
  function Head(key: string, p: Profile): string {
    "session_key: " + key + "\nsummary: " + p.summary + "\n" + InstructionText(p.instructions)
  }

  lemma HeadAndTail(head: string, tail: string)
    ensures (head + tail)[..|head|] == head && (head + tail)[|head|..] == tail
  {
  }

  /** A block without instructions. */
  lemma PlainBlockReads(key: string, p: Profile)
    requires p.instructions == []
    ensures BlockText(key, p) == "session_key: " + key + "\nsummary: " + p.summary + "\nbehavior: " + p.behavior
  {
    assert "\n" + "behavior: " == "\nbehavior: ";
  }

  /** What one more instruction adds: a line of its own, before the behaviour. */
  lemma BlockReads(key: string, p: Profile, seg: string)
    ensures var at := |Head(key, p)|;
            && at <= |BlockText(key, p)| && BlockText(key, p)[at..] == "behavior: " + p.behavior
            && BlockText(key, p.(instructions := p.instructions + [seg]))
               == BlockText(key, p)[..at] + ("instruction: " + seg + "\n") + BlockText(key, p)[at..]
  {
    var more := p.instructions + [seg];
    assert more[..|more| - 1] == p.instructions;
    HeadAndTail(Head(key, p), "behavior: " + p.behavior);
    BlockIsHeadAndTail(key, p);
    BlockIsHeadAndTail(key, p.(instructions := more));
    HeadGrows(key, p, seg);
  }

  lemma BlockIsHeadAndTail(key: string, p: Profile)
    ensures BlockText(key, p) == Head(key, p) + ("behavior: " + p.behavior)
  {
  }

  lemma HeadGrows(key: string, p: Profile, seg: string)
    ensures Head(key, p.(instructions := p.instructions + [seg])) == Head(key, p) + ("instruction: " + seg + "\n")
  {
    assert (p.instructions + [seg])[..|p.instructions|] == p.instructions;
  }

  lemma {:induction false} InstructionLabels(segs: seq<string>)
    ensures |InstructionText(segs)| == InstructionSize(segs) + 14 * |segs|
    decreases |segs|
  {
    if segs != [] { InstructionLabels(segs[..|segs| - 1]); }
  }

  /** The size that counts against the budget is the length of the text without its key, its labels and
      its line ends. */
  lemma SizeIsTextWithoutLabels(key: string, p: Profile)
    ensures |BlockText(key, p)| == BlockSize(p) + |key| + 34 + 14 * |p.instructions|
  {
    InstructionLabels(p.instructions);
  }

  /** Exactly the success digests make blocks, one each, in their order. */
  lemma {:induction false} CandsAreSuccesses(digests: seq<Digest>)
    ensures |Cands(digests)| == |Places(digests, (d: Digest) => d.status == Success)|
    ensures Absent(digests) == |Places(digests, (d: Digest) => d.status == Success && d.profile.narrativeAbsent)|
    ensures forall c :: c in Cands(digests) <==> exists d :: d in digests && d.status == Success && Renders(d, c)
    decreases |digests|
  {
    if digests != [] {
      var init, last := digests[..|digests| - 1], digests[|digests| - 1];
      CandsAreSuccesses(init);
      PlacesSnoc(digests, (d: Digest) => d.status == Success);
      PlacesSnoc(digests, (d: Digest) => d.status == Success && d.profile.narrativeAbsent);
      assert digests == init + [last];
      assert last in digests && forall d :: d in digests <==> d in init || d == last;
      forall c ensures Renders(last, c) <==> c == CandOf(last) {}
    }
  }

  ghost predicate Renders(d: Digest, c: Cand) {
    && c.key == d.key && c.dens == Density(d.stats)
    && c.text == BlockText(d.key, d.profile) && c.size == BlockSize(d.profile)
  }

  // ---------------------------------------------------------------- packing

  function SizeOf(cands: seq<Cand>): nat
    decreases |cands|
  {
    if cands == [] then 0 else SizeOf(cands[..|cands| - 1]) + cands[|cands| - 1].size
  }

  /** How many blocks are taken: up to the first that would overflow. */
  function Fitting(cands: seq<Cand>): (taken: nat)
    ensures taken <= |cands|
    decreases |cands|
  {
    if cands == [] then 0
    else
      var n := Fitting(cands[..|cands| - 1]);
      if n < |cands| - 1 then n else if SizeOf(cands) <= MAX_PROFILE_SET_CHARS then |cands| else |cands| - 1
  }

  /** The budget counts every block with its own size. */
  lemma {:induction false} SizesAddUp(a: seq<Cand>, b: seq<Cand>)
    ensures SizeOf(a + b) == SizeOf(a) + SizeOf(b)
    ensures |a| == 1 ==> SizeOf(a) == a[0].size
    decreases |b|
  {
    if b == [] {
      assert a + b == a;
    } else {
      SizesAddUp(a, b[..|b| - 1]);
      assert (a + b)[..|a + b| - 1] == a + b[..|b| - 1];
    }
    if |a| == 1 { assert SizeOf(a[..0]) == 0; }
  }

  lemma {:induction false} SizesGrow(cands: seq<Cand>, m: nat, n: nat)
    requires m <= n <= |cands|
    ensures SizeOf(cands[..m]) <= SizeOf(cands[..n])
    decreases n
  {
    if m < n {
      SizesGrow(cands, m, n - 1);
      assert cands[..n][..n - 1] == cands[..n - 1];
    }
  }

  /** A prefix fits the budget exactly when it is no longer than what is taken: the longest that fits. */
  lemma {:induction false} FittingIsLongestPrefix(cands: seq<Cand>, m: nat)
    requires m <= |cands|
    ensures SizeOf(cands[..m]) <= MAX_PROFILE_SET_CHARS <==> m <= Fitting(cands)
    decreases |cands|
  {
    if cands == [] {
      assert cands[..m] == [];
    } else {
      var init := cands[..|cands| - 1];
      if m < |cands| {
        FittingIsLongestPrefix(init, m);
        assert cands[..m] == init[..m];
      } else {
        FittingIsLongestPrefix(init, |init|);
        assert cands[..m] == cands && init[..|init|] == init;
        SizesGrow(cands, |init|, m);
      }
    }
  }

  // ---------------------------------------------------------------- the profile set

  datatype ProfileSet = ProfileSet(stats: WindowStats, absent: nat, blocks: seq<string>, totalSuccess: nat)

  function Texts(cands: seq<Cand>): seq<string> {
    seq(|cands|, i requires 0 <= i < |cands| => cands[i].text)
  }

  ghost function SortedCands(digests: seq<Digest>): seq<Cand> {
    Sorting.Sort(Cands(digests), Before)
  }

  ghost function SetOf(digests: seq<Digest>): ProfileSet {
    var sorted := SortedCands(digests);
    ProfileSet(Aggregate(digests), Absent(digests), Texts(sorted[..Fitting(sorted)]), |sorted|)
  }

  /** The blocks are the longest fitting prefix of the success profiles by density and key; one more block
      would overflow; and fewer are visible than there are exactly when they do not all fit. */
  lemma BlocksAreTheLongestFittingPrefix(digests: seq<Digest>)
    ensures var s := SetOf(digests); var sorted := SortedCands(digests); var n := |s.blocks|;
            && Sorting.Sorted(sorted, Before) && multiset(sorted) == multiset(Cands(digests))
            && n <= |sorted| == s.totalSuccess && s.blocks == Texts(sorted[..n])
            && SizeOf(sorted[..n]) <= 90_000
            && (n < s.totalSuccess ==> SizeOf(sorted[..n + 1]) > 90_000)
            && (n < s.totalSuccess <==> SizeOf(sorted) > 90_000)
  {
    BeforeIsStrict();
    Sorting.SortMeaning(Cands(digests), Before);
    var sorted := SortedCands(digests);
    var n := Fitting(sorted);
    FittingIsLongestPrefix(sorted, n);
    FittingIsLongestPrefix(sorted, |sorted|);
    assert sorted[..|sorted|] == sorted;
    if n < |sorted| { FittingIsLongestPrefix(sorted, n + 1); }
  }

  // ---------------------------------------------------------------- independence of input order

  ghost function AddCand(m: multiset<Cand>, d: Digest): multiset<Cand> {
    if d.status == Success then m + multiset{CandOf(d)} else m
  }

  function AddAbsent(n: nat, d: Digest): nat {
    if d.status == Success && d.profile.narrativeAbsent then n + 1 else n
  }

  lemma {:induction false} CandsFold(digests: seq<Digest>)
    ensures multiset(Cands(digests)) == Folding.Fold(multiset{}, digests, AddCand)
    ensures Absent(digests) == Folding.Fold(0, digests, AddAbsent)
    decreases |digests|
  {
    if digests != [] { CandsFold(digests[..|digests| - 1]); }
  }

  lemma CandsCommute()
    ensures Folding.Commutes(AddCand) && Folding.Commutes(AddAbsent)
  {
    forall m, x, y ensures AddCand(AddCand(m, x), y) == AddCand(AddCand(m, y), x) {
    }
  }

  /** Session keys of success digests are unique in a period. */
  ghost predicate DistinctKeys(cands: seq<Cand>) {
    forall i, j :: 0 <= i < |cands| && 0 <= j < |cands| && cands[i].key == cands[j].key ==> cands[i] == cands[j]
  }

  /** With one profile per key, nothing of the set depends on the order in which the digests arrive. */
  lemma SetIgnoresInputOrder(a: seq<Digest>, b: seq<Digest>)
    requires multiset(a) == multiset(b) && DistinctKeys(Cands(a))
    ensures SetOf(a) == SetOf(b)
  {
    DigestsCommute();
    Folding.FoldIgnoresOrder(NO_STATS, a, b, AddDigest);
    CandsCommute();
    CandsFold(a);
    CandsFold(b);
    Folding.FoldIgnoresOrder(multiset{}, a, b, AddCand);
    Folding.FoldIgnoresOrder(0, a, b, AddAbsent);
    BeforeIsStrict();
    forall i, j | 0 <= i < |Cands(a)| && 0 <= j < |Cands(a)|
      ensures Cands(a)[i] == Cands(a)[j] || Before(Cands(a)[i], Cands(a)[j]) || Before(Cands(a)[j], Cands(a)[i])
    {
      LexTrichotomy(Cands(a)[i].key, Cands(a)[j].key);
    }
    Sorting.SortIgnoresOrder(Cands(a), Cands(b), Before);
  }
}
