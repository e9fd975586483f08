/** The evaluator as the source runs it: its loops, its early returns and its writes in place. */
module EvaluatorService {
  import opened Base
  import opened Evaluator
  import Numbering
  import Sorting

  lemma {:induction false} FirstAnswerSnoc(answers: seq<Answer>, a: Answer, code: string)
    ensures FirstAnswer(answers + [a], code)
         == if FirstAnswer(answers, code).Some? then FirstAnswer(answers, code)
            else if a.code == code then Some(a) else None
    decreases |answers|
  {
    if answers == [] {
      assert answers + [a] == [a];
    } else {
      assert (answers + [a])[1..] == answers[1..] + [a];
      FirstAnswerSnoc(answers[1..], a, code);
    }
  }

  lemma {:induction false} ConvergeFailsEarly(answers: seq<Answer>, specs: seq<Spec>, n: nat)
    requires n <= |specs| && Converge(answers, specs[..n]).None?
    ensures Converge(answers, specs).None?
    decreases |specs| - n
  {
    if n < |specs| {
      assert specs[..n + 1][..n] == specs[..n];
      ConvergeFailsEarly(answers, specs, n + 1);
    } else {
      assert specs[..n] == specs;
    }
  }

  /** The index of first answers by code. */
  method FirstByCode(answers: seq<Answer>) returns (byCode: map<string, Answer>)
    ensures forall c :: FirstAnswer(answers, c) == if c in byCode then Some(byCode[c]) else None
  {
    byCode := map[];
    for i := 0 to |answers|
      invariant forall c :: FirstAnswer(answers[..i], c) == if c in byCode then Some(byCode[c]) else None
    {
      forall c ensures FirstAnswer(answers[..i + 1], c)
                    == if FirstAnswer(answers[..i], c).Some? then FirstAnswer(answers[..i], c)
                       else if answers[i].code == c then Some(answers[i]) else None
      {
        assert answers[..i + 1] == answers[..i] + [answers[i]];
        FirstAnswerSnoc(answers[..i], answers[i], c);
      }
      if answers[i].code !in byCode {
        byCode := byCode[answers[i].code := answers[i]];
      }
    }
    assert answers[..|answers|] == answers;
  }

  /** The pass over the wanted dimensions. */
  method ConvergeSpecs(byCode: map<string, Answer>, ghost answers: seq<Answer>, specs: seq<Spec>) returns (result: Option<seq<Score>>)
    requires forall c :: FirstAnswer(answers, c) == if c in byCode then Some(byCode[c]) else None
    ensures result == Converge(answers, specs)
  {
    var rows: seq<Score> := [];
    for i := 0 to |specs|
      invariant Converge(answers, specs[..i]) == Some(rows)
    {
      assert specs[..i + 1][..i] == specs[..i];
      var spec := specs[i];
      if spec.code !in byCode {
        rows := rows + [InsufficientRow(spec)];
      } else {
        var a := byCode[spec.code];
        var score := 0;
        if a.score.Some? {
          if a.score.value < SCORE_MIN || a.score.value > SCORE_MAX {
            ConvergeFailsEarly(answers, specs, i + 1);
            return None;
          }
          score := a.score.value;
        }
        if |a.rationale| > MAX_RATIONALE_CHARS * 2 {
          ConvergeFailsEarly(answers, specs, i + 1);
          return None;
        }
        var row := SuccessRow(spec, score, a.rationale, a.insufficient);
        if a.insufficient || a.score.None? {
          row := SuccessRow(spec, 0, a.rationale, true);
          if a.rationale == "" {
            row := SuccessRow(spec, 0, DEFAULT_RATIONALE, true);
          }
        }
        rows := rows + [row];
      }
    }
    assert specs[..|specs|] == specs;
    result := Some(rows);
  }

  /** Whitelist and check the model's output: an index of first answers, then one pass over the wanted
      dimensions that stops at the first unacceptable answer. */
  method ValidateAndConverge(answers: seq<Answer>, specs: seq<Spec>) returns (result: Option<seq<Score>>)
    ensures result == Converge(answers, specs)
    ensures result.None? <==> Refused(answers, specs)
    ensures result.Some? ==> Carries(result.value, specs, answers)
  {
    var byCode := FirstByCode(answers);
    result := ConvergeSpecs(byCode, answers, specs);
    ConvergeReflectsAnswers(answers, specs);
  }

  method ScoredPromptSpecs(specs: seq<Spec>) returns (scored: seq<Spec>)
    ensures scored == Prompted(specs, true)
  {
    scored := [];
    for i := 0 to |specs|
      invariant scored == Prompted(specs[..i], true)
    {
      assert specs[..i + 1][..i] == specs[..i];
      if specs[i].prompt != "" {
        scored := scored + [specs[i]];
      }
    }
    assert specs[..|specs|] == specs;
  }

  /** The rows written without asking the model: for every dimension, or only for those without a prompt. */
  method SkipInsufficientRows(specs: seq<Spec>, evidence: string, all: bool) returns (rows: seq<Score>)
    ensures rows == SkipRows(if all then specs else Prompted(specs, false), evidence)
  {
    rows := [];
    for i := 0 to |specs|
      invariant rows == SkipRows(if all then specs[..i] else Prompted(specs[..i], false), evidence)
    {
      assert specs[..i + 1][..i] == specs[..i];
      if all || specs[i].prompt == "" {
        rows := rows + [SkipRow(specs[i], evidence)];
      }
    }
    assert specs[..|specs|] == specs;
  }

  method CallOnce(attempt: Attempt, specs: seq<Spec>) returns (outcome: Outcome)
    ensures outcome == Once(attempt, specs)
  {
    match attempt {
      case Answered(answers) =>
        var rows := ValidateAndConverge(answers, specs);
        outcome := if rows.None? then Failure(SCHEMA_ERROR) else Scored(rows.value);
      case Unparsable => outcome := Failure(SCHEMA_ERROR);
      case TooLong => outcome := Failure(CONTEXT_LENGTH_ERROR);
      case Upstream => outcome := Failure(UPSTREAM_ERROR);
    }
  }

  method LlmEvaluate(specs: seq<Spec>, ev: Evidence, llm: Llm, redact: string -> string) returns (result: Option<seq<Score>>)
    ensures result == LlmRows(specs, ev, llm, redact)
  {
    var outcome := CallOnce(llm.first, specs);
    if outcome == Failure(SCHEMA_ERROR) && !llm.canceledEarly {
      outcome := CallOnce(llm.second, specs);
    }
    if outcome.Scored? {
      var rows := outcome.rows;
      for i := 0 to |rows|
        invariant |rows| == |outcome.rows|
        invariant forall j :: 0 <= j < i ==> rows[j] == WithMeta(outcome.rows[j], ev, llm.model, redact)
        invariant forall j :: i <= j < |rows| ==> rows[j] == outcome.rows[j]
      {
        var row := rows[i].row.(rationale := redact(rows[i].row.rationale));
        rows := rows[i := rows[i].(row := row.(evidence := ev.text, model := llm.model, version := PROMPT_VERSION))];
      }
      assert rows == AllWithMeta(outcome.rows, ev, llm.model, redact);
      return Some(rows);
    }
    if llm.canceledEarly || llm.canceledLate {
      return None;
    }
    var failed: seq<Score> := [];
    for i := 0 to |specs|
      invariant failed == FailedRows(specs[..i], ev, llm.model, outcome.errorCode)
    {
      failed := failed + [FailedRow(specs[i], ev, llm.model, outcome.errorCode)];
    }
    assert specs[..|specs|] == specs;
    result := Some(failed);
  }

  /** The rows of one evaluation: skip rows without asking, or the model's rows with skip rows for the
      dimensions that have no prompt. */
  method ScoreRows(specs: seq<Spec>, ev: Evidence, llm: Llm, redact: string -> string) returns (rows: Option<seq<Score>>)
    ensures rows == Rows(specs, ev, llm, redact)
  {
    if ev.validProfiles < MIN_VALID_PROFILES || ev.kind == BypassOrchestrator || ev.kind == AutoClient {
      var all := SkipInsufficientRows(specs, if ev.kind == Normal then ev.text else ev.signedText, true);
      return Some(all);
    }
    var scored := ScoredPromptSpecs(specs);
    var missing := SkipInsufficientRows(specs, ev.text, false);
    if |scored| == 0 {
      return Some(missing);
    }
    var asked := LlmEvaluate(scored, ev, llm, redact);
    if asked.None? {
      return None;
    }
    rows := Some(asked.value + missing);
  }

  class Service {
    var scores: Store

    /** The rows of exactly this person and period, in the order of their codes. */
    method ListByPersonPeriodExact(token: string, p: Period) returns (list: seq<Score>)
      ensures Lists(scores, token, p, list)
      ensures forall i, j :: 0 <= i < j < |list| ==> Numbering.LexLess(list[i].code, list[j].code)
    {
      var found := Find(token, p);
      list := Sorting.Sort(found, ByCode);
      SortedByCode(found);
      SortedLists(scores, token, p, found, list);
    }

    /** The matching rows in no particular order. */
    method Find(token: string, p: Period) returns (found: seq<Score>)
      ensures Lists(scores, token, p, found)
      ensures forall i, j :: 0 <= i < j < |found| ==> found[i].code != found[j].code
    {
      found := [];
      var rest := scores.Keys;
      while rest != {}
        invariant rest <= scores.Keys
        invariant forall i :: 0 <= i < |found| ==> Listed(scores, token, p, found[i]) && Key(token, p.start, found[i].code) !in rest
        invariant forall k :: k in scores.Keys - rest && InPeriod(scores, k, token, p) ==> Score(k.code, scores[k]) in found
        invariant forall i, j :: 0 <= i < j < |found| ==> found[i].code != found[j].code
        decreases |rest|
      {
        var k :| k in rest;
        if InPeriod(scores, k, token, p) {
          assert k == Key(token, p.start, k.code);
          found := found + [Score(k.code, scores[k])];
        }
        rest := rest - {k};
      }
    }

    /** Other writers' statements, run on the same table. */
    method Interfere(ws: seq<Write>)
      modifies this
      ensures scores == ApplyWrites(old(scores), ws)
    {
      for i := 0 to |ws|
        invariant ApplyWrites(scores, ws[i..]) == ApplyWrites(old(scores), ws)
      {
        assert ws[i..][1..] == ws[i + 1..];
        scores := ApplyWrite(scores, ws[i]);
      }
    }

    /** One pass over the rows read. Any leftover or outdated row forbids reuse and triggers the delete,
        before which others may write. */
    method IdempotencyCheck(token: string, p: Period, specs: seq<Spec>, deleteFails: bool, beforeDelete: seq<Write>)
      returns (reuse: bool, ok: bool)
      modifies this
      ensures var mid := ApplyWrites(old(scores), beforeDelete);
              && ok == !(NeedsCleaning(old(scores), token, p, specs) && deleteFails)
              && scores == (if ok && NeedsCleaning(old(scores), token, p, specs) then DeleteLeftovers(mid, token, p) else mid)
      ensures ok ==> reuse == Reuses(old(scores), token, p, specs)
    {
      var existing := ListByPersonPeriodExact(token, p);
      ghost var read := scores;
      Interfere(beforeDelete);
      var hasFailed := false;
      var codes: set<string> := {};
      for i := 0 to |existing|
        invariant hasFailed <==> exists j :: 0 <= j < i && Blocks(existing[j], specs)
        invariant forall c :: c in codes <==> exists j :: 0 <= j < i && Counts(existing[j], specs) && existing[j].code == c
      {
        var s := existing[i];
        if s.row.source != Conversation {
          continue;
        }
        if s.row.status == Failed {
          hasFailed := true;
        } else if s.row.errorCode == SKIP_NO_LLM {
          hasFailed := true;
        } else if s.code in SpecCodes(specs) {
          if s.row.version != PROMPT_VERSION {
            hasFailed := true;
          } else {
            codes := codes + {s.code};
          }
        }
      }
      BlocksIsNeedsCleaning(read, token, p, specs, existing);
      if hasFailed {
        if deleteFails {
          return false, false;
        }
        scores := DeleteLeftovers(scores, token, p);
        return false, true;
      }
      var full := codes != {};
      for i := 0 to |specs|
        invariant full <==> codes != {} && forall j :: 0 <= j < i ==> specs[j].code in codes
      {
        if specs[i].code !in codes {
          full := false;
          break;
        }
      }
      CountsIsCovered(read, token, p, specs, existing, codes);
      return full, true;
    }

    method SaveRows(token: string, p: Period, rows: seq<Score>)
      modifies this
      ensures scores == SaveAll(old(scores), token, p, rows)
    {
      for i := 0 to |rows|
        invariant scores == SaveAll(old(scores), token, p, rows[..i])
      {
        assert rows[..i + 1][..i] == rows[..i];
        scores := scores[Key(token, p.start, rows[i].code) := rows[i].row.(endAt := p.end)];
      }
      assert rows[..|rows|] == rows;
    }

    /** Others may write between the read, the delete and the save. */
    method Evaluate(token: string, p: Period, specs: seq<Spec>, faults: Faults, ev: Evidence, llm: Llm, redact: string -> string,
                    beforeDelete: seq<Write>, beforeSave: seq<Write>)
      returns (result: Result)
      modifies this
      ensures (scores, result) == EvaluateAmong(old(scores), token, p, specs, faults, ev, llm, redact, beforeDelete, beforeSave)
    {
      if faults.config || specs == [] || faults.list {
        Interfere(beforeDelete);
        Interfere(beforeSave);
        return Error;
      }
      var reuse, ok := IdempotencyCheck(token, p, specs, faults.delete, beforeDelete);
      Interfere(beforeSave);
      if !ok {
        return Error;
      }
      if reuse {
        return Done([], false, true);
      }
      if faults.inputs {
        return Error;
      }
      var rows := ScoreRows(specs, ev, llm, redact);
      if rows.None? || faults.save {
        return Error;
      }
      SaveRows(token, p, rows.value);
      result := Done(rows.value, Skips(ev), false);
    }
  }

  predicate ByCode(a: Score, b: Score) {
    Numbering.LexLess(a.code, b.code)
  }

  lemma ByCodeIsStrict()
    ensures Sorting.StrictOrder(ByCode)
  {
    forall x: Score, y: Score | ByCode(x, y) ensures !ByCode(y, x) {
      Numbering.LexTrichotomy(x.code, y.code);
    }
    forall x: Score, y: Score, z: Score | ByCode(x, z) ensures ByCode(x, y) || ByCode(y, z) {
      Numbering.LexTrichotomy(x.code, y.code);
      Numbering.LexTrichotomy(y.code, z.code);
      if ByCode(y, x) { Numbering.LexTransitive(y.code, x.code, z.code); }
    }
  }

  lemma SameMembers(a: seq<Score>, b: seq<Score>)
    requires multiset(a) == multiset(b)
    ensures forall s :: s in a <==> s in b
  {
    forall s ensures s in a <==> s in b {
      assert s in a <==> s in multiset(a);
      assert s in b <==> s in multiset(b);
    }
  }

  lemma SortedLists(store: Store, token: string, p: Period, found: seq<Score>, list: seq<Score>)
    requires Lists(store, token, p, found) && multiset(list) == multiset(found)
    ensures Lists(store, token, p, list)
  {
    SameMembers(list, found);
    forall i | 0 <= i < |list| ensures Listed(store, token, p, list[i]) {
      assert list[i] in found;
    }
  }

  /** Rows with distinct codes, sorted, are in strictly ascending order of their codes. */
  lemma SortedByCode(found: seq<Score>)
    requires forall i, j :: 0 <= i < j < |found| ==> found[i].code != found[j].code
    ensures multiset(Sorting.Sort(found, ByCode)) == multiset(found)
    ensures var list := Sorting.Sort(found, ByCode);
            forall i, j :: 0 <= i < j < |list| ==> Numbering.LexLess(list[i].code, list[j].code)
  {
    var list := Sorting.Sort(found, ByCode);
    ByCodeIsStrict();
    Sorting.SortMeaning(found, ByCode);
    forall i, j | 0 <= i < j < |list| ensures Numbering.LexLess(list[i].code, list[j].code) {
      CodesStayDistinct(found, list, i, j);
      Numbering.LexTrichotomy(list[i].code, list[j].code);
    }
  }

  lemma CodesStayDistinct(found: seq<Score>, list: seq<Score>, i: nat, j: nat)
    requires multiset(list) == multiset(found) && i < j < |list|
    requires forall x, y :: 0 <= x < y < |found| ==> found[x].code != found[y].code
    ensures list[i].code != list[j].code
  {
    SameMembers(found, list);
    assert list[i] in list && list[j] in list;
    var x :| 0 <= x < |found| && found[x] == list[i];
    var y :| 0 <= y < |found| && found[y] == list[j];
    if x == y {
      AtMostOnce(found, list[i]);
      AppearsTwice(list, i, j);
    }
  }

  lemma {:induction false} AtMostOnce(found: seq<Score>, s: Score)
    requires forall x, y :: 0 <= x < y < |found| ==> found[x].code != found[y].code
    ensures multiset(found)[s] <= 1
    decreases |found|
  {
    if found != [] {
      var init, last := found[..|found| - 1], found[|found| - 1];
      assert found == init + [last];
      AtMostOnce(init, s);
      if last == s { assert s !in multiset(init); }
    }
  }

  lemma AppearsTwice(list: seq<Score>, i: nat, j: nat)
    requires i < j < |list| && list[i] == list[j]
    ensures multiset(list)[list[i]] >= 2
  {
    assert list == list[..j] + list[j..];
    assert list[..j][i] == list[i] && list[j..][0] == list[i];
    assert list[i] in multiset(list[..j]) && list[i] in multiset(list[j..]);
  }

  /** A listed row that forbids reuse, or counts towards it. */
  predicate Blocks(s: Score, specs: seq<Spec>) {
    Leftover(s.row) || (s.row.source == Conversation && s.code in SpecCodes(specs) && s.row.version != PROMPT_VERSION)
  }

  predicate Counts(s: Score, specs: seq<Spec>) {
    s.code in SpecCodes(specs) && Reusable(s.row)
  }

  predicate Listed(store: Store, token: string, p: Period, s: Score) {
    var k := Key(token, p.start, s.code);
    InPeriod(store, k, token, p) && store[k] == s.row
  }

  ghost predicate Lists(store: Store, token: string, p: Period, list: seq<Score>) {
    && (forall i :: 0 <= i < |list| ==> Listed(store, token, p, list[i]))
    && (forall k :: k in store && InPeriod(store, k, token, p) ==> Score(k.code, store[k]) in list)
  }

  lemma BlocksIsNeedsCleaning(store: Store, token: string, p: Period, specs: seq<Spec>, list: seq<Score>)
    requires Lists(store, token, p, list)
    ensures NeedsCleaning(store, token, p, specs) <==> exists j :: 0 <= j < |list| && Blocks(list[j], specs)
  {
    if NeedsCleaning(store, token, p, specs) {
      var k :| k in store && InPeriod(store, k, token, p) && (Leftover(store[k]) || Stale(k, store[k], specs));
      var s := Score(k.code, store[k]);
      assert s in list;
      assert Blocks(s, specs);
    }
    if exists j :: 0 <= j < |list| && Blocks(list[j], specs) {
      var j :| 0 <= j < |list| && Blocks(list[j], specs);
      var k := Key(token, p.start, list[j].code);
      assert Leftover(store[k]) || Stale(k, store[k], specs);
    }
  }

  lemma CountsIsCovered(store: Store, token: string, p: Period, specs: seq<Spec>, list: seq<Score>, codes: set<string>)
    requires Lists(store, token, p, list)
    requires forall c :: c in codes <==> exists j :: 0 <= j < |list| && Counts(list[j], specs) && list[j].code == c
    ensures AllCovered(store, token, p, specs) <==> codes != {} && forall j :: 0 <= j < |specs| ==> specs[j].code in codes
  {
    forall i | 0 <= i < |specs| ensures Covered(store, token, p, specs[i].code) <==> specs[i].code in codes {
      var k := Key(token, p.start, specs[i].code);
      if Covered(store, token, p, specs[i].code) {
        assert Score(k.code, store[k]) in list;
        assert Counts(Score(k.code, store[k]), specs);
      }
    }
    if specs == [] {
      assert forall c :: c !in codes;
    } else {
      assert AllCovered(store, token, p, specs) ==> specs[0].code in codes;
    }
  }
}
