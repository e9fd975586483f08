/** The evaluation of one person over one period: reuse what is complete, else delete what is left over,
    score again and store one row per enabled dimension.

    The score table is keyed as its unique index is: person, period start, dimension code. The period's
    end is an ordinary column. */
module Evaluator {
  import opened Base

  datatype Source = Conversation | ActiveTest
  datatype Status = Success | Failed
  datatype Key = Key(token: string, startAt: int, code: string)
  datatype Row = Row(endAt: int, moduleCode: string, score: int, rationale: string, insufficient: bool,
                     evidence: string, source: Source, model: string, version: string,
                     status: Status, errorCode: string)
  type Store = map<Key, Row>

  datatype Period = Period(start: int, end: int)
  datatype Spec = Spec(code: string, moduleCode: string, prompt: string)
  datatype Score = Score(code: string, row: Row)

  const PROMPT_VERSION := "v3"
  const SKIP_NO_LLM := "skip_no_llm"
  const SCORE_MIN := 0
  const SCORE_MAX := 100
  const MAX_RATIONALE_CHARS := 200
  const MIN_VALID_PROFILES := 1
  const UPSTREAM_ERROR := "ErrLLMEvalUpstream"
  const CONTEXT_LENGTH_ERROR := "ErrContextLengthExceeded"
  const SCHEMA_ERROR := "ErrSchemaInvalid"
  /** Stands for the source's fixed sentence on missing evidence. */
  const DEFAULT_RATIONALE := "insufficient evidence"

  // ---------------------------------------------------------------- the model's answer, checked

  /** One dimension of the model's output; the first answer for a code counts. */
  datatype Answer = Answer(code: string, score: Option<int>, insufficient: bool, rationale: string)

  function FirstAnswer(answers: seq<Answer>, code: string): Option<Answer>
    decreases |answers|
  {
    if answers == [] then None
    else if answers[0].code == code then Some(answers[0]) else FirstAnswer(answers[1..], code)
  }

  predicate Acceptable(a: Answer) {
    && (a.score.Some? ==> SCORE_MIN <= a.score.value <= SCORE_MAX)
    && |a.rationale| <= 2 * MAX_RATIONALE_CHARS
  }

  /** The empty columns are filled in later. */
  function SuccessRow(spec: Spec, score: int, rationale: string, insufficient: bool): Score {
    Score(spec.code, Row(0, spec.moduleCode, score, rationale, insufficient, "", Conversation, "", "", Success, ""))
  }

  function InsufficientRow(spec: Spec): Score {
    SuccessRow(spec, 0, DEFAULT_RATIONALE, true)
  }

  function AnswerRow(a: Answer, spec: Spec): Score {
    if a.insufficient || a.score.None?
    then SuccessRow(spec, 0, if a.rationale == "" then DEFAULT_RATIONALE else a.rationale, true)
    else SuccessRow(spec, a.score.value, a.rationale, false)
  }

  function ConvergeOne(answers: seq<Answer>, spec: Spec): Option<Score> {
    match FirstAnswer(answers, spec.code)
    case None => Some(InsufficientRow(spec))
    case Some(a) => if Acceptable(a) then Some(AnswerRow(a, spec)) else None
  }

  /** One row per wanted dimension, or nothing if any wanted answer is unacceptable. */
  function Converge(answers: seq<Answer>, specs: seq<Spec>): Option<seq<Score>>
    decreases |specs|
  {
    if specs == [] then Some([])
    else
      match Converge(answers, specs[..|specs| - 1])
      case None => None
      case Some(rows) =>
        match ConvergeOne(answers, specs[|specs| - 1])
        case None => None
        case Some(row) => Some(rows + [row])
  }

  /** The row a wanted dimension gets when its answer is acceptable. */
  predicate ProperRow(spec: Spec, s: Score) {
    && s.code == spec.code && SCORE_MIN <= s.row.score <= SCORE_MAX && (s.row.insufficient ==> s.row.score == 0)
    && s.row.source == Conversation && s.row.status == Success && s.row.errorCode == ""
  }

  lemma ConvergeOneMeaning(answers: seq<Answer>, spec: Spec)
    ensures ConvergeOne(answers, spec).Some? ==> ProperRow(spec, ConvergeOne(answers, spec).value)
  {
  }

  /** Refusal and rows, spelled out: refused iff some wanted dimension's first answer is unacceptable;
      otherwise exactly the wanted codes, in order, all within range. */
  lemma {:induction false} ConvergeMeaning(answers: seq<Answer>, specs: seq<Spec>)
    ensures Converge(answers, specs).None? <==> exists i :: 0 <= i < |specs| && ConvergeOne(answers, specs[i]).None?
    ensures var r := Converge(answers, specs);
            r.Some? ==> |r.value| == |specs| && forall i :: 0 <= i < |specs| ==> ProperRow(specs[i], r.value[i])
    decreases |specs|
  {
    if specs != [] {
      var init := specs[..|specs| - 1];
      ConvergeMeaning(answers, init);
      ConvergeOneMeaning(answers, specs[|specs| - 1]);
      assert ConvergeOne(answers, specs[|specs| - 1]).None? || Converge(answers, init).None? ==> Converge(answers, specs).None?;
      if Converge(answers, init).None? {
        var i :| 0 <= i < |init| && ConvergeOne(answers, init[i]).None?;
        assert ConvergeOne(answers, specs[i]).None?;
      }
    }
  }

  /** Answers for other dimensions, and second answers for the same one, change nothing. */
  lemma {:induction false} OnlyFirstWantedAnswersMatter(answers: seq<Answer>, more: seq<Answer>, specs: seq<Spec>)
    requires forall i, j :: 0 <= i < |more| && 0 <= j < |specs| && more[i].code == specs[j].code ==>
               FirstAnswer(answers, specs[j].code).Some?
    ensures Converge(answers + more, specs) == Converge(answers, specs)
    decreases |specs|
  {
    if specs != [] {
      OnlyFirstWantedAnswersMatter(answers, more, specs[..|specs| - 1]);
      LaterAnswersIgnored(answers, more, specs[|specs| - 1].code);
    }
  }

  lemma {:induction false} LaterAnswersIgnored(answers: seq<Answer>, more: seq<Answer>, code: string)
    requires forall i :: 0 <= i < |more| && more[i].code == code ==> FirstAnswer(answers, code).Some?
    ensures FirstAnswer(answers + more, code) == FirstAnswer(answers, code)
    decreases |answers|
  {
    if answers == [] {
      assert answers + more == more;
      NoAnswer(more, code);
    } else {
      assert (answers + more)[1..] == answers[1..] + more;
      if answers[0].code != code { LaterAnswersIgnored(answers[1..], more, code); }
    }
  }

  lemma {:induction false} NoAnswer(answers: seq<Answer>, code: string)
    requires forall i :: 0 <= i < |answers| ==> answers[i].code != code
    ensures FirstAnswer(answers, code) == None
    decreases |answers|
  {
    if answers != [] { NoAnswer(answers[1..], code); }
  }

  // ---------------------------------------------------------------- what a score comes from

  /** The answer that counts for a code: the first one given for it. */
  ghost predicate CountsFor(answers: seq<Answer>, code: string, j: nat) {
    j < |answers| && answers[j].code == code && forall i :: 0 <= i < j ==> answers[i].code != code
  }

  lemma {:induction false} FirstAnswerCounts(answers: seq<Answer>, code: string)
    ensures FirstAnswer(answers, code).None? ==> forall j: nat :: !CountsFor(answers, code, j)
    ensures FirstAnswer(answers, code).Some? ==> exists j: nat :: CountsFor(answers, code, j)
    ensures forall j: nat :: CountsFor(answers, code, j) ==> FirstAnswer(answers, code) == Some(answers[j])
    decreases |answers|
  {
    if answers != [] {
      if answers[0].code == code {
        assert CountsFor(answers, code, 0);
        forall j: nat | CountsFor(answers, code, j) ensures j == 0 {}
      } else {
        var rest := answers[1..];
        FirstAnswerCounts(rest, code);
        forall j: nat | CountsFor(answers, code, j) ensures j > 0 && CountsFor(rest, code, j - 1) {
          forall i | 0 <= i < j - 1 ensures rest[i].code != code { assert answers[i + 1].code != code; }
        }
        if FirstAnswer(rest, code).Some? {
          var j: nat :| CountsFor(rest, code, j);
          forall i | 0 <= i < j + 1 ensures answers[i].code != code { if i > 0 { assert rest[i - 1].code != code; } }
          assert CountsFor(answers, code, j + 1);
        }
      }
    }
  }

  /** A row says of a dimension what the counting answer says: its score and its rationale when it gives a
      score and does not call the evidence insufficient, no points and insufficient evidence otherwise. */
  ghost predicate Reflects(answers: seq<Answer>, spec: Spec, row: Row) {
    && row.moduleCode == spec.moduleCode && row.source == Conversation && row.status == Success && row.errorCode == ""
    && (forall j: nat :: CountsFor(answers, spec.code, j) ==> Judges(answers[j], row))
    && ((forall j: nat :: !CountsFor(answers, spec.code, j)) ==>
          row.insufficient && row.score == 0 && row.rationale == DEFAULT_RATIONALE)
  }

  ghost predicate Judges(a: Answer, row: Row) {
    && (row.insufficient <==> a.insufficient || a.score == None)
    && row.score == (if row.insufficient then 0 else a.score.value)
    && row.rationale == if row.insufficient && a.rationale == "" then DEFAULT_RATIONALE else a.rationale
  }

  /** An answer no row is made of: a score outside 0 to 100, or a rationale of more than 400 characters. */
  ghost predicate Unacceptable(a: Answer) {
    (a.score.Some? && !(0 <= a.score.value <= 100)) || |a.rationale| > 400
  }

  /** Some wanted dimension's counting answer is unacceptable. */
  ghost predicate Refused(answers: seq<Answer>, specs: seq<Spec>) {
    exists i: nat, j: nat :: i < |specs| && CountsFor(answers, specs[i].code, j) && Unacceptable(answers[j])
  }

  lemma ConvergeOneReflects(answers: seq<Answer>, spec: Spec)
    ensures var r := ConvergeOne(answers, spec);
            && (r.None? <==> exists j: nat :: CountsFor(answers, spec.code, j) && Unacceptable(answers[j]))
            && (r.Some? ==> r.value.code == spec.code && Reflects(answers, spec, r.value.row))
  {
    FirstAnswerCounts(answers, spec.code);
  }

  /** The answers decide the rows: none at all exactly when a wanted one is unacceptable, else one row per
      wanted dimension, in order, each reflecting the first answer for it. */
  lemma ConvergeReflectsAnswers(answers: seq<Answer>, specs: seq<Spec>)
    ensures Converge(answers, specs).None? <==> Refused(answers, specs)
    ensures var r := Converge(answers, specs);
            r.Some? ==> |r.value| == |specs| && forall i :: 0 <= i < |specs| ==>
                          r.value[i].code == specs[i].code && Reflects(answers, specs[i], r.value[i].row)
  {
    ConvergeMeaning(answers, specs);
    ConvergeIsPointwise(answers, specs);
    forall i | 0 <= i < |specs|
      ensures ConvergeOne(answers, specs[i]).None? <==> exists j: nat :: CountsFor(answers, specs[i].code, j) && Unacceptable(answers[j])
      ensures ConvergeOne(answers, specs[i]).Some? ==> ConvergeOne(answers, specs[i]).value.code == specs[i].code
      ensures ConvergeOne(answers, specs[i]).Some? ==> Reflects(answers, specs[i], ConvergeOne(answers, specs[i]).value.row)
    {
      ConvergeOneReflects(answers, specs[i]);
    }
  }

  lemma {:induction false} ConvergeIsPointwise(answers: seq<Answer>, specs: seq<Spec>)
    ensures var r := Converge(answers, specs);
            r.Some? ==> |r.value| == |specs| && forall i :: 0 <= i < |specs| ==> ConvergeOne(answers, specs[i]) == Some(r.value[i])
    decreases |specs|
  {
    if specs != [] { ConvergeIsPointwise(answers, specs[..|specs| - 1]); }
  }

  // ---------------------------------------------------------------- the rows of one evaluation

  /** The outcome of one call to the model. */
  datatype Attempt = Answered(answers: seq<Answer>) | Unparsable | TooLong | Upstream
  datatype Outcome = Scored(rows: seq<Score>) | Failure(errorCode: string)

  /** Both calls, and whether the task was cancelled by the time of the retry and of the last check. */
  datatype Llm = Llm(first: Attempt, second: Attempt, canceledEarly: bool, canceledLate: bool, model: string)

  /** What the period's profiles say: valid ones, the population signature, and the evidence text. */
  datatype Kind = Normal | AutoClient | BypassOrchestrator | ThresholdOverskip | WorkTc1
  datatype Evidence = Evidence(validProfiles: nat, kind: Kind, text: string, signedText: string)

  function Once(attempt: Attempt, specs: seq<Spec>): Outcome {
    match attempt
    case Answered(answers) =>
      (match Converge(answers, specs)
       case None => Failure(SCHEMA_ERROR)
       case Some(rows) => Scored(rows))
    case Unparsable => Failure(SCHEMA_ERROR)
    case TooLong => Failure(CONTEXT_LENGTH_ERROR)
    case Upstream => Failure(UPSTREAM_ERROR)
  }

  /** A malformed answer is retried once, unless the task was cancelled. */
  function Twice(llm: Llm, specs: seq<Spec>): Outcome {
    var once := Once(llm.first, specs);
    if once == Failure(SCHEMA_ERROR) && !llm.canceledEarly then Once(llm.second, specs) else once
  }

  function WithMeta(s: Score, ev: Evidence, model: string, redact: string -> string): Score {
    s.(row := s.row.(rationale := redact(s.row.rationale), evidence := ev.text, model := model, version := PROMPT_VERSION))
  }

  function AllWithMeta(rows: seq<Score>, ev: Evidence, model: string, redact: string -> string): seq<Score> {
    seq(|rows|, i requires 0 <= i < |rows| => WithMeta(rows[i], ev, model, redact))
  }

  function FailedRow(spec: Spec, ev: Evidence, model: string, errorCode: string): Score {
    Score(spec.code, Row(0, spec.moduleCode, 0, "", false, ev.text, Conversation, model, PROMPT_VERSION, Failed, errorCode))
  }

  function FailedRows(specs: seq<Spec>, ev: Evidence, model: string, errorCode: string): seq<Score> {
    seq(|specs|, i requires 0 <= i < |specs| => FailedRow(specs[i], ev, model, errorCode))
  }

  function SkipRow(spec: Spec, evidence: string): Score {
    Score(spec.code, Row(0, spec.moduleCode, 0, DEFAULT_RATIONALE, true, evidence, Conversation, "", PROMPT_VERSION, Success, SKIP_NO_LLM))
  }

  function SkipRows(specs: seq<Spec>, evidence: string): seq<Score> {
    seq(|specs|, i requires 0 <= i < |specs| => SkipRow(specs[i], evidence))
  }

  /** The dimensions that have a prompt, or those that have none. */
  function Prompted(specs: seq<Spec>, yes: bool): seq<Spec>
    decreases |specs|
  {
    if specs == [] then []
    else
      var last := specs[|specs| - 1];
      Prompted(specs[..|specs| - 1], yes) + if (last.prompt != "") == yes then [last] else []
  }

  predicate Skips(ev: Evidence) {
    ev.validProfiles < MIN_VALID_PROFILES || ev.kind == BypassOrchestrator || ev.kind == AutoClient
  }

  /** The model's rows for the prompted dimensions; none at all if the task was cancelled. */
  function LlmRows(specs: seq<Spec>, ev: Evidence, llm: Llm, redact: string -> string): Option<seq<Score>> {
    match Twice(llm, specs)
    case Scored(rows) => Some(AllWithMeta(rows, ev, llm.model, redact))
    case Failure(errorCode) =>
      if llm.canceledEarly || llm.canceledLate then None else Some(FailedRows(specs, ev, llm.model, errorCode))
  }

  function EvidenceColumn(ev: Evidence): string {
    if ev.kind == Normal then ev.text else ev.signedText
  }

  function Rows(specs: seq<Spec>, ev: Evidence, llm: Llm, redact: string -> string): Option<seq<Score>> {
    if Skips(ev) then Some(SkipRows(specs, EvidenceColumn(ev)))
    else if Prompted(specs, true) == [] then Some(SkipRows(Prompted(specs, false), ev.text))
    else
      match LlmRows(Prompted(specs, true), ev, llm, redact)
      case None => None
      case Some(rows) => Some(rows + SkipRows(Prompted(specs, false), ev.text))
  }

  // ---------------------------------------------------------------- the store

  function SaveAll(store: Store, token: string, p: Period, rows: seq<Score>): Store
    decreases |rows|
  {
    if rows == [] then store
    else
      var last := rows[|rows| - 1];
      SaveAll(store, token, p, rows[..|rows| - 1])[Key(token, p.start, last.code) := last.row.(endAt := p.end)]
  }

  predicate InPeriod(store: Store, k: Key, token: string, p: Period) {
    k in store && k.token == token && k.startAt == p.start && store[k].endAt == p.end
  }

  /** A conversation row that cannot be reused: it failed, or was written without asking the model. */
  predicate Leftover(row: Row) {
    row.source == Conversation && (row.status == Failed || row.errorCode == SKIP_NO_LLM)
  }

  function SpecCodes(specs: seq<Spec>): set<string> {
    set i | 0 <= i < |specs| :: specs[i].code
  }

  function RowCodes(rows: seq<Score>): set<string> {
    set i | 0 <= i < |rows| :: rows[i].code
  }

  /** A complete row of an older prompt version, for an enabled dimension. */
  predicate Stale(k: Key, row: Row, specs: seq<Spec>) {
    row.source == Conversation && !Leftover(row) && k.code in SpecCodes(specs) && row.version != PROMPT_VERSION
  }

  predicate NeedsCleaning(store: Store, token: string, p: Period, specs: seq<Spec>) {
    exists k :: k in store && InPeriod(store, k, token, p) && (Leftover(store[k]) || Stale(k, store[k], specs))
  }

  function DeleteLeftovers(store: Store, token: string, p: Period): Store {
    map k | k in store && !(InPeriod(store, k, token, p) && Leftover(store[k])) :: store[k]
  }

  predicate Reusable(row: Row) {
    row.source == Conversation && row.status == Success && row.errorCode != SKIP_NO_LLM && row.version == PROMPT_VERSION
  }

  predicate Covered(store: Store, token: string, p: Period, code: string) {
    var k := Key(token, p.start, code);
    InPeriod(store, k, token, p) && Reusable(store[k])
  }

  predicate AllCovered(store: Store, token: string, p: Period, specs: seq<Spec>) {
    specs != [] && forall i :: 0 <= i < |specs| ==> Covered(store, token, p, specs[i].code)
  }

  predicate Reuses(store: Store, token: string, p: Period, specs: seq<Spec>) {
    !NeedsCleaning(store, token, p, specs) && AllCovered(store, token, p, specs)
  }

  function Cleaned(store: Store, token: string, p: Period, specs: seq<Spec>): Store {
    if NeedsCleaning(store, token, p, specs) then DeleteLeftovers(store, token, p) else store
  }

  // ---------------------------------------------------------------- the evaluation

  /** Which of the calls out of the component fail: configuration, score list, delete, other inputs, save. */
  datatype Faults = Faults(config: bool, list: bool, delete: bool, inputs: bool, save: bool)

  const NO_FAULTS := Faults(false, false, false, false, false)

  datatype Result = Error | Done(scores: seq<Score>, skipped: bool, reused: bool)

  function Evaluate(store: Store, token: string, p: Period, specs: seq<Spec>, faults: Faults,
                    ev: Evidence, llm: Llm, redact: string -> string): (Store, Result)
  {
    var cleaned := Cleaned(store, token, p, specs);
    if faults.config || specs == [] || faults.list then (store, Error)
    else if NeedsCleaning(store, token, p, specs) && faults.delete then (store, Error)
    else if Reuses(store, token, p, specs) then (store, Done([], false, true))
    else if faults.inputs then (cleaned, Error)
    else
      match Rows(specs, ev, llm, redact)
      case None => (cleaned, Error)
      case Some(rows) =>
        if faults.save then (cleaned, Error)
        else (SaveAll(cleaned, token, p, rows), Done(rows, Skips(ev), false))
  }

  // ---------------------------------------------------------------- among other writers

  /** One statement of another writer on the score table. */
  datatype Write = Delete(token: string, p: Period) | Save(token: string, p: Period, rows: seq<Score>)

  function ApplyWrite(store: Store, w: Write): Store {
    match w
    case Delete(token, p) => DeleteLeftovers(store, token, p)
    case Save(token, p, rows) => SaveAll(store, token, p, rows)
  }

  function ApplyWrites(store: Store, ws: seq<Write>): Store
    decreases |ws|
  {
    if ws == [] then store else ApplyWrites(ApplyWrite(store, ws[0]), ws[1..])
  }

  /** The evaluation statement by statement: it reads the stored rows, others write `beforeDelete`, it
      deletes, others write `beforeSave`, it saves. */
  function EvaluateAmong(store: Store, token: string, p: Period, specs: seq<Spec>, faults: Faults, ev: Evidence, llm: Llm,
                         redact: string -> string, beforeDelete: seq<Write>, beforeSave: seq<Write>): (Store, Result)
  {
    var mid := ApplyWrites(store, beforeDelete);
    if faults.config || specs == [] || faults.list || (NeedsCleaning(store, token, p, specs) && faults.delete)
    then (ApplyWrites(mid, beforeSave), Error)
    else
      var cleaned := if NeedsCleaning(store, token, p, specs) then DeleteLeftovers(mid, token, p) else mid;
      var late := ApplyWrites(cleaned, beforeSave);
      if Reuses(store, token, p, specs) then (late, Done([], false, true))
      else if faults.inputs then (late, Error)
      else
        match Rows(specs, ev, llm, redact)
        case None => (late, Error)
        case Some(rows) => if faults.save then (late, Error) else (SaveAll(late, token, p, rows), Done(rows, Skips(ev), false))
  }

  /** The keys a writer can reach. */
  predicate Reaches(w: Write, k: Key) {
    k.token == w.token && k.startAt == w.p.start
  }

  predicate Apart(a: Write, b: Write) {
    a.token != b.token || a.p.start != b.p.start
  }

  ghost predicate Agree(s: Store, t: Store, k: Key) {
    (k in s <==> k in t) && (k in s && k in t ==> s[k] == t[k])
  }

  lemma WriteLeaves(s: Store, w: Write, k: Key)
    requires !Reaches(w, k)
    ensures Agree(s, ApplyWrite(s, w), k)
  {
    if w.Save? { SaveAllAt(s, w.token, w.p, w.rows, k); }
  }

  lemma {:induction false} SaveIsLocal(s: Store, t: Store, token: string, p: Period, rows: seq<Score>, k: Key)
    requires Agree(s, t, k)
    ensures Agree(SaveAll(s, token, p, rows), SaveAll(t, token, p, rows), k)
    decreases |rows|
  {
    if rows != [] { SaveIsLocal(s, t, token, p, rows[..|rows| - 1], k); }
  }

  /** What a statement makes of a key depends on nothing but the row under it. */
  lemma WriteIsLocal(s: Store, t: Store, w: Write, k: Key)
    requires Agree(s, t, k)
    ensures Agree(ApplyWrite(s, w), ApplyWrite(t, w), k)
  {
    if w.Save? { SaveIsLocal(s, t, w.token, w.p, w.rows, k); }
  }

  /** Statements on different people or period starts commute. */
  lemma WritesCommute(s: Store, a: Write, b: Write)
    requires Apart(a, b)
    ensures ApplyWrite(ApplyWrite(s, a), b) == ApplyWrite(ApplyWrite(s, b), a)
  {
    var ab, ba := ApplyWrite(ApplyWrite(s, a), b), ApplyWrite(ApplyWrite(s, b), a);
    forall k ensures Agree(ab, ba, k) {
      if Reaches(a, k) {
        WriteLeaves(ApplyWrite(s, a), b, k);
        WriteLeaves(s, b, k);
        WriteIsLocal(s, ApplyWrite(s, b), a, k);
      } else {
        WriteLeaves(s, a, k);
        WriteIsLocal(s, ApplyWrite(s, a), b, k);
        WriteLeaves(ApplyWrite(s, b), a, k);
      }
    }
    SameStore(ab, ba);
  }

  lemma SameStore(s: Store, t: Store)
    requires forall k :: Agree(s, t, k)
    ensures s == t
  {
    forall k ensures k in s <==> k in t { assert Agree(s, t, k); }
    forall k | k in s ensures s[k] == t[k] { assert Agree(s, t, k); }
  }

  predicate AllApart(mine: Write, ws: seq<Write>) {
    forall i :: 0 <= i < |ws| ==> Apart(mine, ws[i])
  }

  lemma {:induction false} MineCommutes(s: Store, mine: Write, ws: seq<Write>)
    requires AllApart(mine, ws)
    ensures ApplyWrite(ApplyWrites(s, ws), mine) == ApplyWrites(ApplyWrite(s, mine), ws)
    decreases |ws|
  {
    if ws != [] {
      WritesCommute(s, mine, ws[0]);
      MineCommutes(ApplyWrite(s, ws[0]), mine, ws[1..]);
    }
  }

  lemma {:induction false} WritesAppend(s: Store, first: seq<Write>, second: seq<Write>)
    ensures ApplyWrites(s, first + second) == ApplyWrites(ApplyWrites(s, first), second)
    decreases |first|
  {
    if first == [] {
      assert first + second == second;
    } else {
      assert (first + second)[1..] == first[1..] + second;
      WritesAppend(ApplyWrite(s, first[0]), first[1..], second);
    }
  }

  /** Whatever is written for other people or other period starts between its statements, an evaluation
      returns and stores what it would have alone. */
  lemma OthersDoNotDisturb(store: Store, token: string, p: Period, specs: seq<Spec>, faults: Faults, ev: Evidence, llm: Llm,
                           redact: string -> string, beforeDelete: seq<Write>, beforeSave: seq<Write>)
    requires AllApart(Delete(token, p), beforeDelete + beforeSave)
    ensures var alone := Evaluate(store, token, p, specs, faults, ev, llm, redact);
            EvaluateAmong(store, token, p, specs, faults, ev, llm, redact, beforeDelete, beforeSave)
            == (ApplyWrites(alone.0, beforeDelete + beforeSave), alone.1)
  {
    var all := beforeDelete + beforeSave;
    var cleaned := Cleaned(store, token, p, specs);
    ApartParts(Delete(token, p), beforeDelete, beforeSave);
    WritesAppend(store, beforeDelete, beforeSave);
    WritesAppend(cleaned, beforeDelete, beforeSave);
    MineCommutes(store, Delete(token, p), beforeDelete);
    var rows := Rows(specs, ev, llm, redact);
    if rows.Some? {
      SameReach(Delete(token, p), Save(token, p, rows.value), all);
      MineCommutes(cleaned, Save(token, p, rows.value), all);
    }
  }

  lemma ApartParts(mine: Write, first: seq<Write>, second: seq<Write>)
    requires AllApart(mine, first + second)
    ensures AllApart(mine, first)
  {
    forall i | 0 <= i < |first| ensures Apart(mine, first[i]) { assert (first + second)[i] == first[i]; }
  }

  lemma SameReach(mine: Write, also: Write, ws: seq<Write>)
    requires AllApart(mine, ws) && also.token == mine.token && also.p == mine.p
    ensures AllApart(also, ws)
  {
    forall i | 0 <= i < |ws| ensures Apart(also, ws[i]) { assert Apart(mine, ws[i]); }
  }

  // ---------------------------------------------------------------- what is written

  lemma {:induction false} SaveAllAt(store: Store, token: string, p: Period, rows: seq<Score>, k: Key)
    ensures var after := SaveAll(store, token, p, rows);
            if k.token == token && k.startAt == p.start && k.code in RowCodes(rows)
            then k in after && exists i :: 0 <= i < |rows| && rows[i].code == k.code && after[k] == rows[i].row.(endAt := p.end)
            else (k in after <==> k in store) && (k in store ==> after[k] == store[k])
    decreases |rows|
  {
    if rows != [] {
      var init := rows[..|rows| - 1];
      SaveAllAt(store, token, p, init, k);
      var last := rows[|rows| - 1];
      if k.code in RowCodes(rows) && k.code != last.code {
        var i :| 0 <= i < |rows| && rows[i].code == k.code;
        assert init[i].code == k.code;
      }
    }
  }

  lemma {:induction false} PromptedMembers(specs: seq<Spec>, yes: bool)
    ensures forall i :: 0 <= i < |Prompted(specs, yes)| ==>
              Prompted(specs, yes)[i] in specs && ((Prompted(specs, yes)[i].prompt != "") == yes)
    ensures forall s :: s in specs && ((s.prompt != "") == yes) ==> s in Prompted(specs, yes)
    decreases |specs|
  {
    if specs != [] { PromptedMembers(specs[..|specs| - 1], yes); }
  }

  /** Whether the model's rows are usable for the prompted dimensions. */
  predicate ModelAnswers(specs: seq<Spec>, llm: Llm) {
    Twice(llm, Prompted(specs, true)).Scored?
  }

  /** The row a dimension gets: a leftover unless it was asked and answered. */
  ghost predicate Fits(spec: Spec, s: Score, specs: seq<Spec>, ev: Evidence, llm: Llm) {
    && s.code == spec.code && s.row.source == Conversation && s.row.version == PROMPT_VERSION
    && (Leftover(s.row) <==> Skips(ev) || spec.prompt == "" || !ModelAnswers(specs, llm))
  }

  ghost predicate RowsFit(rows: seq<Score>, some: seq<Spec>, specs: seq<Spec>, ev: Evidence, llm: Llm) {
    |rows| == |some| && forall i :: 0 <= i < |rows| ==> Fits(some[i], rows[i], specs, ev, llm)
  }

  ghost predicate Clean(rows: seq<Score>, specs: seq<Spec>) {
    |rows| == |specs| && forall i :: 0 <= i < |rows| ==>
                           && rows[i].code == specs[i].code && rows[i].row.source == Conversation
                           && rows[i].row.status == Success && rows[i].row.errorCode == ""
  }

  lemma TwiceIsClean(specs: seq<Spec>, llm: Llm)
    requires Twice(llm, specs).Scored?
    ensures Clean(Twice(llm, specs).rows, specs)
  {
    if llm.first.Answered? { ConvergeMeaning(llm.first.answers, specs); }
    if llm.second.Answered? { ConvergeMeaning(llm.second.answers, specs); }
  }

  lemma AnsweredRowsFit(rows: seq<Score>, some: seq<Spec>, specs: seq<Spec>, ev: Evidence, llm: Llm, redact: string -> string)
    requires !Skips(ev) && ModelAnswers(specs, llm) && Clean(rows, some)
    requires forall i :: 0 <= i < |some| ==> some[i].prompt != ""
    ensures RowsFit(AllWithMeta(rows, ev, llm.model, redact), some, specs, ev, llm)
  {
  }

  lemma FailedRowsFit(some: seq<Spec>, specs: seq<Spec>, ev: Evidence, llm: Llm, errorCode: string)
    requires !ModelAnswers(specs, llm)
    ensures RowsFit(FailedRows(some, ev, llm.model, errorCode), some, specs, ev, llm)
  {
  }

  lemma LlmRowsFit(specs: seq<Spec>, ev: Evidence, llm: Llm, redact: string -> string)
    requires !Skips(ev) && LlmRows(Prompted(specs, true), ev, llm, redact).Some?
    ensures RowsFit(LlmRows(Prompted(specs, true), ev, llm, redact).value, Prompted(specs, true), specs, ev, llm)
  {
    var scored := Prompted(specs, true);
    PromptedMembers(specs, true);
    match Twice(llm, scored)
    case Scored(rows) =>
      TwiceIsClean(scored, llm);
      AnsweredRowsFit(rows, scored, specs, ev, llm, redact);
    case Failure(errorCode) => FailedRowsFit(scored, specs, ev, llm, errorCode);
  }

  lemma SkipRowsFit(some: seq<Spec>, evidence: string, specs: seq<Spec>, ev: Evidence, llm: Llm)
    requires Skips(ev) || forall i :: 0 <= i < |some| ==> some[i].prompt == ""
    ensures RowsFit(SkipRows(some, evidence), some, specs, ev, llm)
  {
  }

  /** The dimensions in the order in which their rows are returned. */
  function RowOrder(specs: seq<Spec>, ev: Evidence): seq<Spec> {
    if Skips(ev) then specs else Prompted(specs, true) + Prompted(specs, false)
  }

  predicate Splits<T(==)>(a: seq<T>, b: seq<T>, all: seq<T>) {
    multiset(a) + multiset(b) == multiset(all)
  }

  /** Adding one element to one of two parts, and to the whole. */
  lemma SplitGrows<T>(a: seq<T>, b: seq<T>, all: seq<T>, x: T)
    requires Splits(a, b, all)
    ensures Splits(a + [x], b, all + [x]) && Splits(a, b + [x], all + [x])
  {
  }

  lemma PromptedLast(init: seq<Spec>, last: Spec, yes: bool)
    ensures Prompted(init + [last], yes) == if (last.prompt != "") == yes then Prompted(init, yes) + [last] else Prompted(init, yes)
  {
    assert (init + [last])[..|init|] == init;
  }

  lemma {:induction false} PromptedSplit(specs: seq<Spec>)
    ensures Splits(Prompted(specs, true), Prompted(specs, false), specs)
    decreases |specs|
  {
    if specs != [] {
      var init, last := specs[..|specs| - 1], specs[|specs| - 1];
      assert specs == init + [last];
      PromptedSplit(init);
      SplitLast(init, last);
    }
  }

  lemma SplitLast(init: seq<Spec>, last: Spec)
    requires Splits(Prompted(init, true), Prompted(init, false), init)
    ensures Splits(Prompted(init + [last], true), Prompted(init + [last], false), init + [last])
  {
    PromptedLast(init, last, true);
    PromptedLast(init, last, false);
    SplitGrows(Prompted(init, true), Prompted(init, false), init, last);
  }

  lemma RowsFitConcat(r1: seq<Score>, s1: seq<Spec>, r2: seq<Score>, s2: seq<Spec>, specs: seq<Spec>, ev: Evidence, llm: Llm)
    requires RowsFit(r1, s1, specs, ev, llm) && RowsFit(r2, s2, specs, ev, llm)
    ensures RowsFit(r1 + r2, s1 + s2, specs, ev, llm)
  {
  }

  /** An evaluation returns exactly one row per enabled dimension, and says which are leftovers. */
  lemma RowsCoverSpecs(specs: seq<Spec>, ev: Evidence, llm: Llm, redact: string -> string)
    requires Rows(specs, ev, llm, redact).Some?
    ensures RowsFit(Rows(specs, ev, llm, redact).value, RowOrder(specs, ev), specs, ev, llm)
    ensures multiset(RowOrder(specs, ev)) == multiset(specs)
  {
    if Skips(ev) {
      SkipRowsFit(specs, EvidenceColumn(ev), specs, ev, llm);
    } else {
      var asked, rest := Prompted(specs, true), Prompted(specs, false);
      PromptedSplit(specs);
      PromptedMembers(specs, false);
      SkipRowsFit(rest, ev.text, specs, ev, llm);
      if asked == [] {
        assert asked + rest == rest;
      } else {
        LlmRowsFit(specs, ev, llm, redact);
        RowsFitConcat(LlmRows(asked, ev, llm, redact).value, asked, SkipRows(rest, ev.text), rest, specs, ev, llm);
      }
      assert multiset(asked + rest) == multiset(asked) + multiset(rest);
    }
  }

  /** Dimension codes are unique in the configuration. */
  ghost predicate DistinctCodes(specs: seq<Spec>) {
    forall i, j :: 0 <= i < j < |specs| ==> specs[i].code != specs[j].code
  }

  lemma RowCodesAreSpecCodes(rows: seq<Score>, specs: seq<Spec>, ev: Evidence, llm: Llm)
    requires RowsFit(rows, RowOrder(specs, ev), specs, ev, llm) && multiset(RowOrder(specs, ev)) == multiset(specs)
    ensures RowCodes(rows) == SpecCodes(specs)
    ensures forall i :: 0 <= i < |rows| ==> RowOrder(specs, ev)[i] in specs
  {
    var order := RowOrder(specs, ev);
    forall i | 0 <= i < |rows| ensures order[i] in specs {
      assert order[i] in multiset(order);
    }
    forall i | 0 <= i < |specs| ensures specs[i].code in RowCodes(rows) {
      assert specs[i] in multiset(specs);
      assert specs[i] in order;
      var j :| 0 <= j < |order| && order[j] == specs[i];
      assert rows[j].code == specs[i].code;
    }
  }

  /** What an evaluation that did not reuse leaves for one enabled dimension: exactly one fresh row. */
  lemma WrittenRow(store: Store, token: string, p: Period, specs: seq<Spec>, rows: seq<Score>, ev: Evidence, llm: Llm,
                   redact: string -> string, spec: Spec)
    requires DistinctCodes(specs) && spec in specs && Rows(specs, ev, llm, redact) == Some(rows)
    ensures var after := SaveAll(store, token, p, rows);
            var k := Key(token, p.start, spec.code);
            && InPeriod(after, k, token, p) && after[k].source == Conversation && after[k].version == PROMPT_VERSION
            && (Leftover(after[k]) <==> Skips(ev) || spec.prompt == "" || !ModelAnswers(specs, llm))
  {
    var k := Key(token, p.start, spec.code);
    RowsCoverSpecs(specs, ev, llm, redact);
    RowCodesAreSpecCodes(rows, specs, ev, llm);
    SaveAllAt(store, token, p, rows, k);
    var after := SaveAll(store, token, p, rows);
    var i :| 0 <= i < |rows| && rows[i].code == k.code && after[k] == rows[i].row.(endAt := p.end);
    assert Fits(RowOrder(specs, ev)[i], rows[i], specs, ev, llm);
    assert RowOrder(specs, ev)[i] == spec;
  }

  /** Keys outside the enabled dimensions of this person and period start are not written. */
  lemma UnwrittenRow(store: Store, token: string, p: Period, specs: seq<Spec>, rows: seq<Score>, ev: Evidence, llm: Llm,
                     redact: string -> string, k: Key)
    requires Rows(specs, ev, llm, redact) == Some(rows)
    requires k.token != token || k.startAt != p.start || k.code !in SpecCodes(specs)
    ensures var after := SaveAll(store, token, p, rows);
            (k in after <==> k in store) && (k in store ==> after[k] == store[k])
  {
    RowsCoverSpecs(specs, ev, llm, redact);
    RowCodesAreSpecCodes(rows, specs, ev, llm);
    SaveAllAt(store, token, p, rows, k);
  }

  lemma CleanedHasNoLeftover(store: Store, token: string, p: Period, specs: seq<Spec>, k: Key)
    ensures var c := Cleaned(store, token, p, specs); k in c && InPeriod(c, k, token, p) ==> !Leftover(c[k])
    ensures var c := Cleaned(store, token, p, specs);
            k in store && !(InPeriod(store, k, token, p) && Leftover(store[k])) ==> k in c && c[k] == store[k]
    ensures k in Cleaned(store, token, p, specs) ==> k in store
  {
  }

  // ---------------------------------------------------------------- the columns of a stored row

  ghost predicate Usable(attempt: Attempt, specs: seq<Spec>) {
    attempt.Answered? && !Refused(attempt.answers, specs)
  }

  ghost predicate Malformed(attempt: Attempt, specs: seq<Spec>) {
    attempt.Unparsable? || (attempt.Answered? && Refused(attempt.answers, specs))
  }

  /** The call that decides: the second one exactly when the first was malformed and nothing was canceled. */
  ghost function Deciding(llm: Llm, specs: seq<Spec>): Attempt {
    if Malformed(llm.first, specs) && !llm.canceledEarly then llm.second else llm.first
  }

  ghost predicate Carries(rows: seq<Score>, specs: seq<Spec>, answers: seq<Answer>) {
    |rows| == |specs|
    && forall i :: 0 <= i < |specs| ==> rows[i].code == specs[i].code && Reflects(answers, specs[i], rows[i].row)
  }

  lemma OnceDecides(attempt: Attempt, specs: seq<Spec>)
    ensures match Once(attempt, specs)
            case Scored(rows) => Usable(attempt, specs) && Carries(rows, specs, attempt.answers)
            case Failure(code) =>
              !Usable(attempt, specs)
              && code == if Malformed(attempt, specs) then "ErrSchemaInvalid"
                         else if attempt.TooLong? then "ErrContextLengthExceeded" else "ErrLLMEvalUpstream"
  {
    if attempt.Answered? { ConvergeReflectsAnswers(attempt.answers, specs); }
  }

  /** One retry after a malformed answer; the deciding call gives the rows or the error code. */
  lemma TwiceDecides(llm: Llm, specs: seq<Spec>)
    ensures var last := Deciding(llm, specs);
            match Twice(llm, specs)
            case Scored(rows) => Usable(last, specs) && Carries(rows, specs, last.answers)
            case Failure(code) =>
              !Usable(last, specs)
              && code == if Malformed(last, specs) then "ErrSchemaInvalid"
                         else if last.TooLong? then "ErrContextLengthExceeded" else "ErrLLMEvalUpstream"
  {
    OnceDecides(llm.first, specs);
    OnceDecides(llm.second, specs);
  }

  /** A row written without asking the model. */
  ghost predicate Skipped(row: Row, spec: Spec, evidence: string) {
    && row.insufficient && row.score == 0 && row.rationale == DEFAULT_RATIONALE && row.status == Success
    && row.errorCode == SKIP_NO_LLM && row.model == "" && row.evidence == evidence && row.moduleCode == spec.moduleCode
  }

  /** A row for a dimension whose deciding call gave nothing to use. */
  ghost predicate Lost(row: Row, spec: Spec, last: Attempt, asked: seq<Spec>) {
    && row.status == Failed && row.score == 0 && row.rationale == "" && !row.insufficient && row.moduleCode == spec.moduleCode
    && row.errorCode == if Malformed(last, asked) then "ErrSchemaInvalid"
                        else if last.TooLong? then "ErrContextLengthExceeded" else "ErrLLMEvalUpstream"
  }

  /** A row made of the deciding answers: what they say of the dimension, with the rationale redacted. */
  ghost predicate Told(row: Row, spec: Spec, answers: seq<Answer>, redact: string -> string) {
    exists said: Row :: Reflects(answers, spec, said) && row == said.(rationale := redact(said.rationale),
      endAt := row.endAt, evidence := row.evidence, model := row.model, version := row.version)
  }

  /** What a dimension earns: a skip row when the model is not asked about it, else what the deciding call
      says of it, or its failure. */
  ghost predicate Earns(spec: Spec, row: Row, specs: seq<Spec>, ev: Evidence, llm: Llm, redact: string -> string) {
    var asked := Prompted(specs, true);
    var last := Deciding(llm, asked);
    && row.source == Conversation && row.version == PROMPT_VERSION
    && if Skips(ev) || spec.prompt == "" then
         Skipped(row, spec, if Skips(ev) && ev.kind != Normal then ev.signedText else ev.text)
       else
         && row.evidence == ev.text && row.model == llm.model
         && if Usable(last, asked) then Told(row, spec, last.answers, redact) else Lost(row, spec, last, asked)
  }

  ghost predicate RowsEarned(rows: seq<Score>, some: seq<Spec>, specs: seq<Spec>, ev: Evidence, llm: Llm, redact: string -> string) {
    |rows| == |some|
    && forall i :: 0 <= i < |rows| ==> rows[i].code == some[i].code && Earns(some[i], rows[i].row, specs, ev, llm, redact)
  }

  lemma SkipRowsEarned(some: seq<Spec>, specs: seq<Spec>, ev: Evidence, llm: Llm, redact: string -> string)
    requires Skips(ev) || forall i :: 0 <= i < |some| ==> some[i].prompt == ""
    ensures RowsEarned(SkipRows(some, if Skips(ev) then EvidenceColumn(ev) else ev.text), some, specs, ev, llm, redact)
  {
  }

  lemma MetaTells(s: Score, spec: Spec, answers: seq<Answer>, ev: Evidence, model: string, redact: string -> string)
    requires Reflects(answers, spec, s.row)
    ensures Told(WithMeta(s, ev, model, redact).row, spec, answers, redact)
  {
    var row := WithMeta(s, ev, model, redact).row;
    assert row == s.row.(rationale := redact(s.row.rationale), endAt := row.endAt, evidence := row.evidence,
                         model := row.model, version := row.version);
  }

  lemma LlmRowsEarned(specs: seq<Spec>, ev: Evidence, llm: Llm, redact: string -> string)
    requires !Skips(ev) && LlmRows(Prompted(specs, true), ev, llm, redact).Some?
    ensures RowsEarned(LlmRows(Prompted(specs, true), ev, llm, redact).value, Prompted(specs, true), specs, ev, llm, redact)
  {
    var asked := Prompted(specs, true);
    PromptedMembers(specs, true);
    TwiceDecides(llm, asked);
    match Twice(llm, asked)
    case Scored(rows) =>
      var all := AllWithMeta(rows, ev, llm.model, redact);
      forall i | 0 <= i < |all| ensures Earns(asked[i], all[i].row, specs, ev, llm, redact) {
        MetaTells(rows[i], asked[i], Deciding(llm, asked).answers, ev, llm.model, redact);
      }
    case Failure(_) =>
  }

  lemma RowsEarnedConcat(r1: seq<Score>, s1: seq<Spec>, r2: seq<Score>, s2: seq<Spec>, specs: seq<Spec>, ev: Evidence, llm: Llm,
                         redact: string -> string)
    requires RowsEarned(r1, s1, specs, ev, llm, redact) && RowsEarned(r2, s2, specs, ev, llm, redact)
    ensures RowsEarned(r1 + r2, s1 + s2, specs, ev, llm, redact)
  {
  }

  /** The rows an evaluation writes, column by column, in the order in which they are returned. */
  lemma RowsAreEarned(specs: seq<Spec>, ev: Evidence, llm: Llm, redact: string -> string)
    requires Rows(specs, ev, llm, redact).Some?
    ensures RowsEarned(Rows(specs, ev, llm, redact).value, RowOrder(specs, ev), specs, ev, llm, redact)
  {
    if Skips(ev) {
      SkipRowsEarned(specs, specs, ev, llm, redact);
    } else {
      AskedRowsEarned(specs, ev, llm, redact);
    }
  }

  lemma AskedRowsEarned(specs: seq<Spec>, ev: Evidence, llm: Llm, redact: string -> string)
    requires !Skips(ev) && Rows(specs, ev, llm, redact).Some?
    ensures RowsEarned(Rows(specs, ev, llm, redact).value, Prompted(specs, true) + Prompted(specs, false), specs, ev, llm, redact)
  {
    var asked, rest := Prompted(specs, true), Prompted(specs, false);
    PromptedMembers(specs, false);
    SkipRowsEarned(rest, specs, ev, llm, redact);
    if asked == [] {
      assert asked + rest == rest;
    } else {
      LlmRowsEarned(specs, ev, llm, redact);
      RowsEarnedConcat(LlmRows(asked, ev, llm, redact).value, asked, SkipRows(rest, ev.text), rest, specs, ev, llm, redact);
    }
  }

  /** The row of a dimension among the rows returned. */
  lemma EarnedRowOf(specs: seq<Spec>, rows: seq<Score>, ev: Evidence, llm: Llm, redact: string -> string, i: nat, j: nat)
    requires DistinctCodes(specs) && i < |specs| && Rows(specs, ev, llm, redact) == Some(rows)
    requires j < |rows| && rows[j].code == specs[i].code
    ensures Earns(specs[i], rows[j].row, specs, ev, llm, redact)
  {
    RowsAreEarned(specs, ev, llm, redact);
    RowsCoverSpecs(specs, ev, llm, redact);
    RowCodesAreSpecCodes(rows, specs, ev, llm);
    var spec := RowOrder(specs, ev)[j];
    assert spec in specs && spec.code == specs[i].code;
    assert spec == specs[i];
  }

  // ---------------------------------------------------------------- the main results

  /** When stored rows are reused: every enabled dimension has a successful conversation row of this very
      period, written by the model under the current prompt, and no conversation row of the period, of any
      dimension, failed or was skipped. */
  lemma ReusesIff(store: Store, token: string, p: Period, specs: seq<Spec>)
    ensures Reuses(store, token, p, specs) <==>
              && specs != []
              && (forall spec :: spec in specs ==>
                    var k := Key(token, p.start, spec.code);
                    && k in store && store[k].endAt == p.end && store[k].source == Conversation && store[k].status == Success
                    && store[k].errorCode != "skip_no_llm" && store[k].version == PROMPT_VERSION)
              && (forall k :: InPeriod(store, k, token, p) && store[k].source == Conversation ==>
                    store[k].status == Success && store[k].errorCode != "skip_no_llm")
  {
    if Reuses(store, token, p, specs) {
      forall spec | spec in specs ensures Covered(store, token, p, spec.code) {
        var i :| 0 <= i < |specs| && specs[i] == spec;
      }
    } else if !NeedsCleaning(store, token, p, specs) && specs != [] {
      var i :| 0 <= i < |specs| && !Covered(store, token, p, specs[i].code);
      assert specs[i] in specs;
    } else if NeedsCleaning(store, token, p, specs) {
      var k :| k in store && InPeriod(store, k, token, p) && (Leftover(store[k]) || Stale(k, store[k], specs));
      if !Leftover(store[k]) {
        var i :| 0 <= i < |specs| && specs[i].code == k.code;
        assert specs[i] in specs && k == Key(token, p.start, specs[i].code);
      }
    }
  }

  /** Whether the model is asked: not when no profile is valid, and not for automatic clients or a bypassed
      orchestrator. */
  lemma SkippedIff(store: Store, token: string, p: Period, specs: seq<Spec>, faults: Faults, ev: Evidence, llm: Llm,
                   redact: string -> string, beforeDelete: seq<Write>, beforeSave: seq<Write>)
    requires var r := EvaluateAmong(store, token, p, specs, faults, ev, llm, redact, beforeDelete, beforeSave).1;
             r.Done? && !r.reused
    ensures EvaluateAmong(store, token, p, specs, faults, ev, llm, redact, beforeDelete, beforeSave).1.skipped
       <==> ev.validProfiles == 0 || ev.kind in {AutoClient, BypassOrchestrator}
  {
  }

  /** The model was asked about something, gave nothing to use, and the task had been canceled. */
  ghost predicate Interrupted(specs: seq<Spec>, ev: Evidence, llm: Llm) {
    && !Skips(ev) && (exists spec :: spec in specs && spec.prompt != "")
    && !Usable(Deciding(llm, Prompted(specs, true)), Prompted(specs, true)) && (llm.canceledEarly || llm.canceledLate)
  }

  lemma NoRowsIffInterrupted(specs: seq<Spec>, ev: Evidence, llm: Llm, redact: string -> string)
    ensures Rows(specs, ev, llm, redact) == None <==> Interrupted(specs, ev, llm)
  {
    var asked := Prompted(specs, true);
    PromptedMembers(specs, true);
    TwiceDecides(llm, asked);
    if asked != [] { assert asked[0] in specs && asked[0].prompt != ""; }
  }

  /** An evaluation fails exactly when one of its calls fails or it is interrupted: everything else, a model
      that cannot be reached or answers nonsense included, ends with rows. */
  lemma FailsIff(store: Store, token: string, p: Period, specs: seq<Spec>, faults: Faults, ev: Evidence, llm: Llm,
                 redact: string -> string, beforeDelete: seq<Write>, beforeSave: seq<Write>)
    ensures EvaluateAmong(store, token, p, specs, faults, ev, llm, redact, beforeDelete, beforeSave).1.Error? <==>
              || faults.config || specs == [] || faults.list || (NeedsCleaning(store, token, p, specs) && faults.delete)
              || (!Reuses(store, token, p, specs) && (faults.inputs || faults.save || Interrupted(specs, ev, llm)))
  {
    NoRowsIffInterrupted(specs, ev, llm, redact);
  }

  /** Failed and skipped rows left in the period belong to enabled dimensions. */
  lemma LeftoversAreEnabled(store: Store, token: string, p: Period, specs: seq<Spec>, faults: Faults,
                            ev: Evidence, llm: Llm, redact: string -> string, k: Key)
    requires var (after, r) := Evaluate(store, token, p, specs, faults, ev, llm, redact);
             r.Done? && k in after && InPeriod(after, k, token, p) && Leftover(after[k])
    ensures k.code in SpecCodes(specs)
  {
    var (after, r) := Evaluate(store, token, p, specs, faults, ev, llm, redact);
    CleanedHasNoLeftover(store, token, p, specs, k);
    if !r.reused && k.code !in SpecCodes(specs) {
      UnwrittenRow(Cleaned(store, token, p, specs), token, p, specs, r.scores, ev, llm, redact, k);
    }
  }

  /** Convergence, exactly: after a successful evaluation the next one reuses the stored rows if and only
      if this one reused them, or asked the model about every dimension and got an answer. */
  lemma SecondEvaluateReusesIff(store: Store, token: string, p: Period, specs: seq<Spec>, faults: Faults,
                                ev: Evidence, llm: Llm, redact: string -> string)
    requires DistinctCodes(specs) && Evaluate(store, token, p, specs, faults, ev, llm, redact).1.Done?
    ensures var (after, r) := Evaluate(store, token, p, specs, faults, ev, llm, redact);
            Reuses(after, token, p, specs) <==>
            (r.reused || (!Skips(ev) && ModelAnswers(specs, llm) && forall i :: 0 <= i < |specs| ==> specs[i].prompt != ""))
  {
    var (after, r) := Evaluate(store, token, p, specs, faults, ev, llm, redact);
    if !r.reused {
      if !Skips(ev) && ModelAnswers(specs, llm) && forall i :: 0 <= i < |specs| ==> specs[i].prompt != "" {
        FullAnswerReuses(store, token, p, specs, faults, ev, llm, redact);
      } else {
        var i :| 0 <= i < |specs| && (Skips(ev) || specs[i].prompt == "" || !ModelAnswers(specs, llm));
        WrittenRow(Cleaned(store, token, p, specs), token, p, specs, r.scores, ev, llm, redact, specs[i]);
        var k := Key(token, p.start, specs[i].code);
        assert k in after && InPeriod(after, k, token, p) && Leftover(after[k]);
      }
    }
  }

  lemma FullAnswerReuses(store: Store, token: string, p: Period, specs: seq<Spec>, faults: Faults,
                         ev: Evidence, llm: Llm, redact: string -> string)
    requires DistinctCodes(specs) && !Skips(ev) && ModelAnswers(specs, llm)
    requires forall i :: 0 <= i < |specs| ==> specs[i].prompt != ""
    requires var r := Evaluate(store, token, p, specs, faults, ev, llm, redact).1; r.Done? && !r.reused
    ensures Reuses(Evaluate(store, token, p, specs, faults, ev, llm, redact).0, token, p, specs)
  {
    var (after, r) := Evaluate(store, token, p, specs, faults, ev, llm, redact);
    var c := Cleaned(store, token, p, specs);
    forall i | 0 <= i < |specs| ensures Covered(after, token, p, specs[i].code) {
      WrittenRow(c, token, p, specs, r.scores, ev, llm, redact, specs[i]);
    }
    forall k | k in after && InPeriod(after, k, token, p) ensures !Leftover(after[k]) && !Stale(k, after[k], specs) {
      if k.code in SpecCodes(specs) {
        var i :| 0 <= i < |specs| && specs[i].code == k.code;
        WrittenRow(c, token, p, specs, r.scores, ev, llm, redact, specs[i]);
        assert k == Key(token, p.start, specs[i].code);
      } else {
        UnwrittenRow(c, token, p, specs, r.scores, ev, llm, redact, k);
        CleanedHasNoLeftover(store, token, p, specs, k);
      }
    }
  }

  /** A reusing evaluation answers without the model and leaves the store alone, whatever it would answer. */
  lemma ReuseIsIdle(store: Store, token: string, p: Period, specs: seq<Spec>, ev: Evidence, llm: Llm, redact: string -> string)
    requires Reuses(store, token, p, specs)
    ensures Evaluate(store, token, p, specs, NO_FAULTS, ev, llm, redact) == (store, Done([], false, true))
  {
  }

  /** Once every dimension was asked about and answered, evaluating again changes nothing, whatever the
      profiles and the model would now say. */
  lemma AnsweredOnceIsSettled(store: Store, token: string, p: Period, specs: seq<Spec>, faults: Faults,
                              ev: Evidence, llm: Llm, redact: string -> string, nextEv: Evidence, nextLlm: Llm)
    requires DistinctCodes(specs) && !Skips(ev) && ModelAnswers(specs, llm)
    requires forall i :: 0 <= i < |specs| ==> specs[i].prompt != ""
    requires Evaluate(store, token, p, specs, faults, ev, llm, redact).1.Done?
    ensures var after := Evaluate(store, token, p, specs, faults, ev, llm, redact).0;
            Evaluate(after, token, p, specs, NO_FAULTS, nextEv, nextLlm, redact) == (after, Done([], false, true))
  {
    SecondEvaluateReusesIff(store, token, p, specs, faults, ev, llm, redact);
    ReuseIsIdle(Evaluate(store, token, p, specs, faults, ev, llm, redact).0, token, p, specs, nextEv, nextLlm, redact);
  }

  /** An evaluation that did not reuse ends with exactly the row it returned stored for every enabled
      dimension, whoever else wrote the table between its statements. */
  lemma OneRowPerDimension(store: Store, token: string, p: Period, specs: seq<Spec>, faults: Faults, ev: Evidence, llm: Llm,
                           redact: string -> string, beforeDelete: seq<Write>, beforeSave: seq<Write>, i: nat)
    requires DistinctCodes(specs) && i < |specs|
    requires var r := EvaluateAmong(store, token, p, specs, faults, ev, llm, redact, beforeDelete, beforeSave).1;
             r.Done? && !r.reused
    ensures var (after, r) := EvaluateAmong(store, token, p, specs, faults, ev, llm, redact, beforeDelete, beforeSave);
            var k := Key(token, p.start, specs[i].code);
            && |r.scores| == |specs| && InPeriod(after, k, token, p)
            && exists j :: 0 <= j < |r.scores| && r.scores[j].code == specs[i].code
                           && after[k] == r.scores[j].row.(endAt := p.end)
  {
    var mid := ApplyWrites(store, beforeDelete);
    var late := ApplyWrites(if NeedsCleaning(store, token, p, specs) then DeleteLeftovers(mid, token, p) else mid, beforeSave);
    var rows := Rows(specs, ev, llm, redact).value;
    RowsCoverSpecs(specs, ev, llm, redact);
    RowCodesAreSpecCodes(rows, specs, ev, llm);
    assert |RowOrder(specs, ev)| == |multiset(RowOrder(specs, ev))| == |specs|;
    SaveAllAt(late, token, p, rows, Key(token, p.start, specs[i].code));
  }

  /** The score a person ends up with: after an evaluation that did not reuse, the row stored for an enabled
      dimension is the one it earned, whoever else wrote the table in between. */
  lemma StoredRowIsEarned(store: Store, token: string, p: Period, specs: seq<Spec>, faults: Faults, ev: Evidence, llm: Llm,
                          redact: string -> string, beforeDelete: seq<Write>, beforeSave: seq<Write>, i: nat)
    requires DistinctCodes(specs) && i < |specs|
    requires var r := EvaluateAmong(store, token, p, specs, faults, ev, llm, redact, beforeDelete, beforeSave).1;
             r.Done? && !r.reused
    ensures var after := EvaluateAmong(store, token, p, specs, faults, ev, llm, redact, beforeDelete, beforeSave).0;
            var k := Key(token, p.start, specs[i].code);
            k in after && after[k].endAt == p.end && Earns(specs[i], after[k], specs, ev, llm, redact)
  {
    var (after, r) := EvaluateAmong(store, token, p, specs, faults, ev, llm, redact, beforeDelete, beforeSave);
    OneRowPerDimension(store, token, p, specs, faults, ev, llm, redact, beforeDelete, beforeSave, i);
    ReturnedRows(store, token, p, specs, faults, ev, llm, redact, beforeDelete, beforeSave);
    var j :| 0 <= j < |r.scores| && r.scores[j].code == specs[i].code
             && after[Key(token, p.start, specs[i].code)] == r.scores[j].row.(endAt := p.end);
    EarnedRowOf(specs, r.scores, ev, llm, redact, i, j);
    EndIsApart(specs[i], r.scores[j].row, p.end, specs, ev, llm, redact);
  }

  lemma ReturnedRows(store: Store, token: string, p: Period, specs: seq<Spec>, faults: Faults, ev: Evidence, llm: Llm,
                     redact: string -> string, beforeDelete: seq<Write>, beforeSave: seq<Write>)
    requires var r := EvaluateAmong(store, token, p, specs, faults, ev, llm, redact, beforeDelete, beforeSave).1;
             r.Done? && !r.reused
    ensures Rows(specs, ev, llm, redact)
         == Some(EvaluateAmong(store, token, p, specs, faults, ev, llm, redact, beforeDelete, beforeSave).1.scores)
  {
  }

  lemma EndIsApart(spec: Spec, row: Row, end: int, specs: seq<Spec>, ev: Evidence, llm: Llm, redact: string -> string)
    requires Earns(spec, row, specs, ev, llm, redact)
    ensures Earns(spec, row.(endAt := end), specs, ev, llm, redact)
  {
    var answers := Deciding(llm, Prompted(specs, true));
    if answers.Answered? && Told(row, spec, answers.answers, redact) {
      var said: Row :| Reflects(answers.answers, spec, said) && row == said.(rationale := redact(said.rationale),
        endAt := row.endAt, evidence := row.evidence, model := row.model, version := row.version);
      assert row.(endAt := end) == said.(rationale := redact(said.rationale),
        endAt := end, evidence := row.evidence, model := row.model, version := row.version);
    }
  }

  /** In particular a score the deciding call gives first for a dimension is the score stored for it, with
      its redacted rationale. */
  lemma GivenScoreIsStored(store: Store, token: string, p: Period, specs: seq<Spec>, faults: Faults, ev: Evidence, llm: Llm,
                           redact: string -> string, beforeDelete: seq<Write>, beforeSave: seq<Write>, i: nat, j: nat)
    requires DistinctCodes(specs) && i < |specs| && !Skips(ev) && specs[i].prompt != ""
    requires var r := EvaluateAmong(store, token, p, specs, faults, ev, llm, redact, beforeDelete, beforeSave).1;
             r.Done? && !r.reused
    requires var last := Deciding(llm, Prompted(specs, true));
             && Usable(last, Prompted(specs, true)) && CountsFor(last.answers, specs[i].code, j)
             && last.answers[j].score.Some? && !last.answers[j].insufficient
    ensures var after := EvaluateAmong(store, token, p, specs, faults, ev, llm, redact, beforeDelete, beforeSave).0;
            var k := Key(token, p.start, specs[i].code);
            var a := Deciding(llm, Prompted(specs, true)).answers[j];
            && k in after && after[k].score == a.score.value && !after[k].insufficient
            && after[k].rationale == redact(a.rationale) && after[k].status == Success && after[k].model == llm.model
  {
    StoredRowIsEarned(store, token, p, specs, faults, ev, llm, redact, beforeDelete, beforeSave, i);
  }

  /** Other people and other period starts are untouched, whatever fails; and so is every row of this
      period start whose dimension is not enabled, save for deleted leftovers of exactly this period.
      Active-test dimensions are never enabled conversation dimensions. */
  lemma OnlyThisPeriodChanges(store: Store, token: string, p: Period, specs: seq<Spec>, faults: Faults,
                              ev: Evidence, llm: Llm, redact: string -> string, k: Key)
    requires k.token != token || k.startAt != p.start || k.code !in SpecCodes(specs)
    requires !(k in store && InPeriod(store, k, token, p) && Leftover(store[k]))
    ensures var after := Evaluate(store, token, p, specs, faults, ev, llm, redact).0;
            (k in after <==> k in store) && (k in store ==> after[k] == store[k])
  {
    CleanedHasNoLeftover(store, token, p, specs, k);
    var r := Evaluate(store, token, p, specs, faults, ev, llm, redact).1;
    if r.Done? && !r.reused {
      UnwrittenRow(Cleaned(store, token, p, specs), token, p, specs, r.scores, ev, llm, redact, k);
    }
  }

  /** The unique key has neither the period's end nor the source: a row of a window with the same start and
      another end, and an active-test row of this start, survive a scoring evaluation if and only if their
      dimension is not enabled. */
  lemma SameStartSurvivesIff(store: Store, token: string, p: Period, specs: seq<Spec>, faults: Faults,
                             ev: Evidence, llm: Llm, redact: string -> string, k: Key)
    requires DistinctCodes(specs) && k in store && k.token == token && k.startAt == p.start
    requires store[k].endAt != p.end || store[k].source == ActiveTest
    requires var r := Evaluate(store, token, p, specs, faults, ev, llm, redact).1; r.Done? && !r.reused
    ensures var after := Evaluate(store, token, p, specs, faults, ev, llm, redact).0;
            k in after && (after[k] == store[k] <==> k.code !in SpecCodes(specs))
  {
    if k.code in SpecCodes(specs) {
      var r := Evaluate(store, token, p, specs, faults, ev, llm, redact).1;
      var i :| 0 <= i < |specs| && specs[i].code == k.code;
      WrittenRow(Cleaned(store, token, p, specs), token, p, specs, r.scores, ev, llm, redact, specs[i]);
      assert k == Key(token, p.start, specs[i].code);
    } else {
      OnlyThisPeriodChanges(store, token, p, specs, faults, ev, llm, redact, k);
    }
  }

  /** An evaluation that fails has at most deleted leftovers. Retried without a fault it gives what it
      would have given in the first place, unless the deleted leftovers were all that stood in the way of
      reuse. */
  lemma RetryAfterError(store: Store, token: string, p: Period, specs: seq<Spec>, faults: Faults,
                        ev: Evidence, llm: Llm, redact: string -> string)
    requires Evaluate(store, token, p, specs, faults, ev, llm, redact).1.Error?
    ensures var after := Evaluate(store, token, p, specs, faults, ev, llm, redact).0;
            && (after == store || after == DeleteLeftovers(store, token, p))
            && (Reuses(after, token, p, specs)
                || Evaluate(after, token, p, specs, NO_FAULTS, ev, llm, redact)
                   == Evaluate(store, token, p, specs, NO_FAULTS, ev, llm, redact))
  {
    var after := Evaluate(store, token, p, specs, faults, ev, llm, redact).0;
    if after != store {
      CleaningTwice(store, token, p);
      assert !Reuses(store, token, p, specs);
      assert Cleaned(after, token, p, specs) == after;
    }
  }

  lemma CleaningTwice(store: Store, token: string, p: Period)
    ensures DeleteLeftovers(DeleteLeftovers(store, token, p), token, p) == DeleteLeftovers(store, token, p)
  {
  }
}
