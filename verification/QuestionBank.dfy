/** The question bank and its review batches.

    Questions enter through generated or imported batches, are admitted or rejected when the batch is
    confirmed, may be edited, toggled or deleted under an optimistic lock, and go back to review by
    resubmission. Every repository transaction is one atomic step. */
module QuestionBank {
  import opened Base
  import Numbering

  type QuestionId = nat
  type BatchId = nat
  type GenerationId = nat

  datatype QuestionStatus = Pending | Active | Disabled | Rejected
  datatype BatchKind = Generate | Import | Resubmit
  datatype BatchStatus = Open | Closed | Voided

  /** What an edit or a resubmission may change: the dimension and the three texts. */
  datatype Content = Content(dimension: nat, scenario: string, requirement: string, focus: string)

  /** A question row. */
  datatype Question = Question(no: string, source: Numbering.Source, scaleKey: string, content: Content,
                               status: QuestionStatus, reason: string, batchId: BatchId,
                               references: nat, version: nat, deleted: bool)
  datatype Batch = Batch(no: string, source: Numbering.Source, kind: BatchKind, status: BatchStatus,
                         count: nat, scaleKey: string, createdAt: int)
  /** A question generation session; a completed one knows its batch. */
  datatype Generation = Queued | Running | Completed(batchId: BatchId) | Ended

  datatype Bank = Bank(questions: map<QuestionId, Question>, batches: map<BatchId, Batch>,
                       generations: map<GenerationId, Generation>)

  const EMPTY := Bank(map[], map[], map[])

  datatype Draft = Draft(source: Numbering.Source, scaleKey: string, content: Content)

  datatype Op =
    | QueueGeneration(gid: GenerationId)
    | RunGeneration(gid: GenerationId)
    | EndGeneration(gid: GenerationId)
    | FinishGeneration(gid: GenerationId, batchId: BatchId, day: string, contents: seq<Content>, ids: seq<QuestionId>, now: int)
    | ImportScale(scaleKey: string, batchId: BatchId, day: string, contents: seq<Content>, ids: seq<QuestionId>, now: int)
    | Confirm(batchId: BatchId, rejected: map<QuestionId, string>)
    | Void(batchId: BatchId)
    | ResubmitTo(qid: QuestionId, version: nat, content: Content, batchId: BatchId, day: string, now: int)
    | UpdateContent(qid: QuestionId, version: nat, content: Content)
    | UpdateStatus(qid: QuestionId, version: nat, status: QuestionStatus)
    | SoftDelete(qid: QuestionId, version: nat)
    | AddReferences(used: set<QuestionId>)

  // ---------------------------------------------------------------- queries

  function Nos(bank: Bank): set<string> {
    set q | q in bank.questions :: bank.questions[q].no
  }

  function BatchNos(bank: Bank): set<string> {
    set b | b in bank.batches :: bank.batches[b].no
  }

  /** The undeleted questions of a batch. */
  function Live(bank: Bank, batchId: BatchId): set<QuestionId> {
    set q | q in bank.questions && !bank.questions[q].deleted && bank.questions[q].batchId == batchId
  }

  function ImportedLive(bank: Bank, scaleKey: string): set<QuestionId> {
    set q | q in bank.questions && !bank.questions[q].deleted && bank.questions[q].scaleKey == scaleKey
  }

  function OpenResubmits(bank: Bank): set<BatchId> {
    set b | b in bank.batches && bank.batches[b].kind == Resubmit && bank.batches[b].source == Numbering.AI
            && bank.batches[b].status == Open
  }

  /** The earliest open resubmission batch, by creation time and then by id. */
  predicate IsEarliest(bank: Bank, among: set<BatchId>, b: BatchId)
    requires among <= bank.batches.Keys
  {
    b in among && forall x :: x in among ==>
      bank.batches[b].createdAt < bank.batches[x].createdAt || (bank.batches[b].createdAt == bank.batches[x].createdAt && b <= x)
  }

  lemma {:induction false} EarliestExists(bank: Bank, among: set<BatchId>)
    requires among <= bank.batches.Keys && among != {}
    ensures exists b :: IsEarliest(bank, among, b)
    decreases |among|
  {
    var x :| x in among;
    var rest := among - {x};
    if rest == {} {
      assert among == {x};
      assert IsEarliest(bank, among, x);
    } else {
      EarliestExists(bank, rest);
      var e :| IsEarliest(bank, rest, e);
      assert IsEarliest(bank, among, e) || IsEarliest(bank, among, x);
    }
  }

  function FindPendingResubmit(bank: Bank): (found: Option<BatchId>)
    ensures found.None? <==> OpenResubmits(bank) == {}
    ensures found.Some? ==> IsEarliest(bank, OpenResubmits(bank), found.value)
  {
    var waiting := OpenResubmits(bank);
    if waiting == {} then None
    else
      EarliestExists(bank, waiting);
      var b :| b in waiting && IsEarliest(bank, waiting, b);
      Some(b)
  }

  predicate VersionMatches(bank: Bank, qid: QuestionId, version: nat) {
    qid in bank.questions && !bank.questions[qid].deleted && bank.questions[qid].version == version
  }

  // ---------------------------------------------------------------- batch creation

  predicate FreshIds(bank: Bank, ids: seq<QuestionId>) {
    (forall i :: 0 <= i < |ids| ==> ids[i] !in bank.questions)
    && (forall i, j :: 0 <= i < j < |ids| ==> ids[i] != ids[j])
  }

  function Sources(drafts: seq<Draft>): seq<Numbering.Source> {
    seq(|drafts|, i requires 0 <= i < |drafts| => drafts[i].source)
  }

  /** A new row: pending, version 1, attached to the batch under its freshly issued number. */
  function NewRow(draft: Draft, no: string, batchId: BatchId): Question {
    Question(no, draft.source, draft.scaleKey, draft.content, Pending, "", batchId, 0, 1, false)
  }

  function NewRows(ids: seq<QuestionId>, drafts: seq<Draft>, nos: seq<string>, batchId: BatchId): map<QuestionId, Question>
    requires |ids| == |drafts| == |nos|
  {
    if ids == [] then map[]
    else
      var k := |ids| - 1;
      NewRows(ids[..k], drafts[..k], nos[..k], batchId)[ids[k] := NewRow(drafts[k], nos[k], batchId)]
  }

  /** No unique key of the batch or of its questions is taken. */
  predicate Creatable(bank: Bank, batchId: BatchId, no: string, drafts: seq<Draft>, ids: seq<QuestionId>) {
    && batchId !in bank.batches && no !in BatchNos(bank) && FreshIds(bank, ids)
    && Numbering.FreshBlock(Nos(bank), Sources(drafts), Numbering.Block(Nos(bank), Sources(drafts)))
  }

  /** The batch row and its numbered questions, or nothing at all when a unique key is taken. */
  function CreateBatch(bank: Bank, batchId: BatchId, batch: Batch, drafts: seq<Draft>, ids: seq<QuestionId>): Bank
    requires |ids| == |drafts|
  {
    if !Creatable(bank, batchId, batch.no, drafts, ids) then bank
    else bank.(batches := bank.batches[batchId := batch],
               questions := bank.questions + NewRows(ids, drafts, Numbering.Block(Nos(bank), Sources(drafts)), batchId))
  }

  function GeneratedDrafts(contents: seq<Content>): seq<Draft> {
    seq(|contents|, i requires 0 <= i < |contents| => Draft(Numbering.AI, "", contents[i]))
  }

  function ScaleDrafts(contents: seq<Content>, scaleKey: string): seq<Draft> {
    seq(|contents|, i requires 0 <= i < |contents| => Draft(Numbering.Scale, scaleKey, contents[i]))
  }

  // ---------------------------------------------------------------- row updates

  function Admitted(q: Question): Question {
    q.(status := Active, reason := "", version := q.version + 1)
  }

  function Refused(q: Question, reason: string): Question {
    q.(status := Rejected, reason := reason, version := q.version + 1)
  }

  /** Confirming: rejected ids of the batch get their reason, every other pending row is admitted. */
  function ConfirmRows(bank: Bank, batchId: BatchId, rejected: map<QuestionId, string>): map<QuestionId, Question> {
    map q | q in bank.questions ::
      var row := bank.questions[q];
      if row.deleted || row.batchId != batchId || row.status != Pending then row
      else if q in rejected then Refused(row, rejected[q])
      else Admitted(row)
  }

  function AdmittedIn(bank: Bank, batchId: BatchId, rejected: map<QuestionId, string>): set<QuestionId> {
    set q | q in Live(bank, batchId) && bank.questions[q].status == Pending && q !in rejected
  }

  function RejectedIn(bank: Bank, batchId: BatchId, rejected: map<QuestionId, string>): set<QuestionId> {
    set q | q in Live(bank, batchId) && bank.questions[q].status == Pending && q in rejected
  }

  /** Voiding: resubmitted questions fall back to rejected with their old reason, others are deleted. */
  function VoidRows(bank: Bank, batchId: BatchId, kind: BatchKind): map<QuestionId, Question> {
    map q | q in bank.questions ::
      var row := bank.questions[q];
      if row.deleted || row.batchId != batchId then row
      else if kind == Resubmit then row.(status := Rejected, version := row.version + 1)
      else row.(deleted := true)
  }

  function Resubmitted(q: Question, content: Content, batchId: BatchId): Question {
    q.(content := content, status := Pending, batchId := batchId, version := q.version + 1)
  }

  /** The batch table and the batch a resubmission joins: the open one with its count raised, or a new
      batch of one question; None when the new batch's keys are taken. */
  function ResubmitBatches(bank: Bank, batchId: BatchId, day: string, now: int): Option<(map<BatchId, Batch>, BatchId)> {
    match FindPendingResubmit(bank)
    case Some(b) =>
      Some((bank.batches[b := bank.batches[b].(count := bank.batches[b].count + 1)], b))
    case None =>
      match Numbering.NextBatchNo(BatchNos(bank), "#R" + day)
      case None => None
      case Some(no) =>
        if batchId in bank.batches || no in BatchNos(bank) then None
        else Some((bank.batches[batchId := Batch(no, Numbering.AI, Resubmit, Open, 1, "", now)], batchId))
  }

  predicate IsOpen(bank: Bank, batchId: BatchId) {
    batchId in bank.batches && bank.batches[batchId].status == Open
  }

  function WithStatus(bank: Bank, batchId: BatchId, status: BatchStatus): map<BatchId, Batch>
    requires batchId in bank.batches
  {
    bank.batches[batchId := bank.batches[batchId].(status := status)]
  }

  // ---------------------------------------------------------------- the transactions on values

  /** The committed effect of one transaction; a refused or rolled-back one changes nothing. */
  function Apply(bank: Bank, op: Op): Bank {
    match op
    case QueueGeneration(gid) =>
      if gid in bank.generations then bank else bank.(generations := bank.generations[gid := Queued])
    case RunGeneration(gid) =>
      if gid in bank.generations && bank.generations[gid] == Queued
      then bank.(generations := bank.generations[gid := Running]) else bank
    case EndGeneration(gid) =>
      if gid in bank.generations && (bank.generations[gid] == Queued || bank.generations[gid] == Running)
      then bank.(generations := bank.generations[gid := Ended]) else bank
    case FinishGeneration(gid, batchId, day, contents, ids, now) =>
      if gid !in bank.generations || bank.generations[gid] != Running || |ids| != |contents| then bank
      else
        (match Numbering.NextBatchNo(BatchNos(bank), "#G" + day)
        case None => bank
        case Some(no) =>
          var batch := Batch(no, Numbering.AI, Generate, Open, |contents|, "", now);
          var after := CreateBatch(bank, batchId, batch, GeneratedDrafts(contents), ids);
          if after == bank then bank else after.(generations := bank.generations[gid := Completed(batchId)]))
    case ImportScale(scaleKey, batchId, day, contents, ids, now) =>
      if ImportedLive(bank, scaleKey) != {} || |ids| != |contents| then bank
      else
        (match Numbering.NextBatchNo(BatchNos(bank), "#S" + day)
        case None => bank
        case Some(no) =>
          var batch := Batch(no, Numbering.Scale, Import, Open, |contents|, scaleKey, now);
          CreateBatch(bank, batchId, batch, ScaleDrafts(contents, scaleKey), ids))
    case Confirm(batchId, rejected) =>
      if !IsOpen(bank, batchId) then bank
      else bank.(batches := WithStatus(bank, batchId, Closed), questions := ConfirmRows(bank, batchId, rejected))
    case Void(batchId) =>
      if !IsOpen(bank, batchId) then bank
      else bank.(batches := WithStatus(bank, batchId, Voided),
                 questions := VoidRows(bank, batchId, bank.batches[batchId].kind))
    case ResubmitTo(qid, version, content, batchId, day, now) =>
      var joined := ResubmitBatches(bank, batchId, day, now);
      if joined.None? || !VersionMatches(bank, qid, version) then bank
      else
        var (batches, target) := joined.value;
        bank.(batches := batches, questions := bank.questions[qid := Resubmitted(bank.questions[qid], content, target)])
    case UpdateContent(qid, version, content) =>
      if !VersionMatches(bank, qid, version) then bank
      else bank.(questions := bank.questions[qid := bank.questions[qid].(content := content, version := version + 1)])
    case UpdateStatus(qid, version, status) =>
      if !VersionMatches(bank, qid, version) then bank
      else bank.(questions := bank.questions[qid := bank.questions[qid].(status := status, version := version + 1)])
    case SoftDelete(qid, version) =>
      if !VersionMatches(bank, qid, version) then bank
      else bank.(questions := bank.questions[qid := bank.questions[qid].(deleted := true)])
    case AddReferences(used) =>
      bank.(questions := map q | q in bank.questions ::
              if q in used && !bank.questions[q].deleted
              then bank.questions[q].(references := bank.questions[q].references + 1) else bank.questions[q])
  }

  /** A run of transactions, whoever commits them. */
  function RunOps(bank: Bank, ops: seq<Op>): Bank
    decreases |ops|
  {
    if ops == [] then bank else RunOps(Apply(bank, ops[0]), ops[1..])
  }
}
