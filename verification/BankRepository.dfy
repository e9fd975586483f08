/** The question bank repository and services as the source runs them, on tables changed in place. */
module BankRepository {
  import opened Base
  import opened QuestionBank
  import opened QuestionReview
  import opened QuestionService
  import Numbering

  /** The rows after the chosen ones were rejected with their reasons. */
  function RejectRows(rows: map<QuestionId, Question>, chosen: set<QuestionId>, reasons: map<QuestionId, string>)
    : map<QuestionId, Question>
    requires chosen <= reasons.Keys
  {
    map q | q in rows :: if q in chosen then Refused(rows[q], reasons[q]) else rows[q]
  }

  lemma RejectNone(rows: map<QuestionId, Question>, reasons: map<QuestionId, string>)
    ensures RejectRows(rows, {}, reasons) == rows
  {
  }

  lemma RejectOneMore(rows: map<QuestionId, Question>, chosen: set<QuestionId>, reasons: map<QuestionId, string>, q: QuestionId)
    requires chosen + {q} <= reasons.Keys && q in rows && q !in chosen
    ensures RejectRows(rows, chosen, reasons)[q] == rows[q]
    ensures RejectRows(rows, chosen + {q}, reasons)
         == RejectRows(rows, chosen, reasons)[q := Refused(rows[q], reasons[q])]
  {
  }

  /** After the rejections, exactly the admitted questions are still pending. */
  lemma RestIsAdmitted(bank: Bank, batchId: BatchId, rejected: map<QuestionId, string>)
    ensures WaitingIn(RejectRows(bank.questions, RejectedIn(bank, batchId, rejected), rejected), batchId)
         == AdmittedIn(bank, batchId, rejected)
  {
  }

  lemma RejectThenAdmit(bank: Bank, batchId: BatchId, rejected: map<QuestionId, string>)
    ensures AdmitRows(RejectRows(bank.questions, RejectedIn(bank, batchId, rejected), rejected),
                      AdmittedIn(bank, batchId, rejected))
         == ConfirmRows(bank, batchId, rejected)
  {
  }

  function WaitingIn(rows: map<QuestionId, Question>, batchId: BatchId): set<QuestionId> {
    set q | q in rows && !rows[q].deleted && rows[q].batchId == batchId && rows[q].status == Pending
  }

  lemma StillWaiting(rows: map<QuestionId, Question>, hit: set<QuestionId>, reasons: map<QuestionId, string>, batchId: BatchId, q: QuestionId)
    requires hit <= reasons.Keys && q !in hit
    ensures q in WaitingIn(RejectRows(rows, hit, reasons), batchId) <==> q in WaitingIn(rows, batchId)
  {
  }

  /** The ids handled so far that matched a row, once `todo` is still to do. */
  function Hits(rows: map<QuestionId, Question>, reasons: map<QuestionId, string>, batchId: BatchId, todo: set<QuestionId>)
    : set<QuestionId>
  {
    reasons.Keys * WaitingIn(rows, batchId) - todo
  }

  lemma RejectStep(rows: map<QuestionId, Question>, reasons: map<QuestionId, string>, batchId: BatchId, todo: set<QuestionId>, q: QuestionId)
    requires todo <= reasons.Keys && q in todo
    ensures var now := RejectRows(rows, Hits(rows, reasons, batchId, todo), reasons);
            var next := RejectRows(rows, Hits(rows, reasons, batchId, todo - {q}), reasons);
            if q in WaitingIn(now, batchId) then
              next == now[q := Refused(now[q], reasons[q])]
              && |Hits(rows, reasons, batchId, todo - {q})| == |Hits(rows, reasons, batchId, todo)| + 1
            else next == now && Hits(rows, reasons, batchId, todo - {q}) == Hits(rows, reasons, batchId, todo)
  {
    var hit := Hits(rows, reasons, batchId, todo);
    StillWaiting(rows, hit, reasons, batchId, q);
    if q in WaitingIn(rows, batchId) {
      assert Hits(rows, reasons, batchId, todo - {q}) == hit + {q};
      RejectOneMore(rows, hit, reasons, q);
    } else {
      assert Hits(rows, reasons, batchId, todo - {q}) == hit;
    }
  }

  function AdmitRows(rows: map<QuestionId, Question>, rest: set<QuestionId>): map<QuestionId, Question> {
    map q | q in rows :: if q in rest then Admitted(rows[q]) else rows[q]
  }

  /** How a resubmission ends: in a batch, on a taken key, or on a stale version. */
  datatype Joined = Joined(batchId: BatchId) | KeyTaken | Stale

  class Repository {
    var questions: map<QuestionId, Question>
    var batches: map<BatchId, Batch>
    var generations: map<GenerationId, Generation>

    ghost function Tables(): Bank
      reads this
    {
      Bank(questions, batches, generations)
    }

    constructor ()
      ensures Tables() == EMPTY
    {
      questions, batches, generations := map[], map[], map[];
    }

    /** The batch row first, then its questions with numbers counted up from one maximum per prefix; any
        key already taken rolls both back. */
    method CreateBatchWithQuestions(batchId: BatchId, batch: Batch, drafts: seq<Draft>, ids: seq<QuestionId>)
      returns (created: bool)
      requires |ids| == |drafts|
      modifies this
      ensures Tables() == CreateBatch(old(Tables()), batchId, batch, drafts, ids)
      ensures created == Creatable(old(Tables()), batchId, batch.no, drafts, ids)
      ensures created ==> batchId in batches
    {
      ghost var before := Tables();
      var savedBatches := batches;
      if batchId in batches || batch.no in BatchNos(Bank(questions, batches, generations)) {
        return false;
      }
      batches := batches[batchId := batch];
      var nos := Numbering.NumberBlock(Nos(Bank(questions, batches, generations)), Sources(drafts));
      assert Nos(Tables()) == Nos(before);
      if !FreshIds(Bank(questions, batches, generations), ids)
         || !Numbering.FreshBlock(Nos(Bank(questions, batches, generations)), Sources(drafts), nos)
      {
        batches := savedBatches;
        return false;
      }
      questions := questions + NewRows(ids, drafts, nos, batchId);
      created := true;
    }

    /** Guard on the batch row, reject the listed questions one by one, admit the rest in one update. */
    method ConfirmBatch(batchId: BatchId, rejected: map<QuestionId, string>)
      returns (ok: bool, admitted: nat, refused: nat)
      modifies this
      ensures Tables() == Apply(old(Tables()), Confirm(batchId, rejected))
      ensures ok == IsOpen(old(Tables()), batchId)
      ensures ok ==> admitted == |AdmittedIn(old(Tables()), batchId, rejected)|
                     && refused == |RejectedIn(old(Tables()), batchId, rejected)|
      ensures !ok ==> admitted == refused == 0
    {
      ghost var before := Tables();
      if batchId !in batches || batches[batchId].status != Open {
        return false, 0, 0;
      }
      batches := batches[batchId := batches[batchId].(status := Closed)];
      refused := RejectEach(batchId, rejected);
      assert RejectedIn(before, batchId, rejected) == rejected.Keys * WaitingIn(before.questions, batchId);
      var rest := WaitingIn(questions, batchId);
      RestIsAdmitted(before, batchId, rejected);
      RejectThenAdmit(before, batchId, rejected);
      questions := AdmitRows(questions, rest);
      ok, admitted := true, |rest|;
    }

    /** One guarded update: an id outside the batch, deleted or already settled matches no row. */
    method RejectOne(batchId: BatchId, q: QuestionId, reason: string) returns (affected: nat)
      modifies this`questions
      ensures affected == if q in WaitingIn(old(questions), batchId) then 1 else 0
      ensures questions == if q in WaitingIn(old(questions), batchId)
                           then old(questions)[q := Refused(old(questions)[q], reason)] else old(questions)
    {
      if q !in questions || questions[q].deleted || questions[q].batchId != batchId || questions[q].status != Pending {
        return 0;
      }
      questions := questions[q := Refused(questions[q], reason)];
      affected := 1;
    }

    method RejectEach(batchId: BatchId, rejected: map<QuestionId, string>) returns (refused: nat)
      modifies this`questions
      ensures questions == RejectRows(old(questions), rejected.Keys * WaitingIn(old(questions), batchId), rejected)
      ensures refused == |rejected.Keys * WaitingIn(old(questions), batchId)|
    {
      ghost var before := questions;
      refused := 0;
      var todo := rejected.Keys;
      assert Hits(before, rejected, batchId, todo) == {};
      RejectNone(before, rejected);
      while todo != {}
        invariant todo <= rejected.Keys
        invariant questions == RejectRows(before, Hits(before, rejected, batchId, todo), rejected)
        invariant refused == |Hits(before, rejected, batchId, todo)|
        decreases todo
      {
        var q :| q in todo;
        RejectStep(before, rejected, batchId, todo, q);
        var affected := RejectOne(batchId, q, rejected[q]);
        refused := refused + affected;
        todo := todo - {q};
      }
      assert Hits(before, rejected, batchId, {}) == rejected.Keys * WaitingIn(before, batchId);
    }

    method VoidBatch(batchId: BatchId) returns (ok: bool)
      modifies this
      ensures Tables() == Apply(old(Tables()), Void(batchId))
      ensures ok == IsOpen(old(Tables()), batchId)
    {
      ghost var before := Tables();
      if batchId !in batches || batches[batchId].status != Open {
        return false;
      }
      var kind := batches[batchId].kind;
      batches := batches[batchId := batches[batchId].(status := Voided)];
      var members := set q | q in questions && questions[q].batchId == batchId && !questions[q].deleted;
      if kind == Resubmit {
        questions := map q | q in questions ::
          if q in members then questions[q].(status := Rejected, version := questions[q].version + 1) else questions[q];
      } else {
        questions := map q | q in questions :: if q in members then questions[q].(deleted := true) else questions[q];
      }
      assert questions == VoidRows(before, batchId, kind);
      ok := true;
    }

    /** Join or open the resubmission batch first; a stale version rolls that back as well. */
    method ResubmitToBatch(qid: QuestionId, version: nat, content: Content, batchId: BatchId, day: string, now: int)
      returns (joined: Joined)
      modifies this
      ensures Tables() == Apply(old(Tables()), ResubmitTo(qid, version, content, batchId, day, now))
      ensures joined == match ResubmitBatches(old(Tables()), batchId, day, now) {
                case None => KeyTaken
                case Some((_, target)) => if VersionMatches(old(Tables()), qid, version) then Joined(target) else Stale
              }
    {
      var saved := batches;
      var target := batchId;
      var waiting := FindPendingResubmit(Bank(questions, batches, generations));
      match waiting {
        case Some(b) =>
          batches := batches[b := batches[b].(count := batches[b].count + 1)];
          target := b;
        case None =>
          var nos := BatchNos(Bank(questions, batches, generations));
          var no := Numbering.NextBatchNo(nos, "#R" + day);
          if no.None? || batchId in batches || no.value in nos {
            return KeyTaken;
          }
          batches := batches[batchId := Batch(no.value, Numbering.AI, Resubmit, Open, 1, "", now)];
      }
      if qid !in questions || questions[qid].deleted || questions[qid].version != version {
        batches := saved;
        return Stale;
      }
      questions := questions[qid := Resubmitted(questions[qid], content, target)];
      joined := Joined(target);
    }

    method UpdateContentWithVersion(qid: QuestionId, version: nat, content: Content) returns (affected: nat)
      modifies this
      ensures Tables() == Apply(old(Tables()), UpdateContent(qid, version, content))
      ensures affected == if VersionMatches(old(Tables()), qid, version) then 1 else 0
    {
      if qid !in questions || questions[qid].version != version || questions[qid].deleted {
        return 0;
      }
      questions := questions[qid := questions[qid].(content := content, version := questions[qid].version + 1)];
      affected := 1;
    }

    method UpdateStatusWithVersion(qid: QuestionId, version: nat, status: QuestionStatus) returns (affected: nat)
      modifies this
      ensures Tables() == Apply(old(Tables()), UpdateStatus(qid, version, status))
      ensures affected == if VersionMatches(old(Tables()), qid, version) then 1 else 0
    {
      if qid !in questions || questions[qid].version != version || questions[qid].deleted {
        return 0;
      }
      questions := questions[qid := questions[qid].(status := status, version := questions[qid].version + 1)];
      affected := 1;
    }

    method SoftDeleteWithVersion(qid: QuestionId, version: nat) returns (affected: nat)
      modifies this
      ensures Tables() == Apply(old(Tables()), SoftDelete(qid, version))
      ensures affected == if VersionMatches(old(Tables()), qid, version) then 1 else 0
    {
      if qid !in questions || questions[qid].version != version || questions[qid].deleted {
        return 0;
      }
      questions := questions[qid := questions[qid].(deleted := true)];
      affected := 1;
    }

    /** Scale import: refuse a scale that still has live questions, else number and create its batch. */
    method ImportScale(scaleKey: string, batchId: BatchId, day: string, contents: seq<Content>, ids: seq<QuestionId>, now: int)
      returns (created: bool)
      requires |ids| == |contents|
      modifies this
      ensures Tables() == Apply(old(Tables()), Op.ImportScale(scaleKey, batchId, day, contents, ids, now))
      ensures created == (&& ImportedLive(old(Tables()), scaleKey) == {}
                          && var no := Numbering.NextBatchNo(BatchNos(old(Tables())), "#S" + day);
                             no.Some? && Creatable(old(Tables()), batchId, no.value, ScaleDrafts(contents, scaleKey), ids))
    {
      if exists q :: q in questions && !questions[q].deleted && questions[q].scaleKey == scaleKey {
        assert ImportedLive(Tables(), scaleKey) != {} by {
          var q :| q in questions && !questions[q].deleted && questions[q].scaleKey == scaleKey;
          assert q in ImportedLive(Tables(), scaleKey);
        }
        return false;
      }
      var no := Numbering.NextBatchNo(BatchNos(Bank(questions, batches, generations)), "#S" + day);
      if no.None? {
        return false;
      }
      var batch := Batch(no.value, Numbering.Scale, Import, Open, |contents|, scaleKey, now);
      created := CreateBatchWithQuestions(batchId, batch, ScaleDrafts(contents, scaleKey), ids);
    }

    /** Generation completes together with its batch, or a session no longer running rolls both back. */
    method FinishCompleted(gid: GenerationId, batchId: BatchId, day: string, contents: seq<Content>, ids: seq<QuestionId>, now: int)
      returns (finished: bool)
      requires |ids| == |contents|
      modifies this
      ensures Tables() == Apply(old(Tables()), FinishGeneration(gid, batchId, day, contents, ids, now))
      ensures finished == (&& gid in old(generations) && old(generations)[gid] == Running
                           && var no := Numbering.NextBatchNo(BatchNos(old(Tables())), "#G" + day);
                              no.Some? && Creatable(old(Tables()), batchId, no.value, GeneratedDrafts(contents), ids))
    {
      var savedQuestions, savedBatches := questions, batches;
      var no := Numbering.NextBatchNo(BatchNos(Bank(questions, batches, generations)), "#G" + day);
      if no.None? {
        return false;
      }
      ghost var before := Tables();
      var batch := Batch(no.value, Numbering.AI, Generate, Open, |contents|, "", now);
      finished := CreateBatchWithQuestions(batchId, batch, GeneratedDrafts(contents), ids);
      FinishCases(before, gid, batchId, day, contents, ids, now, no.value);
      CreatedIff(before, batchId, batch, GeneratedDrafts(contents), ids);
      ghost var mid := Tables();
      if !finished {
        return;
      }
      if gid !in generations || generations[gid] != Running {
        questions, batches := savedQuestions, savedBatches;
        return false;
      }
      generations := generations[gid := Generation.Completed(batchId)];
      assert Tables() == Finished(before, gid, batchId, mid);
    }

    method CreateGeneration(gid: GenerationId)
      modifies this
      ensures Tables() == Apply(old(Tables()), QueueGeneration(gid))
    {
      if gid !in generations {
        generations := generations[gid := Queued];
      }
    }

    /** Claim a queued session; a session already claimed, cancelled or gone is refused. */
    method MarkRunning(gid: GenerationId) returns (claimed: bool)
      modifies this
      ensures Tables() == Apply(old(Tables()), RunGeneration(gid))
      ensures claimed == (gid in old(generations) && old(generations)[gid] == Queued)
    {
      claimed := gid in generations && generations[gid] == Queued;
      if claimed {
        generations := generations[gid := Running];
      }
    }

    /** End a session that has not ended; a final one is left alone and reported. */
    method FinishTerminal(gid: GenerationId) returns (ended: bool)
      modifies this
      ensures Tables() == Apply(old(Tables()), EndGeneration(gid))
      ensures ended == (gid in old(generations) && (old(generations)[gid] == Queued || old(generations)[gid] == Running))
    {
      ended := gid in generations && (generations[gid] == Queued || generations[gid] == Running);
      if ended {
        generations := generations[gid := Ended];
      }
    }

    /** Cancelling is idempotent: it ends what has not ended and succeeds either way. */
    method RequestCancel(gid: GenerationId)
      modifies this
      ensures Tables() == Apply(old(Tables()), EndGeneration(gid))
    {
      var _ := FinishTerminal(gid);
    }
  }
}
