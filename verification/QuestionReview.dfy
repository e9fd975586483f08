/** What every reachable question bank satisfies, and what each review step achieves. */
module QuestionReview {
  import opened Base
  import opened QuestionBank
  import Numbering

  ghost predicate IsLive(bank: Bank, q: QuestionId) {
    q in bank.questions && !bank.questions[q].deleted
  }

  /** A live question has its batch and is pending exactly while that batch is open; it carries a reason
      exactly when rejected or waiting in a resubmission; a scale question stays where it was imported. */
  ghost predicate RowSound(batches: map<BatchId, Batch>, row: Question) {
    row.batchId in batches
    && var batch := batches[row.batchId];
       (row.status == Pending <==> batch.status == Open)
       && (row.reason != "" <==> row.status == Rejected || (row.status == Pending && batch.kind == Resubmit))
       && (row.scaleKey != "" ==> row.source == Numbering.Scale && batch.kind == Import)
  }

  ghost predicate RowsSound(bank: Bank) {
    forall q :: IsLive(bank, q) ==> RowSound(bank.batches, bank.questions[q])
  }

  /** The stored count of an open batch is the number of its live questions. */
  ghost predicate CountsMatch(bank: Bank) {
    forall b :: IsOpen(bank, b) ==> bank.batches[b].count == |Live(bank, b)|
  }

  /** Resubmission batches are AI batches, and at most one of them is open. */
  ghost predicate BatchesSound(bank: Bank) {
    && (forall b :: b in bank.batches && bank.batches[b].kind == Resubmit ==> bank.batches[b].source == Numbering.AI)
    && (forall b, c :: b in OpenResubmits(bank) && c in OpenResubmits(bank) ==> b == c)
  }

  /** All live questions of one scale come from a single import batch. */
  ghost predicate OneBatchPerScale(bank: Bank) {
    forall q, r :: IsLive(bank, q) && IsLive(bank, r) && bank.questions[q].scaleKey != ""
                   && bank.questions[q].scaleKey == bank.questions[r].scaleKey ==>
      bank.questions[q].batchId == bank.questions[r].batchId
  }

  ghost predicate ReviewSound(bank: Bank) {
    RowsSound(bank) && CountsMatch(bank) && BatchesSound(bank) && OneBatchPerScale(bank)
  }

  /** What the services check before a versioned write, as it must still hold at the write. */
  ghost predicate Allowed(bank: Bank, op: Op) {
    match op
    case UpdateContent(qid, version, _) => VersionMatches(bank, qid, version) ==> Editable(bank.questions[qid])
    case UpdateStatus(qid, version, _) => VersionMatches(bank, qid, version) ==> Switchable(bank.questions[qid])
    case SoftDelete(qid, version) => VersionMatches(bank, qid, version) ==> bank.questions[qid].status != Pending
    case ResubmitTo(qid, version, _, _, _, _) => VersionMatches(bank, qid, version) ==> Resubmittable(bank.questions[qid])
    case _ => true
  }

  predicate Switchable(q: Question) {
    q.status == Active || q.status == Disabled
  }

  predicate Editable(q: Question) {
    q.source == Numbering.AI && Switchable(q)
  }

  predicate Resubmittable(q: Question) {
    q.source == Numbering.AI && q.status == Rejected
  }

  /** What callers owe: reasons of 1 to 500 characters, a target of active or disabled, a named scale,
      and a four-digit day. */
  predicate GoodOp(op: Op) {
    match op
    case Confirm(_, rejected) => forall q :: q in rejected ==> 1 <= |rejected[q]| <= 500
    case UpdateStatus(_, _, status) => status == Active || status == Disabled
    case ImportScale(scaleKey, _, day, _, _, _) => scaleKey != "" && |day| == 4
    case FinishGeneration(_, _, day, _, _, _) => |day| == 4
    case ResubmitTo(_, _, _, _, day, _) => |day| == 4
    case _ => true
  }

  // ---------------------------------------------------------------- each transaction keeps it

  /** No open batch gained or lost a live question. */
  ghost predicate SameOpenBatches(bank: Bank, after: Bank) {
    forall b :: IsOpen(after, b) ==>
      IsOpen(bank, b) && after.batches[b] == bank.batches[b] && Live(after, b) == Live(bank, b)
  }

  lemma SameOpenBatchesKeepCounts(bank: Bank, after: Bank)
    requires CountsMatch(bank) && SameOpenBatches(bank, after)
    ensures CountsMatch(after)
  {
  }

  /** Rows may die or change, but keep their scale and, while they have one, their batch. */
  ghost predicate ScaleRowsStay(bank: Bank, after: Bank) {
    forall q :: IsLive(after, q) && after.questions[q].scaleKey != "" ==>
      IsLive(bank, q) && after.questions[q].scaleKey == bank.questions[q].scaleKey
      && after.questions[q].batchId == bank.questions[q].batchId
  }

  lemma ScaleRowsStayKeepsScales(bank: Bank, after: Bank)
    requires OneBatchPerScale(bank) && ScaleRowsStay(bank, after)
    ensures OneBatchPerScale(after)
  {
  }

  lemma ConfirmKeepsRows(bank: Bank, batchId: BatchId, rejected: map<QuestionId, string>)
    requires RowsSound(bank) && IsOpen(bank, batchId) && GoodOp(Confirm(batchId, rejected))
    ensures RowsSound(Apply(bank, Confirm(batchId, rejected)))
  {
    var after := Apply(bank, Confirm(batchId, rejected));
    forall q | IsLive(after, q) ensures RowSound(after.batches, after.questions[q]) {
      assert IsLive(bank, q);
      assert RowSound(bank.batches, bank.questions[q]);
    }
  }

  lemma ConfirmKeepsReview(bank: Bank, batchId: BatchId, rejected: map<QuestionId, string>)
    requires ReviewSound(bank) && IsOpen(bank, batchId) && GoodOp(Confirm(batchId, rejected))
    ensures ReviewSound(Apply(bank, Confirm(batchId, rejected)))
  {
    var after := Apply(bank, Confirm(batchId, rejected));
    ConfirmKeepsRows(bank, batchId, rejected);
    assert SameOpenBatches(bank, after) by {
      forall b | IsOpen(after, b) ensures Live(after, b) == Live(bank, b) {}
    }
    SameOpenBatchesKeepCounts(bank, after);
    ScaleRowsStayKeepsScales(bank, after);
    assert OpenResubmits(after) <= OpenResubmits(bank);
  }

  lemma VoidKeepsReview(bank: Bank, batchId: BatchId)
    requires ReviewSound(bank) && IsOpen(bank, batchId)
    ensures ReviewSound(Apply(bank, Void(batchId)))
  {
    var after := Apply(bank, Void(batchId));
    assert RowsSound(after) by {
      forall q | IsLive(after, q) ensures RowSound(after.batches, after.questions[q]) {
        assert IsLive(bank, q);
        assert RowSound(bank.batches, bank.questions[q]);
      }
    }
    assert SameOpenBatches(bank, after) by {
      forall b | IsOpen(after, b) ensures Live(after, b) == Live(bank, b) {}
    }
    SameOpenBatchesKeepCounts(bank, after);
    ScaleRowsStayKeepsScales(bank, after);
    assert OpenResubmits(after) <= OpenResubmits(bank);
  }

  /** A row update in place: sound where it stands, same batch and scale, alive only if it was. */
  lemma RowUpdateKeepsReview(bank: Bank, qid: QuestionId, row: Question)
    requires ReviewSound(bank) && IsLive(bank, qid)
    requires !row.deleted ==> RowSound(bank.batches, row)
    requires row.deleted ==> bank.questions[qid].status != Pending
    requires row.batchId == bank.questions[qid].batchId && row.scaleKey == bank.questions[qid].scaleKey
    ensures ReviewSound(bank.(questions := bank.questions[qid := row]))
  {
    var after := bank.(questions := bank.questions[qid := row]);
    assert RowSound(bank.batches, bank.questions[qid]);
    assert RowsSound(after) by {
      forall q | IsLive(after, q) ensures RowSound(after.batches, after.questions[q]) {
        if q != qid { assert IsLive(bank, q); }
      }
    }
    assert SameOpenBatches(bank, after) by {
      forall b | IsOpen(after, b) ensures Live(after, b) == Live(bank, b) {}
    }
    SameOpenBatchesKeepCounts(bank, after);
    ScaleRowsStayKeepsScales(bank, after);
    assert OpenResubmits(after) == OpenResubmits(bank);
  }

  lemma ReferencesKeepReview(bank: Bank, used: set<QuestionId>)
    requires ReviewSound(bank)
    ensures ReviewSound(Apply(bank, AddReferences(used)))
  {
    var after := Apply(bank, AddReferences(used));
    assert RowsSound(after) by {
      forall q | IsLive(after, q) ensures RowSound(after.batches, after.questions[q]) {
        assert IsLive(bank, q);
        assert RowSound(bank.batches, bank.questions[q]);
      }
    }
    assert SameOpenBatches(bank, after) by {
      forall b | IsOpen(after, b) ensures Live(after, b) == Live(bank, b) {}
    }
    SameOpenBatchesKeepCounts(bank, after);
    ScaleRowsStayKeepsScales(bank, after);
    assert OpenResubmits(after) == OpenResubmits(bank);
  }

  /** The batch table after a resubmission: one open resubmission batch, one question longer. */
  lemma JoinedBatch(bank: Bank, batchId: BatchId, day: string, now: int)
    requires ReviewSound(bank) && ResubmitBatches(bank, batchId, day, now).Some?
    ensures var (batches, target) := ResubmitBatches(bank, batchId, day, now).value;
            && target in batches && batches[target].status == Open && batches[target].kind == Resubmit
            && batches[target].source == Numbering.AI
            && batches[target].count == |Live(bank, target)| + 1
            && (forall b :: b in bank.batches && b != target ==> b in batches && batches[b] == bank.batches[b])
            && (forall b :: b in batches && b != target ==> b in bank.batches)
            && (forall b :: b in OpenResubmits(bank) ==> b == target)
            && (target in bank.batches ==> IsOpen(bank, target) && bank.batches[target].kind == Resubmit)
  {
    var (batches, target) := ResubmitBatches(bank, batchId, day, now).value;
    if target in bank.batches { assert target in OpenResubmits(bank); }
    else { NoLiveWithoutBatch(bank, target); }
  }

  lemma NoLiveWithoutBatch(bank: Bank, b: BatchId)
    requires RowsSound(bank) && b !in bank.batches
    ensures Live(bank, b) == {}
  {
    forall q ensures q !in Live(bank, b) {
      if IsLive(bank, q) { assert RowSound(bank.batches, bank.questions[q]); }
    }
  }

  lemma ResubmitKeepsRows(bank: Bank, op: Op)
    requires ReviewSound(bank) && op.ResubmitTo? && Allowed(bank, op) && Apply(bank, op) != bank
    ensures RowsSound(Apply(bank, op))
  {
    var after := Apply(bank, op);
    JoinedBatch(bank, op.batchId, op.day, op.now);
    assert RowSound(bank.batches, bank.questions[op.qid]);
    forall q | IsLive(after, q) ensures RowSound(after.batches, after.questions[q]) {
      assert IsLive(bank, q);
      assert RowSound(bank.batches, bank.questions[q]);
    }
  }

  lemma ResubmitKeepsReview(bank: Bank, op: Op)
    requires ReviewSound(bank) && op.ResubmitTo? && Allowed(bank, op)
    ensures ReviewSound(Apply(bank, op))
  {
    var after := Apply(bank, op);
    if after != bank {
      var target := after.questions[op.qid].batchId;
      JoinedBatch(bank, op.batchId, op.day, op.now);
      ResubmitKeepsRows(bank, op);
      ResubmitKeepsCounts(bank, op);
      ScaleRowsStayKeepsScales(bank, after);
      assert OpenResubmits(after) == {target};
    }
  }

  /** The question moves into the target batch and out of no open one. */
  lemma ResubmitMoves(bank: Bank, op: Op, b: BatchId)
    requires RowsSound(bank) && op.ResubmitTo? && Allowed(bank, op) && Apply(bank, op) != bank
    requires b in bank.batches ==> IsOpen(bank, b)
    ensures var (after, qid) := (Apply(bank, op), op.qid);
            qid !in Live(bank, b) && qid in after.questions
            && Live(after, b) == if after.questions[qid].batchId == b then Live(bank, b) + {qid} else Live(bank, b)
  {
    var after := Apply(bank, op);
    assert RowSound(bank.batches, bank.questions[op.qid]);
    assert after.questions == bank.questions[op.qid := after.questions[op.qid]];
  }

  lemma ResubmitKeepsCounts(bank: Bank, op: Op)
    requires ReviewSound(bank) && op.ResubmitTo? && Allowed(bank, op)
    ensures CountsMatch(Apply(bank, op))
  {
    var after := Apply(bank, op);
    if after != bank {
      JoinedBatch(bank, op.batchId, op.day, op.now);
      forall b | IsOpen(after, b) ensures after.batches[b].count == |Live(after, b)| {
        ResubmitMoves(bank, op, b);
      }
    }
  }

  // ---------------------------------------------------------------- batch creation

  lemma {:induction false} NewRowsAt(ids: seq<QuestionId>, drafts: seq<Draft>, nos: seq<string>, batchId: BatchId)
    requires |ids| == |drafts| == |nos|
    requires forall i, j :: 0 <= i < j < |ids| ==> ids[i] != ids[j]
    ensures forall q :: q in NewRows(ids, drafts, nos, batchId) <==> q in ids
    ensures forall i :: 0 <= i < |ids| ==> NewRows(ids, drafts, nos, batchId)[ids[i]] == NewRow(drafts[i], nos[i], batchId)
  {
    if ids != [] {
      var k := |ids| - 1;
      var rest := NewRows(ids[..k], drafts[..k], nos[..k], batchId);
      var all := NewRows(ids, drafts, nos, batchId);
      NewRowsAt(ids[..k], drafts[..k], nos[..k], batchId);
      assert all == rest[ids[k] := NewRow(drafts[k], nos[k], batchId)];
      assert ids == ids[..k] + [ids[k]];
      forall i | 0 <= i < |ids| ensures all[ids[i]] == NewRow(drafts[i], nos[i], batchId) {
        if i < k { assert ids[..k][i] == ids[i]; }
      }
    }
  }

  function IdSet(ids: seq<QuestionId>): set<QuestionId> {
    set q | q in ids
  }

  lemma {:induction false} DistinctCount(ids: seq<QuestionId>)
    requires forall i, j :: 0 <= i < j < |ids| ==> ids[i] != ids[j]
    ensures |IdSet(ids)| == |ids|
  {
    if ids != [] {
      var k := |ids| - 1;
      DistinctCount(ids[..k]);
      assert ids == ids[..k] + [ids[k]];
      assert ids[k] !in ids[..k];
      assert IdSet(ids) == IdSet(ids[..k]) + {ids[k]};
    }
  }

  /** The bank after a batch was created under numbers `nos`. */
  function Grown(bank: Bank, batchId: BatchId, batch: Batch, drafts: seq<Draft>, ids: seq<QuestionId>, nos: seq<string>): Bank
    requires |ids| == |drafts| == |nos|
  {
    bank.(batches := bank.batches[batchId := batch], questions := bank.questions + NewRows(ids, drafts, nos, batchId))
  }

  /** Every row of the grown bank is an old row or the i-th new one. */
  lemma GrownRows(bank: Bank, batchId: BatchId, batch: Batch, drafts: seq<Draft>, ids: seq<QuestionId>, nos: seq<string>)
    requires |ids| == |drafts| == |nos| && FreshIds(bank, ids)
    ensures var after := Grown(bank, batchId, batch, drafts, ids, nos);
            && after.questions.Keys == bank.questions.Keys + IdSet(ids)
            && (forall q :: q in bank.questions ==> q !in ids && after.questions[q] == bank.questions[q])
            && (forall i :: 0 <= i < |ids| ==> after.questions[ids[i]] == NewRow(drafts[i], nos[i], batchId))
  {
    NewRowsAt(ids, drafts, nos, batchId);
  }

  /** What the two creating transactions put into a batch. */
  ghost predicate GoodBatch(bank: Bank, batch: Batch, drafts: seq<Draft>) {
    && batch.count == |drafts| && batch.status == Open && (batch.kind == Generate || batch.kind == Import)
    && (forall i :: 0 <= i < |drafts| ==> drafts[i].scaleKey == batch.scaleKey)
    && (batch.scaleKey != "" ==>
          batch.kind == Import && ImportedLive(bank, batch.scaleKey) == {}
          && forall i :: 0 <= i < |drafts| ==> drafts[i].source == Numbering.Scale)
  }

  lemma GrownLive(bank: Bank, batchId: BatchId, batch: Batch, drafts: seq<Draft>, ids: seq<QuestionId>, nos: seq<string>)
    requires RowsSound(bank) && |ids| == |drafts| == |nos| && batchId !in bank.batches && FreshIds(bank, ids)
    ensures Live(Grown(bank, batchId, batch, drafts, ids, nos), batchId) == IdSet(ids)
  {
    var after := Grown(bank, batchId, batch, drafts, ids, nos);
    GrownRows(bank, batchId, batch, drafts, ids, nos);
    NoLiveWithoutBatch(bank, batchId);
    forall q ensures q in Live(after, batchId) <==> q in IdSet(ids) {
      if q in ids {
        var i :| 0 <= i < |ids| && ids[i] == q;
      } else if q in bank.questions {
        assert q !in Live(bank, batchId);
      }
    }
  }

  lemma GrownLeavesLive(bank: Bank, batchId: BatchId, batch: Batch, drafts: seq<Draft>, ids: seq<QuestionId>, nos: seq<string>, b: BatchId)
    requires |ids| == |drafts| == |nos| && FreshIds(bank, ids) && b != batchId
    ensures Live(Grown(bank, batchId, batch, drafts, ids, nos), b) == Live(bank, b)
  {
    var after := Grown(bank, batchId, batch, drafts, ids, nos);
    GrownRows(bank, batchId, batch, drafts, ids, nos);
    forall q ensures q in Live(after, b) <==> q in Live(bank, b) {
      if q in ids {
        var i :| 0 <= i < |ids| && ids[i] == q;
      }
    }
  }

  lemma GrownCounts(bank: Bank, batchId: BatchId, batch: Batch, drafts: seq<Draft>, ids: seq<QuestionId>, nos: seq<string>)
    requires RowsSound(bank) && CountsMatch(bank) && GoodBatch(bank, batch, drafts)
    requires |ids| == |drafts| == |nos| && batchId !in bank.batches && FreshIds(bank, ids)
    ensures CountsMatch(Grown(bank, batchId, batch, drafts, ids, nos))
  {
    var after := Grown(bank, batchId, batch, drafts, ids, nos);
    forall b | IsOpen(after, b) ensures after.batches[b].count == |Live(after, b)| {
      if b == batchId {
        GrownLive(bank, batchId, batch, drafts, ids, nos);
        DistinctCount(ids);
      } else {
        GrownLeavesLive(bank, batchId, batch, drafts, ids, nos, b);
        assert IsOpen(bank, b);
      }
    }
  }

  lemma GrownRowsSound(bank: Bank, batchId: BatchId, batch: Batch, drafts: seq<Draft>, ids: seq<QuestionId>, nos: seq<string>)
    requires ReviewSound(bank) && GoodBatch(bank, batch, drafts)
    requires |ids| == |drafts| == |nos| && batchId !in bank.batches && FreshIds(bank, ids)
    ensures RowsSound(Grown(bank, batchId, batch, drafts, ids, nos))
    ensures OneBatchPerScale(Grown(bank, batchId, batch, drafts, ids, nos))
  {
    var after := Grown(bank, batchId, batch, drafts, ids, nos);
    GrownRows(bank, batchId, batch, drafts, ids, nos);
    forall q | IsLive(after, q)
      ensures RowSound(after.batches, after.questions[q])
      ensures q in ids ==> after.questions[q].scaleKey == batch.scaleKey && after.questions[q].batchId == batchId
      ensures q !in ids ==> IsLive(bank, q) && after.questions[q] == bank.questions[q]
      ensures q !in ids && batch.scaleKey != "" ==> after.questions[q].scaleKey != batch.scaleKey
    {
      if q in ids {
        var i :| 0 <= i < |ids| && ids[i] == q;
      } else {
        assert RowSound(bank.batches, bank.questions[q]);
        assert q in ImportedLive(bank, bank.questions[q].scaleKey);
      }
    }
  }

  /** A batch of new questions of one scale (or of none) keeps the review sound. */
  lemma CreateKeepsReview(bank: Bank, batchId: BatchId, batch: Batch, drafts: seq<Draft>, ids: seq<QuestionId>)
    requires ReviewSound(bank) && GoodBatch(bank, batch, drafts) && |ids| == |drafts|
    ensures ReviewSound(CreateBatch(bank, batchId, batch, drafts, ids))
  {
    if CreateBatch(bank, batchId, batch, drafts, ids) != bank {
      GrownKeepsReview(bank, batchId, batch, drafts, ids, Numbering.Block(Nos(bank), Sources(drafts)));
    }
  }

  lemma GrownKeepsReview(bank: Bank, batchId: BatchId, batch: Batch, drafts: seq<Draft>, ids: seq<QuestionId>, nos: seq<string>)
    requires ReviewSound(bank) && GoodBatch(bank, batch, drafts)
    requires |ids| == |drafts| == |nos| && batchId !in bank.batches && FreshIds(bank, ids)
    ensures ReviewSound(Grown(bank, batchId, batch, drafts, ids, nos))
  {
    GrownRowsSound(bank, batchId, batch, drafts, ids, nos);
    GrownCounts(bank, batchId, batch, drafts, ids, nos);
    assert OpenResubmits(Grown(bank, batchId, batch, drafts, ids, nos)) == OpenResubmits(bank);
  }

  // ---------------------------------------------------------------- numbers

  ghost predicate QuestionNosUnique(bank: Bank) {
    forall q, r :: q in bank.questions && r in bank.questions && bank.questions[q].no == bank.questions[r].no ==> q == r
  }

  /** Every batch number was issued under a six-character stem: '#', a letter and the day. */
  ghost predicate BatchNosSound(bank: Bank) {
    && (forall b :: b in bank.batches ==> HasStem(bank.batches[b].no))
    && (forall b, c :: b in bank.batches && c in bank.batches && bank.batches[b].no == bank.batches[c].no ==> b == c)
  }

  ghost predicate HasStem(no: string) {
    exists stem: string, k: nat :: |stem| == 6 && k >= 1 && no == Numbering.BatchNo(stem, k)
  }

  /** Numbers are unique over live and deleted rows and were all issued in sequence. */
  ghost predicate NumbersSound(bank: Bank) {
    Numbering.QuestionNosIssued(Nos(bank)) && QuestionNosUnique(bank) && BatchNosSound(bank)
  }

  lemma StemIsIssued(bank: Bank, stem: string)
    requires BatchNosSound(bank) && |stem| == 6
    ensures Numbering.BatchNosIssued(BatchNos(bank), stem)
  {
    forall x | x in Numbering.WithPrefix(BatchNos(bank), stem)
      ensures exists k: nat :: k >= 1 && x == Numbering.BatchNo(stem, k)
    {
      var b :| b in bank.batches && bank.batches[b].no == x;
      assert HasStem(x);
      var st: string, k: nat :| |st| == 6 && k >= 1 && x == Numbering.BatchNo(st, k);
      Numbering.BatchNoTail(st, k);
      assert st == x[..6] == stem;
    }
  }

  /** Under sound numbers the query for the next batch number never fails and never collides. */
  lemma NextBatchNoFree(bank: Bank, stem: string)
    requires BatchNosSound(bank) && |stem| == 6
    ensures var no := Numbering.NextBatchNo(BatchNos(bank), stem);
            no.Some? && no.value !in BatchNos(bank) && HasStem(no.value)
  {
    StemIsIssued(bank, stem);
    var k := Numbering.NextBatchNoIsSuccessor(BatchNos(bank), stem);
  }

  lemma OneMoreBatchNo(bank: Bank, batchId: BatchId, batch: Batch)
    requires BatchNosSound(bank) && batchId !in bank.batches && batch.no !in BatchNos(bank) && HasStem(batch.no)
    ensures BatchNosSound(bank.(batches := bank.batches[batchId := batch]))
  {
    forall b | b in bank.batches ensures bank.batches[b].no in BatchNos(bank) {}
  }

  /** Creating a batch issues fresh numbers: the unique indexes on numbers are never the ones to refuse. */
  lemma CreateKeepsNumbers(bank: Bank, batchId: BatchId, batch: Batch, drafts: seq<Draft>, ids: seq<QuestionId>)
    requires NumbersSound(bank) && |ids| == |drafts| && HasStem(batch.no)
    ensures NumbersSound(CreateBatch(bank, batchId, batch, drafts, ids))
    ensures batchId !in bank.batches && batch.no !in BatchNos(bank) && FreshIds(bank, ids) ==>
              CreateBatch(bank, batchId, batch, drafts, ids).batches == bank.batches[batchId := batch]
  {
    var nos := Numbering.Block(Nos(bank), Sources(drafts));
    Numbering.BlockIsOneAtATime(Nos(bank), Sources(drafts));
    Numbering.OneAtATimeFresh(Nos(bank), Sources(drafts));
    var after := CreateBatch(bank, batchId, batch, drafts, ids);
    if after != bank {
      assert after == Grown(bank, batchId, batch, drafts, ids, nos);
      OneMoreBatchNo(bank, batchId, batch);
      GrownNos(bank, batchId, batch, drafts, ids, nos);
      GrownNosUnique(bank, batchId, batch, drafts, ids, nos);
    }
  }

  lemma GrownNos(bank: Bank, batchId: BatchId, batch: Batch, drafts: seq<Draft>, ids: seq<QuestionId>, nos: seq<string>)
    requires |ids| == |drafts| == |nos| && FreshIds(bank, ids)
    ensures Nos(Grown(bank, batchId, batch, drafts, ids, nos)) == Nos(bank) + Numbering.Elements(nos)
  {
    var after := Grown(bank, batchId, batch, drafts, ids, nos);
    GrownRows(bank, batchId, batch, drafts, ids, nos);
    forall q | q in bank.questions ensures bank.questions[q].no in Nos(after) {
      assert q in after.questions;
    }
    forall i | 0 <= i < |nos| ensures nos[i] in Nos(after) {
      assert ids[i] in after.questions;
    }
    forall q | q in after.questions ensures after.questions[q].no in Nos(bank) + Numbering.Elements(nos) {
      if q in ids { var i :| 0 <= i < |ids| && ids[i] == q; }
    }
  }

  lemma GrownNosUnique(bank: Bank, batchId: BatchId, batch: Batch, drafts: seq<Draft>, ids: seq<QuestionId>, nos: seq<string>)
    requires |ids| == |drafts| == |nos| && FreshIds(bank, ids) && QuestionNosUnique(bank)
    requires Numbering.FreshBlock(Nos(bank), Sources(drafts), nos)
    ensures QuestionNosUnique(Grown(bank, batchId, batch, drafts, ids, nos))
  {
    var after := Grown(bank, batchId, batch, drafts, ids, nos);
    forall q, r | q in after.questions && r in after.questions && after.questions[q].no == after.questions[r].no
      ensures q == r
    {
      var i := GrownPlace(bank, batchId, batch, drafts, ids, nos, q);
      var j := GrownPlace(bank, batchId, batch, drafts, ids, nos, r);
    }
  }

  /** A row of the grown bank keeps its old number, or has the number at its place in the new block. */
  lemma GrownPlace(bank: Bank, batchId: BatchId, batch: Batch, drafts: seq<Draft>, ids: seq<QuestionId>, nos: seq<string>, q: QuestionId)
    returns (i: nat)
    requires |ids| == |drafts| == |nos| && FreshIds(bank, ids) && q in Grown(bank, batchId, batch, drafts, ids, nos).questions
    ensures i <= |ids|
    ensures var no := Grown(bank, batchId, batch, drafts, ids, nos).questions[q].no;
            if i < |ids| then ids[i] == q && no == nos[i]
            else q in bank.questions && no == bank.questions[q].no && no in Nos(bank)
  {
    GrownRows(bank, batchId, batch, drafts, ids, nos);
    if q in bank.questions {
      i := |ids|;
    } else {
      i :| 0 <= i < |ids| && ids[i] == q;
    }
  }

  // ---------------------------------------------------------------- generation sessions

  /** Each generated batch belongs to exactly one completed session, and each completed session to one. */
  ghost predicate GenerationsSound(bank: Bank) {
    && (forall g :: g in bank.generations && bank.generations[g].Completed? ==>
          bank.generations[g].batchId in bank.batches && bank.batches[bank.generations[g].batchId].kind == Generate)
    && (forall b :: b in bank.batches && bank.batches[b].kind == Generate ==> HasSession(bank, b))
    && (forall g, h :: g in bank.generations && h in bank.generations && bank.generations[g].Completed? ==>
          bank.generations[g] == bank.generations[h] ==> g == h)
  }

  ghost predicate HasSession(bank: Bank, b: BatchId) {
    exists g :: g in bank.generations && bank.generations[g] == Completed(b)
  }

  ghost predicate BankSound(bank: Bank) {
    ReviewSound(bank) && NumbersSound(bank) && GenerationsSound(bank)
  }

  lemma EmptyBankIsSound()
    ensures BankSound(EMPTY)
  {
  }

  /** Batches may change status or count and gain resubmissions; sessions stay as they are. */
  ghost predicate SameGenerated(bank: Bank, after: Bank) {
    && after.generations == bank.generations
    && (forall b :: b in bank.batches ==> b in after.batches && after.batches[b].kind == bank.batches[b].kind
                                          && after.batches[b].no == bank.batches[b].no)
    && (forall b :: b in after.batches && b !in bank.batches ==> after.batches[b].kind != Generate)
  }

  lemma SameGeneratedKeepsSessions(bank: Bank, after: Bank)
    requires GenerationsSound(bank) && SameGenerated(bank, after)
    ensures GenerationsSound(after)
  {
    forall b | b in after.batches && after.batches[b].kind == Generate ensures HasSession(after, b) {
      assert HasSession(bank, b);
    }
  }

  /** Existing rows keep their numbers and no row appears or disappears. */
  ghost predicate SameNos(bank: Bank, after: Bank) {
    && after.questions.Keys == bank.questions.Keys
    && (forall q :: q in bank.questions ==> after.questions[q].no == bank.questions[q].no)
  }

  lemma SameNosKeepNumbers(bank: Bank, after: Bank)
    requires NumbersSound(bank) && SameNos(bank, after) && BatchNosSound(after)
    ensures NumbersSound(after)
  {
    assert Nos(after) == Nos(bank) by {
      forall q | q in bank.questions ensures bank.questions[q].no in Nos(after) { assert q in after.questions; }
    }
  }

  /** Everything but the transactions that create a batch of questions. */
  predicate CreatesQuestions(op: Op) {
    op.FinishGeneration? || op.ImportScale?
  }

  lemma ReviewOpKeepsReview(bank: Bank, op: Op)
    requires ReviewSound(bank) && GoodOp(op) && Allowed(bank, op) && !CreatesQuestions(op)
    ensures ReviewSound(Apply(bank, op))
  {
    var after := Apply(bank, op);
    if after != bank {
      match op {
        case Confirm(batchId, rejected) => ConfirmKeepsReview(bank, batchId, rejected);
        case Void(batchId) => VoidKeepsReview(bank, batchId);
        case ResubmitTo(_, _, _, _, _, _) => ResubmitKeepsReview(bank, op);
        case AddReferences(used) => ReferencesKeepReview(bank, used);
        case UpdateContent(qid, _, _) =>
          assert RowSound(bank.batches, bank.questions[qid]);
          RowUpdateKeepsReview(bank, qid, after.questions[qid]);
        case UpdateStatus(qid, _, _) =>
          assert RowSound(bank.batches, bank.questions[qid]);
          RowUpdateKeepsReview(bank, qid, after.questions[qid]);
        case SoftDelete(qid, _) => RowUpdateKeepsReview(bank, qid, after.questions[qid]);
        case _ => GenerationOpKeepsReview(bank, after);
      }
    }
  }

  lemma GenerationOpKeepsReview(bank: Bank, after: Bank)
    requires ReviewSound(bank) && after == bank.(generations := after.generations)
    ensures ReviewSound(after)
  {
    assert SameOpenBatches(bank, after) by {
      forall b | IsOpen(after, b) ensures Live(after, b) == Live(bank, b) {}
    }
    SameOpenBatchesKeepCounts(bank, after);
    assert forall q :: IsLive(after, q) <==> IsLive(bank, q);
    assert OpenResubmits(after) == OpenResubmits(bank);
  }

  /** The batch table keeps its rows, their numbers and their kinds. */
  ghost predicate SameBatches(bank: Bank, after: Bank) {
    after.batches.Keys == bank.batches.Keys
    && forall b :: b in bank.batches ==> after.batches[b].no == bank.batches[b].no && after.batches[b].kind == bank.batches[b].kind
  }

  lemma SameBatchesKeepNos(bank: Bank, after: Bank)
    requires BatchNosSound(bank) && SameBatches(bank, after)
    ensures BatchNosSound(after)
  {
  }

  lemma OtherOpsKeepTables(bank: Bank, op: Op)
    requires !CreatesQuestions(op) && !op.ResubmitTo?
    ensures SameNos(bank, Apply(bank, op)) && SameBatches(bank, Apply(bank, op))
  {
  }

  lemma ResubmitKeepsQuestions(bank: Bank, op: Op)
    requires op.ResubmitTo?
    ensures SameNos(bank, Apply(bank, op)) && Apply(bank, op).generations == bank.generations
  {
  }

  /** A resubmission either raises a count or adds one batch under a freshly issued number. */
  lemma ResubmitTables(bank: Bank, op: Op)
    requires op.ResubmitTo? && Apply(bank, op) != bank
    ensures var after := Apply(bank, op);
            match FindPendingResubmit(bank) {
              case Some(_) => SameBatches(bank, after)
              case None =>
                var no := Numbering.NextBatchNo(BatchNos(bank), "#R" + op.day);
                no.Some? && op.batchId !in bank.batches
                && after.batches == bank.batches[op.batchId := Batch(no.value, Numbering.AI, Resubmit, Open, 1, "", op.now)]
            }
  {
  }

  lemma ResubmitKeepsTables(bank: Bank, op: Op)
    requires BatchNosSound(bank) && GoodOp(op) && op.ResubmitTo? && Apply(bank, op) != bank
    ensures BatchNosSound(Apply(bank, op))
    ensures SameGenerated(bank, Apply(bank, op))
  {
    var after := Apply(bank, op);
    ResubmitTables(bank, op);
    ResubmitKeepsQuestions(bank, op);
    match FindPendingResubmit(bank) {
      case Some(b) => SameBatchesKeepNos(bank, after);
      case None =>
        var batch := after.batches[op.batchId];
        NextBatchNoFree(bank, "#R" + op.day);
        OneMoreBatchNo(bank, op.batchId, batch);
        SameBatchesKeepNos(bank.(batches := bank.batches[op.batchId := batch]), after);
    }
  }

  lemma ReviewOpKeepsTables(bank: Bank, op: Op)
    requires BatchNosSound(bank) && GoodOp(op) && !CreatesQuestions(op)
    ensures SameNos(bank, Apply(bank, op))
    ensures BatchNosSound(Apply(bank, op))
    ensures SameGenerated(bank, Apply(bank, op).(generations := bank.generations))
  {
    var after := Apply(bank, op);
    if !op.ResubmitTo? {
      OtherOpsKeepTables(bank, op);
      SameBatchesKeepNos(bank, after);
    } else if after != bank {
      ResubmitKeepsQuestions(bank, op);
      ResubmitKeepsTables(bank, op);
    }
  }

  /** The completed sessions are the same. */
  ghost predicate SameCompleted(bank: Bank, after: Bank) {
    && (forall g :: g in bank.generations && bank.generations[g].Completed? ==>
          g in after.generations && after.generations[g] == bank.generations[g])
    && (forall g :: g in after.generations && after.generations[g].Completed? ==>
          g in bank.generations && after.generations[g] == bank.generations[g])
  }

  lemma SessionOpShape(bank: Bank, op: Op)
    requires !CreatesQuestions(op) && Apply(bank, op).generations != bank.generations
    ensures Apply(bank, op) == bank.(generations := Apply(bank, op).generations) && SameCompleted(bank, Apply(bank, op))
  {
  }

  lemma SameCompletedKeepsSessions(bank: Bank, after: Bank)
    requires GenerationsSound(bank) && after.batches == bank.batches && SameCompleted(bank, after)
    ensures GenerationsSound(after)
  {
    forall b | b in after.batches && after.batches[b].kind == Generate ensures HasSession(after, b) {
      assert HasSession(bank, b);
    }
  }

  lemma SessionOpKeepsSessions(bank: Bank, op: Op)
    requires GenerationsSound(bank) && BatchNosSound(bank) && GoodOp(op) && !CreatesQuestions(op)
    ensures GenerationsSound(Apply(bank, op))
  {
    var after := Apply(bank, op);
    if after.generations == bank.generations {
      ReviewOpKeepsTables(bank, op);
      SameGeneratedKeepsSessions(bank, after);
    } else {
      SessionOpShape(bank, op);
      SameCompletedKeepsSessions(bank, after);
    }
  }

  lemma SessionsDoNotMatter(bank: Bank, after: Bank)
    requires ReviewSound(bank) && NumbersSound(bank) && after == bank.(generations := after.generations)
    ensures ReviewSound(after) && NumbersSound(after)
  {
    GenerationOpKeepsReview(bank, after);
    SameNosKeepNumbers(bank, after);
  }

  /** The stem, the questions and the batch of a creating transaction. */
  function StemOf(op: Op): string
    requires CreatesQuestions(op)
  {
    (if op.FinishGeneration? then "#G" else "#S") + op.day
  }

  function DraftsOf(op: Op): seq<Draft>
    requires CreatesQuestions(op)
  {
    if op.FinishGeneration? then GeneratedDrafts(op.contents) else ScaleDrafts(op.contents, op.scaleKey)
  }

  function BatchOf(op: Op, no: string): Batch
    requires CreatesQuestions(op)
  {
    if op.FinishGeneration? then Batch(no, Numbering.AI, Generate, Open, |op.contents|, "", op.now)
    else Batch(no, Numbering.Scale, Import, Open, |op.contents|, op.scaleKey, op.now)
  }

  lemma CreatedIff(bank: Bank, batchId: BatchId, batch: Batch, drafts: seq<Draft>, ids: seq<QuestionId>)
    requires |ids| == |drafts|
    ensures CreateBatch(bank, batchId, batch, drafts, ids) != bank <==> Creatable(bank, batchId, batch.no, drafts, ids)
    ensures CreateBatch(bank, batchId, batch, drafts, ids).generations == bank.generations
  {
    var after := CreateBatch(bank, batchId, batch, drafts, ids);
    if Creatable(bank, batchId, batch.no, drafts, ids) {
      assert batchId in after.batches && batchId !in bank.batches;
    }
  }

  /** A finished generation in terms of the bank its batch creation leaves. */
  function Finished(bank: Bank, gid: GenerationId, batchId: BatchId, created: Bank): Bank {
    if gid !in bank.generations || bank.generations[gid] != Running || created == bank then bank
    else created.(generations := bank.generations[gid := Generation.Completed(batchId)])
  }

  lemma FinishCases(bank: Bank, gid: GenerationId, batchId: BatchId, day: string, contents: seq<Content>, ids: seq<QuestionId>, now: int, no: string)
    requires |ids| == |contents| && Numbering.NextBatchNo(BatchNos(bank), "#G" + day) == Some(no)
    ensures Apply(bank, FinishGeneration(gid, batchId, day, contents, ids, now))
         == Finished(bank, gid, batchId,
                     CreateBatch(bank, batchId, Batch(no, Numbering.AI, Generate, Open, |contents|, "", now), GeneratedDrafts(contents), ids))
  {
  }

  /** Both creating transactions add one batch with its questions, and at most touch a session. */
  lemma CreatedShape(bank: Bank, op: Op) returns (no: string)
    requires CreatesQuestions(op) && Apply(bank, op) != bank
    ensures |op.ids| == |DraftsOf(op)| && Numbering.NextBatchNo(BatchNos(bank), StemOf(op)) == Some(no)
    ensures var mid := CreateBatch(bank, op.batchId, BatchOf(op, no), DraftsOf(op), op.ids);
            mid != bank && Apply(bank, op) == mid.(generations := Apply(bank, op).generations)
  {
    no := Numbering.NextBatchNo(BatchNos(bank), StemOf(op)).value;
  }

  lemma CreatedBatchIsGood(bank: Bank, op: Op, no: string)
    requires CreatesQuestions(op) && GoodOp(op) && (op.ImportScale? ==> ImportedLive(bank, op.scaleKey) == {})
    ensures GoodBatch(bank, BatchOf(op, no), DraftsOf(op))
  {
  }

  lemma CreateOpKeepsBankSound(bank: Bank, op: Op)
    requires BankSound(bank) && GoodOp(op) && CreatesQuestions(op)
    ensures BankSound(Apply(bank, op))
  {
    var after := Apply(bank, op);
    if after != bank {
      var no := CreatedShape(bank, op);
      var batch, drafts := BatchOf(op, no), DraftsOf(op);
      CreatedBatchIsGood(bank, op, no);
      NextBatchNoFree(bank, StemOf(op));
      CreateKeepsReview(bank, op.batchId, batch, drafts, op.ids);
      CreateKeepsNumbers(bank, op.batchId, batch, drafts, op.ids);
      SessionsDoNotMatter(CreateBatch(bank, op.batchId, batch, drafts, op.ids), after);
      NewBatchKeepsSessions(bank, op, after);
    }
  }

  lemma NewBatchKeepsSessions(bank: Bank, op: Op, after: Bank)
    requires GenerationsSound(bank) && CreatesQuestions(op)
    requires op.batchId !in bank.batches && op.batchId in after.batches
    requires after.batches == bank.batches[op.batchId := after.batches[op.batchId]]
    requires after.batches[op.batchId].kind == if op.FinishGeneration? then Generate else Import
    requires after.generations == if op.FinishGeneration? then bank.generations[op.gid := Completed(op.batchId)] else bank.generations
    requires op.FinishGeneration? ==> op.gid in bank.generations && !bank.generations[op.gid].Completed?
    ensures GenerationsSound(after)
  {
    forall b | b in after.batches && after.batches[b].kind == Generate ensures HasSession(after, b) {
      if b == op.batchId {
        assert after.generations[op.gid] == Completed(b);
      } else {
        assert HasSession(bank, b);
        var g :| g in bank.generations && bank.generations[g] == Completed(b);
        assert after.generations[g] == Completed(b);
      }
    }
  }

  /** Every transaction whose service check still holds at its write keeps the whole bank sound. */
  lemma OpKeepsBankSound(bank: Bank, op: Op)
    requires BankSound(bank) && GoodOp(op) && Allowed(bank, op)
    ensures BankSound(Apply(bank, op))
  {
    if CreatesQuestions(op) {
      CreateOpKeepsBankSound(bank, op);
    } else {
      ReviewOpKeepsReview(bank, op);
      ReviewOpKeepsTables(bank, op);
      SameNosKeepNumbers(bank, Apply(bank, op));
      SessionOpKeepsSessions(bank, op);
    }
  }

  // ---------------------------------------------------------------- what the steps achieve

  lemma OpenBatchIsPending(bank: Bank, batchId: BatchId, q: QuestionId)
    requires ReviewSound(bank) && IsOpen(bank, batchId) && q in Live(bank, batchId)
    ensures bank.questions[q].status == Pending
  {
    assert IsLive(bank, q);
    assert RowSound(bank.batches, bank.questions[q]);
  }

  /** A committed confirm admits or rejects every question of the batch: the two counts add up to the
      stored count whatever ids were sent. */
  lemma ConfirmAccountsForEveryQuestion(bank: Bank, batchId: BatchId, rejected: map<QuestionId, string>)
    requires BankSound(bank) && IsOpen(bank, batchId)
    ensures |AdmittedIn(bank, batchId, rejected)| + |RejectedIn(bank, batchId, rejected)| == bank.batches[batchId].count
  {
    SettledSplit(bank, batchId, rejected);
    DisjointSizes(AdmittedIn(bank, batchId, rejected), RejectedIn(bank, batchId, rejected));
  }

  lemma SettledSplit(bank: Bank, batchId: BatchId, rejected: map<QuestionId, string>)
    requires ReviewSound(bank) && IsOpen(bank, batchId)
    ensures Live(bank, batchId) == AdmittedIn(bank, batchId, rejected) + RejectedIn(bank, batchId, rejected)
    ensures AdmittedIn(bank, batchId, rejected) !! RejectedIn(bank, batchId, rejected)
  {
    forall q | q in Live(bank, batchId) ensures bank.questions[q].status == Pending {
      OpenBatchIsPending(bank, batchId, q);
    }
  }

  lemma DisjointSizes(a: set<QuestionId>, b: set<QuestionId>)
    requires a !! b
    ensures |a + b| == |a| + |b|
  {
  }

  /** Confirming settles each question of the batch in one version step and touches no other row. */
  lemma ConfirmSettlesEachOnce(bank: Bank, batchId: BatchId, rejected: map<QuestionId, string>, q: QuestionId)
    requires BankSound(bank) && IsOpen(bank, batchId) && q in bank.questions
    ensures var row := Apply(bank, Confirm(batchId, rejected)).questions[q];
            if q in Live(bank, batchId) then
              row.version == bank.questions[q].version + 1
              && row.status == (if q in rejected then Rejected else Active)
              && row.reason == (if q in rejected then rejected[q] else "")
            else row == bank.questions[q]
  {
    if q in Live(bank, batchId) { OpenBatchIsPending(bank, batchId, q); }
  }

  /** Voiding a resubmission batch rejects its questions again and keeps everything else of them. */
  lemma VoidRejects(bank: Bank, b: BatchId, q: QuestionId)
    requires q in Live(bank, b) && IsOpen(bank, b) && bank.batches[b].kind == Resubmit
    ensures var after := Apply(bank, Void(b));
            q in Live(after, b)
            && after.questions[q] == bank.questions[q].(status := Rejected, version := bank.questions[q].version + 1)
  {
  }

  /** Settling an open batch closes or voids it, once; every other batch and every session stays. */
  lemma SettlingClosesOnce(bank: Bank, b: BatchId, rejected: map<QuestionId, string>)
    requires IsOpen(bank, b)
    ensures var (closed, voided) := (Apply(bank, Confirm(b, rejected)), Apply(bank, Void(b)));
            && closed.batches == bank.batches[b := bank.batches[b].(status := Closed)] && closed.generations == bank.generations
            && voided.batches == bank.batches[b := bank.batches[b].(status := Voided)] && voided.generations == bank.generations
            && Apply(closed, Confirm(b, rejected)) == Apply(closed, Void(b)) == closed
            && Apply(voided, Confirm(b, rejected)) == Apply(voided, Void(b)) == voided
  {
  }

  /** Voiding any other batch deletes its questions; rows outside the voided batch stay. */
  lemma VoidDeletes(bank: Bank, b: BatchId, q: QuestionId)
    requires IsOpen(bank, b) && q in bank.questions
    ensures var after := Apply(bank, Void(b));
            && q in after.questions
            && (q !in Live(bank, b) ==> after.questions[q] == bank.questions[q])
            && (q in Live(bank, b) && bank.batches[b].kind != Resubmit ==> after.questions[q] == bank.questions[q].(deleted := true))
  {
  }

  /** A generation session is queued once, claimed from the queue, and ended while it has not ended; a
      session step changes nothing else. */
  lemma SessionSteps(bank: Bank, gid: GenerationId)
    ensures var was := if gid in bank.generations then Some(bank.generations[gid]) else None;
            && Apply(bank, QueueGeneration(gid)) == (if was == None then WithSession(bank, gid, Queued) else bank)
            && Apply(bank, RunGeneration(gid)) == (if was == Some(Queued) then WithSession(bank, gid, Running) else bank)
            && Apply(bank, EndGeneration(gid)) == if was in {Some(Queued), Some(Running)} then WithSession(bank, gid, Ended) else bank
  {
  }

  function WithSession(bank: Bank, gid: GenerationId, g: Generation): Bank {
    Bank(bank.questions, bank.batches, bank.generations[gid := g])
  }

  /** Only confirming its own batch ever changes the reason of a question. */
  lemma OnlyConfirmChangesReasons(bank: Bank, op: Op, q: QuestionId)
    requires q in bank.questions
    requires !(op.Confirm? && q in Live(bank, op.batchId))
    requires CreatesQuestions(op) ==> q !in op.ids
    ensures q in Apply(bank, op).questions && Apply(bank, op).questions[q].reason == bank.questions[q].reason
  {
    if CreatesQuestions(op) && Apply(bank, op) != bank {
      CreateLeavesRows(bank, op, q);
    }
  }

  lemma CreateLeavesRows(bank: Bank, op: Op, q: QuestionId)
    requires q in bank.questions && CreatesQuestions(op)
    ensures q in Apply(bank, op).questions && Apply(bank, op).questions[q] == bank.questions[q]
  {
    var after := Apply(bank, op);
    if after != bank {
      var no := CreatedShape(bank, op);
      var drafts := DraftsOf(op);
      var nos := Numbering.Block(Nos(bank), Sources(drafts));
      GrownRows(bank, op.batchId, BatchOf(op, no), drafts, op.ids, nos);
      assert after.questions == Grown(bank, op.batchId, BatchOf(op, no), drafts, op.ids, nos).questions;
    }
  }
}
