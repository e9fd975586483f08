/** Runs of the question services that start from empty tables and end where a check no longer helps. */
module QuestionStories {
  import opened Base
  import opened QuestionBank
  import opened QuestionReview
  import opened QuestionService
  import opened QuestionRuns
  import opened BankService
  import Numbering

  const CONTENT := Content(1, "scenario", "requirement", "focus")

  ghost function From(steps: seq<Step>): World {
    Play(World(EMPTY, map[]), steps)
  }

  ghost predicate Reaches(steps: seq<Step>, w: World) {
    (forall i :: 0 <= i < |steps| ==> GoodStep(steps[i])) && From(steps) == w
  }

  lemma {:induction false} PlayOneMore(w: World, steps: seq<Step>, s: Step)
    ensures Play(w, steps + [s]) == Advance(Play(w, steps), s)
    decreases |steps|
  {
    if steps == [] {
      assert [s][1..] == [];
    } else {
      assert (steps + [s])[1..] == steps[1..] + [s];
      PlayOneMore(Advance(w, steps[0]), steps[1..], s);
    }
  }

  lemma Extend(steps: seq<Step>, w: World, s: Step) returns (more: seq<Step>)
    requires Reaches(steps, w) && GoodStep(s)
    ensures Reaches(more, Advance(w, s))
  {
    PlayOneMore(World(EMPTY, map[]), steps, s);
    more := steps + [s];
  }

  lemma Sound(steps: seq<Step>, w: World)
    requires Reaches(steps, w)
    ensures BankSound(w.bank)
  {
    EmptyBankIsSound();
    EveryRunIsSound(World(EMPTY, map[]), steps);
  }

  /** One generation session under way and nothing else. */
  lemma Start() returns (steps: seq<Step>)
    ensures Reaches(steps, World(EMPTY.(generations := map[0 := Running]), map[]))
  {
    var queue, run := Tx(QueueGeneration(0)), Tx(RunGeneration(0));
    steps := Extend([], World(EMPTY, map[]), queue);
    steps := Extend(steps, Advance(World(EMPTY, map[]), queue), run);
  }

  /** Three generated questions wait in the open batch 0. */
  ghost predicate ThreeWait(bank: Bank) {
    && bank.batches.Keys == {0} && IsOpen(bank, 0) && Live(bank, 0) == {0, 1, 2}
    && (forall q :: q in {0, 1, 2} ==>
          q in bank.questions && CreatedRow(Draft(Numbering.AI, "", CONTENT), 0, bank.questions[q]))
  }

  lemma Generate() returns (steps: seq<Step>, bank: Bank)
    ensures Reaches(steps, World(bank, map[])) && ThreeWait(bank)
  {
    var before := Start();
    var running := EMPTY.(generations := map[0 := Running]);
    var op := FinishGeneration(0, 0, "0101", [CONTENT, CONTENT, CONTENT], [0, 1, 2], 0);
    Sound(before, World(running, map[]));
    GeneratesThree(running, op);
    steps := Extend(before, World(running, map[]), Tx(op));
    bank := Apply(running, op);
  }

  lemma GeneratesThree(bank: Bank, op: Op)
    requires BankSound(bank) && bank == EMPTY.(generations := map[0 := Running])
    requires op == FinishGeneration(0, 0, "0101", [CONTENT, CONTENT, CONTENT], [0, 1, 2], 0)
    ensures ThreeWait(Apply(bank, op))
  {
    NextBatchNoFree(bank, StemOf(op));
    CreatesGrown(bank, op, Numbering.NextBatchNo(BatchNos(bank), StemOf(op)).value);
    ThreeRows(Apply(bank, op), op.ids, DraftsOf(op));
  }

  lemma ThreeRows(bank: Bank, ids: seq<QuestionId>, drafts: seq<Draft>)
    requires ids == [0, 1, 2] && drafts == GeneratedDrafts([CONTENT, CONTENT, CONTENT])
    requires bank.batches.Keys == {0} && IsOpen(bank, 0) && Live(bank, 0) == IdSet(ids)
    requires forall i :: 0 <= i < |ids| ==> ids[i] in bank.questions && CreatedRow(drafts[i], 0, bank.questions[ids[i]])
    ensures ThreeWait(bank)
  {
    assert ids[0] == 0 && ids[1] == 1 && ids[2] == 2;
  }

  /** Questions 0 and 1 were rejected and question 2 admitted, each at version 2. */
  ghost predicate Reviewed(bank: Bank) {
    && bank.batches.Keys == {0} && !IsOpen(bank, 0)
    && (forall q :: q in {0, 1, 2} ==>
          IsLive(bank, q) && bank.questions[q].version == 2 && bank.questions[q].references == 0
          && bank.questions[q].source == Numbering.AI
          && bank.questions[q].status == if q == 2 then Active else Rejected)
  }

  lemma Review() returns (steps: seq<Step>, bank: Bank)
    ensures Reaches(steps, World(bank, map[])) && Reviewed(bank)
  {
    var before, waiting := Generate();
    var op := Confirm(0, map[0 := "unclear", 1 := "unclear"]);
    steps := Extend(before, World(waiting, map[]), Tx(op));
    ReviewsThree(waiting, op.rejected);
    bank := Apply(waiting, op);
  }

  lemma ReviewsThree(bank: Bank, rejected: map<QuestionId, string>)
    requires ThreeWait(bank) && rejected == map[0 := "unclear", 1 := "unclear"]
    ensures Reviewed(Apply(bank, Confirm(0, rejected)))
  {
  }

  /** A call that reads and writes with nothing in between. */
  lemma Undisturbed(steps: seq<Step>, bank: Bank, c: InFlight, batchId: BatchId) returns (more: seq<Step>)
    requires Reaches(steps, World(bank, map[])) && IsLive(bank, c.qid) && c.version <= bank.questions[c.qid].version
    requires ReadCheck(c.intent, bank.questions[c.qid])
    ensures Reaches(more, World(Apply(bank, OpOf(c, batchId, "0101", 0)), map[]))
  {
    var begin := Begin(0, c.intent, c.qid, c.version);
    more := Extend(steps, World(bank, map[]), begin);
    var mid := World(bank, map[0 := c]);
    assert Advance(World(bank, map[]), begin) == mid;
    more := Extend(more, mid, Commit(0, batchId, "0101", 0));
    assert mid.calls - {0} == map[];
  }

  /** Question 0 waits again, alone in the open resubmission batch 1; question 1 is rejected. */
  ghost predicate OneResubmitted(bank: Bank) {
    && 1 in OpenResubmits(bank) && Live(bank, 1) == {0} && bank.batches.Keys == {0, 1}
    && VersionMatches(bank, 1, 2) && Resubmittable(bank.questions[1])
  }

  lemma Resubmit0() returns (steps: seq<Step>, bank: Bank)
    ensures Reaches(steps, World(bank, map[])) && OneResubmitted(bank) && BankSound(bank)
  {
    var before, reviewed := Review();
    var c := InFlight(SendBack(CONTENT), 0, 2);
    steps := Undisturbed(before, reviewed, c, 1);
    Sound(before, World(reviewed, map[]));
    FirstResubmission(reviewed, ResubmitTo(0, 2, CONTENT, 1, "0101", 0));
    bank := Apply(reviewed, ResubmitTo(0, 2, CONTENT, 1, "0101", 0));
    Sound(steps, World(bank, map[]));
  }

  /** With no resubmission batch open, a resubmission opens one of its own. */
  lemma FirstResubmission(bank: Bank, op: Op)
    requires BankSound(bank) && op.ResubmitTo? && GoodOp(op) && VersionMatches(bank, op.qid, op.version)
    requires OpenResubmits(bank) == {} && op.batchId !in bank.batches
    ensures var after := Apply(bank, op);
            && after.batches.Keys == bank.batches.Keys + {op.batchId} && op.batchId in OpenResubmits(after)
            && Live(after, op.batchId) == {op.qid}
            && after.questions == bank.questions[op.qid := Resubmitted(bank.questions[op.qid], op.content, op.batchId)]
  {
    NextBatchNoFree(bank, "#R" + op.day);
    NoLiveWithoutBatch(bank, op.batchId);
  }

  /** The second resubmission of the story joins the batch of the first. */
  const SECOND := ResubmitTo(1, 2, CONTENT, 2, "0101", 0)

  lemma SecondJoins(bank: Bank)
    requires OneResubmitted(bank) && BatchesSound(bank)
    ensures AllowedRun(bank, [SECOND]) && Joined(bank, [SECOND], 1) == {1} && IsOpen(RunOps(bank, [SECOND]), 1)
  {
    OneOp(bank, SECOND);
    assert FindPendingResubmit(bank) == Some(1);
    assert Joins(bank, SECOND, 1);
    assert [SECOND][1..] == [];
    assert Joined(Apply(bank, SECOND), [], 1) == {};
  }

  /** The count check can fire: the second resubmission falls between the read of the batch and the read of
      its questions, and a confirm without any reject item is refused. */
  lemma CountCheckFires() returns (steps: seq<Step>, bank: Bank)
    ensures Reaches(steps, World(bank, map[])) && IsOpen(bank, 1)
    ensures AllowedRun(bank, [SECOND]) && IsOpen(RunOps(bank, [SECOND]), 1)
    ensures ConfirmRefusal(bank, RunOps(bank, [SECOND]), 1, []) == Some(VersionConflict)
  {
    steps, bank := Resubmit0();
    SecondJoins(bank);
    CountCheckFiresIff(bank, [SECOND], 1, []);
  }

  /** A question can be admitted unseen: the second resubmission falls between the read of the questions and
      the confirm, which lists question 0 only and admits question 1 as well. */
  lemma AdmittedUnseen() returns (steps: seq<Step>, bank: Bank)
    ensures Reaches(steps, World(bank, map[])) && ConfirmRefusal(bank, bank, 1, []) == None && Live(bank, 1) == {0}
    ensures AllowedRun(bank, [SECOND])
    ensures var after := Apply(RunOps(bank, [SECOND]), Confirm(1, LastReasons([])));
            1 in after.questions && after.questions[1].status == Active
  {
    steps, bank := Resubmit0();
    SecondJoins(bank);
    assert CountsMatch(bank) && IsOpen(bank, 1);
    JoinedIsAdmitted(bank, [SECOND], 1, 1);
  }

  /** Whatever joined the batch after it was listed is admitted by a confirm without reject items. */
  lemma JoinedIsAdmitted(bank: Bank, ops: seq<Op>, b: BatchId, q: QuestionId)
    requires BankSound(bank) && IsOpen(bank, b) && AllowedRun(bank, ops) && IsOpen(RunOps(bank, ops), b)
    requires q in Joined(bank, ops, b)
    ensures var after := Apply(RunOps(bank, ops), Confirm(b, LastReasons([])));
            q !in Live(bank, b) && q in after.questions && after.questions[q].status == Active
  {
    LiveGrows(bank, ops, b);
    ConfirmAdmits(RunOps(bank, ops), b, q);
  }

  lemma ConfirmAdmits(bank: Bank, b: BatchId, q: QuestionId)
    requires ReviewSound(bank) && IsOpen(bank, b) && q in Live(bank, b)
    ensures var after := Apply(bank, Confirm(b, LastReasons([])));
            q in after.questions && after.questions[q].status == Active
  {
    OpenBatchIsPending(bank, b, q);
  }

  /** A question can be deleted after it was put into a test: the test is created between the service's read
      of the reference count and its versioned deletion. */
  lemma DeletedWhileReferenced() returns (steps: seq<Step>, bank: Bank)
    ensures Reaches(steps, World(bank, map[]))
    ensures 2 in bank.questions && bank.questions[2].deleted && bank.questions[2].references == 1
  {
    var before, reviewed := Review();
    var begin, use, commit := Begin(0, Delete, 2, 2), Tx(AddReferences({2})), Commit(0, 0, "0101", 0);
    steps := Extend(before, World(reviewed, map[]), begin);
    var calls := map[0 := InFlight(Delete, 2, 2)];
    assert Advance(World(reviewed, map[]), begin) == World(reviewed, calls);
    steps := Extend(steps, World(reviewed, calls), use);
    var used := Apply(reviewed, AddReferences({2}));
    steps := Extend(steps, World(used, calls), commit);
    assert calls - {0} == map[];
    bank := Apply(used, SoftDelete(2, 2));
  }
}
