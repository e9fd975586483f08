/** Runs of bank transactions: what stays, what the version lock protects, and where it stops. */
module QuestionRuns {
  import opened Base
  import opened QuestionBank
  import opened QuestionReview
  import opened QuestionService
  import Numbering

  /** A run in which every service check still holds at its write. */
  ghost predicate AllowedRun(bank: Bank, ops: seq<Op>)
    decreases |ops|
  {
    ops == [] || (GoodOp(ops[0]) && Allowed(bank, ops[0]) && AllowedRun(Apply(bank, ops[0]), ops[1..]))
  }

  lemma {:induction false} AllowedRunIsSound(bank: Bank, ops: seq<Op>)
    requires BankSound(bank) && AllowedRun(bank, ops)
    ensures BankSound(RunOps(bank, ops))
    decreases |ops|
  {
    if ops != [] {
      OpKeepsBankSound(bank, ops[0]);
      AllowedRunIsSound(Apply(bank, ops[0]), ops[1..]);
    }
  }

  lemma {:induction false} RunsCompose(bank: Bank, ops: seq<Op>, more: seq<Op>)
    ensures RunOps(bank, ops + more) == RunOps(RunOps(bank, ops), more)
    ensures AllowedRun(bank, ops) && AllowedRun(RunOps(bank, ops), more) ==> AllowedRun(bank, ops + more)
    decreases |ops|
  {
    if ops == [] {
      assert ops + more == more;
    } else {
      assert (ops + more)[1..] == ops[1..] + more;
      RunsCompose(Apply(bank, ops[0]), ops[1..], more);
    }
  }

  lemma OneOp(bank: Bank, op: Op)
    ensures RunOps(bank, [op]) == Apply(bank, op)
    ensures GoodOp(op) && Allowed(bank, op) ==> AllowedRun(bank, [op])
  {
    assert [op][1..] == [];
  }

  /** Whatever the services do between their reads and their writes, the bank moves by an allowed run. */
  lemma {:induction false} PlayIsAllowedRun(w: World, steps: seq<Step>) returns (ops: seq<Op>)
    requires WorldSound(w) && forall i :: 0 <= i < |steps| ==> GoodStep(steps[i])
    ensures AllowedRun(w.bank, ops) && RunOps(w.bank, ops) == Play(w, steps).bank
    decreases |steps|
  {
    if steps == [] {
      ops := [];
    } else {
      StepKeepsWorldSound(w, steps[0]);
      var first := StepIsAllowedRun(w, steps[0]);
      var rest := PlayIsAllowedRun(Advance(w, steps[0]), steps[1..]);
      RunsCompose(w.bank, first, rest);
      ops := first + rest;
    }
  }

  lemma StepIsAllowedRun(w: World, s: Step) returns (ops: seq<Op>)
    requires WorldSound(w) && GoodStep(s)
    ensures AllowedRun(w.bank, ops) && RunOps(w.bank, ops) == Advance(w, s).bank
  {
    ops := [];
    match s {
      case Tx(op) =>
        OneOp(w.bank, op);
        ops := [op];
      case Commit(call, batchId, day, now) =>
        if call in w.calls && VersionMatches(w.bank, w.calls[call].qid, w.calls[call].version) {
          var op := OpOf(w.calls[call], batchId, day, now);
          MatchingVersionMeansCheckHolds(w, call, batchId, day, now);
          OneOp(w.bank, op);
          ops := [op];
        } else if call in w.calls {
          MatchingVersionMeansCheckHolds(w, call, batchId, day, now);
        }
      case Begin(_, _, _, _) =>
    }
  }

  lemma {:induction false} RunEvolvesRows(bank: Bank, ops: seq<Op>, q: QuestionId)
    requires q in bank.questions
    ensures q in RunOps(bank, ops).questions && Evolves(bank.questions[q], RunOps(bank, ops).questions[q])
    decreases |ops|
  {
    if ops != [] {
      OpEvolvesRows(bank, ops[0], q);
      RunEvolvesRows(Apply(bank, ops[0]), ops[1..], q);
    }
  }

  // ---------------------------------------------------------------- open batches

  /** The operation is a resubmission that puts its question into batch `b`. */
  ghost predicate Joins(bank: Bank, op: Op, b: BatchId) {
    op.ResubmitTo? && VersionMatches(bank, op.qid, op.version)
    && var joined := ResubmitBatches(bank, op.batchId, op.day, op.now);
       joined.Some? && joined.value.1 == b
  }

  /** The questions resubmitted into batch `b` during a run. */
  ghost function Joined(bank: Bank, ops: seq<Op>, b: BatchId): set<QuestionId>
    decreases |ops|
  {
    if ops == [] then {}
    else (if Joins(bank, ops[0], b) then {ops[0].qid} else {}) + Joined(Apply(bank, ops[0]), ops[1..], b)
  }

  /** A waiting question of a batch that is still open has at most been counted into tests. */
  ghost predicate SameButReferences(before: Question, after: Question) {
    after == before.(references := after.references)
  }

  /** One transaction on an open batch: it stays open only if its rows stay and at most one joins. */
  ghost predicate KeepsOpenBatch(bank: Bank, after: Bank, b: BatchId, joining: set<QuestionId>) {
    && IsOpen(bank, b) && IsOpen(after, b) && after.batches[b].kind == bank.batches[b].kind
    && Live(bank, b) !! joining && Live(after, b) == Live(bank, b) + joining
    && (forall q :: q in Live(bank, b) ==> SameButReferences(bank.questions[q], after.questions[q]))
  }

  lemma OpKeepsOpenBatch(bank: Bank, op: Op, b: BatchId)
    requires BankSound(bank) && GoodOp(op) && Allowed(bank, op) && b in bank.batches && IsOpen(Apply(bank, op), b)
    ensures KeepsOpenBatch(bank, Apply(bank, op), b, if Joins(bank, op, b) then {op.qid} else {})
  {
    if CreatesQuestions(op) {
      CreateKeepsOpenBatch(bank, op, b);
    } else if op.ResubmitTo? {
      ResubmitKeepsOpenBatch(bank, op, b);
    } else {
      RowOpKeepsOpenBatch(bank, op, b);
    }
  }

  /** A row update or a settled batch leaves the waiting questions of every other open batch alone. */
  lemma WaitingRowStays(bank: Bank, op: Op, b: BatchId, q: QuestionId)
    requires ReviewSound(bank) && Allowed(bank, op) && !CreatesQuestions(op)
    requires q in Live(bank, b) && IsOpen(bank, b) && IsOpen(Apply(bank, op), b)
    ensures q in Apply(bank, op).questions && SameButReferences(bank.questions[q], Apply(bank, op).questions[q])
  {
    OpenBatchIsPending(bank, b, q);
  }

  lemma NoRowComesIn(bank: Bank, op: Op, q: QuestionId)
    requires !CreatesQuestions(op) && !op.ResubmitTo? && IsLive(Apply(bank, op), q)
    ensures IsLive(bank, q) && Apply(bank, op).questions[q].batchId == bank.questions[q].batchId
  {
  }

  lemma WasOpen(bank: Bank, op: Op, b: BatchId)
    requires b in bank.batches && IsOpen(Apply(bank, op), b)
    ensures IsOpen(bank, b) && Apply(bank, op).batches[b].kind == bank.batches[b].kind
  {
  }

  lemma RowOpKeepsOpenBatch(bank: Bank, op: Op, b: BatchId)
    requires ReviewSound(bank) && Allowed(bank, op) && !CreatesQuestions(op) && !op.ResubmitTo?
    requires b in bank.batches && IsOpen(Apply(bank, op), b)
    ensures KeepsOpenBatch(bank, Apply(bank, op), b, {})
  {
    WasOpen(bank, op, b);
    KeepsFromRows(bank, op, b, {});
  }

  /** The rows one by one: the waiting ones stay, and the joining ones are the only ones to come in. */
  lemma KeepsFromRows(bank: Bank, op: Op, b: BatchId, joining: set<QuestionId>)
    requires ReviewSound(bank) && Allowed(bank, op) && !CreatesQuestions(op)
    requires IsOpen(bank, b) && IsOpen(Apply(bank, op), b) && Apply(bank, op).batches[b].kind == bank.batches[b].kind
    requires Live(bank, b) !! joining && joining <= Live(Apply(bank, op), b)
    requires op.ResubmitTo? ==> forall q :: q in Live(Apply(bank, op), b) ==> q in Live(bank, b) || q in joining
    ensures KeepsOpenBatch(bank, Apply(bank, op), b, joining)
  {
    var after := Apply(bank, op);
    forall q | q in Live(bank, b)
      ensures q in after.questions && SameButReferences(bank.questions[q], after.questions[q])
    {
      WaitingRowStays(bank, op, b, q);
    }
    forall q | q in Live(after, b) && !op.ResubmitTo? ensures q in Live(bank, b) {
      NoRowComesIn(bank, op, q);
    }
    RowsMakeLive(bank, after, b, joining);
  }

  lemma RowsMakeLive(bank: Bank, after: Bank, b: BatchId, joining: set<QuestionId>)
    requires forall q :: q in Live(bank, b) ==> q in after.questions && SameButReferences(bank.questions[q], after.questions[q])
    requires joining <= Live(after, b)
    requires forall q :: q in Live(after, b) ==> q in Live(bank, b) || q in joining
    ensures Live(after, b) == Live(bank, b) + joining
  {
  }

  lemma ResubmitKeepsOpenBatch(bank: Bank, op: Op, b: BatchId)
    requires ReviewSound(bank) && Allowed(bank, op) && op.ResubmitTo?
    requires b in bank.batches && IsOpen(Apply(bank, op), b)
    ensures KeepsOpenBatch(bank, Apply(bank, op), b, if Joins(bank, op, b) then {op.qid} else {})
  {
    WasOpen(bank, op, b);
    ResubmitPlaces(bank, op, b);
    KeepsFromRows(bank, op, b, if Joins(bank, op, b) then {op.qid} else {});
  }

  /** Where a resubmission puts its question, seen from one open batch. */
  lemma ResubmitPlaces(bank: Bank, op: Op, b: BatchId)
    requires ReviewSound(bank) && Allowed(bank, op) && op.ResubmitTo? && IsOpen(bank, b)
    ensures Joins(bank, op, b) ==> op.qid !in Live(bank, b) && op.qid in Live(Apply(bank, op), b)
    ensures forall q :: q in Live(Apply(bank, op), b) ==> q in Live(bank, b) || (q == op.qid && Joins(bank, op, b))
  {
    if op.qid in Live(bank, b) { OpenBatchIsPending(bank, b, op.qid); }
  }

  lemma CreateKeepsOpenBatch(bank: Bank, op: Op, b: BatchId)
    requires BankSound(bank) && CreatesQuestions(op) && b in bank.batches && IsOpen(Apply(bank, op), b)
    ensures KeepsOpenBatch(bank, Apply(bank, op), b, {})
  {
    var after := Apply(bank, op);
    if after != bank {
      var no := CreatedShape(bank, op);
      var batch, drafts := BatchOf(op, no), DraftsOf(op);
      var nos := Numbering.Block(Nos(bank), Sources(drafts));
      var mid := Grown(bank, op.batchId, batch, drafts, op.ids, nos);
      GrownLeavesLive(bank, op.batchId, batch, drafts, op.ids, nos, b);
      GrownRows(bank, op.batchId, batch, drafts, op.ids, nos);
      assert after.questions == mid.questions;
      assert Live(after, b) == Live(mid, b);
    }
  }

  lemma KeepsTwice(bank: Bank, mid: Bank, after: Bank, b: BatchId, first: set<QuestionId>, second: set<QuestionId>)
    requires KeepsOpenBatch(bank, mid, b, first) && KeepsOpenBatch(mid, after, b, second)
    ensures KeepsOpenBatch(bank, after, b, first + second)
  {
    forall q | q in Live(bank, b) ensures SameButReferences(bank.questions[q], after.questions[q]) {
      assert q in Live(mid, b);
    }
  }

  /** While a batch stays open no question leaves it, its waiting questions keep everything but their
      reference count, and exactly the resubmitted ones come in. */
  lemma {:induction false} OpenBatchOnlyGrows(bank: Bank, ops: seq<Op>, b: BatchId)
    requires BankSound(bank) && AllowedRun(bank, ops) && b in bank.batches && IsOpen(RunOps(bank, ops), b)
    ensures KeepsOpenBatch(bank, RunOps(bank, ops), b, Joined(bank, ops, b))
    decreases |ops|
  {
    if ops == [] {
      assert KeepsOpenBatch(bank, bank, b, {});
    } else {
      var mid := Apply(bank, ops[0]);
      BatchesStay(bank, ops[0], b);
      OpKeepsBankSound(bank, ops[0]);
      OpenBatchOnlyGrows(mid, ops[1..], b);
      OpKeepsOpenBatch(bank, ops[0], b);
      KeepsTwice(bank, mid, RunOps(bank, ops), b, if Joins(bank, ops[0], b) then {ops[0].qid} else {}, Joined(mid, ops[1..], b));
    }
  }

  lemma BatchesStay(bank: Bank, op: Op, b: BatchId)
    requires b in bank.batches
    ensures b in Apply(bank, op).batches
    ensures bank.batches[b].status != Open ==> Apply(bank, op).batches[b].status == bank.batches[b].status
  {
  }

  /** A closed or voided batch is never opened again. */
  lemma {:induction false} ClosedStaysClosed(bank: Bank, ops: seq<Op>, b: BatchId)
    requires b in bank.batches && !IsOpen(bank, b)
    ensures b in RunOps(bank, ops).batches && RunOps(bank, ops).batches[b].status == bank.batches[b].status
    decreases |ops|
  {
    if ops != [] {
      BatchesStay(bank, ops[0], b);
      ClosedStaysClosed(Apply(bank, ops[0]), ops[1..], b);
    }
  }

  lemma {:induction false} BatchOutlives(bank: Bank, ops: seq<Op>, b: BatchId)
    requires b in bank.batches
    ensures b in RunOps(bank, ops).batches
    decreases |ops|
  {
    if ops != [] {
      BatchesStay(bank, ops[0], b);
      BatchOutlives(Apply(bank, ops[0]), ops[1..], b);
    }
  }

  /** Resubmitting a rejected question and voiding the batch it joined, whatever was committed in
      between, rejects it again with its original reason and number. */
  lemma ResubmitThenVoidRestores(bank: Bank, op: Op, ops: seq<Op>)
    requires BankSound(bank) && op.ResubmitTo? && Allowed(bank, op) && GoodOp(op)
    requires VersionMatches(bank, op.qid, op.version) && ResubmitBatches(bank, op.batchId, op.day, op.now).Some?
    requires AllowedRun(Apply(bank, op), ops)
    requires IsOpen(RunOps(Apply(bank, op), ops), ResubmitBatches(bank, op.batchId, op.day, op.now).value.1)
    ensures var target := ResubmitBatches(bank, op.batchId, op.day, op.now).value.1;
            var mid := RunOps(Apply(bank, op), ops);
            var after := Apply(mid, Void(target));
            && op.qid in mid.questions && mid.questions[op.qid].status == Pending && mid.questions[op.qid].batchId == target
            && IsLive(after, op.qid) && after.questions[op.qid].status == Rejected
            && after.questions[op.qid].reason == bank.questions[op.qid].reason != ""
            && after.questions[op.qid].version == bank.questions[op.qid].version + 2
            && after.questions[op.qid].no == bank.questions[op.qid].no
            && after.questions[op.qid].content == op.content
  {
    var target := ResubmitBatches(bank, op.batchId, op.day, op.now).value.1;
    assert RowSound(bank.batches, bank.questions[op.qid]);
    OpKeepsBankSound(bank, op);
    ResubmittedRow(bank, op);
    VoidAfterRun(Apply(bank, op), ops, target, op.qid);
  }

  lemma VoidAfterRun(bank: Bank, ops: seq<Op>, b: BatchId, q: QuestionId)
    requires BankSound(bank) && AllowedRun(bank, ops) && q in Live(bank, b)
    requires b in bank.batches && bank.batches[b].kind == Resubmit && IsOpen(RunOps(bank, ops), b)
    ensures WaitsIn(bank, RunOps(bank, ops), b, q)
    ensures var mid := RunOps(bank, ops);
            var after := Apply(mid, Void(b));
            q in Live(after, b)
            && after.questions[q] == mid.questions[q].(status := Rejected, version := mid.questions[q].version + 1)
  {
    StillWaits(bank, ops, b, q);
    VoidRejects(RunOps(bank, ops), b, q);
  }

  ghost predicate WaitsIn(bank: Bank, after: Bank, b: BatchId, q: QuestionId) {
    && q in Live(bank, b) && q in Live(after, b) && after.questions[q].status == Pending
    && SameButReferences(bank.questions[q], after.questions[q])
  }

  lemma StillWaits(bank: Bank, ops: seq<Op>, b: BatchId, q: QuestionId)
    requires BankSound(bank) && AllowedRun(bank, ops) && q in Live(bank, b)
    requires b in bank.batches && IsOpen(RunOps(bank, ops), b)
    ensures WaitsIn(bank, RunOps(bank, ops), b, q)
    ensures RunOps(bank, ops).batches[b].kind == bank.batches[b].kind
  {
    OpenBatchOnlyGrows(bank, ops, b);
    assert q in Live(RunOps(bank, ops), b);
    OpenBatchIsPending(bank, b, q);
  }

  lemma ResubmittedRow(bank: Bank, op: Op)
    requires ReviewSound(bank) && op.ResubmitTo? && VersionMatches(bank, op.qid, op.version)
    requires ResubmitBatches(bank, op.batchId, op.day, op.now).Some?
    ensures var target := ResubmitBatches(bank, op.batchId, op.day, op.now).value.1;
            var after := Apply(bank, op);
            op.qid in Live(after, target) && target in after.batches && after.batches[target].kind == Resubmit
            && after.questions[op.qid] == Resubmitted(bank.questions[op.qid], op.content, target)
  {
    JoinedBatch(bank, op.batchId, op.day, op.now);
  }

  // ---------------------------------------------------------------- the version lock

  /** Whatever is committed between a check and its write, a write that matches still satisfies it. */
  ghost predicate LockHolds(bank: Bank, intent: Intent, qid: QuestionId, version: nat) {
    forall ops :: AllowedRun(bank, ops) && VersionMatches(RunOps(bank, ops), qid, version) ==>
      Precheck(intent, RunOps(bank, ops).questions[qid])
  }

  /** A version the row has had keeps the lock, for every kind of call. */
  lemma KnownVersionLocks(bank: Bank, intent: Intent, qid: QuestionId, version: nat)
    requires BankSound(bank) && IsLive(bank, qid) && Precheck(intent, bank.questions[qid])
    requires version <= bank.questions[qid].version
    ensures LockHolds(bank, intent, qid, version)
  {
    forall ops | AllowedRun(bank, ops) && VersionMatches(RunOps(bank, ops), qid, version)
      ensures Precheck(intent, RunOps(bank, ops).questions[qid])
    {
      RunEvolvesRows(bank, ops, qid);
    }
  }

  /** For a resubmission the lock holds exactly for the versions the row has had: a client that sends a
      later one can resubmit a question that is waiting already, or admitted. */
  lemma ResubmitLockIff(bank: Bank, content: Content, qid: QuestionId, version: nat)
    requires BankSound(bank) && IsLive(bank, qid) && Resubmittable(bank.questions[qid])
    ensures LockHolds(bank, SendBack(content), qid, version) <==> version <= bank.questions[qid].version
  {
    if version <= bank.questions[qid].version {
      KnownVersionLocks(bank, SendBack(content), qid, version);
    } else {
      var ops := GapTo(bank, content, qid, version);
      assert !Precheck(SendBack(content), RunOps(bank, ops).questions[qid]);
    }
  }

  /** An allowed run that brings a rejected question to any later version and leaves it not rejected. */
  lemma GapTo(bank: Bank, content: Content, qid: QuestionId, version: nat) returns (ops: seq<Op>)
    requires BankSound(bank) && IsLive(bank, qid) && Resubmittable(bank.questions[qid])
    requires version > bank.questions[qid].version
    ensures AllowedRun(bank, ops) && VersionMatches(RunOps(bank, ops), qid, version)
    ensures RunOps(bank, ops).questions[qid].status != Rejected
  {
    var v := bank.questions[qid].version;
    var batchId := FreshBatchId(bank);
    var first := ResubmitTo(qid, v, content, batchId, "0101", 0);
    ResubmitIsAccepted(bank, first);
    OneOp(bank, first);
    OpKeepsBankSound(bank, first);
    var waiting := Apply(bank, first);
    assert RowSound(waiting.batches, waiting.questions[qid]);
    ops := [first];
    if version > v + 1 {
      var more := AdmitAndToggle(waiting, qid, version);
      RunsCompose(bank, [first], more);
      ops := [first] + more;
    }
  }

  lemma AdmitAndToggle(bank: Bank, qid: QuestionId, version: nat) returns (ops: seq<Op>)
    requires BankSound(bank) && IsLive(bank, qid) && IsOpen(bank, bank.questions[qid].batchId)
    requires version > bank.questions[qid].version
    ensures AllowedRun(bank, ops) && VersionMatches(RunOps(bank, ops), qid, version)
    ensures Switchable(RunOps(bank, ops).questions[qid])
  {
    var op := Confirm(bank.questions[qid].batchId, map[]);
    assert qid in Live(bank, bank.questions[qid].batchId);
    ConfirmSettlesEachOnce(bank, op.batchId, map[], qid);
    OneOp(bank, op);
    var toggles := TogglesTo(Apply(bank, op), qid, version);
    RunsCompose(bank, [op], toggles);
    ops := [op] + toggles;
  }

  /** Switching an admitted question on and off reaches any later version. */
  lemma {:induction false} TogglesTo(bank: Bank, qid: QuestionId, version: nat) returns (ops: seq<Op>)
    requires IsLive(bank, qid) && Switchable(bank.questions[qid]) && version >= bank.questions[qid].version
    ensures AllowedRun(bank, ops) && VersionMatches(RunOps(bank, ops), qid, version)
    ensures Switchable(RunOps(bank, ops).questions[qid])
    decreases version - bank.questions[qid].version
  {
    if version == bank.questions[qid].version {
      return [];
    }
    var op := UpdateStatus(qid, bank.questions[qid].version, Disabled);
    OneOp(bank, op);
    var rest := TogglesTo(Apply(bank, op), qid, version);
    RunsCompose(bank, [op], rest);
    ops := [op] + rest;
  }

  lemma FreshBatchId(bank: Bank) returns (b: BatchId)
    ensures b !in bank.batches
  {
    b := Above(bank.batches.Keys);
  }

  lemma {:induction false} Above(ids: set<nat>) returns (n: nat)
    ensures forall x :: x in ids ==> x < n
    decreases |ids|
  {
    if ids == {} {
      return 0;
    }
    var x :| x in ids;
    var m := Above(ids - {x});
    n := if m <= x then x + 1 else m;
    forall y | y in ids ensures y < n {
      if y != x { assert y in ids - {x}; }
    }
  }

  /** Once admitted, a question never goes back to review: an edit needs no version for its check. */
  lemma {:induction false} AdmittedStays(bank: Bank, ops: seq<Op>, q: QuestionId)
    requires BankSound(bank) && AllowedRun(bank, ops) && IsLive(bank, q) && Switchable(bank.questions[q])
    ensures IsLive(RunOps(bank, ops), q) ==> Switchable(RunOps(bank, ops).questions[q])
    decreases |ops|
  {
    if ops != [] {
      var after := Apply(bank, ops[0]);
      OpKeepsBankSound(bank, ops[0]);
      OpEvolvesRows(bank, ops[0], q);
      if IsLive(after, q) {
        OpKeepsAdmitted(bank, ops[0], q);
        AdmittedStays(after, ops[1..], q);
      } else {
        RunEvolvesRows(after, ops[1..], q);
      }
    }
  }

  lemma OpKeepsAdmitted(bank: Bank, op: Op, q: QuestionId)
    requires BankSound(bank) && GoodOp(op) && Allowed(bank, op) && IsLive(bank, q) && Switchable(bank.questions[q])
    requires IsLive(Apply(bank, op), q)
    ensures Switchable(Apply(bank, op).questions[q])
  {
    assert RowSound(bank.batches, bank.questions[q]);
    if CreatesQuestions(op) {
      CreateLeavesRows(bank, op, q);
    } else if op.Confirm? || op.Void? {
      SettlingLeavesAdmitted(bank, op, q);
    }
  }

  lemma SettlingLeavesAdmitted(bank: Bank, op: Op, q: QuestionId)
    requires (op.Confirm? || op.Void?) && IsLive(bank, q) && Switchable(bank.questions[q])
    requires RowSound(bank.batches, bank.questions[q])
    ensures Apply(bank, op).questions[q] == bank.questions[q]
  {
  }

  /** Resubmitting a question that is already waiting raises the count but not the number of questions. */
  lemma ResubmittingPendingMiscounts(bank: Bank, op: Op)
    requires ReviewSound(bank) && op.ResubmitTo? && VersionMatches(bank, op.qid, op.version)
    requires bank.questions[op.qid].batchId in OpenResubmits(bank)
    ensures !CountsMatch(Apply(bank, op))
  {
    var target := bank.questions[op.qid].batchId;
    assert FindPendingResubmit(bank) == Some(target);
    var after := Apply(bank, op);
    assert Live(after, target) == Live(bank, target);
    assert IsOpen(bank, target) && IsOpen(after, target);
  }

  /** What the failing lock costs: after a resubmission, a second one whose check was made before it and
      which sent the next version counts the question twice. */
  lemma GuessedVersionMiscounts(bank: Bank, qid: QuestionId, content: Content, batchId: BatchId, day: string, now: int)
    requires BankSound(bank) && IsLive(bank, qid) && Resubmittable(bank.questions[qid]) && |day| == 4
    requires batchId !in bank.batches
    ensures var v := bank.questions[qid].version;
            var once := Apply(bank, ResubmitTo(qid, v, content, batchId, day, now));
            !CountsMatch(Apply(once, ResubmitTo(qid, v + 1, content, batchId, day, now)))
  {
    var v := bank.questions[qid].version;
    var first := ResubmitTo(qid, v, content, batchId, day, now);
    ResubmitIsAccepted(bank, first);
    var once := Apply(bank, first);
    ResubmitKeepsReview(bank, first);
    ResubmittingPendingMiscounts(once, ResubmitTo(qid, v + 1, content, batchId, day, now));
  }

  lemma ResubmitIsAccepted(bank: Bank, op: Op)
    requires BankSound(bank) && op.ResubmitTo? && GoodOp(op) && VersionMatches(bank, op.qid, op.version)
    requires op.batchId !in bank.batches
    ensures ResubmitBatches(bank, op.batchId, op.day, op.now).Some?
    ensures var after := Apply(bank, op);
            VersionMatches(after, op.qid, op.version + 1) && after.questions[op.qid].batchId in OpenResubmits(after)
            && Joins(bank, op, after.questions[op.qid].batchId)
  {
    NextBatchNoFree(bank, "#R" + op.day);
    JoinedBatch(bank, op.batchId, op.day, op.now);
  }

  /** A scale import under new ids goes through exactly when the scale has no live question: no number it
      needs is ever taken. */
  lemma ImportSucceedsIff(bank: Bank, scaleKey: string, batchId: BatchId, day: string, contents: seq<Content>, ids: seq<QuestionId>, now: int)
    requires BankSound(bank) && |day| == 4 && |ids| == |contents|
    requires batchId !in bank.batches && FreshIds(bank, ids)
    ensures var after := Apply(bank, ImportScale(scaleKey, batchId, day, contents, ids, now));
            if ImportedLive(bank, scaleKey) == {} then
              batchId in after.batches && Live(after, batchId) == IdSet(ids) && after.batches[batchId].count == |ids|
            else after == bank
  {
    if ImportedLive(bank, scaleKey) == {} {
      var op := ImportScale(scaleKey, batchId, day, contents, ids, now);
      NextBatchNoFree(bank, "#S" + day);
      CreatesGrown(bank, op, Numbering.NextBatchNo(BatchNos(bank), "#S" + day).value);
    }
  }

  /** Under sound numbers and new ids a creating transaction is never refused by a number. */
  lemma CreatesGrown(bank: Bank, op: Op, no: string)
    requires BankSound(bank) && CreatesQuestions(op) && GoodDay(op) && |op.ids| == |op.contents|
    requires op.batchId !in bank.batches && FreshIds(bank, op.ids)
    requires Numbering.NextBatchNo(BatchNos(bank), StemOf(op)) == Some(no)
    requires op.FinishGeneration? ==> op.gid in bank.generations && bank.generations[op.gid] == Running
    requires op.ImportScale? ==> ImportedLive(bank, op.scaleKey) == {}
    ensures var after := Apply(bank, op);
            after.batches == bank.batches[op.batchId := BatchOf(op, no)] && Live(after, op.batchId) == IdSet(op.ids)
            && forall i :: 0 <= i < |op.ids| ==> op.ids[i] in after.questions && CreatedRow(DraftsOf(op)[i], op.batchId, after.questions[op.ids[i]])
  {
    var nos := Numbering.Block(Nos(bank), Sources(DraftsOf(op)));
    var batch := BatchOf(op, no);
    NextBatchNoFree(bank, StemOf(op));
    CreateKeepsNumbers(bank, op.batchId, batch, DraftsOf(op), op.ids);
    var mid := CreateBatch(bank, op.batchId, batch, DraftsOf(op), op.ids);
    assert op.batchId in mid.batches;
    GrownBatch(bank, op.batchId, batch, DraftsOf(op), op.ids, nos, mid);
    CreatedTables(bank, op, no);
    assert Live(Apply(bank, op), op.batchId) == Live(mid, op.batchId);
  }

  lemma GrownBatch(bank: Bank, batchId: BatchId, batch: Batch, drafts: seq<Draft>, ids: seq<QuestionId>, nos: seq<string>, after: Bank)
    requires RowsSound(bank) && |ids| == |drafts| == |nos| && batchId !in bank.batches && FreshIds(bank, ids)
    requires after == Grown(bank, batchId, batch, drafts, ids, nos)
    ensures Live(after, batchId) == IdSet(ids)
    ensures forall i :: 0 <= i < |ids| ==> ids[i] in after.questions && CreatedRow(drafts[i], batchId, after.questions[ids[i]])
  {
    GrownRows(bank, batchId, batch, drafts, ids, nos);
    GrownLive(bank, batchId, batch, drafts, ids, nos);
  }

  /** A creating transaction that may run leaves the question and batch tables of its batch creation. */
  lemma CreatedTables(bank: Bank, op: Op, no: string)
    requires CreatesQuestions(op) && |op.ids| == |op.contents| && Numbering.NextBatchNo(BatchNos(bank), StemOf(op)) == Some(no)
    requires op.FinishGeneration? ==> op.gid in bank.generations && bank.generations[op.gid] == Running
    requires op.ImportScale? ==> ImportedLive(bank, op.scaleKey) == {}
    ensures var mid := CreateBatch(bank, op.batchId, BatchOf(op, no), DraftsOf(op), op.ids);
            Apply(bank, op).questions == mid.questions && Apply(bank, op).batches == mid.batches
  {
    match op {
      case FinishGeneration(gid, batchId, day, contents, ids, now) => FinishCases(bank, gid, batchId, day, contents, ids, now, no);
      case ImportScale(_, _, _, _, _, _) => ImportTables(bank, op, no);
    }
  }

  lemma ImportTables(bank: Bank, op: Op, no: string)
    requires op.ImportScale? && |op.ids| == |op.contents| && Numbering.NextBatchNo(BatchNos(bank), StemOf(op)) == Some(no)
    requires ImportedLive(bank, op.scaleKey) == {}
    ensures Apply(bank, op) == CreateBatch(bank, op.batchId, BatchOf(op, no), DraftsOf(op), op.ids)
  {
  }

  predicate GoodDay(op: Op)
    requires CreatesQuestions(op)
  {
    |op.day| == 4
  }

  /** A new row, whatever number it was given. */
  ghost predicate CreatedRow(draft: Draft, batchId: BatchId, row: Question) {
    row == NewRow(draft, row.no, batchId)
  }

  /** The questions of a creating transaction that took effect, column by column. */
  lemma CreatedQuestions(bank: Bank, op: Op)
    requires CreatesQuestions(op) && Apply(bank, op) != bank
    ensures var after := Apply(bank, op);
            && |op.ids| == |op.contents|
            && (forall q :: q in bank.questions ==> q in after.questions && after.questions[q] == bank.questions[q])
            && (forall i :: 0 <= i < |op.ids| ==> op.ids[i] !in bank.questions && op.ids[i] in after.questions)
            && (forall i :: 0 <= i < |op.ids| ==> Unreviewed(after.questions[op.ids[i]], op.batchId))
            && (forall i :: 0 <= i < |op.ids| ==> AsSent(op, i, after.questions[op.ids[i]]))
  {
    var no := CreatedShape(bank, op);
    var drafts := DraftsOf(op);
    var nos := Numbering.Block(Nos(bank), Sources(drafts));
    GrownRows(bank, op.batchId, BatchOf(op, no), drafts, op.ids, nos);
    assert Apply(bank, op).questions == Grown(bank, op.batchId, BatchOf(op, no), drafts, op.ids, nos).questions;
  }

  /** A generated question has no scale; an imported one has that of its import. */
  ghost predicate AsSent(op: Op, i: nat, row: Question)
    requires CreatesQuestions(op) && i < |op.contents|
  {
    && row.content == op.contents[i]
    && (op.FinishGeneration? ==> row.source == Numbering.AI && row.scaleKey == "")
    && (op.ImportScale? ==> row.source == Numbering.Scale && row.scaleKey == op.scaleKey)
  }

  /** The batch of a creating transaction that took effect, column by column, and its session. */
  lemma CreatedBatch(bank: Bank, op: Op)
    requires CreatesQuestions(op) && Apply(bank, op) != bank
    ensures var after := Apply(bank, op);
            && op.batchId !in bank.batches && op.batchId in after.batches
            && after.batches == bank.batches[op.batchId := after.batches[op.batchId]]
            && after.batches[op.batchId].status == Open && after.batches[op.batchId].count == |op.contents|
            && after.batches[op.batchId].createdAt == op.now
            && (op.FinishGeneration? ==>
                  && after.batches[op.batchId].kind == Generate && after.batches[op.batchId].source == Numbering.AI
                  && after.batches[op.batchId].scaleKey == "" && after.generations == bank.generations[op.gid := Completed(op.batchId)])
            && (op.ImportScale? ==>
                  && after.batches[op.batchId].kind == Import && after.batches[op.batchId].source == Numbering.Scale
                  && after.batches[op.batchId].scaleKey == op.scaleKey && after.generations == bank.generations)
  {
    var no := CreatedShape(bank, op);
  }

  /** A question as it enters its batch. */
  ghost predicate Unreviewed(row: Question, batchId: BatchId) {
    row.status == Pending && row.reason == "" && row.batchId == batchId && row.references == 0 && row.version == 1 && !row.deleted
  }

  // ---------------------------------------------------------------- what a versioned write stores

  /** An edit, a toggle or a deletion under the version its row has: that row changes in the columns the
      call is for and in its version, and nothing else changes. */
  lemma VersionedWriteStores(bank: Bank, op: Op)
    requires op.UpdateContent? || op.UpdateStatus? || op.SoftDelete?
    requires VersionMatches(bank, op.qid, op.version)
    ensures var after := Apply(bank, op);
            && after.batches == bank.batches && after.generations == bank.generations
            && after.questions.Keys == bank.questions.Keys
            && (forall q :: q in bank.questions && q != op.qid ==> after.questions[q] == bank.questions[q])
            && SameOrigin(bank.questions[op.qid], after.questions[op.qid])
            && after.questions[op.qid].batchId == bank.questions[op.qid].batchId
            && after.questions[op.qid].content == (if op.UpdateContent? then op.content else bank.questions[op.qid].content)
            && after.questions[op.qid].status == (if op.UpdateStatus? then op.status else bank.questions[op.qid].status)
            && after.questions[op.qid].version == op.version + (if op.SoftDelete? then 0 else 1)
            && (after.questions[op.qid].deleted <==> op.SoftDelete?)
  {
  }

  /** The columns no service call writes. */
  ghost predicate SameOrigin(before: Question, after: Question) {
    after.no == before.no && after.source == before.source && after.scaleKey == before.scaleKey
    && after.reason == before.reason && after.references == before.references
  }

  /** A resubmission under the version its row has stores the new text and puts the question back to
      pending; no other row changes. */
  lemma ResubmissionStores(bank: Bank, op: Op)
    requires op.ResubmitTo? && VersionMatches(bank, op.qid, op.version)
    requires ResubmitBatches(bank, op.batchId, op.day, op.now).Some?
    ensures var after := Apply(bank, op);
            && after.questions.Keys == bank.questions.Keys
            && (forall q :: q in bank.questions && q != op.qid ==> after.questions[q] == bank.questions[q])
            && SameOrigin(bank.questions[op.qid], after.questions[op.qid])
            && after.questions[op.qid].content == op.content && after.questions[op.qid].status == Pending
            && VersionMatches(after, op.qid, op.version + 1)
  {
  }

  /** It joins the one open resubmission batch, which counts one more question, or opens it now. */
  lemma ResubmissionJoins(bank: Bank, op: Op)
    requires ReviewSound(bank) && op.ResubmitTo? && VersionMatches(bank, op.qid, op.version)
    requires ResubmitBatches(bank, op.batchId, op.day, op.now).Some?
    ensures var after := Apply(bank, op);
            var target := after.questions[op.qid].batchId;
            && OpenResubmits(after) == {target} && (OpenResubmits(bank) == {target} || OpenResubmits(bank) == {})
            && (forall b :: b in bank.batches && b != target ==> b in after.batches && after.batches[b] == bank.batches[b])
            && (OpenResubmits(bank) != {} ==> after.batches[target] == bank.batches[target].(count := bank.batches[target].count + 1))
            && (OpenResubmits(bank) == {} ==>
                  target == op.batchId && after.batches[target].count == 1 && after.batches[target].createdAt == op.now)
  {
    var (batches, target) := ResubmitBatches(bank, op.batchId, op.day, op.now).value;
    JoinedBatch(bank, op.batchId, op.day, op.now);
    JoinedOrOpened(bank, op.batchId, op.day, op.now);
    OneOpenResubmit(bank, Apply(bank, op), target);
    assert Apply(bank, op).batches == batches && Apply(bank, op).questions[op.qid].batchId == target;
  }

  lemma JoinedOrOpened(bank: Bank, batchId: BatchId, day: string, now: int)
    requires ResubmitBatches(bank, batchId, day, now).Some?
    ensures var (batches, target) := ResubmitBatches(bank, batchId, day, now).value;
            target in batches
            && if OpenResubmits(bank) != {} then
                 target in OpenResubmits(bank) && batches[target] == bank.batches[target].(count := bank.batches[target].count + 1)
               else target == batchId && batches[target].count == 1 && batches[target].createdAt == now
  {
  }

  lemma OneOpenResubmit(bank: Bank, after: Bank, target: BatchId)
    requires target in OpenResubmits(after) && forall b :: b in OpenResubmits(bank) ==> b == target
    requires forall b :: b in after.batches && b != target ==> b in bank.batches && after.batches[b] == bank.batches[b]
    ensures OpenResubmits(after) == {target} && (OpenResubmits(bank) == {target} || OpenResubmits(bank) == {})
  {
    forall b | b in OpenResubmits(after) ensures b == target {
      assert b != target ==> b in OpenResubmits(bank);
    }
    if OpenResubmits(bank) != {} {
      var b :| b in OpenResubmits(bank);
      assert OpenResubmits(bank) == {target};
    }
  }

  lemma OpLeavesDeleted(bank: Bank, op: Op, q: QuestionId)
    requires q in bank.questions && bank.questions[q].deleted
    ensures q in Apply(bank, op).questions && Apply(bank, op).questions[q] == bank.questions[q]
  {
    if CreatesQuestions(op) { CreateLeavesRows(bank, op, q); }
  }

  /** A deleted question keeps its row as it was, over every run: its number, its text, its counts. */
  lemma {:induction false} DeletedIsForever(bank: Bank, ops: seq<Op>, q: QuestionId)
    requires q in bank.questions && bank.questions[q].deleted
    ensures q in RunOps(bank, ops).questions && RunOps(bank, ops).questions[q] == bank.questions[q]
    decreases |ops|
  {
    if ops != [] {
      OpLeavesDeleted(bank, ops[0], q);
      DeletedIsForever(Apply(bank, ops[0]), ops[1..], q);
    }
  }

  /** The transaction stores a new text for the question. */
  ghost predicate StoresContent(bank: Bank, op: Op, q: QuestionId) {
    && (op.UpdateContent? || op.ResubmitTo?) && op.qid == q && VersionMatches(bank, q, op.version)
    && (op.ResubmitTo? ==> ResubmitBatches(bank, op.batchId, op.day, op.now).Some?)
  }

  /** Step `i` of the run does. */
  ghost predicate Stored(bank: Bank, ops: seq<Op>, i: nat, q: QuestionId) {
    i < |ops| && StoresContent(RunOps(bank, ops[..i]), ops[i], q)
  }

  lemma OpContent(bank: Bank, op: Op, q: QuestionId)
    requires q in bank.questions
    ensures q in Apply(bank, op).questions
    ensures Apply(bank, op).questions[q].content == if StoresContent(bank, op, q) then op.content else bank.questions[q].content
  {
    if CreatesQuestions(op) { CreateLeavesRows(bank, op, q); }
  }

  lemma StoredShift(bank: Bank, first: seq<Op>, rest: seq<Op>, j: nat, q: QuestionId)
    ensures Stored(RunOps(bank, first), rest, j, q) <==> Stored(bank, first + rest, |first| + j, q)
  {
    if j < |rest| {
      assert (first + rest)[..|first| + j] == first + rest[..j];
      RunsCompose(bank, first, rest[..j]);
    }
  }

  lemma {:induction false} UnstoredContentStays(bank: Bank, ops: seq<Op>, q: QuestionId)
    requires q in bank.questions && forall i: nat :: !Stored(bank, ops, i, q)
    ensures q in RunOps(bank, ops).questions && RunOps(bank, ops).questions[q].content == bank.questions[q].content
    decreases |ops|
  {
    if ops != [] {
      assert ops == [ops[0]] + ops[1..];
      assert !Stored(bank, ops, 0, q) && ops[..0] == [];
      OneOp(bank, ops[0]);
      OpContent(bank, ops[0], q);
      forall i: nat ensures !Stored(Apply(bank, ops[0]), ops[1..], i, q) {
        StoredShift(bank, [ops[0]], ops[1..], i, q);
      }
      UnstoredContentStays(Apply(bank, ops[0]), ops[1..], q);
    }
  }

  /** The text of a question is the one last stored under its version, over every run. */
  lemma ContentIsLastStored(bank: Bank, ops: seq<Op>, i: nat, q: QuestionId)
    requires q in bank.questions && Stored(bank, ops, i, q) && forall j: nat :: j > i ==> !Stored(bank, ops, j, q)
    ensures q in RunOps(bank, ops).questions && RunOps(bank, ops).questions[q].content == ops[i].content
  {
    var first, rest := ops[..i + 1], ops[i + 1..];
    var mid := RunOps(bank, first);
    assert ops == first + rest && first == ops[..i] + [ops[i]];
    RunsCompose(bank, first, rest);
    RunsCompose(bank, ops[..i], [ops[i]]);
    OneOp(RunOps(bank, ops[..i]), ops[i]);
    OpContent(RunOps(bank, ops[..i]), ops[i], q);
    forall j: nat ensures !Stored(mid, rest, j, q) {
      StoredShift(bank, first, rest, j, q);
    }
    UnstoredContentStays(mid, rest, q);
  }

  // ---------------------------------------------------------------- references

  ghost predicate Names(ops: seq<Op>, q: QuestionId) {
    exists i :: 0 <= i < |ops| && ops[i].AddReferences? && q in ops[i].used
  }

  lemma OpCountsReferences(bank: Bank, op: Op, q: QuestionId)
    requires IsLive(bank, q)
    ensures IsLive(Apply(bank, op), q) ==>
              Apply(bank, op).questions[q].references
              == bank.questions[q].references + if op.AddReferences? && q in op.used then 1 else 0
  {
    if CreatesQuestions(op) { CreateLeavesRows(bank, op, q); }
  }

  /** A question that stays alive keeps its reference count exactly when no test names it. */
  lemma {:induction false} ReferencesGrowIff(bank: Bank, ops: seq<Op>, q: QuestionId)
    requires IsLive(bank, q) && IsLive(RunOps(bank, ops), q)
    ensures RunOps(bank, ops).questions[q].references >= bank.questions[q].references
    ensures RunOps(bank, ops).questions[q].references == bank.questions[q].references <==> !Names(ops, q)
    decreases |ops|
  {
    if ops != [] {
      var mid := Apply(bank, ops[0]);
      OpEvolvesRows(bank, ops[0], q);
      RunEvolvesRows(mid, ops[1..], q);
      OpCountsReferences(bank, ops[0], q);
      ReferencesGrowIff(mid, ops[1..], q);
      NamesSplit(ops, q);
    }
  }

  lemma NamesSplit(ops: seq<Op>, q: QuestionId)
    requires ops != []
    ensures Names(ops, q) <==> (ops[0].AddReferences? && q in ops[0].used) || Names(ops[1..], q)
  {
    if Names(ops[1..], q) {
      var i :| 0 <= i < |ops[1..]| && ops[1..][i].AddReferences? && q in ops[1..][i].used;
      assert ops[i + 1] == ops[1..][i];
    }
    if Names(ops, q) {
      var i :| 0 <= i < |ops| && ops[i].AddReferences? && q in ops[i].used;
      assert i > 0 ==> ops[1..][i - 1] == ops[i];
    }
  }

  /** The lock does not cover the reference count: a deletion whose version matches at its write removes an
      unreferenced question exactly when no test was created on it since the read. */
  lemma DeletionIsSafeIff(bank: Bank, ops: seq<Op>, qid: QuestionId, version: nat)
    requires IsLive(bank, qid) && ReadCheck(Delete, bank.questions[qid])
    requires VersionMatches(RunOps(bank, ops), qid, version)
    ensures var after := Apply(RunOps(bank, ops), SoftDelete(qid, version));
            after.questions[qid].deleted && (after.questions[qid].references == 0 <==> !Names(ops, qid))
  {
    ReferencesGrowIff(bank, ops, qid);
  }
}
