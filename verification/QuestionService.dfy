/** Edits, toggles, deletions and resubmissions read a question, check it, and write later under the
    version the client sent. Anything may be committed between the read and the write. */
module QuestionService {
  import opened Base
  import opened QuestionBank
  import opened QuestionReview
  import Numbering

  datatype Intent = Edit(content: Content) | Toggle(target: QuestionStatus) | Delete | SendBack(content: Content)

  /** A service call between its read and its write. */
  datatype InFlight = InFlight(intent: Intent, qid: QuestionId, version: nat)

  /** The bank and the calls under way. */
  datatype World = World(bank: Bank, calls: map<nat, InFlight>)

  datatype Step =
    | Begin(call: nat, intent: Intent, qid: QuestionId, version: nat)
    | Commit(call: nat, batchId: BatchId, day: string, now: int)
    | Tx(op: Op)

  /** The status and source part of a service's check. */
  predicate Precheck(intent: Intent, q: Question) {
    match intent
    case Edit(_) => Editable(q)
    case Toggle(target) => (target == Active || target == Disabled) && Switchable(q) && target != q.status
    case Delete => q.status != Pending
    case SendBack(_) => Resubmittable(q)
  }

  /** The whole check made at the read; only deletion also looks at the reference count. */
  predicate ReadCheck(intent: Intent, q: Question) {
    Precheck(intent, q) && (intent.Delete? ==> q.references == 0)
  }

  function OpOf(c: InFlight, batchId: BatchId, day: string, now: int): Op {
    match c.intent
    case Edit(content) => UpdateContent(c.qid, c.version, content)
    case Toggle(target) => UpdateStatus(c.qid, c.version, target)
    case Delete => SoftDelete(c.qid, c.version)
    case SendBack(content) => ResubmitTo(c.qid, c.version, content, batchId, day, now)
  }

  /** Transactions that take no version: everything the four services do not write. */
  predicate Unversioned(op: Op) {
    !op.UpdateContent? && !op.UpdateStatus? && !op.SoftDelete? && !op.ResubmitTo?
  }

  predicate GoodStep(s: Step) {
    match s
    case Tx(op) => Unversioned(op) && GoodOp(op)
    case Commit(_, _, day, _) => |day| == 4
    case _ => true
  }

  /** A call passes its check on the row it reads and sends a version the row has already had. */
  ghost function Advance(w: World, s: Step): World {
    match s
    case Begin(call, intent, qid, version) =>
      if call !in w.calls && IsLive(w.bank, qid) && version <= w.bank.questions[qid].version && ReadCheck(intent, w.bank.questions[qid])
      then w.(calls := w.calls[call := InFlight(intent, qid, version)]) else w
    case Commit(call, batchId, day, now) =>
      if call in w.calls
      then w.(bank := Apply(w.bank, OpOf(w.calls[call], batchId, day, now)), calls := w.calls - {call}) else w
    case Tx(op) => w.(bank := Apply(w.bank, op))
  }

  ghost function Play(w: World, steps: seq<Step>): World
    decreases |steps|
  {
    if steps == [] then w else Play(Advance(w, steps[0]), steps[1..])
  }

  // ---------------------------------------------------------------- versions

  /** How a row may move: versions never fall, deletion is final, and the status of an undeleted row
      changes only together with its version. */
  ghost predicate Evolves(before: Question, after: Question) {
    && after.version >= before.version && after.source == before.source && after.no == before.no
    && (before.deleted ==> after.deleted)
    && (!after.deleted && after.version == before.version ==> after.status == before.status)
  }

  lemma OpEvolvesRows(bank: Bank, op: Op, q: QuestionId)
    requires q in bank.questions
    ensures q in Apply(bank, op).questions && Evolves(bank.questions[q], Apply(bank, op).questions[q])
  {
    if CreatesQuestions(op) { CreateLeavesRows(bank, op, q); }
  }

  /** What holds of a call between its read and its write, whatever has been committed since. */
  ghost predicate CallSound(bank: Bank, c: InFlight) {
    && c.qid in bank.questions
    && c.version <= bank.questions[c.qid].version
    && (VersionMatches(bank, c.qid, c.version) ==> Precheck(c.intent, bank.questions[c.qid]))
  }

  ghost predicate WorldSound(w: World) {
    && BankSound(w.bank)
    && (forall k :: k in w.calls ==> CallSound(w.bank, w.calls[k]))
  }

  lemma BankStepKeepsWorld(w: World, op: Op, calls: map<nat, InFlight>)
    requires WorldSound(w) && BankSound(Apply(w.bank, op))
    requires forall k :: k in calls ==> k in w.calls && calls[k] == w.calls[k]
    ensures WorldSound(w.(bank := Apply(w.bank, op), calls := calls))
  {
    var after := Apply(w.bank, op);
    forall k | k in calls ensures CallSound(after, calls[k]) {
      assert CallSound(w.bank, w.calls[k]);
      OpEvolvesRows(w.bank, op, calls[k].qid);
    }
  }

  /** The optimistic lock: if the version matches at the write, the check made at the read still holds,
      so the call acts as one atomic step at its write; if it does not match, nothing is written. */
  lemma MatchingVersionMeansCheckHolds(w: World, call: nat, batchId: BatchId, day: string, now: int)
    requires WorldSound(w) && call in w.calls && |day| == 4
    ensures Allowed(w.bank, OpOf(w.calls[call], batchId, day, now))
    ensures if VersionMatches(w.bank, w.calls[call].qid, w.calls[call].version)
            then Precheck(w.calls[call].intent, w.bank.questions[w.calls[call].qid])
            else Apply(w.bank, OpOf(w.calls[call], batchId, day, now)) == w.bank
  {
    assert CallSound(w.bank, w.calls[call]);
  }

  lemma StepKeepsWorldSound(w: World, s: Step)
    requires WorldSound(w) && GoodStep(s)
    ensures WorldSound(Advance(w, s))
  {
    match s
    case Tx(op) =>
      OpKeepsBankSound(w.bank, op);
      BankStepKeepsWorld(w, op, w.calls);
    case Commit(call, batchId, day, now) =>
      if call in w.calls {
        var op := OpOf(w.calls[call], batchId, day, now);
        MatchingVersionMeansCheckHolds(w, call, batchId, day, now);
        CommittedOpIsGood(w, call, batchId, day, now);
        BankStepKeepsWorld(w, op, w.calls - {call});
      }
    case Begin(call, intent, qid, version) =>
      if Advance(w, s) != w {
        assert CallSound(w.bank, InFlight(intent, qid, version));
      }
  }

  lemma CommittedOpIsGood(w: World, call: nat, batchId: BatchId, day: string, now: int)
    requires WorldSound(w) && call in w.calls && |day| == 4
    ensures BankSound(Apply(w.bank, OpOf(w.calls[call], batchId, day, now)))
  {
    var op := OpOf(w.calls[call], batchId, day, now);
    MatchingVersionMeansCheckHolds(w, call, batchId, day, now);
    if GoodOp(op) {
      OpKeepsBankSound(w.bank, op);
    } else {
      assert Apply(w.bank, op) == w.bank;
    }
  }

  /** Every reachable state of the question bank is sound, with the four services cut between their
      reads and their writes in every possible way. */
  lemma {:induction false} EveryRunIsSound(w: World, steps: seq<Step>)
    requires WorldSound(w) && forall i :: 0 <= i < |steps| ==> GoodStep(steps[i])
    ensures WorldSound(Play(w, steps))
    decreases |steps|
  {
    if steps != [] {
      StepKeepsWorldSound(w, steps[0]);
      EveryRunIsSound(Advance(w, steps[0]), steps[1..]);
    }
  }

  /** From empty tables on, an open batch stores the number of its live questions, whoever did what. */
  lemma EveryOpenBatchIsCounted(steps: seq<Step>, b: BatchId)
    requires forall i :: 0 <= i < |steps| ==> GoodStep(steps[i])
    ensures var bank := Play(World(EMPTY, map[]), steps).bank;
            BankSound(bank) && (IsOpen(bank, b) ==> bank.batches[b].count == |Live(bank, b)|)
  {
    EmptyBankIsSound();
    EveryRunIsSound(World(EMPTY, map[]), steps);
    assert CountsMatch(Play(World(EMPTY, map[]), steps).bank);
  }
}
