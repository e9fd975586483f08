/** The question and batch services as the source runs them: read, check, and write under a version. */
module BankService {
  import opened Base
  import opened QuestionBank
  import opened QuestionReview
  import opened QuestionRuns
  import opened QuestionService
  import BankRepository
  import Numbering

  datatype Result =
    | Ok | NotFound | NotEditable | StatusInvalid | BadRequest | Referenced | VersionConflict | BatchClosed | Failed
    | Confirmed(admitted: nat, refused: nat)

  datatype RejectItem = RejectItem(qid: QuestionId, reason: string)

  const REASON_MAX := 500

  const SCENARIO_MAX := 1000
  const REQUIREMENT_MAX := 2000
  const FOCUS_MAX := 500

  predicate GoodText(content: Content) {
    1 <= |content.scenario| <= SCENARIO_MAX && 1 <= |content.requirement| <= REQUIREMENT_MAX
    && 1 <= |content.focus| <= FOCUS_MAX
  }

  /** The refusal of each service, in the order its checks are made; None when it goes on to write. The
      dimensions enabled at that moment are `enabled`. */
  function Refusal(bank: Bank, intent: Intent, qid: QuestionId, enabled: set<nat>): Option<Result> {
    if intent.Toggle? && intent.target != Active && intent.target != Disabled then Some(BadRequest)
    else if qid !in bank.questions || bank.questions[qid].deleted then Some(NotFound)
    else
      var q := bank.questions[qid];
      match intent
      case Edit(content) =>
        if !Editable(q) then Some(NotEditable) else ContentRefusal(content, enabled)
      case Toggle(target) =>
        if !Switchable(q) then Some(StatusInvalid) else if target == q.status then Some(BadRequest) else None
      case Delete =>
        if q.status == Pending then Some(StatusInvalid) else if q.references > 0 then Some(Referenced) else None
      case SendBack(content) =>
        if !Resubmittable(q) then Some(NotEditable) else ContentRefusal(content, enabled)
  }

  function ContentRefusal(content: Content, enabled: set<nat>): Option<Result> {
    if GoodText(content) && content.dimension in enabled then None else Some(BadRequest)
  }

  /** One call between its statements: what is committed between its read and its write, and between its
      write and the row it reads back for the answer. */
  datatype Gaps = Gaps(beforeWrite: seq<Op>, beforeAnswer: seq<Op>)

  /** The tables at the write and after the call. */
  function AtWrite(bank: Bank, gaps: Gaps): Bank {
    RunOps(bank, gaps.beforeWrite)
  }

  function Written(bank: Bank, c: InFlight, enabled: set<nat>, gaps: Gaps, batchId: BatchId, day: string, now: int): Bank {
    if Refusal(bank, c.intent, c.qid, enabled).None? then Apply(AtWrite(bank, gaps), OpOf(c, batchId, day, now))
    else AtWrite(bank, gaps)
  }

  function Left(bank: Bank, c: InFlight, enabled: set<nat>, gaps: Gaps, batchId: BatchId, day: string, now: int): Bank {
    RunOps(Written(bank, c, enabled, gaps, batchId, day, now), gaps.beforeAnswer)
  }

  /** What edit, toggle and delete answer: success is reported only while the row is still there, except
      by a deletion, which reads nothing back. */
  function Answer(bank: Bank, c: InFlight, enabled: set<nat>, gaps: Gaps): Result {
    match Refusal(bank, c.intent, c.qid, enabled)
    case Some(refusal) => refusal
    case None =>
      var found := c.qid in Left(bank, c, enabled, gaps, 0, "", 0).questions
                   && !Left(bank, c, enabled, gaps, 0, "", 0).questions[c.qid].deleted;
      if VersionMatches(AtWrite(bank, gaps), c.qid, c.version) then (if found || c.intent.Delete? then Ok else VersionConflict)
      else if found then VersionConflict else NotFound
  }

  /** A call that sends a version its question has had keeps the bank sound, whatever is committed in its
      gaps, and a refused or conflicting one writes nothing. */
  lemma CallKeepsBankSound(bank: Bank, c: InFlight, enabled: set<nat>, gaps: Gaps, batchId: BatchId, day: string, now: int)
    requires BankSound(bank) && AllowedRun(bank, gaps.beforeWrite) && |day| == 4
    requires IsLive(bank, c.qid) ==> c.version <= bank.questions[c.qid].version
    requires AllowedRun(Written(bank, c, enabled, gaps, batchId, day, now), gaps.beforeAnswer)
    ensures BankSound(Left(bank, c, enabled, gaps, batchId, day, now))
    ensures Refusal(bank, c.intent, c.qid, enabled).Some? || !VersionMatches(AtWrite(bank, gaps), c.qid, c.version) ==>
              Written(bank, c, enabled, gaps, batchId, day, now) == AtWrite(bank, gaps)
  {
    var mid := AtWrite(bank, gaps);
    AllowedRunIsSound(bank, gaps.beforeWrite);
    if Refusal(bank, c.intent, c.qid, enabled).None? {
      WriteKeepsBankSound(bank, c, gaps.beforeWrite, batchId, day, now);
    }
    AllowedRunIsSound(Written(bank, c, enabled, gaps, batchId, day, now), gaps.beforeAnswer);
  }

  lemma WriteKeepsBankSound(bank: Bank, c: InFlight, ops: seq<Op>, batchId: BatchId, day: string, now: int)
    requires BankSound(bank) && AllowedRun(bank, ops) && |day| == 4
    requires IsLive(bank, c.qid) && c.version <= bank.questions[c.qid].version && Precheck(c.intent, bank.questions[c.qid])
    ensures BankSound(Apply(RunOps(bank, ops), OpOf(c, batchId, day, now)))
    ensures !VersionMatches(RunOps(bank, ops), c.qid, c.version) ==>
              Apply(RunOps(bank, ops), OpOf(c, batchId, day, now)) == RunOps(bank, ops)
  {
    var mid := RunOps(bank, ops);
    AllowedRunIsSound(bank, ops);
    KnownVersionLocks(bank, c.intent, c.qid, c.version);
    if VersionMatches(mid, c.qid, c.version) {
      CheckedWriteIsAllowed(mid, c, batchId, day, now);
      OpKeepsBankSound(mid, OpOf(c, batchId, day, now));
    } else {
      StaleWriteDoesNothing(mid, c, batchId, day, now);
    }
  }

  lemma CheckedWriteIsAllowed(bank: Bank, c: InFlight, batchId: BatchId, day: string, now: int)
    requires VersionMatches(bank, c.qid, c.version) && Precheck(c.intent, bank.questions[c.qid]) && |day| == 4
    ensures GoodOp(OpOf(c, batchId, day, now)) && Allowed(bank, OpOf(c, batchId, day, now))
  {
  }

  lemma StaleWriteDoesNothing(bank: Bank, c: InFlight, batchId: BatchId, day: string, now: int)
    requires !VersionMatches(bank, c.qid, c.version)
    ensures Apply(bank, OpOf(c, batchId, day, now)) == bank
  {
  }

  /** Which calls go on to write, and how each of the others is refused. */
  lemma RefusalIff(bank: Bank, intent: Intent, qid: QuestionId, enabled: set<nat>)
    ensures var r := Refusal(bank, intent, qid, enabled);
            var badTarget := intent.Toggle? && intent.target in {Pending, Rejected};
            var fits := (intent.Edit? || intent.SendBack?) ==>
                          && intent.content.dimension in enabled && 1 <= |intent.content.scenario| <= 1000
                          && 1 <= |intent.content.requirement| <= 2000 && 1 <= |intent.content.focus| <= 500;
            && (r == Some(NotFound) <==> !badTarget && !IsLive(bank, qid))
            && (r == None <==> IsLive(bank, qid) && ReadCheck(intent, bank.questions[qid]) && fits)
            && (r == Some(Referenced) <==>
                  IsLive(bank, qid) && intent.Delete? && bank.questions[qid].status != Pending && bank.questions[qid].references != 0)
            && (r == Some(StatusInvalid) <==>
                  && IsLive(bank, qid) && !badTarget
                  && ((intent.Delete? && bank.questions[qid].status == Pending)
                      || (intent.Toggle? && bank.questions[qid].status in {Pending, Rejected})))
            && (r == Some(NotEditable) <==>
                  && IsLive(bank, qid) && (intent.Edit? || intent.SendBack?)
                  && (bank.questions[qid].source != Numbering.AI
                      || bank.questions[qid].status !in (if intent.Edit? then {Active, Disabled} else {Rejected})))
            && r in {None, Some(NotFound), Some(Referenced), Some(StatusInvalid), Some(NotEditable), Some(BadRequest)}
  {
  }

  /** Once past its checks a call succeeds exactly when the version sent is the row's at the write and, but for
      a deletion, the row is still there at the answer; otherwise it reports a conflict as long as the row is
      there, or was there at the write. */
  lemma AnswerIff(bank: Bank, c: InFlight, enabled: set<nat>, gaps: Gaps)
    requires Refusal(bank, c.intent, c.qid, enabled) == None
    ensures var r := Answer(bank, c, enabled, gaps);
            var (matched, found) := (VersionMatches(AtWrite(bank, gaps), c.qid, c.version), IsLive(Left(bank, c, enabled, gaps, 0, "", 0), c.qid));
            && (r == Ok <==> matched && (found || c.intent.Delete?))
            && (r == NotFound <==> !matched && !found)
            && (r == VersionConflict <==> r != Ok && r != NotFound)
  {
  }

  /** With nobody else at work: the version decides. */
  lemma QuietCallSucceedsIff(bank: Bank, c: InFlight, enabled: set<nat>)
    requires Refusal(bank, c.intent, c.qid, enabled) == None && !c.intent.SendBack?
    ensures IsLive(bank, c.qid)
    ensures Answer(bank, c, enabled, Gaps([], [])) == if c.version == bank.questions[c.qid].version then Ok else VersionConflict
  {
  }

  /** What a reported success means: at the write the row got exactly what was sent, one version on, and no
      other row changed; an edited text stays until another one is stored. */
  lemma OkMeansStored(bank: Bank, c: InFlight, enabled: set<nat>, gaps: Gaps)
    requires !c.intent.SendBack? && Answer(bank, c, enabled, gaps) == Ok
    ensures var (mid, after) := (AtWrite(bank, gaps), Written(bank, c, enabled, gaps, 0, "", 0));
            && VersionMatches(mid, c.qid, c.version) && c.qid in after.questions
            && (forall q :: q in mid.questions && q != c.qid ==> q in after.questions && after.questions[q] == mid.questions[q])
            && match c.intent {
                 case Edit(content) => VersionMatches(after, c.qid, c.version + 1) && after.questions[c.qid].content == content
                 case Toggle(target) => VersionMatches(after, c.qid, c.version + 1) && after.questions[c.qid].status == target
                 case Delete => after.questions[c.qid].deleted
                 case SendBack(_) => true
               }
    ensures c.intent.Edit? && (forall i: nat :: !Stored(Written(bank, c, enabled, gaps, 0, "", 0), gaps.beforeAnswer, i, c.qid)) ==>
              c.qid in Left(bank, c, enabled, gaps, 0, "", 0).questions
              && Left(bank, c, enabled, gaps, 0, "", 0).questions[c.qid].content == c.intent.content
  {
    VersionedWriteStores(AtWrite(bank, gaps), OpOf(c, 0, "", 0));
    var after := Written(bank, c, enabled, gaps, 0, "", 0);
    if c.intent.Edit? && forall i: nat :: !Stored(after, gaps.beforeAnswer, i, c.qid) {
      UnstoredContentStays(after, gaps.beforeAnswer, c.qid);
    }
  }

  class Service {
    const repo: BankRepository.Repository

    constructor (repo: BankRepository.Repository)
      ensures this.repo == repo
    {
      this.repo := repo;
    }

    method Interfere(ops: seq<Op>)
      modifies repo
      ensures repo.Tables() == RunOps(old(repo.Tables()), ops)
    {
      for i := 0 to |ops|
        invariant RunOps(repo.Tables(), ops[i..]) == RunOps(old(repo.Tables()), ops)
      {
        var after := Apply(Bank(repo.questions, repo.batches, repo.generations), ops[i]);
        assert ops[i..][1..] == ops[i + 1..];
        repo.questions, repo.batches, repo.generations := after.questions, after.batches, after.generations;
      }
    }

    /** The versioned write matched no row: the question is gone, or another writer was first. */
    method ConflictOrMissing(qid: QuestionId) returns (result: Result)
      ensures result == if IsLive(repo.Tables(), qid) then VersionConflict else NotFound
    {
      if qid in repo.questions && !repo.questions[qid].deleted {
        return VersionConflict;
      }
      return NotFound;
    }

    /** The row read back after a successful write; it may be gone by then. */
    method Reload(qid: QuestionId) returns (result: Result)
      ensures result == if IsLive(repo.Tables(), qid) then Ok else VersionConflict
    {
      if qid in repo.questions && !repo.questions[qid].deleted {
        return Ok;
      }
      return VersionConflict;
    }

    /** A refused call: others go on. */
    method Pass(gaps: Gaps)
      modifies repo
      ensures repo.Tables() == RunOps(RunOps(old(repo.Tables()), gaps.beforeWrite), gaps.beforeAnswer)
    {
      Interfere(gaps.beforeWrite);
      Interfere(gaps.beforeAnswer);
    }

    method UpdateQuestion(qid: QuestionId, version: nat, content: Content, enabled: set<nat>, gaps: Gaps) returns (result: Result)
      modifies repo
      ensures repo.Tables() == Left(old(repo.Tables()), InFlight(Edit(content), qid, version), enabled, gaps, 0, "", 0)
      ensures result == Answer(old(repo.Tables()), InFlight(Edit(content), qid, version), enabled, gaps)
      ensures result == Ok && gaps.beforeAnswer == [] ==>
                VersionMatches(repo.Tables(), qid, version + 1) && repo.questions[qid].content == content
    {
      if qid !in repo.questions || repo.questions[qid].deleted {
        Pass(gaps);
        return NotFound;
      }
      var cur := repo.questions[qid];
      if !(cur.source.AI?) || (cur.status != Active && cur.status != Disabled) {
        Pass(gaps);
        return NotEditable;
      }
      if !GoodText(content) || content.dimension !in enabled {
        Pass(gaps);
        return BadRequest;
      }
      Interfere(gaps.beforeWrite);
      var affected := repo.UpdateContentWithVersion(qid, version, content);
      Interfere(gaps.beforeAnswer);
      if affected == 0 {
        result := ConflictOrMissing(qid);
      } else {
        result := Reload(qid);
      }
    }

    method ToggleQuestionStatus(qid: QuestionId, version: nat, target: QuestionStatus, gaps: Gaps) returns (result: Result)
      modifies repo
      ensures repo.Tables() == Left(old(repo.Tables()), InFlight(Toggle(target), qid, version), {}, gaps, 0, "", 0)
      ensures result == Answer(old(repo.Tables()), InFlight(Toggle(target), qid, version), {}, gaps)
      ensures result == Ok && gaps.beforeAnswer == [] ==>
                VersionMatches(repo.Tables(), qid, version + 1) && repo.questions[qid].status == target
    {
      if target != Active && target != Disabled {
        Pass(gaps);
        return BadRequest;
      }
      if qid !in repo.questions || repo.questions[qid].deleted {
        Pass(gaps);
        return NotFound;
      }
      var cur := repo.questions[qid];
      if cur.status != Active && cur.status != Disabled {
        Pass(gaps);
        return StatusInvalid;
      }
      if target == cur.status {
        Pass(gaps);
        return BadRequest;
      }
      Interfere(gaps.beforeWrite);
      var affected := repo.UpdateStatusWithVersion(qid, version, target);
      Interfere(gaps.beforeAnswer);
      if affected == 0 {
        result := ConflictOrMissing(qid);
      } else {
        result := Reload(qid);
      }
    }

    method DeleteQuestion(qid: QuestionId, version: nat, gaps: Gaps) returns (result: Result)
      modifies repo
      ensures repo.Tables() == Left(old(repo.Tables()), InFlight(Delete, qid, version), {}, gaps, 0, "", 0)
      ensures result == Answer(old(repo.Tables()), InFlight(Delete, qid, version), {}, gaps)
      ensures result == Ok && gaps.beforeAnswer == [] ==> qid in repo.questions && repo.questions[qid].deleted
    {
      if qid !in repo.questions || repo.questions[qid].deleted {
        Pass(gaps);
        return NotFound;
      }
      var cur := repo.questions[qid];
      if cur.status == Pending {
        Pass(gaps);
        return StatusInvalid;
      }
      if cur.references > 0 {
        Pass(gaps);
        return Referenced;
      }
      Interfere(gaps.beforeWrite);
      var affected := repo.SoftDeleteWithVersion(qid, version);
      Interfere(gaps.beforeAnswer);
      if affected == 0 {
        result := ConflictOrMissing(qid);
      } else {
        result := Ok;
      }
    }

    /** The reject items one by one; the last reason for a question counts. */
    method CheckItems(items: seq<RejectItem>, rows: set<QuestionId>) returns (rejected: Option<map<QuestionId, string>>)
      ensures rejected == if GoodItems(items, rows) then Some(LastReasons(items)) else None
    {
      var reasons: map<QuestionId, string> := map[];
      for i := 0 to |items|
        invariant GoodItems(items[..i], rows)
        invariant reasons == LastReasons(items[..i])
      {
        if |items[i].reason| < 1 || |items[i].reason| > REASON_MAX {
          return None;
        }
        if items[i].qid !in rows {
          return None;
        }
        reasons := reasons[items[i].qid := items[i].reason];
        assert items[..i + 1][..i] == items[..i];
      }
      assert items[..|items|] == items;
      rejected := Some(reasons);
    }

    /** Read the batch, read its questions, check every reject item and the count, then run the confirm
        transaction; others commit between any two of the three statements. */
    method ConfirmBatch(batchId: BatchId, items: seq<RejectItem>, beforeRows: seq<Op>, beforeWrite: seq<Op>) returns (result: Result)
      modifies repo
      ensures var bank := old(repo.Tables());
              var listed := RunOps(bank, beforeRows);
              var mid := RunOps(listed, beforeWrite);
              match ConfirmRefusal(bank, listed, batchId, items)
              case Some(refusal) => result == refusal && repo.Tables() == mid
              case None =>
                var rejected := LastReasons(items);
                repo.Tables() == Apply(mid, Confirm(batchId, rejected))
                && result == (if IsOpen(mid, batchId)
                              then Confirmed(|AdmittedIn(mid, batchId, rejected)|, |RejectedIn(mid, batchId, rejected)|)
                              else BatchClosed)
    {
      if batchId !in repo.batches {
        Pass(Gaps(beforeRows, beforeWrite));
        return NotFound;
      }
      if repo.batches[batchId].status != Open {
        Pass(Gaps(beforeRows, beforeWrite));
        return BatchClosed;
      }
      var count := repo.batches[batchId].count;
      Interfere(beforeRows);
      var rows := set q | q in repo.questions && !repo.questions[q].deleted && repo.questions[q].batchId == batchId;
      var checked := CheckItems(items, rows);
      Interfere(beforeWrite);
      if checked == None {
        return BadRequest;
      }
      var rejected := checked.value;
      if |rows| != count {
        return VersionConflict;
      }
      var ok, admitted, refused := repo.ConfirmBatch(batchId, rejected);
      if !ok {
        return BatchClosed;
      }
      result := Confirmed(admitted, refused);
    }

    method ResubmitQuestion(qid: QuestionId, version: nat, content: Content, enabled: set<nat>, gaps: Gaps,
                            batchId: BatchId, day: string, now: int)
      returns (result: Result)
      modifies repo
      ensures repo.Tables() == Left(old(repo.Tables()), InFlight(SendBack(content), qid, version), enabled, gaps, batchId, day, now)
      ensures var mid := AtWrite(old(repo.Tables()), gaps);
              result == match Refusal(old(repo.Tables()), SendBack(content), qid, enabled) {
                case Some(refusal) => refusal
                case None =>
                  if ResubmitBatches(mid, batchId, day, now).None? then Failed
                  else if !VersionMatches(mid, qid, version) then VersionConflict
                  else if IsLive(repo.Tables(), qid) then Ok else VersionConflict
              }
    {
      if qid !in repo.questions || repo.questions[qid].deleted {
        Pass(gaps);
        return NotFound;
      }
      var cur := repo.questions[qid];
      if !(cur.source.AI?) || cur.status != Rejected {
        Pass(gaps);
        return NotEditable;
      }
      if !GoodText(content) || content.dimension !in enabled {
        Pass(gaps);
        return BadRequest;
      }
      Interfere(gaps.beforeWrite);
      var joined := repo.ResubmitToBatch(qid, version, content, batchId, day, now);
      Interfere(gaps.beforeAnswer);
      match joined {
        case Joined(_) => result := Reload(qid);
        case KeyTaken => result := Failed;
        case Stale => result := VersionConflict;
      }
    }
  }

  predicate GoodItem(item: RejectItem, rows: set<QuestionId>) {
    1 <= |item.reason| <= REASON_MAX && item.qid in rows
  }

  /** The reject map: of several items for one question the last one counts. */
  function LastReasons(items: seq<RejectItem>): map<QuestionId, string> {
    if items == [] then map[]
    else LastReasons(items[..|items| - 1])[items[|items| - 1].qid := items[|items| - 1].reason]
  }

  predicate GoodItems(items: seq<RejectItem>, rows: set<QuestionId>) {
    forall i :: 0 <= i < |items| ==> GoodItem(items[i], rows)
  }

  /** The batch row is read in `bank` and its questions in `listed`. */
  function ConfirmRefusal(bank: Bank, listed: Bank, batchId: BatchId, items: seq<RejectItem>): Option<Result> {
    if batchId !in bank.batches then Some(NotFound)
    else if bank.batches[batchId].status != Open then Some(BatchClosed)
    else if !GoodItems(items, Live(listed, batchId)) then Some(BadRequest)
    else if |Live(listed, batchId)| != bank.batches[batchId].count then Some(VersionConflict)
    else None
  }

  /** Which confirms go on to their transaction, and how each of the others is refused. */
  lemma ConfirmRefusalIff(bank: Bank, listed: Bank, b: BatchId, items: seq<RejectItem>)
    ensures var r := ConfirmRefusal(bank, listed, b, items);
            var bad := exists i :: 0 <= i < |items| && !(1 <= |items[i].reason| <= 500 && items[i].qid in Live(listed, b));
            && (r == Some(NotFound) <==> b !in bank.batches)
            && (r == Some(BatchClosed) <==> b in bank.batches && !IsOpen(bank, b))
            && (r == Some(BadRequest) <==> IsOpen(bank, b) && bad)
            && (r == Some(VersionConflict) <==> IsOpen(bank, b) && !bad && |Live(listed, b)| != bank.batches[b].count)
            && (r == None <==> IsOpen(bank, b) && !bad && |Live(listed, b)| == bank.batches[b].count)
  {
  }

  /** The count check refuses a proper confirm of a batch still open exactly when a question was resubmitted
      into it between the read of the batch and the read of its questions. */
  lemma CountCheckFiresIff(bank: Bank, beforeRows: seq<Op>, b: BatchId, items: seq<RejectItem>)
    requires BankSound(bank) && IsOpen(bank, b) && AllowedRun(bank, beforeRows)
    requires IsOpen(RunOps(bank, beforeRows), b) && GoodItems(items, Live(RunOps(bank, beforeRows), b))
    ensures ConfirmRefusal(bank, RunOps(bank, beforeRows), b, items)
         == if Joined(bank, beforeRows, b) == {} then None else Some(VersionConflict)
  {
    OpenBatchOnlyGrows(bank, beforeRows, b);
    DisjointSizes(Live(bank, b), Joined(bank, beforeRows, b));
    assert bank.batches[b].count == |Live(bank, b)|;
  }

  /** A batch settled by someone else before its questions were read is not confirmed again. */
  lemma SettledBatchIsLeftAlone(bank: Bank, beforeRows: seq<Op>, beforeWrite: seq<Op>, b: BatchId, rejected: map<QuestionId, string>)
    requires b in bank.batches && !IsOpen(RunOps(bank, beforeRows), b)
    ensures var mid := RunOps(RunOps(bank, beforeRows), beforeWrite);
            !IsOpen(mid, b) && Apply(mid, Confirm(b, rejected)) == mid
  {
    BatchOutlives(bank, beforeRows, b);
    ClosedStaysClosed(RunOps(bank, beforeRows), beforeWrite, b);
  }

  /** What a committed confirm settles: the listed questions, rejecting exactly the ones with an item, and
      every question resubmitted into the batch since it was listed, which is admitted unseen. */
  lemma ConfirmSettlesListedAndJoined(listed: Bank, beforeWrite: seq<Op>, b: BatchId, items: seq<RejectItem>)
    requires BankSound(listed) && IsOpen(listed, b) && AllowedRun(listed, beforeWrite)
    requires IsOpen(RunOps(listed, beforeWrite), b) && GoodItems(items, Live(listed, b))
    ensures var mid := RunOps(listed, beforeWrite);
            var (admitted, refused) := (AdmittedIn(mid, b, LastReasons(items)), RejectedIn(mid, b, LastReasons(items)));
            && refused == LastReasons(items).Keys
            && admitted == (Live(listed, b) - LastReasons(items).Keys) + Joined(listed, beforeWrite, b)
            && (admitted + refused == Live(listed, b) <==> Joined(listed, beforeWrite, b) == {})
  {
    var mid := RunOps(listed, beforeWrite);
    LiveGrows(listed, beforeWrite, b);
    ItemsAreListed(items, Live(listed, b));
    WaitingSplit(mid, b, LastReasons(items));
    SetSplit(Live(listed, b), Joined(listed, beforeWrite, b), LastReasons(items).Keys);
  }

  lemma LiveGrows(listed: Bank, ops: seq<Op>, b: BatchId)
    requires BankSound(listed) && b in listed.batches && AllowedRun(listed, ops) && IsOpen(RunOps(listed, ops), b)
    ensures Live(RunOps(listed, ops), b) == Live(listed, b) + Joined(listed, ops, b)
    ensures Live(listed, b) !! Joined(listed, ops, b)
    ensures ReviewSound(RunOps(listed, ops))
  {
    OpenBatchOnlyGrows(listed, ops, b);
    AllowedRunIsSound(listed, ops);
  }

  lemma ItemsAreListed(items: seq<RejectItem>, rows: set<QuestionId>)
    requires GoodItems(items, rows)
    ensures LastReasons(items).Keys <= rows
  {
    LastReasonsKeys(items);
  }

  lemma SetSplit(listed: set<QuestionId>, joined: set<QuestionId>, rejected: set<QuestionId>)
    requires listed !! joined && rejected <= listed
    ensures (listed + joined) - rejected == (listed - rejected) + joined
    ensures ((listed + joined) - rejected) + rejected == listed <==> joined == {}
  {
  }

  lemma WaitingSplit(bank: Bank, b: BatchId, rejected: map<QuestionId, string>)
    requires ReviewSound(bank) && IsOpen(bank, b) && rejected.Keys <= Live(bank, b)
    ensures RejectedIn(bank, b, rejected) == rejected.Keys
    ensures AdmittedIn(bank, b, rejected) == Live(bank, b) - rejected.Keys
  {
    forall q | q in Live(bank, b) ensures bank.questions[q].status == Pending {
      OpenBatchIsPending(bank, b, q);
    }
  }

  /** The rejected questions are exactly the ones with an item, whatever the order and repetitions. */
  lemma {:induction false} LastReasonsKeys(items: seq<RejectItem>)
    ensures forall q :: q in LastReasons(items) <==> exists i :: 0 <= i < |items| && items[i].qid == q
  {
    if items != [] {
      var k := |items| - 1;
      LastReasonsKeys(items[..k]);
      assert items == items[..k] + [items[k]];
      forall q | q in LastReasons(items) ensures exists i :: 0 <= i < |items| && items[i].qid == q {
        if q == items[k].qid { assert items[k].qid == q; }
        else {
          assert q in LastReasons(items[..k]);
          var i :| 0 <= i < |items[..k]| && items[..k][i].qid == q;
          assert items[i].qid == q;
        }
      }
    }
  }

  /** And the reason kept for a question is that of its last item. */
  lemma {:induction false} LastReasonCounts(items: seq<RejectItem>, i: nat)
    requires i < |items| && forall j :: i < j < |items| ==> items[j].qid != items[i].qid
    ensures items[i].qid in LastReasons(items) && LastReasons(items)[items[i].qid] == items[i].reason
  {
    var k := |items| - 1;
    if i < k { LastReasonCounts(items[..k], i); }
  }
}
