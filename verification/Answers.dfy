/** The answer protocol on top of the task tables: open the test, reply in order, submit.

    A call is several statements. Calls on different tasks, and everything administrators and workers
    commit, may come between any two of them; calls on one task follow one another. */
module Answers {
  import opened Base
  import opened TestTasks

  datatype AnswerRow = AnswerRow(taskId: TaskId, seqNo: nat, content: string)

  datatype Intent = Open | Reply(texts: Texts, content: string) | Submit(enqueueOk: bool)

  /** What a call has read so far: the link, the task its token check accepted, the status on which the
      session start will decide, or the number of stored replies. */
  datatype Call =
    | LinkRead(intent: Intent, link: Link)
    | Accepted(intent: Intent, task: Task)
    | Loaded(task: Task, status: TaskStatus)
    | Listing(task: Task)
    | Counted(intent: Intent, task: Task, n: nat)

  /** The tables and, for each task, the call under way on it. */
  datatype World = World(db: Db, answers: seq<AnswerRow>, calls: map<TaskId, Call>)

  /** A question as it reads now; its text may have been edited since the task was created. */
  datatype Question = Question(dimensionId: nat, scenario: string, requirement: string)
  datatype Item = Item(seqNo: nat, dimensionName: string, scenario: string, requirement: string)
  /** The question bank and the names of the snapshotted dimensions, as read by one call. */
  datatype Texts = Texts(questions: map<nat, Question>, dimensionNames: map<nat, string>)

  datatype ContextResult =
    | Opened(total: nat, answered: nat, finished: bool, questions: seq<Item>, replies: seq<(nat, string)>)
    | ContextRefused
    | ContextFailed
  datatype ReplyResult = Next(seqNo: nat, next: Item) | Finished(seqNo: nat) | TokenRefused | ReplyRefused | ReplyFailed
  datatype SubmitResult = Submitted(taskNo: string) | SubmitRefused | Incomplete | SubmitFailed

  const CONTENT_MAX_RUNES := 500

  // ---------------------------------------------------------------- reading

  predicate LinkFound(db: Db, token: Token) {
    token != "" && token in db.links && db.links[token].status != Invalid
  }

  /** The token check on the rows it has read: expiry first, then the status. */
  predicate Accepts(link: Link, task: Task, now: int, allowCompleted: bool) {
    && (link.expiresAt >= now || task.status == InProgress)
    && (task.status == Pending || task.status == InProgress || (task.status == Completed && allowCompleted && link.status == Used))
  }

  /** The token check with both rows read at one instant. */
  function Validate(db: Db, token: Token, now: int, allowCompleted: bool): Option<TaskId> {
    if !LinkFound(db, token) || db.links[token].taskId !in db.tasks then None
    else if Accepts(db.links[token], db.tasks[db.links[token].taskId], now, allowCompleted) then Some(db.links[token].taskId)
    else None
  }

  function RowsOf(answers: seq<AnswerRow>, id: TaskId): seq<AnswerRow> {
    if answers == [] then []
    else
      var before := RowsOf(answers[..|answers| - 1], id);
      if answers[|answers| - 1].taskId == id then before + [answers[|answers| - 1]] else before
  }

  function Total(db: Db, id: TaskId): nat
    requires id in db.tasks
  {
    |db.tasks[id].questionIds|
  }

  /** Items for a list of question ids, numbered from 1, or None when some question is gone. */
  function Items(texts: Texts, testType: TestType, ids: seq<nat>): Option<seq<Item>> {
    if exists i :: 0 <= i < |ids| && ids[i] !in texts.questions then None
    else Some(seq(|ids|, i requires 0 <= i < |ids| && ids[i] in texts.questions => ItemAt(texts, testType, ids, i)))
  }

  function ItemAt(texts: Texts, testType: TestType, ids: seq<nat>, i: nat): Item
    requires i < |ids| && ids[i] in texts.questions
  {
    var q := texts.questions[ids[i]];
    var name := if testType == AiMgmt && q.dimensionId in texts.dimensionNames then texts.dimensionNames[q.dimensionId] else "";
    Item(i + 1, name, q.scenario, q.requirement)
  }

  function {:tailrecursion} TrimLeft(s: string): string {
    if s != "" && IsSpace(s[0]) then TrimLeft(s[1..]) else s
  }

  function {:tailrecursion} TrimRight(s: string): string {
    if s != "" && IsSpace(s[|s| - 1]) then TrimRight(s[..|s| - 1]) else s
  }

  function Trim(s: string): string {
    TrimRight(TrimLeft(s))
  }

  /** The Unicode white space characters. */
  predicate IsSpace(c: char) {
    var n := c as int;
    9 <= n <= 13 || n in {0x20, 0x85, 0xA0, 0x1680, 0x2028, 0x2029, 0x202F, 0x205F, 0x3000} || 0x2000 <= n <= 0x200A
  }

  /** Free text of at most 500 characters, or a single digit 1 to 5. */
  predicate ValidContent(testType: TestType, content: string) {
    content != "" && match testType
      case AiMgmt => |content| <= CONTENT_MAX_RUNES
      case Enneagram => |content| == 1 && '1' <= content[0] <= '5'
  }

  // ---------------------------------------------------------------- what a call decides

  /** What a reply decides once the stored replies are counted; everything that can fail comes before the
      one insert. */
  function ReplyVerdict(task: Task, n: nat, texts: Texts, content: string): ReplyResult {
    if n + 1 > |task.questionIds| || !ValidContent(task.testType, Trim(content)) then ReplyRefused
    else if n + 1 == |task.questionIds| then Finished(n + 1)
    else match Items(texts, task.testType, [task.questionIds[n + 1]])
      case None => ReplyFailed
      case Some(items) => Next(n + 1, items[0].(seqNo := n + 2))
  }

  predicate Stores(verdict: ReplyResult) {
    verdict.Next? || verdict.Finished?
  }

  /** The session start: the guarded update moved a row, or the status read before it was in progress. */
  predicate Started(db: Db, id: TaskId, read: TaskStatus) {
    HasStatus(db, id, {Pending}) || read == InProgress
  }

  /** The answer table lists a task's rows by sequence number. */
  function BySeqNo(rows: seq<AnswerRow>): seq<AnswerRow> {
    if rows == [] then [] else InsertBySeqNo(BySeqNo(rows[..|rows| - 1]), rows[|rows| - 1])
  }

  function InsertBySeqNo(rows: seq<AnswerRow>, row: AnswerRow): seq<AnswerRow> {
    if rows == [] || rows[|rows| - 1].seqNo <= row.seqNo then rows + [row]
    else InsertBySeqNo(rows[..|rows| - 1], row) + [rows[|rows| - 1]]
  }

  function ReplyPairs(rows: seq<AnswerRow>): seq<(nat, string)> {
    seq(|rows|, i requires 0 <= i < |rows| => (rows[i].seqNo, rows[i].content))
  }

  /** What an opened test shows. */
  function ContextVerdict(task: Task, texts: Texts, rows: seq<AnswerRow>): ContextResult {
    match Items(texts, task.testType, task.questionIds)
    case None => ContextFailed
    case Some(items) =>
      var sorted := BySeqNo(rows);
      Opened(|task.questionIds|, |sorted|, |sorted| >= |task.questionIds|, items, ReplyPairs(sorted))
  }

  // ---------------------------------------------------------------- the protocol, one statement a step

  datatype Step =
    | Admin(op: Op)
    | ReadLink(token: Token, intent: Intent)
    | ReadTask(id: TaskId, now: int)
    | Load(id: TaskId)
    | StartSession(id: TaskId)
    | ListRows(id: TaskId)
    | Count(id: TaskId)
    | Write(id: TaskId, now: int)
    | Abandon(id: TaskId)

  /** Other callers' transactions: everything but completing a session. */
  predicate GoodStep(s: Step) {
    s.Admin? ==> GoodOp(s.op) && !s.op.Complete?
  }

  predicate GoodSteps(steps: seq<Step>) {
    forall i :: 0 <= i < |steps| ==> GoodStep(steps[i])
  }

  /** The call of a task and where it goes next; a call that ends is forgotten. */
  function Goes(w: World, id: TaskId, next: Option<Call>): map<TaskId, Call> {
    match next
    case None => w.calls - {id}
    case Some(call) => w.calls[id := call]
  }

  /** After the task is read: refused, answered at once when it is completed already, or accepted. */
  function AfterTask(db: Db, id: TaskId, intent: Intent, link: Link, now: int): Option<Call> {
    if id in db.tasks && Accepts(link, db.tasks[id], now, intent.Submit?) && db.tasks[id].status != Completed
    then Some(Accepted(intent, db.tasks[id])) else None
  }

  /** The tables after the write of a call: a reply adds its row, a submit past its gate completes. */
  function Written(w: World, id: TaskId, call: Call, now: int): World
    requires call.Counted?
  {
    match call.intent
    case Open => w
    case Reply(texts, content) =>
      if Stores(ReplyVerdict(call.task, call.n, texts, content))
      then w.(answers := w.answers + [AnswerRow(id, call.n + 1, Trim(content))]) else w
    case Submit(enqueueOk) =>
      if call.n >= |call.task.questionIds| then w.(db := Apply(w.db, Complete(id, now, enqueueOk))) else w
  }

  function Advance(w: World, s: Step): World {
    match s
    case Admin(op) => w.(db := Apply(w.db, op))
    case ReadLink(token, intent) =>
      if !LinkFound(w.db, token) || w.db.links[token].taskId in w.calls then w
      else w.(calls := Goes(w, w.db.links[token].taskId, Some(LinkRead(intent, w.db.links[token]))))
    case ReadTask(id, now) =>
      if id !in w.calls || !w.calls[id].LinkRead? then w
      else w.(calls := Goes(w, id, AfterTask(w.db, id, w.calls[id].intent, w.calls[id].link, now)))
    case Load(id) =>
      if id !in w.calls || !w.calls[id].Accepted? || !w.calls[id].intent.Open? then w
      else if id !in w.db.tasks then w.(calls := Goes(w, id, None))
      else w.(calls := Goes(w, id, Some(Loaded(w.calls[id].task, w.db.tasks[id].status))))
    case StartSession(id) =>
      if id !in w.calls || !w.calls[id].Loaded? then w
      else w.(db := Apply(w.db, Start(id)),
              calls := Goes(w, id, if Started(w.db, id, w.calls[id].status) then Some(Listing(w.calls[id].task)) else None))
    case ListRows(id) =>
      if id !in w.calls || !w.calls[id].Listing? then w else w.(calls := Goes(w, id, None))
    case Count(id) =>
      if id !in w.calls || !w.calls[id].Accepted? || w.calls[id].intent.Open? then w
      else w.(calls := Goes(w, id, Some(Counted(w.calls[id].intent, w.calls[id].task, |RowsOf(w.answers, id)|))))
    case Write(id, now) =>
      if id !in w.calls || !w.calls[id].Counted? then w
      else Written(w, id, w.calls[id], now).(calls := Goes(w, id, None))
    case Abandon(id) => w.(calls := Goes(w, id, None))
  }

  function Play(w: World, steps: seq<Step>): World
    decreases |steps|
  {
    if steps == [] then w else Play(Advance(w, steps[0]), steps[1..])
  }

  // ---------------------------------------------------------------- the invariant

  /** Stored replies of a task are numbered 1, 2, ..., n in the order they were stored. */
  ghost predicate InOrder(rows: seq<AnswerRow>) {
    forall i :: 0 <= i < |rows| ==> rows[i].seqNo == i + 1
  }

  ghost predicate TaskAnswersSound(w: World, id: TaskId) {
    InOrder(RowsOf(w.answers, id))
    && (id !in w.db.tasks ==> RowsOf(w.answers, id) == [])
    && (id in w.db.tasks ==> |RowsOf(w.answers, id)| <= Total(w.db, id))
    && (HasStatus(w.db, id, {Completed}) ==> |RowsOf(w.answers, id)| == Total(w.db, id))
  }

  /** The task a call has read is still what it was: same questions, not completed by anyone else. */
  ghost predicate StillOpen(db: Db, id: TaskId, task: Task) {
    id in db.tasks && SameSnapshot(task, db.tasks[id]) && db.tasks[id].status != Completed
  }

  /** What holds of a call between two of its statements, whatever others have committed. */
  ghost predicate CallSound(w: World, id: TaskId, call: Call) {
    match call
    case LinkRead(_, link) => link.taskId == id
    case Accepted(_, task) => StillOpen(w.db, id, task)
    case Loaded(task, _) => StillOpen(w.db, id, task)
    case Listing(task) => StillOpen(w.db, id, task)
    case Counted(_, task, n) => StillOpen(w.db, id, task) && n == |RowsOf(w.answers, id)|
  }

  ghost predicate WorldSound(w: World) {
    && Sound(w.db)
    && (forall id :: TaskAnswersSound(w, id))
    && (forall id :: id in w.calls ==> CallSound(w, id, w.calls[id]))
  }

  /** One task across a transaction: its snapshot stays and nobody completes it. */
  ghost predicate TaskKept(db: Db, after: Db, id: TaskId) {
    && (id in db.tasks ==> id in after.tasks && SameSnapshot(db.tasks[id], after.tasks[id]))
    && (HasStatus(after, id, {Completed}) <==> HasStatus(db, id, {Completed}))
  }

  lemma OpKeepsTask(db: Db, op: Op, id: TaskId)
    requires !op.Complete? || op.id != id
    ensures TaskKept(db, Apply(db, op), id)
  {
  }

  /** Nothing but the tables moved, and no task was completed. */
  lemma TablesMove(w: World, after: World)
    requires WorldSound(w) && Sound(after.db) && after.answers == w.answers && after.calls == w.calls
    requires forall id :: TaskKept(w.db, after.db, id)
    ensures WorldSound(after)
  {
    forall id ensures TaskAnswersSound(after, id) {
      assert TaskAnswersSound(w, id) && TaskKept(w.db, after.db, id);
    }
    forall id | id in after.calls ensures CallSound(after, id, after.calls[id]) {
      assert CallSound(w, id, w.calls[id]) && TaskKept(w.db, after.db, id);
    }
  }

  lemma OpMovesTables(w: World, op: Op)
    requires WorldSound(w) && GoodOp(op) && !op.Complete?
    ensures WorldSound(w.(db := Apply(w.db, op)))
  {
    StepKeepsSound(w.db, op);
    forall id ensures TaskKept(w.db, Apply(w.db, op), id) { OpKeepsTask(w.db, op, id); }
    TablesMove(w, w.(db := Apply(w.db, op)));
  }

  lemma CallMoves(w: World, id: TaskId, next: Option<Call>)
    requires WorldSound(w) && (next.Some? ==> CallSound(w, id, next.value))
    ensures WorldSound(w.(calls := Goes(w, id, next)))
  {
    var after := w.(calls := Goes(w, id, next));
    forall i ensures TaskAnswersSound(after, i) {
      assert TaskAnswersSound(w, i);
    }
    forall i | i in after.calls ensures CallSound(after, i, after.calls[i]) {
      if i in w.calls { assert CallSound(w, i, w.calls[i]); }
    }
  }

  lemma RowsOfAppend(answers: seq<AnswerRow>, row: AnswerRow, id: TaskId)
    ensures RowsOf(answers + [row], id) == if row.taskId == id then RowsOf(answers, id) + [row] else RowsOf(answers, id)
  {
    assert (answers + [row])[..|answers|] == answers;
  }

  /** One more row at the end of an open task's rows, by the call that ends with it. */
  lemma OneMoreAnswer(w: World, row: AnswerRow)
    requires WorldSound(w) && row.taskId in w.db.tasks && !HasStatus(w.db, row.taskId, {Completed})
    requires row.seqNo == |RowsOf(w.answers, row.taskId)| + 1 <= Total(w.db, row.taskId)
    ensures WorldSound(w.(answers := w.answers + [row], calls := w.calls - {row.taskId}))
  {
    var after := w.(answers := w.answers + [row], calls := w.calls - {row.taskId});
    forall id ensures TaskAnswersSound(after, id) {
      RowsOfAppend(w.answers, row, id);
      assert TaskAnswersSound(w, id);
    }
    forall id | id in after.calls ensures CallSound(after, id, after.calls[id]) {
      RowsOfAppend(w.answers, row, id);
      assert CallSound(w, id, w.calls[id]);
    }
  }

  /** Completing a task whose replies are all there, by the call that ends with it. */
  lemma AnsweredTaskCompletes(w: World, id: TaskId, now: int, enqueueOk: bool)
    requires WorldSound(w) && id in w.db.tasks && |RowsOf(w.answers, id)| >= Total(w.db, id)
    ensures WorldSound(w.(db := Apply(w.db, Complete(id, now, enqueueOk)), calls := w.calls - {id}))
  {
    var op := Complete(id, now, enqueueOk);
    var after := w.(db := Apply(w.db, op), calls := w.calls - {id});
    StepKeepsSound(w.db, op);
    forall i ensures TaskAnswersSound(after, i) {
      assert TaskAnswersSound(w, i);
      if i != id { OpKeepsTask(w.db, op, i); }
    }
    forall i | i in after.calls ensures CallSound(after, i, after.calls[i]) {
      OpKeepsTask(w.db, op, i);
      assert CallSound(w, i, w.calls[i]);
    }
  }

  lemma WriteKeepsSound(w: World, id: TaskId, now: int)
    requires WorldSound(w) && id in w.calls && w.calls[id].Counted?
    ensures WorldSound(Advance(w, Write(id, now)))
  {
    var call := w.calls[id];
    assert CallSound(w, id, call);
    match call.intent {
      case Open => CallMoves(w, id, None);
      case Reply(texts, content) =>
        if Stores(ReplyVerdict(call.task, call.n, texts, content)) {
          OneMoreAnswer(w, AnswerRow(id, call.n + 1, Trim(content)));
        } else {
          CallMoves(w, id, None);
        }
      case Submit(enqueueOk) =>
        if call.n >= |call.task.questionIds| {
          AnsweredTaskCompletes(w, id, now, enqueueOk);
        } else {
          CallMoves(w, id, None);
        }
    }
  }

  lemma StartKeepsSound(w: World, id: TaskId)
    requires WorldSound(w) && id in w.calls && w.calls[id].Loaded?
    ensures WorldSound(Advance(w, StartSession(id)))
  {
    var call := w.calls[id];
    var after := w.(db := Apply(w.db, Start(id)));
    OpMovesTables(w, Start(id));
    assert CallSound(after, id, call);
    CallMoves(after, id, if Started(w.db, id, call.status) then Some(Listing(call.task)) else None);
  }

  lemma StepKeepsWorldSound(w: World, s: Step)
    requires WorldSound(w) && GoodStep(s)
    ensures WorldSound(Advance(w, s))
  {
    match s
    case Admin(op) => OpMovesTables(w, op);
    case StartSession(id) => if id in w.calls && w.calls[id].Loaded? { StartKeepsSound(w, id); }
    case Write(id, now) => if id in w.calls && w.calls[id].Counted? { WriteKeepsSound(w, id, now); }
    case _ => ReadKeepsSound(w, s);
  }

  /** The steps that only read. */
  lemma ReadKeepsSound(w: World, s: Step)
    requires WorldSound(w) && !s.Admin? && !s.StartSession? && !s.Write?
    ensures WorldSound(Advance(w, s))
  {
    match s
    case ReadLink(token, intent) =>
      if Advance(w, s) != w { CallMoves(w, w.db.links[token].taskId, Some(LinkRead(intent, w.db.links[token]))); }
    case ReadTask(id, now) =>
      if id in w.calls && w.calls[id].LinkRead? {
        CallMoves(w, id, AfterTask(w.db, id, w.calls[id].intent, w.calls[id].link, now));
      }
    case Load(id) =>
      if id in w.calls && w.calls[id].Accepted? && w.calls[id].intent.Open? {
        assert CallSound(w, id, w.calls[id]);
        CallMoves(w, id, Some(Loaded(w.calls[id].task, w.db.tasks[id].status)));
      }
    case Count(id) =>
      if id in w.calls && w.calls[id].Accepted? && !w.calls[id].intent.Open? {
        assert CallSound(w, id, w.calls[id]);
        CallMoves(w, id, Some(Counted(w.calls[id].intent, w.calls[id].task, |RowsOf(w.answers, id)|)));
      }
    case ListRows(id) => CallMoves(w, id, None);
    case Abandon(id) => CallMoves(w, id, None);
  }

  /** In every interleaving of calls on different tasks, administrators and workers, replies of a task are
      exactly 1..n with n at most the question total, and it is completed only when n equals the total. */
  lemma {:induction false} EveryPlayIsSound(w: World, steps: seq<Step>)
    requires WorldSound(w) && GoodSteps(steps)
    ensures WorldSound(Play(w, steps))
    decreases |steps|
  {
    if steps != [] {
      assert GoodStep(steps[0]);
      StepKeepsWorldSound(w, steps[0]);
      EveryPlayIsSound(Advance(w, steps[0]), steps[1..]);
    }
  }

  /** From empty tables on. */
  lemma EveryReachableWorldIsSound(steps: seq<Step>)
    requires GoodSteps(steps)
    ensures WorldSound(Play(World(EMPTY, [], map[]), steps))
  {
    EveryPlayIsSound(World(EMPTY, [], map[]), steps);
  }

  // ---------------------------------------------------------------- one call among others

  /** The step belongs to another task's call, or to no call. */
  ghost predicate StepNotOn(w: World, s: Step, id: TaskId) {
    match s
    case Admin(_) => true
    case ReadLink(token, _) => token in w.db.links ==> w.db.links[token].taskId != id
    case _ => s.id != id
  }

  ghost predicate NotOn(w: World, steps: seq<Step>, id: TaskId)
    decreases |steps|
  {
    steps == [] || (GoodStep(steps[0]) && StepNotOn(w, steps[0], id) && NotOn(Advance(w, steps[0]), steps[1..], id))
  }

  function With(w: World, id: TaskId, call: Call): World {
    w.(calls := w.calls[id := call])
  }

  lemma KeysApart(m: map<TaskId, Call>, id: TaskId, call: Call, j: TaskId)
    requires j != id && id !in m
    ensures m[id := call] - {j} == (m - {j})[id := call]
  {
  }

  lemma EntriesApart(m: map<TaskId, Call>, id: TaskId, call: Call, j: TaskId, other: Call)
    requires j != id
    ensures m[id := call][j := other] == m[j := other][id := call]
  {
  }

  /** A call under way is invisible to the others. */
  lemma StepCommutes(w: World, s: Step, id: TaskId, call: Call)
    requires StepNotOn(w, s, id) && id !in w.calls
    ensures id !in Advance(w, s).calls
    ensures Advance(With(w, id, call), s) == With(Advance(w, s), id, call)
  {
    if !s.Admin? && !(s.ReadLink? && !LinkFound(w.db, s.token)) {
      var j := if s.ReadLink? then w.db.links[s.token].taskId else s.id;
      KeysApart(w.calls, id, call, j);
      if j in Advance(w, s).calls {
        EntriesApart(w.calls, id, call, j, Advance(w, s).calls[j]);
      }
    }
  }

  lemma {:induction false} OthersCommute(w: World, steps: seq<Step>, id: TaskId, call: Call)
    requires NotOn(w, steps, id) && id !in w.calls
    ensures id !in Play(w, steps).calls
    ensures Play(With(w, id, call), steps) == With(Play(w, steps), id, call)
    decreases |steps|
  {
    if steps != [] {
      StepCommutes(w, steps[0], id, call);
      OthersCommute(Advance(w, steps[0]), steps[1..], id, call);
    }
  }

  /** The others store no reply of this task, leave its snapshot and do not complete it. */
  lemma {:induction false} OthersLeaveTask(w: World, steps: seq<Step>, id: TaskId)
    requires NotOn(w, steps, id)
    ensures TaskKept(w.db, Play(w, steps).db, id) && RowsOf(Play(w, steps).answers, id) == RowsOf(w.answers, id)
    decreases |steps|
  {
    if steps != [] {
      StepLeavesTask(w, steps[0], id);
      OthersLeaveTask(Advance(w, steps[0]), steps[1..], id);
    }
  }

  lemma StepLeavesTask(w: World, s: Step, id: TaskId)
    requires GoodStep(s) && StepNotOn(w, s, id)
    ensures TaskKept(w.db, Advance(w, s).db, id) && RowsOf(Advance(w, s).answers, id) == RowsOf(w.answers, id)
  {
    match s
    case Admin(op) => OpKeepsTask(w.db, op, id);
    case StartSession(j) => OpKeepsTask(w.db, Start(j), id);
    case Write(j, now) =>
      if j in w.calls && w.calls[j].Counted? {
        match w.calls[j].intent {
          case Open =>
          case Reply(_, content) => RowsOfAppend(w.answers, AnswerRow(j, w.calls[j].n + 1, Trim(content)), id);
          case Submit(enqueueOk) => OpKeepsTask(w.db, Complete(j, now, enqueueOk), id);
        }
      }
    case _ =>
  }

  lemma {:induction false} PlayAppends(w: World, first: seq<Step>, second: seq<Step>)
    ensures Play(w, first + second) == Play(Play(w, first), second)
    decreases |first|
  {
    if first == [] {
      assert first + second == second;
    } else {
      assert (first + second)[0] == first[0] && (first + second)[1..] == first[1..] + second;
      PlayAppends(Advance(w, first[0]), first[1..], second);
    }
  }

  // ---------------------------------------------------------------- whole calls

  /** What the others do between the statements of a call. */
  datatype Gaps = Gaps(beforeTask: seq<Step>, beforeRead: seq<Step>, beforeWrite: seq<Step>, afterWrite: seq<Step>)

  /** The world at the read of the task, at the second read, and at the write, before the call writes. */
  function AtTask(w: World, g: Gaps): World { Play(w, g.beforeTask) }
  function AtRead(w: World, g: Gaps): World { Play(AtTask(w, g), g.beforeRead) }
  function AtWrite(w: World, g: Gaps): World { Play(AtRead(w, g), g.beforeWrite) }

  /** The others' steps belong to other tasks' calls. */
  ghost predicate Serialised(w: World, g: Gaps, id: TaskId) {
    id !in w.calls && NotOn(w, g.beforeTask, id) && NotOn(AtTask(w, g), g.beforeRead, id) && NotOn(AtRead(w, g), g.beforeWrite, id)
  }

  /** The task the token check accepts: the link is read first, the task after the others' steps. */
  function AcceptedTask(w: World, token: Token, now: int, allowCompleted: bool, g: Gaps): Option<TaskId> {
    if !LinkFound(w.db, token) then None
    else
      var link := w.db.links[token];
      if link.taskId in AtTask(w, g).db.tasks && Accepts(link, AtTask(w, g).db.tasks[link.taskId], now, allowCompleted)
      then Some(link.taskId) else None
  }

  function TaskRead(w: World, g: Gaps, id: TaskId): Task
    requires id in AtTask(w, g).db.tasks
  {
    AtTask(w, g).db.tasks[id]
  }

  function ReplyAnswer(w: World, token: Token, texts: Texts, content: string, now: int, g: Gaps): ReplyResult {
    match AcceptedTask(w, token, now, false, g)
    case None => TokenRefused
    case Some(id) => ReplyVerdict(TaskRead(w, g, id), |RowsOf(AtRead(w, g).answers, id)|, texts, content)
  }

  function ReplyLeaves(w: World, token: Token, texts: Texts, content: string, now: int, g: Gaps): World {
    var verdict := ReplyAnswer(w, token, texts, content, now, g);
    if Stores(verdict)
    then AtWrite(w, g).(answers := AtWrite(w, g).answers + [AnswerRow(w.db.links[token].taskId, verdict.seqNo, Trim(content))])
    else AtWrite(w, g)
  }

  /** A submit reaches the completion when its task is open and the replies it counted are complete. */
  predicate Completes(w: World, token: Token, now: int, g: Gaps) {
    var id := AcceptedTask(w, token, now, true, g);
    id.Some? && TaskRead(w, g, id.value).status != Completed
    && |RowsOf(AtRead(w, g).answers, id.value)| >= |TaskRead(w, g, id.value).questionIds|
  }

  function SubmitWrites(w: World, token: Token, now: int, enqueueOk: bool, g: Gaps): World {
    if Completes(w, token, now, g)
    then AtWrite(w, g).(db := Apply(AtWrite(w, g).db, Complete(w.db.links[token].taskId, now, enqueueOk)))
    else AtWrite(w, g)
  }

  /** The answer to a submit; a completion refused because the task has moved on looks at it once more. */
  function SubmitAnswer(w: World, token: Token, now: int, enqueueOk: bool, g: Gaps): SubmitResult {
    match AcceptedTask(w, token, now, true, g)
    case None => SubmitRefused
    case Some(id) =>
      var task := TaskRead(w, g, id);
      var db := AtWrite(w, g).db;
      if task.status == Completed then Submitted(task.no)
      else if !Completes(w, token, now, g) then Incomplete
      else if HasStatus(db, id, {Pending, InProgress}) then (if enqueueOk then Submitted(task.no) else SubmitFailed)
      else if HasStatus(db, id, {Completed}) || HasStatus(SubmitLeaves(w, token, now, enqueueOk, g).db, id, {Completed}) then Submitted(task.no)
      else SubmitRefused
  }

  function SubmitLeaves(w: World, token: Token, now: int, enqueueOk: bool, g: Gaps): World {
    Play(SubmitWrites(w, token, now, enqueueOk, g), g.afterWrite)
  }

  function ContextWrites(w: World, token: Token, now: int, g: Gaps): World {
    match AcceptedTask(w, token, now, false, g)
    case None => AtWrite(w, g)
    case Some(id) =>
      if id !in AtRead(w, g).db.tasks then AtWrite(w, g) else AtWrite(w, g).(db := Apply(AtWrite(w, g).db, Start(id)))
  }

  function ContextLeaves(w: World, token: Token, now: int, g: Gaps): World {
    Play(ContextWrites(w, token, now, g), g.afterWrite)
  }

  function ContextAnswer(w: World, token: Token, texts: Texts, now: int, g: Gaps): ContextResult {
    match AcceptedTask(w, token, now, false, g)
    case None => ContextRefused
    case Some(id) =>
      if id !in AtRead(w, g).db.tasks || !Started(AtWrite(w, g).db, id, AtRead(w, g).db.tasks[id].status) then ContextFailed
      else ContextVerdict(TaskRead(w, g, id), texts, RowsOf(ContextLeaves(w, token, now, g).answers, id))
  }

  // ---------------------------------------------------------------- a call is its steps

  function Hold(w: World, id: TaskId, call: Option<Call>): World {
    match call
    case None => w
    case Some(c) => With(w, id, c)
  }

  /** One own step, then the others, with the call where it then stands. */
  lemma OwnStep(w: World, id: TaskId, call: Option<Call>, s: Step, after: World, next: Option<Call>, others: seq<Step>)
    requires Advance(Hold(w, id, call), s) == Hold(after, id, next) && id !in after.calls && NotOn(after, others, id)
    ensures id !in Play(after, others).calls
    ensures Play(Hold(w, id, call), [s] + others) == Hold(Play(after, others), id, next)
  {
    assert ([s] + others)[1..] == others;
    match next {
      case None => if others != [] { OthersStayAway(after, others, id); }
      case Some(c) => OthersCommute(after, others, id, c);
    }
  }

  lemma {:induction false} OthersStayAway(w: World, steps: seq<Step>, id: TaskId)
    requires NotOn(w, steps, id) && id !in w.calls
    ensures id !in Play(w, steps).calls
    decreases |steps|
  {
    if steps != [] { OthersStayAway(Advance(w, steps[0]), steps[1..], id); }
  }

  /** The first two reads of every call. */
  function ReadScript(token: Token, intent: Intent, id: TaskId, now: int, g: Gaps): seq<Step> {
    ([ReadLink(token, intent)] + g.beforeTask) + ([ReadTask(id, now)] + g.beforeRead)
  }

  function ReplyScript(token: Token, texts: Texts, content: string, id: TaskId, now: int, g: Gaps): seq<Step> {
    ReadScript(token, Reply(texts, content), id, now, g) + ([Count(id)] + g.beforeWrite) + [Write(id, now)]
  }

  function SubmitScript(token: Token, enqueueOk: bool, id: TaskId, now: int, g: Gaps): seq<Step> {
    ReadScript(token, Submit(enqueueOk), id, now, g) + ([Count(id)] + g.beforeWrite) + [Write(id, now)]
  }

  function ContextScript(token: Token, id: TaskId, now: int, g: Gaps): seq<Step> {
    ReadScript(token, Open, id, now, g) + ([Load(id)] + g.beforeWrite) + ([StartSession(id)] + g.afterWrite) + [ListRows(id)]
  }

  /** The call after its first two reads. */
  function HeldAtRead(w: World, token: Token, intent: Intent, now: int, g: Gaps): Option<Call>
    requires LinkFound(w.db, token)
  {
    AfterTask(AtTask(w, g).db, w.db.links[token].taskId, intent, w.db.links[token], now)
  }

  lemma ReadIsPlay(w: World, token: Token, intent: Intent, id: TaskId, now: int, g: Gaps)
    requires LinkFound(w.db, token) && w.db.links[token].taskId == id && Serialised(w, g, id)
    ensures id !in AtTask(w, g).calls && id !in AtRead(w, g).calls && id !in AtWrite(w, g).calls
    ensures Play(w, ReadScript(token, intent, id, now, g)) == Hold(AtRead(w, g), id, HeldAtRead(w, token, intent, now, g))
  {
    var first := Some(LinkRead(intent, w.db.links[token]));
    OwnStep(w, id, None, ReadLink(token, intent), w, first, g.beforeTask);
    var mid := AtTask(w, g);
    ReadTaskStep(mid, id, intent, w.db.links[token], now);
    OwnStep(mid, id, first, ReadTask(id, now), mid, HeldAtRead(w, token, intent, now, g), g.beforeRead);
    PlayAppends(w, [ReadLink(token, intent)] + g.beforeTask, [ReadTask(id, now)] + g.beforeRead);
    OthersStayAway(AtRead(w, g), g.beforeWrite, id);
  }

  lemma ReadTaskStep(w: World, id: TaskId, intent: Intent, link: Link, now: int)
    requires id !in w.calls
    ensures Advance(With(w, id, LinkRead(intent, link)), ReadTask(id, now)) == Hold(w, id, AfterTask(w.db, id, intent, link, now))
  {
    assert w.calls[id := LinkRead(intent, link)] - {id} == w.calls;
  }

  /** The count of a reply or a submit, and the others up to its write. */
  lemma CountIsPlay(w: World, held: Option<Call>, id: TaskId, others: seq<Step>)
    requires id !in w.calls && NotOn(w, others, id)
    requires held.Some? ==> held.value.Accepted? && !held.value.intent.Open?
    ensures Play(Hold(w, id, held), [Count(id)] + others) == Hold(Play(w, others), id, CountedAt(w, held, id))
  {
    OwnStep(w, id, held, Count(id), w, CountedAt(w, held, id), others);
  }

  lemma WriteStep(w: World, held: Option<Call>, id: TaskId, now: int)
    requires id !in w.calls && (held.Some? ==> held.value.Counted?)
    ensures Play(Hold(w, id, held), [Write(id, now)]) == if held.None? then w else Written(w, id, held.value, now)
  {
    assert [Write(id, now)][1..] == [];
    if held.Some? { assert w.calls[id := held.value] - {id} == w.calls; }
  }

  function CountedAt(w: World, held: Option<Call>, id: TaskId): Option<Call>
    requires held.Some? ==> held.value.Accepted?
  {
    if held.None? then None else Some(Counted(held.value.intent, held.value.task, |RowsOf(w.answers, id)|))
  }

  /** A reply or a submit from its first read to its write. */
  lemma CountedIsPlay(w: World, token: Token, intent: Intent, id: TaskId, now: int, g: Gaps)
    requires LinkFound(w.db, token) && w.db.links[token].taskId == id && Serialised(w, g, id) && !intent.Open?
    ensures var held := CountedAt(AtRead(w, g), HeldAtRead(w, token, intent, now, g), id);
            Play(w, ReadScript(token, intent, id, now, g) + ([Count(id)] + g.beforeWrite) + [Write(id, now)])
            == if held.None? then AtWrite(w, g) else Written(AtWrite(w, g), id, held.value, now)
  {
    var read, count := ReadScript(token, intent, id, now, g), [Count(id)] + g.beforeWrite;
    var held := HeldAtRead(w, token, intent, now, g);
    ReadIsPlay(w, token, intent, id, now, g);
    CountIsPlay(AtRead(w, g), held, id, g.beforeWrite);
    PlayAppends(w, read, count);
    PlayAppends(w, read + count, [Write(id, now)]);
    WriteStep(AtWrite(w, g), CountedAt(AtRead(w, g), held, id), id, now);
  }

  /** A reply with the others in its gaps is a run of the protocol, so every theorem above speaks of it. */
  lemma ReplyIsPlay(w: World, token: Token, texts: Texts, content: string, id: TaskId, now: int, g: Gaps)
    requires LinkFound(w.db, token) && w.db.links[token].taskId == id && Serialised(w, g, id)
    ensures Play(w, ReplyScript(token, texts, content, id, now, g)) == ReplyLeaves(w, token, texts, content, now, g)
  {
    CountedIsPlay(w, token, Intent.Reply(texts, content), id, now, g);
    ReplyWrites(w, token, texts, content, id, now, g);
  }

  /** The write of a reply that was accepted and counted is what the whole call leaves. */
  lemma ReplyWrites(w: World, token: Token, texts: Texts, content: string, id: TaskId, now: int, g: Gaps)
    requires LinkFound(w.db, token) && w.db.links[token].taskId == id
    ensures var held := CountedAt(AtRead(w, g), HeldAtRead(w, token, Intent.Reply(texts, content), now, g), id);
            ReplyLeaves(w, token, texts, content, now, g)
            == if held.None? then AtWrite(w, g) else Written(AtWrite(w, g), id, held.value, now)
  {
  }

  lemma SubmitIsPlay(w: World, token: Token, enqueueOk: bool, id: TaskId, now: int, g: Gaps)
    requires LinkFound(w.db, token) && w.db.links[token].taskId == id && Serialised(w, g, id)
    ensures Play(w, SubmitScript(token, enqueueOk, id, now, g)) == SubmitWrites(w, token, now, enqueueOk, g)
  {
    CountedIsPlay(w, token, Intent.Submit(enqueueOk), id, now, g);
  }

  lemma StartIsPlay(w: World, held: Option<Call>, id: TaskId, others: seq<Step>)
    requires id !in w.calls && (held.Some? ==> held.value.Loaded?)
    requires NotOn(if held.Some? then w.(db := Apply(w.db, Start(id))) else w, others, id)
    ensures var after := if held.Some? then w.(db := Apply(w.db, Start(id))) else w;
            Play(Hold(w, id, held), ([StartSession(id)] + others) + [ListRows(id)]) == Play(after, others)
  {
    var after := if held.Some? then w.(db := Apply(w.db, Start(id))) else w;
    var next := if held.Some? && Started(w.db, id, held.value.status) then Some(Listing(held.value.task)) else None;
    if held.Some? { assert w.calls[id := held.value] - {id} == w.calls; assert w.calls[id := held.value][id := Listing(held.value.task)] == w.calls[id := Listing(held.value.task)]; }
    OwnStep(w, id, held, StartSession(id), after, next, others);
    PlayAppends(Hold(w, id, held), [StartSession(id)] + others, [ListRows(id)]);
    ListStep(Play(after, others), next, id);
  }

  lemma ListStep(w: World, held: Option<Call>, id: TaskId)
    requires id !in w.calls && (held.Some? ==> held.value.Listing?)
    ensures Play(Hold(w, id, held), [ListRows(id)]) == w
  {
    assert [ListRows(id)][1..] == [];
    if held.Some? { assert w.calls[id := held.value] - {id} == w.calls; }
  }

  lemma ContextIsPlay(w: World, token: Token, id: TaskId, now: int, g: Gaps)
    requires LinkFound(w.db, token) && w.db.links[token].taskId == id && Serialised(w, g, id)
    requires NotOn(ContextWrites(w, token, now, g), g.afterWrite, id)
    ensures Play(w, ContextScript(token, id, now, g)) == ContextLeaves(w, token, now, g)
  {
    var read, load := ReadScript(token, Open, id, now, g), [Load(id)] + g.beforeWrite;
    var last := ([StartSession(id)] + g.afterWrite) + [ListRows(id)];
    var held := HeldAtRead(w, token, Open, now, g);
    ReadIsPlay(w, token, Open, id, now, g);
    OthersLeaveTask(AtTask(w, g), g.beforeRead, id);
    LoadIsPlay(AtRead(w, g), held, id, g.beforeWrite);
    StartIsPlay(AtWrite(w, g), LoadedAt(AtRead(w, g), held, id), id, g.afterWrite);
    PlayAppends(w, read, load);
    PlayAppends(w, read + load, last);
    assert ContextScript(token, id, now, g) == read + load + last;
  }

  function LoadedAt(w: World, held: Option<Call>, id: TaskId): Option<Call>
    requires held.Some? ==> held.value.Accepted? && id in w.db.tasks
  {
    if held.None? then None else Some(Loaded(held.value.task, w.db.tasks[id].status))
  }

  lemma LoadIsPlay(w: World, held: Option<Call>, id: TaskId, others: seq<Step>)
    requires id !in w.calls && NotOn(w, others, id)
    requires held.Some? ==> held.value.Accepted? && held.value.intent.Open? && id in w.db.tasks
    ensures Play(Hold(w, id, held), [Load(id)] + others) == Hold(Play(w, others), id, LoadedAt(w, held, id))
  {
    OwnStep(w, id, held, Load(id), w, LoadedAt(w, held, id), others);
  }

  // ---------------------------------------------------------------- acceptance

  /** Only the live token of an unfinished task is accepted, and a spent one only to repeat a submit. */
  lemma AcceptedTokens(db: Db, token: Token, now: int, allowCompleted: bool, id: TaskId)
    requires Sound(db)
    ensures Validate(db, token, now, allowCompleted) == Some(id) <==>
              && id in db.tasks && token != ""
              && (|| (token in LinksOf(db, id, Valid) && HasStatus(db, id, {Pending}) && now <= db.links[token].expiresAt)
                  || (token in LinksOf(db, id, Valid) && HasStatus(db, id, {InProgress}))
                  || (allowCompleted && token in LinksOf(db, id, Used) && now <= db.links[token].expiresAt))
  {
    assert LifeInvariant(ViewOf(db, id));
    if token in db.links {
      var t := db.links[token].taskId;
      assert LifeInvariant(ViewOf(db, t));
      assert token in LinksOf(db, t, db.links[token].status);
    }
  }

  /** Once a session is open the live token keeps working however late it is used. */
  lemma OpenSessionNeverTimesOut(db: Db, id: TaskId, token: Token, now: int, allowCompleted: bool)
    requires Sound(db) && HasStatus(db, id, {InProgress}) && token in LinksOf(db, id, Valid) && token != ""
    ensures Validate(db, token, now, allowCompleted) == Some(id)
  {
    AcceptedTokens(db, token, now, allowCompleted, id);
  }

  /** A link just sent, by the creation of its task or by a resend, is accepted for seven days and no longer,
      and no other link of that task is. */
  lemma NewLinkLastsSevenDays(db: Db, op: Op, token: Token, t: int)
    requires Sound(db) && (op.Create? || op.Resend?) && Apply(db, op) != db && op.token != ""
    ensures Validate(Apply(db, op), token, t, false) == Some(op.id) <==> token == op.token && t <= op.now + 7 * 24 * 3600
  {
    var after := Apply(db, op);
    StepKeepsSound(db, op);
    StepRefinesLifeCycle(db, op, op.id);
    AcceptedTokens(after, token, t, false, op.id);
    assert after.links[op.token] == FreshLink(op.id, op.now);
  }

  /** Starting a pending session lifts the limit for its link; a canceled or expired task accepts none. */
  lemma StartLiftsTheLimit(db: Db, id: TaskId, token: Token, t: int)
    requires Sound(db) && HasStatus(db, id, {TaskStatus.Pending}) && token != ""
    ensures Validate(Apply(db, Start(id)), token, t, false) == Some(id) <==> token in LinksOf(db, id, Valid)
    ensures Validate(Apply(db, Cancel(id)), token, t, false) != Some(id) && Validate(Apply(db, Expire(id)), token, t, false) != Some(id)
  {
    StepKeepsSound(db, Start(id));
    StepKeepsSound(db, Cancel(id));
    StepKeepsSound(db, Expire(id));
    AcceptedTokens(Apply(db, Start(id)), token, t, false, id);
    AcceptedTokens(Apply(db, Cancel(id)), token, t, false, id);
    AcceptedTokens(Apply(db, Expire(id)), token, t, false, id);
  }

  /** A link keeps its task and its times, and only a live one changes its status. */
  ghost predicate LinkKept(db: Db, after: Db, token: Token) {
    token in db.links ==>
      token in after.links && after.links[token].taskId == db.links[token].taskId
      && after.links[token].expiresAt == db.links[token].expiresAt
      && (after.links[token].status != db.links[token].status ==> db.links[token].status == Valid)
  }

  lemma OpKeepsLink(db: Db, op: Op, token: Token)
    ensures LinkKept(db, Apply(db, op), token)
  {
  }

  lemma {:induction false} OthersKeepLink(w: World, steps: seq<Step>, token: Token)
    ensures LinkKept(w.db, Play(w, steps).db, token)
    decreases |steps|
  {
    if steps != [] {
      StepKeepsLink(w, steps[0], token);
      OthersKeepLink(Advance(w, steps[0]), steps[1..], token);
    }
  }

  lemma StepKeepsLink(w: World, s: Step, token: Token)
    ensures LinkKept(w.db, Advance(w, s).db, token)
  {
    match s
    case Admin(op) => OpKeepsLink(w.db, op, token);
    case StartSession(j) => OpKeepsLink(w.db, Start(j), token);
    case Write(j, now) => if j in w.calls && w.calls[j].Counted? && w.calls[j].intent.Submit? {
      OpKeepsLink(w.db, Complete(j, now, w.calls[j].intent.enqueueOk), token);
    }
    case _ =>
  }

  /** The check reads the link before the task: it accepts what a check at the second instant would, and in
      addition exactly a token that was replaced between the two reads while its task stayed answerable. */
  lemma AcceptedUnlessReplaced(w: World, token: Token, now: int, allowCompleted: bool, g: Gaps, id: TaskId)
    requires WorldSound(w) && LinkFound(w.db, token) && w.db.links[token].taskId == id && Serialised(w, g, id)
    ensures var at := AtTask(w, g).db;
            token in at.links && id in at.tasks
            && (AcceptedTask(w, token, now, allowCompleted, g) == Some(id) <==>
                  || Validate(at, token, now, allowCompleted) == Some(id)
                  || (at.links[token].status == Invalid && Accepts(w.db.links[token], at.tasks[id], now, allowCompleted)))
  {
    var at := AtTask(w, g);
    OthersKeepLink(w, g.beforeTask, token);
    OthersLeaveTask(w, g.beforeTask, id);
    NotOnIsGood(w, g.beforeTask, id);
    EveryPlayIsSound(w, g.beforeTask);
    assert LifeInvariant(ViewOf(w.db, id)) && LifeInvariant(ViewOf(at.db, id));
    assert token in LinksOf(w.db, id, w.db.links[token].status) && token in LinksOf(at.db, id, at.db.links[token].status);
  }

  /** Such a token exists: the link is resent between the two reads. */
  lemma ReplacedTokenIsAccepted(w: World, token: Token, now: int, newer: Token, sentAt: int, id: TaskId)
    requires Sound(w.db) && HasStatus(w.db, id, {TaskStatus.Pending}) && token in LinksOf(w.db, id, Valid) && token != ""
    requires now <= w.db.links[token].expiresAt && newer !in w.db.links
    ensures var g := Gaps([Admin(Resend(id, newer, sentAt))], [], [], []);
            AcceptedTask(w, token, now, false, g) == Some(id)
            && Validate(AtTask(w, g).db, token, now, false) == None && LinksOf(AtTask(w, g).db, id, Valid) == {newer}
  {
    var resend := Resend(id, newer, sentAt);
    OneStep(w, Admin(resend));
    ResentLinks(w.db, id, Apply(w.db, resend).tasks, newer, sentAt);
  }

  lemma OneStep(w: World, s: Step)
    ensures Play(w, [s]) == Advance(w, s)
  {
    assert [s][1..] == [];
  }

  lemma {:induction false} NotOnIsGood(w: World, steps: seq<Step>, id: TaskId)
    requires NotOn(w, steps, id)
    ensures GoodSteps(steps)
    decreases |steps|
  {
    if steps != [] {
      NotOnIsGood(Advance(w, steps[0]), steps[1..], id);
      assert steps == [steps[0]] + steps[1..];
    }
  }

  // ---------------------------------------------------------------- what calls achieve

  const NOBODY := Gaps([], [], [], [])

  /** The replies still missing, sent one by one, then a submit, at any times whatever. */
  function Remaining(texts: Texts, token: Token, content: string, id: TaskId, n: nat, now: int): seq<Step> {
    if n == 0 then SubmitScript(token, true, id, now, NOBODY)
    else ReplyScript(token, texts, content, id, now, NOBODY) + Remaining(texts, token, content, id, n - 1, now)
  }

  /** With its questions still there, an open session's next acceptable reply is stored, and nothing else
      changes. */
  lemma OpenReplyIsStored(w: World, id: TaskId, token: Token, texts: Texts, content: string, now: int)
    requires HasStatus(w.db, id, {InProgress}) && Validate(w.db, token, now, false) == Some(id)
    requires ValidContent(w.db.tasks[id].testType, Trim(content)) && |RowsOf(w.answers, id)| < Total(w.db, id)
    requires forall i :: 0 <= i < Total(w.db, id) ==> w.db.tasks[id].questionIds[i] in texts.questions
    ensures Stores(ReplyAnswer(w, token, texts, content, now, NOBODY))
    ensures ReplyLeaves(w, token, texts, content, now, NOBODY)
         == w.(answers := w.answers + [AnswerRow(id, |RowsOf(w.answers, id)| + 1, Trim(content))])
  {
    var n := |RowsOf(w.answers, id)|;
    if n + 1 < Total(w.db, id) {
      assert [w.db.tasks[id].questionIds[n + 1]][0] in texts.questions;
    }
    assert Stores(ReplyVerdict(w.db.tasks[id], n, texts, content));
    assert ReplyAnswer(w, token, texts, content, now, NOBODY) == ReplyVerdict(w.db.tasks[id], n, texts, content);
  }

  /** A session that can still be answered: open, with its live token and nobody else's call on it. */
  ghost predicate Answerable(w: World, id: TaskId, token: Token) {
    WorldSound(w) && HasStatus(w.db, id, {InProgress}) && token in LinksOf(w.db, id, Valid) && token != "" && id !in w.calls
  }

  lemma StoredReplyStaysAnswerable(w: World, id: TaskId, token: Token, row: AnswerRow)
    requires Answerable(w, id, token) && row.taskId == id && row.seqNo == |RowsOf(w.answers, id)| + 1 <= Total(w.db, id)
    ensures Answerable(w.(answers := w.answers + [row]), id, token)
    ensures |RowsOf(w.answers + [row], id)| == |RowsOf(w.answers, id)| + 1
  {
    OneMoreAnswer(w, row);
    assert w.calls - {id} == w.calls;
    RowsOfAppend(w.answers, row, id);
  }

  lemma OneReplyFurther(w: World, id: TaskId, token: Token, texts: Texts, content: string, now: int)
    requires Answerable(w, id, token)
    requires ValidContent(w.db.tasks[id].testType, Trim(content)) && |RowsOf(w.answers, id)| < Total(w.db, id)
    requires forall i :: 0 <= i < Total(w.db, id) ==> w.db.tasks[id].questionIds[i] in texts.questions
    ensures var after := Play(w, ReplyScript(token, texts, content, id, now, NOBODY));
            Answerable(after, id, token) && after.db == w.db && |RowsOf(after.answers, id)| == |RowsOf(w.answers, id)| + 1
  {
    var row := AnswerRow(id, |RowsOf(w.answers, id)| + 1, Trim(content));
    OpenSessionNeverTimesOut(w.db, id, token, now, false);
    OpenReplyIsStored(w, id, token, texts, content, now);
    ReplyIsPlay(w, token, texts, content, id, now, NOBODY);
    StoredReplyStaysAnswerable(w, id, token, row);
  }

  lemma FullSessionSubmits(w: World, id: TaskId, token: Token, now: int)
    requires Answerable(w, id, token) && |RowsOf(w.answers, id)| == Total(w.db, id)
    ensures HasStatus(Play(w, SubmitScript(token, true, id, now, NOBODY)).db, id, {Completed})
  {
    OpenSessionNeverTimesOut(w.db, id, token, now, true);
    SubmitIsPlay(w, token, true, id, now, NOBODY);
    assert Completes(w, token, now, NOBODY);
  }

  /** From any sound world, an open session can always be finished, no matter how late. */
  lemma {:induction false} OpenSessionCanFinish(w: World, id: TaskId, token: Token, texts: Texts, content: string, now: int)
    requires Answerable(w, id, token) && ValidContent(w.db.tasks[id].testType, Trim(content))
    requires forall i :: 0 <= i < Total(w.db, id) ==> w.db.tasks[id].questionIds[i] in texts.questions
    requires TaskAnswersSound(w, id)
    ensures HasStatus(Play(w, Remaining(texts, token, content, id, Total(w.db, id) - |RowsOf(w.answers, id)|, now)).db, id, {Completed})
    decreases Total(w.db, id) - |RowsOf(w.answers, id)|
  {
    var n := |RowsOf(w.answers, id)|;
    if n == Total(w.db, id) {
      FullSessionSubmits(w, id, token, now);
    } else {
      var script := ReplyScript(token, texts, content, id, now, NOBODY);
      var after := Play(w, script);
      OneReplyFurther(w, id, token, texts, content, now);
      PlayAppends(w, script, Remaining(texts, token, content, id, Total(w.db, id) - n - 1, now));
      assert TaskAnswersSound(after, id);
      OpenSessionCanFinish(after, id, token, texts, content, now);
    }
  }

  /** The question a reply announces is the very item the context lists at that position. */
  lemma NextIsTheListedItem(task: Task, n: nat, texts: Texts, content: string)
    requires ReplyVerdict(task, n, texts, content).Next? && Items(texts, task.testType, task.questionIds).Some?
    ensures n + 1 < |task.questionIds|
    ensures ReplyVerdict(task, n, texts, content).next == Items(texts, task.testType, task.questionIds).value[n + 1]
  {
  }

  /** An item shows a question of the bank: its own scenario and requirement, and the name of its dimension
      when the test is one of dimensions and the name was read. */
  ghost predicate Shows(item: Item, texts: Texts, testType: TestType, question: nat) {
    && question in texts.questions
    && item.scenario == texts.questions[question].scenario
    && item.requirement == texts.questions[question].requirement
    && item.dimensionName ==
         if testType == Enneagram || texts.questions[question].dimensionId !in texts.dimensionNames then ""
         else texts.dimensionNames[texts.questions[question].dimensionId]
  }

  /** An opened test lists its snapshotted questions in order, each with its own text. It opens exactly when
      the session was or could be started and none of the questions is gone, and fails otherwise. */
  lemma ContextShowsTheQuestions(w: World, token: Token, texts: Texts, now: int, g: Gaps, id: TaskId)
    requires AcceptedTask(w, token, now, false, g) == Some(id) && id in AtRead(w, g).db.tasks
    ensures var r := ContextAnswer(w, token, texts, now, g);
            var ids := TaskRead(w, g, id).questionIds;
            && (r.Opened? <==>
                  && (AtRead(w, g).db.tasks[id].status == InProgress || HasStatus(AtWrite(w, g).db, id, {TaskStatus.Pending}))
                  && (forall i :: 0 <= i < |ids| ==> ids[i] in texts.questions))
            && (r.ContextFailed? <==> !r.Opened?)
            && (r.Opened? ==> |r.questions| == |ids|)
            && (r.Opened? ==> forall i :: 0 <= i < |ids| ==>
                  r.questions[i].seqNo == i + 1 && Shows(r.questions[i], texts, TaskRead(w, g, id).testType, ids[i]))
  {
  }

  /** A reply is numbered after those counted; unless it is the last it announces the next question of the
      snapshot, under its number and with its own text. */
  lemma NextShowsTheQuestion(w: World, token: Token, texts: Texts, content: string, now: int, g: Gaps, id: TaskId)
    requires AcceptedTask(w, token, now, false, g) == Some(id) && Stores(ReplyAnswer(w, token, texts, content, now, g))
    ensures var r := ReplyAnswer(w, token, texts, content, now, g);
            var task := TaskRead(w, g, id);
            var n := |RowsOf(AtRead(w, g).answers, id)|;
            && r.seqNo == n + 1 && (r.Finished? <==> n + 1 == |task.questionIds|)
            && (r.Next? ==> n + 1 < |task.questionIds|)
            && (r.Next? ==> r.next.seqNo == n + 2 && Shows(r.next, texts, task.testType, task.questionIds[n + 1]))
  {
    var task := TaskRead(w, g, id);
    var n := |RowsOf(AtRead(w, g).answers, id)|;
    if n + 1 < |task.questionIds| {
      assert [task.questionIds[n + 1]][0] == task.questionIds[n + 1];
    }
  }

  /** An answer with its surrounding white space cut off, and nothing else. */
  ghost predicate IsTrimmed(s: string, t: string) {
    && (exists i, j :: 0 <= i <= j <= |s| && t == s[i..j]
          && (forall k :: 0 <= k < |s| && (k < i || j <= k) ==> IsSpace(s[k])))
    && (t != "" ==> !IsSpace(t[0]) && !IsSpace(t[|t| - 1]))
  }

  lemma {:induction false} TrimLeftCuts(s: string) returns (i: nat)
    ensures i <= |s| && TrimLeft(s) == s[i..] && (forall k :: 0 <= k < i ==> IsSpace(s[k]))
    ensures TrimLeft(s) != "" ==> !IsSpace(TrimLeft(s)[0])
  {
    i := 0;
    if s != "" && IsSpace(s[0]) {
      var j := TrimLeftCuts(s[1..]);
      i := j + 1;
      assert s[1..][j..] == s[i..];
      forall k | 0 <= k < i ensures IsSpace(s[k]) { if k > 0 { assert s[k] == s[1..][k - 1]; } }
    }
  }

  lemma {:induction false} TrimRightCuts(s: string) returns (j: nat)
    ensures j <= |s| && TrimRight(s) == s[..j] && (forall k :: j <= k < |s| ==> IsSpace(s[k]))
    ensures TrimRight(s) != "" ==> !IsSpace(TrimRight(s)[|TrimRight(s)| - 1])
  {
    j := |s|;
    if s != "" && IsSpace(s[|s| - 1]) {
      j := TrimRightCuts(s[..|s| - 1]);
      assert s[..|s| - 1][..j] == s[..j];
      forall k | j <= k < |s| ensures IsSpace(s[k]) { if k < |s| - 1 { assert s[k] == s[..|s| - 1][k]; } }
    }
  }

  lemma TrimMeaning(s: string)
    ensures IsTrimmed(s, Trim(s))
  {
    var i := TrimLeftCuts(s);
    var j := TrimRightCuts(s[i..]);
    assert Trim(s) == s[i..][..j] == s[i..i + j];
    forall k | 0 <= k < |s| && (k < i || i + j <= k) ensures IsSpace(s[k]) {
      if k >= i { assert s[k] == s[i..][k - i]; }
    }
    if Trim(s) != "" { assert Trim(s)[0] == s[i..][0]; }
  }

  /** An accepted token's reply is refused exactly when no question is left or when what remains after
      trimming is empty or over 500 characters, or on the scale is anything but one of the five digits. One
      that is not refused fails exactly when the question that would come next is gone, and is stored
      otherwise. */
  lemma ReplyRefusedIff(w: World, token: Token, texts: Texts, content: string, now: int, g: Gaps, id: TaskId)
    requires AcceptedTask(w, token, now, false, g) == Some(id)
    ensures IsTrimmed(content, Trim(content))
    ensures var r := ReplyAnswer(w, token, texts, content, now, g);
            var task := TaskRead(w, g, id);
            var n := |RowsOf(AtRead(w, g).answers, id)|;
            && (r == ReplyRefused <==>
                  || n >= |task.questionIds|
                  || (task.testType == AiMgmt && !(1 <= |Trim(content)| <= 500))
                  || (task.testType == Enneagram && Trim(content) !in {"1", "2", "3", "4", "5"}))
            && (r == ReplyFailed <==>
                  r != ReplyRefused && n + 1 < |task.questionIds| && task.questionIds[n + 1] !in texts.questions)
            && (Stores(r) <==> r != ReplyRefused && r != ReplyFailed)
  {
    TrimMeaning(content);
    DigitContent(Trim(content));
    var task := TaskRead(w, g, id);
    var n := |RowsOf(AtRead(w, g).answers, id)|;
    if n + 1 < |task.questionIds| {
      assert [task.questionIds[n + 1]][0] == task.questionIds[n + 1];
    }
  }

  lemma DigitContent(content: string)
    ensures ValidContent(Enneagram, content) <==> content in {"1", "2", "3", "4", "5"}
  {
    if ValidContent(Enneagram, content) {
      assert content == [content[0]];
      assert content[0] in {'1', '2', '3', '4', '5'};
    }
  }

  /** At the write of a call the task is as it was read, its replies are those counted, and the world is
      sound. */
  lemma GapsKeepTask(w: World, g: Gaps, id: TaskId)
    requires WorldSound(w) && Serialised(w, g, id)
    ensures TaskKept(AtTask(w, g).db, AtRead(w, g).db, id) && TaskKept(AtRead(w, g).db, AtWrite(w, g).db, id)
    ensures RowsOf(AtWrite(w, g).answers, id) == RowsOf(AtRead(w, g).answers, id) == RowsOf(w.answers, id)
    ensures WorldSound(AtWrite(w, g))
  {
    OthersLeaveTask(w, g.beforeTask, id);
    OthersLeaveTask(AtTask(w, g), g.beforeRead, id);
    OthersLeaveTask(AtRead(w, g), g.beforeWrite, id);
    NotOnIsGood(w, g.beforeTask, id);
    NotOnIsGood(AtTask(w, g), g.beforeRead, id);
    NotOnIsGood(AtRead(w, g), g.beforeWrite, id);
    EveryPlayIsSound(w, g.beforeTask);
    EveryPlayIsSound(AtTask(w, g), g.beforeRead);
    EveryPlayIsSound(AtRead(w, g), g.beforeWrite);
  }

  /** A refused or failed reply stores nothing; an accepted one stores exactly the next row of a task that is
      not completed, whatever the others did meanwhile. */
  lemma ReplyStoresOneRowOrNone(w: World, token: Token, texts: Texts, content: string, now: int, g: Gaps, id: TaskId)
    requires WorldSound(w) && LinkFound(w.db, token) && w.db.links[token].taskId == id && Serialised(w, g, id)
    ensures var before := AtWrite(w, g);
            var after := ReplyLeaves(w, token, texts, content, now, g);
            var n := |RowsOf(before.answers, id)|;
            after.db == before.db
            && if Stores(ReplyAnswer(w, token, texts, content, now, g))
               then id in before.db.tasks && !HasStatus(before.db, id, {Completed}) && n < Total(before.db, id)
                    && after.answers == before.answers + [AnswerRow(id, n + 1, Trim(content))]
               else after.answers == before.answers
  {
    GapsKeepTask(w, g, id);
    if Stores(ReplyAnswer(w, token, texts, content, now, g)) {
      StoredReplyAnswers(w, token, texts, content, now, g, id);
    }
  }

  /** What serialising the calls of a task is for: a reply that stores keeps its task's replies in order if
      and only if no other reply was stored for it between the count and the insert. */
  lemma ReplyInOrderIff(w: World, token: Token, texts: Texts, content: string, now: int, g: Gaps, id: TaskId)
    requires AcceptedTask(w, token, now, false, g) == Some(id) && Stores(ReplyAnswer(w, token, texts, content, now, g))
    requires InOrder(RowsOf(AtWrite(w, g).answers, id))
    ensures InOrder(RowsOf(ReplyLeaves(w, token, texts, content, now, g).answers, id))
       <==> |RowsOf(AtWrite(w, g).answers, id)| == |RowsOf(AtRead(w, g).answers, id)|
  {
    StoredReplyRow(w, token, texts, content, now, g, id);
    InOrderSnocIff(RowsOf(AtWrite(w, g).answers, id), AnswerRow(id, |RowsOf(AtRead(w, g).answers, id)| + 1, Trim(content)));
  }

  lemma StoredReplyAnswers(w: World, token: Token, texts: Texts, content: string, now: int, g: Gaps, id: TaskId)
    requires AcceptedTask(w, token, now, false, g) == Some(id) && Stores(ReplyAnswer(w, token, texts, content, now, g))
    ensures |RowsOf(AtRead(w, g).answers, id)| < |TaskRead(w, g, id).questionIds|
    ensures ReplyLeaves(w, token, texts, content, now, g)
         == AtWrite(w, g).(answers := AtWrite(w, g).answers + [AnswerRow(id, |RowsOf(AtRead(w, g).answers, id)| + 1, Trim(content))])
  {
    VerdictNumber(TaskRead(w, g, id), |RowsOf(AtRead(w, g).answers, id)|, texts, content);
  }

  lemma StoredReplyRow(w: World, token: Token, texts: Texts, content: string, now: int, g: Gaps, id: TaskId)
    requires AcceptedTask(w, token, now, false, g) == Some(id) && Stores(ReplyAnswer(w, token, texts, content, now, g))
    ensures RowsOf(ReplyLeaves(w, token, texts, content, now, g).answers, id)
         == RowsOf(AtWrite(w, g).answers, id) + [AnswerRow(id, |RowsOf(AtRead(w, g).answers, id)| + 1, Trim(content))]
  {
    StoredReplyAnswers(w, token, texts, content, now, g, id);
    RowsOfAppend(AtWrite(w, g).answers, AnswerRow(id, |RowsOf(AtRead(w, g).answers, id)| + 1, Trim(content)), id);
  }

  lemma VerdictNumber(task: Task, n: nat, texts: Texts, content: string)
    requires Stores(ReplyVerdict(task, n, texts, content))
    ensures ReplyVerdict(task, n, texts, content).seqNo == n + 1
  {
  }

  lemma InOrderSnocIff(rows: seq<AnswerRow>, row: AnswerRow)
    requires InOrder(rows)
    ensures InOrder(rows + [row]) <==> row.seqNo == |rows| + 1
  {
    assert (rows + [row])[|rows|] == row;
    forall i | 0 <= i < |rows| ensures (rows + [row])[i].seqNo == i + 1 {
      assert (rows + [row])[i] == rows[i];
    }
  }

  /** Two replies to one open session, the second falling between the first one's count and insert, store
      the same number twice. */
  lemma OverlappingRepliesCollide(w: World, id: TaskId, token: Token, texts: Texts, content: string, now: int)
    requires Answerable(w, id, token) && ValidContent(w.db.tasks[id].testType, Trim(content))
    requires |RowsOf(w.answers, id)| < Total(w.db, id)
    requires forall i :: 0 <= i < Total(w.db, id) ==> w.db.tasks[id].questionIds[i] in texts.questions
    ensures var n := |RowsOf(w.answers, id)|;
            var other := ReplyScript(token, texts, content, id, now, NOBODY);
            var after := ReplyLeaves(w, token, texts, content, now, Gaps([], [], other, []));
            RowsOf(after.answers, id) == RowsOf(w.answers, id) + [AnswerRow(id, n + 1, Trim(content)), AnswerRow(id, n + 1, Trim(content))]
  {
    var row := AnswerRow(id, |RowsOf(w.answers, id)| + 1, Trim(content));
    var g := Gaps([], [], ReplyScript(token, texts, content, id, now, NOBODY), []);
    OpenSessionNeverTimesOut(w.db, id, token, now, false);
    OpenReplyIsStored(w, id, token, texts, content, now);
    ReplyIsPlay(w, token, texts, content, id, now, NOBODY);
    assert AtWrite(w, g) == w.(answers := w.answers + [row]);
    assert ReplyAnswer(w, token, texts, content, now, g) == ReplyAnswer(w, token, texts, content, now, NOBODY);
    RowsOfAppend(w.answers, row, id);
    RowsOfAppend(w.answers + [row], row, id);
  }

  ghost predicate SortedBySeqNo(rows: seq<AnswerRow>) {
    forall i, j :: 0 <= i < j < |rows| ==> rows[i].seqNo <= rows[j].seqNo
  }

  lemma {:induction false} InsertPermutes(rows: seq<AnswerRow>, row: AnswerRow)
    ensures multiset(InsertBySeqNo(rows, row)) == multiset(rows) + multiset{row}
  {
    if rows != [] {
      var init, last := rows[..|rows| - 1], rows[|rows| - 1];
      assert rows == init + [last];
      InsertPermutes(init, row);
    }
  }

  lemma AtMostLast(rows: seq<AnswerRow>, parts: multiset<AnswerRow>, n: nat)
    requires multiset(rows) == parts && forall x :: x in parts ==> x.seqNo <= n
    ensures forall i :: 0 <= i < |rows| ==> rows[i].seqNo <= n
  {
    forall i | 0 <= i < |rows| ensures rows[i].seqNo <= n { assert rows[i] in multiset(rows); }
  }

  lemma SortedSnoc(rows: seq<AnswerRow>, last: AnswerRow)
    requires SortedBySeqNo(rows) && forall i :: 0 <= i < |rows| ==> rows[i].seqNo <= last.seqNo
    ensures SortedBySeqNo(rows + [last])
  {
  }

  lemma InsertSmaller(rows: seq<AnswerRow>, row: AnswerRow)
    requires rows != [] && rows[|rows| - 1].seqNo > row.seqNo
    ensures InsertBySeqNo(rows, row) == InsertBySeqNo(rows[..|rows| - 1], row) + [rows[|rows| - 1]]
  {
  }

  lemma {:induction false} InsertSorts(rows: seq<AnswerRow>, row: AnswerRow)
    requires SortedBySeqNo(rows)
    ensures SortedBySeqNo(InsertBySeqNo(rows, row))
  {
    if rows != [] && rows[|rows| - 1].seqNo > row.seqNo {
      var init, last := rows[..|rows| - 1], rows[|rows| - 1];
      InsertSorts(init, row);
      InsertPermutes(init, row);
      forall x | x in multiset(init) + multiset{row} ensures x.seqNo <= last.seqNo {
        if x != row { assert x in init; }
      }
      AtMostLast(InsertBySeqNo(init, row), multiset(init) + multiset{row}, last.seqNo);
      InsertSmaller(rows, row);
      SortedSnoc(InsertBySeqNo(init, row), last);
    }
  }

  /** The answer table lists a task's rows in order of their numbers, whatever is stored. */
  lemma {:induction false} ListedInOrder(rows: seq<AnswerRow>)
    ensures SortedBySeqNo(BySeqNo(rows)) && multiset(BySeqNo(rows)) == multiset(rows)
  {
    if rows != [] {
      var init, last := rows[..|rows| - 1], rows[|rows| - 1];
      assert rows == init + [last];
      ListedInOrder(init);
      InsertSorts(BySeqNo(init), last);
      InsertPermutes(BySeqNo(init), last);
    }
  }

  lemma {:induction false} InsertLast(rows: seq<AnswerRow>, row: AnswerRow)
    requires rows != [] ==> rows[|rows| - 1].seqNo <= row.seqNo
    ensures InsertBySeqNo(rows, row) == rows + [row]
  {
  }

  lemma {:induction false} InOrderIsSorted(rows: seq<AnswerRow>)
    requires InOrder(rows)
    ensures BySeqNo(rows) == rows
  {
    if rows != [] {
      var before, row := rows[..|rows| - 1], rows[|rows| - 1];
      InOrderIsSorted(before);
      InsertLast(before, row);
      assert BySeqNo(rows) == InsertBySeqNo(before, row) == before + [row] == rows;
    }
  }

  lemma ReplyPairsInPlace(rows: seq<AnswerRow>)
    requires InOrder(rows)
    ensures |ReplyPairs(BySeqNo(rows))| == |BySeqNo(rows)| == |rows|
    ensures forall i :: 0 <= i < |rows| ==> ReplyPairs(BySeqNo(rows))[i] == (i + 1, rows[i].content)
  {
    InOrderIsSorted(rows);
  }

  /** The context lists every stored reply once, at its own position: reply i answers question i. */
  lemma ContextListsRepliesInPlace(w: World, token: Token, texts: Texts, now: int, g: Gaps, id: TaskId)
    requires WorldSound(w) && AcceptedTask(w, token, now, false, g) == Some(id) && Serialised(w, g, id)
    requires NotOn(ContextWrites(w, token, now, g), g.afterWrite, id) && ContextAnswer(w, token, texts, now, g).Opened?
    ensures var r := ContextAnswer(w, token, texts, now, g);
            var rows := RowsOf(ContextLeaves(w, token, now, g).answers, id);
            && r.total == |r.questions| == |TaskRead(w, g, id).questionIds| && |r.replies| == r.answered == |rows| <= r.total
            && (r.finished <==> r.answered == r.total)
            && forall i :: 0 <= i < |r.replies| ==> r.replies[i] == (i + 1, rows[i].content) && r.questions[i].seqNo == i + 1
  {
    GapsKeepTask(w, g, id);
    OpMovesTables(AtWrite(w, g), Start(id));
    OpKeepsTask(AtWrite(w, g).db, Start(id), id);
    var started := ContextWrites(w, token, now, g);
    NotOnIsGood(started, g.afterWrite, id);
    EveryPlayIsSound(started, g.afterWrite);
    OthersLeaveTask(started, g.afterWrite, id);
    var rows := RowsOf(ContextLeaves(w, token, now, g).answers, id);
    assert TaskAnswersSound(ContextLeaves(w, token, now, g), id);
    VerdictInPlace(TaskRead(w, g, id), texts, rows);
  }

  lemma VerdictInPlace(task: Task, texts: Texts, rows: seq<AnswerRow>)
    requires InOrder(rows) && |rows| <= |task.questionIds| && ContextVerdict(task, texts, rows).Opened?
    ensures var r := ContextVerdict(task, texts, rows);
            && r.total == |r.questions| == |task.questionIds| && |r.replies| == r.answered == |rows|
            && (r.finished <==> r.answered == r.total)
            && forall i :: 0 <= i < |rows| ==> r.replies[i] == (i + 1, rows[i].content) && r.questions[i].seqNo == i + 1
  {
    ReplyPairsInPlace(rows);
  }

  /** A submit reports success exactly when the task is completed afterwards. */
  lemma SubmitSucceedsIffCompleted(w: World, token: Token, now: int, enqueueOk: bool, g: Gaps, id: TaskId)
    requires WorldSound(w) && AcceptedTask(w, token, now, true, g) == Some(id) && Serialised(w, g, id)
    requires NotOn(SubmitWrites(w, token, now, enqueueOk, g), g.afterWrite, id)
    ensures SubmitAnswer(w, token, now, enqueueOk, g) == Submitted(TaskRead(w, g, id).no)
       <==> HasStatus(SubmitLeaves(w, token, now, enqueueOk, g).db, id, {Completed})
  {
    GapsKeepTask(w, g, id);
    OthersLeaveTask(SubmitWrites(w, token, now, enqueueOk, g), g.afterWrite, id);
  }

  /** Each of the three calls refuses the token exactly when the check accepts no task for it. */
  lemma TokenRefusedIff(w: World, token: Token, texts: Texts, content: string, now: int, enqueueOk: bool, g: Gaps)
    ensures ReplyAnswer(w, token, texts, content, now, g) == TokenRefused <==> AcceptedTask(w, token, now, false, g) == None
    ensures ContextAnswer(w, token, texts, now, g) == ContextRefused <==> AcceptedTask(w, token, now, false, g) == None
    ensures AcceptedTask(w, token, now, true, g) == None ==> SubmitAnswer(w, token, now, enqueueOk, g) == SubmitRefused
  {
  }

  /** The answer to a submit whose token is accepted: success when the task was completed already or is found
      completed, now or at the second look, or this call completes it; incomplete when replies are missing;
      failed when the job cannot be enqueued; refused when the task has become unanswerable. */
  lemma SubmitAnswers(w: World, token: Token, now: int, enqueueOk: bool, g: Gaps, id: TaskId)
    requires AcceptedTask(w, token, now, true, g) == Some(id)
    ensures var r := SubmitAnswer(w, token, now, enqueueOk, g);
            var task := TaskRead(w, g, id);
            var missing := |RowsOf(AtRead(w, g).answers, id)| < |task.questionIds|;
            var (open, later) := (HasStatus(AtWrite(w, g).db, id, {TaskStatus.Pending, InProgress}), SubmitLeaves(w, token, now, enqueueOk, g).db);
            && (r == Incomplete <==> task.status != Completed && missing)
            && (r == SubmitFailed <==> task.status != Completed && !missing && open && !enqueueOk)
            && (r == Submitted(task.no) <==>
                  || task.status == Completed
                  || (!missing && (if open then enqueueOk else HasStatus(AtWrite(w, g).db, id, {Completed}) || HasStatus(later, id, {Completed}))))
            && (r == SubmitRefused <==> r != Incomplete && r != SubmitFailed && r != Submitted(task.no))
  {
  }
}
