/** Active-test tasks and their one-time answer links.

    Seven guarded transactions compete on the task, link and grading-queue tables. Each is one atomic
    step; an interleaving of callers is a list of steps. The tables are shown to refine a small
    per-task life cycle, and the life cycle carries the invariant that ties links, status and grading
    together. */
module TestTasks {
  import opened Base
  import Numbering

  type TaskId = nat
  type Token = string

  datatype TestType = AiMgmt | Enneagram
  datatype TaskStatus = Pending | InProgress | Completed | Expired | Canceled
  datatype GradingStatus = Waiting | Grading | Scored | Degraded
  datatype LinkStatus = Valid | Used | Invalid

  datatype Task = Task(no: string, testType: TestType, status: TaskStatus, grading: GradingStatus,
                       questionIds: seq<nat>, completedAt: Option<int>)
  datatype Link = Link(taskId: TaskId, status: LinkStatus, generatedAt: int, expiresAt: int, usedAt: Option<int>)

  /** The task table, the link table keyed by its unique token, the committed grading jobs, and how often
      each question was counted into a test. */
  datatype Db = Db(tasks: map<TaskId, Task>, links: map<Token, Link>, queue: multiset<TaskId>, references: multiset<nat>)

  const EMPTY := Db(map[], map[], multiset{}, multiset{})

  /** Seven days, in seconds. */
  const LINK_TTL := 7 * 24 * 3600

  datatype Op =
    | Create(id: TaskId, no: string, testType: TestType, questionIds: seq<nat>, token: Token, now: int)
    | Resend(id: TaskId, token: Token, now: int)
    | Cancel(id: TaskId)
    | Start(id: TaskId)
    | Expire(id: TaskId)
    | Complete(id: TaskId, now: int, enqueueOk: bool)
    | Grade(id: TaskId, verdict: GradingStatus)

  datatype Outcome = Done | NotSubmittable | Failed

  // ---------------------------------------------------------------- the transactions on values

  function FreshLink(id: TaskId, now: int): Link {
    Link(id, Valid, now, now + LINK_TTL, None)
  }

  function FreshTask(no: string, testType: TestType, questionIds: seq<nat>): Task {
    Task(no, testType, Pending, Waiting, questionIds, None)
  }

  /** The valid links of a task become invalid; all other rows stay. */
  function Retire(links: map<Token, Link>, ids: set<TaskId>): map<Token, Link> {
    map k | k in links ::
      if links[k].taskId in ids && links[k].status == Valid then links[k].(status := Invalid) else links[k]
  }

  /** The valid links of a task become used, stamped with the submission time. */
  function Consume(links: map<Token, Link>, id: TaskId, now: int): map<Token, Link> {
    map k | k in links ::
      if links[k].taskId == id && links[k].status == Valid
      then links[k].(status := Used, usedAt := Some(now)) else links[k]
  }

  /** Every question of a snapshot is counted once, however often it is listed. */
  function CountedOnce(questionIds: seq<nat>): multiset<nat> {
    multiset(set q | q in questionIds)
  }

  predicate HasStatus(db: Db, id: TaskId, among: set<TaskStatus>) {
    id in db.tasks && db.tasks[id].status in among
  }

  function TaskNos(db: Db): set<string> {
    set i | i in db.tasks :: db.tasks[i].no
  }

  predicate NoTaken(db: Db, no: string) {
    no in TaskNos(db)
  }

  function WithStatus(db: Db, id: TaskId, status: TaskStatus): map<TaskId, Task>
    requires id in db.tasks
  {
    db.tasks[id := db.tasks[id].(status := status)]
  }

  function Submitted(t: Task, now: int): Task {
    t.(status := Completed, completedAt := Some(now), grading := if t.grading == Waiting then Grading else t.grading)
  }

  /** The committed effect of one transaction; a refused or rolled-back one changes nothing. */
  function Apply(db: Db, op: Op): Db {
    match op
    case Create(id, no, testType, questionIds, token, now) =>
      if id in db.tasks || NoTaken(db, no) || token in db.links then db
      else db.(tasks := db.tasks[id := FreshTask(no, testType, questionIds)],
               links := db.links[token := FreshLink(id, now)],
               references := db.references + CountedOnce(questionIds))
    case Resend(id, token, now) =>
      if !HasStatus(db, id, {Pending, Expired}) || token in db.links then db
      else db.(tasks := WithStatus(db, id, Pending),
               links := Retire(db.links, {id})[token := FreshLink(id, now)])
    case Cancel(id) =>
      if !HasStatus(db, id, {Pending, InProgress, Expired}) then db
      else db.(tasks := WithStatus(db, id, Canceled), links := Retire(db.links, {id}))
    case Start(id) =>
      if !HasStatus(db, id, {Pending}) then db else db.(tasks := WithStatus(db, id, InProgress))
    case Expire(id) =>
      if !HasStatus(db, id, {Pending}) then db
      else db.(tasks := WithStatus(db, id, Expired), links := Retire(db.links, {id}))
    case Complete(id, now, enqueueOk) =>
      if !HasStatus(db, id, {Pending, InProgress}) || !enqueueOk then db
      else db.(tasks := db.tasks[id := Submitted(db.tasks[id], now)], links := Consume(db.links, id, now),
               queue := db.queue + multiset{id})
    case Grade(id, verdict) =>
      if id !in db.tasks || db.tasks[id].grading != Grading then db
      else db.(tasks := db.tasks[id := db.tasks[id].(grading := verdict)])
  }

  /** Any interleaving of callers is some list of transactions. */
  function Run(db: Db, ops: seq<Op>): Db
    decreases |ops|
  {
    if ops == [] then db else Run(Apply(db, ops[0]), ops[1..])
  }

  /** Grading reports one of the two terminal verdicts. */
  predicate GoodOp(op: Op) {
    op.Grade? ==> op.verdict == Scored || op.verdict == Degraded
  }

  predicate GoodOps(ops: seq<Op>) {
    forall i :: 0 <= i < |ops| ==> GoodOp(ops[i])
  }

  // ---------------------------------------------------------------- the per-task life cycle

  /** What one task looks like from outside: the two axes, its live and spent tokens, its grading jobs. */
  datatype View =
    | Absent
    | View(status: TaskStatus, grading: GradingStatus, valid: set<Token>, used: set<Token>, jobs: nat)

  function LinksOf(db: Db, id: TaskId, status: LinkStatus): set<Token> {
    set k | k in db.links && db.links[k].taskId == id && db.links[k].status == status
  }

  function ViewOf(db: Db, id: TaskId): View {
    if id !in db.tasks then Absent
    else View(db.tasks[id].status, db.tasks[id].grading,
              LinksOf(db, id, Valid), LinksOf(db, id, Used), db.queue[id])
  }

  /** The documented state machine, as a function of the view alone. */
  function LifeCycle(v: View, op: Op): View {
    if v.Absent? then
      if op.Create? then View(Pending, Waiting, {op.token}, {}, 0) else Absent
    else match op
      case Create(_, _, _, _, _, _) => v
      case Resend(_, token, _) =>
        if v.status == Pending || v.status == Expired then v.(status := Pending, valid := {token}) else v
      case Cancel(_) =>
        if v.status == Completed || v.status == Canceled then v else v.(status := Canceled, valid := {})
      case Start(_) =>
        if v.status == Pending then v.(status := InProgress) else v
      case Expire(_) =>
        if v.status == Pending then v.(status := Expired, valid := {}) else v
      case Complete(_, _, enqueueOk) =>
        if enqueueOk && (v.status == Pending || v.status == InProgress)
        then View(Completed, if v.grading == Waiting then Grading else v.grading, {}, v.used + v.valid, v.jobs + 1)
        else v
      case Grade(_, verdict) =>
        if v.grading == Grading then v.(grading := verdict) else v
  }

  /** No link and no grading job without its task. */
  ghost predicate NoOrphans(db: Db) {
    && (forall k :: k in db.links ==> db.links[k].taskId in db.tasks)
    && (forall i :: i in db.queue ==> i in db.tasks)
  }

  /** A unique key already taken rolls the whole transaction back. */
  predicate KeysFree(db: Db, op: Op) {
    match op
    case Create(id, no, _, _, token, _) => id !in db.tasks && !NoTaken(db, no) && token !in db.links
    case Resend(_, token, _) => token !in db.links
    case _ => true
  }

  lemma StepKeepsNoOrphans(db: Db, op: Op)
    requires NoOrphans(db)
    ensures NoOrphans(Apply(db, op))
  {
  }

  lemma StepLeavesOtherLinks(db: Db, op: Op, id: TaskId, status: LinkStatus)
    requires op.id != id && status != Invalid
    ensures LinksOf(Apply(db, op), id, status) == LinksOf(db, id, status)
  {
    var after := Apply(db, op);
    forall k | k in db.links && db.links[k].taskId == id ensures k in after.links && after.links[k] == db.links[k] {}
    forall k | k in after.links && after.links[k].taskId == id ensures k in db.links {}
  }

  lemma StepLeavesOtherTasks(db: Db, op: Op, id: TaskId)
    requires op.id != id
    ensures id in Apply(db, op).tasks <==> id in db.tasks
    ensures id in db.tasks ==> Apply(db, op).tasks[id] == db.tasks[id]
    ensures Apply(db, op).queue[id] == db.queue[id]
    ensures LinksOf(Apply(db, op), id, Valid) == LinksOf(db, id, Valid)
    ensures LinksOf(Apply(db, op), id, Used) == LinksOf(db, id, Used)
  {
    StepLeavesOtherLinks(db, op, id, Valid);
    StepLeavesOtherLinks(db, op, id, Used);
  }

  lemma RetiredLinks(db: Db, id: TaskId, tasks: map<TaskId, Task>)
    ensures var after := db.(tasks := tasks, links := Retire(db.links, {id}));
            LinksOf(after, id, Valid) == {} && LinksOf(after, id, Used) == LinksOf(db, id, Used)
  {
  }

  lemma ResentLinks(db: Db, id: TaskId, tasks: map<TaskId, Task>, token: Token, now: int)
    requires token !in db.links
    ensures var after := db.(tasks := tasks, links := Retire(db.links, {id})[token := FreshLink(id, now)]);
            LinksOf(after, id, Valid) == {token} && LinksOf(after, id, Used) == LinksOf(db, id, Used)
  {
  }

  lemma ConsumedLinks(db: Db, id: TaskId, tasks: map<TaskId, Task>, queue: multiset<TaskId>, now: int)
    ensures var after := db.(tasks := tasks, links := Consume(db.links, id, now), queue := queue);
            LinksOf(after, id, Valid) == {}
            && LinksOf(after, id, Used) == LinksOf(db, id, Used) + LinksOf(db, id, Valid)
  {
  }

  lemma CreatedLinks(db: Db, id: TaskId, tasks: map<TaskId, Task>, token: Token, now: int, references: multiset<nat>)
    requires NoOrphans(db) && id !in db.tasks && token !in db.links
    ensures var after := db.(tasks := tasks, links := db.links[token := FreshLink(id, now)], references := references);
            LinksOf(after, id, Valid) == {token} && LinksOf(after, id, Used) == {}
  {
  }

  /** One transaction on the tables is one step of the life cycle of its task, and nothing else. */
  lemma StepRefinesLifeCycle(db: Db, op: Op, id: TaskId)
    requires NoOrphans(db)
    ensures NoOrphans(Apply(db, op))
    ensures !KeysFree(db, op) ==> Apply(db, op) == db
    ensures KeysFree(db, op) ==>
              ViewOf(Apply(db, op), id) == if op.id == id then LifeCycle(ViewOf(db, id), op) else ViewOf(db, id)
  {
    StepKeepsNoOrphans(db, op);
    var after := Apply(db, op);
    if op.id != id {
      StepLeavesOtherTasks(db, op, id);
    } else if after != db {
      match op
      case Create(_, _, _, _, token, now) => CreatedLinks(db, id, after.tasks, token, now, after.references);
      case Resend(_, token, now) => ResentLinks(db, id, after.tasks, token, now);
      case Complete(_, now, _) => ConsumedLinks(db, id, after.tasks, after.queue, now);
      case Start(_) => assert LinksOf(after, id, Valid) == LinksOf(db, id, Valid);
      case Grade(_, _) => assert LinksOf(after, id, Valid) == LinksOf(db, id, Valid);
      case Cancel(_) => RetiredLinks(db, id, after.tasks);
      case Expire(_) => RetiredLinks(db, id, after.tasks);
    }
  }

  // ---------------------------------------------------------------- the invariant

  ghost predicate One(s: set<Token>) {
    exists t :: s == {t}
  }

  /** What every reachable task satisfies: its links follow its status, grading follows status, and a
      completed task has exactly one committed grading job. */
  ghost predicate LifeInvariant(v: View) {
    v.View? ==>
      && match v.status {
        case Pending => One(v.valid) && v.used == {}
        case InProgress => One(v.valid) && v.used == {}
        case Completed => v.valid == {} && One(v.used)
        case Expired => v.valid == {} && v.used == {}
        case Canceled => v.valid == {} && v.used == {}
      }
      && (v.grading == Waiting <==> v.status != Completed)
      && v.jobs == (if v.status == Completed then 1 else 0)
  }

  lemma LifeCycleKeepsInvariant(v: View, op: Op)
    requires LifeInvariant(v) && GoodOp(op)
    ensures LifeInvariant(LifeCycle(v, op))
  {
    var w := LifeCycle(v, op);
    if op.Create? && v.Absent? { assert w.valid == {op.token}; }
    if op.Resend? && w != v { assert w.valid == {op.token}; }
    if op.Complete? && w != v { assert w.used == v.valid; }
  }

  /** A predicate of the state, to quantify the per-task invariant over every id. */
  ghost predicate Sound(db: Db) {
    NoOrphans(db) && forall id :: LifeInvariant(ViewOf(db, id))
  }

  lemma StepKeepsSound(db: Db, op: Op)
    requires Sound(db) && GoodOp(op)
    ensures Sound(Apply(db, op))
  {
    forall id ensures LifeInvariant(ViewOf(Apply(db, op), id)) {
      StepRefinesLifeCycle(db, op, id);
      LifeCycleKeepsInvariant(ViewOf(db, id), op);
    }
    StepRefinesLifeCycle(db, op, op.id);
  }

  /** In every interleaving of the seven transactions the link rows follow the two axes. */
  lemma {:induction false} EveryRunIsSound(db: Db, ops: seq<Op>)
    requires Sound(db) && GoodOps(ops)
    ensures Sound(Run(db, ops))
    decreases |ops|
  {
    if ops != [] {
      StepKeepsSound(db, ops[0]);
      EveryRunIsSound(Apply(db, ops[0]), ops[1..]);
    }
  }

  /** From empty tables on, whatever the callers do. */
  lemma EveryReachableDbIsSound(ops: seq<Op>)
    requires GoodOps(ops)
    ensures Sound(Run(EMPTY, ops)) && ReferencesSound(Run(EMPTY, ops)) && StampsSound(Run(EMPTY, ops))
  {
    EveryRunIsSound(EMPTY, ops);
    EveryRunStampsLinks(EMPTY, ops);
    EveryRunCountsReferences(EMPTY, ops);
  }

  // ---------------------------------------------------------------- reference counts

  function TasksUsing(db: Db, q: nat): set<TaskId> {
    set i | i in db.tasks && q in db.tasks[i].questionIds
  }

  /** A question is counted once for every task whose snapshot holds it. */
  ghost predicate ReferencesSound(db: Db) {
    forall q: nat :: db.references[q] == |TasksUsing(db, q)|
  }

  /** No transaction but a creation adds a task or touches a snapshot or a count. */
  lemma OnlyCreateCounts(db: Db, op: Op, q: nat)
    requires !op.Create? || Apply(db, op) == db
    ensures TasksUsing(Apply(db, op), q) == TasksUsing(db, q) && Apply(db, op).references == db.references
  {
    var after := Apply(db, op);
    assert forall i :: i in db.tasks ==> i in after.tasks && after.tasks[i].questionIds == db.tasks[i].questionIds;
  }

  lemma CreateCounts(db: Db, op: Op, q: nat)
    requires op.Create? && KeysFree(db, op)
    ensures Apply(db, op).references[q] == db.references[q] + if q in op.questionIds then 1 else 0
    ensures TasksUsing(Apply(db, op), q) == TasksUsing(db, q) + if q in op.questionIds then {op.id} else {}
  {
  }

  /** Cancelled, expired and answered tasks keep their questions counted. */
  lemma {:induction false} EveryRunCountsReferences(db: Db, ops: seq<Op>)
    requires ReferencesSound(db)
    ensures ReferencesSound(Run(db, ops))
    decreases |ops|
  {
    if ops != [] {
      var after := Apply(db, ops[0]);
      forall q: nat ensures after.references[q] == |TasksUsing(after, q)| {
        if ops[0].Create? && KeysFree(db, ops[0]) {
          CreateCounts(db, ops[0], q);
        } else {
          OnlyCreateCounts(db, ops[0], q);
        }
      }
      EveryRunCountsReferences(after, ops[1..]);
    }
  }

  // ---------------------------------------------------------------- what never goes back

  /** Completed and canceled are final; a verdict is final; a spent token stays spent. */
  ghost predicate NoWayBack(v: View, w: View) {
    v.View? ==>
      && w.View?
      && (v.status == Completed || v.status == Canceled ==> w.status == v.status && w.valid == {})
      && (v.grading != Waiting ==> w.grading == v.grading || v.grading == Grading)
      && (v.grading != Waiting ==> w.grading != Waiting)
      && v.used <= w.used
      && (v.status == Completed ==> w.jobs == v.jobs && w.used == v.used)
  }

  /** A task that has left a final point never returns to it, whatever follows. */
  lemma {:induction false} FinalPointsAreFinal(db: Db, ops: seq<Op>, id: TaskId)
    requires Sound(db) && GoodOps(ops)
    ensures NoWayBack(ViewOf(db, id), ViewOf(Run(db, ops), id))
    decreases |ops|
  {
    assert LifeInvariant(ViewOf(db, id));
    if ops != [] {
      StepRefinesLifeCycle(db, ops[0], id);
      StepKeepsSound(db, ops[0]);
      FinalPointsAreFinal(Apply(db, ops[0]), ops[1..], id);
    }
  }

  // ---------------------------------------------------------------- what a transaction leaves behind

  /** The row a creation stores, and its link, column by column. */
  lemma CreatedRows(db: Db, op: Op)
    requires op.Create? && KeysFree(db, op)
    ensures var after := Apply(db, op);
            && after.tasks.Keys == db.tasks.Keys + {op.id} && after.links.Keys == db.links.Keys + {op.token}
            && after.tasks[op.id].no == op.no && after.tasks[op.id].testType == op.testType
            && after.tasks[op.id].questionIds == op.questionIds
            && after.tasks[op.id].status == Pending && after.tasks[op.id].grading == Waiting
            && after.links[op.token].taskId == op.id && after.links[op.token].status == Valid
            && after.links[op.token].generatedAt == op.now
  {
  }

  /** What is fixed when a task is created: its number, its type and its ordered questions. */
  ghost predicate SameSnapshot(before: Task, after: Task) {
    after.questionIds == before.questionIds && after.testType == before.testType && after.no == before.no
  }

  lemma {:induction false} RunKeepsSnapshots(db: Db, ops: seq<Op>, id: TaskId)
    requires id in db.tasks
    ensures id in Run(db, ops).tasks && SameSnapshot(db.tasks[id], Run(db, ops).tasks[id])
    decreases |ops|
  {
    if ops != [] { RunKeepsSnapshots(Apply(db, ops[0]), ops[1..], id); }
  }

  /** Whatever follows, a created task keeps the number, type and ordered questions it was asked for. */
  lemma CreatedTaskStaysAsAsked(db: Db, op: Op, ops: seq<Op>)
    requires op.Create? && KeysFree(db, op)
    ensures var tasks := Run(Apply(db, op), ops).tasks;
            op.id in tasks && tasks[op.id].no == op.no && tasks[op.id].testType == op.testType
            && tasks[op.id].questionIds == op.questionIds
  {
    CreatedRows(db, op);
    RunKeepsSnapshots(Apply(db, op), ops, op.id);
  }

  /** A link lives seven days from its generation, and exactly a used one carries its task's completion time. */
  ghost predicate Stamped(db: Db, k: Token) {
    k in db.links ==>
      var link := db.links[k];
      && link.taskId in db.tasks && link.expiresAt == link.generatedAt + 604_800
      && link.usedAt == (if link.status == Used then db.tasks[link.taskId].completedAt else None)
      && (link.status == Used ==> db.tasks[link.taskId].status == Completed)
  }

  /** Every link is stamped, and a task carries a completion time exactly when it is completed. */
  ghost predicate StampsSound(db: Db) {
    && NoOrphans(db)
    && (forall i :: i in db.tasks ==> (db.tasks[i].completedAt.Some? <==> db.tasks[i].status == Completed))
    && (forall k :: Stamped(db, k))
  }

  lemma {:induction false} EveryRunStampsLinks(db: Db, ops: seq<Op>)
    requires StampsSound(db)
    ensures StampsSound(Run(db, ops))
    decreases |ops|
  {
    if ops != [] {
      StepStampsLinks(db, ops[0]);
      EveryRunStampsLinks(Apply(db, ops[0]), ops[1..]);
    }
  }

  lemma OtherLinkStays(db: Db, op: Op, k: Token)
    requires k in db.links && db.links[k].taskId in db.tasks && db.links[k].taskId != op.id
    ensures k in Apply(db, op).links && Apply(db, op).links[k] == db.links[k]
    ensures db.links[k].taskId in Apply(db, op).tasks && Apply(db, op).tasks[db.links[k].taskId] == db.tasks[db.links[k].taskId]
  {
    OtherTaskStays(db, op, db.links[k].taskId);
  }

  lemma OwnLinkStamped(db: Db, op: Op, k: Token)
    requires Stamped(db, k) && k in Apply(db, op).links && (k in db.links ==> db.links[k].taskId == op.id)
    ensures Stamped(Apply(db, op), k)
  {
    match op
    case Create(_, _, _, _, _, _) =>
    case Resend(_, _, _) =>
    case Complete(_, _, _) =>
    case _ =>
  }

  lemma StepStampsLink(db: Db, op: Op, k: Token)
    requires Stamped(db, k)
    ensures Stamped(Apply(db, op), k)
  {
    if k in db.links && db.links[k].taskId != op.id {
      OtherLinkStays(db, op, k);
    } else if k in Apply(db, op).links {
      OwnLinkStamped(db, op, k);
    }
  }

  lemma CompletionIsTimed(db: Db, op: Op, i: TaskId)
    requires i in db.tasks ==> (db.tasks[i].completedAt.Some? <==> db.tasks[i].status == Completed)
    ensures i in Apply(db, op).tasks ==> (Apply(db, op).tasks[i].completedAt.Some? <==> Apply(db, op).tasks[i].status == Completed)
  {
  }

  lemma StepStampsLinks(db: Db, op: Op)
    requires StampsSound(db)
    ensures StampsSound(Apply(db, op))
  {
    StepKeepsNoOrphans(db, op);
    forall k ensures Stamped(Apply(db, op), k) {
      StepStampsLink(db, op, k);
    }
    forall i | i in Apply(db, op).tasks
      ensures Apply(db, op).tasks[i].completedAt.Some? <==> Apply(db, op).tasks[i].status == Completed
    {
      CompletionIsTimed(db, op, i);
    }
  }

  /** A verdict recorded for a task being graded is the one it keeps. */
  lemma VerdictStays(db: Db, id: TaskId, verdict: GradingStatus, ops: seq<Op>)
    requires Sound(db) && GoodOp(Grade(id, verdict)) && GoodOps(ops) && id in db.tasks && db.tasks[id].grading == Grading
    ensures var tasks := Run(Apply(db, Grade(id, verdict)), ops).tasks;
            id in tasks && tasks[id].grading == verdict && tasks[id].status == Completed
  {
    assert LifeInvariant(ViewOf(db, id));
    StepKeepsSound(db, Grade(id, verdict));
    FinalPointsAreFinal(Apply(db, Grade(id, verdict)), ops, id);
  }

  /** An answerable task completed now stays completed now, with one job and the link it was answered by. */
  lemma CompletionStays(db: Db, id: TaskId, now: int, ops: seq<Op>)
    requires Sound(db) && GoodOps(ops) && HasStatus(db, id, {Pending, InProgress})
    ensures var after := Run(Apply(db, Complete(id, now, true)), ops);
            && HasStatus(after, id, {Completed}) && after.tasks[id].completedAt == Some(now) && after.queue[id] == 1
            && LinksOf(after, id, Used) == LinksOf(db, id, Valid) && LinksOf(after, id, Valid) == {}
  {
    var op := Complete(id, now, true);
    assert LifeInvariant(ViewOf(db, id));
    StepRefinesLifeCycle(db, op, id);
    StepKeepsSound(db, op);
    FinalPointsAreFinal(Apply(db, op), ops, id);
    CompletionTimeStays(Apply(db, op), ops, id);
  }

  lemma {:induction false} CompletionTimeStays(db: Db, ops: seq<Op>, id: TaskId)
    requires HasStatus(db, id, {Completed})
    ensures HasStatus(Run(db, ops), id, {Completed}) && Run(db, ops).tasks[id].completedAt == db.tasks[id].completedAt
    decreases |ops|
  {
    if ops != [] { CompletionTimeStays(Apply(db, ops[0]), ops[1..], id); }
  }

  /** A task canceled before it was completed stays canceled, with no link that opens it. */
  lemma CancelStays(db: Db, id: TaskId, ops: seq<Op>)
    requires Sound(db) && GoodOps(ops) && HasStatus(db, id, {Pending, InProgress, Expired})
    ensures var after := Run(Apply(db, Cancel(id)), ops);
            HasStatus(after, id, {Canceled}) && LinksOf(after, id, Valid) == {}
  {
    StepRefinesLifeCycle(db, Cancel(id), id);
    StepKeepsSound(db, Cancel(id));
    FinalPointsAreFinal(Apply(db, Cancel(id)), ops, id);
  }

  // ---------------------------------------------------------------- active counts

  /** The polling query: not canceled, and unanswered or answered with grading still open. */
  predicate CountsAsActive(t: Task, testType: TestType) {
    t.testType == testType && t.status != Canceled
    && (t.status == Pending || t.status == InProgress
        || (t.status == Completed && (t.grading == Waiting || t.grading == Grading)))
  }

  function ActiveTasks(db: Db, testType: TestType): set<TaskId> {
    set i | i in db.tasks && CountsAsActive(db.tasks[i], testType)
  }

  function TasksIn(db: Db, testType: TestType, status: TaskStatus): set<TaskId> {
    set i | i in db.tasks && db.tasks[i].testType == testType && db.tasks[i].status == status
  }

  function TasksBeingGraded(db: Db, testType: TestType): set<TaskId> {
    set i | i in db.tasks && db.tasks[i].testType == testType && db.tasks[i].grading == Grading
  }

  /** The active count is pending + in progress + being graded, with no task counted twice. */
  lemma ActiveCountSplits(db: Db, testType: TestType)
    requires Sound(db)
    ensures |ActiveTasks(db, testType)|
         == |TasksIn(db, testType, Pending)| + |TasksIn(db, testType, InProgress)| + |TasksBeingGraded(db, testType)|
  {
    var p, q, g := TasksIn(db, testType, Pending), TasksIn(db, testType, InProgress), TasksBeingGraded(db, testType);
    forall i | i in db.tasks
      ensures db.tasks[i].grading == Waiting <==> db.tasks[i].status != Completed
    {
      assert LifeInvariant(ViewOf(db, i));
    }
    assert ActiveTasks(db, testType) == p + q + g;
    assert p !! q && (p + q) !! g;
  }

  /** How each transaction that takes effect moves the active set: a creation or a resend puts its task
      there, a cancelation, an expiry or a verdict takes it away, a start or a completion leaves it. */
  lemma ActiveSetMoves(db: Db, op: Op, testType: TestType)
    requires Sound(db) && GoodOp(op) && Apply(db, op) != db
    ensures op.id in Apply(db, op).tasks && (op.Create? ==> Apply(db, op).tasks[op.id].testType == op.testType)
    ensures var after := Apply(db, op);
            var own := if after.tasks[op.id].testType == testType then {op.id} else {};
            ActiveTasks(after, testType)
            == if op.Create? || op.Resend? then ActiveTasks(db, testType) + own
               else if op.Start? || op.Complete? then ActiveTasks(db, testType)
               else ActiveTasks(db, testType) - own
    ensures op.Start? || op.Complete? ==> op.id in ActiveTasks(db, db.tasks[op.id].testType)
  {
    assert LifeInvariant(ViewOf(db, op.id));
    var after := Apply(db, op);
    forall i | i != op.id ensures i in ActiveTasks(after, testType) <==> i in ActiveTasks(db, testType) {
      OtherTaskStays(db, op, i);
    }
    OwnTaskMoves(db, op);
  }

  lemma OtherTaskStays(db: Db, op: Op, i: TaskId)
    requires op.id != i
    ensures i in Apply(db, op).tasks <==> i in db.tasks
    ensures i in db.tasks ==> Apply(db, op).tasks[i] == db.tasks[i]
  {
  }

  lemma OwnTaskMoves(db: Db, op: Op)
    requires LifeInvariant(ViewOf(db, op.id)) && GoodOp(op) && Apply(db, op) != db
    ensures var after := Apply(db, op);
            op.id in after.tasks
            && (op.Create? <==> op.id !in db.tasks)
            && (op.Create? ==> after.tasks[op.id].testType == op.testType)
            && (!op.Create? ==> after.tasks[op.id].testType == db.tasks[op.id].testType)
            && (CountsAsActive(after.tasks[op.id], after.tasks[op.id].testType) <==> !op.Cancel? && !op.Expire? && !op.Grade?)
            && (op.Start? || op.Complete? ==> CountsAsActive(db.tasks[op.id], db.tasks[op.id].testType))
  {
  }

  // ---------------------------------------------------------------- the link the administrator sees

  /** The row a `generated_at DESC LIMIT 1` query may return for a task. */
  ghost predicate MayBeCurrent(db: Db, id: TaskId, token: Token) {
    token in db.links && db.links[token].taskId == id
    && forall k :: k in db.links && db.links[k].taskId == id ==> db.links[k].generatedAt <= db.links[token].generatedAt
  }

  ghost predicate NewestFor(db: Db, id: TaskId, now: int) {
    forall k :: k in db.links && db.links[k].taskId == id ==> db.links[k].generatedAt < now
  }

  /** After a committed resend the query is certain to show the new link exactly when the new link's
      time, which is read before the transaction, is later than every earlier link's time. */
  lemma ResentLinkIsCurrentIff(db: Db, id: TaskId, token: Token, now: int)
    requires HasStatus(db, id, {Pending, Expired}) && token !in db.links
    ensures var after := Apply(db, Resend(id, token, now));
            (forall k :: MayBeCurrent(after, id, k) <==> k == token) <==> NewestFor(db, id, now)
  {
    var after := Apply(db, Resend(id, token, now));
    if NewestFor(db, id, now) {
      forall k ensures MayBeCurrent(after, id, k) <==> k == token {
        assert token in after.links && after.links[token] == FreshLink(id, now);
        assert k in after.links && k != token ==> k in db.links && after.links[k].generatedAt == db.links[k].generatedAt;
      }
    } else {
      var rival :| rival in db.links && db.links[rival].taskId == id && db.links[rival].generatedAt >= now;
      assert rival in after.links && rival != token;
      if MayBeCurrent(after, id, token) { assert MayBeCurrent(after, id, rival); }
    }
  }

  /** Two resends whose clocks were read in the opposite order of their commits. */
  const RACING: seq<Op> := [Create(1, "T", AiMgmt, [], "a", 0), Resend(1, "b", 20), Resend(1, "c", 10)]

  /** After that race the administrator is shown "b" while only "c" still opens the test. */
  lemma RacingResendsShowDeadLink()
    ensures GoodOps(RACING)
    ensures MayBeCurrent(Run(EMPTY, RACING), 1, "b") && !MayBeCurrent(Run(EMPTY, RACING), 1, "c")
    ensures LinksOf(Run(EMPTY, RACING), 1, Valid) == {"c"}
  {
    var s1 := Apply(EMPTY, RACING[0]);
    var s2 := Apply(s1, RACING[1]);
    var s3 := Apply(s2, RACING[2]);
    assert Run(EMPTY, RACING) == s3 by {
      assert RACING[1..][0] == RACING[1] && RACING[1..][1..] == [RACING[2]];
      assert Run(s2, [RACING[2]]) == s3;
    }
    assert s1.links == map["a" := FreshLink(1, 0)];
    assert s2.links == map["a" := FreshLink(1, 0).(status := Invalid), "b" := FreshLink(1, 20)];
    assert s3.links.Keys == {"a", "b", "c"};
    assert s3.links["b"] == FreshLink(1, 20).(status := Invalid) && s3.links["c"] == FreshLink(1, 10);
  }
}
