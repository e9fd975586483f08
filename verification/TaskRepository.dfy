/** The task repository as the source runs it: transactions that change table rows in place. */
module TaskRepository {
  import opened Base
  import opened TestTasks
  import Numbering

  class Repository {
    var tasks: map<TaskId, Task>
    var links: map<Token, Link>
    var queue: multiset<TaskId>
    var references: multiset<nat>

    ghost function Tables(): Db
      reads this
    {
      Db(tasks, links, queue, references)
    }

    constructor ()
      ensures Tables() == EMPTY
    {
      tasks, links, queue, references := map[], map[], multiset{}, multiset{};
    }

    /** Task row, link row and reference counts in one transaction; a taken key rolls all of it back. */
    method CreateWithLink(id: TaskId, no: string, testType: TestType, questionIds: seq<nat>, token: Token, now: int)
      returns (outcome: Outcome)
      modifies this
      ensures Tables() == Apply(old(Tables()), Create(id, no, testType, questionIds, token, now))
      ensures outcome == if KeysFree(old(Tables()), Create(id, no, testType, questionIds, token, now)) then Done else Failed
      ensures outcome == Done ==>
                && id in tasks && tasks[id].no == no && tasks[id].testType == testType && tasks[id].questionIds == questionIds
                && tasks[id].status == Pending && tasks[id].grading == Waiting
                && token in links && links[token].taskId == id && links[token].status == Valid
                && links[token].generatedAt == now && links[token].expiresAt == now + 7 * 24 * 3600
    {
      var savedTasks := tasks;
      if id in tasks || (exists i :: i in tasks && tasks[i].no == no) {
        return Failed;
      }
      tasks := tasks[id := FreshTask(no, testType, questionIds)];
      if token in links {
        tasks := savedTasks;
        return Failed;
      }
      links := links[token := FreshLink(id, now)];
      IncrementReferenceCounts(questionIds);
      outcome := Done;
    }

    /** One statement over the listed ids: a repeated id is counted once. */
    method IncrementReferenceCounts(questionIds: seq<nat>)
      modifies this`references
      ensures references == old(references) + CountedOnce(questionIds)
    {
      references := references + multiset(set q | q in questionIds);
    }

    /** Lock and re-check the row, send expired back to pending, retire the live link, add the new one. */
    method ReplaceLink(id: TaskId, token: Token, now: int) returns (outcome: Outcome)
      modifies this
      ensures Tables() == Apply(old(Tables()), Resend(id, token, now))
      ensures outcome == if !HasStatus(old(Tables()), id, {Pending, Expired}) then NotSubmittable
                         else if token in old(links) then Failed else Done
    {
      var savedTasks, savedLinks := tasks, links;
      if id !in tasks || (tasks[id].status != Pending && tasks[id].status != Expired) {
        return NotSubmittable;
      }
      if tasks[id].status == Expired {
        tasks := tasks[id := tasks[id].(status := Pending)];
      }
      links := Retire(links, {id});
      if token in links {
        tasks, links := savedTasks, savedLinks;
        return Failed;
      }
      links := links[token := FreshLink(id, now)];
      assert tasks == WithStatus(old(Tables()), id, Pending);
      outcome := Done;
    }

    method CancelTask(id: TaskId) returns (affected: nat)
      modifies this
      ensures Tables() == Apply(old(Tables()), Cancel(id))
      ensures affected == if HasStatus(old(Tables()), id, {Pending, InProgress, Expired}) then 1 else 0
    {
      if id !in tasks || tasks[id].status !in {Pending, InProgress, Expired} {
        return 0;
      }
      tasks := tasks[id := tasks[id].(status := Canceled)];
      links := Retire(links, {id});
      affected := 1;
    }

    method MarkSessionStarted(id: TaskId) returns (affected: nat)
      modifies this
      ensures Tables() == Apply(old(Tables()), Start(id))
      ensures affected == if HasStatus(old(Tables()), id, {Pending}) then 1 else 0
    {
      if id !in tasks || tasks[id].status != Pending {
        return 0;
      }
      tasks := tasks[id := tasks[id].(status := InProgress)];
      affected := 1;
    }

    /** Task, links, grading axis and the grading job commit together or not at all. A repeated
        submission of a completed task succeeds without a second job. */
    method CompleteTask(id: TaskId, now: int, enqueueOk: bool) returns (outcome: Outcome)
      modifies this
      ensures Tables() == Apply(old(Tables()), Complete(id, now, enqueueOk))
      ensures outcome == if HasStatus(old(Tables()), id, {Pending, InProgress}) then (if enqueueOk then Done else Failed)
                         else if HasStatus(old(Tables()), id, {Completed}) then Done else NotSubmittable
    {
      var savedTasks, savedLinks := tasks, links;
      if id !in tasks || (tasks[id].status != Pending && tasks[id].status != InProgress) {
        if id in tasks && tasks[id].status == Completed {
          return Done;
        }
        return NotSubmittable;
      }
      tasks := tasks[id := tasks[id].(status := Completed, completedAt := Some(now))];
      links := Consume(links, id, now);
      if tasks[id].grading == Waiting {
        tasks := tasks[id := tasks[id].(grading := Grading)];
      }
      if !enqueueOk {
        tasks, links := savedTasks, savedLinks;
        return Failed;
      }
      assert tasks == old(tasks)[id := Submitted(old(tasks)[id], now)];
      queue := queue + multiset{id};
      outcome := Done;
    }

    method MarkGradingTerminal(id: TaskId, verdict: GradingStatus)
      modifies this
      ensures Tables() == Apply(old(Tables()), Grade(id, verdict))
    {
      if id in tasks && tasks[id].grading == Grading {
        tasks := tasks[id := tasks[id].(grading := verdict)];
      }
    }

    method CountActiveByType() returns (aiMgmt: nat, enneagram: nat)
      ensures aiMgmt == |ActiveTasks(Tables(), AiMgmt)|
      ensures enneagram == |ActiveTasks(Tables(), Enneagram)|
    {
      var all := Db(tasks, links, queue, references);
      aiMgmt := CountType(all, AiMgmt);
      enneagram := CountType(all, Enneagram);
    }

    /** One group of the grouped count. */
    static method CountType(db: Db, testType: TestType) returns (n: nat)
      ensures n == |ActiveTasks(db, testType)|
    {
      n := 0;
      ghost var active := ActiveTasks(db, testType);
      var rest := db.tasks.Keys;
      assert active - rest == {};
      while rest != {}
        invariant rest <= db.tasks.Keys && n == |active - rest|
        decreases |rest|
      {
        var id :| id in rest;
        CountOneMore(active, rest, id);
        if CountsAsActive(db.tasks[id], testType) {
          n := n + 1;
        }
        rest := rest - {id};
      }
      assert active - {} == active;
    }

    /** One candidate of the scan: re-checks the task status only, then retires the link. */
    method ExpireOne(id: TaskId) returns (moved: bool)
      modifies this
      ensures Tables() == Apply(old(Tables()), Expire(id))
      ensures moved == HasStatus(old(Tables()), id, {Pending})
    {
      moved := id in tasks && tasks[id].status == Pending;
      if moved {
        tasks := tasks[id := tasks[id].(status := Expired)];
        links := Retire(links, {id});
      }
    }

    /** The scan picks its candidates once, then expires them one transaction at a time. `rivals(k)` is
        what other callers commit before the k-th of them. Exactly the tasks still pending at their turn
        are moved and reported. */
    method ExpirePending(now: int, rivals: nat -> seq<Op>) returns (advanced: seq<string>, ghost order: seq<TaskId>)
      modifies this
      ensures Lists(order, Overdue(old(Tables()), now))
      ensures Tables() == Run(old(Tables()), Scan(order, rivals))
      ensures advanced == Moved(old(Tables()), order, rivals)
    {
      ghost var start := Tables();
      var candidates := Candidates(now);
      order := candidates;
      advanced := [];
      for k := 0 to |candidates|
        invariant Tables() == Run(start, Scan(candidates[..k], rivals))
        invariant advanced == Moved(start, candidates[..k], rivals)
      {
        assert candidates[..k + 1][..k] == candidates[..k];
        var id := candidates[k];
        RunKeepsTask(start, Scan(candidates[..k], rivals), id);
        RunKeepsTask(Tables(), rivals(k), id);
        ScanSplits(start, candidates[..k + 1], rivals);
        var taskNo := tasks[id].no;
        Interfere(rivals(k));
        var moved := ExpireOne(id);
        if moved {
          advanced := advanced + [taskNo];
        }
      }
      assert candidates[..|candidates|] == candidates;
    }

    /** The ids the scan's query returns, in some order. */
    method Candidates(now: int) returns (ids: seq<TaskId>)
      ensures Lists(ids, Overdue(Tables(), now))
    {
      ids := [];
      var rest := Overdue(Db(tasks, links, queue, references), now);
      ghost var all := rest;
      while rest != {}
        invariant rest <= all && Lists(ids, all - rest)
        decreases |rest|
      {
        var id :| id in rest;
        rest, ids := rest - {id}, ids + [id];
      }
      assert all - {} == all;
    }

    /** Read the next number, let other callers commit, then try to create under that number. */
    method CreateOnce(id: TaskId, prefix: string, testType: TestType, questionIds: seq<nat>, token: Token, now: int,
                      rivals: seq<Op>)
      returns (no: string, created: bool)
      modifies this
      ensures no == Numbering.NextPadded(TaskNos(old(Tables())), prefix)
      ensures created == KeysFree(Run(old(Tables()), rivals), Create(id, no, testType, questionIds, token, now))
      ensures Tables() == Apply(Run(old(Tables()), rivals), Create(id, no, testType, questionIds, token, now))
    {
      no := Numbering.NextPadded(TaskNos(Db(tasks, links, queue, references)), prefix);
      Interfere(rivals);
      var outcome := CreateWithLink(id, no, testType, questionIds, token, now);
      created := outcome == Done;
    }

    /** Attempt k of a call that began on the tables `start`. */
    method Attempt(ghost start: Db, create: Op, prefix: string, rivals: seq<seq<Op>>, k: nat) returns (no: string, created: bool)
      requires create.Create? && k < |rivals| && Tables() == Run(start, Gap(rivals, k))
      modifies this
      ensures created == !AttemptLost(start, create, prefix, rivals, k)
      ensures created ==> Won(start, Tables(), create, prefix, rivals, k, no)
      ensures !created ==> Tables() == Run(start, Gap(rivals, k + 1))
    {
      GapGrows(start, rivals, k);
      no, created := CreateOnce(create.id, prefix, create.testType, create.questionIds, create.token, create.now, rivals[k]);
      assert create.(no := no) == Create(create.id, no, create.testType, create.questionIds, create.token, create.now);
    }

    /** Issue a task number and create, up to three times. `rivals[k]` are the transactions other
        callers commit between reading the number and inserting, at attempt k. The call ends at the first
        attempt whose keys are free, and fails only when all three are lost. */
    method CreateWithRetry(create: Op, prefix: string, rivals: seq<seq<Op>>) returns (no: Option<string>, attempts: nat)
      requires create.Create? && |rivals| == 3
      modifies this
      ensures 1 <= attempts <= 3
      ensures match no
              case None => attempts == 3 && AllLost(old(Tables()), create, prefix, rivals, 3)
                           && Tables() == Run(old(Tables()), Gap(rivals, 3))
              case Some(n) => AllLost(old(Tables()), create, prefix, rivals, attempts - 1)
                              && Won(old(Tables()), Tables(), create, prefix, rivals, attempts - 1, n)
    {
      ghost var start := Tables();
      attempts := 0;
      no := None;
      while attempts < 3 && no.None?
        invariant 0 <= attempts <= 3 && (attempts == 0 ==> no.None?)
        invariant AllLost(start, create, prefix, rivals, if no.None? then attempts else attempts - 1)
        invariant no.None? ==> Tables() == Run(start, Gap(rivals, attempts))
        invariant no.Some? ==> Won(start, Tables(), create, prefix, rivals, attempts - 1, no.value)
      {
        var next, created := Attempt(start, create, prefix, rivals, attempts);
        if created {
          no := Some(next);
        }
        attempts := attempts + 1;
      }
    }

    /** Other callers' transactions, run on the same tables. */
    method Interfere(ops: seq<Op>)
      modifies this
      ensures Tables() == Run(old(Tables()), ops)
    {
      for i := 0 to |ops|
        invariant Run(Tables(), ops[i..]) == Run(old(Tables()), ops)
      {
        var after := Apply(Db(tasks, links, queue, references), ops[i]);
        assert ops[i..][1..] == ops[i + 1..];
        tasks, links, queue, references := after.tasks, after.links, after.queue, after.references;
      }
    }
  }

  function Gap(rivals: seq<seq<Op>>, n: nat): seq<Op>
    requires n <= |rivals|
  {
    if n == 0 then [] else Gap(rivals, n - 1) + rivals[n - 1]
  }

  lemma GapGrows(db: Db, rivals: seq<seq<Op>>, k: nat)
    requires k < |rivals|
    ensures Run(db, Gap(rivals, k + 1)) == Run(Run(db, Gap(rivals, k)), rivals[k])
  {
    RunAppends(db, Gap(rivals, k), rivals[k]);
  }

  /** The number attempt k reads. */
  function NoRead(db: Db, prefix: string, rivals: seq<seq<Op>>, k: nat): string
    requires k < |rivals|
  {
    Numbering.NextPadded(TaskNos(Run(db, Gap(rivals, k))), prefix)
  }

  /** Attempt k inserts under keys that are no longer free. */
  predicate AttemptLost(db: Db, create: Op, prefix: string, rivals: seq<seq<Op>>, k: nat)
    requires create.Create? && k < |rivals|
  {
    !KeysFree(Run(db, Gap(rivals, k + 1)), create.(no := NoRead(db, prefix, rivals, k)))
  }

  predicate AllLost(db: Db, create: Op, prefix: string, rivals: seq<seq<Op>>, n: nat)
    requires create.Create? && n <= |rivals|
  {
    n == 0 || (AttemptLost(db, create, prefix, rivals, n - 1) && AllLost(db, create, prefix, rivals, n - 1))
  }

  ghost predicate Won(db: Db, after: Db, create: Op, prefix: string, rivals: seq<seq<Op>>, k: int, no: string)
    requires create.Create?
  {
    0 <= k < |rivals| && !AttemptLost(db, create, prefix, rivals, k) && no == NoRead(db, prefix, rivals, k)
    && after == Apply(Run(db, Gap(rivals, k + 1)), create.(no := no))
  }

  /** Some committed creation of a run took the number. */
  ghost predicate TakenIn(db: Db, ops: seq<Op>, no: string)
    decreases |ops|
  {
    ops != [] && ((ops[0].Create? && KeysFree(db, ops[0]) && ops[0].no == no) || TakenIn(Apply(db, ops[0]), ops[1..], no))
  }

  /** The task id and the token of this call are its own. */
  predicate KeysUnshared(create: Op, ops: seq<Op>)
    requires create.Create?
  {
    forall i :: 0 <= i < |ops| ==>
      (ops[i].Create? ==> ops[i].id != create.id && ops[i].token != create.token) && (ops[i].Resend? ==> ops[i].token != create.token)
  }

  lemma StepTakes(db: Db, op: Op, create: Op)
    requires create.Create? && KeysFree(db, create) && KeysUnshared(create, [op])
    ensures KeysFree(Apply(db, op), create) <==> !(op.Create? && KeysFree(db, op) && op.no == create.no)
  {
    assert [op][0] == op;
    if op.Create? && KeysFree(db, op) {
      CreateAddsItsNo(db, op);
    } else {
      OnlyCreateNumbers(db, op);
    }
  }

  lemma OnlyCreateNumbers(db: Db, op: Op)
    requires !op.Create? || !KeysFree(db, op)
    ensures TaskNos(Apply(db, op)) == TaskNos(db) && Apply(db, op).tasks.Keys == db.tasks.Keys
  {
    var after := Apply(db, op);
    assert forall i :: i in db.tasks ==> i in after.tasks && after.tasks[i].no == db.tasks[i].no;
    forall i | i in db.tasks ensures db.tasks[i].no in TaskNos(after) {
      assert i in after.tasks;
    }
  }

  lemma {:induction false} TakenStaysTaken(db: Db, ops: seq<Op>, create: Op)
    requires create.Create? && NoTaken(db, create.no)
    ensures NoTaken(Run(db, ops), create.no)
    decreases |ops|
  {
    if ops != [] {
      var i :| i in db.tasks && db.tasks[i].no == create.no;
      RunKeepsTask(db, [ops[0]], i);
      assert [ops[0]][1..] == [] && Run(db, [ops[0]]) == Apply(db, ops[0]);
      TakenStaysTaken(Apply(db, ops[0]), ops[1..], create);
    }
  }

  lemma {:induction false} KeysLostIff(db: Db, ops: seq<Op>, create: Op)
    requires create.Create? && KeysFree(db, create) && KeysUnshared(create, ops)
    ensures !KeysFree(Run(db, ops), create) <==> TakenIn(db, ops, create.no)
    decreases |ops|
  {
    if ops != [] {
      StepTakes(db, ops[0], create);
      if KeysFree(Apply(db, ops[0]), create) {
        KeysLostIff(Apply(db, ops[0]), ops[1..], create);
      } else {
        TakenStaysTaken(Apply(db, ops[0]), ops[1..], create);
      }
    }
  }

  /** An attempt is lost exactly when another caller took the very number it read, between its read and its
      insert: so a call fails only if that happened three times. */
  lemma AttemptLostIff(db: Db, create: Op, prefix: string, rivals: seq<seq<Op>>, k: nat)
    requires create.Create? && k < |rivals| && KeysUnshared(create, rivals[k])
    requires Numbering.Issued(TaskNos(Run(db, Gap(rivals, k))), prefix)
    requires create.id !in Run(db, Gap(rivals, k)).tasks && create.token !in Run(db, Gap(rivals, k)).links
    ensures AttemptLost(db, create, prefix, rivals, k)
       <==> TakenIn(Run(db, Gap(rivals, k)), rivals[k], NoRead(db, prefix, rivals, k))
  {
    var read := Run(db, Gap(rivals, k));
    var candidate := create.(no := NoRead(db, prefix, rivals, k));
    Numbering.NextPaddedIsFresh(TaskNos(read), prefix);
    GapGrows(db, rivals, k);
    KeysLostIff(read, rivals[k], candidate);
  }

  lemma CreateAddsItsNo(db: Db, op: Op)
    requires op.Create? && KeysFree(db, op)
    ensures TaskNos(Apply(db, op)) == TaskNos(db) + {op.no}
  {
    assert Apply(db, op).tasks[op.id].no == op.no;
    forall i | i in db.tasks ensures Apply(db, op).tasks[i].no == db.tasks[i].no {}
  }

  /** With no rival in the gap the number read is free, and creating under it keeps the day's numbers
      issued in sequence. */
  lemma UnopposedNumberIsFree(db: Db, op: Op, prefix: string)
    requires Numbering.Issued(TaskNos(db), prefix)
    requires op.Create? && op.no == Numbering.NextPadded(TaskNos(db), prefix)
    ensures !NoTaken(db, op.no)
    ensures Numbering.Issued(TaskNos(Apply(db, op)), prefix)
  {
    Numbering.NextPaddedIsFresh(TaskNos(db), prefix);
    if KeysFree(db, op) { CreateAddsItsNo(db, op); }
  }

  lemma {:induction false} RunAppends(db: Db, first: seq<Op>, second: seq<Op>)
    ensures Run(db, first + second) == Run(Run(db, first), second)
    decreases |first|
  {
    if first == [] {
      assert first + second == second;
    } else {
      assert (first + second)[0] == first[0] && (first + second)[1..] == first[1..] + second;
      RunAppends(Apply(db, first[0]), first[1..], second);
    }
  }

  lemma CountOneMore(all: set<TaskId>, rest: set<TaskId>, id: TaskId)
    requires id in rest
    ensures |all - (rest - {id})| == |all - rest| + if id in all then 1 else 0
  {
    assert all - (rest - {id}) == (all - rest) + if id in all then {id} else {};
  }

  // ---------------------------------------------------------------- the expiry scan on values

  /** Pending tasks whose live link has run out. */
  function Overdue(db: Db, now: int): set<TaskId> {
    set i | i in db.tasks && db.tasks[i].status == Pending
            && (exists k :: k in db.links && db.links[k].taskId == i && db.links[k].status == Valid
                            && db.links[k].expiresAt < now)
  }

  ghost predicate Lists(order: seq<TaskId>, ids: set<TaskId>) {
    && (forall i :: 0 <= i < |order| ==> order[i] in ids)
    && (forall id :: id in ids ==> id in order)
    && (forall i, j :: 0 <= i < j < |order| ==> order[i] != order[j])
  }

  /** The transactions of a scan with everything others commit in between. */
  function Scan(order: seq<TaskId>, rivals: nat -> seq<Op>): seq<Op>
    decreases |order|
  {
    if order == [] then []
    else
      var k := |order| - 1;
      Scan(order[..k], rivals) + rivals(k) + [Expire(order[k])]
  }

  /** The numbers of the tasks still pending when their turn came, in order. */
  function Moved(db: Db, order: seq<TaskId>, rivals: nat -> seq<Op>): seq<string>
    decreases |order|
  {
    if order == [] then []
    else
      var k := |order| - 1;
      var before := Run(Run(db, Scan(order[..k], rivals)), rivals(k));
      Moved(db, order[..k], rivals) + if HasStatus(before, order[k], {Pending}) then [before.tasks[order[k]].no] else []
  }

  lemma ScanSplits(db: Db, order: seq<TaskId>, rivals: nat -> seq<Op>)
    requires order != []
    ensures var k := |order| - 1;
            Run(db, Scan(order, rivals)) == Apply(Run(Run(db, Scan(order[..k], rivals)), rivals(k)), Expire(order[k]))
  {
    var k := |order| - 1;
    RunAppends(db, Scan(order[..k], rivals) + rivals(k), [Expire(order[k])]);
    RunAppends(db, Scan(order[..k], rivals), rivals(k));
    assert [Expire(order[k])][1..] == [];
  }

  /** Tasks are never removed and keep their numbers. */
  lemma {:induction false} RunKeepsTask(db: Db, ops: seq<Op>, id: TaskId)
    ensures id in db.tasks ==> id in Run(db, ops).tasks && Run(db, ops).tasks[id].no == db.tasks[id].no
    decreases |ops|
  {
    if ops != [] { RunKeepsTask(Apply(db, ops[0]), ops[1..], id); }
  }

  // ---------------------------------------------------------------- a scan nobody disturbs

  /** All of them expired at once: the reference an undisturbed scan has to meet. */
  function ExpireAll(db: Db, ids: set<TaskId>): Db {
    db.(tasks := map i | i in db.tasks :: if i in ids then db.tasks[i].(status := Expired) else db.tasks[i],
        links := Retire(db.links, ids))
  }

  lemma ExpireNobody(db: Db)
    ensures ExpireAll(db, {}) == db
  {
    assert ExpireAll(db, {}).tasks == db.tasks && ExpireAll(db, {}).links == db.links;
  }

  lemma ExpireOneMore(db: Db, done: set<TaskId>, id: TaskId)
    requires id in db.tasks && db.tasks[id].status == Pending && id !in done
    ensures Apply(ExpireAll(db, done), Expire(id)) == ExpireAll(db, done + {id})
    ensures HasStatus(ExpireAll(db, done), id, {Pending}) && ExpireAll(db, done).tasks[id].no == db.tasks[id].no
  {
    var one := Apply(ExpireAll(db, done), Expire(id));
    var all := ExpireAll(db, done + {id});
    assert one.tasks == all.tasks;
    assert one.links == all.links;
  }

  function IdsOf(order: seq<TaskId>): set<TaskId> {
    set id | id in order
  }

  ghost predicate PendingOnce(db: Db, order: seq<TaskId>) {
    && (forall i :: 0 <= i < |order| ==> HasStatus(db, order[i], {Pending}))
    && (forall i, j :: 0 <= i < j < |order| ==> order[i] != order[j])
  }

  /** Undisturbed, the one-by-one scan expires the whole candidate set at once, whatever its order. */
  lemma {:induction false} UndisturbedScan(db: Db, order: seq<TaskId>, rivals: nat -> seq<Op>)
    requires (forall k: nat :: rivals(k) == []) && PendingOnce(db, order)
    ensures Run(db, Scan(order, rivals)) == ExpireAll(db, IdsOf(order))
    decreases |order|
  {
    if order == [] {
      ExpireNobody(db);
    } else {
      var k := |order| - 1;
      UndisturbedScan(db, order[..k], rivals);
      assert order[k] !in IdsOf(order[..k]);
      UndisturbedStep(db, order, rivals, IdsOf(order[..k]));
      assert IdsOf(order) == IdsOf(order[..k]) + {order[k]};
    }
  }

  /** It reports every candidate's number, in order. */
  lemma {:induction false} UndisturbedReport(db: Db, order: seq<TaskId>, rivals: nat -> seq<Op>)
    requires (forall k: nat :: rivals(k) == []) && PendingOnce(db, order)
    ensures |Moved(db, order, rivals)| == |order|
    ensures forall i :: 0 <= i < |order| ==> order[i] in db.tasks && Moved(db, order, rivals)[i] == db.tasks[order[i]].no
    decreases |order|
  {
    if order != [] {
      var k := |order| - 1;
      var before := Moved(db, order[..k], rivals);
      UndisturbedReport(db, order[..k], rivals);
      UndisturbedScan(db, order[..k], rivals);
      UndisturbedStep(db, order, rivals, IdsOf(order[..k]));
      ReportGrows(db, order, before, Moved(db, order, rivals));
    }
  }

  lemma ReportGrows(db: Db, order: seq<TaskId>, before: seq<string>, after: seq<string>)
    requires PendingOnce(db, order) && |before| + 1 == |order| && after == before + [db.tasks[order[|order| - 1]].no]
    requires forall i :: 0 <= i < |before| ==> before[i] == db.tasks[order[..|order| - 1][i]].no
    ensures forall i :: 0 <= i < |order| ==> order[i] in db.tasks && after[i] == db.tasks[order[i]].no
  {
    forall i | 0 <= i < |order| ensures order[i] in db.tasks && after[i] == db.tasks[order[i]].no {
      assert HasStatus(db, order[i], {Pending});
      if i < |before| { assert order[..|order| - 1][i] == order[i]; }
    }
  }

  lemma UndisturbedStep(db: Db, order: seq<TaskId>, rivals: nat -> seq<Op>, done: set<TaskId>)
    requires order != [] && rivals(|order| - 1) == []
    requires HasStatus(db, order[|order| - 1], {Pending}) && order[|order| - 1] !in done
    requires Run(db, Scan(order[..|order| - 1], rivals)) == ExpireAll(db, done)
    ensures var k := |order| - 1;
            Run(db, Scan(order, rivals)) == ExpireAll(db, done + {order[k]})
            && Moved(db, order, rivals) == Moved(db, order[..k], rivals) + [db.tasks[order[k]].no]
  {
    var k := |order| - 1;
    ScanSplits(db, order, rivals);
    ExpireOneMore(db, done, order[k]);
    assert Run(ExpireAll(db, done), rivals(k)) == ExpireAll(db, done);
  }

  /** After such a scan no pending task has an overdue live link, and no other task has moved. */
  lemma ScanLeavesNothingOverdue(db: Db, now: int)
    ensures Overdue(ExpireAll(db, Overdue(db, now)), now) == {}
    ensures forall i :: i in db.tasks && i !in Overdue(db, now) ==>
              ViewOf(ExpireAll(db, Overdue(db, now)), i) == ViewOf(db, i)
  {
    var after := ExpireAll(db, Overdue(db, now));
    forall i | i in db.tasks && i !in Overdue(db, now) ensures ViewOf(after, i) == ViewOf(db, i) {
      assert LinksOf(after, i, Valid) == LinksOf(db, i, Valid);
      assert LinksOf(after, i, Used) == LinksOf(db, i, Used);
    }
  }

  // ---------------------------------------------------------------- a scan overtaken by a resend

  /** The operation resends the task's link and is not refused. */
  predicate Resent(db: Db, op: Op, id: TaskId) {
    op.Resend? && op.id == id && HasStatus(db, id, {Pending, Expired}) && op.token !in db.links
  }

  ghost predicate ResentIn(db: Db, ops: seq<Op>, id: TaskId)
    decreases |ops|
  {
    ops != [] && (Resent(db, ops[0], id) || ResentIn(Apply(db, ops[0]), ops[1..], id))
  }

  /** Links sent during the run outlive the scan's time. */
  predicate SentInTime(ops: seq<Op>, id: TaskId, now: int) {
    forall i :: 0 <= i < |ops| && ops[i].Resend? && ops[i].id == id ==> ops[i].now + LINK_TTL >= now
  }

  /** No live link of the task has run out. */
  predicate NothingRunOut(db: Db, id: TaskId, now: int) {
    forall k :: k in db.links && db.links[k].taskId == id && db.links[k].status == Valid ==> db.links[k].expiresAt >= now
  }

  lemma StepKeepsFreshLinks(db: Db, op: Op, id: TaskId, now: int)
    requires id in db.tasks && SentInTime([op], id, now) && (NothingRunOut(db, id, now) || Resent(db, op, id))
    ensures id in Apply(db, op).tasks && NothingRunOut(Apply(db, op), id, now)
  {
    assert [op][0] == op;
  }

  /** After a committed resend the task's live link is a new one, whatever follows. */
  lemma {:induction false} ResentLinkIsFresh(db: Db, ops: seq<Op>, id: TaskId, now: int)
    requires id in db.tasks && SentInTime(ops, id, now) && (NothingRunOut(db, id, now) || ResentIn(db, ops, id))
    ensures id in Run(db, ops).tasks && NothingRunOut(Run(db, ops), id, now)
    decreases |ops|
  {
    if ops != [] {
      assert SentInTime([ops[0]], id, now);
      assert SentInTime(ops[1..], id, now);
      if NothingRunOut(db, id, now) || Resent(db, ops[0], id) {
        StepKeepsFreshLinks(db, ops[0], id, now);
      } else {
        TaskStays(db, ops[0], id);
      }
      ResentLinkIsFresh(Apply(db, ops[0]), ops[1..], id, now);
    }
  }

  lemma TaskStays(db: Db, op: Op, id: TaskId)
    requires id in db.tasks
    ensures id in Apply(db, op).tasks
  {
  }

  /** Without a committed resend a task that has left pending does not come back. */
  lemma {:induction false} PendingIsLeftForGood(db: Db, ops: seq<Op>, id: TaskId)
    requires id in db.tasks && db.tasks[id].status != Pending && !ResentIn(db, ops, id)
    ensures !HasStatus(Run(db, ops), id, {Pending})
    decreases |ops|
  {
    if ops != [] {
      PendingIsNotRegained(db, ops[0], id);
      PendingIsLeftForGood(Apply(db, ops[0]), ops[1..], id);
    }
  }

  lemma PendingIsNotRegained(db: Db, op: Op, id: TaskId)
    requires id in db.tasks && db.tasks[id].status != Pending && !Resent(db, op, id)
    ensures id in Apply(db, op).tasks && Apply(db, op).tasks[id].status != Pending
  {
  }

  lemma PendingLinkStays(db: Db, op: Op, id: TaskId, token: Token)
    requires HasStatus(db, id, {Pending}) && token in db.links && db.links[token].taskId == id && db.links[token].status == Valid
    requires !Resent(db, op, id) && HasStatus(Apply(db, op), id, {Pending})
    ensures token in Apply(db, op).links && Apply(db, op).links[token] == db.links[token]
  {
  }

  lemma {:induction false} UnsentStaysOverdue(db: Db, ops: seq<Op>, id: TaskId, now: int)
    requires id in Overdue(db, now) && HasStatus(Run(db, ops), id, {Pending}) && !ResentIn(db, ops, id)
    ensures id in Overdue(Run(db, ops), now)
    decreases |ops|
  {
    if ops != [] {
      var next := Apply(db, ops[0]);
      TaskStays(db, ops[0], id);
      if next.tasks[id].status != Pending {
        PendingIsLeftForGood(next, ops[1..], id);
      } else {
        var k :| k in db.links && db.links[k].taskId == id && db.links[k].status == Valid && db.links[k].expiresAt < now;
        PendingLinkStays(db, ops[0], id, k);
        UnsentStaysOverdue(next, ops[1..], id, now);
      }
    }
  }

  /** The scan re-checks only the status: a candidate still pending at its turn is still overdue exactly
      when no resend of it was committed since the candidates were picked. */
  lemma ExpiryIsJustifiedIff(db: Db, ops: seq<Op>, id: TaskId, now: int)
    requires id in Overdue(db, now) && SentInTime(ops, id, now) && HasStatus(Run(db, ops), id, {Pending})
    ensures id in Overdue(Run(db, ops), now) <==> !ResentIn(db, ops, id)
  {
    if ResentIn(db, ops, id) {
      ResentLinkIsFresh(db, ops, id, now);
    } else {
      UnsentStaysOverdue(db, ops, id, now);
    }
  }

  /** If one was, the scan expires the task and kills a link that has not run out. */
  lemma ScanUndoesResend(db: Db, ops: seq<Op>, id: TaskId, now: int) returns (token: Token)
    requires Sound(db) && GoodOps(ops) && id in Overdue(db, now) && SentInTime(ops, id, now)
    requires HasStatus(Run(db, ops), id, {Pending}) && ResentIn(db, ops, id)
    ensures var mid := Run(db, ops);
            var after := Apply(mid, Expire(id));
            && LinksOf(mid, id, Valid) == {token} && mid.links[token].expiresAt >= now
            && HasStatus(after, id, {Expired}) && LinksOf(after, id, Valid) == {}
  {
    var mid := Run(db, ops);
    EveryRunIsSound(db, ops);
    assert LifeInvariant(ViewOf(mid, id));
    token :| LinksOf(mid, id, Valid) == {token};
    assert token in LinksOf(mid, id, Valid);
    ResentLinkIsFresh(db, ops, id, now);
    RetiredLinks(mid, id, Apply(mid, Expire(id)).tasks);
  }
}
