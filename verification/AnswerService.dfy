/** The answer service as the source runs it: single statements on the shared tables, with the others in
    between. */
module AnswerService {
  import opened Base
  import opened TestTasks
  import opened Answers
  import TaskRepository

  class Service {
    const repo: TaskRepository.Repository
    var answers: seq<AnswerRow>
    /** The calls of others, each with what it has read. */
    var calls: map<TaskId, Call>

    ghost function Now(): World
      reads this, repo
    {
      World(repo.Tables(), answers, calls)
    }

    constructor (repo: TaskRepository.Repository)
      ensures this.repo == repo && Now() == World(repo.Tables(), [], map[])
    {
      this.repo := repo;
      answers, calls := [], map[];
    }

    /** The others' steps, run on the same tables. */
    method Interfere(steps: seq<Step>)
      modifies this, repo
      ensures Now() == Play(old(Now()), steps)
    {
      for i := 0 to |steps|
        invariant Play(Now(), steps[i..]) == Play(old(Now()), steps)
      {
        var after := Advance(World(Db(repo.tasks, repo.links, repo.queue, repo.references), answers, calls), steps[i]);
        assert steps[i..][1..] == steps[i + 1..];
        repo.tasks, repo.links, repo.queue, repo.references := after.db.tasks, after.db.links, after.db.queue, after.db.references;
        answers, calls := after.answers, after.calls;
      }
    }

    /** Read the link, let the others go on, read the task, and check. */
    method ValidateToken(token: Token, now: int, allowCompleted: bool, beforeTask: seq<Step>)
      returns (id: Option<TaskId>, task: Option<Task>)
      modifies this, repo
      ensures Now() == Play(old(Now()), beforeTask)
      ensures id == AcceptedTask(old(Now()), token, now, allowCompleted, Gaps(beforeTask, [], [], []))
      ensures id.Some? ==> id.value in repo.tasks && task == Some(repo.tasks[id.value])
      ensures id.Some? ==> token in old(repo.links) && id.value == old(repo.links)[token].taskId
    {
      if token == "" {
        Interfere(beforeTask);
        return None, None;
      }
      if token !in repo.links || repo.links[token].status == Invalid {
        Interfere(beforeTask);
        return None, None;
      }
      var link := repo.links[token];
      Interfere(beforeTask);
      if link.taskId !in repo.tasks {
        return None, None;
      }
      var row := repo.tasks[link.taskId];
      if link.expiresAt < now && row.status != InProgress {
        return None, None;
      }
      match row.status {
        case Pending => return Some(link.taskId), Some(row);
        case InProgress => return Some(link.taskId), Some(row);
        case Completed =>
          if allowCompleted && link.status == Used {
            return Some(link.taskId), Some(row);
          }
        case Expired =>
        case Canceled =>
      }
      return None, None;
    }

    /** Start the session, then list the snapshotted questions and the stored replies. */
    method Context(token: Token, texts: Texts, now: int, g: Gaps) returns (result: ContextResult)
      modifies this, repo
      ensures Now() == ContextLeaves(old(Now()), token, now, g)
      ensures result == ContextAnswer(old(Now()), token, texts, now, g)
    {
      var valid, read := ValidateToken(token, now, false, g.beforeTask);
      Interfere(g.beforeRead);
      if valid.None? {
        Interfere(g.beforeWrite);
        Interfere(g.afterWrite);
        return ContextRefused;
      }
      var id, task := valid.value, read.value;
      var started := StartSession(id, g.beforeWrite);
      Interfere(g.afterWrite);
      if !started {
        return ContextFailed;
      }
      var items := LoadQuestionItems(texts, task.testType, task.questionIds);
      if items.None? {
        return ContextFailed;
      }
      var rows := BySeqNo(RowsOf(answers, id));
      return Opened(|task.questionIds|, |rows|, |rows| >= |task.questionIds|, items.value, ReplyPairs(rows));
    }

    /** Read the status, then the guarded update: it moves a pending task, an already open session is fine,
        anything else is an error. */
    method StartSession(id: TaskId, beforeWrite: seq<Step>) returns (started: bool)
      modifies this, repo
      ensures var at := Play(old(Now()), beforeWrite);
              Now() == if id in old(repo.tasks) then at.(db := Apply(at.db, Start(id))) else at
      ensures started == (id in old(repo.tasks) && Started(Play(old(Now()), beforeWrite).db, id, old(repo.tasks)[id].status))
    {
      if id !in repo.tasks {
        Interfere(beforeWrite);
        return false;
      }
      var status := repo.tasks[id].status;
      Interfere(beforeWrite);
      var affected := repo.MarkSessionStarted(id);
      started := !(affected == 0 && status != InProgress);
    }

    /** Everything that can fail is done before the one insert. */
    method Reply(token: Token, texts: Texts, content: string, now: int, g: Gaps) returns (result: ReplyResult)
      modifies this, repo
      ensures Now() == ReplyLeaves(old(Now()), token, texts, content, now, g)
      ensures result == ReplyAnswer(old(Now()), token, texts, content, now, g)
    {
      var valid, read := ValidateToken(token, now, false, g.beforeTask);
      Interfere(g.beforeRead);
      if valid.None? {
        Interfere(g.beforeWrite);
        return TokenRefused;
      }
      var id, task := valid.value, read.value;
      var total := |task.questionIds|;
      var answered := |RowsOf(answers, id)|;
      Interfere(g.beforeWrite);
      var seqNo := answered + 1;
      if seqNo > total {
        return ReplyRefused;
      }
      var trimmed := Trim(content);
      if !ValidContent(task.testType, trimmed) {
        return ReplyRefused;
      }
      result := Finished(seqNo);
      if answered + 1 < total {
        var items := LoadQuestionItems(texts, task.testType, [task.questionIds[answered + 1]]);
        if items.None? {
          return ReplyFailed;
        }
        result := Next(seqNo, items.value[0].(seqNo := answered + 2));
      }
      answers := answers + [AnswerRow(id, seqNo, trimmed)];
    }

    /** Repeat of a completed submit, completeness gate, then the completion transaction. */
    method Submit(token: Token, now: int, enqueueOk: bool, g: Gaps) returns (result: SubmitResult)
      modifies this, repo
      ensures Now() == SubmitLeaves(old(Now()), token, now, enqueueOk, g)
      ensures result == SubmitAnswer(old(Now()), token, now, enqueueOk, g)
    {
      var valid, read := ValidateToken(token, now, true, g.beforeTask);
      Interfere(g.beforeRead);
      if valid.None? {
        Interfere(g.beforeWrite);
        Interfere(g.afterWrite);
        return SubmitRefused;
      }
      var id, task := valid.value, read.value;
      var count := |RowsOf(answers, id)|;
      Interfere(g.beforeWrite);
      if task.status == Completed {
        Interfere(g.afterWrite);
        return Submitted(task.no);
      }
      if count < |task.questionIds| {
        Interfere(g.afterWrite);
        return Incomplete;
      }
      var outcome := repo.CompleteTask(id, now, enqueueOk);
      Interfere(g.afterWrite);
      match outcome {
        case Done => return Submitted(task.no);
        case Failed => return SubmitFailed;
        case NotSubmittable =>
          if id in repo.tasks && repo.tasks[id].status == Completed {
            return Submitted(task.no);
          }
          return SubmitRefused;
      }
    }
  }

  /** The expiry scan and the token check agree: a task with a live token is a candidate exactly when the
      check, at that time, would refuse the token. A session in progress therefore never is. */
  lemma CandidateIffRefused(db: Db, id: TaskId, token: Token, now: int)
    requires Sound(db) && token in LinksOf(db, id, Valid) && token != ""
    ensures id in TaskRepository.Overdue(db, now) <==> Validate(db, token, now, false) == None
    ensures HasStatus(db, id, {InProgress}) ==> id !in TaskRepository.Overdue(db, now)
  {
    AcceptedTokens(db, token, now, false, id);
    assert LifeInvariant(ViewOf(db, id));
    forall k | k in db.links && db.links[k].taskId == id && db.links[k].status == Valid ensures k == token {
      assert k in LinksOf(db, id, Valid);
    }
  }

  /** Read the questions by id, then list them in snapshot order; one missing id fails the load. */
  method LoadQuestionItems(texts: Texts, testType: TestType, ids: seq<nat>) returns (items: Option<seq<Item>>)
    ensures items == Items(texts, testType, ids)
    ensures items.None? <==> exists i :: 0 <= i < |ids| && ids[i] !in texts.questions
    ensures items.Some? ==> |items.value| == |ids|
    ensures items.Some? ==> forall i :: 0 <= i < |ids| ==>
              items.value[i].seqNo == i + 1 && Shows(items.value[i], texts, testType, ids[i])
  {
    var names := if testType == AiMgmt then texts.dimensionNames else map[];
    var byId := map id | id in ids && id in texts.questions :: texts.questions[id];
    var list: seq<Item> := [];
    for i := 0 to |ids|
      invariant |list| == i
      invariant forall k :: 0 <= k < i ==> ids[k] in texts.questions && list[k] == ItemAt(texts, testType, ids, k)
    {
      if ids[i] !in byId {
        return None;
      }
      var q := byId[ids[i]];
      var name := if q.dimensionId in names then names[q.dimensionId] else "";
      list := list + [Item(i + 1, name, q.scenario, q.requirement)];
    }
    items := Some(list);
    assert list == seq(|ids|, i requires 0 <= i < |ids| && ids[i] in texts.questions => ItemAt(texts, testType, ids, i));
  }
}
