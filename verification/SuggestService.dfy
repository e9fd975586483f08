/** The suggestion service and its row repository as the source runs them: single statements on the shared
    tables, with the others in between. */
module SuggestService {
  import opened Base
  import opened Suggestions
  import DashboardQuery

  /** How the body of a generate job ends: no material at all, a result, or an error the queue retries. */
  datatype Outcome = Anomaly | Produced(content: string) | Error

  const REASON_MAX := 255

  /** A reason cut to the width of its column. */
  function Shortened(reason: string): (kept: string)
    ensures kept <= reason && |kept| == if |reason| < REASON_MAX then |reason| else REASON_MAX
  {
    if |reason| <= REASON_MAX then reason else reason[..REASON_MAX]
  }

  lemma {:induction false} RunInParts(s: State, first: seq<Step>, second: seq<Step>)
    ensures Run(s, first + second) == Run(Run(s, first), second)
    decreases |first|
  {
    if first == [] {
      assert first + second == second;
    } else {
      assert (first + second)[1..] == first[1..] + second;
      RunInParts(Advance(s, first[0]), first[1..], second);
    }
  }

  lemma RunOne(s: State, step: Step)
    ensures Run(s, [step]) == Advance(s, step)
  {
    assert [step][1..] == [];
  }

  // ---------------------------------------------------------------- one tick among others

  /** What the others do between the statements of a tick: before the batches are read, before the row is
      locked or the stuck row's batch looked up, before the queue is called, and before the touch. */
  datatype Gaps = Gaps(beforePick: seq<Step>, beforeWrite: seq<Step>, beforeEnqueue: seq<Step>, beforeTouch: seq<Step>)

  /** The row is locked in one instant of its statements, after the first `at` steps of the others. */
  function LockedState(s: State, b: Batch, now: int, gap: seq<Step>, at: nat): State
    requires at <= |gap|
  {
    var met := Run(s, gap[..at]);
    Run(met.(rows := EnsureGenerating(met.rows, b.period, b.no, now)), gap[at..])
  }

  /** A tick that read the rows in `s` and the batches in `read`, and picked `b`. */
  function PickLeaves(read: State, b: Batch, now: int, enqueueOk: bool, g: Gaps, at: nat): State
    requires at <= |g.beforeWrite|
  {
    var asked := Run(LockedState(read, b, now, g.beforeWrite, at), g.beforeEnqueue);
    if enqueueOk then asked.(jobs := asked.jobs + {b.no}) else asked
  }

  /** A tick that picked nothing and found the row of `p` stuck on batch `no`. */
  function RetryLeaves(read: State, p: Period, no: No, now: int, enqueueOk: bool, g: Gaps): State {
    var found := Run(read, g.beforeWrite);
    var asked := Run(found, g.beforeEnqueue);
    if ByNo(found.batches, no).None? then asked.(rows := Suggestions.MarkFailed(asked.rows, p, "batch missing", now))
    else if !enqueueOk then asked
    else
      var touched := Run(asked.(jobs := asked.jobs + {no}), g.beforeTouch);
      touched.(rows := Suggestions.TouchGenerating(touched.rows, p, now))
  }

  function TickLeaves(s: State, now: int, enqueueOk: bool, g: Gaps, at: nat): State
    requires at <= |g.beforeWrite|
  {
    var read := Run(s, g.beforePick);
    match AfterPick(read.batches, s.rows, now)
    case None => read
    case Some(next) =>
      if next.Picked? then PickLeaves(read, next.batch, now, enqueueOk, g, at)
      else RetryLeaves(read, OldestStuck(s.rows, now).value, s.rows[OldestStuck(s.rows, now).value].batchNo, now, enqueueOk, g)
  }

  predicate NotOf(steps: seq<Step>, t: nat) {
    forall i :: 0 <= i < |steps| && OfTick(steps[i]) ==> steps[i].tick != t
  }

  predicate Others(g: Gaps, t: nat) {
    NotOf(g.beforePick, t) && NotOf(g.beforeWrite, t) && NotOf(g.beforeEnqueue, t) && NotOf(g.beforeTouch, t)
  }

  function Hold(s: State, t: nat, tick: Option<Tick>): State {
    match tick
    case None => s
    case Some(k) => s.(ticks := s.ticks[t := k])
  }

  lemma TicksApart(m: map<nat, Tick>, t: nat, k: Tick, u: nat, next: Option<Tick>)
    requires u != t && t !in m
    ensures Goes(m[t := k], u, next) == Goes(m, u, next)[t := k]
  {
  }

  /** A tick under way is invisible to the others. */
  lemma StepCommutes(s: State, step: Step, t: nat, k: Tick)
    requires t !in s.ticks && (OfTick(step) ==> step.tick != t)
    ensures t !in Advance(s, step).ticks && Advance(Hold(s, t, Some(k)), step) == Hold(Advance(s, step), t, Some(k))
  {
    if OfTick(step) {
      if step.ReadRows? {
        TicksApart(s.ticks, t, k, step.tick, Some(RowsRead(s.rows)));
      } else if step.tick in s.ticks {
        TicksApart(s.ticks, t, k, step.tick, Moves(s, s.ticks[step.tick], step).0);
      }
    }
  }

  lemma {:induction false} OthersCommute(s: State, steps: seq<Step>, t: nat, tick: Option<Tick>)
    requires t !in s.ticks && NotOf(steps, t)
    ensures t !in Run(s, steps).ticks && Run(Hold(s, t, tick), steps) == Hold(Run(s, steps), t, tick)
    decreases |steps|
  {
    if steps != [] {
      assert steps[0] == steps[0..1][0];
      StepCommutes(s, steps[0], t, if tick.Some? then tick.value else Missing(Period(0, 0)));
      OthersCommute(Advance(s, steps[0]), steps[1..], t, tick);
    }
  }

  /** One own statement, then the others. */
  lemma OwnStep(s: State, t: nat, tick: Option<Tick>, step: Step, after: State, next: Option<Tick>, steps: seq<Step>)
    requires Advance(Hold(s, t, tick), step) == Hold(after, t, next) && t !in after.ticks && NotOf(steps, t)
    ensures t !in Run(after, steps).ticks
    ensures Run(Hold(s, t, tick), [step] + steps) == Hold(Run(after, steps), t, next)
  {
    assert ([step] + steps)[1..] == steps;
    OthersCommute(after, steps, t, next);
  }

  /** A tick's own statement, spelled out. */
  lemma OwnMove(s: State, t: nat, k: Tick, step: Step)
    requires t !in s.ticks && OfTick(step) && !step.ReadRows? && step.tick == t
    ensures var (next, rows, jobs) := Moves(s, k, step);
            Advance(Hold(s, t, Some(k)), step) == Hold(State(s.batches, rows, s.ticks, jobs), t, next)
  {
    var v := Hold(s, t, Some(k));
    assert Moves(v, k, step) == Moves(s, k, step);
    assert s.ticks[t := k] - {t} == s.ticks;
    assert forall x {:trigger s.ticks[t := x]} :: s.ticks[t := k][t := x] == s.ticks[t := x];
  }

  /** The statements of a tick, whichever way it goes, with the others in between. */
  function ReadScript(t: nat, now: int, g: Gaps): seq<Step> {
    ([ReadRows(t)] + g.beforePick) + [Pick(t, now)]
  }

  /** From the pick on. */
  function LockScript(t: nat, now: int, enqueueOk: bool, g: Gaps, at: nat): seq<Step>
    requires at <= |g.beforeWrite|
  {
    g.beforeWrite[..at] + (([Ensure(t, now)] + (g.beforeWrite[at..] + g.beforeEnqueue)) + [Enqueue(t, enqueueOk)])
  }

  function RetryScript(t: nat, now: int, enqueueOk: bool, g: Gaps): seq<Step> {
    g.beforeWrite + (([LookUp(t)] + g.beforeEnqueue) + (([Enqueue(t, enqueueOk)] + g.beforeTouch) + [Touch(t, now)]))
  }

  lemma ReadIsRun(s: State, t: nat, now: int, g: Gaps)
    requires t !in s.ticks && Others(g, t)
    ensures t !in Run(s, g.beforePick).ticks
    ensures Run(s, ReadScript(t, now, g)) == Hold(Run(s, g.beforePick), t, AfterPick(Run(s, g.beforePick).batches, s.rows, now))
  {
    var read := Run(s, g.beforePick);
    OwnStep(s, t, None, ReadRows(t), s, Some(RowsRead(s.rows)), g.beforePick);
    OwnMove(read, t, RowsRead(s.rows), Pick(t, now));
    RunInParts(s, [ReadRows(t)] + g.beforePick, [Pick(t, now)]);
    RunOne(Hold(read, t, Some(RowsRead(s.rows))), Pick(t, now));
  }

  /** A tick that picks is a run of the protocol. */
  lemma PickIsRun(s: State, t: nat, now: int, enqueueOk: bool, g: Gaps, at: nat, b: Batch)
    requires t !in s.ticks && Others(g, t) && at <= |g.beforeWrite|
    requires AfterPick(Run(s, g.beforePick).batches, s.rows, now) == Some(Picked(b))
    ensures Run(s, ReadScript(t, now, g) + LockScript(t, now, enqueueOk, g, at)) == TickLeaves(s, now, enqueueOk, g, at)
  {
    ReadIsRun(s, t, now, g);
    RunInParts(s, ReadScript(t, now, g), LockScript(t, now, enqueueOk, g, at));
    LockIsRun(Run(s, g.beforePick), t, now, enqueueOk, g, at, b);
  }

  /** So is one that finds nothing to do. */
  lemma IdleIsRun(s: State, t: nat, now: int, enqueueOk: bool, g: Gaps, at: nat)
    requires t !in s.ticks && Others(g, t) && at <= |g.beforeWrite|
    requires AfterPick(Run(s, g.beforePick).batches, s.rows, now) == None
    ensures Run(s, ReadScript(t, now, g)) == TickLeaves(s, now, enqueueOk, g, at)
  {
    ReadIsRun(s, t, now, g);
  }

  lemma LockIsRun(read: State, t: nat, now: int, enqueueOk: bool, g: Gaps, at: nat, b: Batch)
    requires t !in read.ticks && Others(g, t) && at <= |g.beforeWrite|
    ensures Run(Hold(read, t, Some(Picked(b))), LockScript(t, now, enqueueOk, g, at)) == PickLeaves(read, b, now, enqueueOk, g, at)
  {
    var met := Run(read, g.beforeWrite[..at]);
    var later := g.beforeWrite[at..] + g.beforeEnqueue;
    OthersCommute(read, g.beforeWrite[..at], t, Some(Picked(b)));
    EnsureIsRun(met, t, now, b, later);
    var locked := met.(rows := EnsureGenerating(met.rows, b.period, b.no, now));
    RunInParts(locked, g.beforeWrite[at..], g.beforeEnqueue);
    LastEnqueue(Run(locked, later), t, b.no, enqueueOk);
    RunInParts(Hold(met, t, Some(Picked(b))), [Ensure(t, now)] + later, [Enqueue(t, enqueueOk)]);
    RunInParts(Hold(read, t, Some(Picked(b))), g.beforeWrite[..at], ([Ensure(t, now)] + later) + [Enqueue(t, enqueueOk)]);
  }

  lemma EnsureIsRun(met: State, t: nat, now: int, b: Batch, later: seq<Step>)
    requires t !in met.ticks && NotOf(later, t)
    ensures var locked := met.(rows := EnsureGenerating(met.rows, b.period, b.no, now));
            t !in Run(locked, later).ticks
            && Run(Hold(met, t, Some(Picked(b))), [Ensure(t, now)] + later) == Hold(Run(locked, later), t, Some(Locked(b.no)))
  {
    OwnMove(met, t, Picked(b), Ensure(t, now));
    OwnStep(met, t, Some(Picked(b)), Ensure(t, now), met.(rows := EnsureGenerating(met.rows, b.period, b.no, now)), Some(Locked(b.no)), later);
  }

  lemma LastEnqueue(s: State, t: nat, no: No, ok: bool)
    requires t !in s.ticks
    ensures Run(Hold(s, t, Some(Locked(no))), [Enqueue(t, ok)]) == if ok then s.(jobs := s.jobs + {no}) else s
  {
    RunOne(Hold(s, t, Some(Locked(no))), Enqueue(t, ok));
    OwnMove(s, t, Locked(no), Enqueue(t, ok));
  }

  /** So is one that hands a stuck row to the queue again, in a sound world. */
  lemma RetryIsRun(s: State, t: nat, now: int, enqueueOk: bool, g: Gaps, p: Period)
    requires Sound(s) && t !in s.ticks && Others(g, t) && (!enqueueOk ==> g.beforeTouch == [])
    requires p in s.rows && AfterPick(Run(s, g.beforePick).batches, s.rows, now) == Some(StuckFound(p, s.rows[p].batchNo))
    ensures Run(s, ReadScript(t, now, g) + RetryScript(t, now, enqueueOk, g)) == RetryLeaves(Run(s, g.beforePick), p, s.rows[p].batchNo, now, enqueueOk, g)
  {
    var no, read := s.rows[p].batchNo, Run(s, g.beforePick);
    var found := Run(read, g.beforeWrite);
    var rest := ([LookUp(t)] + g.beforeEnqueue) + (([Enqueue(t, enqueueOk)] + g.beforeTouch) + [Touch(t, now)]);
    ReadIsRun(s, t, now, g);
    OthersCommute(read, g.beforeWrite, t, Some(StuckFound(p, no)));
    StuckBatchIsFound(s, g, p);
    LookUpIsRun(found, t, now, enqueueOk, g, p, no);
    RunInParts(Hold(read, t, Some(StuckFound(p, no))), g.beforeWrite, rest);
    RunInParts(s, ReadScript(t, now, g), RetryScript(t, now, enqueueOk, g));
  }

  /** From the lookup on, the batch being there. */
  lemma LookUpIsRun(found: State, t: nat, now: int, enqueueOk: bool, g: Gaps, p: Period, no: No)
    requires t !in found.ticks && Others(g, t) && ByNo(found.batches, no).Some? && (!enqueueOk ==> g.beforeTouch == [])
    ensures var asked := Run(found, g.beforeEnqueue);
            var sent := Run(asked.(jobs := asked.jobs + {no}), g.beforeTouch);
            Run(Hold(found, t, Some(StuckFound(p, no))), ([LookUp(t)] + g.beforeEnqueue) + (([Enqueue(t, enqueueOk)] + g.beforeTouch) + [Touch(t, now)]))
            == (if enqueueOk then sent.(rows := Suggestions.TouchGenerating(sent.rows, p, now)) else asked)
  {
    var asked := Run(found, g.beforeEnqueue);
    var after := if enqueueOk then asked.(jobs := asked.jobs + {no}) else asked;
    var next := if enqueueOk then Some(Requeued(p)) else None;
    OwnMove(found, t, StuckFound(p, no), LookUp(t));
    OwnStep(found, t, Some(StuckFound(p, no)), LookUp(t), found, Some(LookedUp(p, no)), g.beforeEnqueue);
    OwnMove(asked, t, LookedUp(p, no), Enqueue(t, enqueueOk));
    OwnStep(asked, t, Some(LookedUp(p, no)), Enqueue(t, enqueueOk), after, next, g.beforeTouch);
    LastTouch(Run(after, g.beforeTouch), t, p, now, enqueueOk);
    RunInParts(Hold(asked, t, Some(LookedUp(p, no))), [Enqueue(t, enqueueOk)] + g.beforeTouch, [Touch(t, now)]);
    RunInParts(Hold(found, t, Some(StuckFound(p, no))), [LookUp(t)] + g.beforeEnqueue, ([Enqueue(t, enqueueOk)] + g.beforeTouch) + [Touch(t, now)]);
  }

  lemma LastTouch(s: State, t: nat, p: Period, now: int, requeued: bool)
    requires t !in s.ticks
    ensures Run(Hold(s, t, if requeued then Some(Requeued(p)) else None), [Touch(t, now)])
         == if requeued then s.(rows := Suggestions.TouchGenerating(s.rows, p, now)) else s
  {
    RunOne(Hold(s, t, if requeued then Some(Requeued(p)) else None), Touch(t, now));
    if requeued { OwnMove(s, t, Requeued(p), Touch(t, now)); }
  }

  /** The batch of a row read long ago is still there when it is looked up. */
  lemma StuckBatchIsFound(s: State, g: Gaps, p: Period)
    requires Sound(s) && p in s.rows
    ensures ByNo(Run(Run(s, g.beforePick), g.beforeWrite).batches, s.rows[p].batchNo).Some?
  {
    var no, read := s.rows[p].batchNo, Run(s, g.beforePick);
    EveryRunIsSound(s, g.beforePick);
    EveryRunIsSound(read, g.beforeWrite);
    assert SettledIn(s.batches, no, p);
    ReadyKeepsSettled(s.batches, read.batches, no, p);
    ReadyKeepsSettled(read.batches, Run(read, g.beforeWrite).batches, no, p);
    IsSettled(Run(read, g.beforeWrite).batches, no, p);
    SettledByNo(Run(read, g.beforeWrite).batches, no);
  }

  const NOBODY := Gaps([], [], [], [])

  /** A tick with nobody in between, in full: the earliest waiting batch gets its period's row and a job; with
      none waiting, the oldest row left generating for over twenty minutes gets a job for its batch again and
      a new start; otherwise nothing happens. A full queue only costs the job. */
  lemma TickAlone(s: State, now: int, enqueueOk: bool)
    requires Sound(s)
    ensures var after := TickLeaves(s, now, enqueueOk, NOBODY, 0);
            var sent := (no: No) => if enqueueOk then s.jobs + {no} else s.jobs;
            && after.batches == s.batches && after.ticks == s.ticks
            && match EarliestPending(s.batches, s.rows) {
                 case Some(b) =>
                   && b.period in after.rows && OthersSame(s.rows, after.rows, b.period) && after.jobs == sent(b.no)
                   && after.rows[b.period].status == Generating && after.rows[b.period].batchNo == b.no
                   && after.rows[b.period].content == "" && after.rows[b.period].error == "" && after.rows[b.period].updatedAt == now
                 case None =>
                   match OldestStuck(s.rows, now) {
                     case None =>
                       && after == s
                       && forall p :: p in s.rows && s.rows[p].status == Generating ==> s.rows[p].updatedAt >= now - 1200
                     case Some(p) =>
                       && p in s.rows && s.rows[p].status == Generating && s.rows[p].updatedAt < now - 1200
                       && after.jobs == sent(s.rows[p].batchNo)
                       && after.rows == if enqueueOk then s.rows[p := s.rows[p].(updatedAt := now)] else s.rows
                   }
               }
  {
    match EarliestPending(s.batches, s.rows) {
      case Some(b) => PickMeaning(s.batches, s.rows, b);
      case None =>
        if OldestStuck(s.rows, now).Some? {
          StuckBatchIsFound(s, NOBODY, OldestStuck(s.rows, now).value);
        } else {
          forall p | p in s.rows ensures !Stuck(s.rows, p, now) { assert p !in StuckRows(s.rows, now); }
        }
    }
  }

  /** In a world where the batch of a stuck row could be gone, the row would be failed and nothing enqueued. */
  lemma MissingBatchFailsRow(read: State, p: Period, no: No, now: int, enqueueOk: bool, g: Gaps)
    requires ByNo(Run(read, g.beforeWrite).batches, no) == None
    ensures var asked := Run(Run(read, g.beforeWrite), g.beforeEnqueue);
            var after := RetryLeaves(read, p, no, now, enqueueOk, g);
            && after.jobs == asked.jobs && after.batches == asked.batches && OthersSame(asked.rows, after.rows, p)
            && (p in asked.rows && asked.rows[p].status == Generating ==>
                  after.rows[p].status == SuggestionStatus.Failed && after.rows[p].error == "batch missing" && after.rows[p].updatedAt == now)
  {
  }

  class Service {
    var batches: seq<Batch>
    var rows: Rows
    var jobs: set<No>
    /** The ticks of others, each with what it has read. */
    var ticks: map<nat, Tick>

    function Model(): State
      reads this
    {
      State(batches, rows, ticks, jobs)
    }

    constructor ()
      ensures Model() == INIT
    {
      batches, rows, jobs, ticks := [], map[], {}, map[];
    }

    /** All rows, newest period first. */
    method FindAll() returns (list: seq<(Period, Suggestion)>)
      ensures DashboardQuery.ListsRows(rows, list)
      ensures forall i, j :: 0 <= i < j < |list| ==> Newer(list[i].0, list[j].0)
    {
      var keys := DashboardQuery.Enumerate(rows.Keys);
      var periods := DashboardQuery.ListPeriods([keys]);
      assert forall p :: p in periods <==> p in rows by {
        assert [keys][0] == keys;
      }
      list := [];
      for i := 0 to |periods|
        invariant |list| == i
        invariant forall j :: 0 <= j < i ==> periods[j] in rows && list[j] == (periods[j], rows[periods[j]])
      {
        assert periods[i] in periods;
        list := list + [(periods[i], rows[periods[i]])];
      }
      forall p | p in rows ensures (p, rows[p]) in list {
        var i :| 0 <= i < |periods| && periods[i] == p;
        assert list[i] == (p, rows[p]);
      }
    }

    /** Find, create, find again if another writer created it first, then reset under a status guard. The
        others act between the find and the creation and before the reset; whichever way it goes, the call
        acts in one instant, after `at` of their steps. */
    method EnsureGenerating(p: Period, no: No, now: int, beforeCreate: seq<Step>, beforeReset: seq<Step>)
      returns (won: bool, ghost at: nat)
      modifies this
      ensures at <= |beforeCreate + beforeReset|
      ensures var gap := beforeCreate + beforeReset;
              var met := Run(old(Model()), gap[..at]);
              Model() == Run(met.(rows := Suggestions.EnsureGenerating(met.rows, p, no, now)), gap[at..])
              && won == (p !in met.rows || met.rows[p].status != Generating)
    {
      ghost var start, gap := Model(), beforeCreate + beforeReset;
      GapParts(start, beforeCreate, beforeReset);
      if p in rows { RowsStay(start, gap, p); }
      if p !in rows {
        Interfere(beforeCreate);
        if p !in rows {
          rows := rows[p := Suggestion(no, Generating, "", "", now)];
          Interfere(beforeReset);
          return true, |beforeCreate|;
        }
        if rows[p].status == Generating {
          ghost var met := Model();
          SameRows(met, p, no, now);
          Interfere(beforeReset);
          return false, |beforeCreate|;
        }
        RowsStay(Model(), beforeReset, p);
      } else if rows[p].status == Generating {
        SameRows(start, p, no, now);
        Interfere(beforeCreate);
        Interfere(beforeReset);
        return false, 0;
      } else {
        Interfere(beforeCreate);
      }
      Interfere(beforeReset);
      at := |gap|;
      ghost var met := Model();
      RunNothing(met.(rows := Suggestions.EnsureGenerating(met.rows, p, no, now)), gap[at..]);
      if p in rows && (rows[p].status == Generated || rows[p].status == Failed) {
        rows := rows[p := rows[p].(status := Generating, batchNo := no, content := "", error := "", updatedAt := now)];
        return true, at;
      }
      won := false;
    }

    method MarkGenerated(p: Period, no: No, content: string, now: int)
      modifies this`rows
      ensures rows == Suggestions.MarkGenerated(old(rows), p, no, content, now)
    {
      if p in rows && rows[p].status == Generating {
        rows := rows[p := rows[p].(status := Generated, batchNo := no, content := content, error := "", updatedAt := now)];
      }
    }

    method MarkFailed(p: Period, reason: string, now: int)
      modifies this`rows
      ensures rows == Suggestions.MarkFailed(old(rows), p, reason, now)
    {
      if p in rows && rows[p].status == Generating {
        rows := rows[p := rows[p].(status := Failed, error := reason, updatedAt := now)];
      }
    }

    method TouchGenerating(p: Period, now: int)
      modifies this`rows
      ensures rows == Suggestions.TouchGenerating(old(rows), p, now)
    {
      if p in rows && rows[p].status == Generating {
        rows := rows[p := rows[p].(updatedAt := now)];
      }
    }

    /** One tick: the earliest waiting batch is locked and enqueued; with none waiting, the oldest stuck
        period's job is enqueued again and its row touched. The others act between any two statements. */
    method TickScan(now: int, enqueueOk: bool, g: Gaps) returns (ok: bool, ghost at: nat)
      modifies this
      ensures at <= |g.beforeWrite| && Model() == TickLeaves(old(Model()), now, enqueueOk, g, at)
      ensures !ok ==> !enqueueOk
    {
      at := 0;
      ghost var seen := rows;
      var list := FindAll();
      Interfere(g.beforePick);
      var batch := DashboardQuery.FindEarliestPendingSuggestBatch(batches, list, seen);
      if batch == None {
        ok := RetryStuckGenerating(list, seen, now, enqueueOk, g);
        return;
      }
      var b := batch.value;
      ghost var read := Model();
      var _, when := EnsureGenerating(b.period, b.no, now, g.beforeWrite, []);
      at := when;
      assert g.beforeWrite + [] == g.beforeWrite;
      Interfere(g.beforeEnqueue);
      if !enqueueOk {
        return false, at;
      }
      jobs := jobs + {b.no};
      ok := true;
    }

    /** Over the rows read, from the oldest period: the first stuck one is handed to the queue again. */
    method RetryStuckGenerating(list: seq<(Period, Suggestion)>, ghost seen: Rows, now: int, enqueueOk: bool, g: Gaps) returns (ok: bool)
      requires DashboardQuery.ListsRows(seen, list)
      requires forall i, j :: 0 <= i < j < |list| ==> Newer(list[i].0, list[j].0)
      modifies this
      ensures Model() == match OldestStuck(seen, now) {
                case None => old(Model())
                case Some(p) => RetryLeaves(old(Model()), p, seen[p].batchNo, now, enqueueOk, g)
              }
      ensures !ok ==> !enqueueOk
    {
      var stuck := OldestStuckRow(list, seen, now);
      if stuck.None? {
        return true;
      }
      var (p, row) := stuck.value;
      Interfere(g.beforeWrite);
      var found := ByNo(batches, row.batchNo);
      Interfere(g.beforeEnqueue);
      if found == None {
        MarkFailed(p, "batch missing", now);
        return true;
      }
      if !enqueueOk {
        return false;
      }
      jobs := jobs + {row.batchNo};
      Interfere(g.beforeTouch);
      TouchGenerating(p, now);
      ok := true;
    }

    method OldestStuckRow(list: seq<(Period, Suggestion)>, ghost seen: Rows, now: int) returns (stuck: Option<(Period, Suggestion)>)
      requires DashboardQuery.ListsRows(seen, list)
      requires forall i, j :: 0 <= i < j < |list| ==> Newer(list[i].0, list[j].0)
      ensures match stuck
              case None => OldestStuck(seen, now) == None
              case Some((p, row)) => OldestStuck(seen, now) == Some(p) && row == seen[p]
    {
      var i := |list|;
      while i > 0
        invariant 0 <= i <= |list|
        invariant forall j :: i <= j < |list| ==> !Stuck(seen, list[j].0, now)
      {
        i := i - 1;
        var (p, row) := list[i];
        if row.status == Generating && row.updatedAt < now - STUCK_THRESHOLD {
          FoundOldest(seen, list, i, now);
          return Some(list[i]);
        }
      }
      NoneStuck(seen, list, now);
      stuck := None;
    }

    /** What other callers do in between. */
    method Interfere(steps: seq<Step>)
      modifies this
      ensures Model() == Run(old(Model()), steps)
    {
      for i := 0 to |steps|
        invariant Run(Model(), steps[i..]) == Run(old(Model()), steps)
      {
        assert steps[i..][1..] == steps[i + 1..];
        var next := Advance(Model(), steps[i]);
        batches, rows, ticks, jobs := next.batches, next.rows, next.ticks, next.jobs;
      }
    }

    /** A generate job: nothing to do unless the period's row is generating; the material is read and the
        engine runs while others act, and the result is written under the status guard. */
    method Generate(no: No, outcome: Outcome, now: int, gap: seq<Step>) returns (ok: bool)
      requires Sound(Model()) && no in jobs
      modifies this
      ensures Sound(Model())
      ensures var b := ByNo(old(batches), no);
              if b == None || b.value.period !in old(rows) || old(rows)[b.value.period].status != Generating
              then Model() == old(Model()) && ok
              else Model() == Run(old(Model()), gap + if outcome.Error? then []
                                                      else if outcome.Anomaly? then [Fail(no, "no material", now)]
                                                      else [Step.Generate(no, outcome.content, now)])
                   && ok == !outcome.Error?
    {
      var b := ByNo(batches, no);
      if b == None || b.value.period !in rows || rows[b.value.period].status != Generating {
        return true;
      }
      EveryRunIsSound(Model(), gap);
      JobScript(Model(), gap, no, b.value.period,
                if outcome.Produced? then Step.Generate(no, outcome.content, now) else Fail(no, "no material", now));
      Interfere(gap);
      if outcome.Error? {
        assert gap + [] == gap;
        return false;
      }
      WriteOutcome(no, b.value.period, outcome, now);
      ok := true;
    }

    method WriteOutcome(no: No, p: Period, outcome: Outcome, now: int)
      requires !outcome.Error? && no in jobs && ByNo(batches, no).Some? && ByNo(batches, no).value.period == p
      modifies this`rows
      ensures Model() == Advance(old(Model()), if outcome.Anomaly? then Fail(no, "no material", now) else Step.Generate(no, outcome.content, now))
    {
      if outcome.Anomaly? {
        WriteFailure(no, p, "no material", now);
      } else {
        MarkGenerated(p, no, outcome.content, now);
      }
    }

    /** The queue's last word on a job: the row is marked failed with the reason cut to its column, if it is
        still generating. */
    method MarkFailedIfExhausted(no: No, reason: string, now: int, gap: seq<Step>)
      requires Sound(Model()) && no in jobs
      modifies this
      ensures Sound(Model())
      ensures var b := ByNo(old(batches), no);
              if b == None || b.value.period !in old(rows) || old(rows)[b.value.period].status != Generating
              then Model() == old(Model())
              else Model() == Run(old(Model()), gap + [Fail(no, Shortened(reason), now)])
    {
      var b := ByNo(batches, no);
      if b == None || b.value.period !in rows || rows[b.value.period].status != Generating {
        return;
      }
      JobScript(Model(), gap, no, b.value.period, Fail(no, Shortened(reason), now));
      Interfere(gap);
      WriteFailure(no, b.value.period, Shortened(reason), now);
    }

    method WriteFailure(no: No, p: Period, reason: string, now: int)
      requires no in jobs && ByNo(batches, no).Some? && ByNo(batches, no).value.period == p
      modifies this`rows
      ensures Model() == Advance(old(Model()), Fail(no, reason, now))
    {
      MarkFailed(p, reason, now);
    }
  }

  lemma GapParts(s: State, first: seq<Step>, second: seq<Step>)
    ensures var gap := first + second;
            && gap[..|first|] == first && gap[|first|..] == second && gap[..0] == [] && gap[0..] == gap
            && gap[..|gap|] == gap && gap[|gap|..] == []
            && Run(s, gap) == Run(Run(s, first), second)
  {
    RunInParts(s, first, second);
  }

  /** Rows are never removed. */
  lemma {:induction false} RowsStay(s: State, steps: seq<Step>, p: Period)
    requires p in s.rows
    ensures p in Run(s, steps).rows
    decreases |steps|
  {
    if steps != [] { RowsStay(Advance(s, steps[0]), steps[1..], p); }
  }

  lemma RunNothing(s: State, steps: seq<Step>)
    requires steps == []
    ensures Run(s, steps) == s
  {
  }

  lemma SameRows(s: State, p: Period, no: No, now: int)
    requires p in s.rows && s.rows[p].status == Generating
    ensures s.(rows := Suggestions.EnsureGenerating(s.rows, p, no, now)) == s
  {
  }

  lemma FoundOldest(rows: Rows, list: seq<(Period, Suggestion)>, i: nat, now: int)
    requires DashboardQuery.ListsRows(rows, list) && i < |list| && Stuck(rows, list[i].0, now)
    requires forall i, j :: 0 <= i < j < |list| ==> Newer(list[i].0, list[j].0)
    requires forall j :: i < j < |list| ==> !Stuck(rows, list[j].0, now)
    ensures OldestStuck(rows, now) == Some(list[i].0)
  {
    forall q | q in StuckRows(rows, now) ensures q == list[i].0 || Newer(q, list[i].0) {
      var j :| 0 <= j < |list| && list[j] == (q, rows[q]);
    }
    assert list[i].0 in StuckRows(rows, now);
    assert IsOldest(StuckRows(rows, now), list[i].0);
  }

  lemma NoneStuck(rows: Rows, list: seq<(Period, Suggestion)>, now: int)
    requires DashboardQuery.ListsRows(rows, list) && forall j :: 0 <= j < |list| ==> !Stuck(rows, list[j].0, now)
    ensures OldestStuck(rows, now) == None
  {
    forall q ensures q !in StuckRows(rows, now) {
      if q in rows {
        var j :| 0 <= j < |list| && list[j] == (q, rows[q]);
      }
    }
  }

  /** A job once enqueued may be delivered again at any time. */
  lemma {:induction false} JobsStay(s: State, steps: seq<Step>, no: No)
    requires no in s.jobs
    ensures no in Run(s, steps).jobs
    decreases |steps|
  {
    if steps != [] { JobsStay(Advance(s, steps[0]), steps[1..], no); }
  }

  /** The batch of a job keeps its period, whatever happens in between. */
  lemma JobScript(s: State, gap: seq<Step>, no: No, p: Period, write: Step)
    requires Sound(s) && no in s.jobs && ByNo(s.batches, no).Some? && ByNo(s.batches, no).value.period == p
    requires (write.Generate? || write.Fail?) && write.no == no
    ensures Run(s, gap + [write]) == Advance(Run(s, gap), write)
    ensures no in Run(s, gap).jobs && ByNo(Run(s, gap).batches, no) == ByNo(s.batches, no)
    ensures Sound(Run(s, gap + [write]))
  {
    RunInParts(s, gap, [write]);
    RunOne(Run(s, gap), write);
    JobsStay(s, gap, no);
    EveryRunIsSound(s, gap);
    EveryRunIsSound(s, gap + [write]);
    SettledByNo(s.batches, no);
    ByNoFinds(Run(s, gap).batches, ByNo(s.batches, no).value);
  }
}
