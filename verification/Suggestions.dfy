/** Picking finished assessment batches for training suggestions.

    A suggestion row per period is both the result and the lock: while it is generating, nothing in its
    period is picked. Ticks, generate jobs and batch changes interleave; the jobs may be delivered more
    than once and late. */
module Suggestions {
  import opened Base

  type No = string
  datatype Period = Period(start: int, end: int)
  datatype Trigger = Scheduled | Manual
  datatype BatchStatus = Running | Succeeded | PartialFailed | Broken
  datatype Batch = Batch(no: No, period: Period, trigger: Trigger, status: BatchStatus, triggeredAt: int)

  datatype SuggestionStatus = Generating | Generated | Failed
  /** `content` stands for the generated columns. */
  datatype Suggestion = Suggestion(batchNo: No, status: SuggestionStatus, content: string, error: string, updatedAt: int)
  type Rows = map<Period, Suggestion>

  /** Twenty minutes, in seconds. */
  const STUCK_THRESHOLD := 20 * 60

  // ---------------------------------------------------------------- the pick

  predicate Ready(b: Batch) {
    b.trigger == Scheduled && b.status != Running
  }

  /** The finished scheduled batches, in the table's order, which is by trigger time. */
  function Listing(batches: seq<Batch>): seq<Batch>
    decreases |batches|
  {
    if batches == [] then []
    else
      var b := batches[|batches| - 1];
      Listing(batches[..|batches| - 1]) + if Ready(b) then [b] else []
  }

  /** The batch a row belongs to, found by its number among the listed batches of the period. */
  function Owner(listing: seq<Batch>, p: Period, no: No): Option<Batch>
    decreases |listing|
  {
    if listing == [] then None
    else if listing[0].period == p && listing[0].no == no then Some(listing[0])
    else Owner(listing[1..], p, no)
  }

  /** A period without a row takes any finished batch; a finished row only a newer successful one. */
  predicate Pending(b: Batch, listing: seq<Batch>, rows: Rows) {
    if b.period !in rows then true
    else if rows[b.period].status == Generating then false
    else
      match Owner(listing, b.period, rows[b.period].batchNo)
      case None => false
      case Some(owner) => b.status == Succeeded && b.triggeredAt > owner.triggeredAt
  }

  function FirstPending(candidates: seq<Batch>, listing: seq<Batch>, rows: Rows): Option<Batch>
    decreases |candidates|
  {
    if candidates == [] then None
    else if Pending(candidates[0], listing, rows) then Some(candidates[0])
    else FirstPending(candidates[1..], listing, rows)
  }

  function EarliestPending(batches: seq<Batch>, rows: Rows): Option<Batch> {
    FirstPending(Listing(batches), Listing(batches), rows)
  }

  // ---------------------------------------------------------------- the writes

  /** Create the row, or send a finished one back to generating; a generating row is left alone. */
  function EnsureGenerating(rows: Rows, p: Period, no: No, now: int): Rows {
    if p in rows && rows[p].status == Generating then rows else rows[p := Suggestion(no, Generating, "", "", now)]
  }

  function MarkGenerated(rows: Rows, p: Period, no: No, content: string, now: int): Rows {
    if p in rows && rows[p].status == Generating then rows[p := Suggestion(no, Generated, content, "", now)] else rows
  }

  function MarkFailed(rows: Rows, p: Period, error: string, now: int): Rows {
    if p in rows && rows[p].status == Generating
    then rows[p := rows[p].(status := Failed, error := error, updatedAt := now)] else rows
  }

  function TouchGenerating(rows: Rows, p: Period, now: int): Rows {
    if p in rows && rows[p].status == Generating then rows[p := rows[p].(updatedAt := now)] else rows
  }

  /** Batches stay ordered by trigger time; their numbers are unique. */
  function InsertBatch(batches: seq<Batch>, b: Batch): seq<Batch>
    decreases |batches|
  {
    if batches == [] then [b]
    else if batches[|batches| - 1].triggeredAt <= b.triggeredAt then batches + [b]
    else InsertBatch(batches[..|batches| - 1], b) + [batches[|batches| - 1]]
  }

  function Finished(batches: seq<Batch>, no: No, status: BatchStatus): seq<Batch> {
    seq(|batches|, i requires 0 <= i < |batches| =>
      if batches[i].no == no && batches[i].status == Running then batches[i].(status := status) else batches[i])
  }

  /** Only running batches are ever deleted. */
  function Deleted(batches: seq<Batch>, no: No): seq<Batch>
    decreases |batches|
  {
    if batches == [] then []
    else
      var b := batches[|batches| - 1];
      Deleted(batches[..|batches| - 1], no) + if b.no == no && b.status == Running then [] else [b]
  }

  predicate HasNo(batches: seq<Batch>, no: No) {
    exists i :: 0 <= i < |batches| && batches[i].no == no
  }

  function ByNo(batches: seq<Batch>, no: No): Option<Batch>
    decreases |batches|
  {
    if batches == [] then None
    else if batches[0].no == no then Some(batches[0]) else ByNo(batches[1..], no)
  }

  // ---------------------------------------------------------------- stuck rows

  predicate Newer(a: Period, b: Period) {
    a.start > b.start || (a.start == b.start && a.end > b.end)
  }

  /** The row is generating and was last written more than twenty minutes ago. */
  predicate Stuck(rows: Rows, p: Period, now: int) {
    p in rows && rows[p].status == Generating && rows[p].updatedAt < now - STUCK_THRESHOLD
  }

  predicate IsOldest(among: set<Period>, p: Period) {
    p in among && forall q :: q in among ==> q == p || Newer(q, p)
  }

  lemma {:induction false} OldestExists(among: set<Period>)
    requires among != {}
    ensures exists p :: IsOldest(among, p)
    decreases |among|
  {
    var x :| x in among;
    var rest := among - {x};
    if rest == {} {
      assert among == {x};
      assert IsOldest(among, x);
    } else {
      OldestExists(rest);
      var p :| IsOldest(rest, p);
      forall q | q in among && q != x ensures q in rest {}
      if Newer(x, p) {
        assert IsOldest(among, p);
      } else {
        assert IsOldest(among, x);
      }
    }
  }

  function StuckRows(rows: Rows, now: int): set<Period> {
    set p | p in rows && Stuck(rows, p, now)
  }

  function OldestStuck(rows: Rows, now: int): (oldest: Option<Period>)
    ensures oldest.None? <==> StuckRows(rows, now) == {}
    ensures oldest.Some? ==> IsOldest(StuckRows(rows, now), oldest.value)
  {
    var stuck := StuckRows(rows, now);
    if stuck == {} then None
    else
      OldestExists(stuck);
      var p :| p in stuck && IsOldest(stuck, p);
      Some(p)
  }

  // ---------------------------------------------------------------- all interleavings

  /** Where a tick stands between two of its statements, and what it has read. */
  datatype Tick =
    | RowsRead(rows: Rows)
    | Picked(batch: Batch)
    | Locked(no: No)
    | StuckFound(period: Period, no: No)
    | Missing(period: Period)
    | LookedUp(period: Period, no: No)
    | Requeued(period: Period)

  /** The tables, the ticks under way, and the jobs ever enqueued. */
  datatype State = State(batches: seq<Batch>, rows: Rows, ticks: map<nat, Tick>, jobs: set<No>)

  const INIT := State([], map[], map[], {})

  datatype Step =
    | CreateBatch(batch: Batch)
    | FinishBatch(no: No, status: BatchStatus)
    | DeleteBatch(no: No)
    | Generate(no: No, content: string, now: int)
    | Fail(no: No, error: string, now: int)
    | ReadRows(tick: nat)
    | Pick(tick: nat, now: int)
    | Ensure(tick: nat, now: int)
    | LookUp(tick: nat)
    | FailMissing(tick: nat, now: int)
    | Enqueue(tick: nat, ok: bool)
    | Touch(tick: nat, now: int)
    | Abort(tick: nat)

  predicate OfTick(step: Step) {
    !step.CreateBatch? && !step.FinishBatch? && !step.DeleteBatch? && !step.Generate? && !step.Fail?
  }

  /** After the batches are read: a pick from the rows read before, else the oldest stuck one of them. */
  function AfterPick(batches: seq<Batch>, read: Rows, now: int): Option<Tick> {
    match EarliestPending(batches, read)
    case Some(b) => Some(Picked(b))
    case None =>
      match OldestStuck(read, now)
      case None => None
      case Some(p) => Some(StuckFound(p, read[p].batchNo))
  }

  /** The tick's next place, and the rows and jobs it leaves. */
  function Moves(s: State, tick: Tick, step: Step): (Option<Tick>, Rows, set<No>) {
    match step
    case Pick(_, now) => (if tick.RowsRead? then AfterPick(s.batches, tick.rows, now) else Some(tick), s.rows, s.jobs)
    case Ensure(_, now) =>
      if tick.Picked? then (Some(Locked(tick.batch.no)), EnsureGenerating(s.rows, tick.batch.period, tick.batch.no, now), s.jobs)
      else (Some(tick), s.rows, s.jobs)
    case LookUp(_) =>
      (if !tick.StuckFound? then Some(tick)
       else if ByNo(s.batches, tick.no).None? then Some(Missing(tick.period)) else Some(LookedUp(tick.period, tick.no)),
       s.rows, s.jobs)
    case FailMissing(_, now) =>
      if tick.Missing? then (None, MarkFailed(s.rows, tick.period, "batch missing", now), s.jobs) else (Some(tick), s.rows, s.jobs)
    case Enqueue(_, ok) =>
      if tick.Locked? then (None, s.rows, if ok then s.jobs + {tick.no} else s.jobs)
      else if tick.LookedUp? then (if ok then Some(Requeued(tick.period)) else None, s.rows, if ok then s.jobs + {tick.no} else s.jobs)
      else (Some(tick), s.rows, s.jobs)
    case Touch(_, now) =>
      if tick.Requeued? then (None, TouchGenerating(s.rows, tick.period, now), s.jobs) else (Some(tick), s.rows, s.jobs)
    case Abort(_) => (None, s.rows, s.jobs)
    case _ => (Some(tick), s.rows, s.jobs)
  }

  function Goes(ticks: map<nat, Tick>, t: nat, next: Option<Tick>): map<nat, Tick> {
    match next
    case None => ticks - {t}
    case Some(tick) => ticks[t := tick]
  }

  /** One statement. A job runs against the row of its batch's period, if that row is generating. */
  function Advance(s: State, step: Step): State {
    match step
    case CreateBatch(b) =>
      if HasNo(s.batches, b.no) then s else s.(batches := InsertBatch(s.batches, b.(status := Running)))
    case FinishBatch(no, status) => s.(batches := Finished(s.batches, no, status))
    case DeleteBatch(no) => s.(batches := Deleted(s.batches, no))
    case Generate(no, content, now) =>
      if no !in s.jobs || ByNo(s.batches, no).None? then s
      else s.(rows := MarkGenerated(s.rows, ByNo(s.batches, no).value.period, no, content, now))
    case Fail(no, error, now) =>
      if no !in s.jobs || ByNo(s.batches, no).None? then s
      else s.(rows := MarkFailed(s.rows, ByNo(s.batches, no).value.period, error, now))
    case ReadRows(t) => if t in s.ticks then s else s.(ticks := s.ticks[t := RowsRead(s.rows)])
    case _ =>
      if step.tick !in s.ticks then s
      else
        var (next, rows, jobs) := Moves(s, s.ticks[step.tick], step);
        State(s.batches, rows, Goes(s.ticks, step.tick, next), jobs)
  }

  function Run(s: State, steps: seq<Step>): State
    decreases |steps|
  {
    if steps == [] then s else Run(Advance(s, steps[0]), steps[1..])
  }

  // ---------------------------------------------------------------- every row has its batch

  predicate UniqueNos(batches: seq<Batch>) {
    forall i, j :: 0 <= i < j < |batches| ==> batches[i].no != batches[j].no
  }

  predicate Ordered(batches: seq<Batch>) {
    forall i, j :: 0 <= i < j < |batches| ==> batches[i].triggeredAt <= batches[j].triggeredAt
  }

  /** The number belongs to a finished scheduled batch. */
  ghost predicate Settled(batches: seq<Batch>, no: No) {
    exists b :: b in batches && b.no == no && Ready(b)
  }

  ghost predicate SettledIn(batches: seq<Batch>, no: No, p: Period) {
    exists b :: b in batches && b.no == no && Ready(b) && b.period == p
  }

  ghost predicate RowShape(r: Suggestion) {
    (r.status != Generated ==> r.content == "") && (r.status != Failed ==> r.error == "")
  }

  ghost predicate RowsSettled(batches: seq<Batch>, rows: Rows) {
    forall p :: p in rows ==> SettledIn(batches, rows[p].batchNo, p) && RowShape(rows[p])
  }

  /** What a tick has read still stands, however long ago: finished batches never go away. */
  ghost predicate TickSound(batches: seq<Batch>, tick: Tick) {
    match tick
    case RowsRead(rows) => RowsSettled(batches, rows)
    case Picked(b) => b in batches && Ready(b)
    case Locked(no) => Settled(batches, no)
    case StuckFound(p, no) => SettledIn(batches, no, p)
    case Missing(_) => false
    case LookedUp(p, no) => SettledIn(batches, no, p)
    case Requeued(_) => true
  }

  ghost predicate TicksSound(batches: seq<Batch>, ticks: map<nat, Tick>) {
    forall t :: t in ticks ==> TickSound(batches, ticks[t])
  }

  ghost predicate JobsSettled(batches: seq<Batch>, jobs: set<No>) {
    forall no :: no in jobs ==> Settled(batches, no)
  }

  ghost predicate Sound(s: State) {
    && UniqueNos(s.batches) && Ordered(s.batches)
    && JobsSettled(s.batches, s.jobs) && RowsSettled(s.batches, s.rows) && TicksSound(s.batches, s.ticks)
  }

  /** Finished scheduled batches stay. */
  ghost predicate KeepsReady(before: seq<Batch>, after: seq<Batch>) {
    forall b :: b in before && Ready(b) ==> b in after
  }

  lemma {:induction false} InsertKeeps(batches: seq<Batch>, b: Batch)
    requires UniqueNos(batches) && Ordered(batches) && !HasNo(batches, b.no)
    ensures var r := InsertBatch(batches, b);
            && UniqueNos(r) && Ordered(r)
            && (forall c :: c in r <==> c in batches || c == b)
    decreases |batches|
  {
    if batches != [] && batches[|batches| - 1].triggeredAt > b.triggeredAt {
      var last := batches[|batches| - 1];
      var r := InsertBatch(batches[..|batches| - 1], b);
      InsertKeeps(batches[..|batches| - 1], b);
      forall i | 0 <= i < |r| ensures r[i].no != last.no && r[i].triggeredAt <= last.triggeredAt {
        assert r[i] in r;
      }
    }
  }

  lemma {:induction false} DeletedMembers(batches: seq<Batch>, no: No, c: Batch)
    ensures c in Deleted(batches, no) <==> c in batches && !(c.no == no && c.status == Running)
    decreases |batches|
  {
    if batches != [] { DeletedMembers(batches[..|batches| - 1], no, c); }
  }

  lemma {:induction false} DeletedKeeps(batches: seq<Batch>, no: No)
    requires UniqueNos(batches) && Ordered(batches)
    ensures UniqueNos(Deleted(batches, no)) && Ordered(Deleted(batches, no))
    ensures KeepsReady(batches, Deleted(batches, no))
    decreases |batches|
  {
    forall c | c in batches && Ready(c) ensures c in Deleted(batches, no) {
      DeletedMembers(batches, no, c);
    }
    if batches != [] {
      var init, b := batches[..|batches| - 1], batches[|batches| - 1];
      var r := Deleted(init, no);
      DeletedKeeps(init, no);
      forall i | 0 <= i < |r| ensures r[i].no != b.no && r[i].triggeredAt <= b.triggeredAt {
        DeletedMembers(init, no, r[i]);
        assert r[i] in r;
      }
    }
  }

  lemma FinishedKeeps(batches: seq<Batch>, no: No, status: BatchStatus)
    requires UniqueNos(batches) && Ordered(batches)
    ensures var r := Finished(batches, no, status); UniqueNos(r) && Ordered(r) && KeepsReady(batches, r)
  {
    var r := Finished(batches, no, status);
    forall b | b in batches && Ready(b) ensures b in r {
      var i :| 0 <= i < |batches| && batches[i] == b;
      assert r[i] == b;
    }
  }

  lemma {:induction false} ListingMembers(batches: seq<Batch>, b: Batch)
    ensures b in Listing(batches) <==> b in batches && Ready(b)
    decreases |batches|
  {
    if batches != [] { ListingMembers(batches[..|batches| - 1], b); }
  }

  lemma {:induction false} FirstPendingFound(candidates: seq<Batch>, listing: seq<Batch>, rows: Rows)
    ensures match FirstPending(candidates, listing, rows)
            case None => forall b :: b in candidates ==> !Pending(b, listing, rows)
            case Some(b) => exists i :: 0 <= i < |candidates| && candidates[i] == b && Pending(b, listing, rows)
                                        && forall j :: 0 <= j < i ==> !Pending(candidates[j], listing, rows)
    decreases |candidates|
  {
    if candidates != [] && !Pending(candidates[0], listing, rows) {
      FirstPendingFound(candidates[1..], listing, rows);
      var r := FirstPending(candidates, listing, rows);
      if r.Some? {
        var i :| 0 <= i < |candidates[1..]| && candidates[1..][i] == r.value
                 && forall j :: 0 <= j < i ==> !Pending(candidates[1..][j], listing, rows);
        assert candidates[i + 1] == r.value;
        forall j | 0 <= j < i + 1 ensures !Pending(candidates[j], listing, rows) {
          if j > 0 { assert candidates[j] == candidates[1..][j - 1]; }
        }
      }
    }
  }

  lemma {:induction false} ByNoFinds(batches: seq<Batch>, b: Batch)
    requires UniqueNos(batches) && b in batches
    ensures ByNo(batches, b.no) == Some(b)
    decreases |batches|
  {
    if batches[0] != b {
      var i :| 0 <= i < |batches| && batches[i] == b;
      assert batches[1..][i - 1] == b;
      ByNoFinds(batches[1..], b);
    }
  }

  /** A settled number is found, and is finished, scheduled and of one period. */
  lemma SettledByNo(batches: seq<Batch>, no: No)
    requires UniqueNos(batches) && Settled(batches, no)
    ensures ByNo(batches, no).Some? && ByNo(batches, no).value.no == no && Ready(ByNo(batches, no).value)
    ensures ByNo(batches, no).value in batches
    ensures SettledIn(batches, no, ByNo(batches, no).value.period)
  {
    var b :| b in batches && b.no == no && Ready(b);
    ByNoFinds(batches, b);
  }

  lemma BatchStepKeepsSound(s: State, step: Step)
    requires Sound(s) && (step.CreateBatch? || step.FinishBatch? || step.DeleteBatch?)
    ensures UniqueNos(Advance(s, step).batches) && Ordered(Advance(s, step).batches)
    ensures KeepsReady(s.batches, Advance(s, step).batches)
  {
    match step
    case CreateBatch(b) => if !HasNo(s.batches, b.no) { InsertKeeps(s.batches, b.(status := Running)); }
    case FinishBatch(no, status) => FinishedKeeps(s.batches, no, status);
    case DeleteBatch(no) => DeletedKeeps(s.batches, no);
  }

  lemma ReadyKeepsSettled(before: seq<Batch>, after: seq<Batch>, no: No, p: Period)
    requires KeepsReady(before, after)
    ensures Settled(before, no) ==> Settled(after, no)
    ensures SettledIn(before, no, p) ==> SettledIn(after, no, p)
  {
  }

  lemma ReadyKeepsRows(before: seq<Batch>, after: seq<Batch>, rows: Rows)
    requires KeepsReady(before, after) && RowsSettled(before, rows)
    ensures RowsSettled(after, rows)
  {
    forall p | p in rows ensures SettledIn(after, rows[p].batchNo, p) {
      ReadyKeepsSettled(before, after, rows[p].batchNo, p);
    }
  }

  lemma ReadyKeepsTick(before: seq<Batch>, after: seq<Batch>, tick: Tick)
    requires KeepsReady(before, after) && TickSound(before, tick)
    ensures TickSound(after, tick)
  {
    match tick
    case RowsRead(rows) => ReadyKeepsRows(before, after, rows);
    case Picked(_) =>
    case Locked(no) => ReadyKeepsSettled(before, after, no, Period(0, 0));
    case StuckFound(p, no) => ReadyKeepsSettled(before, after, no, p);
    case LookedUp(p, no) => ReadyKeepsSettled(before, after, no, p);
    case Requeued(_) =>
  }

  lemma BatchesMove(s: State, batches: seq<Batch>)
    requires Sound(s) && UniqueNos(batches) && Ordered(batches) && KeepsReady(s.batches, batches)
    ensures Sound(s.(batches := batches))
  {
    ReadyKeepsRows(s.batches, batches, s.rows);
    forall no | no in s.jobs ensures Settled(batches, no) {
      ReadyKeepsSettled(s.batches, batches, no, Period(0, 0));
    }
    forall t | t in s.ticks ensures TickSound(batches, s.ticks[t]) {
      ReadyKeepsTick(s.batches, batches, s.ticks[t]);
    }
  }

  lemma RowWritesKeepSettled(batches: seq<Batch>, rows: Rows, p: Period, no: No, text: string, now: int)
    requires RowsSettled(batches, rows) && SettledIn(batches, no, p)
    ensures RowsSettled(batches, EnsureGenerating(rows, p, no, now))
    ensures RowsSettled(batches, MarkGenerated(rows, p, no, text, now))
    ensures RowsSettled(batches, MarkFailed(rows, p, text, now))
  {
  }

  lemma TouchKeepsSettled(batches: seq<Batch>, rows: Rows, p: Period, now: int)
    requires RowsSettled(batches, rows)
    ensures RowsSettled(batches, TouchGenerating(rows, p, now))
  {
  }

  lemma PickKeepsSound(batches: seq<Batch>, read: Rows, now: int)
    requires RowsSettled(batches, read)
    ensures AfterPick(batches, read, now).Some? ==> TickSound(batches, AfterPick(batches, read, now).value)
  {
    FirstPendingFound(Listing(batches), Listing(batches), read);
    if EarliestPending(batches, read).Some? {
      ListingMembers(batches, EarliestPending(batches, read).value);
    }
  }

  lemma IsSettled(batches: seq<Batch>, no: No, p: Period)
    requires SettledIn(batches, no, p)
    ensures Settled(batches, no)
  {
  }

  /** Where a tick's own statement leaves it, the rows and the jobs. */
  lemma MovesKeepSound(s: State, tick: Tick, step: Step)
    requires Sound(s) && TickSound(s.batches, tick)
    ensures var (next, rows, jobs) := Moves(s, tick, step);
            && (next.Some? ==> TickSound(s.batches, next.value))
            && RowsSettled(s.batches, rows) && JobsSettled(s.batches, jobs)
  {
    match step
    case Pick(_, now) => if tick.RowsRead? { PickKeepsSound(s.batches, tick.rows, now); }
    case Ensure(_, now) => if tick.Picked? {
      var b := tick.batch;
      assert SettledIn(s.batches, b.no, b.period);
      RowWritesKeepSettled(s.batches, s.rows, b.period, b.no, "", now);
    }
    case LookUp(_) => if tick.StuckFound? {
      IsSettled(s.batches, tick.no, tick.period);
      SettledByNo(s.batches, tick.no);
    }
    case Enqueue(_, ok) => if tick.LookedUp? { IsSettled(s.batches, tick.no, tick.period); }
    case Touch(_, now) => if tick.Requeued? { TouchKeepsSettled(s.batches, s.rows, tick.period, now); }
    case _ =>
  }

  lemma TickStepKeepsSound(s: State, step: Step)
    requires Sound(s) && OfTick(step)
    ensures Sound(Advance(s, step))
  {
    if step.ReadRows? {
      assert TickSound(s.batches, RowsRead(s.rows));
    } else if step.tick in s.ticks {
      MovesKeepSound(s, s.ticks[step.tick], step);
    }
  }

  lemma JobStepKeepsSound(s: State, step: Step)
    requires Sound(s) && (step.Generate? || step.Fail?)
    ensures Sound(Advance(s, step))
  {
    if step.no in s.jobs {
      SettledByNo(s.batches, step.no);
      var p := ByNo(s.batches, step.no).value.period;
      RowWritesKeepSettled(s.batches, s.rows, p, step.no, if step.Generate? then step.content else step.error, step.now);
    }
  }

  lemma StepKeepsSound(s: State, step: Step)
    requires Sound(s)
    ensures Sound(Advance(s, step))
    ensures KeepsReady(s.batches, Advance(s, step).batches)
  {
    if OfTick(step) {
      TickStepKeepsSound(s, step);
    } else if step.Generate? || step.Fail? {
      JobStepKeepsSound(s, step);
    } else {
      BatchStepKeepsSound(s, step);
      BatchesMove(s, Advance(s, step).batches);
    }
  }

  /** Any number of ticks, each cut between its statements, jobs delivered late and repeatedly, batches
      created, finished and deleted: every row belongs to a finished scheduled batch of its period, and what
      a tick has read stays true. */
  lemma {:induction false} EveryRunIsSound(s: State, steps: seq<Step>)
    requires Sound(s)
    ensures Sound(Run(s, steps)) && KeepsReady(s.batches, Run(s, steps).batches)
    decreases |steps|
  {
    if steps != [] {
      StepKeepsSound(s, steps[0]);
      EveryRunIsSound(Advance(s, steps[0]), steps[1..]);
    }
  }

  lemma InitIsSound()
    ensures Sound(INIT)
  {
  }

  lemma {:induction false} OwnerFinds(listing: seq<Batch>, b: Batch)
    requires UniqueNos(listing) && b in listing
    ensures Owner(listing, b.period, b.no) == Some(b)
    decreases |listing|
  {
    if listing[0] != b {
      var i :| 0 <= i < |listing| && listing[i] == b;
      assert listing[1..][i - 1] == b;
      OwnerFinds(listing[1..], b);
    }
  }

  lemma {:induction false} ListingKeeps(batches: seq<Batch>)
    requires UniqueNos(batches) && Ordered(batches)
    ensures UniqueNos(Listing(batches)) && Ordered(Listing(batches))
    decreases |batches|
  {
    if batches != [] {
      var init := batches[..|batches| - 1];
      var b := batches[|batches| - 1];
      ListingKeeps(init);
      forall i | 0 <= i < |Listing(init)| ensures Listing(init)[i].no != b.no && Listing(init)[i].triggeredAt <= b.triggeredAt {
        ListingMembers(init, Listing(init)[i]);
        assert Listing(init)[i] in Listing(init);
      }
    }
  }

  /** The row's batch is always found among the finished scheduled batches of its period. */
  lemma SettledOwner(batches: seq<Batch>, no: No, p: Period)
    requires UniqueNos(batches) && Ordered(batches) && SettledIn(batches, no, p)
    ensures var o := Owner(Listing(batches), p, no);
            o.Some? && o.value in batches && Ready(o.value) && o.value.no == no && o.value.period == p
  {
    var b :| b in batches && b.no == no && Ready(b) && b.period == p;
    ListingMembers(batches, b);
    ListingKeeps(batches);
    OwnerFinds(Listing(batches), b);
  }

  /** In every interleaving the owner of a row resolves among the batches read later, both for the rows as
      they are and for the rows any tick has read: the pick's "owner not found" branch and the retry's
      "batch missing" branch are dead. */
  lemma OwnerAlwaysResolves(steps: seq<Step>, t: nat, p: Period)
    ensures var s := Run(INIT, steps);
            && (p in s.rows ==> Resolves(s.batches, p, s.rows[p].batchNo))
            && (t in s.ticks ==> !s.ticks[t].Missing?)
            && (t in s.ticks && s.ticks[t].RowsRead? && p in s.ticks[t].rows ==> Resolves(s.batches, p, s.ticks[t].rows[p].batchNo))
  {
    InitIsSound();
    EveryRunIsSound(INIT, steps);
    var s := Run(INIT, steps);
    if p in s.rows { SettledResolves(s.batches, s.rows[p].batchNo, p); }
    if t in s.ticks {
      assert TickSound(s.batches, s.ticks[t]);
      if s.ticks[t].RowsRead? && p in s.ticks[t].rows { SettledResolves(s.batches, s.ticks[t].rows[p].batchNo, p); }
    }
  }

  /** The loop over the listed batches and the lookup by number find the same batch. */
  ghost predicate Resolves(batches: seq<Batch>, p: Period, no: No) {
    Owner(Listing(batches), p, no).Some? && ByNo(batches, no) == Owner(Listing(batches), p, no)
  }

  lemma SettledResolves(batches: seq<Batch>, no: No, p: Period)
    requires UniqueNos(batches) && Ordered(batches) && SettledIn(batches, no, p)
    ensures Resolves(batches, p, no)
  {
    SettledOwner(batches, no, p);
    ByNoFinds(batches, Owner(Listing(batches), p, no).value);
  }

  // ---------------------------------------------------------------- what is picked

  /** The batches waiting to be picked. */
  function PendingSet(batches: seq<Batch>, rows: Rows): set<Batch> {
    set b | b in Listing(batches) && Pending(b, Listing(batches), rows)
  }

  lemma PickIsEarliest(batches: seq<Batch>, rows: Rows, b: Batch)
    requires UniqueNos(batches) && Ordered(batches) && EarliestPending(batches, rows) == Some(b)
    ensures b in PendingSet(batches, rows)
    ensures forall c :: c in PendingSet(batches, rows) ==> b.triggeredAt <= c.triggeredAt
  {
    var l := Listing(batches);
    FirstPendingFound(l, l, rows);
    ListingKeeps(batches);
    var i :| 0 <= i < |l| && l[i] == b && Pending(b, l, rows) && forall j :: 0 <= j < i ==> !Pending(l[j], l, rows);
    forall c | c in PendingSet(batches, rows) ensures b.triggeredAt <= c.triggeredAt {
      var k :| 0 <= k < |l| && l[k] == c;
      assert k >= i;
    }
  }

  /** A pick is the earliest of all waiting batches; its period had no row when the rows were read, or a
      finished row of an earlier batch, and then the pick succeeded. A period that was generating is never
      picked. */
  lemma PickMeaning(batches: seq<Batch>, rows: Rows, b: Batch)
    requires UniqueNos(batches) && Ordered(batches) && RowsSettled(batches, rows) && EarliestPending(batches, rows) == Some(b)
    ensures b in PendingSet(batches, rows)
    ensures forall c :: c in PendingSet(batches, rows) ==> b.triggeredAt <= c.triggeredAt
    ensures b.period in rows ==>
              && rows[b.period].status != Generating && b.status == Succeeded
              && exists o :: o in batches && o.no == rows[b.period].batchNo && o.period == b.period && o.triggeredAt < b.triggeredAt
  {
    PickIsEarliest(batches, rows, b);
    if b.period in rows {
      SettledOwner(batches, rows[b.period].batchNo, b.period);
    }
  }

  /** A batch waits exactly when it is finished and scheduled, and its period has no row, or a finished row
      of an earlier batch while it succeeded itself. */
  lemma WaitsIff(batches: seq<Batch>, rows: Rows, b: Batch, o: Batch)
    requires UniqueNos(batches) && Ordered(batches) && RowsSettled(batches, rows)
    requires o in batches && (b.period in rows ==> o.no == rows[b.period].batchNo)
    ensures b in PendingSet(batches, rows) <==>
            && b in batches && Ready(b)
            && (b.period in rows ==> rows[b.period].status != Generating && b.status == Succeeded && b.triggeredAt > o.triggeredAt)
  {
    ListingMembers(batches, b);
    if b.period in rows {
      SettledOwner(batches, rows[b.period].batchNo, b.period);
      var owner := Owner(Listing(batches), b.period, rows[b.period].batchNo).value;
      ByNoFinds(batches, o);
      ByNoFinds(batches, owner);
    }
  }

  // ---------------------------------------------------------------- serialised ticks terminate

  /** One tick and the end of the job it enqueued, with nothing in between. */
  function Cycle(batches: seq<Batch>, rows: Rows, generated: bool, text: string, now: int): Rows {
    match EarliestPending(batches, rows)
    case None => rows
    case Some(b) =>
      var locked := EnsureGenerating(rows, b.period, b.no, now);
      if generated then MarkGenerated(locked, b.period, b.no, text, now) else MarkFailed(locked, b.period, text, now)
  }

  /** The row's batch is then the one picked, and only newer successful batches of its period still wait. */
  lemma CycleShrinks(batches: seq<Batch>, rows: Rows, generated: bool, text: string, now: int)
    requires UniqueNos(batches) && Ordered(batches) && RowsSettled(batches, rows)
    requires EarliestPending(batches, rows).Some?
    ensures var after := Cycle(batches, rows, generated, text, now);
            && RowsSettled(batches, after)
            && PendingSet(batches, after) < PendingSet(batches, rows)
            && var p := EarliestPending(batches, rows).value.period;
               p in after && after[p].status == if generated then Generated else Failed
  {
    var l := Listing(batches);
    var b := EarliestPending(batches, rows).value;
    var after := Cycle(batches, rows, generated, text, now);
    FirstPendingFound(l, l, rows);
    ListingMembers(batches, b);
    ListingKeeps(batches);
    OwnerFinds(l, b);
    assert SettledIn(batches, b.no, b.period);
    CycleWrites(rows, b, generated, text, now);
    assert b in PendingSet(batches, rows) && b !in PendingSet(batches, after);
    forall c | c in PendingSet(batches, after) ensures c in PendingSet(batches, rows) {
      StillPending(c, b, l, rows, after);
    }
  }

  lemma CycleWrites(rows: Rows, b: Batch, generated: bool, text: string, now: int)
    requires b.period in rows ==> rows[b.period].status != Generating
    ensures var locked := EnsureGenerating(rows, b.period, b.no, now);
            var after := if generated then MarkGenerated(locked, b.period, b.no, text, now)
                         else MarkFailed(locked, b.period, text, now);
            && after == rows[b.period := after[b.period]]
            && after[b.period].batchNo == b.no && RowShape(after[b.period])
            && after[b.period].status == if generated then Generated else Failed
  {
  }

  lemma StillPending(c: Batch, b: Batch, l: seq<Batch>, rows: Rows, after: Rows)
    requires Pending(b, l, rows) && Pending(c, l, after) && Owner(l, b.period, b.no) == Some(b)
    requires b.period in after && after == rows[b.period := after[b.period]] && after[b.period].batchNo == b.no
    ensures Pending(c, l, rows)
  {
  }

  /** Ticks repeated over a fixed batch table; each batch's job may succeed or fail. */
  function Settle(batches: seq<Batch>, rows: Rows, outcome: No -> bool, text: string, now: int): (r: (Rows, nat))
    requires UniqueNos(batches) && Ordered(batches) && RowsSettled(batches, rows)
    ensures EarliestPending(batches, r.0) == None && RowsSettled(batches, r.0) && r.1 <= |PendingSet(batches, rows)|
    ensures r.1 == 0 <==> EarliestPending(batches, rows) == None
    decreases |PendingSet(batches, rows)|
  {
    match EarliestPending(batches, rows)
    case None => (rows, 0)
    case Some(b) =>
      CycleShrinks(batches, rows, outcome(b.no), text, now);
      Smaller(PendingSet(batches, Cycle(batches, rows, outcome(b.no), text, now)), PendingSet(batches, rows));
      var (done, ticks) := Settle(batches, Cycle(batches, rows, outcome(b.no), text, now), outcome, text, now);
      (done, ticks + 1)
  }

  lemma Smaller<T>(a: set<T>, b: set<T>)
    requires a < b
    ensures |a| < |b|
  {
    var x :| x in b && x !in a;
    assert a <= b - {x};
    SubsetSize(a, b - {x});
  }

  lemma {:induction false} SubsetSize<T>(a: set<T>, b: set<T>)
    requires a <= b
    ensures |a| <= |b|
    decreases |a|
  {
    if a != {} {
      var x :| x in a;
      SubsetSize(a - {x}, b - {x});
    }
  }

  /** Serialised ticking ends, after at most one tick per waiting batch, with nothing waiting: every period
      that has a finished scheduled batch then has a row. */
  lemma SettledPeriodsHaveRows(batches: seq<Batch>, rows: Rows, outcome: No -> bool, text: string, now: int, b: Batch)
    requires UniqueNos(batches) && Ordered(batches) && RowsSettled(batches, rows) && b in batches && Ready(b)
    ensures b.period in Settle(batches, rows, outcome, text, now).0
  {
    var done := Settle(batches, rows, outcome, text, now).0;
    ListingMembers(batches, b);
    FirstPendingFound(Listing(batches), Listing(batches), done);
    assert !Pending(b, Listing(batches), done);
  }

  // ---------------------------------------------------------------- late jobs

  /** A job that ends while its period generates takes the row over, even for a newer batch's pick; the
      period is then picked again if and only if a newer successful batch exists. */
  lemma LateJobReopensIff(s: State, b: Batch, content: string, now: int)
    requires Sound(s) && b in s.batches && Ready(b) && b.no in s.jobs
    requires b.period in s.rows && s.rows[b.period].status == Generating
    ensures var after := Advance(s, Generate(b.no, content, now));
            && after.rows[b.period].batchNo == b.no && after.rows[b.period].content == content
            && ((exists c :: c in PendingSet(after.batches, after.rows) && c.period == b.period)
                <==> exists c :: c in s.batches && c.period == b.period && c.trigger == Scheduled && c.status == Succeeded
                                 && c.triggeredAt > b.triggeredAt)
  {
    var after := Advance(s, Generate(b.no, content, now));
    ByNoFinds(s.batches, b);
    StepKeepsSound(s, Generate(b.no, content, now));
    forall c: Batch | c.period == b.period
      ensures c in PendingSet(after.batches, after.rows)
         <==> c in s.batches && Ready(c) && c.status == Succeeded && c.triggeredAt > b.triggeredAt
    {
      WaitsIff(after.batches, after.rows, c, b);
    }
  }

  // ---------------------------------------------------------------- what each write records

  /** Only the row of one period may have changed. */
  ghost predicate OthersSame(rows: Rows, after: Rows, p: Period) {
    forall q :: q != p ==> (q in after <==> q in rows) && (q in rows ==> after[q] == rows[q])
  }

  /** How a period's row moves: it is locked for a batch when there is none or a finished one; a lock is kept
      alive, or ends in a result or a failure; and nothing else ever happens to it. */
  ghost predicate RowMoves(rows: Rows, after: Rows, p: Period) {
    var was := if p in rows then Some(rows[p]) else None;
    var locked := was.Some? && was.value.status == Generating;
    && (p in rows ==> p in after)
    && (p in after ==>
          var row := after[p];
          || was == Some(row)
          || (!locked && row.status == Generating && row.content == "" && row.error == "")
          || (locked && row.status == Generating && row == was.value.(updatedAt := row.updatedAt))
          || (locked && row.status == Generated && row.error == "")
          || (locked && row.status == Failed && row.batchNo == was.value.batchNo && row.content == was.value.content))
  }

  lemma EveryStepMovesRows(s: State, step: Step, p: Period)
    ensures RowMoves(s.rows, Advance(s, step).rows, p)
  {
  }

  /** A job that ends alone writes its result, or its error, to the row of its batch's period exactly when
      that row is generating. */
  lemma JobWritesItsRow(s: State, b: Batch, text: string, now: int)
    requires Sound(s) && b in s.batches && Ready(b) && b.no in s.jobs
    ensures var (done, failed) := (Advance(s, Generate(b.no, text, now)).rows, Advance(s, Fail(b.no, text, now)).rows);
            && OthersSame(s.rows, done, b.period) && OthersSame(s.rows, failed, b.period)
            && if b.period in s.rows && s.rows[b.period].status == Generating then
                 var (r, f) := (done[b.period], failed[b.period]);
                 && r.status == Generated && r.batchNo == b.no && r.content == text && r.error == "" && r.updatedAt == now
                 && f.status == Failed && f.batchNo == s.rows[b.period].batchNo && f.error == text && f.content == "" && f.updatedAt == now
               else done == s.rows && failed == s.rows
  {
    ByNoFinds(s.batches, b);
    if b.period in s.rows { assert RowShape(s.rows[b.period]); }
  }

  lemma {:induction false} InsertedIs(batches: seq<Batch>, b: Batch, c: Batch)
    ensures c in InsertBatch(batches, b) <==> c in batches || c == b
    decreases |batches|
  {
    if batches != [] && batches[|batches| - 1].triggeredAt > b.triggeredAt {
      InsertedIs(batches[..|batches| - 1], b, c);
    }
  }

  /** A new batch starts running, under a number of its own; finishing gives a running batch its outcome and
      deleting takes a running batch away; no other batch changes. */
  lemma BatchSteps(s: State, b: Batch, outcome: BatchStatus, c: Batch)
    requires UniqueNos(s.batches)
    ensures c in Advance(s, CreateBatch(b)).batches <==> c in s.batches || (!HasNo(s.batches, b.no) && c == b.(status := Running))
    ensures c in Advance(s, DeleteBatch(b.no)).batches <==> c in s.batches && !(c.no == b.no && c.status == Running)
    ensures c in Advance(s, FinishBatch(b.no, outcome)).batches <==>
              || (c in s.batches && !(c.no == b.no && c.status == Running))
              || (c.no == b.no && c.status == outcome && c.(status := Running) in s.batches)
  {
    InsertedIs(s.batches, b.(status := Running), c);
    DeletedMembers(s.batches, b.no, c);
    FinishedMembers(s.batches, b.no, outcome, c);
  }

  lemma FinishedMembers(batches: seq<Batch>, no: No, outcome: BatchStatus, c: Batch)
    ensures c in Finished(batches, no, outcome) <==>
              || (c in batches && !(c.no == no && c.status == Running))
              || (c.no == no && c.status == outcome && c.(status := Running) in batches)
  {
    var after := Finished(batches, no, outcome);
    if c in batches && !(c.no == no && c.status == Running) {
      var i :| 0 <= i < |batches| && batches[i] == c;
      assert after[i] == c;
    }
    if c.no == no && c.status == outcome && c.(status := Running) in batches {
      var i :| 0 <= i < |batches| && batches[i] == c.(status := Running);
      assert after[i] == c;
    }
    if c in after {
      var i :| 0 <= i < |after| && after[i] == c;
      assert batches[i] in batches;
      if batches[i] != c { assert c.(status := Running) == batches[i]; }
    }
  }
}
