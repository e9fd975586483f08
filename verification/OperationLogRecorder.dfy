/** The recorder as the source runs it: Record's nested selects, the consumer's loop, the clean-up loop. */
module OperationLogRecorder {
  import opened OperationLog

  lemma {:induction false} RunInParts(s: State, first: seq<Step>, second: seq<Step>)
    ensures Run(s, first + second) == Run(Run(s, first), second)
    decreases |first|
  {
    if first == [] {
      assert first + second == second;
    } else {
      assert (first + second)[1..] == first[1..] + second;
      RunInParts(Advance(s, first[0]), first[1..], second);
    }
  }

  lemma RunOne(s: State, step: Step)
    ensures Run(s, [step]) == Advance(s, step)
  {
    assert [step][1..] == [];
  }

  /** Steps of goroutines other than one producer; of goroutines other than the consumer. */
  predicate NotOf(steps: seq<Step>, p: ProducerId) {
    forall i :: 0 <= i < |steps| ==>
      match steps[i]
      case Send(q, _) => q != p
      case Evict(q) => q != p
      case Retry(q) => q != p
      case _ => true
  }

  predicate NotConsumer(steps: seq<Step>) {
    forall i :: 0 <= i < |steps| ==> steps[i].Send? || steps[i].Evict? || steps[i].Retry? || steps[i].Close?
  }

  lemma {:induction false} OthersLeaveCall(s: State, steps: seq<Step>, p: ProducerId)
    requires NotOf(steps, p) && p in s.pending
    ensures p in Run(s, steps).pending && Run(s, steps).pending[p] == s.pending[p]
    decreases |steps|
  {
    if steps != [] {
      assert NotOf([steps[0]], p);
      OthersLeaveCall(Advance(s, steps[0]), steps[1..], p);
    }
  }

  lemma {:induction false} OthersLeaveConsumer(s: State, steps: seq<Step>)
    requires NotConsumer(steps)
    ensures var t := Run(s, steps);
            && t.consumer == s.consumer && t.batch == s.batch && t.flushes == s.flushes && t.capacity == s.capacity
    decreases |steps|
  {
    if steps != [] { OthersLeaveConsumer(Advance(s, steps[0]), steps[1..]); }
  }

  /** One turn of the consumer's loop: what happens while it waits, which case of the select is taken, what
      happens while it builds the row, and the outcome of an insert. */
  datatype Turn = Turn(before: seq<Step>, tick: bool, during: seq<Step>, ok: bool)

  function TurnSteps(t: Turn): seq<Step> {
    t.before + [if t.tick then TickFires else Receive] + t.during + [Append, Insert(t.ok)]
  }

  function Steps(turns: seq<Turn>): seq<Step> {
    if turns == [] then [] else Steps(turns[..|turns| - 1]) + TurnSteps(turns[|turns| - 1])
  }

  lemma TurnRuns(s: State, t: Turn)
    ensures Run(s, TurnSteps(t))
         == Advance(Advance(Run(Advance(Run(s, t.before), if t.tick then TickFires else Receive), t.during), Append), Insert(t.ok))
  {
    var pick := if t.tick then TickFires else Receive;
    RunInParts(s, t.before + [pick] + t.during, [Append, Insert(t.ok)]);
    RunInParts(s, t.before + [pick], t.during);
    RunInParts(s, t.before, [pick]);
    RunOne(Run(s, t.before), pick);
    var u := Run(s, t.before + [pick] + t.during);
    assert [Append, Insert(t.ok)][1..] == [Insert(t.ok)];
    RunOne(Advance(u, Append), Insert(t.ok));
  }

  /** Where a turn stands before its insert: what it is about to store, and as which flush. */
  lemma TurnCollects(at: State, tick: bool, during: seq<Step>)
    requires at.consumer == Waiting && |at.batch| < 100 && NotConsumer(during)
    ensures var full := Advance(Run(Advance(at, if tick then TickFires else Receive), during), Append);
            && full.flushes == at.flushes && full.batch == Collected(at, tick)
            && full.consumer == if tick || (at.queue != [] && |full.batch| == 100) then Flushing
                                else if at.queue == [] && at.closed then LastFlush else Waiting
  {
    OthersLeaveConsumer(Advance(at, if tick then TickFires else Receive), during);
  }

  ghost function Collected(at: State, tick: bool): seq<Entry> {
    if !tick && at.queue != [] then at.batch + [at.queue[0]] else at.batch
  }

  lemma InsertStores(s: State, ok: bool)
    ensures var u := Advance(s, Insert(ok));
            if s.consumer == Flushing || s.consumer == LastFlush then
              && u.batch == [] && u.consumer == (if s.consumer == Flushing then Waiting else Stopped)
              && Stored(u) == Stored(s) + (if ok then s.batch else [])
              && FailedInserts(u) == FailedInserts(s) + (if ok then [] else s.batch)
            else u == s
  {
    RowsSnoc(s.flushes, OperationLog.Flush(s.batch, ok));
  }

  /** What one turn of the loop does to the table, whatever the others do meanwhile: a tick stores the batch;
      a received entry joins the batch and the hundredth sends it out; the end of the channel stores the
      rest and stops; an empty open channel leaves everything as it is. */
  lemma TurnStores(s: State, t: Turn)
    requires s.consumer == Waiting && |s.batch| < 100 && NotConsumer(t.before) && NotConsumer(t.during)
    ensures var at := Run(s, t.before);
            var u := Run(s, TurnSteps(t));
            var rows := if t.tick || at.queue == [] then s.batch else s.batch + [at.queue[0]];
            if t.tick || |rows| == 100 || (at.queue == [] && at.closed) then
              && u.batch == [] && u.consumer == (if t.tick || at.queue != [] then Waiting else Stopped)
              && Stored(u) == Stored(s) + (if t.ok then rows else [])
              && FailedInserts(u) == FailedInserts(s) + (if t.ok then [] else rows)
            else u.consumer == Waiting && u.batch == rows && u.flushes == s.flushes
  {
    var at := Run(s, t.before);
    TurnRuns(s, t);
    OthersLeaveConsumer(s, t.before);
    TurnCollects(at, t.tick, t.during);
    InsertStores(Advance(Run(Advance(at, if t.tick then TickFires else Receive), t.during), Append), t.ok);
  }

  class Recorder {
    /** The channel, the log table, and where the other goroutines stand. */
    var state: State

    constructor (capacity: nat)
      ensures state == Init(capacity)
    {
      state := Init(capacity);
    }

    /** What the other goroutines do in between. */
    method Others(steps: seq<Step>)
      modifies this
      ensures state == Run(old(state), steps)
    {
      for i := 0 to |steps|
        invariant Run(state, steps[i..]) == Run(old(state), steps)
      {
        assert steps[i..][1..] == steps[i + 1..];
        state := Advance(state, steps[i]);
      }
    }

    /** Record never blocks: at most three channel operations, each one step. It loses its entry only to
        a closed channel or when the place it freed was taken. */
    method Record(p: ProducerId, body: string, gap1: seq<Step>, gap2: seq<Step>)
      requires p !in state.pending && NotOf(gap1, p) && NotOf(gap2, p)
      modifies this
      ensures state == Run(old(state), if old(state.closed) || |old(state.queue)| < old(state.capacity) then [Send(p, body)]
                                       else [Send(p, body)] + gap1 + [Evict(p)] + gap2 + [Retry(p)])
      ensures p !in state.pending
    {
      var entry := Entry(p, |state.recorded|, body);
      RunOne(state, Send(p, body));
      state := state.(recorded := state.recorded + [entry]);
      if state.closed {
        state := state.(panicked := state.panicked + [entry]);
      } else if |state.queue| < state.capacity {
        state := Enqueue(state, entry);
      } else {
        state := state.(pending := state.pending[p := MustEvict(entry)]);
        ghost var s1 := state;
        Others(gap1);
        OthersLeaveCall(s1, gap1, p);
        ghost var s2 := state;
        if state.queue != [] {
          state := Dequeue(state, true);
        }
        state := state.(pending := state.pending[p := MustRetry(entry)]);
        assert state == Advance(s2, Evict(p));
        ghost var s3 := state;
        Others(gap2);
        OthersLeaveCall(s3, gap2, p);
        ghost var s4 := state;
        state := state.(pending := state.pending - {p});
        if state.closed {
          state := state.(panicked := state.panicked + [entry]);
        } else if |state.queue| < state.capacity {
          state := Enqueue(state, entry);
        } else {
          state := state.(abandoned := state.abandoned + [entry]);
        }
        assert state == Advance(s4, Retry(p));
        RecordScript(old(state), p, body, gap1, gap2);
      }
    }

    /** Insert the batch and start an empty one; a failed insert is logged and dropped. */
    method Flush(batch: seq<Entry>, ok: bool) returns (rest: seq<Entry>)
      requires batch == state.batch && (state.consumer == Flushing || state.consumer == LastFlush)
      modifies this
      ensures state == Advance(old(state), Insert(ok)) && rest == []
    {
      if |batch| > 0 {
        state := state.(flushes := state.flushes + [OperationLog.Flush(batch, ok)]);
      }
      rest := [];
      state := state.(batch := rest, consumer := if state.consumer == LastFlush then Stopped else Waiting);
    }

    /** The select of the loop: a tick, the oldest entry, the end of a closed channel, or nothing yet. */
    method Select(tick: bool)
      requires state.consumer == Waiting
      modifies this
      ensures state == Advance(old(state), if tick then TickFires else Receive)
      ensures tick ==> state == old(state).(consumer := Flushing)
      ensures !tick && old(state).queue != [] ==> state.consumer == Building(old(state).queue[0]) && state.queue == old(state).queue[1..]
    {
      if tick {
        state := state.(consumer := Flushing);
      } else if state.queue != [] {
        state := Dequeue(state.(consumer := Building(state.queue[0])), false);
      } else if state.closed {
        state := state.(consumer := LastFlush);
      }
    }

    /** What the loop does with what it selected. */
    method Handle(batch: seq<Entry>, ok: bool) returns (rest: seq<Entry>)
      requires batch == state.batch
      modifies this
      ensures state == Advance(Advance(old(state), Append), Insert(ok)) && rest == state.batch
    {
      rest := batch;
      if state.consumer.Building? {
        rest := rest + [state.consumer.entry];
        state := state.(batch := rest, consumer := if |rest| >= FLUSH_SIZE then Flushing else Waiting);
        if |rest| >= FLUSH_SIZE {
          rest := Flush(rest, ok);
        }
      } else if state.consumer == Flushing || state.consumer == LastFlush {
        rest := Flush(rest, ok);
      }
    }

    /** One turn of the loop, with what the others do while it waits and while it builds a row. */
    method TakeTurn(turn: Turn, batch: seq<Entry>) returns (rest: seq<Entry>)
      requires state.consumer == Waiting && batch == state.batch
      requires NotConsumer(turn.before) && NotConsumer(turn.during)
      modifies this
      ensures state == Run(old(state), TurnSteps(turn)) && rest == state.batch
      ensures state.consumer == Waiting || state.consumer == Stopped
    {
      TurnRuns(state, turn);
      OthersLeaveConsumer(state, turn.before);
      Others(turn.before);
      Select(turn.tick);
      OthersLeaveConsumer(state, turn.during);
      Others(turn.during);
      rest := Handle(batch, turn.ok);
    }

    /** The consumer's loop. It runs until the channel is closed and empty or the turns are used up, and
        it is exactly its own steps interleaved with the others'. */
    method Consume(turns: seq<Turn>) returns (used: nat)
      requires state.consumer == Waiting
      requires forall i :: 0 <= i < |turns| ==> NotConsumer(turns[i].before) && NotConsumer(turns[i].during)
      modifies this
      ensures used <= |turns| && state == Run(old(state), Steps(turns[..used]))
      ensures state.consumer == Stopped || (state.consumer == Waiting && used == |turns|)
    {
      var batch := state.batch;
      used := 0;
      while used < |turns| && state.consumer != Stopped
        invariant used <= |turns| && batch == state.batch
        invariant state.consumer == Waiting || state.consumer == Stopped
        invariant state == Run(old(state), Steps(turns[..used]))
        decreases |turns| - used
      {
        StepsGrow(old(state), turns, used);
        batch := TakeTurn(turns[used], batch);
        used := used + 1;
      }
    }
  }

  lemma StepsGrow(s: State, turns: seq<Turn>, used: nat)
    requires used < |turns|
    ensures Run(s, Steps(turns[..used + 1])) == Run(Run(s, Steps(turns[..used])), TurnSteps(turns[used]))
  {
    assert turns[..used + 1][..used] == turns[..used];
    RunInParts(s, Steps(turns[..used]), TurnSteps(turns[used]));
  }

  lemma RecordScript(s: State, p: ProducerId, body: string, gap1: seq<Step>, gap2: seq<Step>)
    ensures Run(s, [Send(p, body)] + gap1 + [Evict(p)] + gap2 + [Retry(p)])
         == Advance(Run(Advance(Run(Advance(s, Send(p, body)), gap1), Evict(p)), gap2), Retry(p))
  {
    RunInParts(s, [Send(p, body)] + gap1 + [Evict(p)] + gap2, [Retry(p)]);
    RunInParts(s, [Send(p, body)] + gap1 + [Evict(p)], gap2);
    RunInParts(s, [Send(p, body)] + gap1, [Evict(p)]);
    RunInParts(s, [Send(p, body)], gap1);
    RunOne(s, Send(p, body));
    RunOne(Run(s, [Send(p, body)] + gap1), Evict(p));
    RunOne(Run(s, [Send(p, body)] + gap1 + [Evict(p)] + gap2), Retry(p));
  }

  // ---------------------------------------------------------------- clean-up

  /** The rows older than the limit, and what remains without them. */
  function Expired(rows: map<nat, int>, before: int): set<nat> {
    set id | id in rows && rows[id] < before
  }

  class LogTable {
    /** Row id to creation time. */
    var rows: map<nat, int>

    /** One delete of at most a thousand rows older than the limit, the database choosing which. */
    method DeleteBefore(before: int) returns (n: nat)
      modifies this
      ensures rows.Keys <= old(rows).Keys && rows == old(rows) - (old(rows).Keys - rows.Keys)
      ensures old(rows).Keys - rows.Keys <= Expired(old(rows), before)
      ensures |Expired(rows, before)| == |Expired(old(rows), before)| - n
      ensures n == if |Expired(old(rows), before)| < CLEAN_BATCH_SIZE then |Expired(old(rows), before)| else CLEAN_BATCH_SIZE
    {
      n := 0;
      while n < CLEAN_BATCH_SIZE && Expired(rows, before) != {}
        invariant n <= CLEAN_BATCH_SIZE
        invariant rows.Keys <= old(rows).Keys && forall id :: id in rows ==> rows[id] == old(rows)[id]
        invariant old(rows).Keys - rows.Keys <= Expired(old(rows), before)
        invariant |Expired(rows, before)| == |Expired(old(rows), before)| - n
        decreases CLEAN_BATCH_SIZE - n
      {
        var id :| id in Expired(rows, before);
        assert Expired(rows - {id}, before) == Expired(rows, before) - {id};
        rows := rows - {id};
        n := n + 1;
      }
    }

    /** Deletes until nothing older than 180 days is left, a thousand rows at a time and once more to see that
        nothing is. `failAt` is the delete the database fails, if any; the rows deleted before it stay so. */
    method CleanExpired(now: int, failAt: int) returns (total: nat, ok: bool)
      modifies this
      ensures rows == old(rows) - (old(rows).Keys - rows.Keys)
      ensures old(rows).Keys - rows.Keys <= Expired(old(rows), now - RETENTION)
      ensures total == |Expired(old(rows), now - RETENTION)| - |Expired(rows, now - RETENTION)|
      ensures ok ==> rows == old(rows) - Expired(old(rows), now - RETENTION)
      ensures forall id :: id in old(rows) && old(rows)[id] >= now - 180 * 86_400 ==> id in rows && rows[id] == old(rows)[id]
      ensures ok ==> forall id :: id in rows ==> rows[id] >= now - 180 * 86_400
      ensures var old180 := |Expired(old(rows), now - 180 * 86_400)|;
              && (ok <==> failAt < 0 || 1000 * (failAt - 1) >= old180)
              && (!ok ==> total == if old180 < 1000 * failAt then old180 else 1000 * failAt)
    {
      var before := now - RETENTION;
      total := 0;
      var calls := 0;
      while true
        invariant rows.Keys <= old(rows).Keys && forall id :: id in rows ==> rows[id] == old(rows)[id]
        invariant old(rows).Keys - rows.Keys <= Expired(old(rows), before)
        invariant total == |Expired(old(rows), before)| - |Expired(rows, before)|
        invariant calls >= 0 && (failAt < 0 || calls <= failAt)
        invariant total == if |Expired(old(rows), before)| < 1000 * calls then |Expired(old(rows), before)| else 1000 * calls
        invariant calls > 0 ==> 1000 * (calls - 1) < |Expired(old(rows), before)|
        decreases |Expired(rows, before)|
      {
        if calls == failAt {
          return total, false;
        }
        calls := calls + 1;
        var n := DeleteBefore(before);
        total := total + n;
        if n == 0 {
          assert Expired(rows, before) == {};
          forall id | id in rows ensures id !in Expired(old(rows), before) {
            assert id !in Expired(rows, before);
          }
          return total, true;
        }
      }
    }
  }
}
