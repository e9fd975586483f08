/** The idempotent upsert of session features, called concurrently for the same session key.

    Save reads the row, inserts it or updates it under a status guard, and reads again on conflict.
    Each database statement is atomic; any number of calls interleave between statements. */
module SessionFeatures {
  import opened Base

  type Key = string
  type CallId = nat

  datatype Status = Success | Failed | Skipped
  /** The business columns a call wants to store; `body` stands for all but key and status. */
  datatype Record = Record(key: Key, status: Status, body: string)
  /** A stored row keeps its id for ever; an update overwrites the business columns in place. */
  datatype Row = Row(id: nat, record: Record)

  predicate IsTerminal(status: Status) {
    status == Success || status == Skipped
  }

  datatype Answer = Wrote | Reused | Error

  /** Where a call stands: which statement it runs next, or what it answered. */
  datatype Pc =
    | Reading
    | Inserting
    | Rereading
    | Updating(id: nat, status: Status)
    | Checking
    | Done(answer: Answer)

  datatype Call = Call(record: Record, pc: Pc)

  /** A completed call, in the order in which the completing statements ran. */
  datatype Event = Event(call: CallId, record: Record, answer: Answer)

  /** The table under its unique index on the key, the calls, and the completion history. */
  datatype State = State(table: map<Key, Row>, calls: map<CallId, Call>, log: seq<Event>)

  const INIT := State(map[], map[], [])

  datatype Step =
    | Start(call: CallId, record: Record)
    | Tick(call: CallId, freshId: nat)

  // ---------------------------------------------------------------- one statement

  /** What follows from finding a row: reuse a terminal one, else update it under what was seen. */
  function OnRow(row: Row): Pc {
    if IsTerminal(row.record.status) then Done(Reused) else Updating(row.id, row.record.status)
  }

  /** The next statement of a call: the table it leaves and where the call stands afterwards. */
  function Statement(table: map<Key, Row>, c: Call, freshId: nat): (map<Key, Row>, Pc) {
    var key := c.record.key;
    match c.pc
    case Reading => (table, if key in table then OnRow(table[key]) else Inserting)
    case Inserting =>
      if key in table then (table, Rereading) else (table[key := Row(freshId, c.record)], Done(Wrote))
    case Rereading => (table, if key in table then OnRow(table[key]) else Done(Error))
    case Updating(id, status) =>
      if key in table && table[key].id == id && table[key].record.status == status
      then (table[key := Row(id, c.record)], Done(Wrote)) else (table, Checking)
    case Checking =>
      (table, if key in table && IsTerminal(table[key].record.status) then Done(Reused) else Done(Error))
    case Done(_) => (table, c.pc)
  }

  function Advance(s: State, step: Step): State {
    match step
    case Start(call, record) =>
      if call in s.calls then s else s.(calls := s.calls[call := Call(record, Reading)])
    case Tick(call, freshId) =>
      if call !in s.calls || s.calls[call].pc.Done? then s
      else
        var c := s.calls[call];
        var (table, pc) := Statement(s.table, c, freshId);
        State(table, s.calls[call := c.(pc := pc)],
              if pc.Done? then s.log + [Event(call, c.record, pc.answer)] else s.log)
  }

  function Run(s: State, steps: seq<Step>): State
    decreases |steps|
  {
    if steps == [] then s else Run(Advance(s, steps[0]), steps[1..])
  }

  // ---------------------------------------------------------------- the sequential specification

  /** Save as one indivisible operation on the stored records. */
  function SaveAtomically(records: map<Key, Record>, r: Record): (map<Key, Record>, Answer) {
    if r.key in records && IsTerminal(records[r.key].status) then (records, Reused)
    else (records[r.key := r], Wrote)
  }

  function Replay(log: seq<Event>): map<Key, Record> {
    if log == [] then map[] else SaveAtomically(Replay(log[..|log| - 1]), log[|log| - 1].record).0
  }

  /** Each call of the history got the answer the indivisible operation would have given it. */
  predicate Legal(log: seq<Event>) {
    log == [] || (Legal(log[..|log| - 1])
                  && log[|log| - 1].answer == SaveAtomically(Replay(log[..|log| - 1]), log[|log| - 1].record).1)
  }

  function Contents(table: map<Key, Row>): map<Key, Record> {
    map k | k in table :: table[k].record
  }

  // ---------------------------------------------------------------- the invariant

  /** What a call knows about the table, however long ago it looked. */
  ghost predicate CallSound(table: map<Key, Row>, c: Call) {
    match c.pc
    case Reading => true
    case Inserting => true
    case Rereading => c.record.key in table
    case Updating(id, status) =>
      c.record.key in table && table[c.record.key].id == id && status == Failed
    case Checking => c.record.key in table && IsTerminal(table[c.record.key].record.status)
    case Done(answer) =>
      answer != Error && (answer == Reused ==> c.record.key in table && IsTerminal(table[c.record.key].record.status))
  }

  /** Completed calls are in the history exactly once, others not at all. */
  ghost predicate LogMatchesCalls(s: State) {
    && (forall i :: 0 <= i < |s.log| ==>
          s.log[i].call in s.calls && s.calls[s.log[i].call] == Call(s.log[i].record, Done(s.log[i].answer)))
    && (forall i, j :: 0 <= i < j < |s.log| ==> s.log[i].call != s.log[j].call)
    && (forall k :: k in s.calls && s.calls[k].pc.Done? ==> Logged(s.log, k))
  }

  ghost predicate Logged(log: seq<Event>, call: CallId) {
    exists i :: 0 <= i < |log| && log[i].call == call
  }

  ghost predicate CallsSound(s: State) {
    forall k :: k in s.calls ==> CallSound(s.table, s.calls[k])
  }

  ghost predicate KeysMatch(table: map<Key, Row>) {
    forall k :: k in table ==> table[k].record.key == k
  }

  ghost predicate Linearized(s: State) {
    && Legal(s.log) && Replay(s.log) == Contents(s.table)
    && KeysMatch(s.table) && LogMatchesCalls(s) && CallsSound(s)
  }

  /** Rows keep their ids and terminal rows keep everything, so what other calls know stays true. */
  ghost predicate TableMonotone(before: map<Key, Row>, after: map<Key, Row>) {
    forall k :: k in before ==>
      k in after && after[k].id == before[k].id && (IsTerminal(before[k].record.status) ==> after[k] == before[k])
  }

  lemma StatementIsSound(table: map<Key, Row>, c: Call, freshId: nat)
    requires CallSound(table, c) && !c.pc.Done?
    ensures var (after, pc) := Statement(table, c, freshId);
            TableMonotone(table, after) && CallSound(after, c.(pc := pc))
  {
  }

  lemma OthersStaySound(before: map<Key, Row>, after: map<Key, Row>, c: Call)
    requires TableMonotone(before, after) && CallSound(before, c)
    ensures CallSound(after, c)
  {
  }

  /** The statement that completes a call does exactly what the indivisible Save does at that point;
      every other statement leaves the table alone. */
  lemma CompletingStatementIsSave(table: map<Key, Row>, c: Call, freshId: nat)
    requires CallSound(table, c) && !c.pc.Done?
    ensures var (after, pc) := Statement(table, c, freshId);
            if pc.Done? then SaveAtomically(Contents(table), c.record) == (Contents(after), pc.answer)
            else after == table
  {
    var (after, pc) := Statement(table, c, freshId);
    if pc == Done(Wrote) {
      assert Contents(after) == Contents(table)[c.record.key := c.record];
    }
  }

  lemma LegalSnoc(log: seq<Event>, e: Event)
    ensures Replay(log + [e]) == SaveAtomically(Replay(log), e.record).0
    ensures Legal(log + [e]) <==> Legal(log) && e.answer == SaveAtomically(Replay(log), e.record).1
  {
    assert (log + [e])[..|log|] == log;
  }

  lemma LoggedGrows(s: State, call: CallId, c: Call, e: Event)
    requires LogMatchesCalls(s) && call in s.calls && !s.calls[call].pc.Done?
    requires e == Event(call, c.record, e.answer) && c.pc == Done(e.answer)
    ensures LogMatchesCalls(State(s.table, s.calls[call := c], s.log + [e]))
  {
    var log := s.log + [e];
    forall k | k in s.calls[call := c] && s.calls[call := c][k].pc.Done? ensures Logged(log, k) {
      if k == call {
        assert log[|s.log|].call == k;
      } else {
        assert Logged(s.log, k);
        var i :| 0 <= i < |s.log| && s.log[i].call == k;
        assert log[i].call == k;
      }
    }
  }

  lemma LoggedWaits(s: State, table: map<Key, Row>, call: CallId, c: Call)
    requires LogMatchesCalls(s) && call in s.calls && !s.calls[call].pc.Done? && !c.pc.Done?
    ensures LogMatchesCalls(State(table, s.calls[call := c], s.log))
  {
  }

  predicate Runs(s: State, call: CallId) {
    call in s.calls && !s.calls[call].pc.Done?
  }

  lemma TickKeepsCalls(s: State, call: CallId, freshId: nat)
    requires CallsSound(s) && Runs(s, call)
    ensures CallsSound(Advance(s, Tick(call, freshId)))
    ensures TableMonotone(s.table, Advance(s, Tick(call, freshId)).table)
  {
    var table := Advance(s, Tick(call, freshId)).table;
    StatementIsSound(s.table, s.calls[call], freshId);
    forall k | k in s.calls && k != call ensures CallSound(table, s.calls[k]) {
      OthersStaySound(s.table, table, s.calls[k]);
    }
  }

  lemma TickKeepsHistory(s: State, call: CallId, freshId: nat)
    requires Linearized(s) && Runs(s, call)
    ensures var after := Advance(s, Tick(call, freshId));
            Legal(after.log) && Replay(after.log) == Contents(after.table) && LogMatchesCalls(after)
  {
    var c := s.calls[call];
    var (table, pc) := Statement(s.table, c, freshId);
    CompletingStatementIsSave(s.table, c, freshId);
    if pc.Done? {
      var e := Event(call, c.record, pc.answer);
      LegalSnoc(s.log, e);
      LoggedGrows(s, call, c.(pc := pc), e);
    } else {
      LoggedWaits(s, table, call, c.(pc := pc));
    }
  }

  lemma StatementKeepsKeys(table: map<Key, Row>, c: Call, freshId: nat)
    requires KeysMatch(table)
    ensures KeysMatch(Statement(table, c, freshId).0)
  {
  }

  lemma StartKeepsLinearized(s: State, call: CallId, record: Record)
    requires Linearized(s)
    ensures Linearized(Advance(s, Start(call, record)))
  {
    if call !in s.calls {
      var after := Advance(s, Start(call, record));
      forall k | k in after.calls && after.calls[k].pc.Done? ensures Logged(after.log, k) {
        assert Logged(s.log, k);
      }
    }
  }

  lemma TickKeepsLinearized(s: State, call: CallId, freshId: nat)
    requires Linearized(s) && Runs(s, call)
    ensures Linearized(Advance(s, Tick(call, freshId)))
    ensures TableMonotone(s.table, Advance(s, Tick(call, freshId)).table)
  {
    TickKeepsCalls(s, call, freshId);
    TickKeepsHistory(s, call, freshId);
    StatementKeepsKeys(s.table, s.calls[call], freshId);
  }

  lemma StepKeepsLinearized(s: State, step: Step)
    requires Linearized(s)
    ensures Linearized(Advance(s, step))
    ensures TableMonotone(s.table, Advance(s, step).table)
  {
    match step
    case Start(call, record) => StartKeepsLinearized(s, call, record);
    case Tick(call, freshId) => if Runs(s, call) { TickKeepsLinearized(s, call, freshId); }
  }

  /** For any number of interleaved callers: the history of completions is a legal sequential history of
      indivisible saves, and it explains the table. */
  lemma {:induction false} EveryRunIsLinearized(s: State, steps: seq<Step>)
    requires Linearized(s)
    ensures Linearized(Run(s, steps)) && TableMonotone(s.table, Run(s, steps).table)
    decreases |steps|
  {
    if steps != [] {
      StepKeepsLinearized(s, steps[0]);
      EveryRunIsLinearized(Advance(s, steps[0]), steps[1..]);
    }
  }

  lemma InitIsLinearized()
    ensures Linearized(INIT)
  {
  }

  /** "Converged to a non-terminal state" cannot be answered while rows are never deleted. */
  lemma ErrorIsUnreachable(steps: seq<Step>, call: CallId)
    requires call in Run(INIT, steps).calls
    ensures Run(INIT, steps).calls[call].pc != Done(Error)
  {
    InitIsLinearized();
    EveryRunIsLinearized(INIT, steps);
    assert CallSound(Run(INIT, steps).table, Run(INIT, steps).calls[call]);
  }

  /** The history respects real time: a call that had answered before another began precedes it. */
  lemma {:induction false} RealTimeOrder(s: State, steps: seq<Step>, early: CallId, late: CallId)
    requires Linearized(s) && early in s.calls && s.calls[early].pc.Done? && late !in s.calls
    ensures s.log <= Run(s, steps).log
    ensures Logged(s.log, early) && !Logged(s.log, late)
    decreases |steps|
  {
    LogOnlyGrows(s, steps);
  }

  lemma {:induction false} LogOnlyGrows(s: State, steps: seq<Step>)
    ensures s.log <= Run(s, steps).log
    decreases |steps|
  {
    if steps != [] { LogOnlyGrows(Advance(s, steps[0]), steps[1..]); }
  }

  // ---------------------------------------------------------------- progress

  /** How many statements a call may still run. */
  function StatementsLeft(pc: Pc): nat {
    match pc
    case Reading => 5
    case Inserting => 4
    case Rereading => 3
    case Updating(_, _) => 2
    case Checking => 1
    case Done(_) => 0
  }

  /** Whatever the others do, a call answers after at most five of its own statements. */
  lemma EveryStatementIsProgress(s: State, call: CallId, freshId: nat)
    requires Runs(s, call)
    ensures call in Advance(s, Tick(call, freshId)).calls
    ensures StatementsLeft(Advance(s, Tick(call, freshId)).calls[call].pc) < StatementsLeft(s.calls[call].pc) <= 5
  {
  }

  lemma RunThree(s: State, a: Step, b: Step, c: Step)
    ensures Run(s, [a, b, c]) == Advance(Advance(Advance(s, a), b), c)
  {
    assert [a, b, c][1..] == [b, c] && [b, c][1..] == [c] && [c][1..] == [];
    assert Run(Advance(s, a), [b, c]) == Run(Advance(Advance(s, a), b), [c]);
  }

  lemma TwoStatementsSave(table: map<Key, Row>, record: Record, freshId: nat)
    ensures var first := Statement(table, Call(record, Reading), freshId);
            var (after, pc) := if first.1.Done? then first else Statement(first.0, Call(record, first.1), freshId);
            && pc.Done? && (Contents(after), pc.answer) == SaveAtomically(Contents(table), record) && record.key in after
            && after[record.key].id == if record.key in table then table[record.key].id else freshId
  {
    var first := Statement(table, Call(record, Reading), freshId);
    if !first.1.Done? {
      var after := Statement(first.0, Call(record, first.1), freshId).0;
      assert Contents(after) == Contents(table)[record.key := record];
    }
  }

  /** A call alone on the table: it answers and leaves what the indivisible save would, under the id its key
      already has or else the fresh one, and is logged. */
  lemma CallAlone(s: State, call: CallId, record: Record, freshId: nat)
    requires call !in s.calls
    ensures var after := Run(s, [Start(call, record), Tick(call, freshId), Tick(call, freshId)]);
            && call in after.calls && after.calls[call].pc.Done?
            && (Contents(after.table), after.calls[call].pc.answer) == SaveAtomically(Contents(s.table), record)
            && record.key in after.table
            && after.table[record.key].id == (if record.key in s.table then s.table[record.key].id else freshId)
            && after.log == s.log + [Event(call, record, after.calls[call].pc.answer)]
  {
    RunThree(s, Start(call, record), Tick(call, freshId), Tick(call, freshId));
    TwoStatementsSave(s.table, record, freshId);
  }

  /** A terminal row is reused on the first look. */
  lemma TerminalRowIsReusedAtOnce(s: State, call: CallId, record: Record, freshId: nat)
    requires call !in s.calls && record.key in s.table && IsTerminal(s.table[record.key].record.status)
    ensures Advance(Advance(s, Start(call, record)), Tick(call, freshId)).calls[call].pc == Done(Reused)
    ensures Advance(Advance(s, Start(call, record)), Tick(call, freshId)).table == s.table
  {
  }

  // ---------------------------------------------------------------- what a legal history means

  /** The last record actually written for a key, if any. */
  function LastWrite(log: seq<Event>, key: Key): Option<Record> {
    if log == [] then None
    else
      var e := log[|log| - 1];
      if e.record.key == key && e.answer == Wrote then Some(e.record) else LastWrite(log[..|log| - 1], key)
  }

  /** What is stored for a key is what was written for it last. */
  lemma {:induction false} StoredIsLastWrite(log: seq<Event>, key: Key)
    requires Legal(log)
    ensures match LastWrite(log, key)
            case None => key !in Replay(log)
            case Some(r) => key in Replay(log) && Replay(log)[key] == r
  {
    if log != [] { StoredIsLastWrite(log[..|log| - 1], key); }
  }

  /** Once a terminal record is written for a key, every later call on that key answers "reused". */
  lemma {:induction false} OneTerminalWritePerKey(log: seq<Event>, i: nat, j: nat)
    requires Legal(log) && i < j < |log|
    requires log[i].answer == Wrote && IsTerminal(log[i].record.status) && log[j].record.key == log[i].record.key
    ensures log[j].answer == Reused
  {
    var init := log[..|log| - 1];
    if j < |init| {
      OneTerminalWritePerKey(init, i, j);
    } else {
      TerminalStays(init, i);
    }
  }

  lemma {:induction false} TerminalStays(log: seq<Event>, i: nat)
    requires Legal(log) && i < |log| && log[i].answer == Wrote && IsTerminal(log[i].record.status)
    ensures log[i].record.key in Replay(log) && Replay(log)[log[i].record.key] == log[i].record
  {
    if i < |log| - 1 { TerminalStays(log[..|log| - 1], i); }
  }

  // ---------------------------------------------------------------- the call as one method

  /** A write other callers may commit: an insert that loses against an existing row, or an update of a
      failed row under its guard. */
  datatype Write = Insert(record: Record, id: nat) | Overwrite(record: Record, id: nat)

  function ApplyWrite(table: map<Key, Row>, w: Write): map<Key, Row> {
    match w
    case Insert(r, id) => if r.key in table then table else table[r.key := Row(id, r)]
    case Overwrite(r, id) =>
      if r.key in table && table[r.key].id == id && table[r.key].record.status == Failed
      then table[r.key := Row(id, r)] else table
  }

  function ApplyWrites(table: map<Key, Row>, ws: seq<Write>): map<Key, Row>
    decreases |ws|
  {
    if ws == [] then table else ApplyWrites(ApplyWrite(table, ws[0]), ws[1..])
  }

  lemma {:induction false} WritesAreMonotone(table: map<Key, Row>, ws: seq<Write>)
    ensures TableMonotone(table, ApplyWrites(table, ws))
    decreases |ws|
  {
    if ws != [] { WritesAreMonotone(ApplyWrite(table, ws[0]), ws[1..]); }
  }

  lemma {:induction false} WritesAppend(table: map<Key, Row>, first: seq<Write>, second: seq<Write>)
    ensures ApplyWrites(table, first + second) == ApplyWrites(ApplyWrites(table, first), second)
    decreases |first|
  {
    if first == [] {
      assert first + second == second;
    } else {
      assert (first + second)[1..] == first[1..] + second;
      WritesAppend(ApplyWrite(table, first[0]), first[1..], second);
    }
  }

  lemma StatementIsWrite(table: map<Key, Row>, c: Call, freshId: nat) returns (ws: seq<Write>)
    requires CallSound(table, c) && !c.pc.Done?
    ensures ApplyWrites(table, ws) == Statement(table, c, freshId).0
  {
    var after := Statement(table, c, freshId).0;
    if after == table {
      ws := [];
    } else if c.pc.Inserting? {
      ws := [Insert(c.record, freshId)];
    } else {
      ws := [Overwrite(c.record, c.pc.id)];
    }
    if ws != [] { assert ws[1..] == []; }
  }

  /** Whatever any number of other calls do to the table meanwhile is such a list of writes, so the gaps of a
      call leave nothing out. */
  lemma {:induction false} RunIsWrites(s: State, steps: seq<Step>) returns (ws: seq<Write>)
    requires Linearized(s)
    ensures ApplyWrites(s.table, ws) == Run(s, steps).table
    decreases |steps|
  {
    ws := [];
    if steps != [] {
      var first: seq<Write> := [];
      if steps[0].Tick? && Runs(s, steps[0].call) {
        first := StatementIsWrite(s.table, s.calls[steps[0].call], steps[0].freshId);
      }
      StepKeepsLinearized(s, steps[0]);
      var rest := RunIsWrites(Advance(s, steps[0]), steps[1..]);
      WritesAppend(s.table, first, rest);
      ws := first + rest;
    }
  }

  class Repository {
    var rows: map<Key, Row>

    constructor ()
      ensures rows == map[]
    {
      rows := map[];
    }

    method Interfere(ws: seq<Write>)
      modifies this
      ensures rows == ApplyWrites(old(rows), ws)
    {
      for i := 0 to |ws|
        invariant ApplyWrites(rows, ws[i..]) == ApplyWrites(old(rows), ws)
      {
        assert ws[i..][1..] == ws[i + 1..];
        rows := ApplyWrite(rows, ws[i]);
      }
    }

    /** Save with other callers' writes in the gaps between its statements. It never fails, and it acts as the
        indivisible Save on the table left by `done`, a prefix of the writes in the gaps it goes through. */
    method Save(record: Record, freshId: nat, gap1: seq<Write>, gap2: seq<Write>, gap3: seq<Write>, gap4: seq<Write>)
      returns (answer: Answer, ghost done: seq<Write>)
      modifies this
      ensures answer != Error
      ensures done <= (if record.key in old(rows) then [] else gap1 + gap2) + (gap3 + gap4)
      ensures (Contents(rows), answer) == SaveAtomically(Contents(ApplyWrites(old(rows), done)), record)
      ensures TableMonotone(old(rows), rows)
    {
      ghost var start := rows;
      WritesAreMonotone(rows, gap1);
      if record.key in rows {
        var existing := rows[record.key];
        answer, done := ApplyExisting(record, existing, gap3, gap4);
        assert [] + (gap3 + gap4) == gap3 + gap4;
        return;
      }
      Interfere(gap1);
      if record.key !in rows {
        done := gap1;
        ghost var seen := rows;
        rows := rows[record.key := Row(freshId, record)];
        assert Contents(rows) == Contents(seen)[record.key := record];
        return Wrote, done;
      }
      WritesAreMonotone(rows, gap2);
      Interfere(gap2);
      var existing := rows[record.key];
      ghost var before := rows;
      ghost var later: seq<Write>;
      answer, later := ApplyExisting(record, existing, gap3, gap4);
      done := gap1 + gap2 + later;
      WritesAppend(start, gap1, gap2);
      WritesAppend(start, gap1 + gap2, later);
    }

    /** Converge on an existing row: reuse a terminal one, else update it if it is still as it was read. */
    method ApplyExisting(record: Record, existing: Row, gap3: seq<Write>, gap4: seq<Write>)
      returns (answer: Answer, ghost done: seq<Write>)
      requires record.key in rows && existing == rows[record.key]
      modifies this
      ensures answer != Error
      ensures done <= gap3 + gap4
      ensures (Contents(rows), answer) == SaveAtomically(Contents(ApplyWrites(old(rows), done)), record)
      ensures TableMonotone(old(rows), rows)
    {
      ghost var start := rows;
      if IsTerminal(existing.record.status) {
        return Reused, [];
      }
      WritesAreMonotone(rows, gap3);
      Interfere(gap3);
      if record.key in rows && rows[record.key].id == existing.id && rows[record.key].record.status == existing.record.status {
        done := gap3;
        ghost var seen := rows;
        rows := rows[record.key := Row(existing.id, record)];
        assert Contents(rows) == Contents(seen)[record.key := record];
        return Wrote, done;
      }
      done := gap3 + gap4;
      WritesAppend(start, gap3, gap4);
      WritesAreMonotone(rows, gap4);
      Interfere(gap4);
      if record.key in rows && IsTerminal(rows[record.key].record.status) {
        return Reused, done;
      }
      assert false;
      return Error, done;
    }
  }
}
