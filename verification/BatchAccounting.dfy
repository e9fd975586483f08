/** Assessment batches: counters kept by increments, and the person rows they count.

    Each repository transaction is one atomic step. Delivery is at least once, so the same person may be
    advanced again at any time. */
module BatchAccounting {
  type Id = nat
  type Name = string

  datatype PersonStatus = Pending | Success | Reused | Degraded | Skipped | Failed
  datatype BatchStatus = Running | Succeeded | PartialFailed | Broken

  /** `counted` is not a column: it remembers how many sessions the row added to the covered counter. */
  datatype Person = Person(name: Name, status: PersonStatus, error: string, counted: nat)

  /** `expanded` stands for a target list other than the skeleton's "[]". */
  datatype Batch = Batch(status: BatchStatus, expanded: bool, total: nat, evaluated: nat, failed: nat, covered: nat, error: string)

  datatype Db = Db(batches: map<Id, Batch>, people: map<Id, seq<Person>>)

  const EMPTY := Db(map[], map[])

  const ERROR_SUMMARY_MAX := 255

  datatype Op =
    | Create(id: Id, names: seq<Name>, expanded: bool)
    | Expand(id: Id, names: seq<Name>)
    | Advance(id: Id, name: Name, status: PersonStatus, error: string, sessions: nat)
    | Finalize(id: Id, outcome: BatchStatus)
    | Delete(id: Id)
    | FailWhole(id: Id, reason: string)

  // ---------------------------------------------------------------- the transactions

  function Truncate(s: string): string {
    if |s| <= ERROR_SUMMARY_MAX then s else s[..ERROR_SUMMARY_MAX]
  }

  function PendingRows(names: seq<Name>): seq<Person> {
    seq(|names|, i requires 0 <= i < |names| => Person(names[i], Pending, "", 0))
  }

  /** The unique key over batch and person. */
  predicate Distinct(names: seq<Name>) {
    forall i, j :: 0 <= i < j < |names| ==> names[i] != names[j]
  }

  /** New rows violate no unique key: no name twice, none that has a row already. */
  predicate Insertable(rows: seq<Person>, names: seq<Name>) {
    Distinct(names) && forall i, j :: 0 <= i < |names| && 0 <= j < |rows| ==> names[i] != rows[j].name
  }

  function RowsOf(db: Db, id: Id): seq<Person> {
    if id in db.people then db.people[id] else []
  }

  /** The position of a person's pending row, or the number of rows. */
  function PendingAt(rows: seq<Person>, name: Name): nat
    decreases |rows|
  {
    if rows == [] then 0
    else if rows[0].name == name && rows[0].status == Pending then 0
    else 1 + PendingAt(rows[1..], name)
  }

  function Ended(p: Person, status: PersonStatus, error: string, sessions: nat): Person {
    if status == Failed then Person(p.name, Failed, Truncate(error), 0) else Person(p.name, status, "", sessions)
  }

  function Counted(b: Batch, status: PersonStatus, sessions: nat): Batch {
    if status == Failed then b.(evaluated := b.evaluated + 1, failed := b.failed + 1)
    else b.(evaluated := b.evaluated + 1, covered := b.covered + sessions)
  }

  function FailPending(rows: seq<Person>, reason: string): seq<Person> {
    seq(|rows|, i requires 0 <= i < |rows| =>
      if rows[i].status == Pending then Person(rows[i].name, Failed, reason, 0) else rows[i])
  }

  function FailedRows(rows: seq<Person>): nat
    decreases |rows|
  {
    if rows == [] then 0
    else FailedRows(rows[..|rows| - 1]) + if rows[|rows| - 1].status == Failed then 1 else 0
  }

  function Recounted(b: Batch, rows: seq<Person>, reason: string): Batch {
    b.(status := Broken, error := reason, evaluated := |rows|, failed := FailedRows(rows))
  }

  /** The committed effect of one transaction; a refused or rolled-back one changes nothing. */
  function Apply(db: Db, op: Op): Db {
    match op
    case Create(id, names, expanded) =>
      if id in db.batches || !Distinct(names) then db
      else Db(db.batches[id := Batch(Running, expanded, |names|, 0, 0, 0, "")], db.people[id := PendingRows(names)])
    case Expand(id, names) =>
      if id !in db.batches || db.batches[id].expanded || names == [] || !Insertable(RowsOf(db, id), names) then db
      else Db(db.batches[id := db.batches[id].(expanded := true, total := |names|)],
              db.people[id := RowsOf(db, id) + PendingRows(names)])
    case Advance(id, name, status, error, sessions) =>
      var rows := RowsOf(db, id);
      var i := PendingAt(rows, name);
      if i >= |rows| then db
      else Db(if id in db.batches then db.batches[id := Counted(db.batches[id], status, sessions)] else db.batches,
              db.people[id := rows[i := Ended(rows[i], status, error, sessions)]])
    case Finalize(id, outcome) =>
      if id !in db.batches || db.batches[id].status != Running then db
      else db.(batches := db.batches[id := db.batches[id].(status := outcome)])
    case Delete(id) =>
      if id !in db.batches || db.batches[id].status != Running then db
      else Db(db.batches - {id}, db.people - {id})
    case FailWhole(id, reason) =>
      if id !in db.batches || db.batches[id].status != Running then db
      else
        var rows := FailPending(RowsOf(db, id), Truncate(reason));
        Db(db.batches[id := Recounted(db.batches[id], rows, Truncate(reason))], db.people[id := rows])
  }

  function NamesOf(rows: seq<Person>): seq<Name> {
    seq(|rows|, i requires 0 <= i < |rows| => rows[i].name)
  }

  function Run(db: Db, ops: seq<Op>): Db
    decreases |ops|
  {
    if ops == [] then db else Run(Apply(db, ops[0]), ops[1..])
  }

  /** Callers advance to terminal states, and create either a full batch or a skeleton to be expanded. */
  predicate GoodOp(op: Op) {
    match op
    case Create(_, names, expanded) => expanded || names == []
    case Advance(_, _, status, _, _) => status != Pending
    case _ => true
  }

  predicate GoodOps(ops: seq<Op>) {
    forall i :: 0 <= i < |ops| ==> GoodOp(ops[i])
  }

  // ---------------------------------------------------------------- the rows, counted

  function EndedRows(rows: seq<Person>): nat
    decreases |rows|
  {
    if rows == [] then 0
    else EndedRows(rows[..|rows| - 1]) + if rows[|rows| - 1].status != Pending then 1 else 0
  }

  function CoveredSessions(rows: seq<Person>): nat
    decreases |rows|
  {
    if rows == [] then 0 else CoveredSessions(rows[..|rows| - 1]) + rows[|rows| - 1].counted
  }

  /** The counters say what the rows say. */
  ghost predicate Accounted(b: Batch, rows: seq<Person>) {
    && b.total == |rows| && b.evaluated == EndedRows(rows) && b.failed == FailedRows(rows)
    && b.covered == CoveredSessions(rows) && (!b.expanded ==> rows == [])
  }

  ghost predicate RowShape(p: Person) {
    && (p.status == Pending || p.status == Failed ==> p.counted == 0)
    && (p.status != Failed ==> p.error == "") && |p.error| <= ERROR_SUMMARY_MAX
  }

  ghost predicate RowsShape(rows: seq<Person>) {
    Distinct(NamesOf(rows)) && forall i :: 0 <= i < |rows| ==> RowShape(rows[i])
  }

  ghost predicate Sound(db: Db) {
    && db.people.Keys == db.batches.Keys
    && (forall id :: id in db.batches ==> Accounted(db.batches[id], RowsOf(db, id)) && RowsShape(RowsOf(db, id)))
  }

  lemma {:induction false} PendingAtMeaning(rows: seq<Person>, name: Name)
    ensures PendingAt(rows, name) <= |rows|
    ensures PendingAt(rows, name) < |rows| ==>
              rows[PendingAt(rows, name)].name == name && rows[PendingAt(rows, name)].status == Pending
    ensures forall i :: 0 <= i < PendingAt(rows, name) ==> rows[i].name != name || rows[i].status != Pending
    decreases |rows|
  {
    if rows != [] && !(rows[0].name == name && rows[0].status == Pending) {
      PendingAtMeaning(rows[1..], name);
      forall i | 0 <= i < PendingAt(rows, name) ensures rows[i].name != name || rows[i].status != Pending {
        if i > 0 { assert rows[i] == rows[1..][i - 1]; }
      }
    }
  }

  lemma {:induction false} EndingOneRow(rows: seq<Person>, i: nat, p: Person)
    requires i < |rows| && rows[i].status == Pending && rows[i].counted == 0 && p.status != Pending
    ensures var after := rows[i := p];
            && EndedRows(after) == EndedRows(rows) + 1
            && FailedRows(after) == FailedRows(rows) + (if p.status == Failed then 1 else 0)
            && CoveredSessions(after) == CoveredSessions(rows) + p.counted
    decreases |rows|
  {
    var after := rows[i := p];
    var init := rows[..|rows| - 1];
    if i == |rows| - 1 {
      assert after[..|after| - 1] == init;
    } else {
      EndingOneRow(init, i, p);
      assert after[..|after| - 1] == init[i := p];
    }
  }

  lemma {:induction false} FreshRowsCount(names: seq<Name>)
    ensures var rows := PendingRows(names); EndedRows(rows) == 0 && FailedRows(rows) == 0 && CoveredSessions(rows) == 0
    decreases |names|
  {
    if names != [] {
      var init := names[..|names| - 1];
      FreshRowsCount(init);
      assert PendingRows(names)[..|names| - 1] == PendingRows(init);
    }
  }

  lemma {:induction false} FailPendingCount(rows: seq<Person>, reason: string)
    requires forall i :: 0 <= i < |rows| ==> RowShape(rows[i])
    ensures var after := FailPending(rows, reason);
            && EndedRows(after) == |rows| && CoveredSessions(after) == CoveredSessions(rows)
            && FailedRows(rows) <= FailedRows(after)
    ensures EndedRows(rows) <= |rows|
    decreases |rows|
  {
    if rows != [] {
      var init := rows[..|rows| - 1];
      FailPendingCount(init, reason);
      assert FailPending(rows, reason)[..|rows| - 1] == FailPending(init, reason);
    }
  }

  /** Freshly inserted rows have the counters of a new batch. */
  lemma FreshRowsAreAccounted(names: seq<Name>, b: Batch)
    requires Distinct(names) && b.total == |names| && b.evaluated == b.failed == b.covered == 0 && (b.expanded || names == [])
    ensures Accounted(b, PendingRows(names)) && RowsShape(PendingRows(names))
  {
    FreshRowsCount(names);
    assert NamesOf(PendingRows(names)) == names;
  }

  lemma CreateKeepsSound(db: Db, op: Op)
    requires Sound(db) && GoodOp(op) && op.Create?
    ensures Sound(Apply(db, op))
  {
    if op.id !in db.batches && Distinct(op.names) {
      var b := Batch(Running, op.expanded, |op.names|, 0, 0, 0, "");
      FreshRowsAreAccounted(op.names, b);
      OtherBatchesSound(db, op.id, b, PendingRows(op.names));
    }
  }

  /** Replacing one batch and its rows by a sound pair keeps everything sound. */
  lemma OtherBatchesSound(db: Db, id: Id, b: Batch, rows: seq<Person>)
    requires Sound(db) && Accounted(b, rows) && RowsShape(rows)
    ensures Sound(Db(db.batches[id := b], db.people[id := rows]))
  {
    var after := Db(db.batches[id := b], db.people[id := rows]);
    forall k | k in after.batches ensures Accounted(after.batches[k], RowsOf(after, k)) && RowsShape(RowsOf(after, k)) {
      if k != id { assert RowsOf(after, k) == RowsOf(db, k); }
    }
  }

  /** An unexpanded batch has no rows and no counts. */
  lemma SkeletonIsEmpty(db: Db, id: Id)
    requires Sound(db) && id in db.batches && !db.batches[id].expanded
    ensures RowsOf(db, id) == [] && db.batches[id].evaluated == db.batches[id].failed == db.batches[id].covered == 0
  {
    assert Accounted(db.batches[id], RowsOf(db, id));
  }

  lemma ExpandShape(db: Db, op: Op)
    requires op.Expand? && RowsOf(db, op.id) == [] && Apply(db, op) != db
    ensures op.id in db.batches && Distinct(op.names)
    ensures Apply(db, op) == Db(db.batches[op.id := db.batches[op.id].(expanded := true, total := |op.names|)],
                                db.people[op.id := PendingRows(op.names)])
  {
    assert [] + PendingRows(op.names) == PendingRows(op.names);
  }

  lemma ExpandKeepsSound(db: Db, op: Op)
    requires Sound(db) && op.Expand?
    ensures Sound(Apply(db, op))
  {
    if Apply(db, op) != db {
      var b := db.batches[op.id].(expanded := true, total := |op.names|);
      SkeletonIsEmpty(db, op.id);
      ExpandShape(db, op);
      FreshRowsAreAccounted(op.names, b);
      OtherBatchesSound(db, op.id, b, PendingRows(op.names));
    }
  }

  lemma AdvanceKeepsSound(db: Db, op: Op)
    requires Sound(db) && GoodOp(op) && op.Advance?
    ensures Sound(Apply(db, op))
  {
    var rows := RowsOf(db, op.id);
    var i := PendingAt(rows, op.name);
    PendingAtMeaning(rows, op.name);
    if i < |rows| {
      var p := Ended(rows[i], op.status, op.error, op.sessions);
      EndingOneRow(rows, i, p);
      assert NamesOf(rows[i := p]) == NamesOf(rows);
      OtherBatchesSound(db, op.id, Counted(db.batches[op.id], op.status, op.sessions), rows[i := p]);
    }
  }

  lemma FailWholeKeepsSound(db: Db, op: Op)
    requires Sound(db) && op.FailWhole?
    ensures Sound(Apply(db, op))
  {
    if Apply(db, op) != db {
      var rows := RowsOf(db, op.id);
      var after := FailPending(rows, Truncate(op.reason));
      FailPendingCount(rows, Truncate(op.reason));
      assert NamesOf(after) == NamesOf(rows);
      OtherBatchesSound(db, op.id, Recounted(db.batches[op.id], after, Truncate(op.reason)), after);
    }
  }

  lemma OpKeepsSound(db: Db, op: Op)
    requires Sound(db) && GoodOp(op)
    ensures Sound(Apply(db, op))
  {
    match op
    case Create(_, _, _) => CreateKeepsSound(db, op);
    case Expand(_, _) => ExpandKeepsSound(db, op);
    case Advance(_, _, _, _, _) => AdvanceKeepsSound(db, op);
    case FailWhole(_, _) => FailWholeKeepsSound(db, op);
    case Finalize(_, _) =>
    case Delete(_) =>
  }

  /** In every reachable state the counters agree with the rows, even after the bulk recount. */
  lemma {:induction false} EveryRunIsAccounted(db: Db, ops: seq<Op>)
    requires Sound(db) && GoodOps(ops)
    ensures Sound(Run(db, ops))
    decreases |ops|
  {
    if ops != [] {
      OpKeepsSound(db, ops[0]);
      EveryRunIsAccounted(Apply(db, ops[0]), ops[1..]);
    }
  }

  lemma EveryReachableDbIsAccounted(ops: seq<Op>)
    requires GoodOps(ops)
    ensures Sound(Run(EMPTY, ops))
  {
    EveryRunIsAccounted(EMPTY, ops);
  }

  // ---------------------------------------------------------------- what never goes back

  /** A batch that survives a step keeps its progress: counters do not fall, a final status and every
      ended person's row stay as they are. */
  ghost predicate OnlyForward(b: Batch, rows: seq<Person>, b': Batch, rows': seq<Person>) {
    && b.total <= b'.total && b.evaluated <= b'.evaluated && b.failed <= b'.failed && b.covered <= b'.covered
    && (b.status != Running ==> b'.status == b.status && b'.error == b.error) && (b.expanded ==> b'.expanded)
    && |rows| <= |rows'| && forall i :: 0 <= i < |rows| && rows[i].status != Pending ==> rows'[i] == rows[i]
  }

  lemma FailWholeIsForward(db: Db, op: Op)
    requires Sound(db) && op.FailWhole? && Apply(db, op) != db
    ensures var after := Apply(db, op);
            OnlyForward(db.batches[op.id], RowsOf(db, op.id), after.batches[op.id], RowsOf(after, op.id))
  {
    FailPendingCount(RowsOf(db, op.id), Truncate(op.reason));
  }

  lemma AdvanceIsForward(db: Db, op: Op)
    requires Sound(db) && op.Advance? && op.id in db.batches
    ensures var after := Apply(db, op);
            OnlyForward(db.batches[op.id], RowsOf(db, op.id), after.batches[op.id], RowsOf(after, op.id))
  {
    PendingAtMeaning(RowsOf(db, op.id), op.name);
  }

  lemma OpIsForward(db: Db, op: Op, id: Id)
    requires Sound(db) && GoodOp(op) && id in db.batches && id in Apply(db, op).batches
    ensures var after := Apply(db, op); OnlyForward(db.batches[id], RowsOf(db, id), after.batches[id], RowsOf(after, id))
    ensures op.id != id ==> Apply(db, op).batches[id] == db.batches[id] && RowsOf(Apply(db, op), id) == RowsOf(db, id)
  {
    if op.id == id && op.FailWhole? && Apply(db, op) != db {
      FailWholeIsForward(db, op);
    } else if op.id == id && op.Advance? {
      AdvanceIsForward(db, op);
    }
  }

  /** Only a running batch can disappear. */
  lemma FinalBatchesStay(db: Db, op: Op, id: Id)
    requires id in db.batches && db.batches[id].status != Running
    ensures id in Apply(db, op).batches
  {
  }

  lemma {:induction false} FinalIsForever(db: Db, ops: seq<Op>, id: Id)
    requires Sound(db) && GoodOps(ops) && id in db.batches && db.batches[id].status != Running
    ensures var after := Run(db, ops);
            id in after.batches && OnlyForward(db.batches[id], RowsOf(db, id), after.batches[id], RowsOf(after, id))
    decreases |ops|
  {
    if ops != [] {
      OpKeepsSound(db, ops[0]);
      FinalBatchesStay(db, ops[0], id);
      OpIsForward(db, ops[0], id);
      FinalIsForever(Apply(db, ops[0]), ops[1..], id);
    }
  }

  /** The bulk failure ends every person of the batch and leaves earlier outcomes alone, so the failed
      count it reports is the number of failed rows and not a hundred per cent of them. */
  lemma FailWholeEndsEveryone(db: Db, id: Id, reason: string)
    requires Sound(db) && id in db.batches && db.batches[id].status == Running
    ensures var after := Apply(db, FailWhole(id, reason));
            var b, rows := after.batches[id], RowsOf(after, id);
            && (forall i :: 0 <= i < |rows| ==> rows[i].status != Pending)
            && b.evaluated == b.total == |rows| && b.failed == FailedRows(rows)
            && b.covered == db.batches[id].covered && b.status == Broken
  {
    FailWholeKeepsSound(db, FailWhole(id, reason));
    FailPendingCount(RowsOf(db, id), Truncate(reason));
  }

  // ---------------------------------------------------------------- what each transaction records

  /** The people of a list, waiting in its order. */
  ghost predicate AllWaiting(rows: seq<Person>, names: seq<Name>) {
    |rows| == |names| && forall i :: 0 <= i < |rows| ==> rows[i].name == names[i] && rows[i].status == Pending && rows[i].error == ""
  }

  ghost predicate OthersSame(db: Db, after: Db, id: Id) {
    forall k :: k != id ==>
      && (k in after.batches <==> k in db.batches) && (k in after.people <==> k in db.people)
      && (k in db.batches ==> after.batches[k] == db.batches[k]) && RowsOf(after, k) == RowsOf(db, k)
  }

  /** A batch is created running, with a waiting row for each name of its list and nothing counted, if and
      only if its id is free and no name is listed twice. */
  lemma NewBatchIsOpen(db: Db, id: Id, names: seq<Name>, expanded: bool)
    ensures var after := Run(db, [Create(id, names, expanded)]);
            if id in db.batches || exists i, j :: 0 <= i < j < |names| && names[i] == names[j] then after == db
            else
              && OthersSame(db, after, id) && id in after.batches && AllWaiting(RowsOf(after, id), names)
              && after.batches[id].status == Running && after.batches[id].expanded == expanded && after.batches[id].error == ""
              && after.batches[id].total == |names| && after.batches[id].evaluated == after.batches[id].failed == 0
              && after.batches[id].covered == 0
  {
    assert [Create(id, names, expanded)][1..] == [];
  }

  lemma WaitingRows(names: seq<Name>)
    ensures AllWaiting([] + PendingRows(names), names)
  {
  }

  /** A skeleton takes its list once: a named list without repetitions fills it, anything later is ignored. */
  lemma SkeletonFillsOnce(db: Db, id: Id, names: seq<Name>, more: seq<Name>)
    requires Sound(db) && id in db.batches && !db.batches[id].expanded && names != [] && Distinct(names)
    ensures var after := Apply(db, Expand(id, names));
            && OthersSame(db, after, id) && AllWaiting(RowsOf(after, id), names)
            && after.batches == db.batches[id := db.batches[id].(expanded := true, total := |names|)]
            && Apply(after, Expand(id, more)) == after
  {
    SkeletonIsEmpty(db, id);
    FirstExpansion(db, id, names);
    WaitingRows(names);
  }

  lemma FirstExpansion(db: Db, id: Id, names: seq<Name>)
    requires id in db.batches && !db.batches[id].expanded && names != [] && Distinct(names) && RowsOf(db, id) == []
    ensures Apply(db, Expand(id, names)) == Db(db.batches[id := db.batches[id].(expanded := true, total := |names|)],
                                               db.people[id := [] + PendingRows(names)])
  {
  }

  lemma EmptyListIsRefused(db: Db, id: Id)
    ensures Apply(db, Expand(id, [])) == db
  {
  }

  /** The outcome a running batch is closed with is the one it keeps, with its rows as they then stood. */
  lemma OutcomeStays(db: Db, id: Id, outcome: BatchStatus, ops: seq<Op>)
    requires Sound(db) && GoodOps(ops) && outcome != Running && id in db.batches && db.batches[id].status == Running
    ensures var closed := Apply(db, Finalize(id, outcome));
            var after := Run(closed, ops);
            && OthersSame(db, closed, id) && RowsOf(closed, id) == RowsOf(db, id)
            && id in after.batches && after.batches[id].status == outcome
  {
    OpKeepsSound(db, Finalize(id, outcome));
    FinalIsForever(Apply(db, Finalize(id, outcome)), ops, id);
  }

  /** A running batch that is deleted is gone with its rows; a final one is not deleted. */
  lemma DeleteTakesRowsAlong(db: Db, id: Id)
    requires Sound(db) && id in db.batches
    ensures var after := Apply(db, Delete(id));
            && OthersSame(db, after, id)
            && (id !in after.batches <==> db.batches[id].status == Running) && (id !in after.people <==> id !in after.batches)
            && RowsOf(after, id) == if db.batches[id].status == Running then [] else RowsOf(db, id)
  {
  }

  /** At most 255 characters of a message are kept. */
  ghost predicate Kept(message: string, full: string) {
    message <= full && |message| == if |full| <= 255 then |full| else 255
  }

  /** The bulk failure writes its reason to the batch and to everyone still waiting, for good. */
  lemma BulkFailureStays(db: Db, id: Id, reason: string, ops: seq<Op>, i: nat)
    requires Sound(db) && GoodOps(ops) && id in db.batches && db.batches[id].status == Running && i < |RowsOf(db, id)|
    ensures var after := Run(Apply(db, FailWhole(id, reason)), ops);
            var before := RowsOf(db, id)[i];
            && id in after.batches && after.batches[id].status == Broken && Kept(after.batches[id].error, reason)
            && i < |RowsOf(after, id)| && RowsOf(after, id)[i].name == before.name
            && (before.status != Pending ==> RowsOf(after, id)[i] == before)
            && (before.status == Pending ==> RowsOf(after, id)[i].status == Failed && Kept(RowsOf(after, id)[i].error, reason))
  {
    var failed := Apply(db, FailWhole(id, reason));
    OpKeepsSound(db, FailWhole(id, reason));
    FinalIsForever(failed, ops, id);
    assert RowsOf(failed, id)[i].status != Pending;
  }

  // ---------------------------------------------------------------- at-least-once delivery

  datatype Call = Call(name: Name, status: PersonStatus, error: string, sessions: nat)

  function CallOp(id: Id, c: Call): Op {
    Advance(id, c.name, c.status, c.error, c.sessions)
  }

  function AdvanceAll(db: Db, id: Id, calls: seq<Call>): Db
    decreases |calls|
  {
    if calls == [] then db else Apply(AdvanceAll(db, id, calls[..|calls| - 1]), CallOp(id, calls[|calls| - 1]))
  }

  predicate Mentions(calls: seq<Call>, name: Name) {
    exists i :: 0 <= i < |calls| && calls[i].name == name
  }

  /** Each person's first call, in order. */
  function FirstCalls(calls: seq<Call>): seq<Call>
    decreases |calls|
  {
    if calls == [] then []
    else
      var init, last := calls[..|calls| - 1], calls[|calls| - 1];
      FirstCalls(init) + if Mentions(init, last.name) then [] else [last]
  }

  predicate GoodCalls(calls: seq<Call>) {
    forall i :: 0 <= i < |calls| ==> calls[i].status != Pending
  }

  ghost predicate NonePending(rows: seq<Person>, name: Name) {
    forall i :: 0 <= i < |rows| && rows[i].name == name ==> rows[i].status != Pending
  }

  lemma AdvanceLeavesNonePending(db: Db, id: Id, c: Call, name: Name)
    requires Sound(db) && c.status != Pending
    ensures c.name == name || NonePending(RowsOf(db, id), name) ==> NonePending(RowsOf(Apply(db, CallOp(id, c)), id), name)
  {
    var rows := RowsOf(db, id);
    PendingAtMeaning(rows, c.name);
    assert id !in db.batches ==> rows == [];
    assert Distinct(NamesOf(rows));
    var k := PendingAt(rows, c.name);
    if k < |rows| {
      forall i | 0 <= i < |rows| && i != k ensures rows[i].name != c.name {
        assert NamesOf(rows)[i] != NamesOf(rows)[k];
      }
    }
  }

  lemma NonePendingMeansNoEffect(db: Db, id: Id, c: Call)
    requires NonePending(RowsOf(db, id), c.name)
    ensures Apply(db, CallOp(id, c)) == db
  {
    PendingAtMeaning(RowsOf(db, id), c.name);
  }

  lemma MentionsSnoc(calls: seq<Call>, name: Name)
    requires calls != []
    ensures Mentions(calls, name) <==> Mentions(calls[..|calls| - 1], name) || calls[|calls| - 1].name == name
  {
    var init := calls[..|calls| - 1];
    if i :| 0 <= i < |init| && init[i].name == name { assert calls[i].name == name; }
    if i :| 0 <= i < |init| && calls[i].name == name { assert init[i].name == name; }
  }

  lemma {:induction false} CalledIsEnded(db: Db, id: Id, calls: seq<Call>, name: Name)
    requires Sound(db) && GoodCalls(calls)
    ensures Sound(AdvanceAll(db, id, calls))
    ensures Mentions(calls, name) ==> NonePending(RowsOf(AdvanceAll(db, id, calls), id), name)
    decreases |calls|
  {
    if calls != [] {
      var init, last := calls[..|calls| - 1], calls[|calls| - 1];
      CalledIsEnded(db, id, init, name);
      OpKeepsSound(AdvanceAll(db, id, init), CallOp(id, last));
      AdvanceLeavesNonePending(AdvanceAll(db, id, init), id, last, name);
      MentionsSnoc(calls, name);
    }
  }

  /** However often and however late calls are repeated, the result is that of each person's first call. */
  lemma {:induction false} FirstCallsDecide(db: Db, id: Id, calls: seq<Call>)
    requires Sound(db) && GoodCalls(calls)
    ensures AdvanceAll(db, id, calls) == AdvanceAll(db, id, FirstCalls(calls))
    decreases |calls|
  {
    if calls != [] {
      var init, last := calls[..|calls| - 1], calls[|calls| - 1];
      FirstCallsDecide(db, id, init);
      CalledIsEnded(db, id, init, last.name);
      if Mentions(init, last.name) {
        NonePendingMeansNoEffect(AdvanceAll(db, id, init), id, last);
        assert FirstCalls(calls) == FirstCalls(init);
      } else {
        assert FirstCalls(calls)[..|FirstCalls(calls)| - 1] == FirstCalls(init);
      }
    }
  }

  /** Call `i` is the first one for its person. */
  ghost predicate IsFirst(calls: seq<Call>, i: nat) {
    i < |calls| && forall j :: 0 <= j < i ==> calls[j].name != calls[i].name
  }

  /** The row records what a call reported: a failure with its message and no sessions, any other outcome
      with its sessions and no message. */
  ghost predicate Records(p: Person, c: Call) {
    && p.name == c.name && p.status == c.status
    && (if c.status == Failed then Kept(p.error, c.error) && p.counted == 0 else p.error == "" && p.counted == c.sessions)
  }

  lemma AdvanceRecords(db: Db, id: Id, c: Call, k: nat)
    requires Sound(db) && c.status != Pending && k < |RowsOf(db, id)|
    ensures var (before, rows) := (RowsOf(db, id)[k], RowsOf(Apply(db, CallOp(id, c)), id));
            && |rows| == |RowsOf(db, id)|
            && if before.status == Pending && before.name == c.name then Records(rows[k], c) else rows[k] == before
  {
    var rows := RowsOf(db, id);
    assert id in db.batches && Distinct(NamesOf(rows));
    PendingAtMeaning(rows, c.name);
    var i := PendingAt(rows, c.name);
    if i < |rows| && i != k {
      assert NamesOf(rows)[i] != NamesOf(rows)[k];
    }
  }

  lemma FirstOfMore(calls: seq<Call>, i: nat)
    requires IsFirst(calls, i)
    ensures if i < |calls| - 1 then IsFirst(calls[..|calls| - 1], i)
            else !Mentions(calls[..|calls| - 1], calls[i].name)
  {
  }

  lemma LastCall(db: Db, id: Id, calls: seq<Call>)
    requires calls != []
    ensures AdvanceAll(db, id, calls) == Apply(AdvanceAll(db, id, calls[..|calls| - 1]), CallOp(id, calls[|calls| - 1]))
  {
  }

  /** The row a waiting person has after some calls. */
  ghost predicate RowFollows(before: Person, after: Person, calls: seq<Call>) {
    && (!Mentions(calls, before.name) ==> after == before)
    && (forall i: nat :: IsFirst(calls, i) && calls[i].name == before.name ==> Records(after, calls[i]))
  }

  lemma RowFollowsLast(before: Person, mid: Person, after: Person, calls: seq<Call>)
    requires calls != [] && before.status == Pending && RowFollows(before, mid, calls[..|calls| - 1])
    requires Mentions(calls[..|calls| - 1], before.name) ==> mid.status != Pending
    requires var last := calls[|calls| - 1];
             if mid.status == Pending && mid.name == last.name then Records(after, last) else after == mid
    ensures RowFollows(before, after, calls)
  {
    var init, last := calls[..|calls| - 1], calls[|calls| - 1];
    MentionsSnoc(calls, before.name);
    forall i: nat | IsFirst(calls, i) && calls[i].name == before.name ensures Records(after, calls[i]) {
      FirstOfMore(calls, i);
      assert i < |init| ==> Mentions(init, before.name) by { if i < |init| { assert init[i].name == before.name; } }
    }
  }

  lemma NoCallYet(before: Person)
    ensures RowFollows(before, before, [])
  {
  }

  /** A person with a call is no longer waiting. */
  lemma CalledRowIsEnded(db: Db, id: Id, calls: seq<Call>, k: nat, name: Name)
    requires Sound(db) && GoodCalls(calls)
    requires k < |RowsOf(AdvanceAll(db, id, calls), id)| && RowsOf(AdvanceAll(db, id, calls), id)[k].name == name
    ensures Sound(AdvanceAll(db, id, calls))
    ensures Mentions(calls, name) ==> RowsOf(AdvanceAll(db, id, calls), id)[k].status != Pending
  {
    CalledIsEnded(db, id, calls, name);
  }

  /** However often calls are repeated, a waiting person's row ends up with what the first call for that
      person reported, and stays waiting without one. */
  lemma {:induction false} RowFollowsFirstCall(db: Db, id: Id, calls: seq<Call>, k: nat)
    requires Sound(db) && GoodCalls(calls) && k < |RowsOf(db, id)| && RowsOf(db, id)[k].status == Pending
    ensures |RowsOf(AdvanceAll(db, id, calls), id)| == |RowsOf(db, id)|
    ensures RowsOf(AdvanceAll(db, id, calls), id)[k].name == RowsOf(db, id)[k].name
    ensures RowFollows(RowsOf(db, id)[k], RowsOf(AdvanceAll(db, id, calls), id)[k], calls)
    decreases |calls|
  {
    var before := RowsOf(db, id)[k];
    if calls == [] {
      NoCallYet(before);
    } else {
      var init := calls[..|calls| - 1];
      RowFollowsFirstCall(db, id, init, k);
      CalledRowIsEnded(db, id, init, k, before.name);
      OneCallMore(AdvanceAll(db, id, init), id, before, calls, k);
      LastCall(db, id, calls);
    }
  }

  lemma OneCallMore(db: Db, id: Id, before: Person, calls: seq<Call>, k: nat)
    requires Sound(db) && calls != [] && calls[|calls| - 1].status != Pending && k < |RowsOf(db, id)|
    requires before.status == Pending && RowsOf(db, id)[k].name == before.name && RowFollows(before, RowsOf(db, id)[k], calls[..|calls| - 1])
    requires Mentions(calls[..|calls| - 1], before.name) ==> RowsOf(db, id)[k].status != Pending
    ensures var after := Apply(db, CallOp(id, calls[|calls| - 1]));
            && |RowsOf(after, id)| == |RowsOf(db, id)| && RowsOf(after, id)[k].name == before.name
            && RowFollows(before, RowsOf(after, id)[k], calls)
  {
    var last := calls[|calls| - 1];
    AdvanceRecords(db, id, last, k);
    RowFollowsLast(before, RowsOf(db, id)[k], RowsOf(Apply(db, CallOp(id, last)), id)[k], calls);
  }

  lemma {:induction false} PendingAtUnaffected(rows: seq<Person>, i: nat, p: Person, name: Name)
    requires i < |rows| && p.name == rows[i].name != name
    ensures PendingAt(rows[i := p], name) == PendingAt(rows, name)
    decreases |rows|
  {
    if i > 0 {
      assert rows[i := p][1..] == rows[1..][i - 1 := p];
      PendingAtUnaffected(rows[1..], i - 1, p, name);
    } else {
      assert rows[i := p][1..] == rows[1..];
    }
  }

  /** Calls for different people may arrive in either order. */
  lemma AdvancesCommute(db: Db, id: Id, c: Call, d: Call)
    requires Sound(db) && c.name != d.name
    ensures Apply(Apply(db, CallOp(id, c)), CallOp(id, d)) == Apply(Apply(db, CallOp(id, d)), CallOp(id, c))
  {
    var rows := RowsOf(db, id);
    var i, j := PendingAt(rows, c.name), PendingAt(rows, d.name);
    PendingAtMeaning(rows, c.name);
    PendingAtMeaning(rows, d.name);
    if i < |rows| {
      PendingAtUnaffected(rows, i, Ended(rows[i], c.status, c.error, c.sessions), d.name);
    }
    if j < |rows| {
      PendingAtUnaffected(rows, j, Ended(rows[j], d.status, d.error, d.sessions), c.name);
    }
    if i < |rows| && j < |rows| {
      BothEnded(db, id, c, d, i, j);
    }
  }

  function EndedBy(p: Person, c: Call): Person {
    Ended(p, c.status, c.error, c.sessions)
  }

  lemma TwoAdvances(db: Db, id: Id, c: Call, d: Call, i: nat, j: nat)
    requires id in db.batches
    requires var rows := RowsOf(db, id);
             i < |rows| && j < |rows| && i != j && PendingAt(rows, c.name) == i && PendingAt(rows[i := EndedBy(rows[i], c)], d.name) == j
    ensures var rows, b := RowsOf(db, id), db.batches[id];
            Apply(Apply(db, CallOp(id, c)), CallOp(id, d)) ==
            Db(db.batches[id := Counted(Counted(b, c.status, c.sessions), d.status, d.sessions)],
               db.people[id := rows[i := EndedBy(rows[i], c)][j := EndedBy(rows[j], d)]])
  {
    var once := Apply(db, CallOp(id, c));
    assert RowsOf(once, id) == RowsOf(db, id)[i := EndedBy(RowsOf(db, id)[i], c)];
  }

  lemma BothEnded(db: Db, id: Id, c: Call, d: Call, i: nat, j: nat)
    requires id in db.batches
    requires var rows := RowsOf(db, id);
             && i < |rows| && j < |rows| && i != j && PendingAt(rows, c.name) == i && PendingAt(rows, d.name) == j
             && PendingAt(rows[i := EndedBy(rows[i], c)], d.name) == j
             && PendingAt(rows[j := EndedBy(rows[j], d)], c.name) == i
    ensures Apply(Apply(db, CallOp(id, c)), CallOp(id, d)) == Apply(Apply(db, CallOp(id, d)), CallOp(id, c))
  {
    var rows := RowsOf(db, id);
    TwoAdvances(db, id, c, d, i, j);
    TwoAdvances(db, id, d, c, j, i);
    var first: seq<Person>, second: seq<Person> := rows[i := EndedBy(rows[i], c)], rows[j := EndedBy(rows[j], d)];
    assert first[j := EndedBy(rows[j], d)] == second[i := EndedBy(rows[i], c)];
  }
}
