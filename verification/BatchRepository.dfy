/** The assessment-batch repository as the source runs it: guarded updates and increments in place. */
module BatchRepository {
  import opened BatchAccounting

  lemma {:induction false} PendingAtSkips(rows: seq<Person>, name: Name, n: nat)
    requires n <= |rows| && forall i :: 0 <= i < n ==> !(rows[i].name == name && rows[i].status == Pending)
    ensures PendingAt(rows, name) == n + PendingAt(rows[n..], name)
    decreases n
  {
    if n > 0 {
      PendingAtSkips(rows[1..], name, n - 1);
      assert rows[1..][n - 1..] == rows[n..];
    }
  }

  lemma RepeatedName(rows: seq<Person>, names: seq<Name>, i: nat, j: nat)
    requires i < |names| && j < |rows| + i && (rows + PendingRows(names[..i]))[j].name == names[i]
    ensures !Insertable(rows, names)
  {
    if j >= |rows| { assert names[j - |rows|] == names[i]; }
  }

  lemma NewName(rows: seq<Person>, names: seq<Name>, i: nat)
    requires i < |names| && Insertable(rows, names[..i])
    requires forall j :: 0 <= j < |rows| + i ==> (rows + PendingRows(names[..i]))[j].name != names[i]
    ensures Insertable(rows, names[..i + 1])
  {
    forall k | 0 <= k < i ensures names[k] != names[i] {
      assert (rows + PendingRows(names[..i]))[|rows| + k].name == names[k];
    }
    forall j | 0 <= j < |rows| ensures rows[j].name != names[i] {
      assert (rows + PendingRows(names[..i]))[j] == rows[j];
    }
  }

  class Repository {
    var batches: map<Id, Batch>
    var people: map<Id, seq<Person>>

    ghost function Tables(): Db
      reads this
    {
      Db(batches, people)
    }

    constructor ()
      ensures Tables() == EMPTY
    {
      batches, people := map[], map[];
    }

    /** Insert the rows one by one; a repeated name violates the unique key and nothing is inserted. */
    method InsertRows(rows: seq<Person>, names: seq<Name>) returns (all: seq<Person>, ok: bool)
      ensures ok == Insertable(rows, names)
      ensures all == if ok then rows + PendingRows(names) else rows
    {
      all := rows;
      for i := 0 to |names|
        invariant all == rows + PendingRows(names[..i]) && |all| == |rows| + i
        invariant Insertable(rows, names[..i])
      {
        if exists j :: 0 <= j < |all| && all[j].name == names[i] {
          ghost var j :| 0 <= j < |all| && all[j].name == names[i];
          RepeatedName(rows, names, i, j);
          return rows, false;
        }
        NewName(rows, names, i);
        all := all + [Person(names[i], Pending, "", 0)];
        assert PendingRows(names[..i + 1]) == PendingRows(names[..i]) + [Person(names[i], Pending, "", 0)];
      }
      assert names[..|names|] == names;
      ok := true;
    }

    /** Batch row and person rows in one transaction. */
    method CreateWithPersons(id: Id, names: seq<Name>, expanded: bool) returns (ok: bool)
      modifies this
      ensures Tables() == Apply(old(Tables()), Create(id, names, expanded))
      ensures ok == (id !in old(batches) && Distinct(names))
    {
      if id in batches {
        return false;
      }
      var saved := batches;
      batches := batches[id := Batch(Running, expanded, |names|, 0, 0, 0, "")];
      var rows, inserted := InsertRows([], names);
      if !inserted {
        batches := saved;
        return false;
      }
      assert [] + PendingRows(names) == PendingRows(names);
      people := people[id := rows];
      ok := true;
    }

    /** Expand a skeleton once: the guarded batch update first, then the rows, or neither. */
    method ExpandTargets(id: Id, names: seq<Name>) returns (ok: bool)
      modifies this
      ensures Tables() == Apply(old(Tables()), Expand(id, names))
      ensures ok == (id !in old(batches) || old(batches)[id].expanded || (names != [] && Insertable(RowsOf(old(Tables()), id), names)))
    {
      var saved := batches;
      if id !in batches || batches[id].expanded {
        return true;
      }
      var rows := if id in people then people[id] else [];
      batches := batches[id := batches[id].(expanded := true, total := |names|)];
      if |names| == 0 {
        batches := saved;
        return false;
      }
      var all, inserted := InsertRows(rows, names);
      if !inserted {
        batches := saved;
        return false;
      }
      people := people[id := all];
      ok := true;
    }

    /** Which row the guarded update hits, if any. */
    method FindPending(rows: seq<Person>, name: Name) returns (i: nat)
      ensures i == PendingAt(rows, name) <= |rows|
    {
      i := 0;
      while i < |rows| && !(rows[i].name == name && rows[i].status == Pending)
        invariant 0 <= i <= |rows|
        invariant forall j :: 0 <= j < i ==> !(rows[j].name == name && rows[j].status == Pending)
      {
        i := i + 1;
      }
      PendingAtSkips(rows, name, i);
    }

    /** The row guarded by pending, then the counters; a repeated call finds no pending row. */
    method AdvancePersonTerminal(id: Id, name: Name, status: PersonStatus, error: string, sessions: nat)
      modifies this
      ensures Tables() == Apply(old(Tables()), Advance(id, name, status, error, sessions))
    {
      var summary := if status == Failed then Truncate(error) else "";
      var rows := if id in people then people[id] else [];
      var i := FindPending(rows, name);
      if i == |rows| {
        return;
      }
      PendingAtMeaning(rows, name);
      var ended := Person(name, status, summary, if status == Failed then 0 else sessions);
      people := people[id := rows[i := ended]];
      if id in batches {
        var b := batches[id];
        b := b.(evaluated := b.evaluated + 1);
        if status == Failed {
          b := b.(failed := b.failed + 1);
        } else {
          b := b.(covered := b.covered + sessions);
        }
        batches := batches[id := b];
      }
    }

    method FinalizeBatch(id: Id, outcome: BatchStatus)
      modifies this
      ensures Tables() == Apply(old(Tables()), Finalize(id, outcome))
    {
      if id in batches && batches[id].status == Running {
        batches := batches[id := batches[id].(status := outcome)];
      }
    }

    method DeleteBatch(id: Id)
      modifies this
      ensures Tables() == Apply(old(Tables()), Delete(id))
    {
      if id !in batches || batches[id].status != Running {
        return;
      }
      batches := batches - {id};
      people := people - {id};
    }

    /** The pending rows failed, and the failed rows counted. */
    method FailRows(rows: seq<Person>, summary: string) returns (after: seq<Person>, failed: nat)
      ensures after == FailPending(rows, summary) && failed == FailedRows(after)
    {
      after, failed := rows, 0;
      for i := 0 to |rows|
        invariant |after| == |rows|
        invariant forall j :: 0 <= j < i ==> after[j] == FailPending(rows, summary)[j]
        invariant forall j :: i <= j < |rows| ==> after[j] == rows[j]
      {
        if after[i].status == Pending {
          after := after[i := Person(after[i].name, Failed, summary, 0)];
        }
      }
      for i := 0 to |after|
        invariant failed == FailedRows(after[..i])
      {
        assert after[..i + 1][..i] == after[..i];
        if after[i].status == Failed {
          failed := failed + 1;
        }
      }
      assert after[..|after|] == after;
    }

    /** Fail the pending rows, count what is there, then write the batch under its guard; a batch that is
        final by then rolls everything back and reports nothing. */
    method FailWholeBatch(id: Id, reason: string) returns (failed: nat, total: nat)
      modifies this
      ensures Tables() == Apply(old(Tables()), FailWhole(id, reason))
      ensures if id in old(batches) && old(batches)[id].status == Running
              then total == |RowsOf(Tables(), id)| == batches[id].evaluated
                   && failed == FailedRows(RowsOf(Tables(), id)) == batches[id].failed
              else failed == total == 0
    {
      var savedPeople := people;
      var summary := Truncate(reason);
      var rows := if id in people then people[id] else [];
      rows, failed := FailRows(rows, summary);
      total := |rows|;
      people := people[id := rows];
      if id !in batches || batches[id].status != Running {
        people := savedPeople;
        return 0, 0;
      }
      batches := batches[id := batches[id].(status := Broken, error := summary, evaluated := total, failed := failed)];
    }
  }
}
