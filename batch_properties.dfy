/**
 * What `process_signals` does to the session, stated over the calls it makes
 * (`BatchEvents`) and proved for every batch, every driver and every server
 * verdict:
 *
 *  - every record is attempted once, in input order, and a record that raises
 *    does not stop the ones after it;
 *  - each raising record causes exactly one rollback and a successful one none,
 *    and a rejected execute is immediately followed by its rollback;
 *  - with `commit_all` there is exactly one commit, after every record; without
 *    it there is none;
 *  - the rows a batch commits are the successful inserts after the last raising
 *    record.
 */
module BatchProperties {
  import opened Wrappers
  import opened Records
  import opened QueryBuilder
  import opened Transactions
  import opened InsertTrace

  /** Number of records of `recs` for which `execute_insert` raises. */
  function FailureCount(setup: Setup, recs: seq<Record>): nat
  {
    if recs == [] then 0
    else FailureCount(setup, recs[..|recs| - 1]) + (if Raises(setup, recs[|recs| - 1]) then 1 else 0)
  }

  /** The loop rolls back once per raising record and never commits. */
  lemma {:induction false} RollbacksMatchFailures(setup: Setup, recs: seq<Record>)
    ensures multiset(LoopEvents(setup, recs))[Rollback] == FailureCount(setup, recs)
    ensures multiset(LoopEvents(setup, recs))[Commit] == 0
  {
    if recs != [] {
      RollbacksMatchFailures(setup, recs[..|recs| - 1]);
      InsertEventsShape(setup, recs[|recs| - 1]);
    }
  }

  /** A batch rolls back once per raising record; it commits exactly once, as
      its last call, when `commitAll` is set, and never otherwise, however many
      records raised. */
  lemma CommitsPerBatch(setup: Setup, recs: seq<Record>, commitAll: bool)
    ensures multiset(BatchEvents(setup, recs, commitAll))[Rollback] == FailureCount(setup, recs)
    ensures multiset(BatchEvents(setup, recs, commitAll))[Commit] == (if commitAll then 1 else 0)
    ensures commitAll ==> BatchEvents(setup, recs, commitAll)[|BatchEvents(setup, recs, commitAll)| - 1] == Commit
  {
    RollbacksMatchFailures(setup, recs);
  }

  /** A rejected execute is immediately followed by its rollback. */
  lemma {:induction false} RejectedExecuteIsRolledBack(setup: Setup, recs: seq<Record>, i: nat)
    requires i < |LoopEvents(setup, recs)|
    requires LoopEvents(setup, recs)[i].Execute? && !LoopEvents(setup, recs)[i].accepted
    ensures i + 1 < |LoopEvents(setup, recs)| && LoopEvents(setup, recs)[i + 1] == Rollback
  {
    var before, last := LoopEvents(setup, recs[..|recs| - 1]), InsertEvents(setup, recs[|recs| - 1]);
    assert LoopEvents(setup, recs) == before + last;
    if i < |before| {
      RejectedExecuteIsRolledBack(setup, recs[..|recs| - 1], i);
    } else {
      assert last[i - |before|] == LoopEvents(setup, recs)[i];
    }
  }

  /** The statement of every execute call in a trace, query text and bound
      values, in order. */
  function Executed(events: seq<Event>): seq<Row>
  {
    if events == [] then []
    else
      var e := events[|events| - 1];
      Executed(events[..|events| - 1]) + (if e.Execute? then [Row(e.query, e.params)] else [])
  }

  lemma {:induction false} ExecutedConcat(a: seq<Event>, b: seq<Event>)
    ensures Executed(a + b) == Executed(a) + Executed(b)
    decreases |b|
  {
    if b == [] {
      assert a + b == a;
    } else {
      assert (a + b)[..|a + b| - 1] == a + b[..|b| - 1];
      ExecutedConcat(a, b[..|b| - 1]);
    }
  }

  /** The statement `execute_insert` hands to `execute` for a record whose query
      builds: the built query and the record's own values. */
  function StatementOf(mogrify: Mogrify, table: string, rec: Record): Row
    requires BuildInsertQuery(mogrify, table, rec).Some?
  {
    Row(BuildInsertQuery(mogrify, table, rec).value, Values(rec))
  }

  /** The statements of the records whose query builds, in input order. */
  function BuiltStatements(mogrify: Mogrify, table: string, recs: seq<Record>): seq<Row>
  {
    if recs == [] then []
    else
      var rec := recs[|recs| - 1];
      BuiltStatements(mogrify, table, recs[..|recs| - 1])
        + (if BuildInsertQuery(mogrify, table, rec).Some? then [StatementOf(mogrify, table, rec)] else [])
  }

  /** Every record whose query builds is executed exactly once, in input order,
      with its own query and its own values, whatever happened to the records
      before it. */
  lemma {:induction false} ExecutedInInputOrder(setup: Setup, recs: seq<Record>)
    ensures Executed(LoopEvents(setup, recs)) == BuiltStatements(setup.mogrify, setup.table, recs)
  {
    if recs != [] {
      var rec := recs[|recs| - 1];
      ExecutedConcat(LoopEvents(setup, recs[..|recs| - 1]), InsertEvents(setup, rec));
      ExecutedInInputOrder(setup, recs[..|recs| - 1]);
      var last := InsertEvents(setup, rec);
      if BuildInsertQuery(setup.mogrify, setup.table, rec).None? {
        assert last == [Rollback];
        assert Executed(last) == Executed([]) + [];
      } else if |last| == 1 {
        assert Executed(last) == Executed([]) + [StatementOf(setup.mogrify, setup.table, rec)];
      } else {
        assert last[..1][..0] == [];
        assert Executed(last) == Executed(last[..1]) + [];
      }
    }
  }

  /** When every query builds, every record reaches the server with its own
      statement, in input order, even those after a statement the server
      rejected. */
  lemma {:induction false} EveryRecordIsExecuted(setup: Setup, recs: seq<Record>)
    requires forall k :: 0 <= k < |recs| ==> BuildInsertQuery(setup.mogrify, setup.table, recs[k]).Some?
    ensures Executed(LoopEvents(setup, recs))
         == seq(|recs|, k requires 0 <= k < |recs| => StatementOf(setup.mogrify, setup.table, recs[k]))
  {
    ExecutedInInputOrder(setup, recs);
    BuiltStatementsOfBuildableRecords(setup.mogrify, setup.table, recs);
  }

  lemma {:induction false} BuiltStatementsOfBuildableRecords(mogrify: Mogrify, table: string, recs: seq<Record>)
    requires forall k :: 0 <= k < |recs| ==> BuildInsertQuery(mogrify, table, recs[k]).Some?
    ensures BuiltStatements(mogrify, table, recs)
         == seq(|recs|, k requires 0 <= k < |recs| => StatementOf(mogrify, table, recs[k]))
  {
    if recs != [] {
      BuiltStatementsOfBuildableRecords(mogrify, table, recs[..|recs| - 1]);
    }
  }

  /** The driver's or the server's verdicts never change which statements are
      executed: a rejected statement does not stop the batch. */
  lemma ExecutionsIgnoreVerdicts(setup: Setup, other: Verdict, recs: seq<Record>)
    ensures Executed(LoopEvents(setup.(accepts := other), recs)) == Executed(LoopEvents(setup, recs))
  {
    ExecutedInInputOrder(setup, recs);
    ExecutedInInputOrder(setup.(accepts := other), recs);
  }

  /** Index of the last record of `recs` that raises, or -1 when none does. */
  function LastFailure(setup: Setup, recs: seq<Record>): (k: int)
    ensures -1 <= k < |recs|
    ensures k >= 0 ==> Raises(setup, recs[k])
    ensures forall j :: k < j < |recs| ==> !Raises(setup, recs[j])
  {
    if recs == [] then -1
    else if Raises(setup, recs[|recs| - 1]) then |recs| - 1
    else LastFailure(setup, recs[..|recs| - 1])
  }

  /** The row an accepted insert of `rec` adds to the transaction. */
  function RowOf(setup: Setup, rec: Record): Row
    requires !Raises(setup, rec)
  {
    StatementOf(setup.mogrify, setup.table, rec)
  }

  /** The rows of records none of which raises, in input order. */
  function Rows(setup: Setup, recs: seq<Record>): seq<Row>
    requires forall k :: 0 <= k < |recs| ==> !Raises(setup, recs[k])
  {
    seq(|recs|, k requires 0 <= k < |recs| => RowOf(setup, recs[k]))
  }

  /** What the open transaction holds after the loop, starting from `pending`:
      the rows of the records after the last one that raised; when none raised,
      everything that was pending before followed by the rows of every record. */
  function Survivors(setup: Setup, pending: seq<Row>, recs: seq<Record>): seq<Row>
  {
    var k := LastFailure(setup, recs);
    if k < 0 then pending + Rows(setup, recs) else Rows(setup, recs[k + 1..])
  }

  /** One `execute_insert`: a raising record empties the transaction (the
      rollback), a successful one adds its row; committed rows are untouched. */
  lemma InsertEffect(setup: Setup, db: Db, rec: Record)
    ensures Apply(db, InsertEvents(setup, rec))
         == if Raises(setup, rec) then Db([], db.committed)
            else Db(db.pending + [RowOf(setup, rec)], db.committed)
  {
    var events := InsertEvents(setup, rec);
    if |events| == 2 {
      assert Apply(db, events) == Apply(Step(db, events[0]), [Rollback]);
    }
  }

  /** The loop never touches committed rows; its rollbacks leave pending exactly
      the successful inserts after the last raising record. */
  lemma {:induction false} LoopEffect(setup: Setup, db: Db, recs: seq<Record>)
    ensures Apply(db, LoopEvents(setup, recs)) == Db(Survivors(setup, db.pending, recs), db.committed)
  {
    if recs == [] {
      assert db.pending + Rows(setup, recs) == db.pending;
    } else {
      var n := |recs|;
      var prefix, rec := recs[..n - 1], recs[n - 1];
      ApplyConcat(db, LoopEvents(setup, prefix), InsertEvents(setup, rec));
      LoopEffect(setup, db, prefix);
      InsertEffect(setup, Db(Survivors(setup, db.pending, prefix), db.committed), rec);
      SurvivorsStep(setup, db.pending, recs);
    }
  }

  /** What one more record does to the rows left pending: a raising record
      leaves none, a successful one adds its row to what the records before it
      leave. */
  lemma SurvivorsStep(setup: Setup, pending: seq<Row>, recs: seq<Record>)
    requires |recs| > 0
    ensures Raises(setup, recs[|recs| - 1]) ==> Survivors(setup, pending, recs) == []
    ensures !Raises(setup, recs[|recs| - 1]) ==>
              Survivors(setup, pending, recs)
              == Survivors(setup, pending, recs[..|recs| - 1]) + [RowOf(setup, recs[|recs| - 1])]
  {
    var n := |recs|;
    var prefix, rec := recs[..n - 1], recs[n - 1];
    if Raises(setup, rec) {
      assert recs[n..] == [];
    } else {
      var k := LastFailure(setup, prefix);
      assert LastFailure(setup, recs) == k;
      if k < 0 {
        assert recs == prefix + [rec];
        RowsAppend(setup, prefix, rec);
      } else {
        assert recs[k + 1..] == prefix[k + 1..] + [rec];
        RowsAppend(setup, prefix[k + 1..], rec);
      }
    }
  }

  /** `SurvivorsStep` for the loop's running prefix `recs[..i + 1]`. */
  lemma SurvivorsPrefixStep(setup: Setup, pending: seq<Row>, recs: seq<Record>, i: nat)
    requires i < |recs|
    ensures Survivors(setup, pending, recs[..i + 1])
         == if Raises(setup, recs[i]) then []
            else Survivors(setup, pending, recs[..i]) + [RowOf(setup, recs[i])]
  {
    SurvivorsStep(setup, pending, recs[..i + 1]);
    assert recs[..i + 1][..i] == recs[..i];
  }

  lemma RowsAppend(setup: Setup, recs: seq<Record>, rec: Record)
    requires forall k :: 0 <= k < |recs| ==> !Raises(setup, recs[k])
    requires !Raises(setup, rec)
    ensures Rows(setup, recs + [rec]) == Rows(setup, recs) + [RowOf(setup, rec)]
  {
  }

  /** The whole batch: with `commitAll`, nothing stays pending and the committed
      rows grow by exactly the successful inserts after the last raising record
      (and, when none raised, by what was pending before the batch); without it,
      nothing is committed. */
  lemma BatchEffect(setup: Setup, db: Db, recs: seq<Record>, commitAll: bool)
    ensures Apply(db, BatchEvents(setup, recs, commitAll))
         == if commitAll then Db([], db.committed + Survivors(setup, db.pending, recs))
            else Db(Survivors(setup, db.pending, recs), db.committed)
  {
    LoopEffect(setup, db, recs);
    ApplyConcat(db, LoopEvents(setup, recs), if commitAll then [Commit] else []);
  }

  /** The batch seen from a session whose state is the replay of `start`: the
      replay of `start` followed by the batch's calls is the batch's effect on
      that state. */
  lemma BatchAfterReplay(setup: Setup, start: seq<Event>, recs: seq<Record>, commitAll: bool)
    ensures (var db := Apply(Db([], []), start);
             Apply(Db([], []), start + BatchEvents(setup, recs, commitAll))
             == if commitAll then Db([], db.committed + Survivors(setup, db.pending, recs))
                else Db(Survivors(setup, db.pending, recs), db.committed))
  {
    ApplyConcat(Db([], []), start, BatchEvents(setup, recs, commitAll));
    BatchEffect(setup, Apply(Db([], []), start), recs, commitAll);
  }

  /** A record the server accepts, processed alone under `commit_all`: no
      rollback, one commit, and its row is committed. */
  lemma AcceptedRecordIsCommitted(setup: Setup, db: Db, rec: Record)
    requires !Raises(setup, rec)
    ensures multiset(BatchEvents(setup, [rec], true))[Rollback] == 0
    ensures multiset(BatchEvents(setup, [rec], true))[Commit] == 1
    ensures Apply(db, BatchEvents(setup, [rec], true)).committed == db.committed + db.pending + [RowOf(setup, rec)]
  {
    CommitsPerBatch(setup, [rec], true);
    BatchEffect(setup, db, [rec], true);
    assert FailureCount(setup, [rec]) == 0 by {
      assert [rec][..0] == [];
    }
    assert Rows(setup, [rec]) == [RowOf(setup, rec)];
  }

  /** A record for which `execute_insert` raises, processed alone under
      `commit_all`: it is rolled back, and the commit is still issued, on an
      empty transaction. */
  lemma RaisingRecordIsRolledBackThenCommitted(setup: Setup, db: Db, rec: Record)
    requires Raises(setup, rec)
    ensures multiset(BatchEvents(setup, [rec], true))[Rollback] == 1
    ensures multiset(BatchEvents(setup, [rec], true))[Commit] == 1
    ensures Apply(db, BatchEvents(setup, [rec], true)) == Db([], db.committed)
  {
    CommitsPerBatch(setup, [rec], true);
    BatchEffect(setup, db, [rec], true);
    assert FailureCount(setup, [rec]) == 1 by {
      assert [rec][..0] == [];
    }
    assert Rows(setup, [rec][1..]) == [];
  }
}
