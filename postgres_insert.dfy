/**
 * `PostgresInsert`: for every incoming signal, build an INSERT statement and
 * execute it with the signal's values; when building or executing raises, log
 * it and roll back, and go on with the next signal; after the last signal,
 * commit once if `commit_all` is set.
 */
module PostgresInsertBlock {
  import opened Wrappers
  import opened Records
  import opened QueryBuilder
  import opened Transactions
  import opened InsertTrace
  import opened BatchProperties

  class PostgresInsert {
    /** The `table_name` property. */
    const tableName: string
    /** The `commit_all` property. */
    const commitAll: bool
    /** `self._cur.mogrify`. */
    const mogrify: Mogrify
    /** `self._conn` together with `self._cur`. */
    const conn: Connection

    function CurrentSetup(): Setup
    {
      Setup(tableName, mogrify, conn.accepts)
    }

    /** A configured block over an open session. */
    constructor (tableName: string, commitAll: bool, mogrify: Mogrify, conn: Connection)
      ensures this.tableName == tableName && this.commitAll == commitAll
      ensures this.mogrify == mogrify && this.conn == conn
    {
      this.tableName := tableName;
      this.commitAll := commitAll;
      this.mogrify := mogrify;
      this.conn := conn;
    }

    /** `process_signals`: attempts every record in order, then commits once when
        `commit_all` is set. Nothing is raised to the caller. */
    method ProcessSignals(signals: seq<Record>)
      requires conn.Valid()
      modifies conn
      ensures conn.Valid()
      ensures conn.trace == old(conn.trace) + BatchEvents(CurrentSetup(), signals, commitAll)
      ensures commitAll ==> conn.pending == []
      ensures commitAll ==> conn.committed == old(conn.committed) + Survivors(CurrentSetup(), old(conn.pending), signals)
      ensures !commitAll ==> conn.pending == Survivors(CurrentSetup(), old(conn.pending), signals)
      ensures !commitAll ==> conn.committed == old(conn.committed)
    {
      ghost var start := conn.trace;
      for i := 0 to |signals|
        invariant conn.trace == start + LoopEvents(CurrentSetup(), signals[..i])
        invariant conn.pending == Survivors(CurrentSetup(), old(conn.pending), signals[..i])
        invariant conn.committed == old(conn.committed)
      {
        LoopEventsExtend(CurrentSetup(), signals, i);
        SurvivorsPrefixStep(CurrentSetup(), old(conn.pending), signals, i);
        ExecuteInsert(signals[i]);
      }
      assert signals[..|signals|] == signals;
      if commitAll {
        CommitTransactions();
      }
      assert conn.trace == start + BatchEvents(CurrentSetup(), signals, commitAll);
      assert Apply(Db([], []), start) == old(conn.State());
      BatchAfterReplay(CurrentSetup(), start, signals, commitAll);
    }

    /** `execute_insert`: builds the query and executes it with the record's values;
        when either raises, rolls back and returns normally. */
    method ExecuteInsert(data: Record)
      modifies conn
      ensures old(conn.Valid()) ==> conn.Valid()
      ensures conn.trace == old(conn.trace) + InsertEvents(CurrentSetup(), data)
      ensures Raises(CurrentSetup(), data) ==> conn.pending == []
      ensures !Raises(CurrentSetup(), data) ==> conn.pending == old(conn.pending) + [RowOf(CurrentSetup(), data)]
      ensures conn.committed == old(conn.committed)
    {
      var query := BuildInsertQuery(mogrify, tableName, data);
      if query.None? {
        RollbackTransactions();
      } else {
        var raised := conn.Execute(query.value, Values(data));
        if raised {
          RollbackTransactions();
        }
      }
    }

    /** `_rollback_transactions`: discards every pending insert. */
    method RollbackTransactions()
      modifies conn
      ensures old(conn.Valid()) ==> conn.Valid()
      ensures conn.trace == old(conn.trace) + [Rollback]
      ensures conn.pending == [] && conn.committed == old(conn.committed)
    {
      conn.Rollback();
    }

    /** `_commit_transactions`: makes every pending insert permanent. */
    method CommitTransactions()
      modifies conn
      ensures old(conn.Valid()) ==> conn.Valid()
      ensures conn.trace == old(conn.trace) + [Commit]
      ensures conn.pending == [] && conn.committed == old(conn.committed) + old(conn.pending)
    {
      conn.Commit();
    }
  }
}
