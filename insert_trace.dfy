/**
 * The calls the insert block makes on the session, as pure functions of its
 * configuration and its input: `InsertEvents` for one `execute_insert`,
 * `LoopEvents` for the loop of `process_signals`, `BatchEvents` for the whole
 * of `process_signals`. The class in postgres_insert.dfy is proved to make
 * exactly these calls; batch_properties.dfy proves what they amount to.
 */
module InsertTrace {
  import opened Wrappers
  import opened Records
  import opened QueryBuilder
  import opened Transactions

  /** What decides an insert's fate: the configured table name, the driver's
      `mogrify` and the driver's or the server's verdict on each statement. */
  datatype Setup = Setup(table: string, mogrify: Mogrify, accepts: Verdict)

  /** True when the `try` block of `execute_insert` raises for `rec`: building
      the query raised, or the server rejected the statement. */
  predicate Raises(setup: Setup, rec: Record)
  {
    match BuildInsertQuery(setup.mogrify, setup.table, rec)
    case None => true
    case Some(query) => !setup.accepts(query, Values(rec))
  }

  /** The calls `execute_insert(rec)` makes on the session. */
  function InsertEvents(setup: Setup, rec: Record): seq<Event>
  {
    match BuildInsertQuery(setup.mogrify, setup.table, rec)
    case None => [Rollback]
    case Some(query) =>
      var accepted := setup.accepts(query, Values(rec));
      [Event.Execute(query, Values(rec), accepted)] + (if accepted then [] else [Rollback])
  }

  /** `execute_insert` ends in exactly one rollback when it raises and makes no
      rollback otherwise; it never commits. */
  lemma InsertEventsShape(setup: Setup, rec: Record)
    ensures 1 <= |InsertEvents(setup, rec)| <= 2
    ensures multiset(InsertEvents(setup, rec))[Rollback] == (if Raises(setup, rec) then 1 else 0)
    ensures multiset(InsertEvents(setup, rec))[Commit] == 0
    ensures Raises(setup, rec) <==> InsertEvents(setup, rec)[|InsertEvents(setup, rec)| - 1] == Rollback
  {
  }

  /** The calls made by the `for` loop of `process_signals` over `recs`: each
      record's insert, in input order. */
  function LoopEvents(setup: Setup, recs: seq<Record>): seq<Event>
  {
    if recs == [] then []
    else LoopEvents(setup, recs[..|recs| - 1]) + InsertEvents(setup, recs[|recs| - 1])
  }

  /** The calls made by `process_signals(recs)`: the loop, then one commit when
      `commitAll` is set. */
  function BatchEvents(setup: Setup, recs: seq<Record>, commitAll: bool): seq<Event>
  {
    LoopEvents(setup, recs) + (if commitAll then [Commit] else [])
  }

  /** One more turn of the loop adds that record's calls at the end. */
  lemma LoopEventsExtend(setup: Setup, recs: seq<Record>, i: nat)
    requires i < |recs|
    ensures LoopEvents(setup, recs[..i + 1]) == LoopEvents(setup, recs[..i]) + InsertEvents(setup, recs[i])
  {
    assert recs[..i + 1][..i] == recs[..i];
  }
}
