# PostgresInsert: insert path and transaction policy, in Dafny

This project models the insert block of the nio `postgres` blocks
(`postgres_insert_block.py`). The block receives a list of signals. For each
signal it builds an `INSERT` statement from the signal's dictionary and executes
it with the dictionary's values as bound parameters. When building or executing
raises, it logs the error, rolls back, and goes on with the next signal. After
the last signal it commits once, if the `commit_all` property is set.

The model has two parts.

- **Query construction** (`QueryBuilder`, pure functions). The fixed template
  `INSERT INTO %s (%s) VALUES (%s)` is given three arguments: the table name,
  the record's keys joined by `", "`, and one `%s` per key joined by `", "`.
  The cursor's `mogrify` renders the template with those arguments, and every
  single-quote byte is then deleted from the result. `mogrify` belongs to the
  database driver, so it is a function-typed parameter (`Mogrify`) that
  returns `None` when the driver raises.
- **Batch and transaction control** (`Transactions`, `InsertTrace`,
  `PostgresInsertBlock`, `BatchProperties`). The session is a `Connection`
  class with a `pending` row list (the open transaction), a `committed` row
  list (the rows this session committed, not what the table held before),
  and a trace of the calls made on it (`Execute`, `Rollback`, `Commit`).
  Its invariant `Valid()` says that its state is the replay (`Apply`) of its
  trace from an empty session; every method keeps it. The verdict on each
  statement is an
  oracle (`accepts`) fixed when the session is opened. It is the driver's or
  the server's verdict: `execute` can also raise in the driver, before anything
  reaches the server. The class
  `PostgresInsert` has four of the source's five methods;
  `_build_insert_query_string` is the pure function
  `QueryBuilder.BuildInsertQuery`. Each method is proved to make
  exactly the calls given by a pure function (`InsertEvents`, `BatchEvents`)
  and to leave the session in the state those calls produce. The lemmas in
  `BatchProperties` prove what those calls amount to for every batch, driver
  and verdict.

Files: `wrappers.dfy` (Option), `records.dfy` (records, keys, values),
`query_builder.dfy`, `transactions.dfy`, `insert_trace.dfy`,
`batch_properties.dfy`, `postgres_insert.dfy` (the class).

A record is the dictionary `signal.to_dict()` returns. It is modelled as the
sequence of its (key, value) pairs in insertion order. Both `data.keys()` and
`data.values()` follow that order.

### Where the model follows the code and not its tests

The test file describes behaviour that `postgres_insert_block.py` does not
have. The model follows the code:

- No table-name or column-name validation is done, and no `ValueError` is
  raised (tests/test_postgres_block.py:52-55, 70-72 expect one).
- The builder takes a single dictionary. There is no bulk form
  (tests/test_postgres_block.py:29-33 passes a list).
- Under `commit_all`, a batch whose record raised is still committed after the
  rollback. The commit then applies to whatever later records added
  (`RaisingRecordIsRolledBackThenCommitted`). tests/test_postgres_block.py:93-95
  expects no commit.
- With `commit_all` false, `process_signals` never commits
  (`CommitsPerBatch`). tests/test_postgres_block.py:140-144 expects one commit
  per record.

Stripping every quote byte also removes the quotes that `mogrify` puts around
the table name and column list, and the doubled quotes it uses to escape them.
Identifiers therefore reach the SQL text unquoted and unescaped. Reading the
column list back gives the keys only when no key contains a comma
(`SplitJoinColumns`): the keys `["a, b"]` and `["a", "b"]` give the same text.

## Model

| member | source | states |
|---|---|---|
| `Records.Keys` | postgres_insert_block.py:41 | the column names are the record's keys, one per pair, in dictionary order |
| `Records.Values` | postgres_insert_block.py:27 | the bound values are the record's values, one per pair, in dictionary order |
| `Records.ZipKeysValues` | postgres_insert_block.py:26-43 | pairing the column list with the value tuple position by position gives back the record, so the i-th placeholder is bound to the value of the i-th column |
| `QueryBuilder.Join` | postgres_insert_block.py:41-42 | Python's `', '.join(parts)`: the parts in order with the separator between neighbours; empty for no parts, the part itself for one |
| `QueryBuilder.Placeholders` | postgres_insert_block.py:42 | `['%s'] * len(data)`: one `%s` per column |
| `QueryBuilder.TemplateArgs` | postgres_insert_block.py:39-43 | the three arguments given to `mogrify`: the table name, the keys joined by `", "`, and the placeholders joined by `", "` |
| `QueryBuilder.StripQuotes` | postgres_insert_block.py:45-46 | the result contains no quote byte, is no longer than its input, and is the input itself when the input has no quote byte (so stripping is idempotent) |
| `QueryBuilder.StripQuotesConcat` | postgres_insert_block.py:46 | stripping distributes over concatenation: bytes are removed one at a time and the bytes kept stay in their original order |
| `QueryBuilder.StripQuotesKeepsOtherBytes` | postgres_insert_block.py:46 | stripping removes every quote byte and keeps every other byte as many times as it occurred |
| `QueryBuilder.BuildInsertQuery` | postgres_insert_block.py:32-50 | building raises exactly when `mogrify` raises; a built query contains no quote byte |
| `QueryBuilder.BuiltQueryKeepsOtherBytes` | postgres_insert_block.py:40-46 | a built query holds exactly the non-quote bytes of `mogrify`'s output |
| `QueryBuilder.PlaceholderListHasOneMarkerPerColumn` | postgres_insert_block.py:42 | the placeholder list contains exactly `len(data)` occurrences of `%s` |
| `QueryBuilder.PlaceholderListUnfold` | postgres_insert_block.py:42 | a list of two or more placeholders is a marker, the separator, and the list of one fewer placeholders, which itself starts with a marker |
| `QueryBuilder.MarkerCountAfterSeparator` | postgres_insert_block.py:42 | a marker followed by the separator adds exactly one marker in front of a list that starts with a marker: the separator and its boundaries create none |
| `QueryBuilder.SplitJoinColumns` | postgres_insert_block.py:41 | for a non-empty key list in which no key contains a comma, reading the `", "`-joined column list back gives exactly the keys, in order |
| `QueryBuilder.TemplateArgsDescribeRecord` | postgres_insert_block.py:39-43 | `mogrify` gets three arguments: the table name, a column list that reads back as the record's keys in order (non-empty record, comma-free keys), and a placeholder list with one `%s` per key; an empty record gives an empty column list and an empty placeholder list |
| `Transactions.Step` | postgres_insert_block.py:26-62 | one call on the session: an accepted `execute` adds its row to the open transaction and a rejected one changes nothing; `rollback` empties the open transaction; `commit` appends it to the committed rows and empties it |
| `Transactions.Apply` | postgres_insert_block.py:26-62 | the session after a sequence of calls, applied one after the other from the first |
| `Transactions.CommittedOnlyGrows` | postgres_insert_block.py:58-62 | no sequence of calls removes or reorders a committed row: committed changes are permanent |
| `Transactions.NothingCommittedWithoutCommit` | postgres_insert_block.py:52-62 | a trace without a commit leaves the committed rows unchanged, whatever it executes or rolls back |
| `Transactions.Connection.constructor` | postgres_base_block.py:65-70 | a new session has nothing pending, nothing committed and an empty trace |
| `Transactions.Connection.Execute` | postgres_insert_block.py:26-27 | execute raises exactly when the server rejects the statement; an accepted statement adds its row to the open transaction; the call is recorded; a state that was the replay of the trace stays so |
| `Transactions.Connection.Rollback` | postgres_insert_block.py:52-56 | rollback discards every pending insert and leaves the committed rows unchanged |
| `Transactions.Connection.Commit` | postgres_insert_block.py:58-62 | commit appends every pending insert to the committed rows and leaves nothing pending |
| `InsertTrace.Raises` | postgres_insert_block.py:25-28 | the `try` block of `execute_insert` raises: building the query raised, or `execute` rejected the statement with the record's values |
| `InsertTrace.InsertEvents` | postgres_insert_block.py:22-30 | the calls `execute_insert` makes: a rollback alone when building raises; otherwise the `execute` with the record's values, followed by a rollback when it is rejected |
| `InsertTrace.LoopEvents` | postgres_insert_block.py:16-17 | the calls of the `for` loop: each record's `execute_insert` calls, in input order |
| `InsertTrace.BatchEvents` | postgres_insert_block.py:14-20 | the calls of `process_signals`: the loop's calls, then one commit when `commit_all` is set |
| `InsertTrace.InsertEventsShape` | postgres_insert_block.py:22-30 | one `execute_insert` makes one or two calls; it rolls back exactly once when building or executing raises and never otherwise; it never commits; its last call is a rollback exactly when it raised |
| `InsertTrace.LoopEventsExtend` | postgres_insert_block.py:16-17 | each turn of the loop appends that record's calls after those of the records before it |
| `BatchProperties.RollbacksMatchFailures` | postgres_insert_block.py:14-30 | the loop makes exactly as many rollbacks as there are raising records, and no commit |
| `BatchProperties.CommitsPerBatch` | postgres_insert_block.py:14-20 | a batch makes one rollback per raising record; with `commit_all` it commits exactly once, as its last call, however many records raised; without `commit_all` it never commits |
| `BatchProperties.RejectedExecuteIsRolledBack` | postgres_insert_block.py:25-30 | every execute the server rejects is immediately followed by a rollback |
| `BatchProperties.ExecutedConcat` | postgres_insert_block.py:16-17 | the statements (query text and values) executed by two traces one after the other are those of the first followed by those of the second |
| `BatchProperties.ExecutedInInputOrder` | postgres_insert_block.py:14-27 | the statements executed, as (query text, values) pairs, are exactly those of the records whose query builds, once each, in input order, each with its own query and its own record's values |
| `BatchProperties.EveryRecordIsExecuted` | postgres_insert_block.py:14-30 | when every query builds, the k-th statement executed is the k-th record's query text with its values, for every record, including the records after a statement the server rejected |
| `BatchProperties.BuiltStatementsOfBuildableRecords` | postgres_insert_block.py:16-17 | when every query builds, the statements that reach `execute` are those of all the records, in order |
| `BatchProperties.ExecutionsIgnoreVerdicts` | postgres_insert_block.py:25-30 | which statements (query text and values) are executed does not depend on the driver's or the server's verdicts: a rejected statement does not stop the batch |
| `BatchProperties.LastFailure` | postgres_insert_block.py:16-17 | the index it returns is a raising record (or -1), and no later record raises |
| `BatchProperties.InsertEffect` | postgres_insert_block.py:22-30 | a raising record leaves the transaction empty (the rollback); a successful one adds its row; committed rows are untouched |
| `BatchProperties.LoopEffect` | postgres_insert_block.py:14-17 | after the loop, committed rows are unchanged and the pending rows are the successful inserts after the last raising record (after what was pending before, when none raised) |
| `BatchProperties.SurvivorsStep` | postgres_insert_block.py:16-17 | a raising last record leaves nothing pending; a successful one adds its row at the end of what the records before it leave pending |
| `BatchProperties.SurvivorsPrefixStep` | postgres_insert_block.py:16-17 | the same step for the loop's running prefix: record `i` empties or extends what records `0..i-1` leave pending |
| `BatchProperties.BatchEffect` | postgres_insert_block.py:14-20 | with `commit_all`, nothing stays pending and the committed rows grow by exactly the successful inserts after the last raising record; without it, nothing is committed |
| `BatchProperties.BatchAfterReplay` | postgres_insert_block.py:14-20 | a batch run on a session that is the replay of any earlier trace commits (or leaves pending) the successful inserts after the last raising record on top of that session's state |
| `BatchProperties.AcceptedRecordIsCommitted` | postgres_insert_block.py:14-30 | a single accepted record under `commit_all`: no rollback, one commit, and its row is committed after what was pending |
| `BatchProperties.RaisingRecordIsRolledBackThenCommitted` | postgres_insert_block.py:14-30 | a single raising record under `commit_all`: one rollback and then one commit, leaving nothing pending and nothing new committed |
| `PostgresInsertBlock.PostgresInsert.constructor` | postgres_base_block.py:47-70 | a block holds its table name, `commit_all` flag, cursor and connection |
| `PostgresInsertBlock.PostgresInsert.ProcessSignals` | postgres_insert_block.py:14-20 | keeps the session the replay of its trace and makes exactly the batch's calls; with `commit_all`, leaves nothing pending and commits the successful inserts after the last raising record; without it, commits nothing; raises nothing |
| `PostgresInsertBlock.PostgresInsert.ExecuteInsert` | postgres_insert_block.py:22-30 | makes exactly the record's calls and keeps a replayed session replayed; a raising record leaves the transaction empty, a successful one adds its row; raises nothing |
| `PostgresInsertBlock.PostgresInsert.RollbackTransactions` | postgres_insert_block.py:52-56 | one rollback: nothing pending, committed rows unchanged, a replayed session stays replayed |
| `PostgresInsertBlock.PostgresInsert.CommitTransactions` | postgres_insert_block.py:58-62 | one commit: pending rows appended to the committed rows, nothing pending, a replayed session stays replayed |

## Left out

- postgres_base_block.py is not part of this model, apart from the fresh session that `connect` opens. `connect`, `disconnect`, `connection_status` and the property declarations wrap `psycopg2` and the block framework.
- The SQL rendering and escaping done by `psycopg2`'s `mogrify` and `execute`: `mogrify` is an uninterpreted parameter, and the driver's or the server's verdict on a statement is an oracle.
- Logging (postgres_insert_block.py:24, 29, 48): it does not change behaviour.
- A rollback or commit that itself raises (for instance on a lost connection): the model's rollback and commit always succeed. In the source such an exception would leave `execute_insert` or `process_signals`.
- `signal.to_dict()`: the batch is given as the list of dictionaries it produces.
- Distinct keys: a Python dictionary has distinct keys. No proved property needs this, so records are not required to have them.
- `commit_all` is read once per block as a constant. In the source it is a property read on each call, with the same value for a configured block.
- The cursor and the connection are one `Connection` object: the cursor's statements run in the connection's transaction.
- A rejected statement puts a PostgreSQL transaction in the aborted state. The model leaves the transaction unchanged instead, because the code rolls back right after every rejected statement (`RejectedExecuteIsRolledBack`).
- Survivors, LastFailure, LoopEffect, BatchEffect, ProcessSignals: the driver's or the server's verdict depends on the statement alone (`accepts` is fixed when the session opens), not on what the session already holds. A rejection caused by session state, such as a duplicate key for a row inserted earlier in the same batch, is therefore not modelled; the effect of each verdict, whatever decided it, is.
- Values are text, integers, booleans, null and bytes. Floats, lists and nested dictionaries are not represented: nothing in the model inspects a value, it only passes values to `execute` in order.
- Step, LoopEffect, BatchEffect, ProcessSignals: an accepted statement is taken to be the one INSERT the template describes, adding one row to the open transaction. Because the quotes that escape identifiers are stripped, a table name or key containing `;` can make the built text several statements, including a COMMIT or ROLLBACK that changes the transaction; the model does not cover that case, so `NothingCommittedWithoutCommit` and the "nothing committed without `commit_all`" clauses hold for the program only when the table name and keys contain no statement separator.
- PostgresInsert.constructor: building the block, `configure` reading its properties and `connect` opening the session and its cursor are one step in the model; the block is never observed unconfigured (with no connection).
