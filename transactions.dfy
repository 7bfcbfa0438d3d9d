/**
 * The database session the block talks to, seen through the three calls the
 * insert block makes on it: `cursor.execute`, `connection.rollback` and
 * `connection.commit`.
 *
 * A session holds the rows inserted by the open transaction (`pending`) and the
 * rows this session made permanent (`committed`; rows the table held before the
 * session opened are not part of the model). Every call is recorded in a trace of
 * events, and the session's state is at all times the replay of that trace from
 * an empty session. Whether the database accepts a statement (constraint
 * violations, a missing table or column, malformed SQL, or a parameter count the
 * driver finds wrong before sending anything) is decided by the driver or the
 * server, so it is an oracle fixed when the session is opened.
 */
module Transactions {
  import opened Records

  /** A row inserted by an accepted statement: the query text and its bound values. */
  datatype Row = Row(query: Bytes, params: seq<Value>)

  /** One call the block made on the session. */
  datatype Event =
    | Execute(query: Bytes, params: seq<Value>, accepted: bool)
    | Rollback
    | Commit

  datatype Db = Db(pending: seq<Row>, committed: seq<Row>)

  /** The driver's or the server's verdict on executing a query with its bound values. */
  type Verdict = (Bytes, seq<Value>) -> bool

  /** What one call does to the session: an accepted insert joins the open
      transaction, a rejected one leaves it as it was; a rollback discards
      everything pending; a commit makes everything pending permanent. */
  function Step(db: Db, e: Event): Db
  {
    match e
    case Execute(q, ps, accepted) =>
      if accepted then db.(pending := db.pending + [Row(q, ps)]) else db
    case Rollback => db.(pending := [])
    case Commit => Db([], db.committed + db.pending)
  }

  /** The session after a sequence of calls. */
  function Apply(db: Db, events: seq<Event>): Db
    decreases events
  {
    if events == [] then db else Apply(Step(db, events[0]), events[1..])
  }

  /** Replaying two traces one after the other is replaying their concatenation. */
  lemma {:induction false} ApplyConcat(db: Db, a: seq<Event>, b: seq<Event>)
    ensures Apply(db, a + b) == Apply(Apply(db, a), b)
    decreases a
  {
    if a == [] {
      assert a + b == b;
    } else {
      assert (a + b)[1..] == a[1..] + b;
      ApplyConcat(Step(db, a[0]), a[1..], b);
    }
  }

  /** Committed rows are permanent: no call removes or reorders them. */
  lemma {:induction false} CommittedOnlyGrows(db: Db, events: seq<Event>)
    ensures db.committed <= Apply(db, events).committed
    decreases events
  {
    if events != [] {
      CommittedOnlyGrows(Step(db, events[0]), events[1..]);
    }
  }

  /** Without a commit nothing becomes permanent. */
  lemma {:induction false} NothingCommittedWithoutCommit(db: Db, events: seq<Event>)
    requires Commit !in events
    ensures Apply(db, events).committed == db.committed
    decreases events
  {
    if events != [] {
      assert events[0] in events;
      assert forall e :: e in events[1..] ==> e in events;
      NothingCommittedWithoutCommit(Step(db, events[0]), events[1..]);
    }
  }

  /** An open database session (the connection and its cursor). */
  class Connection {
    /** The driver's or the server's verdict on each statement. */
    const accepts: Verdict

    var pending: seq<Row>
    var committed: seq<Row>
    /** Every call made on the session since it was opened. */
    ghost var trace: seq<Event>

    function State(): Db
      reads this
    {
      Db(pending, committed)
    }

    /** The session is what its calls have made of a fresh session. */
    ghost predicate Valid()
      reads this
    {
      State() == Apply(Db([], []), trace)
    }

    /** `psycopg2.connect(...)` followed by `.cursor()`: a fresh session. */
    constructor (accepts: Verdict)
      ensures Valid()
      ensures this.accepts == accepts
      ensures pending == [] && committed == [] && trace == []
    {
      this.accepts := accepts;
      pending, committed, trace := [], [], [];
    }

    /** `cursor.execute(query, params)`; `raised` is true when the server rejects it. */
    method Execute(query: Bytes, params: seq<Value>) returns (raised: bool)
      modifies this
      ensures old(Valid()) ==> Valid()
      ensures raised == !accepts(query, params)
      ensures trace == old(trace) + [Event.Execute(query, params, !raised)]
      ensures pending == (if raised then old(pending) else old(pending) + [Row(query, params)])
      ensures committed == old(committed)
    {
      raised := !accepts(query, params);
      AppendStep(Event.Execute(query, params, !raised));
      if !raised {
        pending := pending + [Row(query, params)];
      }
      trace := trace + [Event.Execute(query, params, !raised)];
    }

    /** `connection.rollback()`: discards every pending insert. */
    method Rollback()
      modifies this
      ensures old(Valid()) ==> Valid()
      ensures trace == old(trace) + [Event.Rollback]
      ensures pending == [] && committed == old(committed)
    {
      AppendStep(Event.Rollback);
      pending := [];
      trace := trace + [Event.Rollback];
    }

    /** `connection.commit()`: makes every pending insert permanent. */
    method Commit()
      modifies this
      ensures old(Valid()) ==> Valid()
      ensures trace == old(trace) + [Event.Commit]
      ensures pending == [] && committed == old(committed) + old(pending)
    {
      AppendStep(Event.Commit);
      committed := committed + pending;
      pending := [];
      trace := trace + [Event.Commit];
    }

    /** The replay of the trace extended by `e` is one step from the replay of the trace. */
    lemma AppendStep(e: Event)
      ensures Apply(Db([], []), trace + [e]) == Step(Apply(Db([], []), trace), e)
    {
      ApplyConcat(Db([], []), trace, [e]);
    }
  }
}
