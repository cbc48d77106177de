/**
 Materialising refcursor outputs (`PostgreProcedureResultMaterializer`): which
 portals are recorded, how each is fetched and closed, and which rows come out.
 The server may answer any query with a failure.
 */
module PortalDrain {
  import opened Options
  import opened ResourceTracker

  const CURSOR_FETCH_BATCH_SIZE := 1000

  type PortalName = string

  datatype Row = Row(data: string, cost: Option<nat>)

  datatype Command =
    | Convert                                 // the one query that converts composite outputs
    | Fetch(portal: PortalName, size: nat)
    | Close(portal: PortalName)

  datatype Answer = Failed | Rows(rows: seq<Row>)

  datatype Error =
    | QueryFailed
    | BadConversion
    | BadPortalName
    | DuplicatePortal
    | Limit(failure: Failure)

  /** A connection: what was sent, and what the k-th query is answered. */
  class Manager {
    const answers: nat -> Answer
    var trace: seq<Command>

    constructor (answers: nat -> Answer)
      ensures this.answers == answers && trace == []
    {
      this.answers := answers;
      trace := [];
    }

    method Query(command: Command) returns (answer: Answer)
      modifies `trace
      ensures trace == old(trace) + [command]
      ensures answer == answers(|old(trace)|)
    {
      answer := answers(|trace|);
      trace := trace + [command];
    }
  }

  // ---- an honest server

  datatype Cursor = Finite(rows: seq<Row>) | Endless(row: nat -> Row)

  function Min(a: nat, b: nat): nat { if a < b then a else b }

  /** At most n rows of a cursor from a position on. */
  function Slice(c: Cursor, from: nat, n: nat): seq<Row> {
    match c
    case Finite(rows) => rows[Min(from, |rows|)..Min(from + n, |rows|)]
    case Endless(row) => seq(n, i requires 0 <= i < n => row(from + i))
  }

  /** Rows of a portal that the first k answers delivered. */
  function Position(trace: seq<Command>, answers: nat -> Answer, k: nat, portal: PortalName): nat
    requires k <= |trace|
  {
    if k == 0 then 0
    else
      Position(trace, answers, k - 1, portal)
      + if trace[k - 1].Fetch? && trace[k - 1].portal == portal && answers(k - 1).Rows? then |answers(k - 1).rows| else 0
  }

  /** Every FETCH is answered with the next rows of its cursor, and no query fails. */
  ghost predicate Serves(trace: seq<Command>, answers: nat -> Answer, cursors: PortalName -> Cursor) {
    forall k: nat :: k < |trace| ==>
      && answers(k).Rows?
      && (trace[k].Fetch? ==>
            answers(k).rows == Slice(cursors(trace[k].portal), Position(trace, answers, k, trace[k].portal), trace[k].size))
  }

  lemma {:induction false} PositionOfPrefix(trace: seq<Command>, more: seq<Command>, answers: nat -> Answer, k: nat, portal: PortalName)
    requires k <= |trace|
    ensures Position(trace + more, answers, k, portal) == Position(trace, answers, k, portal)
  {
    if k > 0 { PositionOfPrefix(trace, more, answers, k - 1, portal); }
  }

  lemma ServesPrefix(trace: seq<Command>, more: seq<Command>, answers: nat -> Answer, cursors: PortalName -> Cursor)
    requires Serves(trace + more, answers, cursors)
    ensures Serves(trace, answers, cursors)
  {
    var longer := trace + more;
    forall k: nat | k < |trace|
      ensures answers(k).Rows?
      ensures trace[k].Fetch? ==>
                answers(k).rows == Slice(cursors(trace[k].portal), Position(trace, answers, k, trace[k].portal), trace[k].size)
    {
      assert longer[k] == trace[k];
      assert answers(k).Rows?;
      if trace[k].Fetch? { PositionOfPrefix(trace, more, answers, k, trace[k].portal); }
    }
  }

  /** The answer to the last FETCH of a trace. */
  lemma ServesLast(trace: seq<Command>, command: Command, answers: nat -> Answer, cursors: PortalName -> Cursor)
    requires Serves(trace + [command], answers, cursors)
    ensures answers(|trace|).Rows?
    ensures command.Fetch? ==>
              answers(|trace|).rows ==
              Slice(cursors(command.portal), Position(trace, answers, |trace|, command.portal), command.size)
  {
    var longer := trace + [command];
    assert longer[|trace|] == command;
    if command.Fetch? { PositionOfPrefix(trace, [command], answers, |trace|, command.portal); }
  }

  lemma PositionStep(trace: seq<Command>, command: Command, answers: nat -> Answer, portal: PortalName)
    ensures Position(trace + [command], answers, |trace| + 1, portal) ==
            Position(trace, answers, |trace|, portal)
            + if command.Fetch? && command.portal == portal && answers(|trace|).Rows? then |answers(|trace|).rows| else 0
  {
    PositionOfPrefix(trace, [command], answers, |trace|, portal);
  }

  /** Rows that the first k answers delivered. */
  function Delivered(trace: seq<Command>, answers: nat -> Answer, k: nat): nat
    requires k <= |trace|
  {
    if k == 0 then 0
    else
      Delivered(trace, answers, k - 1)
      + if trace[k - 1].Fetch? && answers(k - 1).Rows? then |answers(k - 1).rows| else 0
  }

  /** No FETCH is answered with more rows than it asks for. */
  ghost predicate Modest(trace: seq<Command>, answers: nat -> Answer) {
    forall k: nat :: k < |trace| && trace[k].Fetch? && answers(k).Rows? ==> |answers(k).rows| <= trace[k].size
  }

  lemma {:induction false} DeliveredOfPrefix(trace: seq<Command>, more: seq<Command>, answers: nat -> Answer, k: nat)
    requires k <= |trace|
    ensures Delivered(trace + more, answers, k) == Delivered(trace, answers, k)
  {
    if k > 0 { DeliveredOfPrefix(trace, more, answers, k - 1); }
  }

  /** What one more query adds to the rows delivered. */
  lemma DeliveredStep(trace: seq<Command>, command: Command, answers: nat -> Answer)
    ensures Delivered(trace + [command], answers, |trace| + 1) ==
            Delivered(trace, answers, |trace|) + if command.Fetch? && answers(|trace|).Rows? then |answers(|trace|).rows| else 0
    ensures Modest(trace + [command], answers) ==>
              && Modest(trace, answers)
              && (command.Fetch? && answers(|trace|).Rows? ==> |answers(|trace|).rows| <= command.size)
  {
    var longer := trace + [command];
    DeliveredOfPrefix(trace, [command], answers, |trace|);
    assert longer[|trace|] == command;
    assert forall k :: 0 <= k < |trace| ==> longer[k] == trace[k];
  }

  // ---- one portal

  /** FETCHes of one portal, then its CLOSE. */
  ghost predicate Drains(commands: seq<Command>, portal: PortalName) {
    && commands != []
    && commands[|commands| - 1] == Close(portal)
    && forall i :: 0 <= i < |commands| - 1 ==> commands[i].Fetch? && commands[i].portal == portal
  }

  function Costs(rows: seq<Row>): seq<Option<nat>> {
    seq(|rows|, i requires 0 <= i < |rows| => rows[i].cost)
  }

  /** What draining a cursor gives when the server serves: its rows, or the limit they break. */
  function Drained(c: Cursor, t: Totals, limits: Limits): (Totals, Result<seq<Row>, Error>)
    requires t.rows <= limits.maxProcedureRows
  {
    var seen := Slice(c, 0, limits.maxProcedureRows - t.rows + 1);
    var (after, failure) := CountRows(t, limits, Costs(seen));
    (after, if failure.Some? then Err(Limit(failure.value)) else Ok(seen))
  }

  lemma {:induction false} CountRowsAppend(t: Totals, limits: Limits, a: seq<Option<nat>>, b: seq<Option<nat>>)
    ensures CountRows(t, limits, a + b) ==
            if CountRows(t, limits, a).1.Some? then CountRows(t, limits, a)
            else CountRows(CountRows(t, limits, a).0, limits, b)
    decreases |a|
  {
    hide CountRow;
    if a == [] {
      assert a + b == b;
    } else {
      assert (a + b)[1..] == a[1..] + b;
      CountRowsAppend(CountRow(t, limits, a[0]).0, limits, a[1..], b);
    }
  }

  lemma {:induction false} CountedRows(t: Totals, limits: Limits, a: seq<Option<nat>>)
    ensures CountRows(t, limits, a).1.None? ==> CountRows(t, limits, a).0.rows == t.rows + |a|
    ensures t.rows <= limits.maxProcedureRows && CountRows(t, limits, a).1.None? ==> t.rows + |a| <= limits.maxProcedureRows
    decreases |a|
  {
    if a != [] && CountRow(t, limits, a[0]).1.None? {
      CountedRows(CountRow(t, limits, a[0]).0, limits, a[1..]);
    }
  }

  /** The rows read so far are the first of the cursor, and were all accepted. */
  ghost predicate ReadSoFar(c: Cursor, start: Totals, limits: Limits, rows: seq<Row>, now: Totals) {
    && rows == Slice(c, 0, |rows|)
    && CountRows(start, limits, Costs(rows)) == (now, None)
  }

  lemma SliceJoins(c: Cursor, m: nat, n: nat)
    requires |Slice(c, 0, m)| == m
    ensures Slice(c, 0, m) + Slice(c, m, n) == Slice(c, 0, m + |Slice(c, m, n)|)
    ensures |Slice(c, 0, m + |Slice(c, m, n)|)| == m + |Slice(c, m, n)|
    ensures |Slice(c, m, n)| <= n
    ensures |Slice(c, m, n)| < n ==> c.Finite? && |c.rows| == m + |Slice(c, m, n)|
  {}

  lemma CostsJoin(a: seq<Row>, b: seq<Row>)
    ensures Costs(a + b) == Costs(a) + Costs(b)
  {}

  /** A row that breaks a limit settles the answer, whatever follows it. */
  lemma BatchRejected(c: Cursor, start: Totals, limits: Limits, rows: seq<Row>, now: Totals, size: nat, taken: nat)
    requires start.rows <= limits.maxProcedureRows && now.rows <= limits.maxProcedureRows
    requires ReadSoFar(c, start, limits, rows, now)
    requires size <= limits.maxProcedureRows - now.rows + 1 && taken <= |Slice(c, |rows|, size)|
    requires CountRows(now, limits, Costs(Slice(c, |rows|, size)[..taken])).1.Some?
    ensures var (after, failure) := CountRows(now, limits, Costs(Slice(c, |rows|, size)[..taken]));
            Drained(c, start, limits) == (after, Err(Limit(failure.value)))
  {
    hide Slice, CountRows, CountRow, Costs;
    var m, batch := |rows|, Slice(c, |rows|, size);
    CountedRows(start, limits, Costs(rows));
    CostsLength(rows);
    SliceJoins(c, m, size);
    var visible := limits.maxProcedureRows - start.rows + 1;
    var all := Slice(c, 0, visible);
    SliceExtends(c, m + |batch|, visible);
    PieceInFront(all, rows, batch, taken);
    var head := batch[..taken];
    var rest := batch[taken..] + all[m + |batch|..];
    CostsJoin(rows, head + rest);
    CostsJoin(head, rest);
    CountRowsAppend(start, limits, Costs(rows), Costs(head) + Costs(rest));
    CountRowsAppend(now, limits, Costs(head), Costs(rest));
  }

  lemma CostsLength(rows: seq<Row>)
    ensures |Costs(rows)| == |rows|
  {}

  lemma PieceInFront(all: seq<Row>, a: seq<Row>, b: seq<Row>, n: nat)
    requires n <= |b| && |all| >= |a| + |b| && all[..|a| + |b|] == a + b
    ensures all == a + (b[..n] + (b[n..] + all[|a| + |b|..]))
  {
    assert b == b[..n] + b[n..];
    assert all == (a + b) + all[|a| + |b|..];
  }

  /** A batch accepted as a whole; a short one was the last. */
  lemma BatchAccepted(c: Cursor, start: Totals, limits: Limits, rows: seq<Row>, now: Totals, size: nat)
    requires start.rows <= limits.maxProcedureRows && now.rows <= limits.maxProcedureRows
    requires ReadSoFar(c, start, limits, rows, now)
    requires CountRows(now, limits, Costs(Slice(c, |rows|, size))).1.None?
    ensures var batch := Slice(c, |rows|, size);
            var after := CountRows(now, limits, Costs(batch)).0;
            && ReadSoFar(c, start, limits, rows + batch, after)
            && (|batch| < size ==> Drained(c, start, limits) == (after, Ok(rows + batch)))
  {
    var m, batch := |rows|, Slice(c, |rows|, size);
    SliceJoins(c, m, size);
    CountedRows(start, limits, Costs(rows));
    CountedRows(now, limits, Costs(batch));
    CostsJoin(rows, batch);
    CountRowsAppend(start, limits, Costs(rows), Costs(batch));
    hide CountRows, Costs;
    if |batch| < size {
      assert Slice(c, 0, limits.maxProcedureRows - start.rows + 1) == rows + batch;
    }
  }

  lemma SliceExtends(c: Cursor, m: nat, n: nat)
    requires m <= n && |Slice(c, 0, m)| == m
    ensures |Slice(c, 0, n)| >= m && Slice(c, 0, n)[..m] == Slice(c, 0, m)
  {}

  /** Drains one portal in batches and closes it, whatever happens. */
  method FetchAndClosePortal(manager: Manager, portal: PortalName, limits: Limits, start: Totals, ghost cursors: PortalName -> Cursor)
    returns (now: Totals, r: Result<seq<Row>, Error>)
    requires start.rows <= limits.maxProcedureRows
    modifies manager`trace
    ensures old(manager.trace) <= manager.trace
    ensures Drains(manager.trace[|old(manager.trace)|..], portal)
    ensures r.Ok? ==> now.rows <= limits.maxProcedureRows
    ensures Serves(manager.trace, manager.answers, cursors) && Position(old(manager.trace), manager.answers, |old(manager.trace)|, portal) == 0 ==>
              (now, r) == Drained(cursors(portal), start, limits)
    ensures Modest(manager.trace, manager.answers) ==>
              Delivered(manager.trace, manager.answers, |manager.trace|) - Delivered(old(manager.trace), manager.answers, |old(manager.trace)|) <=
              if r.Ok? then now.rows - start.rows else limits.maxProcedureRows - start.rows + 1
  {
    hide Serves, Drained, ReadSoFar, Position, Slice, CountRows, Costs, CountRow, Modest, Delivered;
    ghost var before := manager.trace;
    ghost var c := cursors(portal);
    ghost var unread := Position(before, manager.answers, |before|, portal) == 0;
    var rows: seq<Row> := [];
    var fetchError: Option<Error> := None;
    now := start;
    NothingRead(c, start, limits);
    var open := true;
    while open
      invariant before <= manager.trace
      invariant forall i :: |before| <= i < |manager.trace| ==> manager.trace[i].Fetch? && manager.trace[i].portal == portal
      invariant fetchError.None? ==> start.rows <= now.rows <= limits.maxProcedureRows
      invariant unread && Serves(manager.trace, manager.answers, cursors) && open ==>
                  && fetchError.None?
                  && ReadSoFar(c, start, limits, rows, now)
                  && Position(manager.trace, manager.answers, |manager.trace|, portal) == |rows|
      invariant unread && Serves(manager.trace, manager.answers, cursors) && !open ==>
                  (now, if fetchError.Some? then Err(fetchError.value) else Ok(rows)) == Drained(c, start, limits)
      invariant open ==> fetchError.None?
      invariant Modest(manager.trace, manager.answers) ==>
                  Delivered(manager.trace, manager.answers, |manager.trace|) - Delivered(before, manager.answers, |before|) <=
                  if fetchError.None? then now.rows - start.rows else limits.maxProcedureRows - start.rows + 1
      decreases open, limits.maxProcedureRows - now.rows
    {
      var fetchSize := Min(CURSOR_FETCH_BATCH_SIZE, limits.maxProcedureRows - now.rows + 1);
      ghost var sent := manager.trace;
      var answer := manager.Query(Fetch(portal, fetchSize));
      DeliveredStep(sent, Fetch(portal, fetchSize), manager.answers);
      AnswerIsNext(sent, portal, fetchSize, manager.answers, cursors);
      if answer.Failed? {
        fetchError := Some(QueryFailed);
        open := false;
      } else {
        ghost var earlier, counted := rows, now;
        var failure, taken;
        now, failure, taken := AddRows(now, limits, answer.rows);
        rows := rows + answer.rows[..taken];
        if failure.Some? {
          fetchError := Some(Limit(failure.value));
          open := false;
          if unread && Serves(manager.trace, manager.answers, cursors) {
            BatchRejected(c, start, limits, earlier, counted, fetchSize, taken + 1);
          }
        } else {
          assert answer.rows[..taken] == answer.rows;
          if unread && Serves(manager.trace, manager.answers, cursors) {
            BatchAccepted(c, start, limits, earlier, counted, fetchSize);
          }
          if |answer.rows| < fetchSize {
            open := false;
          }
        }
      }
    }
    ghost var fetched := manager.trace;
    var closed := manager.Query(Close(portal));
    DeliveredStep(fetched, Close(portal), manager.answers);
    if Serves(manager.trace, manager.answers, cursors) {
      ServesPrefix(fetched, [Close(portal)], manager.answers, cursors);
      ServesLast(fetched, Close(portal), manager.answers, cursors);
    }
    r := if fetchError.Some? then Err(fetchError.value) else if closed.Failed? then Err(QueryFailed) else Ok(rows);
  }

  lemma NothingRead(c: Cursor, start: Totals, limits: Limits)
    ensures ReadSoFar(c, start, limits, [], start)
  {
    assert Costs([]) == [];
  }

  lemma AnswerIsNext(sent: seq<Command>, portal: PortalName, size: nat, answers: nat -> Answer, cursors: PortalName -> Cursor)
    ensures Serves(sent + [Fetch(portal, size)], answers, cursors) ==>
              && Serves(sent, answers, cursors)
              && answers(|sent|).Rows?
              && answers(|sent|).rows == Slice(cursors(portal), Position(sent, answers, |sent|, portal), size)
              && Position(sent + [Fetch(portal, size)], answers, |sent| + 1, portal) ==
                 Position(sent, answers, |sent|, portal) + |answers(|sent|).rows|
  {
    hide Serves, Position, Slice;
    if Serves(sent + [Fetch(portal, size)], answers, cursors) {
      ServesPrefix(sent, [Fetch(portal, size)], answers, cursors);
      ServesLast(sent, Fetch(portal, size), answers, cursors);
      PositionStep(sent, Fetch(portal, size), answers, portal);
    }
  }

  /** Counts the rows of a batch one by one, up to the first that breaks a limit. */
  method AddRows(start: Totals, limits: Limits, batch: seq<Row>) returns (now: Totals, failure: Option<Failure>, taken: nat)
    requires start.rows <= limits.maxProcedureRows
    ensures taken <= |batch|
    ensures failure.None? ==> taken == |batch| && (now, None) == CountRows(start, limits, Costs(batch))
    ensures failure.None? ==> now.rows == start.rows + |batch| <= limits.maxProcedureRows
    ensures failure.Some? ==> taken < |batch| && (now, failure) == CountRows(start, limits, Costs(batch[..taken + 1]))
  {
    hide CountRow;
    now, failure, taken := start, None, 0;
    assert Costs(batch[..0]) == [];
    while taken < |batch|
      invariant taken <= |batch| && failure.None?
      invariant (now, None) == CountRows(start, limits, Costs(batch[..taken]))
    {
      CountRowsAppend(start, limits, Costs(batch[..taken]), [batch[taken].cost]);
      assert Costs(batch[..taken + 1]) == Costs(batch[..taken]) + [batch[taken].cost];
      assert [batch[taken].cost][1..] == [];
      var (counted, f) := CountRow(now, limits, batch[taken].cost);
      now, failure := counted, f;
      if failure.Some? {
        return;
      }
      taken := taken + 1;
    }
    assert batch[..taken] == batch;
    CountedRows(start, limits, Costs(batch));
  }
}
