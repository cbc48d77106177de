/**
 From a change event to refetch queries (`makeSubscriptionHandler`): the ROWIDs
 of the subscribed table are collected without repetition, counted against the
 limit, and asked for in queries of at most a thousand.
 */
module CqnRowIds {
  import opened Options
  import opened CqnPlan
  import opened CqnGrammar
  import opened CqnRefetch
  import opened CqnMeaning
  import opened Sequences

  const MAX_ROWIDS_PER_QUERY := 1_000

  type Pair = (string, RowId)

  /** One table of an event; a table without row information has no rows. */
  datatype Change = Change(name: string, rows: seq<string>)

  datatype Query = Query(table: string, rowIds: seq<RowId>)

  /** What the server is given for a query. */
  datatype Execution = Execution(sql: string, bindings: map<string, RowId>)

  /** How executing one query and handing its rows on ends. */
  datatype Outcome = Fetched(rows: nat) | ExecuteFails | CallbackFails

  predicate Fails(outcome: Outcome, chunk: nat) {
    !outcome.Fetched? || outcome.rows > chunk
  }

  predicate IsRowIdChar(c: char) {
    (IsNameChar(c) && c != '$' && c != '#') || c in "+/=.-"
  }

  function ValidateRowId(value: string): Option<RowId> {
    var trimmed := Trim(value);
    if trimmed != [] && forall i :: 0 <= i < |trimmed| ==> IsRowIdChar(trimmed[i]) then Some(trimmed) else None
  }

  function FirstDot(s: string): (n: nat)
    ensures n <= |s|
  {
    if s == [] || s[0] == '.' then 0 else 1 + FirstDot(s[1..])
  }

  /** Every dot-separated part, trimmed, is an identifier. */
  function ValidateName(s: string): Option<string>
    decreases |s|
  {
    var n := FirstDot(s);
    var part := Trim(s[..n]);
    if !Identifier(part) then None
    else if n == |s| then Some(part)
    else match ValidateName(s[n + 1..])
      case None => None
      case Some(rest) => Some(part + "." + rest)
  }

  function LastPart(s: string): string
    decreases |s|
  {
    var n := FirstDot(s);
    if n == |s| then s else LastPart(s[n + 1..])
  }

  predicate IsSameTable(configured: string, changed: string) {
    var a, b := Upper(configured), Upper(changed);
    && LastPart(a) == LastPart(b)
    && (FirstDot(a) == |a| || FirstDot(b) == |b| || a == b)
  }

  lemma {:induction false} FirstDotOf(a: string, b: string)
    requires '.' !in a
    ensures FirstDot(a) == |a| && FirstDot(a + "." + b) == |a|
  {
    if a == [] {
      assert a + "." + b == "." + b;
    } else {
      assert (a + "." + b)[1..] == a[1..] + "." + b;
      FirstDotOf(a[1..], b);
    }
  }

  lemma LastPartOf(a: string, b: string)
    requires '.' !in a && '.' !in b
    ensures LastPart(b) == b && LastPart(a + "." + b) == b
  {
    FirstDotOf(a, b);
    FirstDotOf(b, []);
    assert (a + "." + b)[|a| + 1..] == b;
  }

  lemma UpperJoins(a: string, b: string)
    ensures Upper(a + "." + b) == Upper(a) + "." + Upper(b)
    ensures '.' !in a ==> '.' !in Upper(a)
  {
    assert UpperChar('.') == '.';
    assert forall c: char :: UpperChar(c) == '.' ==> c == '.';
  }

  /**
   Whatever their case, two tables are the same if their own names are and, when
   both are given a schema, their schemas are.
   */
  lemma SameTableExactly(schema: string, table: string, schema': string, table': string)
    requires '.' !in schema && '.' !in table && '.' !in schema' && '.' !in table'
    ensures IsSameTable(table, table') <==> Upper(table) == Upper(table')
    ensures IsSameTable(schema + "." + table, table') <==> Upper(table) == Upper(table')
    ensures IsSameTable(table, schema' + "." + table') <==> Upper(table) == Upper(table')
    ensures IsSameTable(schema + "." + table, schema' + "." + table') <==> Upper(table) == Upper(table') && Upper(schema) == Upper(schema')
  {
    UpperJoins(schema, table);
    UpperJoins(schema', table');
    UpperJoins(table, []);
    UpperJoins(table', []);
    hide Upper;
    LastPartOf(Upper(schema), Upper(table));
    LastPartOf(Upper(schema'), Upper(table'));
    FirstDotOf(Upper(schema), Upper(table));
    FirstDotOf(Upper(schema'), Upper(table'));
    FirstDotOf(Upper(table), []);
    FirstDotOf(Upper(table'), []);
    SameJoin(Upper(schema), Upper(table), Upper(schema'), Upper(table'));
  }

  lemma SameJoin(a: string, b: string, c: string, d: string)
    ensures b == d ==> (a + "." + b == c + "." + d <==> a == c)
  {
    if a + "." + b == c + "." + d && b == d {
      assert |a| == |c|;
      assert (a + "." + b)[..|a|] == a && (c + "." + d)[..|c|] == c;
    }
  }

  /** An event table that concerns the subscription. */
  predicate Concerns(table: string, change: Change) {
    ValidateName(change.name).Some? && IsSameTable(table, ValidateName(change.name).value)
  }

  predicate CleanRows(rows: seq<string>) {
    forall i :: 0 <= i < |rows| ==> ValidateRowId(rows[i]).Some?
  }

  predicate Clean(table: string, change: Change) {
    ValidateName(change.name).Some? && (Concerns(table, change) ==> CleanRows(change.rows))
  }

  /** The distinct ROWIDs of a list, under a table name. */
  function RowPairs(name: string, rows: seq<string>): set<Pair> {
    if rows == [] then {}
    else
      var last := ValidateRowId(rows[|rows| - 1]);
      RowPairs(name, rows[..|rows| - 1]) + if last.Some? then {(name, last.value)} else {}
  }

  /** The distinct ROWIDs of an event, each under the table name it came with. */
  function Pairs(table: string, changes: seq<Change>): set<Pair> {
    if changes == [] then {}
    else
      var last := changes[|changes| - 1];
      Pairs(table, changes[..|changes| - 1])
      + if Concerns(table, last) then RowPairs(ValidateName(last.name).value, last.rows) else {}
  }

  /** ROWIDs per table name, in the order both were first seen. */
  datatype Affected = Affected(names: seq<string>, rowIds: map<string, seq<RowId>>) {
    ghost predicate Valid() {
      && NoDuplicates(names)
      && (forall n :: n in names <==> n in rowIds)
      && forall n :: n in rowIds ==> NoDuplicates(rowIds[n])
    }

    function RowIdsOf(name: string): seq<RowId> {
      if name in rowIds then rowIds[name] else []
    }

    function Set(name: string, ids: seq<RowId>): Affected {
      Affected(if name in rowIds then names else names + [name], rowIds[name := ids])
    }

    /** Exactly these pairs are recorded. */
    ghost predicate Records(pairs: set<Pair>) {
      forall n, id :: (n, id) in pairs <==> id in RowIdsOf(n)
    }
  }

  datatype Refusal = InvalidIdentifier | TooManyRows

  lemma SetKeepsRecord(a: Affected, pairs: set<Pair>, name: string, ids: seq<RowId>, more: set<Pair>)
    requires a.Valid() && a.Records(pairs) && NoDuplicates(ids)
    requires forall n, id :: (n, id) in more <==> if n == name then id in ids else (n, id) in pairs
    ensures a.Set(name, ids).Valid() && a.Set(name, ids).Records(more)
  {}

  /** Whole-event validation and counting; refusing leaves nothing to ask for. */
  method Collect(table: string, changes: seq<Change>, maxRows: nat) returns (r: Result<Affected, Refusal>)
    ensures r.Ok? <==> (forall i :: 0 <= i < |changes| ==> Clean(table, changes[i])) && |Pairs(table, changes)| <= maxRows
    ensures r.Ok? ==> r.value.Valid() && r.value.Records(Pairs(table, changes))
  {
    hide ValidateName, ValidateRowId, IsSameTable, RowPairs, CleanRows, Pairs, NoDuplicates, Affected.Valid, Affected.Records, Affected.Set;
    var affected := Affected([], map[]);
    var distinct := 0;
    NothingCollected(table, changes);
    var i := 0;
    while i < |changes|
      invariant i <= |changes|
      invariant forall k :: 0 <= k < i ==> Clean(table, changes[k])
      invariant affected.Valid() && affected.Records(Pairs(table, changes[..i]))
      invariant distinct == |Pairs(table, changes[..i])| <= maxRows
    {
      var change := changes[i];
      PairsStep(table, changes, i);
      var validated := ValidateName(change.name);
      if validated.None? {
        return Err(InvalidIdentifier);
      }
      if Concerns(table, change) {
        var ids, total := CollectRows(validated.value, change.rows, affected, Pairs(table, changes[..i]), distinct, maxRows);
        if ids.Err? {
          PairsGrow(table, changes, i + 1);
          return Err(ids.error);
        }
        ConcernRecorded(affected, table, changes, i, ids.value);
        affected := affected.Set(validated.value, ids.value);
        distinct := total;
      }
      i := i + 1;
    }
    assert changes[..i] == changes;
    r := Ok(affected);
  }

  lemma NothingCollected(table: string, changes: seq<Change>)
    ensures Affected([], map[]).Valid() && Affected([], map[]).Records(Pairs(table, changes[..0]))
    ensures |Pairs(table, changes[..0])| == 0
  {}

  lemma ConcernRecorded(affected: Affected, table: string, changes: seq<Change>, i: nat, ids: seq<RowId>)
    requires i < |changes| && Concerns(table, changes[i]) && affected.Valid() && affected.Records(Pairs(table, changes[..i]))
    requires NoDuplicates(ids)
    requires var name := ValidateName(changes[i].name).value;
      forall id :: id in ids <==> (name, id) in Pairs(table, changes[..i]) + RowPairs(name, changes[i].rows)
    ensures var after := affected.Set(ValidateName(changes[i].name).value, ids);
            after.Valid() && after.Records(Pairs(table, changes[..i + 1]))
  {
    hide ValidateName, RowPairs, Pairs, IsSameTable, Affected.Valid, Affected.Set, NoDuplicates;
    PairsStep(table, changes, i);
    SetKeepsRecord(affected, Pairs(table, changes[..i]), ValidateName(changes[i].name).value, ids, Pairs(table, changes[..i + 1]));
  }

  /** The rows of one table, added to those already recorded under its name. */
  method CollectRows(name: string, rows: seq<string>, affected: Affected, ghost pairs: set<Pair>, distinct: nat, maxRows: nat)
    returns (r: Result<seq<RowId>, Refusal>, total: nat)
    requires affected.Valid() && affected.Records(pairs) && distinct == |pairs| <= maxRows
    ensures r.Ok? <==> CleanRows(rows) && |pairs + RowPairs(name, rows)| <= maxRows
    ensures r.Ok? ==>
              && NoDuplicates(r.value)
              && total == |pairs + RowPairs(name, rows)|
              && (forall id :: id in r.value <==> (name, id) in pairs + RowPairs(name, rows))
  {
    hide ValidateRowId, RowPairs, Listed, NoDuplicates, Affected.Valid, Affected.Records;
    var ids := affected.RowIdsOf(name);
    total := distinct;
    var i := 0;
    ListedFirst(affected, pairs, name, rows);
    while i < |rows|
      invariant i <= |rows| && CleanRows(rows[..i])
      invariant Listed(ids, total, pairs + RowPairs(name, rows[..i]), name)
      invariant total <= maxRows
    {
      var validated := ValidateRowId(rows[i]);
      if validated.None? {
        return Err(InvalidIdentifier), total;
      }
      var id := validated.value;
      RowPairsStep(name, rows, i);
      ListedStep(ids, total, pairs + RowPairs(name, rows[..i]), name, id);
      assert pairs + RowPairs(name, rows[..i + 1]) == pairs + RowPairs(name, rows[..i]) + {(name, id)};
      if id !in ids {
        ids := ids + [id];
        total := total + 1;
        if total > maxRows {
          TooManyStays(pairs, name, rows, i + 1, ids, total);
          return Err(TooManyRows), total;
        }
      }
      i := i + 1;
    }
    assert rows[..i] == rows;
    r := Ok(ids);
    ListedMeans(ids, total, pairs + RowPairs(name, rows), name);
  }

  /** `ids` lists what `all` has under `name`, each once; `total` counts `all`. */
  ghost predicate Listed(ids: seq<RowId>, total: nat, all: set<Pair>, name: string) {
    && NoDuplicates(ids)
    && (forall id :: id in ids <==> (name, id) in all)
    && total == |all|
  }

  lemma ListedMeans(ids: seq<RowId>, total: nat, all: set<Pair>, name: string)
    requires Listed(ids, total, all, name)
    ensures NoDuplicates(ids) && total == |all| && forall id :: id in ids <==> (name, id) in all
  {}

  lemma ListedFirst(affected: Affected, pairs: set<Pair>, name: string, rows: seq<string>)
    requires affected.Valid() && affected.Records(pairs)
    ensures Listed(affected.RowIdsOf(name), |pairs|, pairs + RowPairs(name, rows[..0]), name)
  {
    assert pairs + RowPairs(name, rows[..0]) == pairs;
  }

  lemma ListedStep(ids: seq<RowId>, total: nat, all: set<Pair>, name: string, id: RowId)
    requires Listed(ids, total, all, name)
    ensures if id in ids then Listed(ids, total, all + {(name, id)}, name)
            else Listed(ids + [id], total + 1, all + {(name, id)}, name)
  {
    if id in ids {
      assert all + {(name, id)} == all;
    } else {
      AppendKeepsDistinct(ids, id);
    }
  }

  lemma TooManyStays(pairs: set<Pair>, name: string, rows: seq<string>, i: nat, ids: seq<RowId>, total: nat)
    requires i <= |rows| && Listed(ids, total, pairs + RowPairs(name, rows[..i]), name)
    ensures total <= |pairs + RowPairs(name, rows)|
  {
    RowPairsGrow(name, rows, i);
    Larger(pairs + RowPairs(name, rows[..i]), pairs + RowPairs(name, rows));
  }

  lemma Larger(a: set<Pair>, b: set<Pair>)
    requires a <= b
    ensures |a| <= |b|
  {
    assert b == a + (b - a);
  }

  lemma RowPairsStep(name: string, rows: seq<string>, i: nat)
    requires i < |rows|
    ensures RowPairs(name, rows[..i + 1]) ==
            RowPairs(name, rows[..i]) + if ValidateRowId(rows[i]).Some? then {(name, ValidateRowId(rows[i]).value)} else {}
  {
    assert rows[..i + 1][..i] == rows[..i];
  }

  lemma {:induction false} RowPairsGrow(name: string, rows: seq<string>, i: nat)
    requires i <= |rows|
    ensures RowPairs(name, rows[..i]) <= RowPairs(name, rows)
    decreases |rows| - i
  {
    if i == |rows| {
      assert rows[..i] == rows;
    } else {
      RowPairsStep(name, rows, i);
      RowPairsGrow(name, rows, i + 1);
    }
  }

  lemma PairsStep(table: string, changes: seq<Change>, i: nat)
    requires i < |changes|
    ensures Pairs(table, changes[..i + 1]) ==
            Pairs(table, changes[..i]) + if Concerns(table, changes[i]) then RowPairs(ValidateName(changes[i].name).value, changes[i].rows) else {}
    ensures Concerns(table, changes[i]) ==>
              forall n, id :: n != ValidateName(changes[i].name).value ==>
                ((n, id) in Pairs(table, changes[..i + 1]) <==> (n, id) in Pairs(table, changes[..i]))
  {
    assert changes[..i + 1][..i] == changes[..i];
    if Concerns(table, changes[i]) { RowPairsNamed(ValidateName(changes[i].name).value, changes[i].rows); }
  }

  lemma {:induction false} RowPairsNamed(name: string, rows: seq<string>)
    ensures forall n, id :: (n, id) in RowPairs(name, rows) ==> n == name
  {
    if rows != [] { RowPairsNamed(name, rows[..|rows| - 1]); }
  }

  lemma {:induction false} PairsGrow(table: string, changes: seq<Change>, i: nat)
    requires i <= |changes|
    ensures |Pairs(table, changes[..i])| <= |Pairs(table, changes)|
    decreases |changes| - i
  {
    if i == |changes| {
      assert changes[..i] == changes;
    } else {
      PairsStep(table, changes, i);
      Larger(Pairs(table, changes[..i]), Pairs(table, changes[..i + 1]));
      PairsGrow(table, changes, i + 1);
    }
  }

  // ---- the queries

  /** The end of the next piece of at most a thousand. */
  function ChunkEnd(length: nat, offset: nat): (end: nat)
    ensures offset < length ==> offset < end <= length
  {
    if offset + MAX_ROWIDS_PER_QUERY <= length then offset + MAX_ROWIDS_PER_QUERY else length
  }

  /** The queries of one table, from `offset` on. */
  function QueriesOf(table: string, ids: seq<RowId>, offset: nat): seq<Query>
    requires offset <= |ids|
    decreases |ids| - offset
  {
    if offset == |ids| then []
    else [Query(table, ids[offset..ChunkEnd(|ids|, offset)])] + QueriesOf(table, ids, ChunkEnd(|ids|, offset))
  }

  /** All queries of an event, table by table. */
  function AllQueries(affected: Affected): seq<Query>
    decreases |affected.names|
  {
    if affected.names == [] then []
    else
      QueriesOf(affected.names[0], affected.RowIdsOf(affected.names[0]), 0)
      + AllQueries(affected.(names := affected.names[1..]))
  }

  /** Every ROWID asked for, as often as it is asked for. */
  function Asked(queries: seq<Query>): multiset<Pair> {
    if queries == [] then multiset{} else Named(queries[0].table, queries[0].rowIds) + Asked(queries[1..])
  }

  function Named(table: string, ids: seq<RowId>): multiset<Pair> {
    if ids == [] then multiset{} else multiset{(table, ids[0])} + Named(table, ids[1..])
  }

  predicate Sized(q: Query) {
    0 < |q.rowIds| <= MAX_ROWIDS_PER_QUERY
  }

  lemma {:induction false} NamedConcat(table: string, a: seq<RowId>, b: seq<RowId>)
    ensures Named(table, a + b) == Named(table, a) + Named(table, b)
  {
    if a == [] {
      assert a + b == b;
    } else {
      assert (a + b)[1..] == a[1..] + b;
      NamedConcat(table, a[1..], b);
    }
  }

  lemma {:induction false} AskedConcat(a: seq<Query>, b: seq<Query>)
    ensures Asked(a + b) == Asked(a) + Asked(b)
  {
    if a == [] {
      assert a + b == b;
    } else {
      assert (a + b)[1..] == a[1..] + b;
      AskedConcat(a[1..], b);
    }
  }

  lemma AskedCons(q: Query, rest: seq<Query>)
    ensures Asked([q] + rest) == Named(q.table, q.rowIds) + Asked(rest)
  {
    assert ([q] + rest)[1..] == rest;
  }

  lemma NothingAsked(table: string, ids: seq<RowId>)
    ensures Asked(QueriesOf(table, ids, |ids|)) == Named(table, ids[|ids|..])
  {}

  lemma ChunkMoves(length: nat, offset: nat)
    ensures offset < length ==> offset < ChunkEnd(length, offset) <= length
  {}

  lemma OneChunkAsked(table: string, ids: seq<RowId>, offset: nat)
    requires offset < |ids|
    ensures var end := ChunkEnd(|ids|, offset);
            Asked(QueriesOf(table, ids, end)) == Named(table, ids[end..]) ==>
              Asked(QueriesOf(table, ids, offset)) == Named(table, ids[offset..])
  {
    hide Named, Asked, ChunkEnd;
    var end := ChunkEnd(|ids|, offset);
    NamedConcat(table, ids[offset..end], ids[end..]);
    assert ids[offset..end] + ids[end..] == ids[offset..];
    AskedCons(Query(table, ids[offset..end]), QueriesOf(table, ids, end));
  }

  lemma {:induction false} ChunksAskAll(table: string, ids: seq<RowId>, offset: nat)
    requires offset <= |ids|
    ensures Asked(QueriesOf(table, ids, offset)) == Named(table, ids[offset..])
    decreases |ids| - offset
  {
    hide *;
    if offset == |ids| {
      NothingAsked(table, ids);
    } else {
      ChunkMoves(|ids|, offset);
      ChunksAskAll(table, ids, ChunkEnd(|ids|, offset));
      OneChunkAsked(table, ids, offset);
    }
  }

  lemma {:induction false} ChunksAreSized(table: string, ids: seq<RowId>, offset: nat)
    requires offset <= |ids|
    ensures forall i :: 0 <= i < |QueriesOf(table, ids, offset)| ==> Sized(QueriesOf(table, ids, offset)[i])
    decreases |ids| - offset
  {
    if offset < |ids| {
      ChunksAreSized(table, ids, ChunkEnd(|ids|, offset));
    }
  }

  lemma {:induction false} NamedOnce(table: string, ids: seq<RowId>, p: Pair)
    requires NoDuplicates(ids)
    ensures Named(table, ids)[p] == if p.0 == table && p.1 in ids then 1 else 0
  {
    if ids != [] {
      assert NoDuplicates(ids[1..]);
      NamedOnce(table, ids[1..], p);
      assert p.1 in ids <==> p.1 == ids[0] || p.1 in ids[1..];
      if p.1 == ids[0] { assert forall i :: 1 <= i < |ids| ==> ids[i] != ids[0]; }
    }
  }

  lemma {:induction false} AllQueriesAskOnce(affected: Affected, p: Pair)
    requires NoDuplicates(affected.names) && forall n :: n in affected.rowIds ==> NoDuplicates(affected.rowIds[n])
    ensures Asked(AllQueries(affected))[p] == if p.0 in affected.names && p.1 in affected.RowIdsOf(p.0) then 1 else 0
    ensures forall i :: 0 <= i < |AllQueries(affected)| ==> Sized(AllQueries(affected)[i])
    decreases |affected.names|
  {
    if affected.names != [] {
      var name := affected.names[0];
      var rest := affected.(names := affected.names[1..]);
      var first := QueriesOf(name, affected.RowIdsOf(name), 0);
      ChunksAskAll(name, affected.RowIdsOf(name), 0);
      ChunksAreSized(name, affected.RowIdsOf(name), 0);
      assert affected.RowIdsOf(name)[0..] == affected.RowIdsOf(name);
      NamedOnce(name, affected.RowIdsOf(name), p);
      assert NoDuplicates(rest.names);
      AllQueriesAskOnce(rest, p);
      AskedConcat(first, AllQueries(rest));
      assert p.0 in affected.names <==> p.0 == name || p.0 in rest.names;
      if p.0 == name { assert forall i :: 1 <= i < |affected.names| ==> affected.names[i] != name; }
    }
  }

  /** Each distinct ROWID of the event is asked for exactly once under its table name, in a query of 1 to 1000. */
  lemma EachRowIdIsAskedOnce(affected: Affected, pairs: set<Pair>)
    requires affected.Valid() && affected.Records(pairs)
    ensures Asked(AllQueries(affected)) == multiset(pairs)
    ensures forall i :: 0 <= i < |AllQueries(affected)| ==> Sized(AllQueries(affected)[i])
  {
    hide Asked, AllQueries, NoDuplicates;
    AllQueriesAskOnce(affected, ("", ""));
    forall p: Pair
      ensures Asked(AllQueries(affected))[p] == multiset(pairs)[p]
    {
      AllQueriesAskOnce(affected, p);
      assert p == (p.0, p.1);
    }
  }

  /** The queries up to and including the first that fails. */
  function Issued(queries: seq<Query>, outcomes: nat -> Outcome, n: nat): seq<Query>
    requires n <= |queries|
    decreases |queries| - n
  {
    if n == |queries| then []
    else if Fails(outcomes(n), |queries[n].rowIds|) then [queries[n]]
    else [queries[n]] + Issued(queries, outcomes, n + 1)
  }

  lemma {:induction false} IssuedIsPrefix(queries: seq<Query>, outcomes: nat -> Outcome, n: nat)
    requires n <= |queries|
    ensures Issued(queries, outcomes, n) <= queries[n..]
    ensures (forall k: nat :: n <= k < |queries| ==> !Fails(outcomes(k), |queries[k].rowIds|)) ==>
              Issued(queries, outcomes, n) == queries[n..]
    decreases |queries| - n
  {
    if n < |queries| {
      IssuedIsPrefix(queries, outcomes, n + 1);
      assert queries[n..] == [queries[n]] + queries[n + 1..];
    }
  }

  /** `issued` queries went out without a failure and `rest` are still to come. */
  ghost predicate Remaining(all: seq<Query>, outcomes: nat -> Outcome, issued: seq<Query>, rest: seq<Query>) {
    && |issued| <= |all|
    && all[|issued|..] == rest
    && Issued(all, outcomes, 0) == issued + Issued(all, outcomes, |issued|)
  }

  /** The text of a query and the values of its binds, filled ROWID by ROWID. */
  method Prepare(plan: Plan, chunk: seq<RowId>) returns (execution: Execution)
    ensures execution == Execution(Build(plan, Placeholders(|chunk|)), Bindings(chunk))
  {
    hide BindName, Build;
    var bindings: map<string, RowId> := map[];
    var placeholders := "";
    var index := 0;
    assert chunk[..0] == [];
    while index < |chunk|
      invariant index <= |chunk|
      invariant bindings == Bindings(chunk[..index]) && placeholders == Placeholders(index)
    {
      assert chunk[..index + 1][..index] == chunk[..index];
      bindings := bindings[BindName(index) := chunk[index]];
      placeholders := if index == 0 then ":" + BindName(index) else placeholders + ", :" + BindName(index);
      index := index + 1;
    }
    assert chunk[..index] == chunk;
    execution := Execution(Build(plan, placeholders), bindings);
  }

  /** Each query was executed for its own ROWIDs. */
  ghost predicate ExecutedFor(plan: Plan, issued: seq<Query>, executed: seq<Execution>) {
    && |executed| == |issued|
    && forall k :: 0 <= k < |issued| ==>
         executed[k] == Execution(Build(plan, Placeholders(|issued[k].rowIds|)), Bindings(issued[k].rowIds))
  }

  /** Runs the queries of an event; the k-th one issued ends as `outcomes(k)` says. */
  method Refetch(plan: Plan, affected: Affected, outcomes: nat -> Outcome) returns (issued: seq<Query>, executed: seq<Execution>)
    requires affected.Valid()
    ensures issued == Issued(AllQueries(affected), outcomes, 0)
    ensures ExecutedFor(plan, issued, executed)
  {
    hide QueriesOf, AllQueries, Fails, Remaining, Issued, Build, Placeholders, Bindings;
    issued, executed := [], [];
    ghost var all := AllQueries(affected);
    var t := 0;
    assert affected.(names := affected.names[0..]) == affected;
    NothingIssued(all, outcomes);
    while t < |affected.names|
      invariant t <= |affected.names|
      invariant Remaining(all, outcomes, issued, AllQueries(affected.(names := affected.names[t..])))
      invariant ExecutedFor(plan, issued, executed)
    {
      var name := affected.names[t];
      var ids := affected.rowIds[name];
      var offset := 0;
      ghost var later := AllQueries(affected.(names := affected.names[t + 1..]));
      NextTable(affected, t);
      while offset < |ids|
        invariant offset <= |ids|
        invariant Remaining(all, outcomes, issued, QueriesOf(name, ids, offset) + later)
        invariant ExecutedFor(plan, issued, executed)
      {
        var end := ChunkEnd(|ids|, offset);
        var query := Query(name, ids[offset..end]);
        NextChunk(all, issued, outcomes, name, ids, offset, later);
        var execution := Prepare(plan, query.rowIds);
        var outcome := outcomes(|issued|);
        issued := issued + [query];
        executed := executed + [execution];
        if Fails(outcome, |query.rowIds|) {
          return;
        }
        offset := end;
      }
      NoChunks(name, ids, later);
      t := t + 1;
    }
    NoTables(affected);
    NothingRemains(all, outcomes, issued);
  }

  lemma NothingIssued(all: seq<Query>, outcomes: nat -> Outcome)
    ensures Remaining(all, outcomes, [], all)
  {
    assert all[0..] == all;
  }

  lemma NothingRemains(all: seq<Query>, outcomes: nat -> Outcome, issued: seq<Query>)
    requires Remaining(all, outcomes, issued, [])
    ensures issued == Issued(all, outcomes, 0)
  {}

  lemma NextTable(affected: Affected, t: nat)
    requires t < |affected.names| && affected.names[t] in affected.rowIds
    ensures AllQueries(affected.(names := affected.names[t..])) ==
            QueriesOf(affected.names[t], affected.rowIds[affected.names[t]], 0)
            + AllQueries(affected.(names := affected.names[t + 1..]))
  {
    hide QueriesOf;
    assert affected.names[t..][1..] == affected.names[t + 1..];
  }

  lemma NoTables(affected: Affected)
    ensures AllQueries(affected.(names := affected.names[|affected.names|..])) == []
  {}

  lemma NoChunks(name: string, ids: seq<RowId>, later: seq<Query>)
    ensures QueriesOf(name, ids, |ids|) + later == later
  {}

  lemma NextChunk(all: seq<Query>, issued: seq<Query>, outcomes: nat -> Outcome, name: string, ids: seq<RowId>, offset: nat,
                  later: seq<Query>)
    requires offset < |ids| && Remaining(all, outcomes, issued, QueriesOf(name, ids, offset) + later)
    ensures var end := ChunkEnd(|ids|, offset);
            var query := Query(name, ids[offset..end]);
            if Fails(outcomes(|issued|), end - offset) then issued + [query] == Issued(all, outcomes, 0)
            else Remaining(all, outcomes, issued + [query], QueriesOf(name, ids, end) + later)
  {
    hide Fails, Issued;
    var end := ChunkEnd(|ids|, offset);
    var query := Query(name, ids[offset..end]);
    assert QueriesOf(name, ids, offset) + later == [query] + (QueriesOf(name, ids, end) + later);
    NextQuery(all, issued, outcomes, query, QueriesOf(name, ids, end) + later);
  }

  lemma NextQuery(all: seq<Query>, issued: seq<Query>, outcomes: nat -> Outcome, query: Query, rest: seq<Query>)
    requires |issued| <= |all| && all[|issued|..] == [query] + rest
    requires Issued(all, outcomes, 0) == issued + Issued(all, outcomes, |issued|)
    ensures |issued| < |all| && all[|issued|] == query && all[|issued| + 1..] == rest
    ensures Issued(all, outcomes, 0) ==
            if Fails(outcomes(|issued|), |query.rowIds|) then issued + [query]
            else (issued + [query]) + Issued(all, outcomes, |issued| + 1)
  {
    hide Fails;
    assert all[|issued|] == all[|issued|..][0];
    assert all[|issued| + 1..] == all[|issued|..][1..];
  }

  /** Every table of an event is named properly, those of the subscription have proper ROWIDs, and there are not too many. */
  ghost predicate Handled(table: string, changes: seq<Change>, maxRows: nat) {
    (forall i :: 0 <= i < |changes| ==> Clean(table, changes[i])) && |Pairs(table, changes)| <= maxRows
  }

  /** A statement whose refetch query can be read back, and keeps its own condition together. */
  predicate KeepsItsCondition(plan: Plan) {
    (plan.where.Some? ==> Balanced(plan.where.value)) && (plan.alias.Some? ==> Upper(plan.alias.value) != "AS")
  }

  /** Each query selects a row exactly if the statement's own condition holds of it and its ROWID is asked for. */
  ghost predicate AskForTheirRows(plan: Plan, issued: seq<Query>, executed: seq<Execution>) {
    && |executed| == |issued|
    && forall k, holds: string -> bool, rowId: RowId :: 0 <= k < |issued| ==>
         (Selects(executed[k].sql, executed[k].bindings, holds, rowId) <==>
          (plan.where.Some? ==> holds(plan.where.value)) && rowId in issued[k].rowIds)
  }

  /**
   Handling a change event of a subscription. A statement that cannot be
   parsed, an event that names something invalid, or one that has more distinct
   ROWIDs than the limit, issues no query; otherwise, when no query fails, every
   distinct ROWID is asked for exactly once, and the rows selected are those
   asked for that satisfy the statement's own condition.
   */
  method HandleChanges(forbidden: string -> bool, statement: string, changes: seq<Change>, maxRows: nat, outcomes: nat -> Outcome)
    returns (issued: seq<Query>, executed: seq<Execution>)
    ensures Parse(forbidden, statement).Err? ==> issued == [] && executed == []
    ensures Parse(forbidden, statement).Ok? ==>
              var plan := Parse(forbidden, statement).value;
              var pairs := Pairs(plan.tableName, changes);
              && (!Handled(plan.tableName, changes, maxRows) ==> issued == [])
              && (forall i :: 0 <= i < |issued| ==> Sized(issued[i]))
              && Asked(issued) <= multiset(pairs)
              && (Handled(plan.tableName, changes, maxRows) && (forall k: nat :: k < |issued| ==> !Fails(outcomes(k), |issued[k].rowIds|)) ==>
                    Asked(issued) == multiset(pairs))
              && (KeepsItsCondition(plan) ==> AskForTheirRows(plan, issued, executed))
  {
    hide Clean, Pairs, Fails, Sized, Affected.Valid, Affected.Records, AllQueries, Issued, Parse, ExecutedFor, AskForTheirRows;
    issued, executed := [], [];
    var parsed := ParseCqnRefetchPlan(forbidden, statement);
    if parsed.Err? {
      return;
    }
    var plan := parsed.value;
    NothingExecuted(plan, Pairs(plan.tableName, changes));
    var collected := Collect(plan.tableName, changes, maxRows);
    if collected.Err? {
      return;
    }
    issued, executed := Refetch(plan, collected.value, outcomes);
    ghost var all := AllQueries(collected.value);
    EachRowIdIsAskedOnce(collected.value, Pairs(plan.tableName, changes));
    assert all[0..] == all;
    IssuedIsPrefix(all, outcomes, 0);
    AskedPrefix(issued, all);
    IssuedStopsAtFailure(all, outcomes, 0);
    if KeepsItsCondition(plan) { ExecutedForTheirRows(forbidden, statement, issued, executed); }
  }

  lemma NothingExecuted(plan: Plan, pairs: set<Pair>)
    ensures Asked([]) <= multiset(pairs) && AskForTheirRows(plan, [], [])
  {}

  lemma ExecutedForTheirRows(forbidden: string -> bool, statement: string, issued: seq<Query>, executed: seq<Execution>)
    requires Parse(forbidden, statement).Ok? && KeepsItsCondition(Parse(forbidden, statement).value)
    requires ExecutedFor(Parse(forbidden, statement).value, issued, executed) && forall k :: 0 <= k < |issued| ==> Sized(issued[k])
    ensures AskForTheirRows(Parse(forbidden, statement).value, issued, executed)
  {
    hide Parse, Build, Placeholders, Bindings, Selects, KeepsItsCondition;
    var plan := Parse(forbidden, statement).value;
    forall k, holds: string -> bool, rowId: RowId | 0 <= k < |issued|
      ensures Selects(executed[k].sql, executed[k].bindings, holds, rowId) <==>
              (plan.where.Some? ==> holds(plan.where.value)) && rowId in issued[k].rowIds
    {
      SelectsItsRows(forbidden, statement, issued[k].rowIds, holds, rowId);
    }
  }

  lemma SelectsItsRows(forbidden: string -> bool, statement: string, ids: seq<RowId>, holds: string -> bool, rowId: RowId)
    requires Parse(forbidden, statement).Ok? && KeepsItsCondition(Parse(forbidden, statement).value) && ids != []
    ensures var plan := Parse(forbidden, statement).value;
            Selects(Build(plan, Placeholders(|ids|)), Bindings(ids), holds, rowId) <==>
            (plan.where.Some? ==> holds(plan.where.value)) && rowId in ids
  {
    hide Parse, Build, Placeholders, Bindings, Selects, Balanced, Upper;
    QuerySelectsExactlyItsRows(forbidden, statement, ids, holds, rowId);
  }

  lemma AskedPrefix(a: seq<Query>, b: seq<Query>)
    requires a <= b
    ensures Asked(a) <= Asked(b)
  {
    AskedConcat(a, b[|a|..]);
    assert a + b[|a|..] == b;
  }

  /** Stopping early means that the last query issued failed. */
  lemma {:induction false} IssuedStopsAtFailure(queries: seq<Query>, outcomes: nat -> Outcome, n: nat)
    requires n <= |queries|
    ensures var issued := Issued(queries, outcomes, n);
            && n + |issued| <= |queries|
            && (n + |issued| < |queries| ==>
                  |issued| > 0 && Fails(outcomes(n + |issued| - 1), |issued[|issued| - 1].rowIds|))
    decreases |queries| - n
  {
    hide Fails;
    if n < |queries| {
      IssuedStopsAtFailure(queries, outcomes, n + 1);
    }
  }
}
