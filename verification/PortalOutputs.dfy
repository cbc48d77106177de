/**
 What the outputs of a procedure call are (`PostgreProcedureResultMaterializer.materialize`):
 which portals are recorded for them, what reading them gives, and when that
 succeeds, in terms of the metadata, the returned names and the cursors.
 */
module PortalOutputs {
  import opened Options
  import opened Sequences
  import opened ResourceTracker
  import opened PortalDrain

  /** An OUT binding. `cost` is what its scalar value measures when it is read as one. */
  datatype Binding = Binding(name: string, isCursor: bool, cost: Option<nat>)

  datatype Portal = Portal(binding: string, name: PortalName)

  /** What converting composite outputs needs and gives. */
  datatype Conversion = NoComposites | Composites(parses: bool)

  datatype Out = Scalar(name: string) | CursorRows(name: string, rows: seq<Row>)

  /** The names the server returned, and the test for unnamed portals. */
  datatype Returned = Returned(text: string -> Option<string>, unnamed: string -> bool)

  predicate NamesPortal(portals: seq<Portal>, name: PortalName) {
    exists i :: 0 <= i < |portals| && portals[i].name == name
  }

  /** The portals recorded by the first pass, in order, and the error that stopped it. */
  function Record(bindings: seq<Binding>, returned: Returned): (seq<Portal>, Option<Error>) {
    if bindings == [] then ([], None)
    else
      var (portals, error) := Record(bindings[..|bindings| - 1], returned);
      var last := bindings[|bindings| - 1];
      if error.Some? || !last.isCursor then (portals, error)
      else
        match returned.text(last.name)
        case None => (portals, Some(BadPortalName))
        case Some(name) =>
          if returned.unnamed(name) then (portals + [Portal(last.name, name)], Some(BadPortalName))
          else if NamesPortal(portals, name) then (portals, Some(DuplicatePortal))
          else (portals + [Portal(last.name, name)], None)
  }

  ghost predicate Distinct(portals: seq<Portal>) {
    forall i, j :: 0 <= i < j < |portals| ==> portals[i].name != portals[j].name
  }

  /** Two outputs never share a recorded portal. */
  lemma {:induction false} RecordedPortalsDiffer(bindings: seq<Binding>, returned: Returned)
    ensures Distinct(Record(bindings, returned).0)
    ensures Record(bindings, returned).1.None? ==>
              forall i :: 0 <= i < |Record(bindings, returned).0| ==> !returned.unnamed(Record(bindings, returned).0[i].name)
  {
    if bindings != [] {
      RecordedPortalsDiffer(bindings[..|bindings| - 1], returned);
    }
  }

  lemma {:induction false} RecordStops(bindings: seq<Binding>, returned: Returned, n: nat)
    requires n <= |bindings| && Record(bindings[..n], returned).1.Some?
    ensures Record(bindings, returned) == Record(bindings[..n], returned)
    decreases |bindings|
  {
    if n < |bindings| {
      assert bindings[..|bindings| - 1][..n] == bindings[..n];
      RecordStops(bindings[..|bindings| - 1], returned, n);
    } else {
      assert bindings[..n] == bindings;
    }
  }

  /** Position of the portal still recorded for a binding name, or the length of the list. */
  function IndexOf(portals: seq<Portal>, binding: string): (i: nat)
    ensures i <= |portals|
    ensures i < |portals| ==> portals[i].binding == binding
  {
    if portals == [] || portals[0].binding == binding then 0 else 1 + IndexOf(portals[1..], binding)
  }

  function Without(portals: seq<Portal>, i: nat): (rest: seq<Portal>)
    requires i < |portals|
  {
    portals[..i] + portals[i + 1..]
  }

  /** What the second pass gives when the server serves. */
  function Gather(bindings: seq<Binding>, portals: seq<Portal>, t: Totals, limits: Limits, cursors: PortalName -> Cursor)
    : Result<seq<Out>, Error>
    requires t.rows <= limits.maxProcedureRows
    decreases |bindings|
  {
    if bindings == [] then Ok([])
    else
      var name, i := bindings[0].name, IndexOf(portals, bindings[0].name);
      if i == |portals| then
        var (after, failure) := CountValue(t, limits, bindings[0].cost);
        if failure.Some? then Err(Limit(failure.value))
        else Prepend(Scalar(name), Gather(bindings[1..], portals, after, limits, cursors))
      else
        var (after, drained) := Drained(cursors(portals[i].name), t, limits);
        if drained.Err? then Err(drained.error)
        else
          CountedRows(t, limits, Costs(Slice(cursors(portals[i].name), 0, limits.maxProcedureRows - t.rows + 1)));
          Prepend(CursorRows(name, drained.value), Gather(bindings[1..], Without(portals, i), after, limits, cursors))
  }

  function Prepend(out: Out, r: Result<seq<Out>, Error>): Result<seq<Out>, Error> {
    match r
    case Err(e) => Err(e)
    case Ok(outs) => Ok([out] + outs)
  }

  /** What the whole call gives when the server serves. */
  function Expected(bindings: seq<Binding>, conversion: Conversion, returned: Returned, limits: Limits, cursors: PortalName -> Cursor)
    : Result<seq<Out>, Error>
  {
    var (portals, error) := Record(bindings, returned);
    if error.Some? then Err(error.value) else Gather(bindings, portals, Totals(0, 0), limits, cursors)
  }

  // ---- completeness of the rows

  /** All rows of the cursors among the outputs, in order. */
  function AllRows(outs: seq<Out>): seq<Row> {
    if outs == [] then []
    else (if outs[0].CursorRows? then outs[0].rows else []) + AllRows(outs[1..])
  }

  /** Every row of every cursor that the second pass reads, in metadata order; None when a cursor is endless. */
  function CursorContents(bindings: seq<Binding>, portals: seq<Portal>, cursors: PortalName -> Cursor): Option<seq<Row>>
    decreases |bindings|
  {
    if bindings == [] then Some([])
    else
      var i := IndexOf(portals, bindings[0].name);
      if i == |portals| then CursorContents(bindings[1..], portals, cursors)
      else
        var rest := CursorContents(bindings[1..], Without(portals, i), cursors);
        if cursors(portals[i].name).Finite? && rest.Some? then Some(cursors(portals[i].name).rows + rest.value) else None
  }

  lemma {:induction false} CountRowsTooMany(t: Totals, limits: Limits, costs: seq<Option<nat>>)
    requires t.rows <= limits.maxProcedureRows
    ensures CountRows(t, limits, costs).1 == Some(TooManyRows) ==> t.rows + |costs| > limits.maxProcedureRows
    decreases |costs|
  {
    if costs != [] && CountRow(t, limits, costs[0]).1.None? {
      CountRowsTooMany(CountRow(t, limits, costs[0]).0, limits, costs[1..]);
    }
  }

  lemma DrainedIsWhole(c: Cursor, t: Totals, limits: Limits)
    requires t.rows <= limits.maxProcedureRows
    ensures var (after, r) := Drained(c, t, limits);
            && (r.Ok? ==> c == Finite(r.value) && after.rows == t.rows + |r.value| <= limits.maxProcedureRows)
            && (r == Err(Limit(TooManyRows)) ==> c.Endless? || t.rows + |c.rows| > limits.maxProcedureRows)
            && (r.Err? ==> r.error.Limit?)
  {
    var seen := Slice(c, 0, limits.maxProcedureRows - t.rows + 1);
    CountedRows(t, limits, Costs(seen));
    CountRowsTooMany(t, limits, Costs(seen));
    hide CountRows;
    if CountRows(t, limits, Costs(seen)).1.None? && c.Finite? {
      assert seen == c.rows;
    }
  }

  lemma AllRowsPrepend(out: Out, outs: seq<Out>)
    ensures AllRows([out] + outs) == if out.CursorRows? then out.rows + AllRows(outs) else AllRows(outs)
  {
    assert ([out] + outs)[1..] == outs;
  }

  /**
   The outputs hold exactly the rows of all cursors, in metadata order, and fit
   the limit; and the row limit is what fails only when the rows exceed it.
   */
  lemma {:induction false} RowsAreCompleteAndBounded(bindings: seq<Binding>, portals: seq<Portal>, t: Totals, limits: Limits,
                                                     cursors: PortalName -> Cursor)
    requires t.rows <= limits.maxProcedureRows
    ensures var r := Gather(bindings, portals, t, limits, cursors);
            var contents := CursorContents(bindings, portals, cursors);
            && (r.Ok? ==> contents == Some(AllRows(r.value)) && t.rows + |AllRows(r.value)| <= limits.maxProcedureRows)
            && (r == Err(Limit(TooManyRows)) ==> contents.None? || t.rows + |contents.value| > limits.maxProcedureRows)
    decreases |bindings|
  {
    if bindings != [] {
      var i := IndexOf(portals, bindings[0].name);
      hide Drained, CountValue;
      if i == |portals| {
        var (after, failure) := CountValue(t, limits, bindings[0].cost);
        ValueKeepsRows(t, limits, bindings[0].cost);
        if failure.None? {
          var r := Gather(bindings[1..], portals, after, limits, cursors);
          if r.Ok? { AllRowsPrepend(Scalar(bindings[0].name), r.value); }
          RowsAreCompleteAndBounded(bindings[1..], portals, after, limits, cursors);
        }
      } else {
        var c := cursors(portals[i].name);
        var (after, drained) := Drained(c, t, limits);
        DrainedIsWhole(c, t, limits);
        if drained.Ok? {
          var r := Gather(bindings[1..], Without(portals, i), after, limits, cursors);
          if r.Ok? { AllRowsPrepend(CursorRows(bindings[0].name, drained.value), r.value); }
          RowsAreCompleteAndBounded(bindings[1..], Without(portals, i), after, limits, cursors);
        }
      }
    }
  }

  lemma ValueKeepsRows(t: Totals, limits: Limits, cost: Option<nat>)
    ensures CountValue(t, limits, cost).0.rows == t.rows
    ensures CountValue(t, limits, cost).1 != Some(TooManyRows)
  {}

  // ---- the first pass, by the metadata

  /** What is wrong with a binding, given those before it. */
  predicate Repeats(bindings: seq<Binding>, returned: Returned, i: nat)
    requires i < |bindings|
  {
    exists j :: 0 <= j < i && bindings[j].isCursor && returned.text(bindings[j].name) == returned.text(bindings[i].name)
  }

  function Fault(bindings: seq<Binding>, returned: Returned, i: nat): Option<Error>
    requires i < |bindings|
  {
    if !bindings[i].isCursor then None
    else
      match returned.text(bindings[i].name)
      case None => Some(BadPortalName)
      case Some(name) =>
        if returned.unnamed(name) then Some(BadPortalName) else if Repeats(bindings, returned, i) then Some(DuplicatePortal) else None
  }

  /** The first n bindings are without fault. */
  ghost predicate Faultless(bindings: seq<Binding>, returned: Returned, n: nat)
    requires n <= |bindings|
  {
    forall i :: 0 <= i < n ==> Fault(bindings, returned, i).None?
  }

  /** The portal the server returned for a binding. */
  function PortalOf(returned: Returned, binding: Binding): Portal {
    Portal(binding.name, if returned.text(binding.name).Some? then returned.text(binding.name).value else "")
  }

  /** One portal for each cursor, in metadata order. */
  function PortalsOf(bindings: seq<Binding>, returned: Returned): seq<Portal> {
    if bindings == [] then []
    else (if bindings[0].isCursor then [PortalOf(returned, bindings[0])] else []) + PortalsOf(bindings[1..], returned)
  }

  lemma {:induction false} PortalsOfLonger(bindings: seq<Binding>, returned: Returned, binding: Binding)
    ensures PortalsOf(bindings + [binding], returned) ==
            PortalsOf(bindings, returned) + if binding.isCursor then [PortalOf(returned, binding)] else []
  {
    if bindings == [] {
      assert [binding][1..] == [];
    } else {
      assert (bindings + [binding])[1..] == bindings[1..] + [binding];
      PortalsOfLonger(bindings[1..], returned, binding);
    }
  }

  lemma {:induction false} PortalsMember(bindings: seq<Binding>, returned: Returned, portal: Portal)
    ensures portal in PortalsOf(bindings, returned) <==> exists i :: 0 <= i < |bindings| && bindings[i].isCursor && PortalOf(returned, bindings[i]) == portal
  {
    if bindings != [] {
      PortalsMember(bindings[1..], returned, portal);
      assert bindings == [bindings[0]] + bindings[1..];
      if portal in PortalsOf(bindings[1..], returned) {
        var i :| 0 <= i < |bindings[1..]| && bindings[1..][i].isCursor && PortalOf(returned, bindings[1..][i]) == portal;
        assert bindings[i + 1] == bindings[1..][i];
      }
    }
  }

  /** A recorded name is taken exactly if an earlier cursor has it. */
  lemma NamesPortalIsRepeats(bindings: seq<Binding>, returned: Returned, i: nat)
    requires i < |bindings| && Faultless(bindings, returned, i) && returned.text(bindings[i].name).Some?
    ensures NamesPortal(PortalsOf(bindings[..i], returned), returned.text(bindings[i].name).value) <==> Repeats(bindings, returned, i)
  {
    var name, portals := returned.text(bindings[i].name).value, PortalsOf(bindings[..i], returned);
    if NamesPortal(portals, name) {
      var k :| 0 <= k < |portals| && portals[k].name == name;
      PortalsMember(bindings[..i], returned, portals[k]);
      var j :| 0 <= j < i && bindings[..i][j].isCursor && PortalOf(returned, bindings[..i][j]) == portals[k];
      assert Fault(bindings, returned, j).None? && bindings[j].isCursor;
    }
    if Repeats(bindings, returned, i) {
      var j :| 0 <= j < i && bindings[j].isCursor && returned.text(bindings[j].name) == returned.text(bindings[i].name);
      PortalsMember(bindings[..i], returned, PortalOf(returned, bindings[j]));
      assert bindings[..i][j] == bindings[j];
      var k :| 0 <= k < |portals| && portals[k] == PortalOf(returned, bindings[j]);
      assert portals[k].name == name;
    }
  }

  /**
   The first pass stops with an error exactly at the first binding at fault. Up
   to there it records a portal for a binding if and only if it is a cursor,
   under the name the server returned for it; a portal without a name is
   recorded too, so that it is closed.
   */
  lemma {:induction false} RecordsTheCursors(bindings: seq<Binding>, returned: Returned, n: nat)
    requires n <= |bindings|
    ensures Faultless(bindings, returned, n) ==> Record(bindings[..n], returned) == (PortalsOf(bindings[..n], returned), None)
    ensures Faultless(bindings, returned, n) && n < |bindings| && Fault(bindings, returned, n).Some? ==>
              Record(bindings, returned) ==
                (PortalsOf(bindings[..n], returned) + (if bindings[n].isCursor && IsUnnamed(bindings[n], returned) then [PortalOf(returned, bindings[n])] else []),
                 Fault(bindings, returned, n))
  {
    hide Repeats, Fault, Record;
    if n > 0 { FaultlessBefore(bindings, returned, n - 1); }
    if n == 0 {
      RecordsNothing(bindings, returned);
    } else {
      RecordsTheCursors(bindings, returned, n - 1);
      if Faultless(bindings, returned, n) { RecordsOneMore(bindings, returned, n - 1); }
    }
    if Faultless(bindings, returned, n) && n < |bindings| && Fault(bindings, returned, n).Some? {
      RecordsOneMore(bindings, returned, n);
      RecordStops(bindings, returned, n + 1);
    }
  }

  lemma FaultlessBefore(bindings: seq<Binding>, returned: Returned, n: nat)
    requires n < |bindings|
    ensures Faultless(bindings, returned, n + 1) <==> Faultless(bindings, returned, n) && Fault(bindings, returned, n).None?
  {}

  lemma RecordsNothing(bindings: seq<Binding>, returned: Returned)
    ensures Record(bindings[..0], returned) == (PortalsOf(bindings[..0], returned), None)
  {}

  /** One more binding: its portal if it is a sound cursor, its fault if it has one. */
  lemma RecordsOneMore(bindings: seq<Binding>, returned: Returned, n: nat)
    requires n < |bindings| && Faultless(bindings, returned, n)
    requires Record(bindings[..n], returned) == (PortalsOf(bindings[..n], returned), None)
    ensures var portals, fault := PortalsOf(bindings[..n], returned), Fault(bindings, returned, n);
            && Record(bindings[..n + 1], returned) ==
               (if fault.None? then PortalsOf(bindings[..n + 1], returned)
                else portals + if bindings[n].isCursor && IsUnnamed(bindings[n], returned) then [PortalOf(returned, bindings[n])] else [], fault)
            && PortalsOf(bindings[..n + 1], returned) == portals + if bindings[n].isCursor then [PortalOf(returned, bindings[n])] else []
  {
    hide Repeats, NamesPortal;
    assert PortalsOf(bindings[..n], returned) + [] == PortalsOf(bindings[..n], returned);
    assert bindings[..n + 1][..n] == bindings[..n] && bindings[..n + 1] == bindings[..n] + [bindings[n]];
    PortalsOfLonger(bindings[..n], returned, bindings[n]);
    if returned.text(bindings[n].name).Some? { NamesPortalIsRepeats(bindings, returned, n); }
  }

  predicate IsUnnamed(binding: Binding, returned: Returned) {
    returned.text(binding.name).Some? && returned.unnamed(returned.text(binding.name).value)
  }

  // ---- the second pass, by the metadata

  function CursorOf(binding: Binding, returned: Returned, cursors: PortalName -> Cursor): Cursor {
    cursors(PortalOf(returned, binding).name)
  }

  ghost predicate AllFinite(bindings: seq<Binding>, returned: Returned, cursors: PortalName -> Cursor) {
    forall i :: 0 <= i < |bindings| && bindings[i].isCursor ==> CursorOf(bindings[i], returned, cursors).Finite?
  }

  /** The rows of a binding: those of its cursor, none if it is no cursor. */
  function RowsOf(binding: Binding, returned: Returned, cursors: PortalName -> Cursor): seq<Row> {
    if binding.isCursor && CursorOf(binding, returned, cursors).Finite? then CursorOf(binding, returned, cursors).rows else []
  }

  /** How many rows the call returns. */
  function RowCount(bindings: seq<Binding>, returned: Returned, cursors: PortalName -> Cursor): nat {
    if bindings == [] then 0 else |RowsOf(bindings[0], returned, cursors)| + RowCount(bindings[1..], returned, cursors)
  }

  /** What its scalars and rows measure, None if one cannot be measured. */
  function Bytes(bindings: seq<Binding>, returned: Returned, cursors: PortalName -> Cursor): Option<nat> {
    if bindings == [] then Some(0)
    else
      Plus(if bindings[0].isCursor then Sum(Costs(RowsOf(bindings[0], returned, cursors))) else bindings[0].cost,
           Bytes(bindings[1..], returned, cursors))
  }

  /** One output per binding: the rows of its cursor, or its scalar. */
  ghost predicate Outputs(bindings: seq<Binding>, returned: Returned, cursors: PortalName -> Cursor, outs: seq<Out>) {
    && |outs| == |bindings|
    && forall i :: 0 <= i < |bindings| ==>
         outs[i] == if bindings[i].isCursor then CursorRows(bindings[i].name, RowsOf(bindings[i], returned, cursors)) else Scalar(bindings[i].name)
  }

  /** From some totals on, everything fits the limits. */
  ghost predicate Fits(bindings: seq<Binding>, returned: Returned, t: Totals, limits: Limits, cursors: PortalName -> Cursor) {
    && AllFinite(bindings, returned, cursors)
    && t.rows + RowCount(bindings, returned, cursors) <= limits.maxProcedureRows
    && Bytes(bindings, returned, cursors).Some?
    && t.bytes + Bytes(bindings, returned, cursors).value <= limits.maxProcedureBytes
  }

  ghost predicate DistinctNames(bindings: seq<Binding>) {
    forall i, j :: 0 <= i < j < |bindings| ==> bindings[i].name != bindings[j].name
  }

  lemma {:induction false} NotFound(portals: seq<Portal>, name: string)
    requires forall i :: 0 <= i < |portals| ==> portals[i].binding != name
    ensures IndexOf(portals, name) == |portals|
  {
    if portals != [] { NotFound(portals[1..], name); }
  }

  lemma NoPortalOfScalar(bindings: seq<Binding>, returned: Returned)
    requires bindings != [] && DistinctNames(bindings)
    ensures IndexOf(PortalsOf(bindings[1..], returned), bindings[0].name) == |PortalsOf(bindings[1..], returned)|
  {
    var portals := PortalsOf(bindings[1..], returned);
    forall k | 0 <= k < |portals| ensures portals[k].binding != bindings[0].name {
      PortalsMember(bindings[1..], returned, portals[k]);
    }
    NotFound(portals, bindings[0].name);
  }

  /** Draining a cursor succeeds exactly if its rows fit, and counts them exactly. */
  lemma DrainedExactly(c: Cursor, t: Totals, limits: Limits)
    requires t.rows <= limits.maxProcedureRows && t.bytes <= limits.maxProcedureBytes
    ensures Drained(c, t, limits).1.Ok? <==>
            && c.Finite? && t.rows + |c.rows| <= limits.maxProcedureRows
            && Sum(Costs(c.rows)).Some? && t.bytes + Sum(Costs(c.rows)).value <= limits.maxProcedureBytes
    ensures Drained(c, t, limits).1.Ok? ==>
              Drained(c, t, limits) == (Totals(t.rows + |c.rows|, t.bytes + Sum(Costs(c.rows)).value), Ok(c.rows))
  {
    var seen := Slice(c, 0, limits.maxProcedureRows - t.rows + 1);
    RowsAcceptedExactlyWithinLimits(t, limits, Costs(seen));
    hide CountRows;
    if c.Finite? && t.rows + |c.rows| <= limits.maxProcedureRows { assert seen == c.rows; }
  }

  /**
   Reading succeeds exactly if every cursor ends and everything fits the
   limits, and then gives one output per binding, with exactly its rows.
   */
  lemma {:induction false} GathersExactly(bindings: seq<Binding>, returned: Returned, t: Totals, limits: Limits, cursors: PortalName -> Cursor)
    requires t.rows <= limits.maxProcedureRows && t.bytes <= limits.maxProcedureBytes && DistinctNames(bindings)
    ensures var r := Gather(bindings, PortalsOf(bindings, returned), t, limits, cursors);
            && (r.Ok? <==> Fits(bindings, returned, t, limits, cursors))
            && (r.Ok? ==> Outputs(bindings, returned, cursors, r.value))
    decreases |bindings|
  {
    if bindings == [] {
      NothingGathered(returned, t, limits, cursors);
    } else {
      hide Drained, CountValue, Fits, Costs, Gather, Outputs;
      var rest, b := bindings[1..], bindings[0];
      FitsStep(bindings, returned, t, limits, cursors);
      if b.isCursor {
        var c := CursorOf(b, returned, cursors);
        DrainedExactly(c, t, limits);
        GatherCursor(bindings, returned, t, limits, cursors);
        if Drained(c, t, limits).1.Ok? {
          GathersExactly(rest, returned, Drained(c, t, limits).0, limits, cursors);
          OutputsStep(bindings, returned, cursors, Gather(rest, PortalsOf(rest, returned), Drained(c, t, limits).0, limits, cursors));
        }
      } else {
        ValueCounted(t, limits, b.cost);
        GatherScalar(bindings, returned, t, limits, cursors);
        var after := CountValue(t, limits, b.cost).0;
        if CountValue(t, limits, b.cost).1.None? {
          GathersExactly(rest, returned, after, limits, cursors);
          OutputsStep(bindings, returned, cursors, Gather(rest, PortalsOf(rest, returned), after, limits, cursors));
        }
      }
      FitsNeedsRoom(rest, returned, t, limits, cursors);
    }
  }

  lemma NothingGathered(returned: Returned, t: Totals, limits: Limits, cursors: PortalName -> Cursor)
    requires t.rows <= limits.maxProcedureRows && t.bytes <= limits.maxProcedureBytes
    ensures Gather([], PortalsOf([], returned), t, limits, cursors) == Ok([])
    ensures Fits([], returned, t, limits, cursors) && Outputs([], returned, cursors, [])
  {}

  /** What is already over a limit fits no more. */
  lemma FitsNeedsRoom(bindings: seq<Binding>, returned: Returned, t: Totals, limits: Limits, cursors: PortalName -> Cursor)
    ensures forall t :: Fits(bindings, returned, t, limits, cursors) ==> t.rows <= limits.maxProcedureRows && t.bytes <= limits.maxProcedureBytes
  {}

  lemma GatherCursor(bindings: seq<Binding>, returned: Returned, t: Totals, limits: Limits, cursors: PortalName -> Cursor)
    requires bindings != [] && bindings[0].isCursor && t.rows <= limits.maxProcedureRows && t.bytes <= limits.maxProcedureBytes
    ensures var (after, drained) := Drained(CursorOf(bindings[0], returned, cursors), t, limits);
            var gathered := Gather(bindings, PortalsOf(bindings, returned), t, limits, cursors);
            && (drained.Err? ==> gathered == Err(drained.error))
            && (drained.Ok? ==>
                  && after.rows <= limits.maxProcedureRows
                  && gathered == Prepend(CursorRows(bindings[0].name, drained.value),
                                         Gather(bindings[1..], PortalsOf(bindings[1..], returned), after, limits, cursors)))
  {
    hide Drained;
    var portals := PortalsOf(bindings, returned);
    DrainedExactly(CursorOf(bindings[0], returned, cursors), t, limits);
    assert portals[0] == PortalOf(returned, bindings[0]) && IndexOf(portals, bindings[0].name) == 0;
    assert Without(portals, 0) == PortalsOf(bindings[1..], returned);
  }

  lemma GatherScalar(bindings: seq<Binding>, returned: Returned, t: Totals, limits: Limits, cursors: PortalName -> Cursor)
    requires bindings != [] && !bindings[0].isCursor && t.rows <= limits.maxProcedureRows && DistinctNames(bindings)
    ensures var (after, failure) := CountValue(t, limits, bindings[0].cost);
            && after.rows <= limits.maxProcedureRows
            && Gather(bindings, PortalsOf(bindings, returned), t, limits, cursors) ==
               if failure.Some? then Err(Limit(failure.value))
               else Prepend(Scalar(bindings[0].name), Gather(bindings[1..], PortalsOf(bindings[1..], returned), after, limits, cursors))
  {
    hide Drained;
    NoPortalOfScalar(bindings, returned);
    assert PortalsOf(bindings, returned) == PortalsOf(bindings[1..], returned);
  }

  lemma OutputsStep(bindings: seq<Binding>, returned: Returned, cursors: PortalName -> Cursor, r: Result<seq<Out>, Error>)
    requires bindings != [] && (r.Ok? ==> Outputs(bindings[1..], returned, cursors, r.value))
    ensures var b := bindings[0];
            var first := if b.isCursor then CursorRows(b.name, RowsOf(b, returned, cursors)) else Scalar(b.name);
            r.Ok? ==> Prepend(first, r).Ok? && Outputs(bindings, returned, cursors, Prepend(first, r).value)
  {
    hide RowsOf;
  }

  lemma ValueCounted(t: Totals, limits: Limits, cost: Option<nat>)
    ensures CountValue(t, limits, cost).1.None? <==> cost.Some? && t.bytes + cost.value <= limits.maxProcedureBytes
    ensures cost.Some? ==> CountValue(t, limits, cost).0 == Totals(t.rows, t.bytes + cost.value)
  {}

  lemma FitsStep(bindings: seq<Binding>, returned: Returned, t: Totals, limits: Limits, cursors: PortalName -> Cursor)
    requires bindings != []
    ensures var b, rest := bindings[0], bindings[1..];
            var bytes := if b.isCursor then Sum(Costs(RowsOf(b, returned, cursors))) else b.cost;
            Fits(bindings, returned, t, limits, cursors) <==>
            && (b.isCursor ==> CursorOf(b, returned, cursors).Finite?)
            && bytes.Some?
            && Fits(rest, returned, Totals(t.rows + |RowsOf(b, returned, cursors)|, t.bytes + bytes.value), limits, cursors)
  {
    hide Costs, Sum;
    assert bindings == [bindings[0]] + bindings[1..];
  }

  // ---- both passes

  /** Some binding is at fault, or none is. */
  lemma {:induction false} FirstFault(bindings: seq<Binding>, returned: Returned, n: nat) returns (i: nat)
    requires n <= |bindings|
    ensures i <= n && Faultless(bindings, returned, i) && (i < n ==> Fault(bindings, returned, i).Some?)
  {
    if n == 0 {
      i := 0;
    } else {
      i := FirstFault(bindings, returned, n - 1);
      if i == n - 1 && Fault(bindings, returned, n - 1).None? { i := n; }
    }
  }

  /** What a served call gives. */
  lemma ExpectedExactly(bindings: seq<Binding>, conversion: Conversion, returned: Returned, limits: Limits, cursors: PortalName -> Cursor)
    requires DistinctNames(bindings)
    ensures var r := Expected(bindings, conversion, returned, limits, cursors);
            && (r.Ok? <==> Faultless(bindings, returned, |bindings|) && Fits(bindings, returned, Totals(0, 0), limits, cursors))
            && (r.Ok? ==> Outputs(bindings, returned, cursors, r.value))
            && (forall n :: 0 <= n < |bindings| && Faultless(bindings, returned, n) && Fault(bindings, returned, n).Some? ==>
                  r == Err(Fault(bindings, returned, n).value))
  {
    hide Record, Gather, Fault, Fits, Outputs;
    forall n | 0 <= n < |bindings| && Faultless(bindings, returned, n) && Fault(bindings, returned, n).Some?
      ensures Expected(bindings, conversion, returned, limits, cursors) == Err(Fault(bindings, returned, n).value)
    {
      RecordsTheCursors(bindings, returned, n);
    }
    RecordsTheCursors(bindings, returned, |bindings|);
    assert bindings[..|bindings|] == bindings;
    GathersExactly(bindings, returned, Totals(0, 0), limits, cursors);
    var i := FirstFault(bindings, returned, |bindings|);
  }

  /** Whatever is recorded is the portal of a cursor, and every cursor before the first fault has one. */
  lemma RecordedPortals(bindings: seq<Binding>, returned: Returned)
    ensures forall p :: p in Record(bindings, returned).0 ==> exists i :: 0 <= i < |bindings| && bindings[i].isCursor && p == PortalOf(returned, bindings[i])
    ensures forall n, i :: 0 <= i < n <= |bindings| && Faultless(bindings, returned, n) && bindings[i].isCursor ==>
              PortalOf(returned, bindings[i]) in Record(bindings, returned).0
  {
    hide Record, Fault, PortalOf;
    var n := FirstFault(bindings, returned, |bindings|);
    RecordsTheCursors(bindings, returned, n);
    var portals := PortalsOf(bindings[..n], returned);
    if n == |bindings| { assert bindings[..n] == bindings; }
    forall p | p in Record(bindings, returned).0
      ensures exists i :: 0 <= i < |bindings| && bindings[i].isCursor && p == PortalOf(returned, bindings[i])
    {
      PortalsMember(bindings[..n], returned, p);
      if p in portals {
        var i :| 0 <= i < n && bindings[..n][i].isCursor && PortalOf(returned, bindings[..n][i]) == p;
        assert bindings[i].isCursor;
      }
    }
    forall k, i | 0 <= i < k <= |bindings| && Faultless(bindings, returned, k) && bindings[i].isCursor
      ensures PortalOf(returned, bindings[i]) in Record(bindings, returned).0
    {
      assert i < n;
      PortalsMember(bindings[..n], returned, PortalOf(returned, bindings[i]));
      assert bindings[..n][i] == bindings[i];
    }
  }
}
