/**
 All outputs of one procedure call (`PostgreProcedureResultMaterializer.materialize`):
 portals are recorded first, then read and closed in metadata order, and every
 portal that was recorded is closed exactly once on every path.
 */
module PortalMaterializer {
  import opened Options
  import opened ResourceTracker
  import opened PortalDrain
  import opened PortalOutputs

  method RecordPortals(bindings: seq<Binding>, returned: Returned) returns (portals: seq<Portal>, error: Option<Error>)
    ensures (portals, error) == Record(bindings, returned)
  {
    portals, error := [], None;
    var i := 0;
    while i < |bindings|
      invariant i <= |bindings| && error.None?
      invariant (portals, error) == Record(bindings[..i], returned)
    {
      assert bindings[..i + 1][..i] == bindings[..i];
      var binding := bindings[i];
      if binding.isCursor {
        var text := returned.text(binding.name);
        if text.None? {
          error := Some(BadPortalName);
        } else if returned.unnamed(text.value) {
          portals := portals + [Portal(binding.name, text.value)];
          error := Some(BadPortalName);
        } else if NamesPortal(portals, text.value) {
          error := Some(DuplicatePortal);
        } else {
          portals := portals + [Portal(binding.name, text.value)];
        }
        if error.Some? {
          RecordStops(bindings, returned, i + 1);
          return;
        }
      }
      i := i + 1;
    }
    assert bindings[..i] == bindings;
  }

  // ---- command traces

  /** The commands that concern one portal. */
  function Of(trace: seq<Command>, portal: PortalName): seq<Command> {
    if trace == [] then []
    else
      var last := trace[|trace| - 1];
      Of(trace[..|trace| - 1], portal) + if !last.Convert? && last.portal == portal then [last] else []
  }

  lemma {:induction false} OfAppend(a: seq<Command>, b: seq<Command>, portal: PortalName)
    ensures Of(a + b, portal) == Of(a, portal) + Of(b, portal)
    decreases |b|
  {
    if b == [] {
      assert a + b == a;
    } else {
      assert (a + b)[..|a + b| - 1] == a + b[..|b| - 1];
      OfAppend(a, b[..|b| - 1], portal);
    }
  }

  /** Every command of a piece of trace concerns one portal. */
  ghost predicate Only(commands: seq<Command>, portal: PortalName) {
    forall i :: 0 <= i < |commands| ==> !commands[i].Convert? && commands[i].portal == portal
  }

  lemma {:induction false} OfOnly(commands: seq<Command>, portal: PortalName, other: PortalName)
    requires Only(commands, portal)
    ensures Of(commands, other) == if other == portal then commands else []
  {
    if commands != [] {
      OfOnly(commands[..|commands| - 1], portal, other);
      assert commands == commands[..|commands| - 1] + [commands[|commands| - 1]];
    }
  }

  /** Among the recorded portals, those still pending were not touched, the others were drained; nothing else was. */
  ghost predicate Disciplined(trace: seq<Command>, recorded: seq<Portal>, pending: seq<Portal>) {
    && Distinct(recorded)
    && (forall i :: 0 <= i < |pending| ==> pending[i] in recorded)
    && Distinct(pending)
    && (forall p :: p in recorded ==> if p in pending then Of(trace, p.name) == [] else Drains(Of(trace, p.name), p.name))
    && (forall i :: 0 <= i < |trace| ==> trace[i].Convert? || NamesPortal(recorded, trace[i].portal))
  }

  lemma SameName(recorded: seq<Portal>, p: Portal, q: Portal)
    requires Distinct(recorded) && p in recorded && q in recorded && p.name == q.name
    ensures p == q
  {
    var i :| 0 <= i < |recorded| && recorded[i] == p;
    var j :| 0 <= j < |recorded| && recorded[j] == q;
  }

  /** Draining or closing a pending portal settles it. */
  lemma SettlesOne(trace: seq<Command>, recorded: seq<Portal>, pending: seq<Portal>, i: nat, commands: seq<Command>)
    requires i < |pending| && Disciplined(trace, recorded, pending) && Drains(commands, pending[i].name)
    ensures Disciplined(trace + commands, recorded, Without(pending, i))
  {
    hide Drains;
    var p, rest, longer := pending[i], Without(pending, i), trace + commands;
    assert Only(commands, p.name) by { DrainsOnly(commands, p.name); }
    WithoutKeeps(pending, i);
    forall q | q in recorded
      ensures if q in rest then Of(longer, q.name) == [] else Drains(Of(longer, q.name), q.name)
    {
      OfAppend(trace, commands, q.name);
      OfOnly(commands, p.name, q.name);
      assert p in pending;
      if q.name == p.name {
        SameName(recorded, p, q);
        assert Of(trace, q.name) == [];
        assert Of(longer, q.name) == commands;
      } else {
        assert q in rest <==> q in pending;
        assert Of(longer, q.name) == Of(trace, q.name);
      }
    }
    forall k | 0 <= k < |longer|
      ensures longer[k].Convert? || NamesPortal(recorded, longer[k].portal)
    {
      if k >= |trace| {
        assert longer[k] == commands[k - |trace|];
        var j :| 0 <= j < |recorded| && recorded[j] == p;
        assert recorded[j].name == longer[k].portal;
      }
    }
  }

  lemma DrainsOnly(commands: seq<Command>, portal: PortalName)
    requires Drains(commands, portal)
    ensures Only(commands, portal)
  {}

  lemma WithoutKeeps(pending: seq<Portal>, i: nat)
    requires i < |pending| && Distinct(pending)
    ensures Distinct(Without(pending, i))
    ensures forall q :: q in Without(pending, i) <==> q in pending && q != pending[i]
  {
    var rest := Without(pending, i);
    assert forall k :: 0 <= k < |rest| ==> rest[k] == pending[if k < i then k else k + 1];
    forall q | q in pending && q != pending[i]
      ensures q in rest
    {
      var k :| 0 <= k < |pending| && pending[k] == q;
      assert rest[if k < i then k else k - 1] == q;
    }
  }

  lemma {:induction false} UntouchedIsUnread(trace: seq<Command>, answers: nat -> Answer, portal: PortalName)
    requires Of(trace, portal) == []
    ensures Position(trace, answers, |trace|, portal) == 0
  {
    if trace != [] {
      var before, last := trace[..|trace| - 1], trace[|trace| - 1];
      assert trace == before + [last];
      UntouchedIsUnread(before, answers, portal);
      PositionStep(before, last, answers, portal);
    }
  }

  /** The rows delivered by a trace stay within the limit, plus the one that breaks it. */
  ghost predicate WithinBudget(trace: seq<Command>, answers: nat -> Answer, limits: Limits) {
    Modest(trace, answers) ==> Delivered(trace, answers, |trace|) <= limits.maxProcedureRows + 1
  }

  /** Closing pending portals, each name once; a failing CLOSE changes nothing. */
  method ClosePendingPortals(manager: Manager, pending: seq<Portal>, ghost recorded: seq<Portal>, limits: Limits)
    requires Disciplined(manager.trace, recorded, pending) && WithinBudget(manager.trace, manager.answers, limits)
    modifies manager`trace
    ensures old(manager.trace) <= manager.trace
    ensures Disciplined(manager.trace, recorded, []) && WithinBudget(manager.trace, manager.answers, limits)
  {
    hide Disciplined, Distinct, Drains, Modest, Delivered;
    var closedNames: set<PortalName> := {};
    var i := 0;
    assert pending[0..] == pending;
    while i < |pending|
      invariant i <= |pending|
      invariant old(manager.trace) <= manager.trace
      invariant Disciplined(manager.trace, recorded, pending[i..]) && WithinBudget(manager.trace, manager.answers, limits)
      invariant forall k :: i <= k < |pending| ==> pending[k].name !in closedNames
    {
      ghost var sent, rest := manager.trace, pending[i..];
      assert rest[0] == pending[i];
      NamesAhead(sent, recorded, rest);
      if pending[i].name !in closedNames {
        closedNames := closedNames + {pending[i].name};
        var _ := manager.Query(Close(pending[i].name));
        OneClose(pending[i].name);
        SettlesOne(sent, recorded, rest, 0, [Close(pending[i].name)]);
        assert Without(rest, 0) == pending[i + 1..];
        DeliveredStep(sent, Close(pending[i].name), manager.answers);
      }
      assert forall k :: i < k < |pending| ==> pending[k] == rest[k - i];
      i := i + 1;
    }
    assert pending[i..] == [];
  }

  lemma OneClose(portal: PortalName)
    ensures Drains([Close(portal)], portal)
  {}

  lemma NamesAhead(trace: seq<Command>, recorded: seq<Portal>, pending: seq<Portal>)
    requires Disciplined(trace, recorded, pending) && pending != []
    ensures forall k :: 0 < k < |pending| ==> pending[k].name != pending[0].name
    ensures pending[0] in recorded && Of(trace, pending[0].name) == []
  {}

  lemma PendingIsUntouched(trace: seq<Command>, recorded: seq<Portal>, pending: seq<Portal>, i: nat)
    requires Disciplined(trace, recorded, pending) && i < |pending|
    ensures Of(trace, pending[i].name) == []
  {}

  /** What a step of the second pass owes: the outputs so far continue to what is gathered from here. */
  function Continue(outs: seq<Out>, r: Result<seq<Out>, Error>): Result<seq<Out>, Error> {
    match r
    case Err(e) => Err(e)
    case Ok(more) => Ok(outs + more)
  }

  lemma ContinuePrepend(outs: seq<Out>, out: Out, r: Result<seq<Out>, Error>)
    ensures Continue(outs, Prepend(out, r)) == Continue(outs + [out], r)
  {
    if r.Ok? { assert outs + ([out] + r.value) == (outs + [out]) + r.value; }
  }

  lemma ContinueEnds(outs: seq<Out>, r: Result<seq<Out>, Error>)
    ensures Continue([], r) == r && Continue(outs, Ok([])) == Ok(outs)
  {
    if r.Ok? { assert [] + r.value == r.value; }
    assert outs + [] == outs;
  }

  /** The second pass: scalars are counted, portals drained and closed, in metadata order. */
  method ReadOutputs(manager: Manager, bindings: seq<Binding>, recorded: seq<Portal>, limits: Limits, ghost cursors: PortalName -> Cursor)
    returns (pending: seq<Portal>, r: Result<seq<Out>, Error>)
    requires Disciplined(manager.trace, recorded, recorded)
    requires Delivered(manager.trace, manager.answers, |manager.trace|) == 0
    modifies manager`trace
    ensures old(manager.trace) <= manager.trace
    ensures Disciplined(manager.trace, recorded, pending)
    ensures Serves(manager.trace, manager.answers, cursors) ==> r == Gather(bindings, recorded, Totals(0, 0), limits, cursors)
    ensures WithinBudget(manager.trace, manager.answers, limits)
  {
    hide Disciplined, Drains, Serves, Drained, Modest, Delivered, Position, CountRows, Costs, Slice, Of;
    pending := recorded;
    var outs: seq<Out> := [];
    var now := Totals(0, 0);
    var i := 0;
    assert bindings[0..] == bindings;
    ContinueEnds([], Gather(bindings, recorded, now, limits, cursors));
    while i < |bindings|
      invariant i <= |bindings|
      invariant old(manager.trace) <= manager.trace
      invariant Disciplined(manager.trace, recorded, pending)
      invariant now.rows <= limits.maxProcedureRows
      invariant Serves(manager.trace, manager.answers, cursors) ==>
                  Gather(bindings, recorded, Totals(0, 0), limits, cursors) == Continue(outs, Gather(bindings[i..], pending, now, limits, cursors))
      invariant Modest(manager.trace, manager.answers) ==> Delivered(manager.trace, manager.answers, |manager.trace|) <= now.rows
    {
      var binding := bindings[i];
      assert bindings[i..][1..] == bindings[i + 1..];
      var found := IndexOf(pending, binding.name);
      if found == |pending| {
        var (after, failure) := CountValue(now, limits, binding.cost);
        ContinuePrepend(outs, Scalar(binding.name), Gather(bindings[i + 1..], pending, after, limits, cursors));
        if failure.Some? {
          return pending, Err(Limit(failure.value));
        }
        now := after;
        outs := outs + [Scalar(binding.name)];
      } else {
        ghost var sent := manager.trace;
        ghost var earlier := now;
        var portal := pending[found];
        PendingIsUntouched(sent, recorded, pending, found);
        UntouchedIsUnread(sent, manager.answers, portal.name);
        var rows;
        now, rows := FetchAndClosePortal(manager, portal.name, limits, now, cursors);
        assert manager.trace == sent + manager.trace[|sent|..];
        SettlesOne(sent, recorded, pending, found, manager.trace[|sent|..]);
        ModestPrefix(sent, manager.trace, manager.answers);
        if Serves(manager.trace, manager.answers, cursors) {
          ServesPrefix(sent, manager.trace[|sent|..], manager.answers, cursors);
        }
        ghost var before := pending;
        pending := Without(pending, found);
        if rows.Err? {
          return pending, Err(rows.error);
        }
        ContinuePrepend(outs, CursorRows(binding.name, rows.value), Gather(bindings[i + 1..], pending, now, limits, cursors));
        outs := outs + [CursorRows(binding.name, rows.value)];
      }
      i := i + 1;
    }
    assert bindings[i..] == [];
    ContinueEnds(outs, Ok([]));
    r := Ok(outs);
  }

  lemma ModestPrefix(a: seq<Command>, b: seq<Command>, answers: nat -> Answer)
    requires a <= b
    ensures Modest(b, answers) ==> Modest(a, answers)
  {}

  /**
   Materialising every output of a call, in a trace of its own. On every path
   each recorded portal is fetched and then closed exactly once, no other portal
   is touched, and at most one row more than the limit is delivered. A portal is
   recorded for each cursor before the first binding at fault.

   When the server serves, the call succeeds exactly if no binding is at fault,
   every cursor ends and everything fits the limits, and then it gives one
   output per binding, with all rows of its cursor.
   */
  method Materialize(manager: Manager, bindings: seq<Binding>, conversion: Conversion, returned: Returned, limits: Limits,
                     ghost cursors: PortalName -> Cursor)
    returns (r: Result<seq<Out>, Error>)
    requires manager.trace == []
    modifies manager`trace
    ensures forall p :: p in Record(bindings, returned).0 && !Unconverted(conversion, manager.answers) ==>
              Drains(Of(manager.trace, p.name), p.name)
    ensures forall i :: 0 <= i < |manager.trace| ==>
              manager.trace[i].Convert? || NamesPortal(Record(bindings, returned).0, manager.trace[i].portal)
    ensures Unconverted(conversion, manager.answers) ==> r.Err? && manager.trace == [Convert]
    ensures !Unconverted(conversion, manager.answers) && Serves(manager.trace, manager.answers, cursors) ==>
              r == Expected(bindings, conversion, returned, limits, cursors)
    ensures WithinBudget(manager.trace, manager.answers, limits)
    ensures !Unconverted(conversion, manager.answers) ==>
              forall n, i :: 0 <= i < n <= |bindings| && Faultless(bindings, returned, n) && bindings[i].isCursor ==>
                Drains(Of(manager.trace, PortalOf(returned, bindings[i]).name), PortalOf(returned, bindings[i]).name)
    ensures forall k :: 0 <= k < |manager.trace| && !manager.trace[k].Convert? ==>
              exists i :: 0 <= i < |bindings| && bindings[i].isCursor && manager.trace[k].portal == PortalOf(returned, bindings[i]).name
    ensures !Unconverted(conversion, manager.answers) && Serves(manager.trace, manager.answers, cursors) && DistinctNames(bindings) ==>
              && (r.Ok? <==> Faultless(bindings, returned, |bindings|) && Fits(bindings, returned, Totals(0, 0), limits, cursors))
              && (r.Ok? ==> Outputs(bindings, returned, cursors, r.value))
              && (forall n :: 0 <= n < |bindings| && Faultless(bindings, returned, n) && Fault(bindings, returned, n).Some? ==>
                    r == Err(Fault(bindings, returned, n).value))
  {
    hide Disciplined, Drains, Serves, Modest, Delivered, Of, Gather, Record, Fits, Faultless, Fault, Outputs, PortalOf;
    if DistinctNames(bindings) { ExpectedExactly(bindings, conversion, returned, limits, cursors); }
    RecordedPortals(bindings, returned);
    if conversion.Composites? {
      var answer := manager.Query(Convert);
      NothingDelivered(manager.answers);
      if answer.Failed? {
        return Err(QueryFailed);
      }
      if answer.rows == [] || !conversion.parses {
        return Err(BadConversion);
      }
    }
    NothingDelivered(manager.answers);
    var portals, error := RecordPortals(bindings, returned);
    StartsDisciplined(manager.trace, bindings, returned);
    var pending;
    if error.Some? {
      pending, r := portals, Err(error.value);
    } else {
      pending, r := ReadOutputs(manager, bindings, portals, limits, cursors);
    }
    ghost var sent := manager.trace;
    ClosePendingPortals(manager, pending, portals, limits);
    assert manager.trace == sent + manager.trace[|sent|..];
    if Serves(manager.trace, manager.answers, cursors) {
      ServesPrefix(sent, manager.trace[|sent|..], manager.answers, cursors);
    }
    EndsDisciplined(manager.trace, portals);
  }

  /** The conversion query of composite outputs failed, before any portal was recorded. */
  predicate Unconverted(conversion: Conversion, answers: nat -> Answer) {
    conversion.Composites? && (answers(0).Failed? || answers(0).rows == [] || !conversion.parses)
  }

  lemma NothingDelivered(answers: nat -> Answer)
    ensures Delivered([], answers, 0) == 0 && Delivered([Convert], answers, 1) == 0
  {}

  lemma StartsDisciplined(trace: seq<Command>, bindings: seq<Binding>, returned: Returned)
    requires trace == [] || trace == [Convert]
    ensures Disciplined(trace, Record(bindings, returned).0, Record(bindings, returned).0)
  {
    RecordedPortalsDiffer(bindings, returned);
    if trace == [Convert] {
      assert trace[..0] == [];
    }
  }

  lemma EndsDisciplined(trace: seq<Command>, recorded: seq<Portal>)
    requires Disciplined(trace, recorded, [])
    ensures forall p :: p in recorded ==> Drains(Of(trace, p.name), p.name)
    ensures forall i :: 0 <= i < |trace| ==> trace[i].Convert? || NamesPortal(recorded, trace[i].portal)
  {}
}
