/**
 `ProcedureListBase` as the object the program has: its maps and flags are
 fields, and each stretch of code between two awaits is a method that changes
 them as the state machine does.
 */
module ProcedureListBase {
  import opened Options
  import opened MetadataRegistry

  class ProcedureList {
    var clock: nat
    var isDestroyed: bool
    var destroyDone: bool
    var loops: seq<Loop>
    var packageFetchStates: map<Package, LoopId>
    var retryTimers: map<Package, TimerId>
    var armed: map<TimerId, Package>
    var nextTimer: TimerId
    var packagesWithProceduresList: map<Package, FetchId>
    var callers: seq<Caller>
    var finished: seq<Finish>

    constructor ()
      ensures View() == EMPTY
    {
      clock, isDestroyed, destroyDone, loops := 0, false, false, [];
      packageFetchStates, retryTimers, armed, nextTimer := map[], map[], map[], 0;
      packagesWithProceduresList, callers, finished := map[], [], [];
    }

    ghost function View(): State
      reads this
    {
      State(clock, isDestroyed, destroyDone, loops, packageFetchStates, retryTimers, armed, nextTimer,
            packagesWithProceduresList, callers, finished)
    }

    /** Joins the running loop of a package, or starts one. */
    method FetchProcedureListWithArguments(packageName: Package)
      requires SingleFlight(View())
      modifies this
      ensures View() == Join(old(View()), packageName)
    {
      if isDestroyed {
        return;
      }
      if packageName in packageFetchStates {
        var id := packageFetchStates[packageName];
        loops := loops[id := loops[id].(rerun := true)];
        callers := callers + [Caller(id, clock, loops[id].phase.Leaving?, None)];
        return;
      }
      var id := |loops|;
      loops := loops + [Loop(packageName, Fetching(clock), false)];
      packageFetchStates := packageFetchStates[packageName := id];
      callers := callers + [Caller(id, clock, false, None)];
    }

    method ScheduleRetry(packageName: Package)
      modifies this
      ensures View() == MetadataRegistry.ScheduleRetry(old(View()), packageName)
    {
      if isDestroyed || packageName in retryTimers {
        return;
      }
      armed := armed[nextTimer := packageName];
      retryTimers := retryTimers[packageName := nextTimer];
      nextTimer := nextTimer + 1;
    }

    method ClearRetryTimer(packageName: Package)
      modifies this
      ensures View() == MetadataRegistry.ClearRetryTimer(old(View()), packageName)
    {
      if packageName !in retryTimers {
        return;
      }
      armed := armed - {retryTimers[packageName]};
      retryTimers := retryTimers - {packageName};
    }

    /** What follows the catalog query of a fetch. */
    method FetchProcedureListInternal(id: LoopId, ok: bool)
      requires Enabled(View(), FetchEnds(id, ok))
      modifies this
      ensures View() == Effect(old(View()), FetchEnds(id, ok))
    {
      var loop := loops[id];
      var fetch := loop.phase.fetch;
      var applied := ok && !isDestroyed;
      loops := loops[id := loop.(phase := Ended(fetch, applied))];
      finished := finished + [Finish(loop.package, fetch, applied)];
      if applied {
        packagesWithProceduresList := packagesWithProceduresList[loop.package := fetch];
        ClearRetryTimer(loop.package);
      } else {
        ScheduleRetry(loop.package);
      }
    }

    /** The loop condition of runPackageFetch. */
    method RunPackageFetch(id: LoopId)
      requires Enabled(View(), Check(id))
      modifies this
      ensures View() == Effect(old(View()), Check(id))
    {
      var loop := loops[id];
      if loop.rerun && !isDestroyed {
        loops := loops[id := loop.(phase := Fetching(clock), rerun := false)];
      } else {
        loops := loops[id := loop.(phase := Leaving(loop.phase.fetch, loop.phase.ok))];
      }
    }

    /** The promise of a fetch settles: its callers get the outcome and the map entry goes. */
    method FetchSettles(id: LoopId)
      requires Enabled(View(), Remove(id))
      modifies this
      ensures View() == Effect(old(View()), Remove(id))
    {
      var loop := loops[id];
      var outcome := (loop.phase.fetch, loop.phase.ok);
      loops := loops[id := loop.(phase := Gone)];
      if loop.package in packageFetchStates && packageFetchStates[loop.package] == id {
        packageFetchStates := packageFetchStates - {loop.package};
      }
      var i := 0;
      ghost var before, afterLoops, afterStates := callers, loops, packageFetchStates;
      while i < |callers|
        invariant i <= |callers| == |before|
        invariant View() == old(View()).(loops := afterLoops, states := afterStates, callers := callers)
        invariant forall k :: 0 <= k < |callers| ==>
          callers[k] == if k < i && before[k].loop == id && before[k].settled.None? then before[k].(settled := Some(outcome)) else before[k]
      {
        if callers[i].loop == id && callers[i].settled.None? {
          callers := callers[i := callers[i].(settled := Some(outcome))];
        }
        i := i + 1;
      }
      assert callers == Leave(old(View()), id).callers;
    }

    /** The timer's callback. */
    method RetryFires(timer: TimerId)
      requires Inv(View()) && Enabled(View(), MetadataRegistry.RetryFires(timer))
      modifies this
      ensures View() == Effect(old(View()), MetadataRegistry.RetryFires(timer))
    {
      var packageName := armed[timer];
      armed := armed - {timer};
      retryTimers := retryTimers - {packageName};
      FetchProcedureListWithArguments(packageName);
    }

    /** Clears every recorded timer; by the invariant that is every timer that could fire. */
    method Destroy()
      requires OneTimer(View()) && !isDestroyed
      modifies this
      ensures View() == Effect(old(View()), MetadataRegistry.Destroy)
    {
      isDestroyed := true;
      var remaining := retryTimers;
      while remaining != map[]
        invariant View() == old(View()).(isDestroyed := true, armed := armed)
        invariant forall t :: t in armed ==> armed[t] in remaining && remaining[armed[t]] == t
        decreases |remaining|
      {
        var packageName :| packageName in remaining;
        armed := armed - {remaining[packageName]};
        remaining := remaining - {packageName};
      }
      assert armed == map[];
      retryTimers := map[];
    }
  }
}
