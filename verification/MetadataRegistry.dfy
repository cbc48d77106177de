/**
 The procedure-metadata registry (`ProcedureListBase`) as a state machine. One
 step is a stretch of code between two awaits: joining or starting a fetch, the
 end of a catalog query, the check for another round, the removal of the map
 entry, a retry timer firing, destroy and its completion.
 */
module MetadataRegistry {
  import opened Options

  type Package = string
  type LoopId = nat
  type TimerId = nat

  /** Every fetch has its own number: the step it started in. */
  type FetchId = nat

  datatype Phase =
    | Fetching(fetch: FetchId)
    | Ended(fetch: FetchId, ok: bool)     // the query is over, `rerunRequested` not yet read again
    | Leaving(fetch: FetchId, ok: bool)   // the promise is settled, the map entry still there
    | Gone

  /** One run of `runPackageFetch`; `rerun` is its control's rerunRequested. */
  datatype Loop = Loop(package: Package, phase: Phase, rerun: bool)

  /** A call that waits for a loop; settled with the fetch whose outcome it got. */
  datatype Caller = Caller(loop: LoopId, calledAt: nat, joinedLeaving: bool, settled: Option<(FetchId, bool)>)

  datatype Finish = Finish(package: Package, fetch: FetchId, ok: bool)

  datatype State = State(
    clock: nat,
    isDestroyed: bool,
    destroyDone: bool,
    loops: seq<Loop>,
    states: map<Package, LoopId>,         // packageFetchStates
    timers: map<Package, TimerId>,        // retryTimers
    armed: map<TimerId, Package>,         // timers that can still fire
    nextTimer: TimerId,
    snapshot: map<Package, FetchId>,      // packagesWithProceduresList, by the fetch it came from
    callers: seq<Caller>,
    finished: seq<Finish>)                // every fetch that ended, in order

  const EMPTY := State(0, false, false, [], map[], map[], map[], 0, map[], [], [])

  datatype Action =
    | Call(package: Package)
    | FetchEnds(loop: LoopId, ok: bool)
    | Check(loop: LoopId)
    | Remove(loop: LoopId)
    | RetryFires(timer: TimerId)
    | Destroy
    | DestroyEnds

  /** A timer is a task of its own: it never fires while promise reactions are pending. */
  predicate Quiescent(s: State) {
    forall i :: 0 <= i < |s.loops| ==> s.loops[i].phase.Fetching? || s.loops[i].phase.Gone?
  }

  predicate Enabled(s: State, a: Action) {
    match a
    case Call(_) => true
    case FetchEnds(id, _) => id < |s.loops| && s.loops[id].phase.Fetching?
    case Check(id) => id < |s.loops| && s.loops[id].phase.Ended?
    case Remove(id) => id < |s.loops| && s.loops[id].phase.Leaving?
    case RetryFires(t) => t in s.armed && Quiescent(s)
    case Destroy => !s.isDestroyed
    case DestroyEnds => s.isDestroyed && !s.destroyDone && s.states == map[]
  }

  function SetLoop(s: State, id: LoopId, loop: Loop): State
    requires id < |s.loops|
  {
    s.(loops := s.loops[id := loop])
  }

  /** fetchProcedureListWithArguments, up to its await. */
  function Join(s: State, p: Package): State {
    if s.isDestroyed then s
    else if p in s.states && s.states[p] < |s.loops| then
      var id := s.states[p];
      SetLoop(s, id, s.loops[id].(rerun := true))
        .(callers := s.callers + [Caller(id, s.clock, s.loops[id].phase.Leaving?, None)])
    else
      s.(loops := s.loops + [Loop(p, Fetching(s.clock), false)],
         states := s.states[p := |s.loops|],
         callers := s.callers + [Caller(|s.loops|, s.clock, false, None)])
  }

  function ClearRetryTimer(s: State, p: Package): State {
    if p !in s.timers then s else s.(armed := s.armed - {s.timers[p]}, timers := s.timers - {p})
  }

  function ScheduleRetry(s: State, p: Package): State {
    if s.isDestroyed || p in s.timers then s
    else s.(timers := s.timers[p := s.nextTimer], armed := s.armed[s.nextTimer := p], nextTimer := s.nextTimer + 1)
  }

  /** fetchProcedureListInternal after its query: a snapshot is put in place, or a retry scheduled. */
  function EndFetch(s: State, id: LoopId, ok: bool): State
    requires id < |s.loops| && s.loops[id].phase.Fetching?
  {
    var loop := s.loops[id];
    var fetch := loop.phase.fetch;
    var applied := ok && !s.isDestroyed;
    var ended := SetLoop(s, id, loop.(phase := Ended(fetch, applied)))
      .(finished := s.finished + [Finish(loop.package, fetch, applied)]);
    if applied then ClearRetryTimer(ended.(snapshot := s.snapshot[loop.package := fetch]), loop.package)
    else ScheduleRetry(ended, loop.package)
  }

  /** shouldRerunFetch, and the next round if there is one. */
  function NextRound(s: State, id: LoopId): State
    requires id < |s.loops| && s.loops[id].phase.Ended?
  {
    var loop := s.loops[id];
    if loop.rerun && !s.isDestroyed then SetLoop(s, id, loop.(phase := Fetching(s.clock), rerun := false))
    else SetLoop(s, id, loop.(phase := Leaving(loop.phase.fetch, loop.phase.ok)))
  }

  /** The finally block of the caller that started the loop; everyone waiting settles. */
  function Leave(s: State, id: LoopId): State
    requires id < |s.loops| && s.loops[id].phase.Leaving?
  {
    var loop := s.loops[id];
    var outcome := (loop.phase.fetch, loop.phase.ok);
    SetLoop(s, id, loop.(phase := Gone))
      .(states := if loop.package in s.states && s.states[loop.package] == id then s.states - {loop.package} else s.states,
        callers := seq(|s.callers|, i requires 0 <= i < |s.callers| =>
          if s.callers[i].loop == id && s.callers[i].settled.None? then s.callers[i].(settled := Some(outcome))
          else s.callers[i]))
  }

  function Fire(s: State, t: TimerId): State
    requires t in s.armed
  {
    var p := s.armed[t];
    Join(s.(armed := s.armed - {t}, timers := s.timers - {p}), p)
  }

  function Effect(s: State, a: Action): State
    requires Enabled(s, a)
  {
    match a
    case Call(p) => Join(s, p)
    case FetchEnds(id, ok) => EndFetch(s, id, ok)
    case Check(id) => NextRound(s, id)
    case Remove(id) => Leave(s, id)
    case RetryFires(t) => Fire(s, t)
    case Destroy => s.(isDestroyed := true, timers := map[], armed := map[])
    case DestroyEnds => s.(destroyDone := true, snapshot := map[])
  }

  function Next(s: State, a: Action): State
    requires Enabled(s, a)
  {
    Effect(s, a).(clock := s.clock + 1)
  }

  // ---- invariants

  /** Every loop that is not gone is the one recorded for its package. */
  ghost predicate SingleFlight(s: State) {
    && (forall p :: p in s.states ==> s.states[p] < |s.loops| && s.loops[s.states[p]].package == p && !s.loops[s.states[p]].phase.Gone?)
    && (forall i :: 0 <= i < |s.loops| && !s.loops[i].phase.Gone? ==>
          s.loops[i].package in s.states && s.states[s.loops[i].package] == i)
  }

  /** At most one timer per package can fire, the recorded one, and none after destroy. */
  ghost predicate OneTimer(s: State) {
    && (forall t :: t in s.armed ==> t < s.nextTimer && s.armed[t] in s.timers && s.timers[s.armed[t]] == t)
    && (forall p :: p in s.timers ==> s.timers[p] in s.armed && s.armed[s.timers[p]] == p)
    && (s.isDestroyed ==> s.armed == map[] && s.timers == map[])
  }

  /** The last fetch of a package that ended. */
  function LastFinish(finished: seq<Finish>, p: Package): Option<Finish> {
    if finished == [] then None
    else if finished[|finished| - 1].package == p then Some(finished[|finished| - 1])
    else LastFinish(finished[..|finished| - 1], p)
  }

  /** The last successful fetch of a package. */
  function LastSuccess(finished: seq<Finish>, p: Package): Option<FetchId> {
    if finished == [] then None
    else if finished[|finished| - 1].package == p && finished[|finished| - 1].ok then Some(finished[|finished| - 1].fetch)
    else LastSuccess(finished[..|finished| - 1], p)
  }

  predicate FetchPending(s: State, p: Package) {
    p in s.states && s.states[p] < |s.loops| && s.loops[s.states[p]].phase.Fetching?
  }

  predicate LastFailed(s: State, p: Package) {
    LastFinish(s.finished, p).Some? && !LastFinish(s.finished, p).value.ok
  }

  /** A failure is never the last word: a timer or a running fetch follows it. And only a failure leaves a timer. */
  ghost predicate Retried(s: State) {
    !s.isDestroyed ==>
      && (forall p :: LastFailed(s, p) ==> p in s.timers || FetchPending(s, p))
      && (forall p :: p in s.timers ==> LastFailed(s, p))
  }

  /** Another round is due only if somebody joined after the current fetch had started. */
  ghost predicate Asked(s: State) {
    forall id :: 0 <= id < |s.loops| && !s.loops[id].phase.Gone? && !s.loops[id].phase.Leaving? && s.loops[id].rerun ==>
      AskedAfter(s.callers, id, FetchOf(s.loops[id].phase))
  }

  ghost predicate AskedAfter(callers: seq<Caller>, id: LoopId, fetch: FetchId) {
    exists i :: 0 <= i < |callers| && callers[i].loop == id && callers[i].calledAt > fetch
  }

  /** The registry holds, for every package, its last successful fetch. */
  ghost predicate SnapshotCurrent(s: State) {
    if s.destroyDone then s.snapshot == map[]
    else forall p ::
           && (p in s.snapshot <==> LastSuccess(s.finished, p).Some?)
           && (p in s.snapshot ==> s.snapshot[p] == LastSuccess(s.finished, p).value)
  }

  function FetchOf(phase: Phase): FetchId
    requires !phase.Gone?
  {
    phase.fetch
  }

  /** What a waiting caller may still count on. */
  ghost predicate CallerPromise(s: State, c: Caller) {
    && c.loop < |s.loops|
    && c.calledAt < s.clock
    && match c.settled
       case None =>
         && !s.loops[c.loop].phase.Gone?
         && var loop := s.loops[c.loop];
            if loop.phase.Leaving? then !s.isDestroyed ==> (c.joinedLeaving <==> FetchOf(loop.phase) < c.calledAt)
            else !c.joinedLeaving && (c.calledAt <= FetchOf(loop.phase) || loop.rerun)
       case Some((fetch, _)) => !s.isDestroyed ==> (c.joinedLeaving <==> fetch < c.calledAt)
  }

  ghost predicate Fresh(s: State) {
    && (forall i :: 0 <= i < |s.callers| ==> CallerPromise(s, s.callers[i]))
    && (forall i :: 0 <= i < |s.loops| && !s.loops[i].phase.Gone? ==> FetchOf(s.loops[i].phase) < s.clock)
  }

  ghost predicate Inv(s: State) {
    SingleFlight(s) && OneTimer(s) && Retried(s) && Asked(s) && SnapshotCurrent(s) && Fresh(s) && (s.destroyDone ==> s.isDestroyed && s.states == map[])
  }
}
