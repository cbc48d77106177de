/**
 Runs of the metadata registry: single flight, fresh answers, pending retries
 and snapshots that concurrent fetches do not lose.
 */
module MetadataRuns {
  import opened Options
  import opened MetadataRegistry

  // ---- joining or starting a loop

  lemma JoinKeepsFlight(s: State, p: Package)
    requires SingleFlight(s)
    ensures SingleFlight(Join(s, p))
  {
    if !s.isDestroyed && p in s.states {
      LoopChangeKeepsFlight(s, s.states[p], s.loops[s.states[p]].(rerun := true));
    } else if !s.isDestroyed {
      NewLoopKeepsFlight(s, p);
    }
  }

  lemma LoopChangeKeepsFlight(s: State, id: LoopId, loop: Loop)
    requires SingleFlight(s) && id < |s.loops| && !s.loops[id].phase.Gone?
    requires loop.package == s.loops[id].package && !loop.phase.Gone?
    ensures SingleFlight(s.(loops := s.loops[id := loop]))
  {}

  lemma NewLoopKeepsFlight(s: State, p: Package)
    requires SingleFlight(s) && p !in s.states
    ensures SingleFlight(s.(loops := s.loops + [Loop(p, Fetching(s.clock), false)], states := s.states[p := |s.loops|]))
  {
    var t := s.(loops := s.loops + [Loop(p, Fetching(s.clock), false)], states := s.states[p := |s.loops|]);
    assert forall i :: 0 <= i < |s.loops| ==> t.loops[i] == s.loops[i];
    assert t.loops[|s.loops|].package == p;
  }

  /** A caller that waits for a fetch not older than its call, or for another round. */
  predicate Claims(s: State, c: Caller, loop: Loop)
    requires !loop.phase.Gone?
  {
    !c.joinedLeaving && c.calledAt < s.clock && !loop.phase.Leaving? && (c.calledAt <= FetchOf(loop.phase) || loop.rerun)
  }

  /** What callers were promised survives a change of one loop that keeps their claims. */
  ghost predicate KeepsClaims(s: State, loop: Loop, changed: Loop) {
    && !loop.phase.Gone? && !changed.phase.Gone?
    && FetchOf(changed.phase) <= s.clock
    && forall c: Caller :: Claims(s, c, loop) ==>
         if changed.phase.Leaving? then !s.isDestroyed ==> FetchOf(changed.phase) >= c.calledAt
         else c.calledAt <= FetchOf(changed.phase) || changed.rerun
  }

  lemma LoopChangeKeepsPromises(s: State, id: LoopId, changed: Loop)
    requires Fresh(s) && id < |s.loops| && KeepsClaims(s, s.loops[id], changed)
    requires s.loops[id].phase.Leaving? ==> changed.phase == s.loops[id].phase
    ensures Fresh(s.(loops := s.loops[id := changed], clock := s.clock + 1))
  {
    var t := s.(loops := s.loops[id := changed], clock := s.clock + 1);
    forall i | 0 <= i < |t.callers|
      ensures CallerPromise(t, t.callers[i])
    {
      assert CallerPromise(s, s.callers[i]);
    }
  }

  lemma JoinKeepsPromises(s: State, p: Package)
    requires SingleFlight(s) && Fresh(s)
    ensures Fresh(Join(s, p).(clock := s.clock + 1))
  {
    if s.isDestroyed {
      TickKeepsPromises(s, s.(clock := s.clock + 1));
    } else if p in s.states {
      var id := s.states[p];
      var changed := s.loops[id].(rerun := true);
      assert KeepsClaims(s, s.loops[id], changed);
      LoopChangeKeepsPromises(s, id, changed);
      var t := s.(loops := s.loops[id := changed], clock := s.clock + 1);
      NewCallerKeepsPromises(t, Caller(id, s.clock, changed.phase.Leaving?, None));
    } else {
      NewLoopKeepsPromises(s, p);
      var t := s.(loops := s.loops + [Loop(p, Fetching(s.clock), false)], states := s.states[p := |s.loops|], clock := s.clock + 1);
      NewCallerKeepsPromises(t, Caller(|s.loops|, s.clock, false, None));
    }
  }

  lemma NewLoopKeepsPromises(s: State, p: Package)
    requires Fresh(s)
    ensures Fresh(s.(loops := s.loops + [Loop(p, Fetching(s.clock), false)], states := s.states[p := |s.loops|], clock := s.clock + 1))
  {
    var t := s.(loops := s.loops + [Loop(p, Fetching(s.clock), false)], states := s.states[p := |s.loops|], clock := s.clock + 1);
    assert forall i :: 0 <= i < |s.loops| ==> t.loops[i] == s.loops[i];
    forall i | 0 <= i < |t.callers|
      ensures CallerPromise(t, t.callers[i])
    {
      assert CallerPromise(s, s.callers[i]);
    }
  }

  lemma NewCallerKeepsPromises(s: State, c: Caller)
    requires Fresh(s) && CallerPromise(s, c)
    ensures Fresh(s.(callers := s.callers + [c]))
  {
    var t := s.(callers := s.callers + [c]);
    forall i | 0 <= i < |t.callers|
      ensures CallerPromise(t, t.callers[i])
    {
      if i < |s.callers| {
        assert t.callers[i] == s.callers[i];
        assert CallerPromise(s, s.callers[i]);
      }
    }
  }

  lemma TickKeepsPromises(s: State, t: State)
    requires Fresh(s) && t.loops == s.loops && t.callers == s.callers && t.clock == s.clock + 1
    requires s.isDestroyed ==> t.isDestroyed
    ensures Fresh(t)
  {
    forall i | 0 <= i < |t.callers|
      ensures CallerPromise(t, t.callers[i])
    {
      assert CallerPromise(s, s.callers[i]);
    }
  }

  lemma AppendKeepsAsked(callers: seq<Caller>, c: Caller, id: LoopId, fetch: FetchId)
    ensures AskedAfter(callers, id, fetch) ==> AskedAfter(callers + [c], id, fetch)
    ensures c.loop == id && c.calledAt > fetch ==> AskedAfter(callers + [c], id, fetch)
  {
    if AskedAfter(callers, id, fetch) {
      var i :| 0 <= i < |callers| && callers[i].loop == id && callers[i].calledAt > fetch;
      assert (callers + [c])[i] == callers[i];
    }
    assert (callers + [c])[|callers|] == c;
  }

  lemma JoinKeepsAsked(s: State, p: Package)
    requires SingleFlight(s) && Fresh(s) && Asked(s)
    ensures Asked(Join(s, p).(clock := s.clock + 1))
  {
    hide CallerPromise, AskedAfter;
    var t := Join(s, p).(clock := s.clock + 1);
    if !s.isDestroyed {
      var c := t.callers[|s.callers|];
      forall id | 0 <= id < |t.loops| && !t.loops[id].phase.Gone? && !t.loops[id].phase.Leaving? && t.loops[id].rerun
        ensures AskedAfter(t.callers, id, FetchOf(t.loops[id].phase))
      {
        AppendKeepsAsked(s.callers, c, id, FetchOf(t.loops[id].phase));
      }
    }
  }

  /** Steps that start no round for another loop and change no caller's loop or time. */
  lemma AskedOf(s: State, t: State, id: LoopId)
    requires Asked(s) && |t.loops| == |s.loops|
    requires forall i :: 0 <= i < |s.loops| && i != id ==> t.loops[i] == s.loops[i]
    requires id < |t.loops| && !t.loops[id].phase.Gone? && !t.loops[id].phase.Leaving? && t.loops[id].rerun ==>
               !s.loops[id].phase.Gone? && !s.loops[id].phase.Leaving? && s.loops[id].rerun && FetchOf(t.loops[id].phase) == FetchOf(s.loops[id].phase)
    requires |t.callers| == |s.callers| && forall i :: 0 <= i < |s.callers| ==>
               t.callers[i].loop == s.callers[i].loop && t.callers[i].calledAt == s.callers[i].calledAt
    ensures Asked(t)
  {
    forall k | 0 <= k < |t.loops| && !t.loops[k].phase.Gone? && !t.loops[k].phase.Leaving? && t.loops[k].rerun
      ensures AskedAfter(t.callers, k, FetchOf(t.loops[k].phase))
    {
      var i :| 0 <= i < |s.callers| && s.callers[i].loop == k && s.callers[i].calledAt > FetchOf(s.loops[k].phase);
      assert t.callers[i].loop == k;
    }
  }

  lemma JoinKeepsPending(s: State, p: Package)
    requires SingleFlight(s)
    ensures forall q :: FetchPending(s, q) ==> FetchPending(Join(s, p), q)
    ensures !s.isDestroyed && Quiescent(s) ==> FetchPending(Join(s, p), p)
  {}

  lemma JoinKeepsInv(s: State, p: Package)
    requires Inv(s) && !s.destroyDone
    ensures Inv(Join(s, p).(clock := s.clock + 1))
  {
    hide SingleFlight, Fresh, LastFinish, LastSuccess, FetchPending, OneTimer, Asked;
    JoinKeepsAsked(s, p);
    JoinKeepsFlight(s, p);
    JoinKeepsPromises(s, p);
    JoinKeepsPending(s, p);
    var t := Join(s, p).(clock := s.clock + 1);
    FlightIgnoresClock(Join(s, p), s.clock + 1);
    TimersIgnoreLoops(s, t);
    assert forall q :: FetchPending(Join(s, p), q) ==> FetchPending(t, q) by { PendingIgnoresClock(Join(s, p), s.clock + 1); }
  }

  lemma FlightIgnoresClock(s: State, clock: nat)
    requires SingleFlight(s)
    ensures SingleFlight(s.(clock := clock))
  {}

  lemma PendingIgnoresClock(s: State, clock: nat)
    ensures forall q :: FetchPending(s, q) ==> FetchPending(s.(clock := clock), q)
  {}

  lemma TimersIgnoreLoops(s: State, t: State)
    requires OneTimer(s) && t.timers == s.timers && t.armed == s.armed && t.nextTimer == s.nextTimer
    requires t.isDestroyed == s.isDestroyed
    ensures OneTimer(t)
  {}

  // ---- a fetch ends

  lemma ClearKeepsTimers(s: State, p: Package)
    requires OneTimer(s)
    ensures OneTimer(ClearRetryTimer(s, p))
  {}

  lemma ScheduleKeepsTimers(s: State, p: Package)
    requires OneTimer(s)
    ensures OneTimer(ScheduleRetry(s, p))
  {}

  /** The state once the outcome of a fetch is recorded, before timers are looked at. */
  function Recorded(s: State, id: LoopId, ok: bool): State
    requires id < |s.loops| && s.loops[id].phase.Fetching?
  {
    var loop := s.loops[id];
    var fetch := loop.phase.fetch;
    s.(loops := s.loops[id := loop.(phase := Ended(fetch, ok))],
       finished := s.finished + [Finish(loop.package, fetch, ok)],
       snapshot := if ok then s.snapshot[loop.package := fetch] else s.snapshot)
  }

  lemma LastOfLonger(finished: seq<Finish>, f: Finish, p: Package)
    ensures LastFinish(finished + [f], p) == if f.package == p then Some(f) else LastFinish(finished, p)
    ensures LastSuccess(finished + [f], p) == if f.package == p && f.ok then Some(f.fetch) else LastSuccess(finished, p)
  {
    assert (finished + [f])[..|finished|] == finished;
  }

  lemma RecordedKeepsSnapshot(s: State, id: LoopId, ok: bool)
    requires id < |s.loops| && s.loops[id].phase.Fetching? && SnapshotCurrent(s) && !s.destroyDone
    ensures SnapshotCurrent(Recorded(s, id, ok))
  {
    hide LastSuccess, LastFinish;
    forall p ensures LastSuccess(Recorded(s, id, ok).finished, p) ==
      if s.loops[id].package == p && ok then Some(s.loops[id].phase.fetch) else LastSuccess(s.finished, p)
    {
      LastOfLonger(s.finished, Finish(s.loops[id].package, s.loops[id].phase.fetch, ok), p);
    }
  }

  lemma EndFetchKeepsRetried(s: State, id: LoopId, ok: bool)
    requires SingleFlight(s) && Retried(s) && Enabled(s, FetchEnds(id, ok))
    ensures Retried(Next(s, FetchEnds(id, ok)))
  {
    hide LastSuccess, LastFinish, SingleFlight;
    var t := Next(s, FetchEnds(id, ok));
    if !s.isDestroyed {
      forall p | LastFailed(t, p)
        ensures p in t.timers || FetchPending(t, p)
      {
        LastOfLonger(s.finished, Finish(s.loops[id].package, s.loops[id].phase.fetch, ok), p);
        if p != s.loops[id].package && p !in s.timers {
          assert LastFailed(s, p) && FetchPending(s, p);
          PackageOf(s, p);
        }
      }
      forall p | p in t.timers
        ensures LastFailed(t, p)
      {
        LastOfLonger(s.finished, Finish(s.loops[id].package, s.loops[id].phase.fetch, ok), p);
      }
    }
  }

  lemma PackageOf(s: State, p: Package)
    requires SingleFlight(s) && p in s.states
    ensures s.states[p] < |s.loops| && s.loops[s.states[p]].package == p
  {}

  lemma EndFetchKeepsTimers(s: State, id: LoopId, ok: bool)
    requires OneTimer(s) && Enabled(s, FetchEnds(id, ok))
    ensures OneTimer(Next(s, FetchEnds(id, ok)))
  {
    hide OneTimer, LastFinish, LastSuccess;
    var package, applied := s.loops[id].package, ok && !s.isDestroyed;
    var r := Recorded(s, id, applied);
    TimersIgnoreLoops(s, r);
    if applied { ClearKeepsTimers(r, package); } else { ScheduleKeepsTimers(r, package); }
    TimersIgnoreLoops(if applied then ClearRetryTimer(r, package) else ScheduleRetry(r, package), Next(s, FetchEnds(id, ok)));
  }

  lemma EndFetchKeepsLoops(s: State, id: LoopId, ok: bool)
    requires SingleFlight(s) && Fresh(s) && Enabled(s, FetchEnds(id, ok))
    ensures SingleFlight(Next(s, FetchEnds(id, ok))) && Fresh(Next(s, FetchEnds(id, ok)))
  {
    hide SingleFlight, Fresh;
    var t := Next(s, FetchEnds(id, ok));
    var changed := t.loops[id];
    LoopChangeKeepsFlight(s, id, changed);
    FlightOfLoops(s.(loops := s.loops[id := changed]), t);
    KeptByEnding(s, id, changed);
    LoopChangeKeepsPromises(s, id, changed);
    PromisesOfLoops(s.(loops := s.loops[id := changed], clock := s.clock + 1), t);
  }

  lemma EndFetchKeepsInv(s: State, id: LoopId, ok: bool)
    requires Inv(s) && Enabled(s, FetchEnds(id, ok))
    ensures Inv(Next(s, FetchEnds(id, ok)))
  {
    hide SingleFlight, Fresh, Asked, LastFinish, LastSuccess, FetchPending, OneTimer, Retried, SnapshotCurrent;
    var t := Next(s, FetchEnds(id, ok));
    StillRunning(s, id);
    AskedOf(s, t, id);
    EndFetchKeepsLoops(s, id, ok);
    RecordedKeepsSnapshot(s, id, ok && !s.isDestroyed);
    SnapshotOf(Recorded(s, id, ok && !s.isDestroyed), t);
    EndFetchKeepsTimers(s, id, ok);
    EndFetchKeepsRetried(s, id, ok);
  }

  /** A loop that still runs keeps its map entry, so destroy is not done. */
  lemma StillRunning(s: State, id: LoopId)
    requires SingleFlight(s) && id < |s.loops| && !s.loops[id].phase.Gone?
    ensures s.states != map[]
  {
    assert s.loops[id].package in s.states;
  }

  lemma KeptByEnding(s: State, id: LoopId, changed: Loop)
    requires Fresh(s) && id < |s.loops| && s.loops[id].phase.Fetching?
    requires changed == s.loops[id].(phase := changed.phase) && changed.phase.Ended? && changed.phase.fetch == s.loops[id].phase.fetch
    ensures KeepsClaims(s, s.loops[id], changed)
  {}

  lemma FlightOfLoops(s: State, t: State)
    requires SingleFlight(s) && t.loops == s.loops && t.states == s.states
    ensures SingleFlight(t)
  {}

  lemma PromisesOfLoops(s: State, t: State)
    requires Fresh(s) && t.loops == s.loops && t.callers == s.callers && t.clock == s.clock && t.isDestroyed == s.isDestroyed
    ensures Fresh(t)
  {
    forall i | 0 <= i < |t.callers|
      ensures CallerPromise(t, t.callers[i])
    {
      assert CallerPromise(s, s.callers[i]);
    }
  }

  lemma SnapshotOf(s: State, t: State)
    requires SnapshotCurrent(s) && t.snapshot == s.snapshot && t.finished == s.finished && t.destroyDone == s.destroyDone
    ensures SnapshotCurrent(t)
  {}

  // ---- the check and the removal

  lemma CheckKeepsInv(s: State, id: LoopId)
    requires Inv(s) && Enabled(s, Check(id))
    ensures Inv(Next(s, Check(id)))
  {
    hide SingleFlight, Fresh, Asked, LastFinish, LastSuccess, FetchPending, OneTimer, Retried, SnapshotCurrent;
    var t := Next(s, Check(id));
    var changed := t.loops[id];
    StillRunning(s, id);
    AskedOf(s, t, id);
    LoopChangeKeepsFlight(s, id, changed);
    FlightOfLoops(s.(loops := s.loops[id := changed]), t);
    KeptByChecking(s, id);
    LoopChangeKeepsPromises(s, id, changed);
    PromisesOfLoops(s.(loops := s.loops[id := changed], clock := s.clock + 1), t);
    SnapshotOf(s, t);
    TimersIgnoreLoops(s, t);
    OtherLoopKeepsRetried(s, t, id);
  }

  lemma KeptByChecking(s: State, id: LoopId)
    requires Fresh(s) && id < |s.loops| && s.loops[id].phase.Ended?
    ensures KeepsClaims(s, s.loops[id], NextRound(s, id).loops[id])
  {}

  /** A loop that is not fetching can change without taking a pending fetch away. */
  lemma OtherLoopKeepsRetried(s: State, t: State, id: LoopId)
    requires SingleFlight(s) && Retried(s) && t.timers == s.timers && t.finished == s.finished && t.isDestroyed == s.isDestroyed
    requires id < |s.loops| && !s.loops[id].phase.Fetching? && |t.loops| == |s.loops|
    requires forall i :: 0 <= i < |s.loops| && i != id ==> t.loops[i] == s.loops[i]
    requires forall p :: p in s.states && s.states[p] != id ==> p in t.states && t.states[p] == s.states[p]
    ensures Retried(t)
  {
    hide LastFinish;
  }

  lemma RemoveKeepsInv(s: State, id: LoopId)
    requires Inv(s) && Enabled(s, Remove(id))
    ensures Inv(Next(s, Remove(id)))
  {
    hide SingleFlight, Fresh, Asked, LastFinish, LastSuccess, FetchPending, OneTimer, Retried, SnapshotCurrent;
    var t := Next(s, Remove(id));
    StillRunning(s, id);
    AskedOf(s, t, id);
    RemoveKeepsFlight(s, id);
    RemoveKeepsPromises(s, id);
    SnapshotOf(s, t);
    TimersIgnoreLoops(s, t);
    OtherLoopKeepsRetried(s, t, id);
  }

  lemma RemoveKeepsFlight(s: State, id: LoopId)
    requires SingleFlight(s) && Enabled(s, Remove(id))
    ensures SingleFlight(Next(s, Remove(id)))
  {}

  lemma RemoveKeepsPromises(s: State, id: LoopId)
    requires Fresh(s) && Enabled(s, Remove(id))
    ensures Fresh(Next(s, Remove(id)))
  {
    var t := Next(s, Remove(id));
    forall i | 0 <= i < |t.callers|
      ensures CallerPromise(t, t.callers[i])
    {
      assert CallerPromise(s, s.callers[i]);
    }
  }

  // ---- a retry timer fires

  lemma FireKeepsInv(s: State, timer: TimerId)
    requires Inv(s) && Enabled(s, RetryFires(timer))
    ensures Inv(Next(s, RetryFires(timer)))
  {
    hide SingleFlight, Fresh, Asked, LastFinish, LastSuccess, FetchPending, OneTimer, SnapshotCurrent;
    var p := s.armed[timer];
    var u := s.(armed := s.armed - {timer}, timers := s.timers - {p});
    FiredKeepsTimers(s, timer);
    FlightOfLoops(s, u);
    PromisesOfLoops(s, u);
    JoinKeepsFlight(u, p);
    JoinKeepsPromises(u, p);
    AskedOf(s, u, |s.loops|);
    JoinKeepsAsked(u, p);
    JoinKeepsPending(u, p);
    var v := Join(u, p);
    var t := v.(clock := s.clock + 1);
    FlightIgnoresClock(v, s.clock + 1);
    TimersIgnoreLoops(u, t);
    SnapshotOf(s, t);
    PendingOfLoops(s, u);
    PendingIgnoresClock(v, s.clock + 1);
    assert FetchPending(t, p);
    assert forall q :: FetchPending(s, q) ==> FetchPending(t, q);
    assert forall q :: q in s.timers && q != p ==> q in t.timers;
  }

  lemma PendingOfLoops(s: State, t: State)
    requires t.loops == s.loops && t.states == s.states
    ensures forall q :: FetchPending(s, q) ==> FetchPending(t, q)
    ensures Quiescent(s) ==> Quiescent(t)
  {}

  lemma FiredKeepsTimers(s: State, timer: TimerId)
    requires OneTimer(s) && timer in s.armed
    ensures OneTimer(s.(armed := s.armed - {timer}, timers := s.timers - {s.armed[timer]}))
    ensures !s.isDestroyed
  {}

  lemma StepKeepsInv(s: State, a: Action)
    requires Inv(s) && Enabled(s, a)
    ensures Inv(Next(s, a))
  {
    match a
    case Call(p) => if !s.isDestroyed { JoinKeepsInv(s, p); } else { QuietKeepsInv(s, s.(clock := s.clock + 1)); }
    case FetchEnds(id, ok) => EndFetchKeepsInv(s, id, ok);
    case Check(id) => CheckKeepsInv(s, id);
    case Remove(id) => RemoveKeepsInv(s, id);
    case RetryFires(timer) => FireKeepsInv(s, timer);
    case Destroy => QuietKeepsInv(s, Next(s, a));
    case DestroyEnds => QuietKeepsInv(s, Next(s, a));
  }

  /** Steps that leave loops, calls and finished fetches alone. */
  lemma QuietKeepsInv(s: State, t: State)
    requires Inv(s) && t.loops == s.loops && t.states == s.states && t.callers == s.callers && t.finished == s.finished
    requires t.clock == s.clock + 1 && (s.isDestroyed ==> t.isDestroyed) && OneTimer(t)
    requires !t.isDestroyed ==> t.timers == s.timers
    requires s.destroyDone ==> t.destroyDone
    requires if t.destroyDone then t.snapshot == map[] && t.isDestroyed && t.states == map[] else t.snapshot == s.snapshot
    ensures Inv(t)
  {
    hide LastFinish, LastSuccess, OneTimer;
    TickKeepsPromises(s, t);
    FlightOfLoops(s, t);
    AskedOf(s, t, |s.loops|);
  }

  // ---- runs

  ghost predicate Run(states: seq<State>, actions: seq<Action>) {
    && |states| == |actions| + 1
    && states[0] == EMPTY
    && forall i :: 0 <= i < |actions| ==> Enabled(states[i], actions[i]) && states[i + 1] == Next(states[i], actions[i])
  }

  lemma {:induction false} RunsKeepInv(states: seq<State>, actions: seq<Action>, k: nat)
    requires Run(states, actions) && k < |states|
    ensures Inv(states[k])
  {
    if k > 0 {
      RunsKeepInv(states, actions, k - 1);
      StepKeepsInv(states[k - 1], actions[k - 1]);
    }
  }

  /** At most one fetch of a package is in flight, whatever is called when. */
  lemma AtMostOneFetchPerPackage(states: seq<State>, actions: seq<Action>, k: nat, i: LoopId, j: LoopId)
    requires Run(states, actions) && k < |states| && i < |states[k].loops| && j < |states[k].loops|
    requires !states[k].loops[i].phase.Gone? && !states[k].loops[j].phase.Gone?
    requires states[k].loops[i].package == states[k].loops[j].package
    ensures i == j
  {
    RunsKeepInv(states, actions, k);
  }

  /**
   While the registry lives, a caller has got the outcome of a fetch that started
   no earlier than its call exactly when it did not join a loop that was leaving.
   */
  lemma AnswersAreFreshUnlessJoinedTooLate(states: seq<State>, actions: seq<Action>, k: nat, i: nat)
    requires Run(states, actions) && k < |states| && !states[k].isDestroyed
    requires i < |states[k].callers| && states[k].callers[i].settled.Some?
    ensures states[k].callers[i].settled.value.0 >= states[k].callers[i].calledAt <==> !states[k].callers[i].joinedLeaving
  {
    RunsKeepInv(states, actions, k);
    assert CallerPromise(states[k], states[k].callers[i]);
  }

  // ---- what the catalog queries answered

  /** The queries that ended among the first k steps, as the server answered them; after destroy every answer is a failure. */
  function Answers(states: seq<State>, actions: seq<Action>, k: nat): seq<Finish>
    requires k <= |actions| < |states|
  {
    if k == 0 then []
    else
      var earlier, s := Answers(states, actions, k - 1), states[k - 1];
      match actions[k - 1]
      case FetchEnds(id, ok) =>
        if id < |s.loops| && s.loops[id].phase.Fetching?
        then earlier + [Finish(s.loops[id].package, s.loops[id].phase.fetch, ok && Destroy !in actions[..k - 1])]
        else earlier
      case _ => earlier
  }

  lemma {:induction false} DestroyedSinceDestroy(states: seq<State>, actions: seq<Action>, k: nat)
    requires Run(states, actions) && k <= |actions|
    ensures states[k].isDestroyed <==> Destroy in actions[..k]
  {
    if k > 0 {
      DestroyedSinceDestroy(states, actions, k - 1);
      assert actions[..k] == actions[..k - 1] + [actions[k - 1]];
      DestroyedStep(states[k - 1], actions[k - 1]);
    }
  }

  lemma DestroyedStep(s: State, a: Action)
    requires Enabled(s, a)
    ensures Next(s, a).isDestroyed <==> s.isDestroyed || a == Destroy
    ensures Next(s, a).clock == s.clock + 1
  {}

  /** What the registry has recorded is what the queries answered. */
  lemma {:induction false} RecordedIsAnswered(states: seq<State>, actions: seq<Action>, k: nat)
    requires Run(states, actions) && k <= |actions|
    ensures states[k].finished == Answers(states, actions, k)
  {
    if k > 0 {
      RecordedIsAnswered(states, actions, k - 1);
      DestroyedSinceDestroy(states, actions, k - 1);
      RecordedStep(states[k - 1], actions[k - 1]);
    }
  }

  lemma RecordedStep(s: State, a: Action)
    requires Enabled(s, a)
    ensures Next(s, a).finished == s.finished + match a
                                                case FetchEnds(id, ok) => [Finish(s.loops[id].package, s.loops[id].phase.fetch, ok && !s.isDestroyed)]
                                                case _ => []
  {}

  /**
   A query that succeeds in a registry that is not destroyed is shown at once
   and needs no retry; one that fails changes no snapshot and leaves a timer.
   Neither concerns another package.
   */
  lemma AnswerTakesEffect(states: seq<State>, actions: seq<Action>, k: nat, id: LoopId, ok: bool)
    requires Run(states, actions) && k < |actions| && actions[k] == FetchEnds(id, ok) && Destroy !in actions[..k]
    ensures var s, t := states[k], states[k + 1];
            var p := s.loops[id].package;
            && (ok ==> t.snapshot == s.snapshot[p := s.loops[id].phase.fetch] && p !in t.timers)
            && (!ok ==> t.snapshot == s.snapshot && p in t.timers && t.timers[p] in t.armed && t.armed[t.timers[p]] == p)
            && (forall q :: q != p ==> (q in t.timers <==> q in s.timers) && (q in s.timers ==> t.timers[q] == s.timers[q]))
  {
    RunsKeepInv(states, actions, k);
    DestroyedSinceDestroy(states, actions, k);
  }

  /** While the registry lives, a package whose last query failed has a retry timer or a fetch pending; any other has no timer. */
  lemma FailuresAreRetried(states: seq<State>, actions: seq<Action>, k: nat, p: Package)
    requires Run(states, actions) && k <= |actions| && Destroy !in actions[..k]
    ensures var last := LastFinish(Answers(states, actions, k), p);
            && (last.Some? && !last.value.ok ==> p in states[k].timers || FetchPending(states[k], p))
            && (p in states[k].timers ==> last.Some? && !last.value.ok)
  {
    RunsKeepInv(states, actions, k);
    RecordedIsAnswered(states, actions, k);
    DestroyedSinceDestroy(states, actions, k);
  }

  /** A loop fetches again only when somebody has called since its fetch started. */
  lemma EveryRoundWasAskedFor(states: seq<State>, actions: seq<Action>, k: nat, id: LoopId)
    requires Run(states, actions) && k < |actions| && actions[k] == Check(id) && states[k + 1].loops[id].phase.Fetching?
    ensures exists i :: 0 <= i < |states[k].callers| && states[k].callers[i].loop == id
                        && states[k].callers[i].calledAt > FetchOf(states[k].loops[id].phase)
  {
    RunsKeepInv(states, actions, k);
    assert Asked(states[k]);
  }

  /** No two timers of one package can fire, and none after destroy. */
  lemma OneRetryTimerPerPackage(states: seq<State>, actions: seq<Action>, k: nat, t: TimerId, u: TimerId)
    requires Run(states, actions) && k < |states| && t in states[k].armed && u in states[k].armed
    ensures !states[k].isDestroyed
    ensures states[k].armed[t] == states[k].armed[u] ==> t == u
  {
    RunsKeepInv(states, actions, k);
  }

  /** Until destroy completes, every package shows its last query that succeeded, whatever other packages were fetched meanwhile. */
  lemma SnapshotsAreNotLost(states: seq<State>, actions: seq<Action>, k: nat, p: Package)
    requires Run(states, actions) && k <= |actions|
    ensures var last := LastSuccess(Answers(states, actions, k), p);
            !states[k].destroyDone ==> (p in states[k].snapshot <==> last.Some?) && (p in states[k].snapshot ==> states[k].snapshot[p] == last.value)
    ensures states[k].destroyDone ==> states[k].snapshot == map[]
  {
    RunsKeepInv(states, actions, k);
    RecordedIsAnswered(states, actions, k);
  }

  // ---- what callers get

  /** Fetch f of loop `id` ended among the first k steps, and this is how. */
  ghost predicate EndedAs(states: seq<State>, actions: seq<Action>, k: nat, id: LoopId, fetch: FetchId, ok: bool)
    requires k <= |actions| < |states|
  {
    exists i, answer :: 0 <= i < k && EndedAt(states, actions, i, id, fetch, answer) && ok == (answer && Destroy !in actions[..i])
  }

  ghost predicate EndedAt(states: seq<State>, actions: seq<Action>, i: nat, id: LoopId, fetch: FetchId, answer: bool)
    requires i < |actions| < |states|
  {
    actions[i] == FetchEnds(id, answer) && id < |states[i].loops| && states[i].loops[id].phase == Fetching(fetch)
  }

  /** The outcome that a loop holds, or a caller has got, is how its fetch ended. */
  ghost predicate Honest(states: seq<State>, actions: seq<Action>, k: nat)
    requires k <= |actions| < |states|
  {
    && (forall id :: 0 <= id < |states[k].loops| ==> HonestLoop(states, actions, k, id))
    && (forall i :: 0 <= i < |states[k].callers| ==> HonestCaller(states, actions, k, i))
  }

  ghost predicate HonestLoop(states: seq<State>, actions: seq<Action>, k: nat, id: LoopId)
    requires k <= |actions| < |states| && id < |states[k].loops|
  {
    var phase := states[k].loops[id].phase;
    (phase.Ended? || phase.Leaving?) ==> EndedAs(states, actions, k, id, phase.fetch, phase.ok)
  }

  ghost predicate HonestCaller(states: seq<State>, actions: seq<Action>, k: nat, i: nat)
    requires k <= |actions| < |states| && i < |states[k].callers|
  {
    var c := states[k].callers[i];
    c.settled.Some? ==> EndedAs(states, actions, k, c.loop, c.settled.value.0, c.settled.value.1)
  }

  lemma EndedAsStays(states: seq<State>, actions: seq<Action>, k: nat, id: LoopId, fetch: FetchId, ok: bool)
    requires k < |actions| < |states| && EndedAs(states, actions, k, id, fetch, ok)
    ensures EndedAs(states, actions, k + 1, id, fetch, ok)
  {
    var i, answer :| 0 <= i < k && EndedAt(states, actions, i, id, fetch, answer) && ok == (answer && Destroy !in actions[..i]);
    assert EndedAt(states, actions, i, id, fetch, answer);
  }

  lemma {:induction false} OutcomesAreHonest(states: seq<State>, actions: seq<Action>, k: nat)
    requires Run(states, actions) && k <= |actions|
    ensures Honest(states, actions, k)
  {
    hide Next, Enabled, EndedAs;
    if k > 0 {
      OutcomesAreHonest(states, actions, k - 1);
      forall id | 0 <= id < |states[k].loops| ensures HonestLoop(states, actions, k, id) { LoopStaysHonest(states, actions, k - 1, id); }
      forall i | 0 <= i < |states[k].callers| ensures HonestCaller(states, actions, k, i) { CallerStaysHonest(states, actions, k - 1, i); }
    }
  }

  /** What one step does to the loops. */
  ghost predicate LoopsMove(s: State, a: Action, id: LoopId, t: State)
    requires Enabled(s, a)
  {
    if id >= |s.loops| then id < |t.loops| ==> t.loops[id].phase == Fetching(s.clock)
    else
      && id < |t.loops| && t.loops[id].package == s.loops[id].package
      && var was, phase := s.loops[id].phase, t.loops[id].phase;
         match a
         case FetchEnds(l, ok) => phase == if l == id then Ended(was.fetch, ok && !s.isDestroyed) else was
         case Check(l) => if l == id then phase == Fetching(s.clock) || phase == Leaving(was.fetch, was.ok) else phase == was
         case Remove(l) => phase == if l == id then Gone else was
         case _ => phase == was
  }

  lemma LoopsStep(s: State, a: Action, id: LoopId)
    requires Enabled(s, a)
    ensures LoopsMove(s, a, id, Next(s, a))
  {
    hide Join, Quiescent;
    match a
    case Call(p) => JoinLoops(s, p, id);
    case RetryFires(t) => JoinLoops(s.(armed := s.armed - {t}, timers := s.timers - {s.armed[t]}), s.armed[t], id);
    case _ =>
  }

  lemma JoinLoops(s: State, p: Package, id: LoopId)
    ensures var t := Join(s, p);
            if id < |s.loops| then id < |t.loops| && t.loops[id].phase == s.loops[id].phase && t.loops[id].package == s.loops[id].package
            else id < |t.loops| ==> t.loops[id].phase == Fetching(s.clock)
  {}

  /** A loop gets an outcome from the end of its fetch, and keeps it until it fetches again. */
  lemma OutcomeStep(s: State, a: Action, id: LoopId)
    requires Enabled(s, a) && id < |Next(s, a).loops|
    ensures var phase := Next(s, a).loops[id].phase;
            (phase.Ended? || phase.Leaving?) ==>
              && id < |s.loops|
              && ((a.FetchEnds? && a.loop == id && s.loops[id].phase == Fetching(phase.fetch) && phase.ok == (a.ok && !s.isDestroyed))
                  || ((s.loops[id].phase.Ended? || s.loops[id].phase.Leaving?)
                      && s.loops[id].phase.fetch == phase.fetch && s.loops[id].phase.ok == phase.ok))
  {
    hide Next;
    LoopsStep(s, a, id);
  }

  lemma LoopStaysHonest(states: seq<State>, actions: seq<Action>, k: nat, id: LoopId)
    requires Run(states, actions) && k < |actions| && Honest(states, actions, k) && id < |states[k + 1].loops|
    ensures HonestLoop(states, actions, k + 1, id)
  {
    hide Next, Enabled;
    var s, a, phase := states[k], actions[k], states[k + 1].loops[id].phase;
    if phase.Ended? || phase.Leaving? {
      OutcomeStep(s, a, id);
      DestroyedSinceDestroy(states, actions, k);
      if a.FetchEnds? && a.loop == id && s.loops[id].phase == Fetching(phase.fetch) {
        assert EndedAt(states, actions, k, id, phase.fetch, a.ok);
      } else {
        assert HonestLoop(states, actions, k, id);
        EndedAsStays(states, actions, k, id, phase.fetch, phase.ok);
      }
    }
  }

  /** A caller is settled by the removal of its loop, with the outcome that the loop holds. */
  lemma SettlingStep(s: State, a: Action, i: nat)
    requires Enabled(s, a) && i < |Next(s, a).callers|
    ensures i >= |s.callers| ==> Next(s, a).callers[i].settled.None?
    ensures i < |s.callers| ==>
              var c := s.callers[i];
              Next(s, a).callers[i] ==
                if a.Remove? && c.loop == a.loop && c.settled.None?
                then c.(settled := Some((s.loops[a.loop].phase.fetch, s.loops[a.loop].phase.ok))) else c
  {}

  lemma CallerStaysHonest(states: seq<State>, actions: seq<Action>, k: nat, i: nat)
    requires Run(states, actions) && k < |actions| && Honest(states, actions, k) && i < |states[k + 1].callers|
    ensures HonestCaller(states, actions, k + 1, i)
  {
    hide Next, EndedAs;
    var s, a, c := states[k], actions[k], states[k + 1].callers[i];
    SettlingStep(s, a, i);
    if c.settled.Some? {
      if s.callers[i].settled.Some? { assert HonestCaller(states, actions, k, i); }
      else { assert HonestLoop(states, actions, k, c.loop); }
      EndedAsStays(states, actions, k, c.loop, c.settled.value.0, c.settled.value.1);
    }
  }

  /** A caller that is settled has got what the query of that fetch answered; in a destroyed registry, a failure. */
  lemma CallersGetTheAnswer(states: seq<State>, actions: seq<Action>, k: nat, i: nat)
    requires Run(states, actions) && k <= |actions| && i < |states[k].callers| && states[k].callers[i].settled.Some?
    ensures var c := states[k].callers[i]; EndedAs(states, actions, k, c.loop, c.settled.value.0, c.settled.value.1)
  {
    OutcomesAreHonest(states, actions, k);
    assert HonestCaller(states, actions, k, i);
  }

  /** A call is refused by a destroyed registry; otherwise it waits for a loop of its package. */
  lemma CallsWait(states: seq<State>, actions: seq<Action>, k: nat, p: Package)
    requires Run(states, actions) && k < |actions| && actions[k] == Call(p)
    ensures var s, t := states[k], states[k + 1];
            if Destroy in actions[..k] then t.callers == s.callers && t.loops == s.loops
            else
              && |t.callers| == |s.callers| + 1 && t.callers[..|s.callers|] == s.callers
              && var c := t.callers[|s.callers|];
                 c.calledAt == k && c.settled.None? && c.loop < |t.loops| && t.loops[c.loop].package == p && !t.loops[c.loop].phase.Gone?
  {
    hide OneTimer, Retried, Asked, SnapshotCurrent, Fresh;
    RunsKeepInv(states, actions, k);
    DestroyedSinceDestroy(states, actions, k);
    ClockCounts(states, actions, k);
  }

  lemma {:induction false} ClockCounts(states: seq<State>, actions: seq<Action>, k: nat)
    requires Run(states, actions) && k <= |actions|
    ensures states[k].clock == k
  {
    if k > 0 {
      ClockCounts(states, actions, k - 1);
      DestroyedStep(states[k - 1], actions[k - 1]);
    }
  }

  /** A caller waits exactly as long as its loop is there. */
  lemma {:induction false} CallersWaitForTheirLoop(states: seq<State>, actions: seq<Action>, k: nat, i: nat)
    requires Run(states, actions) && k <= |actions| && i < |states[k].callers|
    ensures states[k].callers[i].loop < |states[k].loops|
    ensures states[k].callers[i].settled.None? <==> !states[k].loops[states[k].callers[i].loop].phase.Gone?
  {
    RunsKeepInv(states, actions, k);
    assert CallerPromise(states[k], states[k].callers[i]);
    if k > 0 {
      hide Inv;
      var s, a := states[k - 1], actions[k - 1];
      if i < |s.callers| { CallersWaitForTheirLoop(states, actions, k - 1, i); }
      SettlingStep(s, a, i);
      if i < |s.callers| { WaitingStep(s, a, s.callers[i].loop); }
    }
  }

  lemma WaitingStep(s: State, a: Action, id: LoopId)
    requires Enabled(s, a) && id < |s.loops|
    ensures id < |Next(s, a).loops| && (Next(s, a).loops[id].phase.Gone? <==> s.loops[id].phase.Gone? || a == Remove(id))
  {
    hide Next;
    LoopsStep(s, a, id);
  }

  /** The number of a fetch is the step that started it. */
  lemma {:induction false} FetchesStartAtTheirNumber(states: seq<State>, actions: seq<Action>, k: nat, id: LoopId)
    requires Run(states, actions) && k <= |actions| && id < |states[k].loops| && !states[k].loops[id].phase.Gone?
    ensures var f := FetchOf(states[k].loops[id].phase);
            && f < k && id < |states[f + 1].loops| && states[f + 1].loops[id].phase == Fetching(f)
            && (id < |states[f].loops| ==> !states[f].loops[id].phase.Fetching?)
  {
    hide Next;
    var s, a := states[k - 1], actions[k - 1];
    ClockCounts(states, actions, k - 1);
    FetchStep(s, a, id);
    if id < |s.loops| && !s.loops[id].phase.Gone? && FetchOf(states[k].loops[id].phase) == FetchOf(s.loops[id].phase) {
      FetchesStartAtTheirNumber(states, actions, k - 1, id);
    }
  }

  lemma FetchStep(s: State, a: Action, id: LoopId)
    requires Enabled(s, a) && id < |Next(s, a).loops| && !Next(s, a).loops[id].phase.Gone?
    ensures var phase := Next(s, a).loops[id].phase;
            || (id < |s.loops| && !s.loops[id].phase.Gone? && FetchOf(phase) == FetchOf(s.loops[id].phase))
            || (phase == Fetching(s.clock) && (id < |s.loops| ==> !s.loops[id].phase.Fetching?))
  {
    hide Next;
    LoopsStep(s, a, id);
  }

  /** Six states in which a call lands between the last check and the removal of the entry. */
  function LateJoin(p: Package, phase: Phase, rerun: bool, step: nat, second: Option<Caller>): State {
    State(step, false, false, [Loop(p, phase, rerun)], if phase.Gone? then map[] else map[p := 0], map[], map[], 0,
          if phase.Fetching? then map[] else map[p := 0],
          [Caller(0, 0, false, if phase.Gone? then Some((0, true)) else None)] + if second.Some? then [second.value] else [],
          if phase.Fetching? then [] else [Finish(p, 0, true)])
  }

  lemma LateJoinStarts(p: Package)
    ensures Next(EMPTY, Call(p)) == LateJoin(p, Fetching(0), false, 1, None)
    ensures Next(LateJoin(p, Fetching(0), false, 1, None), FetchEnds(0, true)) == LateJoin(p, Ended(0, true), false, 2, None)
    ensures Next(LateJoin(p, Ended(0, true), false, 2, None), Check(0)) == LateJoin(p, Leaving(0, true), false, 3, None)
  {}

  lemma LateJoinEnds(p: Package)
    ensures Next(LateJoin(p, Leaving(0, true), false, 3, None), Call(p)) ==
            LateJoin(p, Leaving(0, true), true, 4, Some(Caller(0, 3, true, None)))
    ensures Next(LateJoin(p, Leaving(0, true), true, 4, Some(Caller(0, 3, true, None))), Remove(0)) ==
            LateJoin(p, Gone, true, 5, Some(Caller(0, 3, true, Some((0, true)))))
  {}

  /** Such a call gets the outcome of a fetch that started before it. */
  lemma LateJoinerGetsAnOlderAnswer(p: Package) returns (states: seq<State>, actions: seq<Action>)
    ensures Run(states, actions) && !states[|actions|].isDestroyed
    ensures var c := Caller(0, 3, true, Some((0, true))); c in states[|actions|].callers && c.settled.value.0 < c.calledAt
  {
    hide Next, LateJoin;
    var late := Some(Caller(0, 3, true, None));
    var settled := Caller(0, 3, true, Some((0, true)));
    actions := [Call(p), FetchEnds(0, true), Check(0), Call(p), Remove(0)];
    states := [EMPTY,
               LateJoin(p, Fetching(0), false, 1, None),
               LateJoin(p, Ended(0, true), false, 2, None),
               LateJoin(p, Leaving(0, true), false, 3, None),
               LateJoin(p, Leaving(0, true), true, 4, late),
               LateJoin(p, Gone, true, 5, Some(settled))];
    LateJoinStarts(p);
    LateJoinEnds(p);
    LateJoinLoops(p);
  }

  lemma LateJoinLoops(p: Package)
    ensures forall phase, rerun, step, second ::
              var s := LateJoin(p, phase, rerun, step, second);
              s.loops == [Loop(p, phase, rerun)] && !s.isDestroyed && (second.Some? ==> second.value in s.callers)
  {}
}
