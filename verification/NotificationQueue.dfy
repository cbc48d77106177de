/**
 The callback queues of the notifiers (`enqueueNotificationPayload`,
 `enqueueSubscriptionMessage`), built as promise chains: each accepted event is
 a job chained to the queue's tail. Reactions of one promise run in the order
 they were registered, so a job's own cleanup comes before the next job starts.
 */
module NotificationQueue {
  import opened Options

  type Channel = string
  type Connection = nat
  type QueueId = nat
  type JobId = nat

  datatype Phase =
    | Waiting
    | Running      // the handler was called and has not settled
    | Settled
    | Released     // the cleanup took the job off the queue's size

  datatype Job = Job(queue: QueueId, channel: Channel, connection: Connection, after: Option<JobId>, phase: Phase)

  datatype Queue = Queue(size: int, tail: Option<JobId>)

  /** `invoked` lists the jobs whose handler was called, in order. */
  datatype State = State(
    limit: nat,
    pool: map<Channel, Connection>,
    closing: set<Channel>,
    queues: map<Channel, QueueId>,
    store: seq<Queue>,
    jobs: seq<Job>,
    invoked: seq<JobId>)

  datatype Action =
    | Event(channel: Channel, connection: Connection)
    | Start(job: JobId)
    | Settle(job: JobId)
    | Release(job: JobId)
    | BeginClose(channel: Channel)
    | CompleteClose(channel: Channel)
    | Pool(channel: Channel, connection: Connection)
    | Unpool(channel: Channel)

  predicate PhaseIs(s: State, j: JobId, phase: Phase) {
    j < |s.jobs| && s.jobs[j].phase == phase
  }

  predicate Enabled(s: State, a: Action) {
    match a
    case Start(j) => PhaseIs(s, j, Waiting) && (s.jobs[j].after.Some? ==> PhaseIs(s, s.jobs[j].after.value, Released))
    case Settle(j) => PhaseIs(s, j, Running)
    case Release(j) => PhaseIs(s, j, Settled) && s.jobs[j].queue < |s.store|
    case _ => true
  }

  /** The queue object an event of a channel goes to, created if there is none. */
  function QueueFor(s: State, ch: Channel): QueueId {
    if ch in s.queues then s.queues[ch] else |s.store|
  }

  predicate Accepts(s: State, ch: Channel) {
    ch !in s.closing && (if QueueFor(s, ch) < |s.store| then s.store[QueueFor(s, ch)].size else 0) < s.limit
  }

  function Enqueue(s: State, ch: Channel, connection: Connection): State {
    if !Accepts(s, ch) then s
    else
      var q := QueueFor(s, ch);
      var id := |s.jobs|;
      if q < |s.store| then
        s.(queues := s.queues[ch := q],
           store := s.store[q := Queue(s.store[q].size + 1, Some(id))],
           jobs := s.jobs + [Job(q, ch, connection, s.store[q].tail, Waiting)])
      else
        s.(queues := s.queues[ch := |s.store|],
           store := s.store + [Queue(1, Some(id))],
           jobs := s.jobs + [Job(|s.store|, ch, connection, None, Waiting)])
  }

  /** An event of a connection that is no longer pooled is skipped. */
  predicate Reaches(s: State, j: JobId)
    requires j < |s.jobs|
  {
    s.jobs[j].channel in s.pool && s.pool[s.jobs[j].channel] == s.jobs[j].connection
  }

  function SetPhase(s: State, j: JobId, phase: Phase): State
    requires j < |s.jobs|
  {
    s.(jobs := s.jobs[j := s.jobs[j].(phase := phase)])
  }

  function Cleanup(s: State, j: JobId): State
    requires j < |s.jobs| && s.jobs[j].queue < |s.store|
  {
    var q := s.jobs[j].queue;
    var queue := s.store[q].(size := s.store[q].size - 1);
    SetPhase(s, j, Released)
      .(store := s.store[q := queue],
        queues := if queue.size == 0 && queue.tail == Some(j) then s.queues - {s.jobs[j].channel} else s.queues)
  }

  function Next(s: State, a: Action): State
    requires Enabled(s, a)
  {
    match a
    case Event(ch, connection) => Enqueue(s, ch, connection)
    case Start(j) =>
      if Reaches(s, j) then SetPhase(s, j, Running).(invoked := s.invoked + [j]) else SetPhase(s, j, Settled)
    case Settle(j) => SetPhase(s, j, Settled)
    case Release(j) => Cleanup(s, j)
    case BeginClose(ch) => s.(closing := s.closing + {ch})
    case CompleteClose(ch) => s.(closing := s.closing - {ch}, queues := s.queues - {ch})
    case Pool(ch, connection) => s.(pool := s.pool[ch := connection])
    case Unpool(ch) => s.(pool := s.pool - {ch})
  }

  // ---- the bounded FIFO behind it

  /** The events a queue object has accepted and not yet let go, in order of acceptance. */
  function Fifo(jobs: seq<Job>, q: QueueId): seq<JobId> {
    if jobs == [] then []
    else
      var n := |jobs| - 1;
      Fifo(jobs[..n], q) + if jobs[n].queue == q && !jobs[n].phase.Released? then [n] else []
  }

  /** The last job of a queue object. */
  function LastOf(jobs: seq<Job>, q: QueueId): Option<JobId> {
    if jobs == [] then None
    else if jobs[|jobs| - 1].queue == q then Some(|jobs| - 1)
    else LastOf(jobs[..|jobs| - 1], q)
  }

  /** A job moves only after all earlier jobs of its queue are released. */
  ghost predicate InOrder(jobs: seq<Job>) {
    forall i, j :: 0 <= i < j < |jobs| && jobs[i].queue == jobs[j].queue && !jobs[j].phase.Waiting? ==> jobs[i].phase.Released?
  }

  ghost predicate Chained(jobs: seq<Job>) {
    forall j :: 0 <= j < |jobs| ==> jobs[j].after == LastOf(jobs[..j], jobs[j].queue)
  }

  ghost predicate Counted(s: State) {
    && (forall ch :: ch in s.queues ==> s.queues[ch] < |s.store|)
    && (forall j :: 0 <= j < |s.jobs| ==> s.jobs[j].queue < |s.store|)
    && (forall q :: 0 <= q < |s.store| ==>
          && s.store[q].size == |Fifo(s.jobs, q)| <= s.limit
          && s.store[q].tail == LastOf(s.jobs, q))
  }

  ghost predicate CalledInOrder(s: State) {
    && (forall a :: 0 <= a < |s.invoked| ==> s.invoked[a] < |s.jobs| && !s.jobs[s.invoked[a]].phase.Waiting?)
    && (forall a, b :: 0 <= a < b < |s.invoked| && s.jobs[s.invoked[a]].queue == s.jobs[s.invoked[b]].queue ==>
          s.invoked[a] < s.invoked[b])
  }

  /** A queue object is found under its own channel only, and only while it has events. */
  ghost predicate Busy(s: State) {
    && (forall ch :: ch in s.queues ==> Fifo(s.jobs, s.queues[ch]) != [])
    && (forall ch, j :: ch in s.queues && 0 <= j < |s.jobs| && s.jobs[j].queue == s.queues[ch] ==> s.jobs[j].channel == ch)
  }

  ghost predicate Inv(s: State) {
    InOrder(s.jobs) && Chained(s.jobs) && Counted(s) && CalledInOrder(s) && Busy(s)
  }

  lemma {:induction false} LastOfIsLast(jobs: seq<Job>, q: QueueId)
    ensures match LastOf(jobs, q)
            case None => forall i :: 0 <= i < |jobs| ==> jobs[i].queue != q
            case Some(k) => k < |jobs| && jobs[k].queue == q && forall i :: k < i < |jobs| ==> jobs[i].queue != q
  {
    if jobs != [] {
      LastOfIsLast(jobs[..|jobs| - 1], q);
      assert forall i :: 0 <= i < |jobs| - 1 ==> jobs[i] == jobs[..|jobs| - 1][i];
    }
  }

  /** Changing the phase of a job leaves the chain alone. */
  lemma {:induction false} LastOfIgnoresPhase(jobs: seq<Job>, j: JobId, phase: Phase, q: QueueId)
    requires j < |jobs|
    ensures LastOf(jobs[j := jobs[j].(phase := phase)], q) == LastOf(jobs, q)
  {
    var n := |jobs| - 1;
    var changed := jobs[j := jobs[j].(phase := phase)];
    if j < n {
      assert changed[..n] == jobs[..n][j := jobs[j].(phase := phase)];
      LastOfIgnoresPhase(jobs[..n], j, phase, q);
    } else {
      assert changed[..n] == jobs[..n];
    }
  }

  lemma PhaseKeepsChain(jobs: seq<Job>, j: JobId, phase: Phase)
    requires j < |jobs| && Chained(jobs)
    ensures Chained(jobs[j := jobs[j].(phase := phase)])
  {
    var changed := jobs[j := jobs[j].(phase := phase)];
    forall k | 0 <= k < |changed|
      ensures changed[k].after == LastOf(changed[..k], changed[k].queue)
    {
      if j < k {
        assert changed[..k] == jobs[..k][j := jobs[j].(phase := phase)];
        LastOfIgnoresPhase(jobs[..k], j, phase, jobs[k].queue);
      } else {
        assert changed[..k] == jobs[..k];
      }
    }
  }

  /** Moving between phases other than Released leaves the FIFO alone; releasing its head removes it. */
  lemma {:induction false} FifoOfPhase(jobs: seq<Job>, j: JobId, phase: Phase, q: QueueId)
    requires j < |jobs| && !jobs[j].phase.Released?
    requires forall i :: 0 <= i < j && jobs[i].queue == jobs[j].queue ==> jobs[i].phase.Released?
    ensures phase != Released || jobs[j].queue != q ==> Fifo(jobs[j := jobs[j].(phase := phase)], q) == Fifo(jobs, q)
    ensures jobs[j].queue == q ==> Fifo(jobs, q) != [] && Fifo(jobs, q)[0] == j
    ensures phase == Released && jobs[j].queue == q ==> Fifo(jobs[j := jobs[j].(phase := phase)], q) == Fifo(jobs, q)[1..]
  {
    var n := |jobs| - 1;
    var changed := jobs[j := jobs[j].(phase := phase)];
    if j < n {
      assert changed[..n] == jobs[..n][j := jobs[j].(phase := phase)];
      FifoOfPhase(jobs[..n], j, phase, q);
    } else {
      assert changed[..n] == jobs[..n];
      if jobs[j].queue == q { ReleasedLeaveNothing(jobs[..n], q); }
    }
  }

  lemma {:induction false} ReleasedLeaveNothing(jobs: seq<Job>, q: QueueId)
    requires forall i :: 0 <= i < |jobs| && jobs[i].queue == q ==> jobs[i].phase.Released?
    ensures Fifo(jobs, q) == []
  {
    if jobs != [] { ReleasedLeaveNothing(jobs[..|jobs| - 1], q); }
  }

  lemma {:induction false} NoJobsOfNewQueue(jobs: seq<Job>, q: QueueId)
    requires forall i :: 0 <= i < |jobs| ==> jobs[i].queue != q
    ensures Fifo(jobs, q) == [] && LastOf(jobs, q) == None
  {
    if jobs != [] { NoJobsOfNewQueue(jobs[..|jobs| - 1], q); }
  }

  /** An accepted event is appended to the FIFO of its queue object, and to no other. */
  lemma FifoOfLonger(jobs: seq<Job>, job: Job, q: QueueId)
    ensures Fifo(jobs + [job], q) == if job.queue == q && !job.phase.Released? then Fifo(jobs, q) + [|jobs|] else Fifo(jobs, q)
    ensures LastOf(jobs + [job], q) == if job.queue == q then Some(|jobs|) else LastOf(jobs, q)
  {
    assert (jobs + [job])[..|jobs|] == jobs;
  }

  // ---- every step keeps the invariant

  lemma AppendKeepsChain(jobs: seq<Job>, job: Job)
    requires Chained(jobs) && InOrder(jobs) && job.after == LastOf(jobs, job.queue) && job.phase == Waiting
    ensures Chained(jobs + [job]) && InOrder(jobs + [job])
  {
    var longer := jobs + [job];
    forall k | 0 <= k < |longer|
      ensures longer[k].after == LastOf(longer[..k], longer[k].queue)
    {
      assert longer[..k] == jobs[..k];
      if k == |jobs| { assert jobs[..k] == jobs; }
    }
  }

  lemma EnqueueKeepsInv(s: State, ch: Channel, connection: Connection)
    requires Inv(s)
    ensures Inv(Enqueue(s, ch, connection))
  {
    hide Fifo, LastOf, InOrder, Chained, Counted, CalledInOrder, Accepts, QueueFor, Busy;
    if Accepts(s, ch) {
      EnqueueKeepsBusy(s, ch, connection);
      EnqueueShape(s, ch, connection);
      var t := Enqueue(s, ch, connection);
      var job := t.jobs[|s.jobs|];
      AppendKeepsChain(s.jobs, job);
      EnqueueKeepsCount(s, ch, connection);
      AppendKeepsCalls(s, job, t);
    }
  }

  lemma EnqueueKeepsBusy(s: State, ch: Channel, connection: Connection)
    requires Counted(s) && Busy(s) && Accepts(s, ch)
    ensures Busy(Enqueue(s, ch, connection))
  {
    hide Fifo, LastOf, Accepts;
    var t := Enqueue(s, ch, connection);
    var job := t.jobs[|s.jobs|];
    forall c | c in t.queues
      ensures Fifo(t.jobs, t.queues[c]) != []
      ensures t.queues[c] == job.queue ==> c == ch
    {
      FifoOfLonger(s.jobs, job, t.queues[c]);
      if c in s.queues { FifoMembers(s.jobs, s.queues[c]); }
      if c != ch { assert Fifo(s.jobs, s.queues[c])[0] in Fifo(s.jobs, s.queues[c]); }
    }
  }

  lemma EnqueueShape(s: State, ch: Channel, connection: Connection)
    requires Counted(s) && Accepts(s, ch)
    ensures var t := Enqueue(s, ch, connection);
            && |t.jobs| == |s.jobs| + 1
            && var job := t.jobs[|s.jobs|];
            && t.jobs == s.jobs + [job] && t.invoked == s.invoked
            && job.phase == Waiting && job.after == LastOf(s.jobs, job.queue)
  {
    hide Fifo, LastOf;
    if QueueFor(s, ch) == |s.store| { NoJobsOfNewQueue(s.jobs, |s.store|); }
  }

  lemma AppendKeepsCalls(s: State, job: Job, t: State)
    requires CalledInOrder(s) && t.jobs == s.jobs + [job] && t.invoked == s.invoked
    ensures CalledInOrder(t)
  {}

  lemma EnqueueKeepsCount(s: State, ch: Channel, connection: Connection)
    requires Counted(s) && Accepts(s, ch)
    ensures Counted(Enqueue(s, ch, connection))
  {
    hide Fifo, LastOf;
    var t := Enqueue(s, ch, connection);
    var job := t.jobs[|s.jobs|];
    if QueueFor(s, ch) == |s.store| { NoJobsOfNewQueue(s.jobs, |s.store|); }
    forall k | 0 <= k < |t.store|
      ensures t.store[k].size == |Fifo(t.jobs, k)| <= t.limit && t.store[k].tail == LastOf(t.jobs, k)
    {
      FifoOfLonger(s.jobs, job, k);
    }
  }

  lemma StartKeepsOrder(s: State, j: JobId)
    requires Inv(s) && Enabled(s, Start(j))
    ensures forall i :: 0 <= i < j && s.jobs[i].queue == s.jobs[j].queue ==> s.jobs[i].phase.Released?
  {
    LastOfIsLast(s.jobs[..j], s.jobs[j].queue);
    assert forall i :: 0 <= i < j ==> s.jobs[..j][i] == s.jobs[i];
  }

  lemma PhaseKeepsInv(s: State, j: JobId, phase: Phase, called: bool)
    requires Inv(s) && j < |s.jobs| && !s.jobs[j].phase.Released? && phase != Waiting && phase != Released
    requires forall i :: 0 <= i < j && s.jobs[i].queue == s.jobs[j].queue ==> s.jobs[i].phase.Released?
    requires called ==> s.jobs[j].phase.Waiting?
    ensures Inv(SetPhase(s, j, phase).(invoked := if called then s.invoked + [j] else s.invoked))
  {
    hide Fifo, LastOf, Chained;
    var t := SetPhase(s, j, phase).(invoked := if called then s.invoked + [j] else s.invoked);
    PhaseKeepsChain(s.jobs, j, phase);
    forall ch | ch in s.queues ensures Fifo(t.jobs, s.queues[ch]) != [] { FifoOfPhase(s.jobs, j, phase, s.queues[ch]); }
    forall q | 0 <= q < |t.store|
      ensures t.store[q].size == |Fifo(t.jobs, q)| <= t.limit && t.store[q].tail == LastOf(t.jobs, q)
    {
      FifoOfPhase(s.jobs, j, phase, q);
      LastOfIgnoresPhase(s.jobs, j, phase, q);
    }
    if called {
      forall a | 0 <= a < |s.invoked| && s.jobs[s.invoked[a]].queue == s.jobs[j].queue
        ensures s.invoked[a] < j
      {
        assert !s.jobs[s.invoked[a]].phase.Waiting?;
      }
    }
  }

  /** The last job of a queue takes its queue out of the map. */
  lemma ReleaseKeepsBusy(s: State, j: JobId)
    requires Inv(s) && Enabled(s, Release(j))
    ensures Busy(Cleanup(s, j))
  {
    hide LastOf, Chained, Fifo;
    var t := Cleanup(s, j);
    var q := s.jobs[j].queue;
    assert forall i :: 0 <= i < j && s.jobs[i].queue == q ==> s.jobs[i].phase.Released?;
    FifoOfPhase(s.jobs, j, Released, q);
    if |Fifo(s.jobs, q)| == 1 { OnlyJobIsTail(s.jobs, j, q); }
    forall ch | ch in t.queues
      ensures Fifo(t.jobs, t.queues[ch]) != []
    {
      FifoOfPhase(s.jobs, j, Released, s.queues[ch]);
    }
  }

  /** If one event is left in a queue, its job is the queue's tail. */
  lemma {:induction false} OnlyJobIsTail(jobs: seq<Job>, j: JobId, q: QueueId)
    requires InOrder(jobs) && Fifo(jobs, q) == [j] && j < |jobs| && !jobs[j].phase.Waiting?
    ensures LastOf(jobs, q) == Some(j)
  {
    var n := |jobs| - 1;
    var rest := jobs[..n];
    FifoMembers(jobs, q);
    assert j in Fifo(jobs, q);
    if jobs[n].queue == q {
      if j < n { ReleasedLeaveNothing(rest, q); }
    } else {
      OnlyJobIsTail(rest, j, q);
    }
  }

  lemma {:induction false} FifoMembers(jobs: seq<Job>, q: QueueId)
    ensures forall k :: k in Fifo(jobs, q) ==> k < |jobs| && jobs[k].queue == q && !jobs[k].phase.Released?
  {
    if jobs != [] { FifoMembers(jobs[..|jobs| - 1], q); }
  }

  lemma ReleaseKeepsInv(s: State, j: JobId)
    requires Inv(s) && Enabled(s, Release(j))
    ensures Inv(Cleanup(s, j))
  {
    hide Fifo, LastOf, Chained;
    var t := Cleanup(s, j);
    assert forall i :: 0 <= i < j && s.jobs[i].queue == s.jobs[j].queue ==> s.jobs[i].phase.Released?;
    PhaseKeepsChain(s.jobs, j, Released);
    ReleaseKeepsBusy(s, j);
    forall q | 0 <= q < |t.store|
      ensures t.store[q].size == |Fifo(t.jobs, q)| <= t.limit && t.store[q].tail == LastOf(t.jobs, q)
    {
      FifoOfPhase(s.jobs, j, Released, q);
      LastOfIgnoresPhase(s.jobs, j, Released, q);
    }
  }

  lemma StepKeepsInv(s: State, a: Action)
    requires Inv(s) && Enabled(s, a)
    ensures Inv(Next(s, a))
  {
    hide Fifo, LastOf, Chained, InOrder;
    match a
    case Event(ch, connection) => EnqueueKeepsInv(s, ch, connection);
    case Start(j) =>
      StartKeepsOrder(s, j);
      PhaseKeepsInv(s, j, if Reaches(s, j) then Running else Settled, Reaches(s, j));
    case Settle(j) => EarlierReleased(s, j); PhaseKeepsInv(s, j, Settled, false);
    case Release(j) => ReleaseKeepsInv(s, j);
    case _ =>
  }

  lemma EarlierReleased(s: State, j: JobId)
    requires Inv(s) && j < |s.jobs| && !s.jobs[j].phase.Waiting?
    ensures forall i :: 0 <= i < j && s.jobs[i].queue == s.jobs[j].queue ==> s.jobs[i].phase.Released?
  {}

  // ---- runs

  ghost predicate Run(states: seq<State>, actions: seq<Action>) {
    && |states| == |actions| + 1
    && states[0].queues == map[] && states[0].store == [] && states[0].jobs == [] && states[0].invoked == []
    && forall i :: 0 <= i < |actions| ==> Enabled(states[i], actions[i]) && states[i + 1] == Next(states[i], actions[i])
  }

  lemma {:induction false} RunsKeepInv(states: seq<State>, actions: seq<Action>, k: nat)
    requires Run(states, actions) && k < |states|
    ensures Inv(states[k])
  {
    hide Next, Fifo;
    if k > 0 {
      RunsKeepInv(states, actions, k - 1);
      StepKeepsInv(states[k - 1], actions[k - 1]);
    }
  }

  /** Two handlers of one queue object never run at the same time. */
  lemma OneHandlerAtATime(states: seq<State>, actions: seq<Action>, k: nat, i: JobId, j: JobId)
    requires Run(states, actions) && k < |states|
    requires PhaseIs(states[k], i, Running) && PhaseIs(states[k], j, Running) && states[k].jobs[i].queue == states[k].jobs[j].queue
    ensures i == j
  {
    RunsKeepInv(states, actions, k);
  }

  /** Handlers of one queue object are called in the order in which its events were accepted. */
  lemma CallsFollowAcceptance(states: seq<State>, actions: seq<Action>, k: nat, a: nat, b: nat)
    requires Run(states, actions) && k < |states| && a < b < |states[k].invoked|
    ensures states[k].invoked[b] < |states[k].jobs| && states[k].invoked[a] < |states[k].jobs|
    ensures states[k].jobs[states[k].invoked[a]].queue == states[k].jobs[states[k].invoked[b]].queue ==>
              states[k].invoked[a] < states[k].invoked[b]
  {
    RunsKeepInv(states, actions, k);
  }

  /** The size of a queue object is the number of its accepted events not yet let go, and never exceeds the limit. */
  lemma SizeIsExactAndBounded(states: seq<State>, actions: seq<Action>, k: nat, q: QueueId)
    requires Run(states, actions) && k < |states| && q < |states[k].store|
    ensures states[k].store[q].size == |Fifo(states[k].jobs, q)| <= states[k].limit
  {
    RunsKeepInv(states, actions, k);
  }

  /** A channel without pending events holds no queue object: the map does not grow with the channels ever used. */
  lemma IdleChannelsHoldNoQueue(states: seq<State>, actions: seq<Action>, k: nat, ch: Channel)
    requires Run(states, actions) && k < |states| && ch in states[k].queues
    ensures Fifo(states[k].jobs, states[k].queues[ch]) != []
  {
    RunsKeepInv(states, actions, k);
  }

  /** The events waiting or running under a channel, none if it has no queue object. */
  function Pending(s: State, ch: Channel): seq<JobId> {
    if ch in s.queues then Fifo(s.jobs, s.queues[ch]) else []
  }

  /** The connection of the job is the one pooled for its channel. */
  predicate IsPooled(s: State, j: JobId) {
    j < |s.jobs| && s.jobs[j].channel in s.pool && s.pool[s.jobs[j].channel] == s.jobs[j].connection
  }

  /**
   Each step acts on a queue object as on a bounded FIFO: accepting appends one
   event, releasing removes the first, and nothing else changes it. A job that
   starts is the first of its queue, and its handler is called if and only if
   its connection is the one pooled for its channel; no other step calls one.
   */
  lemma StepRefinesFifo(s: State, a: Action, q: QueueId)
    requires Inv(s) && Enabled(s, a)
    ensures var before, after := Fifo(s.jobs, q), Fifo(Next(s, a).jobs, q);
            match a
            case Event(ch, connection) =>
              if ch !in s.closing && |Pending(s, ch)| < s.limit && q == (if ch in s.queues then s.queues[ch] else |s.store|)
              then after == before + [|s.jobs|]
              else after == before
            case Release(j) => if s.jobs[j].queue == q then before != [] && before[0] == j && after == before[1..] else after == before
            case Start(j) => after == before && (s.jobs[j].queue == q ==> before != [] && before[0] == j)
            case _ => after == before
    ensures match a
            case Start(j) =>
              && Next(s, a).invoked == (if IsPooled(s, j) then s.invoked + [j] else s.invoked)
              && PhaseIs(Next(s, a), j, if IsPooled(s, j) then Running else Settled)
            case _ => Next(s, a).invoked == s.invoked
  {
    hide Fifo, LastOf, Chained, InOrder;
    match a
    case Event(ch, connection) =>
      if Accepts(s, ch) {
        FifoOfLonger(s.jobs, Next(s, a).jobs[|s.jobs|], q);
        if QueueFor(s, ch) == q == |s.store| { NoJobsOfNewQueue(s.jobs, q); }
      }
      AcceptsWithinLimit(s, ch);
    case Start(j) =>
      StartKeepsOrder(s, j);
      FifoOfPhase(s.jobs, j, Next(s, a).jobs[j].phase, q);
    case Settle(j) => EarlierReleased(s, j); FifoOfPhase(s.jobs, j, Settled, q);
    case Release(j) => EarlierReleased(s, j); FifoOfPhase(s.jobs, j, Released, q);
    case _ =>
  }

  lemma AcceptsWithinLimit(s: State, ch: Channel)
    requires Counted(s)
    ensures Accepts(s, ch) <==> ch !in s.closing && |Pending(s, ch)| < s.limit
  {
    hide Fifo, LastOf;
  }

  // ---- what becomes of an event

  /**
   An event is accepted exactly if its channel is not closing and has fewer
   pending events than the limit; it is then the last of them, for its channel
   and connection. Otherwise it leaves no trace.
   */
  lemma AcceptedExactlyWithinLimit(states: seq<State>, actions: seq<Action>, k: nat, ch: Channel, connection: Connection)
    requires Run(states, actions) && k < |actions| && actions[k] == Event(ch, connection)
    ensures var s, s' := states[k], states[k + 1];
            if ch !in s.closing && |Pending(s, ch)| < s.limit then
              && |s'.jobs| == |s.jobs| + 1 && s'.jobs[..|s.jobs|] == s.jobs
              && s'.jobs[|s.jobs|].channel == ch && s'.jobs[|s.jobs|].connection == connection && PhaseIs(s', |s.jobs|, Waiting)
              && Pending(s', ch) == Pending(s, ch) + [|s.jobs|]
            else s' == s
  {
    hide Fifo, LastOf, Chained, InOrder;
    RunsKeepInv(states, actions, k);
    var s, s' := states[k], states[k + 1];
    if ch !in s.queues { NoJobsOfNewQueue(s.jobs, |s.store|); }
    if Accepts(s, ch) { FifoOfLonger(s.jobs, s'.jobs[|s.jobs|], s'.queues[ch]); }
  }

  /** How often the handler of a job was called. */
  function Calls(invoked: seq<JobId>, j: JobId): nat {
    if invoked == [] then 0 else Calls(invoked[..|invoked| - 1], j) + if invoked[|invoked| - 1] == j then 1 else 0
  }

  lemma CallsOfLonger(invoked: seq<JobId>, i: JobId, j: JobId)
    ensures Calls(invoked + [i], j) == Calls(invoked, j) + if i == j then 1 else 0
  {
    assert (invoked + [i])[..|invoked|] == invoked;
  }

  /** The turn of a job, if it has come among the first k steps. */
  function Turn(actions: seq<Action>, k: nat, j: JobId): (turn: Option<nat>)
    requires k <= |actions|
    ensures turn.Some? ==> turn.value < k && actions[turn.value] == Start(j)
  {
    if k == 0 then None else if actions[k - 1] == Start(j) then Some(k - 1) else Turn(actions, k - 1, j)
  }

  /**
   A job is waiting exactly as long as its turn has not come, and its turn
   comes once. Its handler is called exactly once if its connection was pooled
   at that moment, and never if it was not.
   */
  lemma {:induction false} CalledExactlyIfPooled(states: seq<State>, actions: seq<Action>, k: nat, j: JobId)
    requires Run(states, actions) && k < |states|
    ensures j < |states[k].jobs| ==> (states[k].jobs[j].phase.Waiting? <==> Turn(actions, k, j).None?)
    ensures j >= |states[k].jobs| ==> Turn(actions, k, j).None?
    ensures Calls(states[k].invoked, j) == match Turn(actions, k, j) case None => 0 case Some(i) => if IsPooled(states[i], j) then 1 else 0
  {
    hide Fifo, LastOf, Chained, InOrder, Inv, Accepts;
    if k > 0 {
      CalledExactlyIfPooled(states, actions, k - 1, j);
      var s, a := states[k - 1], actions[k - 1];
      TurnStep(s, a, j);
      if a.Start? && IsPooled(s, a.job) { CallsOfLonger(s.invoked, a.job, j); }
    }
  }

  /** What one step does to a job's phase and to the calls. */
  lemma TurnStep(s: State, a: Action, j: JobId)
    requires Enabled(s, a)
    ensures |s.jobs| <= |Next(s, a).jobs| <= |s.jobs| + 1
    ensures j < |s.jobs| ==> (Next(s, a).jobs[j].phase.Waiting? <==> s.jobs[j].phase.Waiting? && a != Start(j))
    ensures |s.jobs| <= j < |Next(s, a).jobs| ==> Next(s, a).jobs[j].phase.Waiting? && a != Start(j)
    ensures Next(s, a).invoked == if a.Start? && IsPooled(s, a.job) then s.invoked + [a.job] else s.invoked
  {
    hide Accepts;
  }

  /** A job whose turn has come has had it once: nothing starts it again. */
  lemma TurnsComeOnce(states: seq<State>, actions: seq<Action>, i: nat, k: nat, j: JobId)
    requires Run(states, actions) && i < k < |actions| && actions[i] == Start(j)
    ensures actions[k] != Start(j)
  {
    CalledExactlyIfPooled(states, actions, k, j);
    TurnIsSome(actions, i, k, j);
  }

  lemma {:induction false} TurnIsSome(actions: seq<Action>, i: nat, k: nat, j: JobId)
    requires i < k <= |actions| && actions[i] == Start(j)
    ensures Turn(actions, k, j).Some?
  {
    if k > i + 1 { TurnIsSome(actions, i, k - 1, j); }
  }

  /** A pending job is the first of its queue exactly if the earlier ones are released. */
  lemma {:induction false} FirstIsFirst(jobs: seq<Job>, q: QueueId, j: JobId)
    requires j < |jobs| && jobs[j].queue == q && !jobs[j].phase.Released?
    ensures (forall i :: 0 <= i < j && jobs[i].queue == q ==> jobs[i].phase.Released?) <==> Fifo(jobs, q) != [] && Fifo(jobs, q)[0] == j
  {
    var n := |jobs| - 1;
    var rest := jobs[..n];
    if j < n {
      FirstIsFirst(rest, q, j);
    } else if forall i :: 0 <= i < j && jobs[i].queue == q ==> jobs[i].phase.Released? {
      ReleasedLeaveNothing(rest, q);
    } else {
      var i :| 0 <= i < j && jobs[i].queue == q && !jobs[i].phase.Released?;
      PendingIsListed(rest, q, i);
      FifoMembers(rest, q);
      assert Fifo(rest, q)[0] in Fifo(rest, q);
    }
  }

  lemma {:induction false} PendingIsListed(jobs: seq<Job>, q: QueueId, i: JobId)
    requires i < |jobs| && jobs[i].queue == q && !jobs[i].phase.Released?
    ensures i in Fifo(jobs, q)
  {
    if i < |jobs| - 1 { PendingIsListed(jobs[..|jobs| - 1], q, i); }
  }

  /** A waiting job can start exactly when it is the first of its queue: no queue runs ahead, and none gets stuck. */
  lemma TurnComesWhenFirst(states: seq<State>, actions: seq<Action>, k: nat, j: JobId)
    requires Run(states, actions) && k < |states| && PhaseIs(states[k], j, Waiting)
    ensures var fifo := Fifo(states[k].jobs, states[k].jobs[j].queue);
            Enabled(states[k], Start(j)) <==> fifo != [] && fifo[0] == j
  {
    hide Fifo, LastOf;
    RunsKeepInv(states, actions, k);
    var jobs, q := states[k].jobs, states[k].jobs[j].queue;
    FirstIsFirst(jobs, q, j);
    LastOfIsLast(jobs[..j], q);
    assert forall i :: 0 <= i < j ==> jobs[..j][i] == jobs[i];
  }

  /** A channel refuses events from the beginning of a close to its completion, and no longer. */
  lemma {:induction false} RefusesWhileClosing(states: seq<State>, actions: seq<Action>, i: nat, k: nat, ch: Channel)
    requires Run(states, actions) && i < k < |states| && (actions[i] == BeginClose(ch) || actions[i] == CompleteClose(ch))
    requires forall j :: i < j < k ==> actions[j] != BeginClose(ch) && actions[j] != CompleteClose(ch)
    ensures ch in states[k].closing <==> actions[i] == BeginClose(ch)
  {
    hide Fifo, Enqueue, Cleanup;
    if k > i + 1 {
      RefusesWhileClosing(states, actions, i, k - 1, ch);
      ClosingStep(states[k - 1], actions[k - 1], ch);
    } else {
      ClosingStep(states[i], actions[i], ch);
    }
  }

  lemma ClosingStep(s: State, a: Action, ch: Channel)
    requires Enabled(s, a)
    ensures ch in Next(s, a).closing <==> a == BeginClose(ch) || (ch in s.closing && a != CompleteClose(ch))
  {}

  /** A handler that settles and a job that is let go are so from then on. */
  lemma JobsGetOn(s: State, a: Action)
    requires Enabled(s, a) && (a.Settle? || a.Release?)
    ensures PhaseIs(Next(s, a), a.job, if a.Settle? then Settled else Released)
    ensures |Next(s, a).jobs| == |s.jobs| && forall i :: 0 <= i < |s.jobs| && i != a.job ==> Next(s, a).jobs[i] == s.jobs[i]
  {}
}
