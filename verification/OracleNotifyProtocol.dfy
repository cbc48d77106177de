/**
 The Oracle notification subscriptions as a state machine. One action is the
 code between two awaits; the server, the timers and the callers choose which
 operation moves next, whether a server call succeeds, and when (if ever) it
 answers.
 */
module OracleNotifyProtocol {
  import opened Options
  import opened RestoreRecords

  /**
   Phases of one subscription of a registration. Its name is a random UUID that
   nobody else can hold before the subscription is published, so the model draws
   the name at that moment.
   */
  datatype RegistrationPhase =
    | Queued
    | Creating
    | Subscribing(connection: Connection)
    | Cleaning(connection: Connection)
    | RollingBack(awaited: set<TaskId>)

  datatype ClosePhase = Draining | Releasing(connection: Connection) | Settled

  /** Phases of a restore workflow. Every phase is an await of the workflow. */
  datatype RestorePhase =
    | ClosingOld(replaced: Option<Connection>)
    | Connecting
    | Resubscribing(connection: Connection)
    | SubscribeFailed(connection: Connection)
    | ClosingAgain(connection: Connection)
    | Published(connection: Connection)
    | Undoing(undone: Option<Connection>)
    | Delaying(long: bool)

  datatype Task =
    | Registration(phase: RegistrationPhase, remaining: nat, done: seq<Channel>)
    | Closing(channel: Channel, stage: ClosePhase)
    | Health(channel: Channel, connection: Connection, record: RecordId, awaiting: Option<TaskId>)
    | Restore(channel: Channel, record: RecordId, retry: nat, maxRetries: nat, step: RestorePhase)

  datatype Shutdown = Running | UnsubscribingAll(awaited: set<TaskId>) | UnsubscribingRest(awaited: set<TaskId>) | Finished

  datatype State = State(
    book: Book,
    pool: map<Channel, Connection>,
    closes: map<Channel, TaskId>,
    tasks: map<TaskId, Task>,
    shutdown: Shutdown,
    closed: multiset<Connection>,     // once for each close that has ended
    nextTask: nat,
    nextChannel: nat,
    nextConnection: nat)

  const INITIAL := State(Book(false, map[], []), map[], map[], map[], Running, multiset{}, 0, 0, 0)

  function OptionSet<T>(o: Option<T>): set<T> {
    if o.Some? then {o.value} else {}
  }

  /** The connections an operation in flight is responsible for. */
  function Owned(task: Task): set<Connection> {
    match task
    case Registration(Subscribing(conn), _, _) => {conn}
    case Registration(Cleaning(conn), _, _) => {conn}
    case Closing(_, Releasing(conn)) => {conn}
    case Restore(_, _, _, _, ClosingOld(replaced)) => OptionSet(replaced)
    case Restore(_, _, _, _, Resubscribing(conn)) => {conn}
    case Restore(_, _, _, _, SubscribeFailed(conn)) => {conn}
    case Restore(_, _, _, _, Undoing(undone)) => OptionSet(undone)
    case _ => {}
  }

  // ---------------------------------------------------------------- building blocks

  function SetTask(s: State, t: TaskId, task: Task): State {
    s.(tasks := s.tasks[t := task])
  }

  function EndTask(s: State, t: TaskId): State {
    s.(tasks := s.tasks - {t})
  }

  function TakeFromPool(s: State, ch: Channel): Option<Connection> {
    if ch in s.pool then Some(s.pool[ch]) else None
  }

  /** The synchronous head of performCloseSubscription: the connection leaves the pool. */
  function PerformClose(s: State, ch: Channel, cancel: bool): State {
    s.(pool := s.pool - {ch}, book := if cancel then s.book.ClearState(ch) else s.book)
  }

  function ClosePhaseFor(taken: Option<Connection>): ClosePhase {
    if taken.Some? then Releasing(taken.value) else Settled
  }

  /** unlistenNotify of one channel up to its first await. `hasTail`: callbacks are still queued. */
  function Unlisten(s: State, ch: Channel, hasTail: bool): State {
    var s1 := s.(book := s.book.CancelRestore(ch).StopHealthCheck(ch));
    if ch in s1.closes then s1
    else
      var s2 := s1.(closes := s1.closes[ch := s1.nextTask], nextTask := s1.nextTask + 1);
      if hasTail then SetTask(s2, s1.nextTask, Closing(ch, Draining))
      else SetTask(PerformClose(s2, ch, true), s1.nextTask, Closing(ch, ClosePhaseFor(TakeFromPool(s2, ch))))
  }

  function UnlistenAll(s: State, channels: seq<Channel>, tails: set<Channel>): State
    decreases |channels|
  {
    if channels == [] then s
    else UnlistenAll(Unlisten(s, channels[0], channels[0] in tails), channels[1..], tails)
  }

  /** The close operations that unlistening `channels` waits for. */
  function Awaited(s: State, channels: seq<Channel>): set<TaskId> {
    set ch | ch in channels && ch in s.closes :: s.closes[ch]
  }

  /** A confirmed subscription enters the pool and gets its health check. */
  function Publish(s: State, ch: Channel, conn: Connection): State {
    s.(pool := s.pool[ch := conn], book := s.book.MarkActive(ch).StartHealthCheck(ch, conn))
  }

  /** restoreNotification: joins a running workflow, starts one, or does nothing. */
  function StartRestore(s: State, ch: Channel, maxRetries: nat): (State, Option<TaskId>) {
    if s.book.IsCancelled(ch) then (s, None)
    else
      var b := s.book.GetOrCreate(ch);
      if b.At(ch).activeRestore.Some? then (s.(book := b), b.At(ch).activeRestore)
      else
        var t := s.nextTask;
        var b1 := b.Put(b.records[ch], b.At(ch).(activeRestore := Some(t)));
        (BeginAttempt(s.(book := b1, nextTask := t + 1), t, Restore(ch, b.records[ch], 1, maxRetries, Connecting)), Some(t))
  }

  /** One restore attempt up to its first await: the old connection leaves the pool. */
  function BeginAttempt(s: State, t: TaskId, task: Task): State
    requires task.Restore?
  {
    var s1 := s.(book := s.book.StopHealthCheck(task.channel));
    SetTask(PerformClose(s1, task.channel, false), t, task.(step := ClosingOld(TakeFromPool(s1, task.channel))))
  }

  /** The workflow's promise settles: the record forgets it and becomes cancellable anew. */
  function EndRestore(s: State, t: TaskId, task: Task): State
    requires task.Restore?
  {
    var s1 := EndTask(s, t);
    if task.record >= |s.book.store| || s.book.store[task.record].activeRestore != Some(t) then s1
    else
      var r := s.book.store[task.record];
      var ended := r.(activeRestore := None, isCancelled := s.book.isDestroyed && r.isCancelled);
      s1.(book := s.book.Put(task.record, ended).DeleteIfIdle(task.channel, task.record))
  }

  /** An attempt has thrown: the workflow ends if cancelled, else it waits for a retry delay. */
  function AttemptFailed(s: State, t: TaskId, task: Task): State
    requires task.Restore?
  {
    var s1 := s.(book := s.book.ClearState(task.channel));
    if s1.book.IsCancelled(task.channel) then EndRestore(s1, t, task)
    else
      var b := s1.book.GetOrCreate(task.channel);
      SetTask(s1.(book := b.Put(b.records[task.channel], b.At(task.channel).(retryDelay := Some(t)))), t,
              task.(step := Delaying(task.retry >= task.maxRetries)))
  }

  /** A registration has thrown: its earlier subscriptions are taken back. */
  function RegistrationFailed(s: State, t: TaskId, done: seq<Channel>, tails: set<Channel>): State {
    if done == [] then EndTask(s, t)
    else
      var s1 := UnlistenAll(SetTask(s, t, Registration(RollingBack({}), 0, done)), done, tails);
      SetTask(s1, t, Registration(RollingBack(Awaited(s1, done)), 0, done))
  }

  function CancelAll(b: Book, channels: seq<Channel>): Book
    decreases |channels|
  {
    if channels == [] then b else CancelAll(b.CancelRestore(channels[0]), channels[1..])
  }

  // ---------------------------------------------------------------- actions

  datatype Action =
    | Listen(operations: nat)
    | RegistrationStarts(task: TaskId)
    | RegistrationConnected(task: TaskId, ok: bool, tails: set<Channel>)
    | RegistrationSubscribed(task: TaskId, ok: bool)
    | RegistrationCleaned(task: TaskId, tails: set<Channel>)
    | RegistrationRolledBack(task: TaskId)
    | UserUnlisten(channel: Channel, hasTail: bool)
    | CloseDrained(task: TaskId)
    | CloseReleased(task: TaskId)
    | CloseCleared(task: TaskId)
    | HealthTick(record: RecordId)
    | HealthProbed(task: TaskId, healthy: bool, maxRetries: nat)
    | HealthResumed(task: TaskId)
    | Deregistered(channel: Channel, maxRetries: nat)
    | OldClosed(task: TaskId)
    | RestoreConnected(task: TaskId, ok: bool)
    | Resubscribed(task: TaskId, ok: bool)
    | FailedConnectionClosed(task: TaskId)
    | FailedConnectionClosedAgain(task: TaskId)
    | PublishedChecked(task: TaskId)
    | UndoClosed(task: TaskId)
    | DelayElapsed(task: TaskId)
    | DelayResumed(task: TaskId)
    | Destroy(pooled: seq<Channel>, restoring: seq<Channel>, tails: set<Channel>)
    | DestroyRest(pooled: seq<Channel>, tails: set<Channel>)
    | DestroyFinishes

  ghost predicate Enumerates(channels: seq<Channel>, keys: set<Channel>) {
    forall ch :: ch in channels <==> ch in keys
  }

  /** When an action can happen. */
  ghost predicate Enabled(s: State, a: Action) {
    match a
    case Listen(operations) => !s.book.isDestroyed && operations >= 1
    case RegistrationStarts(t) => t in s.tasks && s.tasks[t].Registration? && s.tasks[t].phase.Queued? && s.tasks[t].remaining >= 1
    case RegistrationConnected(t, _, _) => t in s.tasks && s.tasks[t].Registration? && s.tasks[t].phase.Creating?
    case RegistrationSubscribed(t, _) => t in s.tasks && s.tasks[t].Registration? && s.tasks[t].phase.Subscribing?
    case RegistrationCleaned(t, _) => t in s.tasks && s.tasks[t].Registration? && s.tasks[t].phase.Cleaning?
    case RegistrationRolledBack(t) => t in s.tasks && s.tasks[t].Registration? && s.tasks[t].phase.RollingBack? && s.tasks[t].phase.awaited !! s.tasks.Keys
    case UserUnlisten(_, _) => true
    case CloseDrained(t) => t in s.tasks && s.tasks[t].Closing? && s.tasks[t].stage.Draining?
    case CloseReleased(t) => t in s.tasks && s.tasks[t].Closing? && s.tasks[t].stage.Releasing?
    case CloseCleared(t) => t in s.tasks && s.tasks[t].Closing? && s.tasks[t].stage.Settled?
    case HealthTick(r) => r < |s.book.store| && s.book.store[r].healthCheckTimer.Some?
    case HealthProbed(t, _, m) => t in s.tasks && s.tasks[t].Health? && s.tasks[t].awaiting.None? && m >= 1
    case HealthResumed(t) => t in s.tasks && s.tasks[t].Health? && s.tasks[t].awaiting.Some? && s.tasks[t].awaiting.value !in s.tasks
    case Deregistered(ch, m) => ch in s.pool && m >= 1
    case OldClosed(t) => t in s.tasks && s.tasks[t].Restore? && s.tasks[t].step.ClosingOld?
    case RestoreConnected(t, _) => t in s.tasks && s.tasks[t].Restore? && s.tasks[t].step.Connecting?
    case Resubscribed(t, _) => t in s.tasks && s.tasks[t].Restore? && s.tasks[t].step.Resubscribing?
    case FailedConnectionClosed(t) => t in s.tasks && s.tasks[t].Restore? && s.tasks[t].step.SubscribeFailed?
    case FailedConnectionClosedAgain(t) => t in s.tasks && s.tasks[t].Restore? && s.tasks[t].step.ClosingAgain?
    case PublishedChecked(t) => t in s.tasks && s.tasks[t].Restore? && s.tasks[t].step.Published?
    case UndoClosed(t) => t in s.tasks && s.tasks[t].Restore? && s.tasks[t].step.Undoing?
    case DelayElapsed(t) => t in s.tasks && s.tasks[t].Restore? && s.tasks[t].step.Delaying?
    case DelayResumed(t) => t in s.tasks && s.tasks[t].Restore? && s.tasks[t].step.Delaying?
                            && s.tasks[t].record < |s.book.store| && s.book.store[s.tasks[t].record].retryDelay != Some(t)
    case Destroy(pooled, restoring, _) =>
      && s.shutdown.Running? && Enumerates(pooled, s.pool.Keys)
      && Enumerates(restoring, set ch | ch in s.book.records && s.book.Mapped(ch) && s.book.At(ch).activeRestore.Some?)
    case DestroyRest(pooled, _) => s.shutdown.UnsubscribingAll? && s.shutdown.awaited !! s.tasks.Keys && Enumerates(pooled, s.pool.Keys)
    case DestroyFinishes => s.shutdown.UnsubscribingRest? && s.shutdown.awaited !! s.tasks.Keys
  }

  ghost function NextRegistration(s: State, a: Action): State
    requires Enabled(s, a) && (a.Listen? || a.RegistrationStarts? || a.RegistrationConnected? || a.RegistrationSubscribed?
                               || a.RegistrationCleaned? || a.RegistrationRolledBack?)
  {
    match a
    case Listen(operations) =>
      SetTask(s.(nextTask := s.nextTask + 1), s.nextTask, Registration(Queued, operations, []))
    case RegistrationStarts(t) =>
      var task := s.tasks[t];
      if s.book.isDestroyed then EndTask(s, t)
      else SetTask(s, t, task.(phase := Creating, remaining := task.remaining - 1))
    case RegistrationConnected(t, ok, tails) =>
      var task := s.tasks[t];
      if !ok then RegistrationFailed(s, t, task.done, tails)
      else
        var s1 := s.(nextConnection := s.nextConnection + 1);
        SetTask(s1, t, task.(phase := if s.book.isDestroyed then Cleaning(s.nextConnection) else Subscribing(s.nextConnection)))
    case RegistrationSubscribed(t, ok) =>
      var task := s.tasks[t];
      var conn := task.phase.connection;
      if !ok || s.book.isDestroyed then SetTask(s, t, task.(phase := Cleaning(conn)))
      else
        var ch := s.nextChannel;
        var s1 := Publish(s.(nextChannel := ch + 1), ch, conn);
        if task.remaining == 0 then EndTask(s1, t)
        else SetTask(s1, t, Registration(Creating, task.remaining - 1, task.done + [ch]))
    case RegistrationCleaned(t, tails) =>
      var task := s.tasks[t];
      RegistrationFailed(s.(closed := s.closed + multiset{task.phase.connection}), t, task.done, tails)
    case RegistrationRolledBack(t) => EndTask(s, t)
  }

  ghost function NextClose(s: State, a: Action): State
    requires Enabled(s, a) && (a.UserUnlisten? || a.CloseDrained? || a.CloseReleased? || a.CloseCleared?)
  {
    match a
    case UserUnlisten(ch, hasTail) => Unlisten(s, ch, hasTail)
    case CloseDrained(t) =>
      var ch := s.tasks[t].channel;
      SetTask(PerformClose(s, ch, true), t, Closing(ch, ClosePhaseFor(TakeFromPool(s, ch))))
    case CloseReleased(t) =>
      SetTask(s.(closed := s.closed + multiset{s.tasks[t].stage.connection}), t, Closing(s.tasks[t].channel, Settled))
    case CloseCleared(t) =>
      var ch := s.tasks[t].channel;
      EndTask(s, t).(closes := if ch in s.closes && s.closes[ch] == t then s.closes - {ch} else s.closes)
  }

  /** The finally block of checkConnection. */
  function EndHealth(s: State, t: TaskId, task: Task): State
    requires task.Health?
  {
    var s1 := EndTask(s, t);
    if task.record >= |s.book.store| then s1
    else s1.(book := s.book.Put(task.record, s.book.store[task.record].(isHealthCheckInProgress := false))
                           .DeleteIfIdle(task.channel, task.record))
  }

  ghost function NextHealth(s: State, a: Action): State
    requires Enabled(s, a) && (a.HealthTick? || a.HealthProbed? || a.HealthResumed? || a.Deregistered?)
  {
    match a
    case HealthTick(r) =>
      var Timer(ch, conn) := s.book.store[r].healthCheckTimer.value;
      if s.book.isDestroyed || ch !in s.pool || s.pool[ch] != conn || (s.book.Mapped(ch) && s.book.At(ch).isHealthCheckInProgress) then s
      else
        var b := s.book.GetOrCreate(ch);
        SetTask(s.(book := b.Put(b.records[ch], b.At(ch).(isHealthCheckInProgress := true)), nextTask := s.nextTask + 1),
                s.nextTask, Health(ch, conn, b.records[ch], None))
    case HealthProbed(t, healthy, maxRetries) =>
      var task := s.tasks[t];
      if healthy || task.channel !in s.pool || s.pool[task.channel] != task.connection then EndHealth(s, t, task)
      else
        var (s1, joined) := StartRestore(s, task.channel, maxRetries);
        if joined.None? then EndHealth(s1, t, task) else SetTask(s1, t, task.(awaiting := joined))
    case HealthResumed(t) => EndHealth(s, t, s.tasks[t])
    case Deregistered(ch, maxRetries) => StartRestore(s, ch, maxRetries).0
  }

  ghost function NextRestore(s: State, a: Action): State
    requires Enabled(s, a) && (a.OldClosed? || a.RestoreConnected? || a.Resubscribed? || a.FailedConnectionClosed?
                               || a.FailedConnectionClosedAgain? || a.PublishedChecked? || a.UndoClosed? || a.DelayElapsed? || a.DelayResumed?)
  {
    var t := a.task;
    var task := s.tasks[t];
    var ch := task.channel;
    match a
    case OldClosed(_) =>
      var s1 := s.(closed := s.closed + multiset(OptionSet(task.step.replaced)));
      if s.book.IsCancelled(ch) then EndRestore(s1, t, task) else SetTask(s1, t, task.(step := Connecting))
    case RestoreConnected(_, ok) =>
      if !ok then AttemptFailed(s.(book := s.book.StopHealthCheck(ch)), t, task)
      else SetTask(s.(nextConnection := s.nextConnection + 1), t,
                   task.(step := if s.book.isDestroyed then SubscribeFailed(s.nextConnection) else Resubscribing(s.nextConnection)))
    case Resubscribed(_, ok) =>
      var conn := task.step.connection;
      if !ok || s.book.isDestroyed then SetTask(s, t, task.(step := SubscribeFailed(conn)))
      else SetTask(Publish(s, ch, conn), t, task.(step := Published(conn)))
    case FailedConnectionClosed(_) =>
      SetTask(s.(closed := s.closed + multiset{task.step.connection}, book := s.book.StopHealthCheck(ch)), t,
              task.(step := ClosingAgain(task.step.connection)))
    case FailedConnectionClosedAgain(_) => AttemptFailed(s.(closed := s.closed + multiset{task.step.connection}), t, task)
    case PublishedChecked(_) =>
      if !s.book.IsCancelled(ch) then EndRestore(s, t, task)
      else
        var s1 := s.(book := s.book.StopHealthCheck(ch));
        SetTask(PerformClose(s1, ch, false), t, task.(step := Undoing(TakeFromPool(s1, ch))))
    case UndoClosed(_) => EndRestore(s.(closed := s.closed + multiset(OptionSet(task.step.undone))), t, task)
    case DelayElapsed(_) =>
      if task.record < |s.book.store| && s.book.store[task.record].retryDelay == Some(t)
      then s.(book := s.book.CompleteDelay(ch, task.record)) else s
    case DelayResumed(_) =>
      if s.book.IsCancelled(ch) then EndRestore(s, t, task)
      else BeginAttempt(s, t, task.(retry := if task.step.long then 1 else task.retry + 1))
  }

  ghost function NextDestroy(s: State, a: Action): State
    requires Enabled(s, a) && (a.Destroy? || a.DestroyRest? || a.DestroyFinishes?)
  {
    match a
    case Destroy(pooled, restoring, tails) =>
      var b := CancelAll(s.book.BeginDestroy().StopAllHealthChecks(), pooled + restoring);
      var s1 := UnlistenAll(s.(book := b, shutdown := UnsubscribingAll({})), pooled, tails);
      s1.(shutdown := UnsubscribingAll(Awaited(s1, pooled)))
    case DestroyRest(pooled, tails) =>
      var s1 := UnlistenAll(s.(book := CancelAll(s.book, pooled)), pooled, tails);
      s1.(shutdown := UnsubscribingRest(Awaited(s1, pooled)))
    case DestroyFinishes =>
      s.(pool := map[], book := s.book.(records := map[]), shutdown := Finished)
  }

  ghost function Next(s: State, a: Action): State
    requires Enabled(s, a)
  {
    if a.Destroy? || a.DestroyRest? || a.DestroyFinishes? then NextDestroy(s, a)
    else if a.UserUnlisten? || a.CloseDrained? || a.CloseReleased? || a.CloseCleared? then NextClose(s, a)
    else if a.HealthTick? || a.HealthProbed? || a.HealthResumed? || a.Deregistered? then NextHealth(s, a)
    else if a.Listen? || a.RegistrationStarts? || a.RegistrationConnected? || a.RegistrationSubscribed?
            || a.RegistrationCleaned? || a.RegistrationRolledBack? then NextRegistration(s, a)
    else NextRestore(s, a)
  }
}
