/**
 The PostgreSQL listeners as a state machine. Channel names are chosen by the
 caller and can be listened to again, so the pending set and the close map do
 the work that fresh names do for Oracle.

 Restore workflows appear as their effects: at any time one may close its
 channel or listen to it again. What their records say is left to the
 environment, so every theorem holds whichever of them are cancelled.
 */
module PostgresNotifyProtocol {

  type Channel = nat
  type Connection = nat
  type TaskId = nat

  datatype ListenPhase = Queued | Connecting | Listening(connection: Connection) | Cleaning(connection: Connection)
  datatype ClosePhase = Draining | Releasing(connection: Connection) | Settled

  datatype Task =
    | Registration(channel: Channel, phase: ListenPhase)
    | Closing(channel: Channel, stage: ClosePhase)

  datatype Shutdown = Running | UnsubscribingAll(awaited: set<TaskId>) | UnsubscribingRest(awaited: set<TaskId>) | Finished

  datatype State = State(
    pool: map<Channel, Connection>,
    pending: set<Channel>,
    closes: map<Channel, TaskId>,
    tasks: map<TaskId, Task>,
    shutdown: Shutdown,
    closed: set<Connection>,
    nextTask: nat,
    nextConnection: nat)
  {
    predicate IsDestroyed() { !shutdown.Running? }
  }

  const INITIAL := State(map[], {}, map[], map[], Running, {}, 0, 0)

  function Owned(task: Task): set<Connection> {
    match task
    case Registration(_, Listening(conn)) => {conn}
    case Registration(_, Cleaning(conn)) => {conn}
    case Closing(_, Releasing(conn)) => {conn}
    case _ => {}
  }

  function SetTask(s: State, t: TaskId, task: Task): State {
    s.(tasks := s.tasks[t := task])
  }

  /** A registration's finally block: its channel is no longer pending. */
  function EndRegistration(s: State, t: TaskId, ch: Channel): State {
    s.(tasks := s.tasks - {t}, pending := s.pending - {ch})
  }

  /** performCloseListenerConnection up to its first await. */
  function PerformClose(s: State, t: TaskId, ch: Channel): State {
    SetTask(s.(pool := s.pool - {ch}), t, Closing(ch, if ch in s.pool then Releasing(s.pool[ch]) else Settled))
  }

  /** closeListenerConnection, called by unlisten, by a restore workflow or by shutdown. */
  function Close(s: State, ch: Channel, hasTail: bool): State {
    if ch in s.closes then s
    else
      var t := s.nextTask;
      var s1 := s.(closes := s.closes[ch := t], nextTask := t + 1);
      if hasTail then SetTask(s1, t, Closing(ch, Draining)) else PerformClose(s1, t, ch)
  }

  function CloseAll(s: State, channels: seq<Channel>, tails: set<Channel>): State
    decreases |channels|
  {
    if channels == [] then s else CloseAll(Close(s, channels[0], channels[0] in tails), channels[1..], tails)
  }

  function Awaited(s: State, channels: seq<Channel>): set<TaskId> {
    set ch | ch in channels && ch in s.closes :: s.closes[ch]
  }

  datatype Action =
    | Listen(channel: Channel)
    | RegistrationStarts(task: TaskId)
    | Connected(task: TaskId, ok: bool)
    | Listened(task: TaskId, ok: bool)
    | Cleaned(task: TaskId)
    | CloseListener(channel: Channel, hasTail: bool)
    | CloseDrained(task: TaskId)
    | CloseReleased(task: TaskId)
    | CloseCleared(task: TaskId)
    | Destroy(pooled: seq<Channel>, tails: set<Channel>)
    | DestroyRest(pooled: seq<Channel>, tails: set<Channel>)
    | DestroyFinishes

  ghost predicate Enumerates(channels: seq<Channel>, keys: set<Channel>) {
    forall ch :: ch in channels <==> ch in keys
  }

  ghost predicate Enabled(s: State, a: Action) {
    match a
    case Listen(ch) => !s.IsDestroyed() && ch !in s.pool && ch !in s.pending
    case RegistrationStarts(t) => t in s.tasks && s.tasks[t].Registration? && s.tasks[t].phase.Queued?
    case Connected(t, _) => t in s.tasks && s.tasks[t].Registration? && s.tasks[t].phase.Connecting?
    case Listened(t, _) => t in s.tasks && s.tasks[t].Registration? && s.tasks[t].phase.Listening?
    case Cleaned(t) => t in s.tasks && s.tasks[t].Registration? && s.tasks[t].phase.Cleaning?
    case CloseListener(_, _) => true
    case CloseDrained(t) => t in s.tasks && s.tasks[t].Closing? && s.tasks[t].stage.Draining?
    case CloseReleased(t) => t in s.tasks && s.tasks[t].Closing? && s.tasks[t].stage.Releasing?
    case CloseCleared(t) => t in s.tasks && s.tasks[t].Closing? && s.tasks[t].stage.Settled?
    case Destroy(pooled, _) => s.shutdown.Running? && Enumerates(pooled, s.pool.Keys)
    case DestroyRest(pooled, _) => s.shutdown.UnsubscribingAll? && s.shutdown.awaited !! s.tasks.Keys && Enumerates(pooled, s.pool.Keys)
    case DestroyFinishes => s.shutdown.UnsubscribingRest? && s.shutdown.awaited !! s.tasks.Keys
  }

  ghost function Next(s: State, a: Action): State
    requires Enabled(s, a)
  {
    match a
    case Listen(ch) => SetTask(s.(nextTask := s.nextTask + 1), s.nextTask, Registration(ch, Queued))
    case RegistrationStarts(t) =>
      var ch := s.tasks[t].channel;
      if s.IsDestroyed() || ch in s.pool || ch in s.pending then s.(tasks := s.tasks - {t})
      else SetTask(s.(pending := s.pending + {ch}), t, Registration(ch, Connecting))
    case Connected(t, ok) =>
      var ch := s.tasks[t].channel;
      if !ok then EndRegistration(s, t, ch)
      else SetTask(s.(nextConnection := s.nextConnection + 1), t,
                   Registration(ch, if s.IsDestroyed() then Cleaning(s.nextConnection) else Listening(s.nextConnection)))
    case Listened(t, ok) =>
      var Registration(ch, Listening(conn)) := s.tasks[t];
      if !ok || s.IsDestroyed() then SetTask(s, t, Registration(ch, Cleaning(conn)))
      else EndRegistration(s.(pool := s.pool[ch := conn]), t, ch)
    case Cleaned(t) =>
      EndRegistration(s.(closed := s.closed + {s.tasks[t].phase.connection}), t, s.tasks[t].channel)
    case CloseListener(ch, hasTail) => Close(s, ch, hasTail)
    case CloseDrained(t) => PerformClose(s, t, s.tasks[t].channel)
    case CloseReleased(t) =>
      SetTask(s.(closed := s.closed + {s.tasks[t].stage.connection}), t, Closing(s.tasks[t].channel, Settled))
    case CloseCleared(t) =>
      var ch := s.tasks[t].channel;
      s.(tasks := s.tasks - {t}, closes := if ch in s.closes && s.closes[ch] == t then s.closes - {ch} else s.closes)
    case Destroy(pooled, tails) =>
      var s1 := CloseAll(s.(shutdown := UnsubscribingAll({})), pooled, tails);
      s1.(shutdown := UnsubscribingAll(Awaited(s1, pooled)))
    case DestroyRest(pooled, tails) =>
      var s1 := CloseAll(s, pooled, tails);
      s1.(shutdown := UnsubscribingRest(Awaited(s1, pooled)))
    case DestroyFinishes => s.(pool := map[], shutdown := Finished)
  }
}
