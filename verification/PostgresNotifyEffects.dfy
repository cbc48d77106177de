/**
 What the steps of the PostgreSQL listener protocol achieve: which of them
 change the pool and how, and how registrations and closes get on.
 */
module PostgresNotifyEffects {
  import opened PostgresNotifyProtocol
  import opened PostgresNotifySafety
  import opened PostgresNotifyRuns

  /** The channels whose connection closing takes at once: no close has begun and no callback is queued. */
  function TakenNow(s: State, channels: seq<Channel>, tails: set<Channel>): set<Channel> {
    set ch | ch in channels && ch !in s.closes && ch !in tails
  }

  lemma CloseTakes(s: State, ch: Channel, hasTail: bool)
    ensures var s' := Close(s, ch, hasTail);
            && s'.pool == (if ch in s.closes || hasTail then s.pool else s.pool - {ch})
            && s'.closed == s.closed
            && (forall c :: c in s'.closes <==> c in s.closes || c == ch)
  {}

  lemma {:induction false} CloseAllTakes(s: State, channels: seq<Channel>, tails: set<Channel>)
    ensures CloseAll(s, channels, tails).pool == s.pool - TakenNow(s, channels, tails)
    ensures CloseAll(s, channels, tails).closed == s.closed
    decreases |channels|
  {
    if channels != [] {
      hide Close;
      var s1 := Close(s, channels[0], channels[0] in tails);
      CloseTakes(s, channels[0], channels[0] in tails);
      CloseAllTakes(s1, channels[1..], tails);
      TakenStep(s, s1, channels, tails);
    }
  }

  lemma TakenStep(s: State, s1: State, channels: seq<Channel>, tails: set<Channel>)
    requires channels != [] && forall c :: c in s1.closes <==> c in s.closes || c == channels[0]
    ensures TakenNow(s, channels, tails) ==
            TakenNow(s1, channels[1..], tails) + if channels[0] in s.closes || channels[0] in tails then {} else {channels[0]}
  {
    assert channels == [channels[0]] + channels[1..];
  }

  ghost function Taken(s: State, a: Action): set<Channel>
    requires Enabled(s, a)
  {
    match a
    case CloseListener(ch, hasTail) => TakenNow(s, [ch], if hasTail then {ch} else {})
    case CloseDrained(t) => {s.tasks[t].channel}
    case Destroy(pooled, tails) => TakenNow(s, pooled, tails)
    case DestroyRest(pooled, tails) => TakenNow(s, pooled, tails)
    case DestroyFinishes => s.pool.Keys
    case _ => {}
  }

  ghost function Added(s: State, a: Action): map<Channel, Connection>
    requires Enabled(s, a)
  {
    match a
    case Listened(t, ok) => if ok && !s.IsDestroyed() then map[s.tasks[t].channel := s.tasks[t].phase.connection] else map[]
    case _ => map[]
  }

  /** Connections that a step reports as closed. */
  ghost function Closed(s: State, a: Action): set<Connection>
    requires Enabled(s, a)
  {
    match a
    case Cleaned(t) => {s.tasks[t].phase.connection}
    case CloseReleased(t) => {s.tasks[t].stage.connection}
    case _ => {}
  }

  /** Every step takes from the pool, adds to it and closes exactly what it is meant to. */
  lemma PoolChangesExactly(s: State, a: Action)
    requires Enabled(s, a)
    ensures Next(s, a).pool == (s.pool - Taken(s, a)) + Added(s, a)
    ensures Next(s, a).closed == s.closed + Closed(s, a)
  {
    hide Close;
    if a.Destroy? { CloseAllTakes(s.(shutdown := UnsubscribingAll({})), a.pooled, a.tails); }
    if a.DestroyRest? { CloseAllTakes(s, a.pooled, a.tails); }
    if a.CloseListener? { CloseTakes(s, a.channel, a.hasTail); }
  }

  /**
   Each answer moves a registration on: it connects, listens and enters the
   pool; a connection that cannot listen is cleaned up, and an ended
   registration leaves its channel free for another.
   */
  lemma RegistrationGetsOn(s: State, a: Action)
    requires Inv(s) && Enabled(s, a) && !s.IsDestroyed()
    requires a.Listen? || a.RegistrationStarts? || a.Connected? || a.Listened? || a.Cleaned?
    ensures var s' := Next(s, a);
            match a
            case Listen(ch) => s.nextTask in s'.tasks && s'.tasks[s.nextTask] == Registration(ch, Queued)
            case RegistrationStarts(t) =>
              var ch := s.tasks[t].channel;
              if ch in s.pool || ch in s.pending then t !in s'.tasks && s'.pending == s.pending
              else t in s'.tasks && s'.tasks[t] == Registration(ch, Connecting) && ch in s'.pending
            case Connected(t, ok) =>
              var ch := s.tasks[t].channel;
              if ok then t in s'.tasks && s'.tasks[t] == Registration(ch, Listening(s.nextConnection)) && s'.nextConnection == s.nextConnection + 1
              else t !in s'.tasks && ch !in s'.pending
            case Listened(t, ok) =>
              var ch, conn := s.tasks[t].channel, s.tasks[t].phase.connection;
              if ok then t !in s'.tasks && ch !in s'.pending && ch in s'.pool && s'.pool[ch] == conn
              else t in s'.tasks && s'.tasks[t] == Registration(ch, Cleaning(conn))
            case Cleaned(t) => t !in s'.tasks && s.tasks[t].channel !in s'.pending
  {}

  /** A close that has drained takes the connection; one that is over lets the channel be closed anew. */
  lemma CloseGetsOn(s: State, a: Action)
    requires Inv(s) && Enabled(s, a) && (a.CloseListener? || a.CloseDrained? || a.CloseReleased? || a.CloseCleared?)
    ensures var s' := Next(s, a);
            match a
            case CloseListener(ch, hasTail) =>
              && ch in s'.closes && s'.closes[ch] in s'.tasks && s'.tasks[s'.closes[ch]].Closing?
              && (ch !in s.closes ==>
                    s'.tasks[s'.closes[ch]].stage == (if hasTail then Draining else if ch in s.pool then Releasing(s.pool[ch]) else Settled))
            case CloseDrained(t) =>
              var ch := s.tasks[t].channel;
              t in s'.tasks && s'.tasks[t] == Closing(ch, if ch in s.pool then Releasing(s.pool[ch]) else Settled)
            case CloseReleased(t) => t in s'.tasks && s'.tasks[t] == Closing(s.tasks[t].channel, Settled)
            case CloseCleared(t) => t !in s'.tasks && s.tasks[t].channel !in s'.closes
  {
    hide Accounted, Unshared;
  }
}
