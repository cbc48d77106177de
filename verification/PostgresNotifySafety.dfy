/** What every run of the PostgreSQL listener protocol keeps. */
module PostgresNotifySafety {
  import opened PostgresNotifyProtocol

  /** A registration that has passed its duplicate check and not yet ended. */
  ghost predicate Active(s: State, t: TaskId, ch: Channel) {
    t in s.tasks && s.tasks[t].Registration? && s.tasks[t].channel == ch && !s.tasks[t].phase.Queued?
  }

  ghost predicate Ids(s: State) {
    && (forall t :: t in s.tasks ==> t < s.nextTask)
    && (forall ch :: ch in s.closes ==> s.closes[ch] in s.tasks && s.tasks[s.closes[ch]].Closing? && s.tasks[s.closes[ch]].channel == ch)
    && (forall t :: t in s.tasks && s.tasks[t].Closing? ==> s.tasks[t].channel in s.closes && s.closes[s.tasks[t].channel] == t)
  }

  /** The pending set lets one registration work on a channel, and only while the channel is not pooled. */
  ghost predicate Exclusive(s: State) {
    && (forall t, ch :: Active(s, t, ch) ==> ch in s.pending && ch !in s.pool)
    && (forall t, u, ch :: Active(s, t, ch) && Active(s, u, ch) ==> t == u)
  }

  ghost predicate Held(s: State, c: Connection) {
    exists t :: t in s.tasks && c in Owned(s.tasks[t])
  }

  ghost predicate Pooled(s: State, c: Connection) {
    exists ch :: ch in s.pool && s.pool[ch] == c
  }

  /** Every connection ever created is pooled, owned by an operation in flight, or closed. */
  ghost predicate Accounted(s: State) {
    forall c :: 0 <= c < s.nextConnection ==> c in s.closed || Pooled(s, c) || Held(s, c)
  }

  /** Registration `t` is responsible for connection `c`. */
  ghost predicate Registers(s: State, t: TaskId, c: Connection) {
    t in s.tasks && s.tasks[t].Registration? && c in Owned(s.tasks[t])
  }

  /** A connection that is being registered belongs to one registration, and is not pooled yet. */
  ghost predicate Unshared(s: State) {
    && (forall ch :: ch in s.pool ==> s.pool[ch] < s.nextConnection)
    && (forall ch, k :: ch in s.pool && k in s.pool && s.pool[ch] == s.pool[k] ==> ch == k)
    && (forall t: TaskId, c: Connection :: Registers(s, t, c) ==> c < s.nextConnection && !Pooled(s, c))
    && (forall t: TaskId, u: TaskId, c: Connection :: Registers(s, t, c) && Registers(s, u, c) ==> t == u)
  }

  /** See ShutdownInv of the Oracle protocol: stage one waits for the closes it found or started. */
  ghost predicate Drains(s: State, ch: Channel) {
    ch in s.closes && s.closes[ch] in s.tasks && s.tasks[s.closes[ch]].Closing? && s.tasks[s.closes[ch]].stage.Draining?
  }

  ghost predicate ShutdownInv(s: State) {
    match s.shutdown
    case Running => true
    case UnsubscribingAll(awaited) => forall ch :: ch in s.pool && ch in s.closes ==> s.closes[ch] in awaited || Drains(s, ch)
    case UnsubscribingRest(awaited) => forall ch :: ch in s.pool ==> Drains(s, ch) && s.closes[ch] in awaited
    case Finished => s.pool == map[]
  }

  ghost predicate Core(s: State) {
    Ids(s) && Exclusive(s) && Accounted(s) && Unshared(s)
  }

  ghost predicate Inv(s: State) {
    Core(s) && ShutdownInv(s)
  }

  /** Responsibility for connection `c` stays, or moves between task `t`, the pool entry of `ch` and the closed set. */
  lemma Keeps(s: State, s': State, ch: Channel, t: TaskId, c: Connection)
    requires c in s.closed || Pooled(s, c) || Held(s, c)
    requires s.closed <= s'.closed
    requires forall u :: u != t && u in s.tasks ==> u in s'.tasks && s'.tasks[u] == s.tasks[u]
    requires forall k :: k != ch && k in s.pool ==> k in s'.pool && s'.pool[k] == s.pool[k]
    requires t in s.tasks && c in Owned(s.tasks[t]) ==>
               c in s'.closed || (t in s'.tasks && c in Owned(s'.tasks[t])) || (ch in s'.pool && s'.pool[ch] == c)
    requires ch in s.pool && s.pool[ch] == c ==>
               (ch in s'.pool && s'.pool[ch] == c) || (t in s'.tasks && c in Owned(s'.tasks[t]))
    ensures c in s'.closed || Pooled(s', c) || Held(s', c)
  {
    if Pooled(s, c) {
      var k :| k in s.pool && s.pool[k] == c;
      assert (k in s'.pool && s'.pool[k] == c) || (t in s'.tasks && c in Owned(s'.tasks[t]));
    } else if Held(s, c) {
      var u :| u in s.tasks && c in Owned(s.tasks[u]);
      assert c in s'.closed || (u in s'.tasks && c in Owned(s'.tasks[u])) || (ch in s'.pool && s'.pool[ch] == c);
    }
  }

  // ---------------------------------------------------------------- closing

  lemma CloseKeepsIds(s: State, ch: Channel, hasTail: bool)
    requires Ids(s)
    ensures Ids(Close(s, ch, hasTail))
  {}

  /** A step of the close operations: registrations are untouched and the pool does not grow. */
  ghost predicate ClosesOnly(s: State, s': State) {
    && s'.pending == s.pending && s'.nextConnection == s.nextConnection
    && (forall t, ch :: Active(s', t, ch) ==> Active(s, t, ch))
    && (forall t: TaskId, c: Connection :: Registers(s', t, c) ==> Registers(s, t, c))
    && (forall ch :: ch in s'.pool ==> ch in s.pool && s'.pool[ch] == s.pool[ch])
  }

  lemma ClosesOnlyKeeps(s: State, s': State)
    requires Exclusive(s) && Unshared(s) && ClosesOnly(s, s')
    ensures Exclusive(s') && Unshared(s')
  {
    forall t: TaskId, c: Connection | Registers(s', t, c) ensures !Pooled(s', c) { assert Registers(s, t, c); }
  }

  lemma CloseOnlyCloses(s: State, ch: Channel, hasTail: bool)
    requires Ids(s)
    ensures ClosesOnly(s, Close(s, ch, hasTail))
  {}

  lemma CloseKeepsAccounted(s: State, ch: Channel, hasTail: bool)
    requires Ids(s) && Accounted(s)
    ensures Accounted(Close(s, ch, hasTail))
  {
    var s' := Close(s, ch, hasTail);
    forall c | 0 <= c < s'.nextConnection ensures c in s'.closed || Pooled(s', c) || Held(s', c) {
      Keeps(s, s', ch, s.nextTask, c);
    }
  }

  /** Channels that stay pooled keep their closes; a new close of one has yet to take its connection. */
  ghost predicate Shrinks(s: State, s': State) {
    && s'.shutdown == s.shutdown
    && (forall ch :: ch in s'.pool ==> ch in s.pool && s'.pool[ch] == s.pool[ch])
    && (forall ch :: ch in s'.pool && ch in s'.closes ==> (ch in s.closes && s'.closes[ch] == s.closes[ch]) || (ch !in s.closes && Drains(s', ch)))
    && (forall ch :: ch in s'.pool && Drains(s, ch) ==> Drains(s', ch))
  }

  lemma ShrinkingKeepsShutdownInv(s: State, s': State)
    requires ShutdownInv(s) && Shrinks(s, s')
    ensures ShutdownInv(s')
  {}

  lemma CloseShrinks(s: State, ch: Channel, hasTail: bool)
    requires Ids(s)
    ensures Shrinks(s, Close(s, ch, hasTail))
    ensures ch in Close(s, ch, hasTail).closes
    ensures forall c :: c in s.closes ==> c in Close(s, ch, hasTail).closes
  {}

  lemma CloseKeepsCore(s: State, ch: Channel, hasTail: bool)
    requires Core(s)
    ensures Core(Close(s, ch, hasTail))
  {
    hide Accounted, Unshared, Exclusive, Ids, Close;
    CloseKeepsIds(s, ch, hasTail);
    CloseOnlyCloses(s, ch, hasTail);
    ClosesOnlyKeeps(s, Close(s, ch, hasTail));
    CloseKeepsAccounted(s, ch, hasTail);
  }

  lemma {:induction false} CloseAllKeepsCore(s: State, channels: seq<Channel>, tails: set<Channel>)
    requires Core(s)
    ensures var s' := CloseAll(s, channels, tails);
            Core(s') && Shrinks(s, s') && (forall ch :: ch in channels || ch in s.closes ==> ch in s'.closes)
    decreases |channels|
  {
    hide Core, Close;
    if channels != [] {
      var s1 := Close(s, channels[0], channels[0] in tails);
      CloseKeepsCore(s, channels[0], channels[0] in tails);
      CoreHasIds(s);
      CloseShrinks(s, channels[0], channels[0] in tails);
      CloseAllKeepsCore(s1, channels[1..], tails);
    }
  }

  lemma CoreHasIds(s: State)
    requires Core(s)
    ensures Ids(s)
  {}

  lemma CloseStepKeepsInv(s: State, a: Action)
    requires Inv(s) && Enabled(s, a) && (a.CloseDrained? || a.CloseReleased? || a.CloseCleared?)
    ensures Inv(Next(s, a))
  {
    hide Accounted, Unshared, Exclusive;
    var t, ch := a.task, s.tasks[a.task].channel;
    var s' := Next(s, a);
    assert ClosesOnly(s, s');
    ClosesOnlyKeeps(s, s');
    CloseStepKeepsAccounted(s, a);
    assert Ids(s');
  }

  lemma CloseStepKeepsAccounted(s: State, a: Action)
    requires Ids(s) && Accounted(s) && Enabled(s, a) && (a.CloseDrained? || a.CloseReleased? || a.CloseCleared?)
    ensures Accounted(Next(s, a))
  {
    var s' := Next(s, a);
    forall c | 0 <= c < s'.nextConnection ensures c in s'.closed || Pooled(s', c) || Held(s', c) {
      Keeps(s, s', s.tasks[a.task].channel, a.task, c);
    }
  }

  // ---------------------------------------------------------------- registering

  lemma RegistrationKeepsIds(s: State, a: Action)
    requires Ids(s) && Enabled(s, a) && (a.Listen? || a.RegistrationStarts? || a.Connected? || a.Listened? || a.Cleaned?)
    ensures Ids(Next(s, a))
  {}

  lemma RegistrationKeepsExclusive(s: State, a: Action)
    requires Ids(s) && Exclusive(s) && Enabled(s, a) && (a.Listen? || a.RegistrationStarts? || a.Connected? || a.Listened? || a.Cleaned?)
    ensures Exclusive(Next(s, a))
  {
    var s' := Next(s, a);
    var t := if a.Listen? then s.nextTask else a.task;
    assert forall u, ch :: u != t ==> Active(s', u, ch) == Active(s, u, ch);
    if !a.Listen? && !a.RegistrationStarts? { assert Active(s, t, s.tasks[t].channel); }
  }

  lemma RegistrationKeepsAccounted(s: State, a: Action)
    requires Ids(s) && Exclusive(s) && Accounted(s) && Enabled(s, a) && (a.Listen? || a.RegistrationStarts? || a.Connected? || a.Listened? || a.Cleaned?)
    ensures Accounted(Next(s, a))
  {
    var s' := Next(s, a);
    var t := if a.Listen? then s.nextTask else a.task;
    var ch := if a.Listen? then 0 else s.tasks[t].channel;
    if a.Listened? { assert Active(s, t, ch); }
    forall c | 0 <= c < s'.nextConnection ensures c in s'.closed || Pooled(s', c) || Held(s', c) {
      if c < s.nextConnection { Keeps(s, s', ch, t, c); }
      else { assert c in Owned(s'.tasks[t]); }
    }
  }

  lemma RegistrationKeepsUnshared(s: State, a: Action)
    requires Ids(s) && Unshared(s) && Enabled(s, a) && (a.Listen? || a.RegistrationStarts? || a.Connected? || a.Listened? || a.Cleaned?)
    ensures Unshared(Next(s, a))
  {
    var s' := Next(s, a);
    var t := if a.Listen? then s.nextTask else a.task;
    assert forall u, c :: u != t ==> Registers(s', u, c) == Registers(s, u, c);
    if a.Listened? { assert Registers(s, t, s.tasks[t].phase.connection); }
    forall u: TaskId, c: Connection | Registers(s', u, c) ensures c < s'.nextConnection && !Pooled(s', c) {
      if c < s.nextConnection { assert Registers(s, u, c); }
    }
  }

  lemma RegistrationKeepsShutdownInv(s: State, a: Action)
    requires Ids(s) && ShutdownInv(s) && Enabled(s, a) && (a.Listen? || a.RegistrationStarts? || a.Connected? || a.Listened? || a.Cleaned?)
    ensures ShutdownInv(Next(s, a))
  {
    if s.IsDestroyed() { assert Shrinks(s, Next(s, a)); }
  }

  // ---------------------------------------------------------------- shutdown

  /** `destroy` never forgets a connection: its pool is already empty when it clears it. */
  lemma ClearedPoolIsEmpty(s: State)
    requires Inv(s) && Enabled(s, DestroyFinishes)
    ensures s.pool == map[]
  {
    assert forall ch :: ch !in s.pool;
  }

  lemma ShutdownStageKeeps(s: State, stage: Shutdown)
    requires Ids(s) && Exclusive(s) && Accounted(s) && Unshared(s)
    ensures var s' := s.(shutdown := stage); Ids(s') && Exclusive(s') && Accounted(s') && Unshared(s')
  {
    var s' := s.(shutdown := stage);
    assert ClosesOnly(s, s');
    ClosesOnlyKeeps(s, s');
    forall c | 0 <= c < s.nextConnection ensures c in s'.closed || Pooled(s', c) || Held(s', c) {
      Keeps(s, s', 0, s.nextTask, c);
    }
  }

  lemma DestroyKeepsInv(s: State, a: Action)
    requires Inv(s) && Enabled(s, a) && (a.Destroy? || a.DestroyRest? || a.DestroyFinishes?)
    ensures Inv(Next(s, a))
  {
    hide Ids, Exclusive, Accounted, Unshared, CloseAll;
    if a.DestroyFinishes? {
      ClearedPoolIsEmpty(s);
      ShutdownStageKeeps(s, Finished);
      assert Next(s, a) == s.(shutdown := Finished);
    } else {
      var s0 := if a.Destroy? then s.(shutdown := UnsubscribingAll({})) else s;
      ShutdownStageKeeps(s, s0.shutdown);
      assert s.(shutdown := s0.shutdown) == s0;
      CloseAllKeepsCore(s0, a.pooled, a.tails);
      var s1 := CloseAll(s0, a.pooled, a.tails);
      ShutdownStageKeeps(s1, Next(s, a).shutdown);
      CoreHasIds(s1);
      if a.DestroyRest? {
        CoreHasIds(s);
        RestBegins(s, s1, a.pooled);
      }
    }
  }

  /** Stage two begins with a close under way, or just started, for every channel still pooled. */
  lemma RestBegins(s: State, s1: State, pooled: seq<Channel>)
    requires Ids(s) && Ids(s1) && ShutdownInv(s) && s.shutdown.UnsubscribingAll? && s.shutdown.awaited !! s.tasks.Keys
    requires Shrinks(s, s1) && Enumerates(pooled, s.pool.Keys) && forall ch :: ch in pooled ==> ch in s1.closes
    ensures ShutdownInv(s1.(shutdown := UnsubscribingRest(Awaited(s1, pooled))))
  {
    var s2 := s1.(shutdown := UnsubscribingRest(Awaited(s1, pooled)));
    forall ch | ch in s2.pool ensures Drains(s2, ch) && s2.closes[ch] in s2.shutdown.awaited {
      assert ch in pooled && ch in s1.closes;
      if ch in s.closes { assert Drains(s, ch); }
      assert Drains(s1, ch);
    }
  }

  lemma StepKeepsInv(s: State, a: Action)
    requires Inv(s) && Enabled(s, a)
    ensures Inv(Next(s, a))
  {
    hide Ids, Exclusive, Accounted, Unshared, ShutdownInv, Close, CloseAll;
    if a.Destroy? || a.DestroyRest? || a.DestroyFinishes? {
      DestroyKeepsInv(s, a);
    } else if a.CloseListener? {
      CloseKeepsCore(s, a.channel, a.hasTail);
      CloseShrinks(s, a.channel, a.hasTail);
      ShrinkingKeepsShutdownInv(s, Next(s, a));
    } else if a.CloseDrained? || a.CloseReleased? || a.CloseCleared? {
      CloseStepKeepsInv(s, a);
    } else {
      RegistrationKeepsIds(s, a);
      RegistrationKeepsExclusive(s, a);
      RegistrationKeepsAccounted(s, a);
      RegistrationKeepsUnshared(s, a);
      RegistrationKeepsShutdownInv(s, a);
    }
  }
}
