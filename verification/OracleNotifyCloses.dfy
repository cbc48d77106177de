/**
 How often the Oracle notification protocol closes a connection. A failed
 subscription closes its connection, and a restore attempt that it belongs to
 closes the same connection once more.
 */
module OracleNotifyCloses {
  import opened Options
  import opened RestoreRecords
  import opened OracleNotifyProtocol
  import opened OracleNotifySafety
  import opened OracleNotifyTheorems
  import opened OracleNotifyRuns

  /** A restore attempt whose subscribe on the connection has failed: closed by subscribe, then again by the attempt. */
  ghost predicate Failing(task: Task, c: Connection) {
    task.Restore? && (task.step == SubscribeFailed(c) || task.step == ClosingAgain(c))
  }

  ghost predicate ClosesAgain(task: Task, c: Connection) {
    task.Restore? && task.step == ClosingAgain(c)
  }

  /** The task will close the connection, unless it publishes it. */
  ghost predicate Holds(task: Task, c: Connection) {
    c in Owned(task) || ClosesAgain(task, c)
  }

  /** A pooled connection was not closed, and is pooled once. */
  ghost predicate SoleInPool(s: State) {
    && (forall ch :: ch in s.pool ==> s.pool[ch] < s.nextConnection && s.closed[s.pool[ch]] == 0)
    && (forall ch, d :: ch in s.pool && d in s.pool && s.pool[ch] == s.pool[d] ==> ch == d)
  }

  /** A held connection was not closed, unless it is about to be closed again. */
  ghost predicate HeldOpen(s: State, t: TaskId, c: Connection) {
    t in s.tasks && Holds(s.tasks[t], c) ==> c < s.nextConnection && s.closed[c] == if ClosesAgain(s.tasks[t], c) then 1 else 0
  }

  /** It has one holder. */
  ghost predicate HeldOnce(s: State, t: TaskId, u: TaskId, c: Connection) {
    t in s.tasks && u in s.tasks && Holds(s.tasks[t], c) && Holds(s.tasks[u], c) ==> t == u
  }

  ghost predicate SoleInTasks(s: State) {
    && (forall t, c: Connection :: HeldOpen(s, t, c))
    && (forall t, u, c: Connection :: HeldOnce(s, t, u, c))
  }

  ghost predicate Sole(s: State) {
    && SoleInPool(s) && SoleInTasks(s)
    && (forall t, ch :: t in s.tasks && ch in s.pool ==> !Holds(s.tasks[t], s.pool[ch]))
    && (forall c: Connection :: s.closed[c] <= 2 && (s.closed[c] > 0 ==> c < s.nextConnection))
  }

  ghost predicate SubscribeFailedOn(s: State, c: Connection) {
    exists t :: t in s.tasks && s.tasks[t].Restore? && s.tasks[t].step == SubscribeFailed(c)
  }

  /** A subscribe of a restore attempt failed on the connection: it was closed twice, or is about to be. */
  ghost predicate Failed(s: State, c: Connection) {
    s.closed[c] == 2 || exists t :: t in s.tasks && Failing(s.tasks[t], c)
  }

  /** Nothing but a failing subscribe makes a connection a failed one, and it stays one. */
  ghost predicate Follows(s: State, s': State) {
    forall c: Connection :: Failed(s', c) <==> Failed(s, c) || SubscribeFailedOn(s', c)
  }

  ghost predicate SameFailures(s: State, s': State) {
    forall c: Connection :: Failed(s', c) <==> Failed(s, c)
  }

  lemma SameFailuresFollow(s: State, s': State)
    requires SameFailures(s, s')
    ensures Follows(s, s')
  {
    forall c: Connection | SubscribeFailedOn(s', c) ensures Failed(s', c) {
      var t :| t in s'.tasks && s'.tasks[t].Restore? && s'.tasks[t].step == SubscribeFailed(c);
      assert Failing(s'.tasks[t], c);
    }
  }

  /** Task `t` or the pool entry of `ch` has the connection. */
  ghost predicate Has(s: State, ch: Channel, t: TaskId, c: Connection) {
    (t in s.tasks && Holds(s.tasks[t], c)) || (ch in s.pool && s.pool[ch] == c)
  }

  /** Apart from a new connection, task `t` and the pool entry of `ch` only exchange what they have, or close it. */
  ghost predicate Passes(s: State, s': State, ch: Channel, t: TaskId) {
    && (forall u :: u != t ==> (u in s.tasks <==> u in s'.tasks) && (u in s.tasks ==> s'.tasks[u] == s.tasks[u]))
    && (forall c :: c != ch ==> (c in s.pool <==> c in s'.pool) && (c in s.pool ==> s'.pool[c] == s.pool[c]))
    && s.nextConnection <= s'.nextConnection <= s.nextConnection + 1
    && (forall c: Connection :: Has(s', ch, t, c) ==> Has(s, ch, t, c) || c == s.nextConnection < s'.nextConnection)
    && (t in s'.tasks && ch in s'.pool ==> !Holds(s'.tasks[t], s'.pool[ch]))
    && (forall c: Connection :: s'.closed[c] == s.closed[c] || (s'.closed[c] == s.closed[c] + 1 && t in s.tasks && Holds(s.tasks[t], c)))
    && (forall c: Connection :: Has(s', ch, t, c) && !(t in s'.tasks && ClosesAgain(s'.tasks[t], c)) ==>
          s'.closed[c] == s.closed[c] && !(t in s.tasks && ClosesAgain(s.tasks[t], c)))
    && (forall c: Connection :: t in s'.tasks && ClosesAgain(s'.tasks[t], c) ==>
          t in s.tasks && Failing(s.tasks[t], c) && s'.closed[c] == s.closed[c] + if ClosesAgain(s.tasks[t], c) then 0 else 1)
    && (forall c: Connection :: t in s.tasks && Failing(s.tasks[t], c) ==>
          || (t in s'.tasks && Failing(s'.tasks[t], c))
          || (ClosesAgain(s.tasks[t], c) && s'.closed[c] == s.closed[c] + 1))
  }

  lemma PassingKeepsPool(s: State, s': State, ch: Channel, t: TaskId)
    requires Sole(s) && Passes(s, s', ch, t)
    ensures SoleInPool(s')
  {
    forall d | d in s'.pool
      ensures s'.pool[d] < s'.nextConnection && s'.closed[s'.pool[d]] == 0
    {
      assert HeldOpen(s, t, s'.pool[d]);
      if d == ch { assert Has(s', ch, t, s'.pool[ch]); }
    }
    forall d | ch in s'.pool && d in s'.pool && s'.pool[d] == s'.pool[ch]
      ensures d == ch
    {
      assert Has(s', ch, t, s'.pool[ch]);
    }
  }

  lemma PassingKeepsOwn(s: State, s': State, ch: Channel, t: TaskId, c: Connection)
    requires Sole(s) && Passes(s, s', ch, t)
    ensures HeldOpen(s', t, c)
  {
    assert HeldOpen(s, t, c);
    if t in s'.tasks && Holds(s'.tasks[t], c) {
      assert Has(s', ch, t, c);
      if ClosesAgain(s'.tasks[t], c) { assert Failing(s.tasks[t], c) && Holds(s.tasks[t], c); }
    }
  }

  lemma PassingKeepsOther(s: State, s': State, ch: Channel, t: TaskId, u: TaskId, c: Connection)
    requires Sole(s) && Passes(s, s', ch, t) && u != t
    ensures HeldOpen(s', u, c) && HeldOnce(s', t, u, c) && HeldOnce(s', u, t, c)
  {
    assert HeldOpen(s, u, c) && HeldOnce(s, t, u, c);
    if u in s'.tasks && Holds(s'.tasks[u], c) {
      assert u in s.tasks && s.tasks[u] == s'.tasks[u] && Holds(s.tasks[u], c);
      assert t in s'.tasks && Holds(s'.tasks[t], c) ==> Has(s', ch, t, c);
    }
  }

  lemma PassingKeepsTasks(s: State, s': State, ch: Channel, t: TaskId)
    requires Sole(s) && Passes(s, s', ch, t)
    ensures SoleInTasks(s')
  {
    forall u, c: Connection
      ensures HeldOpen(s', u, c)
    {
      if u == t { PassingKeepsOwn(s, s', ch, t, c); } else { PassingKeepsOther(s, s', ch, t, u, c); }
    }
    forall u, v, c: Connection
      ensures HeldOnce(s', u, v, c)
    {
      if u == t && v != t { PassingKeepsOther(s, s', ch, t, v, c); }
      else if u != t && v == t { PassingKeepsOther(s, s', ch, t, u, c); }
      else { assert HeldOnce(s, u, v, c); }
    }
  }

  lemma PassingKeepsSole(s: State, s': State, ch: Channel, t: TaskId)
    requires Sole(s) && Passes(s, s', ch, t)
    ensures Sole(s')
  {
    hide SoleInPool, SoleInTasks;
    PassingKeepsPool(s, s', ch, t);
    PassingKeepsTasks(s, s', ch, t);
    PassingKeepsApart(s, s', ch, t);
  }

  lemma PassingKeepsApart(s: State, s': State, ch: Channel, t: TaskId)
    requires Sole(s) && Passes(s, s', ch, t)
    ensures forall u, d :: u in s'.tasks && d in s'.pool ==> !Holds(s'.tasks[u], s'.pool[d])
    ensures forall c: Connection :: s'.closed[c] <= 2 && (s'.closed[c] > 0 ==> c < s'.nextConnection)
  {
    assert forall c: Connection :: t in s'.tasks && Holds(s'.tasks[t], c) ==> Has(s', ch, t, c);
    forall u, d | u in s'.tasks && d in s'.pool
      ensures !Holds(s'.tasks[u], s'.pool[d])
    {
      assert HeldOpen(s, u, s'.pool[d]) && HeldOnce(s, u, t, s'.pool[d]);
      if d == ch { assert Has(s', ch, t, s'.pool[d]); }
    }
    forall c: Connection
      ensures s'.closed[c] <= 2 && (s'.closed[c] > 0 ==> c < s'.nextConnection)
    {
      assert HeldOpen(s, t, c);
    }
  }

  lemma PassingFollows(s: State, s': State, ch: Channel, t: TaskId)
    requires Sole(s) && Passes(s, s', ch, t)
    ensures Follows(s, s')
    ensures (forall c: Connection :: t in s'.tasks && Failing(s'.tasks[t], c) ==> t in s.tasks && Failing(s.tasks[t], c)) ==> SameFailures(s, s')
  {
    forall c: Connection
      ensures Failed(s, c) ==> Failed(s', c)
      ensures Failed(s', c) ==> Failed(s, c) || (t in s'.tasks && Failing(s'.tasks[t], c))
    {
      assert HeldOpen(s, t, c);
      if s.closed[c] != 2 && Failed(s, c) {
        var u :| u in s.tasks && Failing(s.tasks[u], c);
        assert u != t ==> u in s'.tasks && Failing(s'.tasks[u], c);
      }
      if s'.closed[c] != 2 && Failed(s', c) {
        var u :| u in s'.tasks && Failing(s'.tasks[u], c);
        assert u != t ==> u in s.tasks && Failing(s.tasks[u], c);
      }
    }
    forall c: Connection
      ensures SubscribeFailedOn(s', c) ==> Failed(s', c)
      ensures t in s'.tasks && Failing(s'.tasks[t], c) && !Failed(s, c) ==> SubscribeFailedOn(s', c)
    {
      if SubscribeFailedOn(s', c) {
        var u :| u in s'.tasks && s'.tasks[u].Restore? && s'.tasks[u].step == SubscribeFailed(c);
        assert Failing(s'.tasks[u], c);
      }
      assert t in s'.tasks && ClosesAgain(s'.tasks[t], c) ==> Failing(s.tasks[t], c);
    }
  }

  // ---------------------------------------------------------------- every step

  /** The step fails no subscribe of a restore attempt. */
  ghost predicate Steady(s: State, s': State) {
    Sole(s') && SameFailures(s, s')
  }

  /** The step may, on the connection of task `t`. */
  ghost predicate Fair(s: State, s': State) {
    Sole(s') && Follows(s, s')
  }

  lemma PassingIsSteady(s: State, s': State, ch: Channel, t: TaskId)
    requires Sole(s) && Passes(s, s', ch, t)
    requires forall c: Connection :: t in s'.tasks && Failing(s'.tasks[t], c) ==> t in s.tasks && Failing(s.tasks[t], c)
    ensures Steady(s, s')
  {
    hide Sole, Passes, Follows, SameFailures;
    PassingKeepsSole(s, s', ch, t);
    PassingFollows(s, s', ch, t);
  }

  lemma SteadyIsFair(s: State, s': State)
    requires Steady(s, s')
    ensures Fair(s, s')
  {
    SameFailuresFollow(s, s');
  }

  lemma SteadyTwice(s: State, s1: State, s2: State)
    requires Steady(s, s1) && Steady(s1, s2)
    ensures Steady(s, s2)
  {}

  /** No connection is with the task. */
  ghost predicate Empty(s: State, t: TaskId) {
    t in s.tasks ==> Owned(s.tasks[t]) == {} && (s.tasks[t].Restore? ==> !s.tasks[t].step.SubscribeFailed? && !s.tasks[t].step.ClosingAgain?)
  }

  /** A task that has no connection does something about none. */
  ghost predicate Idle(s: State, s': State, t: TaskId) {
    && Empty(s, t) && Empty(s', t)
    && (forall u :: u != t ==> (u in s.tasks <==> u in s'.tasks) && (u in s.tasks ==> s'.tasks[u] == s.tasks[u]))
    && s'.pool == s.pool && s'.closed == s.closed && s'.nextConnection == s.nextConnection
  }

  lemma IdlingIsSteady(s: State, s': State, t: TaskId)
    requires Ids(s) && Sole(s) && Idle(s, s', t)
    ensures Steady(s, s')
  {
    hide Sole, SameFailures;
    PassingIsSteady(s, s', s.nextChannel, t);
  }

  lemma UnlistenIsSteady(s: State, ch: Channel, hasTail: bool)
    requires Ids(s) && Sole(s)
    ensures Steady(s, Unlisten(s, ch, hasTail))
  {
    hide Book.CancelRestore, Book.StopHealthCheck, Book.ClearState, Sole, Steady;
    if ch in s.closes || hasTail { IdlingIsSteady(s, Unlisten(s, ch, hasTail), s.nextTask); }
    else { ClosingNowIsSteady(s, ch); }
  }

  lemma ClosingNowIsSteady(s: State, ch: Channel)
    requires Ids(s) && Sole(s) && ch !in s.closes
    ensures Steady(s, Unlisten(s, ch, false))
  {
    hide Book.CancelRestore, Book.StopHealthCheck, Book.ClearState, Sole, SameFailures;
    PassingIsSteady(s, Unlisten(s, ch, false), ch, s.nextTask);
  }

  lemma {:induction false} UnlistenAllIsSteady(s: State, channels: seq<Channel>, tails: set<Channel>)
    requires Inv(s) && Sole(s)
    ensures Steady(s, UnlistenAll(s, channels, tails))
    decreases |channels|
  {
    if channels != [] {
      hide Unlisten, Sole, SameFailures, Inv;
      var s1 := Unlisten(s, channels[0], channels[0] in tails);
      InvParts(s);
      UnlistenIsSteady(s, channels[0], channels[0] in tails);
      UnlistenKeepsInv(s, channels[0], channels[0] in tails);
      UnlistenAllIsSteady(s1, channels[1..], tails);
      SteadyTwice(s, s1, UnlistenAll(s1, channels[1..], tails));
    }
  }

  /** A registration that holds nothing may take back its subscriptions or end. */
  lemma RegistrationStepIsSteady(s: State, s': State, t: TaskId)
    requires Ids(s) && Sole(s) && t in s.tasks && s.tasks[t].Registration? && Owned(s.tasks[t]) == {}
    requires s' == EndTask(s, t) || exists awaited, done :: s' == SetTask(s, t, Registration(RollingBack(awaited), 0, done))
    requires s.closed == s'.closed
    ensures Steady(s, s')
  {
    hide Sole, Steady, Ids;
    IdlingIsSteady(s, s', t);
  }

  lemma RegistrationFailedIsSteady(s: State, t: TaskId, done: seq<Channel>, tails: set<Channel>)
    requires Inv(s) && Sole(s) && t in s.tasks && s.tasks[t].Registration? && Owned(s.tasks[t]) == {}
    ensures Steady(s, RegistrationFailed(s, t, done, tails))
  {
    hide Sole, Inv, Unlisten, Steady, Ids;
    InvParts(s);
    if done == [] {
      RegistrationStepIsSteady(s, EndTask(s, t), t);
    } else {
      var s0 := SetTask(s, t, Registration(RollingBack({}), 0, done));
      RegistrationStepIsSteady(s, s0, t);
      NeutralTask(s, s0, t);
      SteadyIsSole(s, s0);
      UnlistenAllIsSteady(s0, done, tails);
      UnlistenAllKeepsInv(s0, done, tails);
      var s1 := UnlistenAll(s0, done, tails);
      TaskIsKnown(s0, t);
      UnlistenAllKeepsOthers(s0, done, tails, t);
      SteadyTwice(s, s0, s1);
      SteadyIsSole(s0, s1);
      InvParts(s1);
      var s2 := SetTask(s1, t, Registration(RollingBack(Awaited(s1, done)), 0, done));
      RegistrationStepIsSteady(s1, s2, t);
      SteadyTwice(s, s1, s2);
    }
  }

  lemma SteadyIsSole(s: State, s': State)
    requires Steady(s, s')
    ensures Sole(s')
  {}

  lemma TaskIsKnown(s: State, t: TaskId)
    requires Inv(s) && t in s.tasks
    ensures t < s.nextTask
  {}

  /** The connection of a registration, closed, is passed to nobody. */
  lemma CleaningIsSteady(s: State, t: TaskId, done: seq<Channel>, tails: set<Channel>)
    requires Inv(s) && Sole(s) && t in s.tasks && s.tasks[t].Registration? && s.tasks[t].phase.Cleaning?
    ensures Steady(s, RegistrationFailed(s.(closed := s.closed + multiset{s.tasks[t].phase.connection}), t, done, tails))
  {
    hide Sole, Inv, Unlisten, SameFailures;
    InvParts(s);
    var s1 := s.(closed := s.closed + multiset{s.tasks[t].phase.connection});
    var s0 := SetTask(s1, t, Registration(RollingBack({}), 0, done));
    PassingIsSteady(s, s0, s.nextChannel, t);
    ClosingKeepsInv(s, s1);
    NeutralTask(s1, s0, t);
    RegistrationFailedIsSteady(s0, t, done, tails);
    assert s0.tasks - {t} == s1.tasks - {t};
    assert SetTask(s0, t, s0.tasks[t]) == s0;
    SteadyTwice(s, s0, RegistrationFailed(s0, t, done, tails));
  }

  lemma RegistrationIsSteady(s: State, a: Action)
    requires Inv(s) && Sole(s) && Enabled(s, a)
    requires a.Listen? || a.RegistrationStarts? || a.RegistrationConnected? || a.RegistrationSubscribed? || a.RegistrationCleaned? || a.RegistrationRolledBack?
    ensures Steady(s, NextRegistration(s, a))
  {
    hide RegistrationFailed, Book.MarkActive, Book.StartHealthCheck, Sole, SameFailures, Inv;
    InvParts(s);
    if a.RegistrationCleaned? {
      CleaningIsSteady(s, a.task, s.tasks[a.task].done, a.tails);
    } else if a.RegistrationConnected? && !a.ok {
      RegistrationFailedIsSteady(s, a.task, s.tasks[a.task].done, a.tails);
    } else if a.RegistrationSubscribed? {
      SubscribedIsSteady(s, a);
    } else if a.RegistrationConnected? {
      NewConnectionIsSteady(s, a);
    } else {
      IdlingIsSteady(s, NextRegistration(s, a), if a.Listen? then s.nextTask else a.task);
    }
  }

  lemma NewConnectionIsSteady(s: State, a: Action)
    requires Ids(s) && Sole(s) && Enabled(s, a) && a.RegistrationConnected? && a.ok
    ensures Steady(s, NextRegistration(s, a))
  {
    hide Sole, SameFailures;
    PassingIsSteady(s, NextRegistration(s, a), s.nextChannel, a.task);
  }

  lemma SubscribedIsSteady(s: State, a: Action)
    requires Inv(s) && Sole(s) && Enabled(s, a) && a.RegistrationSubscribed?
    ensures Steady(s, NextRegistration(s, a))
  {
    hide Book.MarkActive, Book.StartHealthCheck, Sole, SameFailures, Inv;
    InvParts(s);
    PassingIsSteady(s, NextRegistration(s, a), s.nextChannel, a.task);
  }

  lemma CloseIsSteady(s: State, a: Action)
    requires Inv(s) && Sole(s) && Enabled(s, a) && (a.UserUnlisten? || a.CloseDrained? || a.CloseReleased? || a.CloseCleared?)
    ensures Steady(s, NextClose(s, a))
  {
    hide Book.ClearState, Unlisten, Sole, SameFailures, Inv;
    InvParts(s);
    if a.UserUnlisten? {
      UnlistenIsSteady(s, a.channel, a.hasTail);
    } else if a.CloseCleared? {
      IdlingIsSteady(s, NextClose(s, a), a.task);
    } else {
      TakingIsSteady(s, a);
    }
  }

  lemma TakingIsSteady(s: State, a: Action)
    requires Ids(s) && Sole(s) && Enabled(s, a) && (a.CloseDrained? || a.CloseReleased?)
    ensures Steady(s, NextClose(s, a))
  {
    hide Book.ClearState, Sole, SameFailures;
    PassingIsSteady(s, NextClose(s, a), if a.CloseDrained? then s.tasks[a.task].channel else s.nextChannel, a.task);
  }

  lemma StartRestoreIsSteady(s: State, ch: Channel, maxRetries: nat)
    requires Ids(s) && Sole(s)
    ensures Steady(s, StartRestore(s, ch, maxRetries).0)
  {
    hide Book.StopHealthCheck, Book.GetOrCreate, Sole, SameFailures;
    PassingIsSteady(s, StartRestore(s, ch, maxRetries).0, ch, s.nextTask);
  }

  lemma HealthIsSteady(s: State, a: Action)
    requires Inv(s) && Sole(s) && Enabled(s, a) && (a.HealthTick? || a.HealthProbed? || a.HealthResumed? || a.Deregistered?)
    ensures Steady(s, NextHealth(s, a))
  {
    hide StartRestore, EndHealth, Sole, Steady, Inv;
    InvParts(s);
    if a.HealthTick? {
      TickIsSteady(s, a);
    } else if a.Deregistered? {
      StartRestoreIsSteady(s, a.channel, a.maxRetries);
    } else if a.HealthResumed? || a.healthy || s.tasks[a.task].channel !in s.pool || s.pool[s.tasks[a.task].channel] != s.tasks[a.task].connection {
      HealthTaskIsSteady(s, NextHealth(s, a), a.task);
    } else {
      UnhealthyIsSteady(s, a);
    }
  }

  lemma TickIsSteady(s: State, a: Action)
    requires Ids(s) && Sole(s) && Enabled(s, a) && a.HealthTick?
    ensures Steady(s, NextHealth(s, a))
  {
    hide Book.GetOrCreate, Sole, Steady;
    IdlingIsSteady(s, NextHealth(s, a), s.nextTask);
  }

  lemma UnhealthyIsSteady(s: State, a: Action)
    requires Inv(s) && Sole(s) && Enabled(s, a) && a.HealthProbed? && !a.healthy
    requires s.tasks[a.task].channel in s.pool && s.pool[s.tasks[a.task].channel] == s.tasks[a.task].connection
    ensures Steady(s, NextHealth(s, a))
  {
    hide StartRestore, Sole, SameFailures, Inv, EndHealth;
    InvParts(s);
    var s1, s' := StartRestore(s, s.tasks[a.task].channel, a.maxRetries).0, NextHealth(s, a);
    StartRestoreIsSteady(s, s.tasks[a.task].channel, a.maxRetries);
    StartRestoreKeepsInv(s, s.tasks[a.task].channel, a.maxRetries);
    StartedHealthStays(s, a.task, a.maxRetries);
    InvParts(s1);
    HealthTaskIsSteady(s1, s', a.task);
    SteadyTwice(s, s1, s');
  }

  /** A health check has no connection, going on or ending. */
  lemma HealthTaskIsSteady(s: State, s': State, t: TaskId)
    requires Ids(s) && Sole(s) && t in s.tasks && s.tasks[t].Health?
    requires s' == EndHealth(s, t, s.tasks[t]) || exists awaiting :: s' == SetTask(s, t, s.tasks[t].(awaiting := awaiting))
    ensures Steady(s, s')
  {
    hide Sole, Steady, Ids;
    IdlingIsSteady(s, s', t);
  }

  lemma FailedAttemptIsSteady(s: State, t: TaskId)
    requires Inv(s) && Sole(s) && t in s.tasks && s.tasks[t].Restore? && s.tasks[t].step.Connecting?
    ensures Steady(s, AttemptFailed(s, t, s.tasks[t]))
  {
    hide Book.ClearState, Book.GetOrCreate, Book.DeleteIfIdle, Sole, Steady, Inv, Ids;
    InvParts(s);
    IdlingIsSteady(s, AttemptFailed(s, t, s.tasks[t]), t);
  }

  /** An attempt that fails without a connection of its own, or after its second close, is left with none. */
  ghost function Emptied(s: State, a: Action): State
    requires Enabled(s, a) && ((a.RestoreConnected? && !a.ok) || a.FailedConnectionClosedAgain?)
  {
    var task := s.tasks[a.task];
    var s1 := if a.RestoreConnected? then s.(book := s.book.StopHealthCheck(task.channel))
              else s.(closed := s.closed + multiset{task.step.connection});
    SetTask(s1, a.task, task.(step := Connecting))
  }

  lemma EmptyingIsSteady(s: State, a: Action)
    requires Ids(s) && Sole(s) && Enabled(s, a) && ((a.RestoreConnected? && !a.ok) || a.FailedConnectionClosedAgain?)
    ensures Steady(s, Emptied(s, a))
  {
    hide Book.StopHealthCheck, Sole, SameFailures;
    PassingIsSteady(s, Emptied(s, a), s.nextChannel, a.task);
  }

  lemma FailingIsSteady(s: State, a: Action)
    requires Inv(s) && Sole(s) && Enabled(s, a) && ((a.RestoreConnected? && !a.ok) || a.FailedConnectionClosedAgain?)
    ensures Steady(s, NextRestore(s, a))
  {
    hide Book.StopHealthCheck, AttemptFailed, Sole, Inv, Steady, Ids;
    InvParts(s);
    var t, task := a.task, s.tasks[a.task];
    UnpublishedIsOut(s, t);
    var s0 := Emptied(s, a);
    EmptyingIsSteady(s, a);
    SteadyIsSole(s, s0);
    StoppingTouchesOneChannel(s.book, task.channel);
    WorkflowMoves(s, s0, task.channel, t);
    FailedAttemptIsSteady(s0, t);
    SameFailedAttempt(if a.RestoreConnected? then s.(book := s.book.StopHealthCheck(task.channel))
                      else s.(closed := s.closed + multiset{task.step.connection}), s0, t);
    SteadyTwice(s, s0, NextRestore(s, a));
  }

  lemma SameFailedAttempt(s: State, s0: State, t: TaskId)
    requires t in s.tasks && s.tasks[t].Restore? && s0 == SetTask(s, t, s.tasks[t].(step := Connecting))
    ensures AttemptFailed(s0, t, s0.tasks[t]) == AttemptFailed(s, t, s.tasks[t])
  {
    assert s0.tasks - {t} == s.tasks - {t};
  }

  lemma AwaitedCloseIsSteady(s: State, a: Action)
    requires Inv(s) && Sole(s) && Enabled(s, a) && (a.OldClosed? || a.UndoClosed?)
    ensures Steady(s, NextRestore(s, a))
  {
    hide EndRestore, Sole, Steady, Inv, Ids;
    InvParts(s);
    var t, task := a.task, s.tasks[a.task];
    var s1 := s.(closed := s.closed + multiset(OptionSet(if a.OldClosed? then task.step.replaced else task.step.undone)));
    var s0 := SetTask(s1, t, task.(step := Connecting));
    ConnectionGone(s, t);
    if a.UndoClosed? || s.book.IsCancelled(task.channel) {
      SteadyIsSole(s, s0);
      IdsIgnoreStep(s, s0, t);
      EndingIsSteady(s0, t);
      SameEnd(s1, s0, t);
      SteadyTwice(s, s0, NextRestore(s, a));
    }
  }

  lemma ConnectionGone(s: State, t: TaskId)
    requires Ids(s) && Sole(s) && t in s.tasks && s.tasks[t].Restore? && (s.tasks[t].step.ClosingOld? || s.tasks[t].step.Undoing?)
    ensures var step := s.tasks[t].step;
            var s1 := s.(closed := s.closed + multiset(OptionSet(if step.ClosingOld? then step.replaced else step.undone)));
            Steady(s, SetTask(s1, t, s.tasks[t].(step := Connecting)))
  {
    hide Sole, SameFailures;
    var step := s.tasks[t].step;
    var s1 := s.(closed := s.closed + multiset(OptionSet(if step.ClosingOld? then step.replaced else step.undone)));
    PassingIsSteady(s, SetTask(s1, t, s.tasks[t].(step := Connecting)), s.nextChannel, t);
  }

  lemma IdsIgnoreStep(s: State, s0: State, t: TaskId)
    requires Ids(s) && t in s.tasks && s.tasks[t].Restore?
    requires s0 == SetTask(s.(closed := s0.closed), t, s.tasks[t].(step := Connecting))
    ensures Ids(s0)
  {}

  lemma EndingIsSteady(s: State, t: TaskId)
    requires Ids(s) && Sole(s) && t in s.tasks && s.tasks[t].Restore? && s.tasks[t].step.Connecting?
    ensures Steady(s, EndRestore(s, t, s.tasks[t]))
  {
    hide Book.DeleteIfIdle, Sole, Steady, Ids;
    IdlingIsSteady(s, EndRestore(s, t, s.tasks[t]), t);
  }

  lemma SameEnd(s: State, s0: State, t: TaskId)
    requires t in s.tasks && s.tasks[t].Restore? && s0 == SetTask(s, t, s.tasks[t].(step := Connecting))
    ensures EndRestore(s0, t, s0.tasks[t]) == EndRestore(s, t, s.tasks[t])
  {
    assert s0.tasks - {t} == s.tasks - {t};
  }

  lemma DelayIsSteady(s: State, a: Action)
    requires Inv(s) && Sole(s) && Enabled(s, a) && (a.DelayElapsed? || a.DelayResumed?)
    ensures Steady(s, NextRestore(s, a))
  {
    hide Book.StopHealthCheck, Book.CompleteDelay, Book.DeleteIfIdle, Sole, Inv, Steady, Ids;
    InvParts(s);
    UnpublishedIsOut(s, a.task);
    assert s.pool - {s.tasks[a.task].channel} == s.pool;
    IdlingIsSteady(s, NextRestore(s, a), a.task);
  }

  lemma RestoreIsFair(s: State, a: Action)
    requires Inv(s) && Sole(s) && Enabled(s, a)
    requires a.OldClosed? || a.RestoreConnected? || a.Resubscribed? || a.FailedConnectionClosed? || a.FailedConnectionClosedAgain?
             || a.PublishedChecked? || a.UndoClosed? || a.DelayElapsed? || a.DelayResumed?
    ensures Fair(s, NextRestore(s, a))
  {
    hide Steady, Sole, Inv, Follows;
    if a.OldClosed? || a.UndoClosed? || a.DelayElapsed? || a.DelayResumed? {
      if a.OldClosed? || a.UndoClosed? { AwaitedCloseIsSteady(s, a); } else { DelayIsSteady(s, a); }
      SteadyIsFair(s, NextRestore(s, a));
    } else if a.FailedConnectionClosedAgain? || (a.RestoreConnected? && !a.ok) {
      FailingIsSteady(s, a);
      SteadyIsFair(s, NextRestore(s, a));
    } else if a.Resubscribed? {
      ResubscribedIsFair(s, a);
    } else if a.PublishedChecked? {
      CheckedIsSteady(s, a);
      SteadyIsFair(s, NextRestore(s, a));
    } else if a.RestoreConnected? {
      InvParts(s);
      ConnectedIsFair(s, a);
    } else {
      InvParts(s);
      FailedCloseIsFair(s, a);
    }
  }

  lemma ConnectedIsFair(s: State, a: Action)
    requires Ids(s) && Sole(s) && Enabled(s, a) && a.RestoreConnected? && a.ok
    ensures Fair(s, NextRestore(s, a))
  {
    hide Sole, Follows;
    PassingKeepsSole(s, NextRestore(s, a), s.nextChannel, a.task);
    PassingFollows(s, NextRestore(s, a), s.nextChannel, a.task);
  }

  lemma FailedCloseIsFair(s: State, a: Action)
    requires Ids(s) && Sole(s) && Enabled(s, a) && a.FailedConnectionClosed?
    ensures Fair(s, NextRestore(s, a))
  {
    hide Book.StopHealthCheck, Sole, Follows;
    PassingKeepsSole(s, NextRestore(s, a), s.nextChannel, a.task);
    PassingFollows(s, NextRestore(s, a), s.nextChannel, a.task);
  }

  lemma ResubscribedIsFair(s: State, a: Action)
    requires Inv(s) && Sole(s) && Enabled(s, a) && a.Resubscribed?
    ensures Fair(s, NextRestore(s, a))
  {
    hide Book.MarkActive, Book.StartHealthCheck, Sole, Inv, Follows;
    UnpublishedIsOut(s, a.task);
    PassingKeepsSole(s, NextRestore(s, a), s.tasks[a.task].channel, a.task);
    PassingFollows(s, NextRestore(s, a), s.tasks[a.task].channel, a.task);
  }

  lemma CheckedIsSteady(s: State, a: Action)
    requires Inv(s) && Sole(s) && Enabled(s, a) && a.PublishedChecked?
    ensures Steady(s, NextRestore(s, a))
  {
    hide Book.StopHealthCheck, Book.DeleteIfIdle, Sole, Inv, SameFailures;
    PassingIsSteady(s, NextRestore(s, a), s.tasks[a.task].channel, a.task);
  }

  /** Neither connections nor their holders change. */
  lemma QuietIsSteady(s: State, s': State)
    requires Ids(s) && Sole(s) && s' == s.(book := s'.book, shutdown := s'.shutdown, pool := s'.pool) && s'.pool == s.pool
    ensures Steady(s, s')
  {
    hide Sole, Steady;
    IdlingIsSteady(s, s', s.nextTask);
  }

  lemma DestroyIsSteady(s: State, a: Action)
    requires Inv(s) && ShutdownInv(s) && Sole(s) && Enabled(s, a) && (a.Destroy? || a.DestroyRest? || a.DestroyFinishes?)
    ensures Steady(s, NextDestroy(s, a))
  {
    hide Inv, ShutdownInv, Sole, Steady, UnlistenAll, Book.BeginDestroy, Book.StopAllHealthChecks;
    InvParts(s);
    if a.DestroyFinishes? {
      ClearedPoolIsEmpty(s);
      QuietIsSteady(s, NextDestroy(s, a));
    } else {
      var b := if a.Destroy? then s.book.BeginDestroy().StopAllHealthChecks() else s.book;
      BeginDestroyKeepsWorkflows(s.book);
      StopAllKeepsWorkflows(s.book.BeginDestroy());
      var chs := if a.Destroy? then a.pooled + a.restoring else a.pooled;
      CancelAllRespects(b, chs);
      var s0 := s.(book := CancelAll(b, chs), shutdown := if a.Destroy? then UnsubscribingAll({}) else s.shutdown);
      ShuttingDownKeepsInv(s, s0);
      QuietIsSteady(s, s0);
      SteadyIsSole(s, s0);
      UnlistenAllIsSteady(s0, a.pooled, a.tails);
      var s1 := UnlistenAll(s0, a.pooled, a.tails);
      SteadyIsSole(s0, s1);
      UnlistenAllKeepsInv(s0, a.pooled, a.tails);
      InvParts(s0);
      InvParts(s1);
      QuietIsSteady(s1, NextDestroy(s, a));
      SteadyTwice(s, s0, s1);
      SteadyTwice(s, s1, NextDestroy(s, a));
    }
  }

  lemma StepIsFair(s: State, a: Action)
    requires Safe(s) && Sole(s) && Enabled(s, a)
    ensures Fair(s, Next(s, a))
  {
    hide Inv, Accounted, ShutdownInv, Sole, Steady, Fair, NextClose, NextDestroy, NextHealth, NextRegistration, NextRestore;
    if a.Destroy? || a.DestroyRest? || a.DestroyFinishes? { DestroyIsSteady(s, a); SteadyIsFair(s, Next(s, a)); }
    else if a.UserUnlisten? || a.CloseDrained? || a.CloseReleased? || a.CloseCleared? { CloseIsSteady(s, a); SteadyIsFair(s, Next(s, a)); }
    else if a.HealthTick? || a.HealthProbed? || a.HealthResumed? || a.Deregistered? { HealthIsSteady(s, a); SteadyIsFair(s, Next(s, a)); }
    else if a.Listen? || a.RegistrationStarts? || a.RegistrationConnected? || a.RegistrationSubscribed?
            || a.RegistrationCleaned? || a.RegistrationRolledBack? { RegistrationIsSteady(s, a); SteadyIsFair(s, Next(s, a)); }
    else { RestoreIsFair(s, a); }
  }

  // ---------------------------------------------------------------- runs

  lemma {:induction false} RunsAreSole(run: seq<State>, i: nat)
    requires Run(run) && i < |run|
    ensures Sole(run[i])
  {
    hide Enabled, Next;
    if i > 0 {
      RunsAreSole(run, i - 1);
      RunsAreSafe(run, i - 1);
      assert Step(run[i - 1], run[i - 1 + 1]);
      var a :| Enabled(run[i - 1], a) && run[i] == Next(run[i - 1], a);
      hide Sole, Safe;
      StepIsFair(run[i - 1], a);
    }
  }

  /**
   No connection is closed more than twice. It is closed a second time, or is
   about to be, exactly when a restore attempt's subscribe on it has failed.
   */
  lemma {:induction false} ClosedAgainExactlyAfterFailedSubscribe(run: seq<State>, j: nat, c: Connection)
    requires Run(run) && j < |run|
    ensures run[j].closed[c] <= 2
    ensures (run[j].closed[c] == 2 || exists t :: t in run[j].tasks && Failing(run[j].tasks[t], c)) <==>
            exists i :: 0 <= i <= j && SubscribeFailedOn(run[i], c)
  {
    hide Enabled, Next, SubscribeFailedOn;
    RunsAreSole(run, j);
    if j > 0 {
      ClosedAgainExactlyAfterFailedSubscribe(run, j - 1, c);
      RunsAreSole(run, j - 1);
      RunsAreSafe(run, j - 1);
      assert Step(run[j - 1], run[j - 1 + 1]);
      var a :| Enabled(run[j - 1], a) && run[j] == Next(run[j - 1], a);
      StepIsFair(run[j - 1], a);
      assert Failed(run[j], c) <==> Failed(run[j - 1], c) || SubscribeFailedOn(run[j], c);
    } else {
      NothingFailedInitially(c);
    }
  }

  lemma NothingFailedInitially(c: Connection)
    ensures !Failed(INITIAL, c) && !SubscribeFailedOn(INITIAL, c)
  {}

  // ---------------------------------------------------------------- a connection closed twice

  lemma Continue(run: seq<State>, s': State, a: Action) returns (longer: seq<State>)
    requires |run| > 0 && Run(run) && Enabled(run[|run| - 1], a) && s' == Next(run[|run| - 1], a)
    ensures Run(longer) && |longer| > 0 && longer[|longer| - 1] == s'
  {
    longer := run + [s'];
    assert Step(run[|run| - 1], s');
    forall i | 0 <= i < |longer| - 1 ensures Step(longer[i], longer[i + 1]) {
      if i < |run| - 1 { assert Step(run[i], run[i + 1]); }
    }
  }

  /** Channel 0 with connection 0 and its health check. */
  const WATCHED := Book(false, map[0 := 0], [Record(0, false, false, None, None, Some(Timer(0, 0)))])

  const SUBSCRIBED := INITIAL.(book := WATCHED, pool := map[0 := 0], nextTask := 1, nextChannel := 1, nextConnection := 1)

  lemma FirstSubscription() returns (run: seq<State>)
    ensures Run(run) && |run| > 0 && run[|run| - 1] == SUBSCRIBED
  {
    run := [INITIAL];
    assert Run(run);
    hide Run;
    var s1 := INITIAL.(tasks := map[0 := Registration(Queued, 1, [])], nextTask := 1);
    var s2 := s1.(tasks := map[0 := Registration(Creating, 0, [])]);
    var s3 := s2.(tasks := map[0 := Registration(Subscribing(0), 0, [])], nextConnection := 1);
    run := Continue(run, s1, Listen(1));
    run := Continue(run, s2, RegistrationStarts(0));
    run := Continue(run, s3, RegistrationConnected(0, true, {}));
    assert s3.tasks - {0} == map[];
    run := Continue(run, SUBSCRIBED, RegistrationSubscribed(0, true));
  }

  const ATTEMPT := Restore(0, 0, 1, 1, Resubscribing(1))

  const RESUBSCRIBING := State(WATCHED.(store := [Record(0, false, false, Some(1), None, None)]), map[], map[],
                               map[1 := ATTEMPT], Running, multiset{0}, 2, 1, 2)

  const BEGUN := RESUBSCRIBING.(closed := multiset{}, tasks := map[1 := ATTEMPT.(step := ClosingOld(Some(0)))], nextConnection := 1)

  lemma FirstAttemptBegins()
    ensures Enabled(SUBSCRIBED, Deregistered(0, 1)) && Next(SUBSCRIBED, Deregistered(0, 1)) == BEGUN
  {
    assert SUBSCRIBED.pool - {0} == map[];
  }

  lemma FirstAttempt() returns (run: seq<State>)
    ensures Run(run) && |run| > 0 && run[|run| - 1] == RESUBSCRIBING
  {
    hide Run;
    run := FirstSubscription();
    FirstAttemptBegins();
    var s6 := BEGUN.(closed := multiset{0}, tasks := map[1 := ATTEMPT.(step := Connecting)]);
    assert s6.tasks == BEGUN.tasks[1 := ATTEMPT.(step := Connecting)];
    run := Continue(run, BEGUN, Deregistered(0, 1));
    run := Continue(run, s6, OldClosed(1));
    run := Continue(run, RESUBSCRIBING, RestoreConnected(1, true));
  }

  /** A run in which that happens: the server rejects the subscribe of a restore attempt. */
  lemma RejectedSubscribeClosesTwice() returns (run: seq<State>)
    ensures Run(run) && |run| > 0 && run[|run| - 1].closed[1] == 2
  {
    hide Run;
    run := FirstAttempt();
    var s8 := RESUBSCRIBING.(tasks := map[1 := ATTEMPT.(step := SubscribeFailed(1))]);
    run := Continue(run, s8, Resubscribed(1, false));
    var s9 := s8.(closed := multiset{0, 1}, tasks := map[1 := ATTEMPT.(step := ClosingAgain(1))]);
    run := Continue(run, s9, FailedConnectionClosed(1));
    run := Continue(run, Next(s9, FailedConnectionClosedAgain(1)), FailedConnectionClosedAgain(1));
  }
}
