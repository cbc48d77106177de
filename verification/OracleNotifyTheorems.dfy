/** Conservation, shutdown and cancellation of the Oracle notification protocol, over whole runs. */
module OracleNotifyTheorems {
  import opened RestoreRecords
  import opened OracleNotifyProtocol
  import opened OracleNotifySafety

  // ---------------------------------------------------------------- conservation

  ghost predicate Held(s: State, c: Connection) {
    exists t :: t in s.tasks && c in Owned(s.tasks[t])
  }

  ghost predicate Pooled(s: State, c: Connection) {
    exists ch :: ch in s.pool && s.pool[ch] == c
  }

  /** Every connection ever created is pooled, owned by an operation in flight, or closed. */
  ghost predicate Accounted(s: State) {
    forall c :: 0 <= c < s.nextConnection ==> c in s.closed || Pooled(s, c) || Held(s, c)
  }

  /** Responsibility moves only between task `t`, the pool entry of `ch`, and the closed connections. */
  ghost predicate Hands(s: State, s': State, ch: Channel, t: TaskId) {
    && s.closed <= s'.closed
    && (forall u :: u != t && u in s.tasks ==> u in s'.tasks && s'.tasks[u] == s.tasks[u])
    && (forall c :: c != ch && c in s.pool ==> c in s'.pool && s'.pool[c] == s.pool[c])
    && (t in s.tasks ==> forall c :: c in Owned(s.tasks[t]) ==>
          c in s'.closed || (t in s'.tasks && c in Owned(s'.tasks[t])) || (ch in s'.pool && s'.pool[ch] == c))
    && (ch in s.pool ==> (ch in s'.pool && s'.pool[ch] == s.pool[ch]) || (t in s'.tasks && s.pool[ch] in Owned(s'.tasks[t])))
    && (s'.nextConnection == s.nextConnection
        || (s'.nextConnection == s.nextConnection + 1 && t in s'.tasks && s.nextConnection in Owned(s'.tasks[t])))
  }

  lemma HandsKeepsAccounted(s: State, s': State, ch: Channel, t: TaskId)
    requires Accounted(s) && Hands(s, s', ch, t)
    ensures Accounted(s')
  {
    forall c | 0 <= c < s'.nextConnection ensures c in s'.closed || Pooled(s', c) || Held(s', c) {
      if c < s.nextConnection {
        if Pooled(s, c) {
          var k :| k in s.pool && s.pool[k] == c;
          assert (k in s'.pool && s'.pool[k] == c) || (t in s'.tasks && c in Owned(s'.tasks[t]));
        } else if Held(s, c) {
          var u :| u in s.tasks && c in Owned(s.tasks[u]);
          assert c in s'.closed || (u in s'.tasks && c in Owned(s'.tasks[u])) || (ch in s'.pool && s'.pool[ch] == c);
        }
      }
    }
  }

  lemma UnlistenKeepsAccounted(s: State, ch: Channel, hasTail: bool)
    requires Ids(s) && Accounted(s)
    ensures Accounted(Unlisten(s, ch, hasTail))
  {
    hide Book.CancelRestore, Book.StopHealthCheck, Book.ClearState;
    HandsKeepsAccounted(s, Unlisten(s, ch, hasTail), ch, s.nextTask);
  }

  lemma UnlistenAllKeepsAccounted(s: State, channels: seq<Channel>, tails: set<Channel>)
    requires Inv(s) && Accounted(s)
    ensures Accounted(UnlistenAll(s, channels, tails))
    decreases |channels|
  {
    hide Unlisten, Accounted;
    if channels != [] {
      UnlistenKeepsInv(s, channels[0], channels[0] in tails);
      UnlistenKeepsAccounted(s, channels[0], channels[0] in tails);
      UnlistenAllKeepsAccounted(Unlisten(s, channels[0], channels[0] in tails), channels[1..], tails);
    }
  }

  lemma RegistrationFailedKeepsAccounted(s: State, t: TaskId, done: seq<Channel>, tails: set<Channel>)
    requires Inv(s) && Accounted(s) && t in s.tasks && s.tasks[t].Registration?
    requires forall c :: c in Owned(s.tasks[t]) ==> c in s.closed
    ensures Accounted(RegistrationFailed(s, t, done, tails))
  {
    hide Accounted, Inv, Unlisten;
    InvParts(s);
    if done == [] {
      HandsKeepsAccounted(s, EndTask(s, t), 0, t);
    } else {
      var s0 := SetTask(s, t, Registration(RollingBack({}), 0, done));
      HandsKeepsAccounted(s, s0, 0, t);
      NeutralTask(s, s0, t);
      UnlistenAllKeepsAccounted(s0, done, tails);
      UnlistenAllKeepsOthers(s0, done, tails, t);
      var s1 := UnlistenAll(s0, done, tails);
      HandsKeepsAccounted(s1, SetTask(s1, t, Registration(RollingBack(Awaited(s1, done)), 0, done)), 0, t);
    }
  }

  lemma RegistrationKeepsAccounted(s: State, a: Action)
    requires Inv(s) && Accounted(s) && Enabled(s, a)
    requires a.Listen? || a.RegistrationStarts? || a.RegistrationConnected? || a.RegistrationSubscribed? || a.RegistrationCleaned? || a.RegistrationRolledBack?
    ensures Accounted(NextRegistration(s, a))
  {
    hide RegistrationFailed, Book.MarkActive, Book.StartHealthCheck;
    if a.RegistrationCleaned? {
      var s1 := s.(closed := s.closed + multiset{s.tasks[a.task].phase.connection});
      ClosingKeepsInv(s, s1);
      HandsKeepsAccounted(s, s1, 0, a.task);
      RegistrationFailedKeepsAccounted(s1, a.task, s.tasks[a.task].done, a.tails);
    } else if a.RegistrationConnected? && !a.ok {
      RegistrationFailedKeepsAccounted(s, a.task, s.tasks[a.task].done, a.tails);
    } else {
      HandsKeepsAccounted(s, NextRegistration(s, a), s.nextChannel, if a.Listen? then s.nextTask else a.task);
    }
  }

  lemma CloseKeepsAccounted(s: State, a: Action)
    requires Inv(s) && Accounted(s) && Enabled(s, a) && (a.UserUnlisten? || a.CloseDrained? || a.CloseReleased? || a.CloseCleared?)
    ensures Accounted(NextClose(s, a))
  {
    hide Book.ClearState, Unlisten;
    if a.UserUnlisten? { UnlistenKeepsAccounted(s, a.channel, a.hasTail); }
    else { HandsKeepsAccounted(s, NextClose(s, a), s.tasks[a.task].channel, a.task); }
  }

  lemma StartRestoreKeepsAccounted(s: State, ch: Channel, maxRetries: nat)
    requires Ids(s) && Accounted(s)
    ensures Accounted(StartRestore(s, ch, maxRetries).0)
  {
    hide Book.StopHealthCheck, Book.GetOrCreate;
    HandsKeepsAccounted(s, StartRestore(s, ch, maxRetries).0, ch, s.nextTask);
  }

  /** A health check has no connection. */
  lemma HealthEndKeepsAccounted(s: State, t: TaskId)
    requires Accounted(s) && t in s.tasks && s.tasks[t].Health?
    ensures Accounted(EndHealth(s, t, s.tasks[t]))
  {
    hide Book.DeleteIfIdle, Accounted;
    HandsKeepsAccounted(s, EndHealth(s, t, s.tasks[t]), 0, t);
  }

  lemma HealthKeepsAccounted(s: State, a: Action)
    requires Inv(s) && Accounted(s) && Enabled(s, a) && (a.HealthTick? || a.HealthProbed? || a.HealthResumed? || a.Deregistered?)
    ensures Accounted(NextHealth(s, a))
  {
    hide StartRestore, EndHealth, Accounted, Inv, Book.GetOrCreate;
    InvParts(s);
    if a.HealthTick? {
      HandsKeepsAccounted(s, NextHealth(s, a), 0, s.nextTask);
    } else if a.Deregistered? {
      StartRestoreKeepsAccounted(s, a.channel, a.maxRetries);
    } else if a.HealthResumed? || a.healthy || s.tasks[a.task].channel !in s.pool || s.pool[s.tasks[a.task].channel] != s.tasks[a.task].connection {
      HealthEndKeepsAccounted(s, a.task);
    } else {
      var s1 := StartRestore(s, s.tasks[a.task].channel, a.maxRetries).0;
      StartRestoreKeepsAccounted(s, s.tasks[a.task].channel, a.maxRetries);
      StartedHealthStays(s, a.task, a.maxRetries);
      HealthEndKeepsAccounted(s1, a.task);
      if StartRestore(s, s.tasks[a.task].channel, a.maxRetries).1.Some? { HandsKeepsAccounted(s1, NextHealth(s, a), 0, a.task); }
    }
  }

  lemma FailedAttemptKeepsAccounted(s: State, t: TaskId)
    requires Accounted(s) && t in s.tasks && s.tasks[t].Restore? && Owned(s.tasks[t]) == {}
    ensures Accounted(AttemptFailed(s, t, s.tasks[t]))
  {
    hide Book.ClearState, Book.GetOrCreate, Book.DeleteIfIdle;
    HandsKeepsAccounted(s, AttemptFailed(s, t, s.tasks[t]), s.tasks[t].channel, t);
  }

  lemma AwaitedCloseKeepsAccounted(s: State, a: Action)
    requires Accounted(s) && Enabled(s, a) && (a.OldClosed? || a.UndoClosed?)
    ensures Accounted(NextRestore(s, a))
  {
    hide Book.DeleteIfIdle, Accounted;
    HandsKeepsAccounted(s, NextRestore(s, a), s.tasks[a.task].channel, a.task);
  }

  lemma DelayKeepsAccounted(s: State, a: Action)
    requires Inv(s) && Accounted(s) && Enabled(s, a) && (a.DelayElapsed? || a.DelayResumed?)
    ensures Accounted(NextRestore(s, a))
  {
    hide Book.StopHealthCheck, Book.CompleteDelay, Book.DeleteIfIdle, Accounted, Inv;
    UnpublishedIsOut(s, a.task);
    HandsKeepsAccounted(s, NextRestore(s, a), s.tasks[a.task].channel, a.task);
  }

  lemma FailingKeepsAccounted(s: State, a: Action)
    requires Inv(s) && Accounted(s) && Enabled(s, a) && ((a.RestoreConnected? && !a.ok) || a.FailedConnectionClosedAgain?)
    ensures Accounted(NextRestore(s, a))
  {
    hide Book.StopHealthCheck, AttemptFailed, Accounted, Inv;
    var t := a.task;
    var s1 := if a.RestoreConnected? then s.(book := s.book.StopHealthCheck(s.tasks[t].channel))
              else s.(closed := s.closed + multiset{s.tasks[t].step.connection});
    HandsKeepsAccounted(s, s1, 0, t);
    FailedAttemptKeepsAccounted(s1, t);
  }

  lemma RestoreKeepsAccounted(s: State, a: Action)
    requires Inv(s) && Accounted(s) && Enabled(s, a)
    requires a.OldClosed? || a.RestoreConnected? || a.Resubscribed? || a.FailedConnectionClosed? || a.FailedConnectionClosedAgain?
             || a.PublishedChecked? || a.UndoClosed? || a.DelayElapsed? || a.DelayResumed?
    ensures Accounted(NextRestore(s, a))
  {
    hide Accounted, Inv, Owned, EndRestore, AttemptFailed, NextRestore;
    if a.OldClosed? || a.UndoClosed? {
      AwaitedCloseKeepsAccounted(s, a);
    } else if a.DelayElapsed? || a.DelayResumed? {
      DelayKeepsAccounted(s, a);
    } else if a.FailedConnectionClosedAgain? || (a.RestoreConnected? && !a.ok) {
      FailingKeepsAccounted(s, a);
    } else if a.Resubscribed? {
      ResubscribedKeepsAccounted(s, a);
    } else {
      ConnectedKeepsAccounted(s, a);
    }
  }

  lemma ConnectedKeepsAccounted(s: State, a: Action)
    requires Accounted(s) && Enabled(s, a) && ((a.RestoreConnected? && a.ok) || a.FailedConnectionClosed? || a.PublishedChecked?)
    ensures Accounted(NextRestore(s, a))
  {
    hide Book.StopHealthCheck, Book.DeleteIfIdle, Accounted;
    HandsKeepsAccounted(s, NextRestore(s, a), s.tasks[a.task].channel, a.task);
  }

  lemma ResubscribedKeepsAccounted(s: State, a: Action)
    requires Inv(s) && Accounted(s) && Enabled(s, a) && a.Resubscribed?
    ensures Accounted(NextRestore(s, a))
  {
    hide Book.MarkActive, Book.StartHealthCheck, Accounted, Inv;
    UnpublishedIsOut(s, a.task);
    HandsKeepsAccounted(s, NextRestore(s, a), s.tasks[a.task].channel, a.task);
  }

  // ---------------------------------------------------------------- shutdown

  /** Every close of a channel that is still pooled has yet to take its connection. */
  ghost predicate PooledClosesDrain(s: State) {
    forall ch :: ch in s.pool && ch in s.closes ==> s.closes[ch] in s.tasks && s.tasks[s.closes[ch]].Closing? && s.tasks[s.closes[ch]].stage.Draining?
  }

  /**
   What each stage of `destroy` may rely on. Stage one waits for the closes of
   all channels pooled when it began; a close of a pooled channel that it does
   not wait for is younger, and has yet to take the connection. Stage two waits
   for one such close of every pooled channel.
   */
  ghost predicate ShutdownInv(s: State) {
    match s.shutdown
    case Running => true
    case UnsubscribingAll(awaited) =>
      forall ch :: ch in s.pool && ch in s.closes ==>
        s.closes[ch] in awaited || (s.closes[ch] in s.tasks && s.tasks[s.closes[ch]].Closing? && s.tasks[s.closes[ch]].stage.Draining?)
    case UnsubscribingRest(awaited) =>
      && PooledClosesDrain(s)
      && forall ch :: ch in s.pool ==> ch in s.closes && s.closes[ch] in awaited
    case Finished => s.pool == map[]
  }

  /** After shutdown has begun the pool only shrinks; closes of pooled channels are untouched or new and draining. */
  ghost predicate Shrinks(s: State, s': State) {
    && s'.shutdown == s.shutdown
    && (forall ch :: ch in s'.pool ==> ch in s.pool && s'.pool[ch] == s.pool[ch])
    && (forall ch :: ch in s'.pool && ch in s'.closes && ch in s.closes ==> s'.closes[ch] == s.closes[ch])
    && (forall ch :: ch in s'.pool && ch in s'.closes && ch in s.closes && s.closes[ch] in s.tasks ==>
          s.closes[ch] in s'.tasks && s'.tasks[s.closes[ch]] == s.tasks[s.closes[ch]])
    && (forall ch :: ch in s'.pool && ch in s'.closes && ch !in s.closes ==>
          s'.closes[ch] in s'.tasks && s'.tasks[s'.closes[ch]].Closing? && s'.tasks[s'.closes[ch]].stage.Draining?)
    && (s.shutdown.UnsubscribingRest? ==> forall ch :: ch in s'.pool && ch in s.closes ==> ch in s'.closes)
  }

  lemma ShrinkingKeepsShutdownInv(s: State, s': State)
    requires Ids(s) && ShutdownInv(s) && Shrinks(s, s')
    ensures ShutdownInv(s')
  {}

  lemma UnlistenShrinks(s: State, ch: Channel, hasTail: bool)
    requires Ids(s)
    ensures Shrinks(s, Unlisten(s, ch, hasTail))
    ensures ch in Unlisten(s, ch, hasTail).closes
    ensures forall c :: c in s.closes ==> c in Unlisten(s, ch, hasTail).closes
  {
    hide Book.CancelRestore, Book.StopHealthCheck, Book.ClearState;
  }

  lemma ShrinksTwice(s: State, s1: State, s2: State)
    requires Ids(s) && Ids(s1) && Shrinks(s, s1) && Shrinks(s1, s2)
    requires forall c :: c in s.closes && c in s2.pool ==> c in s1.closes
    ensures Shrinks(s, s2)
  {}

  lemma UnlistenAllShrinks(s: State, channels: seq<Channel>, tails: set<Channel>)
    requires Inv(s)
    ensures Shrinks(s, UnlistenAll(s, channels, tails))
    ensures forall ch :: ch in channels || ch in s.closes ==> ch in UnlistenAll(s, channels, tails).closes
    decreases |channels|
  {
    hide Unlisten, Inv;
    if channels != [] {
      var s1 := Unlisten(s, channels[0], channels[0] in tails);
      InvParts(s);
      UnlistenShrinks(s, channels[0], channels[0] in tails);
      UnlistenKeepsInv(s, channels[0], channels[0] in tails);
      InvParts(s1);
      UnlistenAllShrinks(s1, channels[1..], tails);
      ShrinksTwice(s, s1, UnlistenAll(s1, channels[1..], tails));
    }
  }

  /** Neither the pool nor any close changes. */
  lemma UntouchedShrinks(s: State, s': State, t: TaskId)
    requires Ids(s) && s'.pool == s.pool && s'.closes == s.closes && s'.shutdown == s.shutdown
    requires forall u :: u != t && u in s.tasks ==> u in s'.tasks && s'.tasks[u] == s.tasks[u]
    requires t in s.tasks ==> !s.tasks[t].Closing?
    ensures Shrinks(s, s')
  {}

  lemma RegistrationShrinks(s: State, a: Action)
    requires Inv(s) && Enabled(s, a) && s.book.isDestroyed
    requires a.Listen? || a.RegistrationStarts? || a.RegistrationConnected? || a.RegistrationSubscribed? || a.RegistrationCleaned? || a.RegistrationRolledBack?
    ensures Shrinks(s, NextRegistration(s, a))
  {
    hide Inv, Unlisten;
    InvParts(s);
    if (a.RegistrationConnected? && !a.ok) || a.RegistrationCleaned? {
      var t, done := a.task, s.tasks[a.task].done;
      if done != [] {
        var s1 := if a.RegistrationCleaned? then s.(closed := s.closed + multiset{s.tasks[t].phase.connection}) else s;
        ClosingKeepsInv(s, s1);
        var s0 := SetTask(s1, t, Registration(RollingBack({}), 0, done));
        NeutralTask(s1, s0, t);
        UntouchedShrinks(s, s0, t);
        UnlistenAllShrinks(s0, done, a.tails);
        UnlistenAllKeepsOthers(s0, done, a.tails, t);
        UnlistenAllKeepsInv(s0, done, a.tails);
        var s2 := UnlistenAll(s0, done, a.tails);
        InvParts(s0);
        InvParts(s2);
        ShrinksTwice(s, s0, s2);
        UntouchedShrinks(s2, NextRegistration(s, a), t);
        ShrinksTwice(s, s2, NextRegistration(s, a));
      } else {
        UntouchedShrinks(s, NextRegistration(s, a), t);
      }
    }
  }

  lemma HealthShrinks(s: State, a: Action)
    requires Inv(s) && Enabled(s, a) && s.book.isDestroyed && (a.HealthTick? || a.HealthProbed? || a.HealthResumed? || a.Deregistered?)
    ensures Shrinks(s, NextHealth(s, a))
  {
    hide Inv;
    InvParts(s);
  }

  lemma RestoreAttemptShrinks(s: State, a: Action)
    requires Ids(s) && Enabled(s, a) && s.book.isDestroyed
    requires a.OldClosed? || a.RestoreConnected? || a.Resubscribed? || a.FailedConnectionClosed?
    ensures Shrinks(s, NextRestore(s, a))
  {
    hide Shrinks, Book.ClearState, Book.CompleteDelay, Book.DeleteIfIdle, Book.GetOrCreate, Book.StopHealthCheck, Book.MarkActive, Book.StartHealthCheck;
    UntouchedShrinks(s, NextRestore(s, a), a.task);
  }

  lemma RestoreShrinks(s: State, a: Action)
    requires Inv(s) && Enabled(s, a) && s.book.isDestroyed
    requires a.OldClosed? || a.RestoreConnected? || a.Resubscribed? || a.FailedConnectionClosed? || a.FailedConnectionClosedAgain?
             || a.PublishedChecked? || a.UndoClosed? || a.DelayElapsed? || a.DelayResumed?
    ensures Shrinks(s, NextRestore(s, a))
  {
    hide Inv, Book.ClearState, Book.CompleteDelay, Book.DeleteIfIdle, Book.GetOrCreate, Book.StopHealthCheck;
    InvParts(s);
    if a.OldClosed? || a.RestoreConnected? || a.Resubscribed? || a.FailedConnectionClosed? {
      RestoreAttemptShrinks(s, a);
    }
  }

  lemma CloseKeepsShutdownInv(s: State, a: Action)
    requires Inv(s) && ShutdownInv(s) && Enabled(s, a) && (a.UserUnlisten? || a.CloseDrained? || a.CloseReleased? || a.CloseCleared?)
    ensures ShutdownInv(NextClose(s, a))
  {
    hide Inv, Unlisten, Book.ClearState;
    InvParts(s);
    if a.UserUnlisten? {
      UnlistenShrinks(s, a.channel, a.hasTail);
      ShrinkingKeepsShutdownInv(s, NextClose(s, a));
    }
  }

  /** Stage two begins with a close under way, or just started, for every channel still pooled. */
  lemma RestBegins(s: State, a: Action)
    requires Inv(s) && ShutdownInv(s) && Enabled(s, a) && a.DestroyRest?
    ensures ShutdownInv(NextDestroy(s, a))
  {
    hide Inv, UnlistenAll;
    InvParts(s);
    assert PooledClosesDrain(s);
    CancelAllRespects(s.book, a.pooled);
    var s0 := s.(book := CancelAll(s.book, a.pooled));
    ShuttingDownKeepsInv(s, s0);
    UnlistenAllShrinks(s0, a.pooled, a.tails);
    var s1 := UnlistenAll(s0, a.pooled, a.tails);
    InvParts(s0);
    assert PooledClosesDrain(s1);
  }

  lemma DestroyKeepsShutdownInv(s: State, a: Action)
    requires Inv(s) && ShutdownInv(s) && Enabled(s, a) && (a.Destroy? || a.DestroyFinishes?)
    ensures ShutdownInv(NextDestroy(s, a))
  {
    hide Inv, Book.BeginDestroy, Book.StopAllHealthChecks;
    if a.Destroy? {
      InvParts(s);
      BeginDestroyKeepsWorkflows(s.book);
      StopAllKeepsWorkflows(s.book.BeginDestroy());
      var b := s.book.BeginDestroy().StopAllHealthChecks();
      CancelAllRespects(b, a.pooled + a.restoring);
      var s0 := s.(book := CancelAll(b, a.pooled + a.restoring), shutdown := UnsubscribingAll({}));
      ShuttingDownKeepsInv(s, s0);
      UnlistenAllShrinks(s0, a.pooled, a.tails);
    }
  }

  /** `destroy` never forgets a connection: its pool is already empty when it clears it. */
  lemma ClearedPoolIsEmpty(s: State)
    requires Inv(s) && ShutdownInv(s) && Enabled(s, DestroyFinishes)
    ensures s.pool == map[]
  {
    hide Inv;
    InvParts(s);
    assert forall ch :: ch !in s.pool;
  }

  lemma DestroyKeepsAccounted(s: State, a: Action)
    requires Inv(s) && Accounted(s) && ShutdownInv(s) && Enabled(s, a) && (a.Destroy? || a.DestroyRest? || a.DestroyFinishes?)
    ensures Accounted(NextDestroy(s, a))
  {
    hide Inv, ShutdownInv, Accounted, UnlistenAll, Book.BeginDestroy, Book.StopAllHealthChecks;
    InvParts(s);
    if a.DestroyFinishes? {
      ClearedPoolIsEmpty(s);
      HandsKeepsAccounted(s, NextDestroy(s, a), 0, s.nextTask);
    } else {
      var b := if a.Destroy? then s.book.BeginDestroy().StopAllHealthChecks() else s.book;
      BeginDestroyKeepsWorkflows(s.book);
      StopAllKeepsWorkflows(s.book.BeginDestroy());
      var chs := if a.Destroy? then a.pooled + a.restoring else a.pooled;
      CancelAllRespects(b, chs);
      var s0 := s.(book := CancelAll(b, chs), shutdown := if a.Destroy? then UnsubscribingAll({}) else s.shutdown);
      ShuttingDownKeepsInv(s, s0);
      HandsKeepsAccounted(s, s0, 0, s.nextTask);
      UnlistenAllKeepsAccounted(s0, a.pooled, a.tails);
      var s1 := UnlistenAll(s0, a.pooled, a.tails);
      HandsKeepsAccounted(s1, NextDestroy(s, a), 0, s1.nextTask);
    }
  }

  // ---------------------------------------------------------------- every step, every run

  ghost predicate Safe(s: State) {
    Inv(s) && Accounted(s) && ShutdownInv(s)
  }

  lemma StepKeepsSafe(s: State, a: Action)
    requires Safe(s) && Enabled(s, a)
    ensures Safe(Next(s, a))
  {
    hide Inv, Accounted, ShutdownInv, NextClose, NextDestroy, NextHealth, NextRegistration, NextRestore;
    StepKeepsInv(s, a);
    if a.Destroy? || a.DestroyRest? || a.DestroyFinishes? {
      DestroyKeepsAccounted(s, a);
      if a.DestroyRest? { RestBegins(s, a); } else { DestroyKeepsShutdownInv(s, a); }
    } else if a.UserUnlisten? || a.CloseDrained? || a.CloseReleased? || a.CloseCleared? {
      CloseKeepsAccounted(s, a);
      CloseKeepsShutdownInv(s, a);
    } else {
      if a.HealthTick? || a.HealthProbed? || a.HealthResumed? || a.Deregistered? { HealthKeepsAccounted(s, a); }
      else if a.Listen? || a.RegistrationStarts? || a.RegistrationConnected? || a.RegistrationSubscribed?
              || a.RegistrationCleaned? || a.RegistrationRolledBack? { RegistrationKeepsAccounted(s, a); }
      else { RestoreKeepsAccounted(s, a); }
      OperationKeepsShutdownInv(s, a);
    }
  }

  lemma OperationKeepsShutdownInv(s: State, a: Action)
    requires Inv(s) && ShutdownInv(s) && Enabled(s, a)
    requires !(a.Destroy? || a.DestroyRest? || a.DestroyFinishes? || a.UserUnlisten? || a.CloseDrained? || a.CloseReleased? || a.CloseCleared?)
    ensures ShutdownInv(Next(s, a))
  {
    hide Inv, NextHealth, NextRegistration, NextRestore;
    InvParts(s);
    if s.book.isDestroyed {
      if a.HealthTick? || a.HealthProbed? || a.HealthResumed? || a.Deregistered? { HealthShrinks(s, a); }
      else if a.Listen? || a.RegistrationStarts? || a.RegistrationConnected? || a.RegistrationSubscribed?
              || a.RegistrationCleaned? || a.RegistrationRolledBack? { RegistrationShrinks(s, a); }
      else { RestoreShrinks(s, a); }
      ShrinkingKeepsShutdownInv(s, Next(s, a));
    } else {
      OperationKeepsStage(s, a);
    }
  }

  /** Only `destroy` itself moves the shutdown stage. */
  lemma OperationKeepsStage(s: State, a: Action)
    requires Inv(s) && Enabled(s, a)
    requires !(a.Destroy? || a.DestroyRest? || a.DestroyFinishes? || a.UserUnlisten? || a.CloseDrained? || a.CloseReleased? || a.CloseCleared?)
    ensures Next(s, a).shutdown == s.shutdown
  {
    hide Inv, Unlisten, Book.StopHealthCheck, Book.ClearState, Book.GetOrCreate, Book.DeleteIfIdle, Book.MarkActive, Book.StartHealthCheck;
    InvParts(s);
    if (a.RegistrationConnected? && !a.ok) || a.RegistrationCleaned? {
      var t, done := a.task, s.tasks[a.task].done;
      if done != [] {
        var s1 := if a.RegistrationCleaned? then s.(closed := s.closed + multiset{s.tasks[t].phase.connection}) else s;
        UnlistenAllKeepsOthers(SetTask(s1, t, Registration(RollingBack({}), 0, done)), done, a.tails, t);
      }
    }
  }
}
