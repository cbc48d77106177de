/** Theorems about whole runs of the Oracle notification protocol. */
module OracleNotifyRuns {
  import opened Options
  import opened RestoreRecords
  import opened OracleNotifyProtocol
  import opened OracleNotifySafety
  import opened OracleNotifyTheorems

  ghost predicate Step(s: State, s': State) {
    exists a :: Enabled(s, a) && s' == Next(s, a)
  }

  ghost predicate Run(run: seq<State>) {
    && |run| > 0 && run[0] == INITIAL
    && forall i :: 0 <= i < |run| - 1 ==> Step(run[i], run[i + 1])
  }

  lemma {:induction false} RunsAreSafe(run: seq<State>, i: nat)
    requires Run(run) && i < |run|
    ensures Safe(run[i])
  {
    hide Enabled, Next;
    if i == 0 {
      assert forall ch :: ChannelInv(INITIAL, ch);
    } else {
      RunsAreSafe(run, i - 1);
      assert Step(run[i - 1], run[i - 1 + 1]);
      var a :| Enabled(run[i - 1], a) && run[i] == Next(run[i - 1], a);
      hide Safe;
      StepKeepsSafe(run[i - 1], a);
    }
  }

  /** In every state of every run, each connection ever created is pooled, owned by an operation, or closed. */
  lemma ConnectionsAreConserved(run: seq<State>, i: nat, c: Connection)
    requires Run(run) && i < |run| && c < run[i].nextConnection
    ensures c in run[i].closed || Pooled(run[i], c) || Held(run[i], c)
  {
    RunsAreSafe(run, i);
  }

  /** At most one restore workflow runs per channel. */
  lemma OneWorkflowPerChannel(run: seq<State>, i: nat, t: TaskId, u: TaskId, ch: Channel)
    requires Run(run) && i < |run| && RestoreOn(run[i], t, ch) && RestoreOn(run[i], u, ch)
    ensures t == u
  {
    RunsAreSafe(run, i);
    assert ChannelInv(run[i], ch);
  }

  // ---------------------------------------------------------------- after destroy

  lemma DestroyedPoolShrinks(s: State, a: Action)
    requires Safe(s) && Enabled(s, a) && s.book.isDestroyed
    ensures forall ch :: ch in Next(s, a).pool ==> ch in s.pool && Next(s, a).pool[ch] == s.pool[ch]
    ensures Next(s, a).book.isDestroyed
    ensures s.shutdown.Finished? ==> Next(s, a).shutdown.Finished?
  {
    hide Inv, Accounted, ShutdownInv, NextHealth, NextRegistration, NextRestore, Unlisten, Book.ClearState;
    StepKeepsSafe(s, a);
    InvParts(s);
    InvParts(Next(s, a));
    if a.DestroyRest? {
      var s0 := s.(book := CancelAll(s.book, a.pooled));
      CancelAllRespects(s.book, a.pooled);
      ShuttingDownKeepsInv(s, s0);
      UnlistenAllShrinks(s0, a.pooled, a.tails);
    } else if a.DestroyFinishes? || a.Destroy? {
    } else if a.UserUnlisten? {
      UnlistenShrinks(s, a.channel, a.hasTail);
    } else if a.CloseDrained? || a.CloseReleased? || a.CloseCleared? {
    } else if a.HealthTick? || a.HealthProbed? || a.HealthResumed? || a.Deregistered? {
      HealthShrinks(s, a);
    } else if a.Listen? || a.RegistrationStarts? || a.RegistrationConnected? || a.RegistrationSubscribed?
            || a.RegistrationCleaned? || a.RegistrationRolledBack? {
      RegistrationShrinks(s, a);
    } else {
      RestoreShrinks(s, a);
    }
  }

  /** Once `destroy` has been called, no connection is ever added to the pool. */
  lemma {:induction false} NothingPooledAfterDestroy(run: seq<State>, i: nat, j: nat, ch: Channel)
    requires Run(run) && i <= j < |run| && run[i].book.isDestroyed && ch in run[j].pool
    ensures ch in run[i].pool && run[j].pool[ch] == run[i].pool[ch] && run[j].book.isDestroyed
    decreases j - i
  {
    hide Enabled, Next;
    if i < j {
      RunsAreSafe(run, i);
      assert Step(run[i], run[i + 1]);
      var a :| Enabled(run[i], a) && run[i + 1] == Next(run[i], a);
      DestroyedPoolShrinks(run[i], a);
      NothingPooledAfterDestroy(run, i + 1, j, ch);
    }
  }

  /**
   When `destroy` settles, the pool is empty for good, and it has forgotten no
   connection: each one is closed, or an operation that outlived the shutdown
   timeouts still owns it.
   */
  lemma {:induction false} DestroyEmptiesThePool(run: seq<State>, i: nat, j: nat)
    requires Run(run) && i <= j < |run| && run[i].shutdown.Finished?
    ensures run[j].pool == map[] && run[j].shutdown.Finished?
    ensures forall c :: 0 <= c < run[j].nextConnection ==> c in run[j].closed || Held(run[j], c)
    decreases j - i
  {
    hide Enabled, Next, Inv;
    RunsAreSafe(run, i);
    InvParts(run[i]);
    if i < j {
      assert Step(run[i], run[i + 1]);
      var a :| Enabled(run[i], a) && run[i + 1] == Next(run[i], a);
      DestroyedPoolShrinks(run[i], a);
      DestroyEmptiesThePool(run, i + 1, j);
    } else {
      assert forall c :: !Pooled(run[j], c);
    }
  }

  // ---------------------------------------------------------------- cancellation

  /** Workflow `t` would find itself cancelled at its next check. */
  ghost predicate Cancelled(s: State, t: TaskId) {
    && t in s.tasks && s.tasks[t].Restore?
    && (s.book.isDestroyed || (s.tasks[t].record < |s.book.store| && s.book.store[s.tasks[t].record].isCancelled))
  }

  /** The workflow's own check, by channel name, reads the same flag. */
  lemma ChecksReadTheFlag(s: State, t: TaskId)
    requires Inv(s) && t in s.tasks && s.tasks[t].Restore?
    ensures s.book.IsCancelled(s.tasks[t].channel) <==> Cancelled(s, t)
    ensures s.tasks[t].record < |s.book.store| && s.book.store[s.tasks[t].record].activeRestore == Some(t)
  {
    assert ChannelInv(s, s.tasks[t].channel) && RestoreOwns(s, t, s.tasks[t].channel) && RestoreOn(s, t, s.tasks[t].channel);
  }

  /** Task `t` is the same workflow in both states, and has not been un-cancelled. */
  ghost predicate SameWorkflow(s: State, s': State, t: TaskId) {
    t in s.tasks && s.tasks[t].Restore? && t in s'.tasks ==>
      && s'.tasks[t].Restore? && s'.tasks[t].channel == s.tasks[t].channel && s'.tasks[t].record == s.tasks[t].record
      && (Cancelled(s, t) ==> Cancelled(s', t))
  }

  lemma RespectingKeepsFlag(s: State, s': State, ch: Channel, t: TaskId)
    requires Inv(s) && Respects(s.book, s'.book, ch)
    requires t in s.tasks && t in s'.tasks && s.tasks[t].Restore? && s'.tasks[t].Restore?
    requires s'.tasks[t].channel == s.tasks[t].channel && s'.tasks[t].record == s.tasks[t].record
    ensures SameWorkflow(s, s', t)
  {
    ChecksReadTheFlag(s, t);
  }

  lemma UnlistenKeepsWorkflow(s: State, ch: Channel, hasTail: bool, t: TaskId)
    requires Inv(s) && t in s.tasks && s.tasks[t].Restore?
    ensures t in Unlisten(s, ch, hasTail).tasks && SameWorkflow(s, Unlisten(s, ch, hasTail), t)
  {
    hide Inv, Book.CancelRestore, Book.StopHealthCheck, Book.ClearState;
    InvParts(s);
    UnlistenKeepsOthers(s, ch, hasTail, t);
    var b := CancelAndStop(s.book, ch);
    ClearingTouchesOneChannel(b, ch);
    RespectsTwice(s.book, b, b.ClearState(ch), ch);
    RespectingKeepsFlag(s, Unlisten(s, ch, hasTail), ch, t);
  }

  lemma {:induction false} UnlistenAllKeepsWorkflow(s: State, channels: seq<Channel>, tails: set<Channel>, t: TaskId)
    requires Inv(s) && t in s.tasks && s.tasks[t].Restore?
    ensures t in UnlistenAll(s, channels, tails).tasks && SameWorkflow(s, UnlistenAll(s, channels, tails), t)
    decreases |channels|
  {
    hide Unlisten, Inv;
    if channels != [] {
      var s1 := Unlisten(s, channels[0], channels[0] in tails);
      UnlistenKeepsWorkflow(s, channels[0], channels[0] in tails, t);
      UnlistenKeepsInv(s, channels[0], channels[0] in tails);
      UnlistenAllKeepsWorkflow(s1, channels[1..], tails, t);
    }
  }

  lemma RegistrationKeepsWorkflow(s: State, a: Action, t: TaskId)
    requires Inv(s) && Enabled(s, a) && t in s.tasks && s.tasks[t].Restore?
    requires a.Listen? || a.RegistrationStarts? || a.RegistrationConnected? || a.RegistrationSubscribed? || a.RegistrationCleaned? || a.RegistrationRolledBack?
    ensures t in NextRegistration(s, a).tasks && SameWorkflow(s, NextRegistration(s, a), t)
  {
    hide Inv, Unlisten, Book.MarkActive, Book.StartHealthCheck;
    InvParts(s);
    if (a.RegistrationConnected? && !a.ok) || a.RegistrationCleaned? {
      var u, done := a.task, s.tasks[a.task].done;
      if done != [] {
        var s1 := if a.RegistrationCleaned? then s.(closed := s.closed + multiset{s.tasks[u].phase.connection}) else s;
        ClosingKeepsInv(s, s1);
        var s0 := SetTask(s1, u, Registration(RollingBack({}), 0, done));
        NeutralTask(s1, s0, u);
        UnlistenAllKeepsWorkflow(s0, done, a.tails, t);
      }
    } else if a.RegistrationSubscribed? {
      var b := MarkAndStart(s.book, s.nextChannel, s.tasks[a.task].phase.connection);
      if a.ok && !s.book.isDestroyed { RespectingKeepsFlag(s, NextRegistration(s, a), s.nextChannel, t); }
    }
  }

  lemma CloseKeepsWorkflow(s: State, a: Action, t: TaskId)
    requires Inv(s) && Enabled(s, a) && t in s.tasks && s.tasks[t].Restore?
    requires a.UserUnlisten? || a.CloseDrained? || a.CloseReleased? || a.CloseCleared?
    ensures t in NextClose(s, a).tasks && SameWorkflow(s, NextClose(s, a), t)
  {
    hide Inv, Unlisten, Book.ClearState;
    InvParts(s);
    if a.UserUnlisten? {
      UnlistenKeepsWorkflow(s, a.channel, a.hasTail, t);
    } else if a.CloseDrained? {
      ClearingTouchesOneChannel(s.book, s.tasks[a.task].channel);
      RespectingKeepsFlag(s, NextClose(s, a), s.tasks[a.task].channel, t);
    }
  }

  lemma StartRestoreKeepsWorkflow(s: State, ch: Channel, maxRetries: nat, t: TaskId)
    requires Inv(s) && t in s.tasks && s.tasks[t].Restore? && ch in s.pool
    ensures var s1 := StartRestore(s, ch, maxRetries).0; t in s1.tasks && SameWorkflow(s, s1, t)
  {
    hide Book.StopHealthCheck;
    ChecksReadTheFlag(s, t);
    assert ChannelInv(s, ch) && PooledIsWatched(s, ch);
    if !s.book.IsCancelled(ch) && s.book.At(ch).activeRestore.None? {
      var b := s.book.Put(s.book.records[ch], s.book.At(ch).(activeRestore := Some(s.nextTask)));
      StoppingTouchesOneChannel(b, ch);
    }
  }

  lemma HealthEndKeepsWorkflow(s: State, u: TaskId, t: TaskId)
    requires Inv(s) && t in s.tasks && s.tasks[t].Restore? && u in s.tasks && s.tasks[u].Health?
    ensures t in EndHealth(s, u, s.tasks[u]).tasks && SameWorkflow(s, EndHealth(s, u, s.tasks[u]), t)
  {
    ChecksReadTheFlag(s, t);
  }

  lemma HealthKeepsWorkflow(s: State, a: Action, t: TaskId)
    requires Inv(s) && Enabled(s, a) && t in s.tasks && s.tasks[t].Restore?
    requires a.HealthTick? || a.HealthProbed? || a.HealthResumed? || a.Deregistered?
    ensures t in NextHealth(s, a).tasks && SameWorkflow(s, NextHealth(s, a), t)
  {
    hide Inv, StartRestore, EndHealth, Book.GetOrCreate;
    InvParts(s);
    if a.Deregistered? {
      StartRestoreKeepsWorkflow(s, a.channel, a.maxRetries, t);
    } else if a.HealthTick? {
      var ch := s.book.store[a.record].healthCheckTimer.value.channel;
      CreatingTouchesOneChannel(s.book, ch);
      ChecksReadTheFlag(s, t);
    } else {
      HealthEndKeepsWorkflow(s, a.task, t);
      if a.HealthProbed? && s.tasks[a.task].channel in s.pool {
        StartRestoreKeepsWorkflow(s, s.tasks[a.task].channel, a.maxRetries, t);
        StartRestoreKeepsInv(s, s.tasks[a.task].channel, a.maxRetries);
        StartedHealthStays(s, a.task, a.maxRetries);
        HealthEndKeepsWorkflow(StartRestore(s, s.tasks[a.task].channel, a.maxRetries).0, a.task, t);
      }
    }
  }

  lemma EndRestoreKeepsWorkflow(s: State, u: TaskId, t: TaskId)
    requires Inv(s) && t in s.tasks && s.tasks[t].Restore? && u in s.tasks && s.tasks[u].Restore?
    ensures var s' := EndRestore(s, u, s.tasks[u]); SameWorkflow(s, s', t) && u !in s'.tasks && (t != u ==> t in s'.tasks)
  {
    ChecksReadTheFlag(s, t);
    ChecksReadTheFlag(s, u);
  }

  lemma FailedAttemptKeepsWorkflow(s: State, u: TaskId, t: TaskId)
    requires Inv(s) && t in s.tasks && s.tasks[t].Restore? && u in s.tasks && s.tasks[u].Restore? && s.tasks[u].channel !in s.pool
    ensures var s' := AttemptFailed(s, u, s.tasks[u]); SameWorkflow(s, s', t) && (t != u ==> t in s'.tasks)
  {
    hide Book.ClearState, EndRestore;
    var ch := s.tasks[u].channel;
    ClearingTouchesOneChannel(s.book, ch);
    var s1 := s.(book := s.book.ClearState(ch));
    BookStepKeepsInv(s, s1, ch);
    RespectingKeepsFlag(s, s1, ch, t);
    if s1.book.IsCancelled(ch) { EndRestoreKeepsWorkflow(s1, u, t); }
    else { CreatingTouchesOneChannel(s1.book, ch); ChecksReadTheFlag(s1, t); }
  }

  lemma AwaitedCloseKeepsWorkflow(s: State, a: Action, t: TaskId)
    requires Inv(s) && Enabled(s, a) && t in s.tasks && s.tasks[t].Restore? && (a.OldClosed? || a.UndoClosed?)
    ensures SameWorkflow(s, NextRestore(s, a), t)
    ensures t != a.task ==> t in NextRestore(s, a).tasks
  {
    hide Inv, EndRestore;
    var task := s.tasks[a.task];
    var s1 := s.(closed := s.closed + multiset(OptionSet(if a.OldClosed? then task.step.replaced else task.step.undone)));
    ClosingKeepsInv(s, s1);
    EndRestoreKeepsWorkflow(s1, a.task, t);
  }

  lemma ConnectingKeepsWorkflow(s: State, a: Action, t: TaskId)
    requires Inv(s) && Enabled(s, a) && t in s.tasks && s.tasks[t].Restore?
    requires a.RestoreConnected? || a.FailedConnectionClosed? || a.FailedConnectionClosedAgain?
    ensures SameWorkflow(s, NextRestore(s, a), t)
    ensures t != a.task ==> t in NextRestore(s, a).tasks
  {
    hide Inv, AttemptFailed, Book.StopHealthCheck;
    var ch := s.tasks[a.task].channel;
    InvParts(s);
    UnpublishedIsOut(s, a.task);
    StoppingTouchesOneChannel(s.book, ch);
    if a.FailedConnectionClosedAgain? {
      var s1 := s.(closed := s.closed + multiset{s.tasks[a.task].step.connection});
      ClosingKeepsInv(s, s1);
      FailedAttemptKeepsWorkflow(s1, a.task, t);
    } else if a.FailedConnectionClosed? || a.ok {
      RespectingKeepsFlag(s, s.(book := s.book.StopHealthCheck(ch)), ch, t);
    } else {
      var s1 := s.(book := s.book.StopHealthCheck(ch));
      BookStepKeepsInv(s, s1, ch);
      RespectingKeepsFlag(s, s1, ch, t);
      FailedAttemptKeepsWorkflow(s1, a.task, t);
    }
  }

  /** A workflow's own step, and another's, leave the flag of `t` set. */
  lemma RestoreKeepsWorkflow(s: State, a: Action, t: TaskId)
    requires Inv(s) && Enabled(s, a) && t in s.tasks && s.tasks[t].Restore?
    requires a.OldClosed? || a.RestoreConnected? || a.Resubscribed? || a.FailedConnectionClosed? || a.FailedConnectionClosedAgain?
             || a.PublishedChecked? || a.UndoClosed? || a.DelayElapsed? || a.DelayResumed?
    ensures SameWorkflow(s, NextRestore(s, a), t)
    ensures t != a.task ==> t in NextRestore(s, a).tasks
  {
    hide Inv, Book.StopHealthCheck, Book.MarkActive, Book.StartHealthCheck, EndRestore, AttemptFailed;
    var ch := s.tasks[a.task].channel;
    if a.OldClosed? || a.UndoClosed? {
      AwaitedCloseKeepsWorkflow(s, a, t);
    } else if a.RestoreConnected? || a.FailedConnectionClosed? || a.FailedConnectionClosedAgain? {
      ConnectingKeepsWorkflow(s, a, t);
    } else {
      PausingKeepsWorkflow(s, a, t);
    }
  }

  lemma PausingKeepsWorkflow(s: State, a: Action, t: TaskId)
    requires Inv(s) && Enabled(s, a) && t in s.tasks && s.tasks[t].Restore?
    requires a.Resubscribed? || a.PublishedChecked? || a.DelayElapsed? || a.DelayResumed?
    ensures SameWorkflow(s, NextRestore(s, a), t)
    ensures t != a.task ==> t in NextRestore(s, a).tasks
  {
    hide Inv, Book.StopHealthCheck, EndRestore, SameWorkflow;
    if a.Resubscribed? {
      ResubscribedKeepsWorkflow(s, a, t);
    } else if a.DelayElapsed? {
      ElapsedKeepsWorkflow(s, a, t);
    } else {
      CheckingKeepsWorkflow(s, a, t);
    }
  }

  lemma ElapsedKeepsWorkflow(s: State, a: Action, t: TaskId)
    requires Inv(s) && Enabled(s, a) && t in s.tasks && s.tasks[t].Restore? && a.DelayElapsed?
    ensures SameWorkflow(s, NextRestore(s, a), t) && t in NextRestore(s, a).tasks
  {
    hide Inv;
    InvParts(s);
    ChecksReadTheFlag(s, t);
  }

  lemma CheckingKeepsWorkflow(s: State, a: Action, t: TaskId)
    requires Inv(s) && Enabled(s, a) && t in s.tasks && s.tasks[t].Restore? && (a.PublishedChecked? || a.DelayResumed?)
    ensures SameWorkflow(s, NextRestore(s, a), t)
    ensures t != a.task ==> t in NextRestore(s, a).tasks
  {
    hide Inv, Book.StopHealthCheck, EndRestore;
    InvParts(s);
    ChecksReadTheFlag(s, t);
    StoppingTouchesOneChannel(s.book, s.tasks[a.task].channel);
    EndRestoreKeepsWorkflow(s, a.task, t);
  }

  lemma ResubscribedKeepsWorkflow(s: State, a: Action, t: TaskId)
    requires Inv(s) && Enabled(s, a) && t in s.tasks && s.tasks[t].Restore? && a.Resubscribed?
    ensures SameWorkflow(s, NextRestore(s, a), t)
    ensures t != a.task ==> t in NextRestore(s, a).tasks
  {
    hide Inv, Book.StopHealthCheck, Book.MarkActive, Book.StartHealthCheck;
    InvParts(s);
    ChecksReadTheFlag(s, t);
    var b := MarkAndStart(s.book, s.tasks[a.task].channel, s.tasks[a.task].step.connection);
  }

  lemma DestroyKeepsWorkflow(s: State, a: Action, t: TaskId)
    requires Inv(s) && Enabled(s, a) && t in s.tasks && s.tasks[t].Restore? && (a.Destroy? || a.DestroyRest? || a.DestroyFinishes?)
    ensures t in NextDestroy(s, a).tasks && SameWorkflow(s, NextDestroy(s, a), t)
  {
    hide Inv, Book.BeginDestroy, Book.StopAllHealthChecks, Unlisten;
    InvParts(s);
    DestroyKeepsInv(s, a);
    InvParts(NextDestroy(s, a));
    if !a.DestroyFinishes? {
      var b := if a.Destroy? then s.book.BeginDestroy().StopAllHealthChecks() else s.book;
      BeginDestroyKeepsWorkflows(s.book);
      StopAllKeepsWorkflows(s.book.BeginDestroy());
      var chs := if a.Destroy? then a.pooled + a.restoring else a.pooled;
      CancelAllRespects(b, chs);
      var s0 := s.(book := CancelAll(b, chs), shutdown := if a.Destroy? then UnsubscribingAll({}) else s.shutdown);
      ShuttingDownKeepsInv(s, s0);
      UnlistenAllKeepsWorkflow(s0, a.pooled, a.tails, t);
      UnlistenAllStaysDestroyed(s0, a.pooled, a.tails);
    }
  }

  /** While a workflow runs, its cancellation can only be switched on; it keeps its channel and record. */
  lemma CancellationSticks(s: State, a: Action, t: TaskId)
    requires Inv(s) && Enabled(s, a)
    ensures SameWorkflow(s, Next(s, a), t)
  {
    hide Inv, NextClose, NextDestroy, NextHealth, NextRegistration, NextRestore;
    if t in s.tasks && s.tasks[t].Restore? {
      if a.Destroy? || a.DestroyRest? || a.DestroyFinishes? { DestroyKeepsWorkflow(s, a, t); }
      else if a.UserUnlisten? || a.CloseDrained? || a.CloseReleased? || a.CloseCleared? { CloseKeepsWorkflow(s, a, t); }
      else if a.HealthTick? || a.HealthProbed? || a.HealthResumed? || a.Deregistered? { HealthKeepsWorkflow(s, a, t); }
      else if a.Listen? || a.RegistrationStarts? || a.RegistrationConnected? || a.RegistrationSubscribed?
              || a.RegistrationCleaned? || a.RegistrationRolledBack? { RegistrationKeepsWorkflow(s, a, t); }
      else { RestoreKeepsWorkflow(s, a, t); }
    }
  }

  /** A cancelled workflow that ends leaves its channel out of the pool. */
  lemma CancelledEndIsUnpooled(s: State, a: Action, t: TaskId)
    requires Inv(s) && Enabled(s, a) && Cancelled(s, t) && t !in Next(s, a).tasks
    ensures s.tasks[t].channel !in Next(s, a).pool
  {
    hide Inv, NextClose, NextDestroy, NextHealth, NextRegistration;
    if a.Destroy? || a.DestroyRest? || a.DestroyFinishes? { DestroyKeepsWorkflow(s, a, t); }
    else if a.UserUnlisten? || a.CloseDrained? || a.CloseReleased? || a.CloseCleared? { CloseKeepsWorkflow(s, a, t); }
    else if a.HealthTick? || a.HealthProbed? || a.HealthResumed? || a.Deregistered? { HealthKeepsWorkflow(s, a, t); }
    else if a.Listen? || a.RegistrationStarts? || a.RegistrationConnected? || a.RegistrationSubscribed?
            || a.RegistrationCleaned? || a.RegistrationRolledBack? { RegistrationKeepsWorkflow(s, a, t); }
    else {
      RestoreKeepsWorkflow(s, a, t);
      OwnCancelledEndIsUnpooled(s, a);
    }
  }

  lemma OwnCancelledEndIsUnpooled(s: State, a: Action)
    requires Inv(s) && Enabled(s, a)
    requires a.OldClosed? || a.RestoreConnected? || a.Resubscribed? || a.FailedConnectionClosed? || a.FailedConnectionClosedAgain?
             || a.PublishedChecked? || a.UndoClosed? || a.DelayElapsed? || a.DelayResumed?
    requires Cancelled(s, a.task) && a.task !in NextRestore(s, a).tasks
    ensures s.tasks[a.task].channel !in NextRestore(s, a).pool
  {
    hide Inv, Book.StopHealthCheck, Book.MarkActive, Book.StartHealthCheck, Book.ClearState, Book.GetOrCreate, Book.DeleteIfIdle, Book.CompleteDelay;
    ChecksReadTheFlag(s, a.task);
    if !a.PublishedChecked? { UnpublishedIsOut(s, a.task); }
  }

  /**
   However a workflow was cancelled, by unlisten or by destroy, at any of its
   awaits: when it is gone, its channel is not in the pool.
   */
  lemma {:induction false} CancelledWorkflowLeavesNothing(run: seq<State>, i: nat, j: nat, t: TaskId)
    requires Run(run) && i < j < |run| && Cancelled(run[i], t)
    requires t !in run[j].tasks && forall k :: i <= k < j ==> t in run[k].tasks
    ensures run[i].tasks[t].channel !in run[j].pool
    decreases j - i
  {
    hide Enabled, Next, Cancelled;
    RunsAreSafe(run, i);
    assert Step(run[i], run[i + 1]);
    var a :| Enabled(run[i], a) && run[i + 1] == Next(run[i], a);
    if i + 1 == j {
      CancelledEndIsUnpooled(run[i], a, t);
    } else {
      CancellationSticks(run[i], a, t);
      assert t in run[i].tasks && run[i].tasks[t].Restore? by { CancelledIsWorkflow(run[i], t); }
      CancelledWorkflowLeavesNothing(run, i + 1, j, t);
    }
  }

  lemma CancelledIsWorkflow(s: State, t: TaskId)
    requires Cancelled(s, t)
    ensures t in s.tasks && s.tasks[t].Restore?
  {}
}
