/**
 How a restore workflow of the Oracle notification protocol paces its attempts,
 whatever else happens between its awaits.
 */
module OracleNotifyAttempts {
  import opened RestoreRecords
  import opened OracleNotifyProtocol
  import opened OracleNotifySafety
  import opened OracleNotifyTheorems
  import opened OracleNotifyRuns
  import RestoreRetry

  /** The retry counter of a workflow, and the length of the delay it is in. */
  ghost predicate Paced(task: Task) {
    task.Restore? ==>
      && RestoreRetry.FIRST_RETRY <= task.retry <= task.maxRetries
      && (task.step.Delaying? ==> (task.step.long <==> task.retry == task.maxRetries))
  }

  ghost predicate AllPaced(s: State) {
    forall t :: t in s.tasks ==> Paced(s.tasks[t])
  }

  /** A workflow begins its next attempt. */
  ghost predicate Begins(task: Task, task': Task) {
    && task.Restore? && task'.Restore? && task.step.Delaying? && task'.step.ClosingOld?
    && task'.maxRetries == task.maxRetries
    && task'.retry == if task.step.long then RestoreRetry.FIRST_RETRY else task.retry + 1
  }

  /** Within an attempt the counter stays. */
  ghost predicate Continues(task: Task, task': Task) {
    && task.Restore? && task'.Restore? && !task.step.Delaying? && !task'.step.ClosingOld?
    && task'.maxRetries == task.maxRetries && task'.retry == task.retry
    && (task'.step.Delaying? ==> (task'.step.long <==> task.retry >= task.maxRetries))
  }

  /** What one step can do to a workflow that goes on, and how it can start one. */
  ghost predicate KeepsPace(s: State, a: Action, s': State, t: TaskId) {
    && (t in s.tasks && s.tasks[t].Restore? && t in s'.tasks ==>
          || s'.tasks[t] == s.tasks[t]
          || (Begins(s.tasks[t], s'.tasks[t]) && !s.book.IsCancelled(s.tasks[t].channel))
          || Continues(s.tasks[t], s'.tasks[t]))
    && (t in s'.tasks && !(t in s.tasks && s.tasks[t].Restore?) ==> StartsPaced(s'.tasks[t]))
  }

  ghost predicate StartsPaced(task: Task) {
    task.Restore? ==> task.retry == RestoreRetry.FIRST_RETRY <= task.maxRetries && task.step.ClosingOld?
  }

  // ---------------------------------------------------------------- every step

  lemma {:induction false} UnlistenAllAddsCloses(s: State, channels: seq<Channel>, tails: set<Channel>, t: TaskId)
    requires Inv(s)
    ensures var s1 := UnlistenAll(s, channels, tails);
            && (t in s.tasks ==> t in s1.tasks && s1.tasks[t] == s.tasks[t])
            && (t in s1.tasks && t !in s.tasks ==> s1.tasks[t].Closing?)
    decreases |channels|
  {
    InvParts(s);
    if channels != [] {
      hide Inv;
      UnlistenKeepsInv(s, channels[0], channels[0] in tails);
      UnlistenAllAddsCloses(Unlisten(s, channels[0], channels[0] in tails), channels[1..], tails, t);
    }
  }

  lemma RegistrationKeepsPace(s: State, a: Action, t: TaskId)
    requires Inv(s) && Enabled(s, a)
    requires a.Listen? || a.RegistrationStarts? || a.RegistrationConnected? || a.RegistrationSubscribed? || a.RegistrationCleaned? || a.RegistrationRolledBack?
    ensures KeepsPace(s, a, NextRegistration(s, a), t)
  {
    hide Inv, Unlisten, Book.MarkActive, Book.StartHealthCheck;
    InvParts(s);
    if (a.RegistrationConnected? && !a.ok) || a.RegistrationCleaned? {
      var u, done := a.task, s.tasks[a.task].done;
      if done != [] {
        var s1 := if a.RegistrationCleaned? then s.(closed := s.closed + multiset{s.tasks[u].phase.connection}) else s;
        ClosingKeepsInv(s, s1);
        var s0 := SetTask(s1, u, Registration(RollingBack({}), 0, done));
        NeutralTask(s1, s0, u);
        UnlistenAllAddsCloses(s0, done, a.tails, t);
      }
    }
  }

  lemma CloseKeepsPace(s: State, a: Action, t: TaskId)
    requires Inv(s) && Enabled(s, a) && (a.UserUnlisten? || a.CloseDrained? || a.CloseReleased? || a.CloseCleared?)
    ensures KeepsPace(s, a, NextClose(s, a), t)
  {
    hide Inv, Book.ClearState, Book.CancelRestore, Book.StopHealthCheck;
    InvParts(s);
  }

  lemma HealthKeepsPace(s: State, a: Action, t: TaskId)
    requires Inv(s) && Enabled(s, a) && (a.HealthTick? || a.HealthProbed? || a.HealthResumed? || a.Deregistered?)
    ensures KeepsPace(s, a, NextHealth(s, a), t)
  {
    hide Inv, Book.GetOrCreate, Book.StopHealthCheck;
    InvParts(s);
  }

  lemma EndingEndsOne(s: State, t: TaskId, task: Task)
    requires task.Restore?
    ensures EndRestore(s, t, task).tasks == s.tasks - {t}
  {}

  lemma FailingDelaysOrEnds(s: State, t: TaskId, task: Task)
    requires task.Restore?
    ensures var tasks := AttemptFailed(s, t, task).tasks;
            tasks == s.tasks - {t} || tasks == s.tasks[t := task.(step := Delaying(task.retry >= task.maxRetries))]
  {
    hide Book.ClearState, Book.GetOrCreate, Book.DeleteIfIdle;
  }

  lemma ClosingKeepsPace(s: State, a: Action, t: TaskId)
    requires Enabled(s, a) && (a.OldClosed? || a.UndoClosed? || a.FailedConnectionClosedAgain?)
    ensures KeepsPace(s, a, NextRestore(s, a), t)
  {
    hide EndRestore, AttemptFailed;
    var u, task := a.task, s.tasks[a.task];
    var s1 := s.(closed := s.closed + if a.FailedConnectionClosedAgain? then multiset{task.step.connection}
                                      else multiset(OptionSet(if a.OldClosed? then task.step.replaced else task.step.undone)));
    EndingEndsOne(s1, u, task);
    FailingDelaysOrEnds(s1, u, task);
  }

  /** One step of a workflow: it ends, goes on, or begins its next attempt. */
  lemma RestoreKeepsPace(s: State, a: Action, t: TaskId)
    requires Enabled(s, a)
    requires a.OldClosed? || a.RestoreConnected? || a.Resubscribed? || a.FailedConnectionClosed? || a.FailedConnectionClosedAgain?
             || a.PublishedChecked? || a.UndoClosed? || a.DelayElapsed? || a.DelayResumed?
    ensures KeepsPace(s, a, NextRestore(s, a), t)
  {
    hide EndRestore, AttemptFailed, Book.StopHealthCheck, Book.MarkActive, Book.StartHealthCheck, Book.CompleteDelay;
    if a.OldClosed? || a.UndoClosed? || a.FailedConnectionClosedAgain? {
      ClosingKeepsPace(s, a, t);
    } else {
      var u, task := a.task, s.tasks[a.task];
      EndingEndsOne(s, u, task);
      FailingDelaysOrEnds(s.(book := s.book.StopHealthCheck(task.channel)), u, task);
    }
  }

  lemma DestroyKeepsPace(s: State, a: Action, t: TaskId)
    requires Inv(s) && Enabled(s, a) && (a.Destroy? || a.DestroyRest? || a.DestroyFinishes?)
    ensures KeepsPace(s, a, NextDestroy(s, a), t)
  {
    hide Inv, Book.BeginDestroy, Book.StopAllHealthChecks, Unlisten;
    InvParts(s);
    if !a.DestroyFinishes? {
      var b := if a.Destroy? then s.book.BeginDestroy().StopAllHealthChecks() else s.book;
      BeginDestroyKeepsWorkflows(s.book);
      StopAllKeepsWorkflows(s.book.BeginDestroy());
      var chs := if a.Destroy? then a.pooled + a.restoring else a.pooled;
      CancelAllRespects(b, chs);
      var s0 := s.(book := CancelAll(b, chs), shutdown := if a.Destroy? then UnsubscribingAll({}) else s.shutdown);
      ShuttingDownKeepsInv(s, s0);
      UnlistenAllAddsCloses(s0, a.pooled, a.tails, t);
    }
  }

  lemma StepKeepsPace(s: State, a: Action, t: TaskId)
    requires Inv(s) && Enabled(s, a)
    ensures KeepsPace(s, a, Next(s, a), t)
  {
    hide Inv, KeepsPace, NextClose, NextDestroy, NextHealth, NextRegistration, NextRestore;
    if a.Destroy? || a.DestroyRest? || a.DestroyFinishes? { DestroyKeepsPace(s, a, t); }
    else if a.UserUnlisten? || a.CloseDrained? || a.CloseReleased? || a.CloseCleared? { CloseKeepsPace(s, a, t); }
    else if a.HealthTick? || a.HealthProbed? || a.HealthResumed? || a.Deregistered? { HealthKeepsPace(s, a, t); }
    else if a.Listen? || a.RegistrationStarts? || a.RegistrationConnected? || a.RegistrationSubscribed?
            || a.RegistrationCleaned? || a.RegistrationRolledBack? { RegistrationKeepsPace(s, a, t); }
    else { RestoreKeepsPace(s, a, t); }
  }

  // ---------------------------------------------------------------- runs

  lemma {:induction false} RunsArePaced(run: seq<State>, i: nat)
    requires Run(run) && i < |run|
    ensures AllPaced(run[i])
  {
    hide Enabled, Next;
    if i > 0 {
      RunsArePaced(run, i - 1);
      forall t | t in run[i].tasks ensures Paced(run[i].tasks[t]) {
        var a := RunKeepsPace(run, i - 1, t);
      }
    }
  }

  lemma RunKeepsPace(run: seq<State>, i: nat, t: TaskId) returns (a: Action)
    requires Run(run) && i + 1 < |run|
    ensures Safe(run[i]) && Enabled(run[i], a) && run[i + 1] == Next(run[i], a)
    ensures KeepsPace(run[i], a, run[i + 1], t)
  {
    hide Enabled, Next, KeepsPace;
    RunsAreSafe(run, i);
    assert Step(run[i], run[i + 1]);
    a :| Enabled(run[i], a) && run[i + 1] == Next(run[i], a);
    hide Safe;
    StepKeepsPace(run[i], a, t);
  }

  /** Task `t` is a workflow in all states from i to j. */
  ghost predicate Runs(run: seq<State>, t: TaskId, i: nat, j: nat) {
    i <= j < |run| && forall k :: i <= k <= j ==> t in run[k].tasks && run[k].tasks[t].Restore?
  }

  /** How many attempts it begins between them. */
  ghost function Attempts(run: seq<State>, t: TaskId, i: nat, j: nat): nat
    requires Runs(run, t, i, j)
    decreases j - i
  {
    if i == j then 0
    else Attempts(run, t, i, j - 1) + if Begins(run[j - 1].tasks[t], run[j].tasks[t]) then 1 else 0
  }

  ghost predicate InLongDelay(run: seq<State>, t: TaskId, k: nat)
    requires k < |run| && t in run[k].tasks
  {
    run[k].tasks[t].Restore? && run[k].tasks[t].step == Delaying(true)
  }

  /** Without a long delay in between, the counter counts the attempts. */
  lemma {:induction false} CounterCounts(run: seq<State>, t: TaskId, i: nat, j: nat)
    requires Run(run) && Runs(run, t, i, j)
    requires forall k :: i <= k < j ==> !InLongDelay(run, t, k)
    ensures run[j].tasks[t].retry == run[i].tasks[t].retry + Attempts(run, t, i, j)
    ensures run[j].tasks[t].maxRetries == run[i].tasks[t].maxRetries
    decreases j - i
  {
    hide Run, Safe, Enabled, Next, Paced;
    if i < j {
      CounterCounts(run, t, i, j - 1);
      assert !InLongDelay(run, t, j - 1);
      var a := RunKeepsPace(run, j - 1, t);
    }
  }

  /** Between two long delays a workflow begins exactly `maxRetries` attempts, whatever happens around it. */
  lemma MaxRetriesBetweenLongDelays(run: seq<State>, t: TaskId, i: nat, j: nat)
    requires Run(run) && Runs(run, t, i, j) && i + 1 <= j
    requires InLongDelay(run, t, i) && InLongDelay(run, t, j)
    requires forall k :: i < k < j ==> !InLongDelay(run, t, k)
    requires !InLongDelay(run, t, i + 1)
    ensures Attempts(run, t, i, j) == run[i].tasks[t].maxRetries == run[j].tasks[t].maxRetries
  {
    hide Run, Safe, Enabled, Next;
    RunsArePaced(run, i);
    RunsArePaced(run, j);
    var a := RunKeepsPace(run, i, t);
    CounterCounts(run, t, i + 1, j);
    AttemptsSplit(run, t, i, j);
  }

  lemma {:induction false} AttemptsSplit(run: seq<State>, t: TaskId, i: nat, j: nat)
    requires Runs(run, t, i, j) && i < j
    ensures Attempts(run, t, i, j) == (if Begins(run[i].tasks[t], run[i + 1].tasks[t]) then 1 else 0) + Attempts(run, t, i + 1, j)
    decreases j - i
  {
    if i + 1 < j { AttemptsSplit(run, t, i, j - 1); }
  }

  /** The first long delay comes after as many attempts, the one that started the workflow included. */
  lemma MaxRetriesBeforeFirstLongDelay(run: seq<State>, t: TaskId, i: nat, j: nat)
    requires Run(run) && Runs(run, t, i + 1, j) && t !in run[i].tasks
    requires InLongDelay(run, t, j) && forall k :: i < k < j ==> !InLongDelay(run, t, k)
    ensures 1 + Attempts(run, t, i + 1, j) == run[j].tasks[t].maxRetries
  {
    hide Run, Safe, Enabled, Next;
    RunsArePaced(run, j);
    var a := RunKeepsPace(run, i, t);
    CounterCounts(run, t, i + 1, j);
  }

  /** Once a workflow's record is cancelled it begins no attempt any more. */
  lemma {:induction false} NoAttemptAfterCancellation(run: seq<State>, t: TaskId, i: nat, j: nat)
    requires Run(run) && Runs(run, t, i, j) && Cancelled(run[i], t)
    ensures Attempts(run, t, i, j) == 0 && Cancelled(run[j], t)
    decreases j - i
  {
    hide Enabled, Next, Cancelled, Inv;
    if i < j {
      NoAttemptAfterCancellation(run, t, i, j - 1);
      var a := RunKeepsPace(run, j - 1, t);
      CancellationSticks(run[j - 1], a, t);
      ChecksReadTheFlag(run[j - 1], t);
    }
  }
}
