/**
 In every run of the Oracle notification protocol, a workflow that a restore
 record knows is running: nobody joins a workflow that is gone, and a channel
 whose workflow has ended can be restored again.
 */
module OracleNotifyClaims {
  import opened Options
  import opened RestoreRecords
  import opened OracleNotifyProtocol
  import opened OracleNotifySafety
  import opened OracleNotifyTheorems
  import opened OracleNotifyRuns

  /** The record's active workflow is a running one, and works on this record. */
  ghost predicate Claimed(s: State, id: RecordId) {
    id < |s.book.store| && s.book.store[id].activeRestore.Some? ==>
      var t := s.book.store[id].activeRestore.value;
      t in s.tasks && s.tasks[t].Restore? && s.tasks[t].record == id
  }

  ghost predicate Known(s: State) {
    forall id :: Claimed(s, id)
  }

  /** The records know the workflows they knew; new records know none. */
  ghost predicate SameClaims(b: Book, after: Book) {
    && |b.store| <= |after.store|
    && forall i :: 0 <= i < |after.store| ==> after.store[i].activeRestore == if i < |b.store| then b.store[i].activeRestore else None
  }

  lemma SameClaimsTwice(b: Book, b1: Book, b2: Book)
    requires SameClaims(b, b1) && SameClaims(b1, b2)
    ensures SameClaims(b, b2)
  {}

  lemma CreatingClaimsNothing(b: Book, ch: Channel)
    ensures SameClaims(b, b.GetOrCreate(ch))
  {}

  lemma CancellingClaimsNothing(b: Book, ch: Channel)
    ensures SameClaims(b, b.CancelRestore(ch))
  {
    CreatingClaimsNothing(b, ch);
  }

  lemma StoppingClaimsNothing(b: Book, ch: Channel)
    ensures SameClaims(b, b.StopHealthCheck(ch))
  {}

  lemma StartingClaimsNothing(b: Book, ch: Channel, conn: Connection)
    ensures SameClaims(b, b.StartHealthCheck(ch, conn))
  {
    hide Book.StopHealthCheck;
    StoppingClaimsNothing(b, ch);
    CreatingClaimsNothing(b.StopHealthCheck(ch), ch);
  }

  lemma MarkingClaimsNothing(b: Book, ch: Channel)
    ensures SameClaims(b, b.MarkActive(ch))
  {
    hide Book.CancelRestore;
    CancellingClaimsNothing(b, ch);
  }

  lemma ClearingClaimsNothing(b: Book, ch: Channel)
    ensures SameClaims(b, b.ClearState(ch))
  {}

  lemma CompletingClaimsNothing(b: Book, ch: Channel, id: RecordId)
    requires id < |b.store|
    ensures SameClaims(b, b.CompleteDelay(ch, id))
  {}

  lemma {:induction false} CancellingAllClaimsNothing(b: Book, channels: seq<Channel>)
    ensures SameClaims(b, CancelAll(b, channels))
    decreases |channels|
  {
    if channels != [] {
      hide Book.CancelRestore;
      CancellingClaimsNothing(b, channels[0]);
      CancellingAllClaimsNothing(b.CancelRestore(channels[0]), channels[1..]);
      SameClaimsTwice(b, b.CancelRestore(channels[0]), CancelAll(b.CancelRestore(channels[0]), channels[1..]));
    }
  }

  lemma DestroyingClaimsNothing(b: Book)
    ensures SameClaims(b, b.BeginDestroy()) && SameClaims(b, b.BeginDestroy().StopAllHealthChecks())
  {}

  /** Workflows go on. */
  ghost predicate KeepsWorkflows(s: State, s': State) {
    forall t :: t in s.tasks && s.tasks[t].Restore? ==> t in s'.tasks && s'.tasks[t].Restore? && s'.tasks[t].record == s.tasks[t].record
  }

  lemma KeptIsKnown(s: State, s': State)
    requires Known(s) && SameClaims(s.book, s'.book) && KeepsWorkflows(s, s')
    ensures Known(s')
  {
    forall id ensures Claimed(s', id) { assert Claimed(s, id); }
  }

  // ---- every step

  lemma UnlistenIsKnown(s: State, ch: Channel, hasTail: bool)
    requires Ids(s) && Known(s)
    ensures Known(Unlisten(s, ch, hasTail))
  {
    hide Book.CancelRestore, Book.StopHealthCheck, Book.ClearState, Known, SameClaims;
    var b1 := s.book.CancelRestore(ch);
    var b2 := b1.StopHealthCheck(ch);
    CancellingClaimsNothing(s.book, ch);
    StoppingClaimsNothing(b1, ch);
    ClearingClaimsNothing(b2, ch);
    SameClaimsTwice(s.book, b1, b2);
    SameClaimsTwice(s.book, b2, b2.ClearState(ch));
    KeptIsKnown(s, Unlisten(s, ch, hasTail));
  }

  lemma {:induction false} UnlistenAllIsKnown(s: State, channels: seq<Channel>, tails: set<Channel>)
    requires Inv(s) && Known(s)
    ensures Known(UnlistenAll(s, channels, tails))
    decreases |channels|
  {
    if channels != [] {
      hide Unlisten, Inv, Known;
      InvParts(s);
      UnlistenIsKnown(s, channels[0], channels[0] in tails);
      UnlistenKeepsInv(s, channels[0], channels[0] in tails);
      UnlistenAllIsKnown(Unlisten(s, channels[0], channels[0] in tails), channels[1..], tails);
    }
  }

  /** Tasks other than workflows come, go and change as they like. */
  lemma NeutralIsKnown(s: State, s': State)
    requires Known(s) && s'.book == s.book
    requires forall t :: t in s.tasks && s.tasks[t].Restore? ==> t in s'.tasks && s'.tasks[t] == s.tasks[t]
    ensures Known(s')
  {
    KeptIsKnown(s, s');
  }

  lemma RegistrationFailedIsKnown(s: State, t: TaskId, done: seq<Channel>, tails: set<Channel>)
    requires Inv(s) && Known(s) && t in s.tasks && s.tasks[t].Registration?
    ensures Known(RegistrationFailed(s, t, done, tails))
  {
    hide Unlisten, Inv, Known;
    if done == [] {
      NeutralIsKnown(s, EndTask(s, t));
    } else {
      var s0 := SetTask(s, t, Registration(RollingBack({}), 0, done));
      NeutralIsKnown(s, s0);
      InvParts(s);
      NeutralTask(s, s0, t);
      UnlistenAllIsKnown(s0, done, tails);
      UnlistenAllKeepsOthers(s0, done, tails, t);
      var s1 := UnlistenAll(s0, done, tails);
      NeutralIsKnown(s1, SetTask(s1, t, Registration(RollingBack(Awaited(s1, done)), 0, done)));
    }
  }

  lemma RegistrationIsKnown(s: State, a: Action)
    requires Inv(s) && Known(s) && Enabled(s, a)
    requires a.Listen? || a.RegistrationStarts? || a.RegistrationConnected? || a.RegistrationSubscribed? || a.RegistrationCleaned? || a.RegistrationRolledBack?
    ensures Known(NextRegistration(s, a))
  {
    hide RegistrationFailed, Book.MarkActive, Book.StartHealthCheck, Inv, Known, SameClaims;
    InvParts(s);
    if a.RegistrationCleaned? {
      var s1 := s.(closed := s.closed + multiset{s.tasks[a.task].phase.connection});
      ClosingKeepsInv(s, s1);
      NeutralIsKnown(s, s1);
      RegistrationFailedIsKnown(s1, a.task, s.tasks[a.task].done, a.tails);
    } else if a.RegistrationConnected? && !a.ok {
      RegistrationFailedIsKnown(s, a.task, s.tasks[a.task].done, a.tails);
    } else if a.RegistrationSubscribed? {
      var ch, conn := s.nextChannel, s.tasks[a.task].phase.connection;
      MarkingClaimsNothing(s.book, ch);
      StartingClaimsNothing(s.book.MarkActive(ch), ch, conn);
      SameClaimsTwice(s.book, s.book.MarkActive(ch), s.book.MarkActive(ch).StartHealthCheck(ch, conn));
      NothingClaimed(s.book);
      KeptIsKnown(s, NextRegistration(s, a));
    } else {
      NeutralIsKnown(s, NextRegistration(s, a));
    }
  }

  lemma NothingClaimed(b: Book)
    ensures SameClaims(b, b)
  {}

  lemma CloseIsKnown(s: State, a: Action)
    requires Inv(s) && Known(s) && Enabled(s, a) && (a.UserUnlisten? || a.CloseDrained? || a.CloseReleased? || a.CloseCleared?)
    ensures Known(NextClose(s, a))
  {
    hide Unlisten, Book.ClearState, Inv, Known, SameClaims;
    InvParts(s);
    if a.UserUnlisten? {
      UnlistenIsKnown(s, a.channel, a.hasTail);
    } else {
      NothingClaimed(s.book);
      ClearingClaimsNothing(s.book, s.tasks[a.task].channel);
      KeptIsKnown(s, NextClose(s, a));
    }
  }

  /** The record of a workflow that starts claims that workflow. */
  lemma StartRestoreIsKnown(s: State, ch: Channel, maxRetries: nat)
    requires Ids(s) && s.book.Valid() && Known(s)
    ensures Known(StartRestore(s, ch, maxRetries).0)
  {
    hide Book.StopHealthCheck;
    var b := s.book.GetOrCreate(ch);
    CreatingClaimsNothing(s.book, ch);
    CreatingTouchesOneChannel(s.book, ch);
    var s' := StartRestore(s, ch, maxRetries).0;
    if !s.book.IsCancelled(ch) && b.At(ch).activeRestore.None? {
      StoppingClaimsNothing(b.Put(b.records[ch], b.At(ch).(activeRestore := Some(s.nextTask))), ch);
    }
    forall id ensures Claimed(s', id) { assert Claimed(s, id); }
  }

  lemma HealthEndIsKnown(s: State, t: TaskId)
    requires Known(s) && t in s.tasks && s.tasks[t].Health?
    ensures Known(EndHealth(s, t, s.tasks[t]))
  {
    KeptIsKnown(s, EndHealth(s, t, s.tasks[t]));
  }

  lemma HealthIsKnown(s: State, a: Action)
    requires Inv(s) && Known(s) && Enabled(s, a) && (a.HealthTick? || a.HealthProbed? || a.HealthResumed? || a.Deregistered?)
    ensures Known(NextHealth(s, a))
  {
    hide StartRestore, EndHealth, Inv, Known;
    InvParts(s);
    if a.HealthTick? {
      TickIsKnown(s, a);
    } else if a.Deregistered? {
      StartRestoreIsKnown(s, a.channel, a.maxRetries);
    } else if a.HealthResumed? || a.healthy || s.tasks[a.task].channel !in s.pool || s.pool[s.tasks[a.task].channel] != s.tasks[a.task].connection {
      HealthEndIsKnown(s, a.task);
    } else {
      var s1 := StartRestore(s, s.tasks[a.task].channel, a.maxRetries).0;
      StartRestoreIsKnown(s, s.tasks[a.task].channel, a.maxRetries);
      StartedHealthStays(s, a.task, a.maxRetries);
      HealthEndIsKnown(s1, a.task);
      if StartRestore(s, s.tasks[a.task].channel, a.maxRetries).1.Some? { NeutralIsKnown(s1, NextHealth(s, a)); }
    }
  }

  lemma TickIsKnown(s: State, a: Action)
    requires Ids(s) && Known(s) && s.book.Valid() && Enabled(s, a) && a.HealthTick?
    ensures Known(NextHealth(s, a))
  {
    hide Known;
    var ch := s.book.store[a.record].healthCheckTimer.value.channel;
    CreatingClaimsNothing(s.book, ch);
    CreatingTouchesOneChannel(s.book, ch);
    NothingClaimed(s.book);
    KeptIsKnown(s, NextHealth(s, a));
  }

  /** A workflow that ends is known no longer. */
  lemma EndIsKnown(s: State, t: TaskId)
    requires Inv(s) && Known(s) && t in s.tasks && s.tasks[t].Restore?
    ensures Known(EndRestore(s, t, s.tasks[t]))
  {
    hide Inv;
    ChecksReadTheFlag(s, t);
    var s' := EndRestore(s, t, s.tasks[t]);
    forall id ensures Claimed(s', id) { assert Claimed(s, id); }
  }

  lemma FailedAttemptIsKnown(s: State, t: TaskId)
    requires Inv(s) && Known(s) && t in s.tasks && s.tasks[t].Restore? && s.tasks[t].channel !in s.pool
    ensures Known(AttemptFailed(s, t, s.tasks[t]))
  {
    hide Inv, Book.ClearState, EndRestore, Known, SameClaims, Respects, Touches;
    InvParts(s);
    var ch := s.tasks[t].channel;
    var s1 := s.(book := s.book.ClearState(ch));
    ClearingClaimsNothing(s.book, ch);
    KeptIsKnown(s, s1);
    ClearingTouchesOneChannel(s.book, ch);
    BookStepKeepsInv(s, s1, ch);
    if s1.book.IsCancelled(ch) {
      EndIsKnown(s1, t);
    } else {
      DelayIsKnown(s1, t, s.tasks[t]);
    }
  }

  lemma DelayIsKnown(s: State, t: TaskId, task: Task)
    requires Known(s) && s.book.Valid() && t in s.tasks && s.tasks[t].Restore? && task == s.tasks[t]
    ensures var ch, b := task.channel, s.book.GetOrCreate(task.channel);
            && b.Mapped(ch)
            && Known(SetTask(s.(book := b.Put(b.records[ch], b.At(ch).(retryDelay := Some(t)))), t,
                             task.(step := Delaying(task.retry >= task.maxRetries))))
  {
    hide Known;
    var ch, b := task.channel, s.book.GetOrCreate(task.channel);
    CreatingClaimsNothing(s.book, ch);
    CreatingTouchesOneChannel(s.book, ch);
    KeptIsKnown(s, SetTask(s.(book := b.Put(b.records[ch], b.At(ch).(retryDelay := Some(t)))), t,
                           task.(step := Delaying(task.retry >= task.maxRetries))));
  }

  lemma RestoreIsKnown(s: State, a: Action)
    requires Inv(s) && Known(s) && Enabled(s, a)
    requires a.OldClosed? || a.RestoreConnected? || a.Resubscribed? || a.FailedConnectionClosed? || a.FailedConnectionClosedAgain?
             || a.PublishedChecked? || a.UndoClosed? || a.DelayElapsed? || a.DelayResumed?
    ensures Known(NextRestore(s, a))
  {
    hide Inv, Known, SameClaims, EndRestore, AttemptFailed, Book.StopHealthCheck, Book.MarkActive, Book.StartHealthCheck, Book.CompleteDelay;
    if a.FailedConnectionClosedAgain? || (a.RestoreConnected? && !a.ok) {
      FailingIsKnown(s, a);
    } else if a.OldClosed? || a.UndoClosed? {
      var step := s.tasks[a.task].step;
      var s1 := s.(closed := s.closed + multiset(OptionSet(if a.OldClosed? then step.replaced else step.undone)));
      ClosingKeepsInv(s, s1);
      NeutralIsKnown(s, s1);
      EndIsKnown(s1, a.task);
      NothingClaimed(s.book);
      if a.OldClosed? && !s.book.IsCancelled(s.tasks[a.task].channel) { KeptIsKnown(s, NextRestore(s, a)); }
    } else {
      EndIsKnown(s, a.task);
      MovingIsKnown(s, a);
    }
  }

  lemma FailingIsKnown(s: State, a: Action)
    requires Inv(s) && Known(s) && Enabled(s, a) && (a.FailedConnectionClosedAgain? || (a.RestoreConnected? && !a.ok))
    ensures Known(NextRestore(s, a))
  {
    hide Inv, Known, AttemptFailed, Book.StopHealthCheck;
    InvParts(s);
    var ch := s.tasks[a.task].channel;
    UnpublishedIsOut(s, a.task);
    StoppingClaimsNothing(s.book, ch);
    StoppingTouchesOneChannel(s.book, ch);
    var s1 := if a.RestoreConnected? then s.(book := s.book.StopHealthCheck(ch))
              else s.(closed := s.closed + multiset{s.tasks[a.task].step.connection});
    if a.RestoreConnected? { BookStepKeepsInv(s, s1, ch); } else { ClosingKeepsInv(s, s1); }
    NothingClaimed(s.book);
    KeptIsKnown(s, s1);
    FailedAttemptIsKnown(s1, a.task);
  }

  lemma MovingIsKnown(s: State, a: Action)
    requires Inv(s) && Known(s) && Enabled(s, a)
    requires a.Resubscribed? || (a.RestoreConnected? && a.ok) || a.FailedConnectionClosed? || a.PublishedChecked? || a.DelayElapsed? || a.DelayResumed?
    ensures NextRestore(s, a) == EndRestore(s, a.task, s.tasks[a.task]) || Known(NextRestore(s, a))
  {
    hide Inv, Known, SameClaims, EndRestore, Book.StopHealthCheck, Book.MarkActive, Book.StartHealthCheck, Book.CompleteDelay;
    var task := s.tasks[a.task];
    var ch := task.channel;
    NothingClaimed(s.book);
    StoppingClaimsNothing(s.book, ch);
    if a.Resubscribed? {
      var conn := task.step.connection;
      MarkingClaimsNothing(s.book, ch);
      StartingClaimsNothing(s.book.MarkActive(ch), ch, conn);
      SameClaimsTwice(s.book, s.book.MarkActive(ch), s.book.MarkActive(ch).StartHealthCheck(ch, conn));
      KeptIsKnown(s, NextRestore(s, a));
    } else if a.DelayElapsed? {
      if task.record < |s.book.store| { CompletingClaimsNothing(s.book, ch, task.record); }
      KeptIsKnown(s, NextRestore(s, a));
    } else if NextRestore(s, a) != EndRestore(s, a.task, task) {
      KeptIsKnown(s, NextRestore(s, a));
    }
  }

  lemma DestroyIsKnown(s: State, a: Action)
    requires Inv(s) && Known(s) && Enabled(s, a) && (a.Destroy? || a.DestroyRest? || a.DestroyFinishes?)
    ensures Known(NextDestroy(s, a))
  {
    hide Inv, Known, SameClaims, UnlistenAll, Book.BeginDestroy, Book.StopAllHealthChecks;
    InvParts(s);
    NothingClaimed(s.book);
    if a.DestroyFinishes? {
      ForgottenIsKnown(s, NextDestroy(s, a));
    } else {
      var b := if a.Destroy? then s.book.BeginDestroy().StopAllHealthChecks() else s.book;
      BeginDestroyKeepsWorkflows(s.book);
      StopAllKeepsWorkflows(s.book.BeginDestroy());
      DestroyingClaimsNothing(s.book);
      var chs := if a.Destroy? then a.pooled + a.restoring else a.pooled;
      CancelAllRespects(b, chs);
      CancellingAllClaimsNothing(b, chs);
      SameClaimsTwice(s.book, b, CancelAll(b, chs));
      var s0 := s.(book := CancelAll(b, chs), shutdown := if a.Destroy? then UnsubscribingAll({}) else s.shutdown);
      ShuttingDownKeepsInv(s, s0);
      KeptIsKnown(s, s0);
      UnlistenAllIsKnown(s0, a.pooled, a.tails);
      NeutralIsKnown(UnlistenAll(s0, a.pooled, a.tails), NextDestroy(s, a));
    }
  }

  /** Which records are stored does not matter. */
  lemma ForgottenIsKnown(s: State, s': State)
    requires Known(s) && s'.book.store == s.book.store && s'.tasks == s.tasks
    ensures Known(s')
  {
    forall id ensures Claimed(s', id) { assert Claimed(s, id); }
  }

  lemma StepIsKnown(s: State, a: Action)
    requires Inv(s) && Known(s) && Enabled(s, a)
    ensures Known(Next(s, a))
  {
    hide Inv, Known, NextClose, NextDestroy, NextHealth, NextRegistration, NextRestore;
    if a.Destroy? || a.DestroyRest? || a.DestroyFinishes? { DestroyIsKnown(s, a); }
    else if a.UserUnlisten? || a.CloseDrained? || a.CloseReleased? || a.CloseCleared? { CloseIsKnown(s, a); }
    else if a.HealthTick? || a.HealthProbed? || a.HealthResumed? || a.Deregistered? { HealthIsKnown(s, a); }
    else if a.Listen? || a.RegistrationStarts? || a.RegistrationConnected? || a.RegistrationSubscribed?
            || a.RegistrationCleaned? || a.RegistrationRolledBack? { RegistrationIsKnown(s, a); }
    else { RestoreIsKnown(s, a); }
  }

  /** In every state of every run, the workflow that a record knows is running. */
  lemma {:induction false} RunsAreKnown(run: seq<State>, i: nat)
    requires Run(run) && i < |run|
    ensures Known(run[i])
  {
    hide Enabled, Next;
    if i > 0 {
      RunsAreKnown(run, i - 1);
      RunsAreSafe(run, i - 1);
      assert Step(run[i - 1], run[i - 1 + 1]);
      var a :| Enabled(run[i - 1], a) && run[i] == Next(run[i - 1], a);
      hide Known, Inv;
      StepIsKnown(run[i - 1], a);
    }
  }
}
