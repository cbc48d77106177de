/**
 What the steps of the Oracle notification protocol achieve: which of them
 change the pool and how, how registrations, restores and closes get on, and
 what a health check leads to.
 */
module OracleNotifyEffects {
  import opened Options
  import opened RestoreRecords
  import opened OracleNotifyProtocol
  import opened OracleNotifySafety
  import opened OracleNotifyTheorems
  import opened OracleNotifyRuns
  import opened OracleNotifyClaims

  // ---------------------------------------------------------------- the pool

  /** The channels whose connection unlistening takes at once: no close has begun and no callback is queued. */
  function TakenNow(s: State, channels: seq<Channel>, tails: set<Channel>): set<Channel> {
    set ch | ch in channels && ch !in s.closes && ch !in tails
  }

  lemma UnlistenTakes(s: State, ch: Channel, hasTail: bool)
    ensures var s' := Unlisten(s, ch, hasTail);
            && s'.pool == (if ch in s.closes || hasTail then s.pool else s.pool - {ch})
            && (forall c :: c in s'.closes <==> c in s.closes || c == ch)
  {
    hide Book.CancelRestore, Book.StopHealthCheck, Book.ClearState;
  }

  lemma {:induction false} UnlistenAllTakes(s: State, channels: seq<Channel>, tails: set<Channel>)
    ensures UnlistenAll(s, channels, tails).pool == s.pool - TakenNow(s, channels, tails)
    decreases |channels|
  {
    if channels != [] {
      hide Unlisten;
      var s1 := Unlisten(s, channels[0], channels[0] in tails);
      UnlistenTakes(s, channels[0], channels[0] in tails);
      UnlistenAllTakes(s1, channels[1..], tails);
      TakenStep(s, s1, channels, tails);
    }
  }

  lemma TakenStep(s: State, s1: State, channels: seq<Channel>, tails: set<Channel>)
    requires channels != [] && forall c :: c in s1.closes <==> c in s.closes || c == channels[0]
    ensures TakenNow(s, channels, tails) ==
            TakenNow(s1, channels[1..], tails) + if channels[0] in s.closes || channels[0] in tails then {} else {channels[0]}
  {
    assert channels == [channels[0]] + channels[1..];
  }

  /** A restore workflow is started for the channel: it is not cancelled and has none. */
  predicate Restores(s: State, ch: Channel) {
    !s.book.IsCancelled(ch) && s.book.GetOrCreate(ch).At(ch).activeRestore.None?
  }

  /** The channels whose pool entry a step takes away. */
  ghost function Taken(s: State, a: Action): set<Channel>
    requires Enabled(s, a)
  {
    match a
    case UserUnlisten(ch, hasTail) => TakenNow(s, [ch], if hasTail then {ch} else {})
    case CloseDrained(t) => {s.tasks[t].channel}
    case RegistrationConnected(t, ok, tails) => if ok then {} else TakenNow(s, s.tasks[t].done, tails)
    case RegistrationCleaned(t, tails) => TakenNow(s, s.tasks[t].done, tails)
    case HealthProbed(t, healthy, _) =>
      var task := s.tasks[t];
      if !healthy && task.channel in s.pool && s.pool[task.channel] == task.connection && Restores(s, task.channel) then {task.channel} else {}
    case Deregistered(ch, _) => if Restores(s, ch) then {ch} else {}
    case PublishedChecked(t) => if s.book.IsCancelled(s.tasks[t].channel) then {s.tasks[t].channel} else {}
    case DelayResumed(t) => if s.book.IsCancelled(s.tasks[t].channel) then {} else {s.tasks[t].channel}
    case Destroy(pooled, _, tails) => TakenNow(s, pooled, tails)
    case DestroyRest(pooled, tails) => TakenNow(s, pooled, tails)
    case DestroyFinishes => s.pool.Keys
    case _ => {}
  }

  /** The pool entries it adds: a subscription that the server has confirmed, while the notifier lives. */
  ghost function Added(s: State, a: Action): map<Channel, Connection>
    requires Enabled(s, a)
  {
    match a
    case RegistrationSubscribed(t, ok) => if ok && !s.book.isDestroyed then map[s.nextChannel := s.tasks[t].phase.connection] else map[]
    case Resubscribed(t, ok) => if ok && !s.book.isDestroyed then map[s.tasks[t].channel := s.tasks[t].step.connection] else map[]
    case _ => map[]
  }

  lemma StartRestoreTakes(s: State, ch: Channel, maxRetries: nat)
    ensures StartRestore(s, ch, maxRetries).0.pool == s.pool - if Restores(s, ch) then {ch} else {}
  {
    hide Book.GetOrCreate, Book.StopHealthCheck;
  }

  lemma RegistrationPool(s: State, a: Action)
    requires Enabled(s, a)
    requires a.Listen? || a.RegistrationStarts? || a.RegistrationConnected? || a.RegistrationSubscribed? || a.RegistrationCleaned? || a.RegistrationRolledBack?
    ensures NextRegistration(s, a).pool == (s.pool - Taken(s, a)) + Added(s, a)
  {
    hide Unlisten, Book.MarkActive, Book.StartHealthCheck;
    if (a.RegistrationConnected? && !a.ok) || a.RegistrationCleaned? {
      var t, done := a.task, s.tasks[a.task].done;
      var s1 := if a.RegistrationCleaned? then s.(closed := s.closed + multiset{s.tasks[t].phase.connection}) else s;
      UnlistenAllTakes(SetTask(s1, t, Registration(RollingBack({}), 0, done)), done, a.tails);
    }
  }

  lemma ClosePool(s: State, a: Action)
    requires Enabled(s, a) && (a.UserUnlisten? || a.CloseDrained? || a.CloseReleased? || a.CloseCleared?)
    ensures NextClose(s, a).pool == (s.pool - Taken(s, a)) + Added(s, a)
  {
    hide Unlisten, Book.ClearState;
    if a.UserUnlisten? { UnlistenTakes(s, a.channel, a.hasTail); }
  }

  lemma HealthPool(s: State, a: Action)
    requires Enabled(s, a) && (a.HealthTick? || a.HealthProbed? || a.HealthResumed? || a.Deregistered?)
    ensures NextHealth(s, a).pool == (s.pool - Taken(s, a)) + Added(s, a)
  {
    hide StartRestore, Restores, Book.GetOrCreate;
    if a.Deregistered? { StartRestoreTakes(s, a.channel, a.maxRetries); }
    if a.HealthProbed? { StartRestoreTakes(s, s.tasks[a.task].channel, a.maxRetries); }
  }

  lemma EndingTakesNothing(s: State, t: TaskId, task: Task)
    requires task.Restore?
    ensures EndRestore(s, t, task).pool == s.pool && AttemptFailed(s, t, task).pool == s.pool
  {
    hide Book.ClearState, Book.GetOrCreate, Book.DeleteIfIdle;
  }

  lemma ClosingPool(s: State, a: Action)
    requires Enabled(s, a) && (a.OldClosed? || a.FailedConnectionClosed? || a.FailedConnectionClosedAgain? || a.UndoClosed?)
    ensures NextRestore(s, a).pool == (s.pool - Taken(s, a)) + Added(s, a)
  {
    hide EndRestore, AttemptFailed;
    var t, task := a.task, s.tasks[a.task];
    EndingTakesNothing(s, t, task);
    if a.OldClosed? || a.UndoClosed? {
      EndingTakesNothing(s.(closed := s.closed + multiset(OptionSet(if a.OldClosed? then task.step.replaced else task.step.undone))), t, task);
    } else if a.FailedConnectionClosedAgain? {
      EndingTakesNothing(s.(closed := s.closed + multiset{task.step.connection}), t, task);
    }
  }

  lemma AttemptPool(s: State, a: Action)
    requires Enabled(s, a) && (a.RestoreConnected? || a.Resubscribed? || a.PublishedChecked? || a.DelayElapsed? || a.DelayResumed?)
    ensures NextRestore(s, a).pool == (s.pool - Taken(s, a)) + Added(s, a)
  {
    hide EndRestore, AttemptFailed, Book.StopHealthCheck, Book.MarkActive, Book.StartHealthCheck, Book.CompleteDelay;
    var t, task := a.task, s.tasks[a.task];
    EndingTakesNothing(s, t, task);
    if a.RestoreConnected? {
      EndingTakesNothing(s.(book := s.book.StopHealthCheck(task.channel)), t, task);
    }
  }

  lemma DestroyPool(s: State, a: Action)
    requires Enabled(s, a) && (a.Destroy? || a.DestroyRest? || a.DestroyFinishes?)
    ensures NextDestroy(s, a).pool == (s.pool - Taken(s, a)) + Added(s, a)
  {
    hide Unlisten, Book.BeginDestroy, Book.StopAllHealthChecks;
    if !a.DestroyFinishes? {
      var b := if a.Destroy? then s.book.BeginDestroy().StopAllHealthChecks() else s.book;
      var chs := if a.Destroy? then a.pooled + a.restoring else a.pooled;
      var s0 := s.(book := CancelAll(b, chs), shutdown := if a.Destroy? then UnsubscribingAll({}) else s.shutdown);
      UnlistenAllTakes(s0, a.pooled, a.tails);
    }
  }

  /** Every step takes from the pool and adds to it exactly what it is meant to. */
  lemma PoolChangesExactly(s: State, a: Action)
    requires Enabled(s, a)
    ensures Next(s, a).pool == (s.pool - Taken(s, a)) + Added(s, a)
  {
    hide Taken, Added, NextClose, NextDestroy, NextHealth, NextRegistration, NextRestore;
    if a.Destroy? || a.DestroyRest? || a.DestroyFinishes? { DestroyPool(s, a); }
    else if a.UserUnlisten? || a.CloseDrained? || a.CloseReleased? || a.CloseCleared? { ClosePool(s, a); }
    else if a.HealthTick? || a.HealthProbed? || a.HealthResumed? || a.Deregistered? { HealthPool(s, a); }
    else if a.Listen? || a.RegistrationStarts? || a.RegistrationConnected? || a.RegistrationSubscribed?
            || a.RegistrationCleaned? || a.RegistrationRolledBack? { RegistrationPool(s, a); }
    else if a.OldClosed? || a.FailedConnectionClosed? || a.FailedConnectionClosedAgain? || a.UndoClosed? { ClosingPool(s, a); }
    else { AttemptPool(s, a); }
  }

  // ---------------------------------------------------------------- a registration gets on

  /**
   Each answer moves a registration on: it connects, subscribes, and publishes
   the subscription under a new name, with a health check and not cancelled. A
   connection that cannot be subscribed is closed, and what was subscribed
   before is unlistened.
   */
  lemma RegistrationGetsOn(s: State, a: Action)
    requires Inv(s) && Known(s) && Enabled(s, a) && !s.book.isDestroyed
    requires a.RegistrationStarts? || a.RegistrationConnected? || a.RegistrationSubscribed? || a.RegistrationCleaned?
    ensures var t, task, s' := a.task, s.tasks[a.task], NextRegistration(s, a);
            match a
            case RegistrationStarts(_) => t in s'.tasks && s'.tasks[t] == task.(phase := Creating, remaining := task.remaining - 1)
            case RegistrationConnected(_, ok, _) =>
              ok ==> t in s'.tasks && s'.tasks[t] == task.(phase := Subscribing(s.nextConnection)) && s'.nextConnection == s.nextConnection + 1
            case RegistrationSubscribed(_, ok) =>
              if ok then
                var ch := s.nextChannel;
                && ch !in s.pool && ch in s'.pool && s'.pool[ch] == task.phase.connection
                && s'.book.Mapped(ch) && !s'.book.IsCancelled(ch) && s'.book.At(ch).healthCheckTimer == Some(Timer(ch, task.phase.connection))
                && (if task.remaining == 0 then t !in s'.tasks
                    else t in s'.tasks && s'.tasks[t] == Registration(Creating, task.remaining - 1, task.done + [ch]))
              else t in s'.tasks && s'.tasks[t] == task.(phase := Cleaning(task.phase.connection))
            case RegistrationCleaned(_, tails) =>
              && task.phase.connection in s'.closed
              && (task.done == [] ==> t !in s'.tasks)
              && (task.done != [] ==> t in s'.tasks && s'.tasks[t].phase.RollingBack? && forall ch :: ch in task.done ==> ch in s'.closes)
  {
    hide Unlisten, Book.MarkActive, Book.StartHealthCheck, Inv, Known;
    InvParts(s);
    var t, task := a.task, s.tasks[a.task];
    if a.RegistrationSubscribed? && a.ok {
      NewSubscriptionIsWatched(s, task.phase.connection);
    } else if a.RegistrationCleaned? {
      RegistrationIsCleaned(s, a);
    }
  }

  lemma NewSubscriptionIsWatched(s: State, conn: Connection)
    requires Inv(s) && Known(s) && !s.book.isDestroyed
    ensures var ch, b := s.nextChannel, s.book.MarkActive(s.nextChannel).StartHealthCheck(s.nextChannel, conn);
            && ch !in s.pool
            && b.Mapped(ch) && !b.IsCancelled(ch) && b.At(ch).healthCheckTimer == Some(Timer(ch, conn))
  {
    hide Inv, Known, Book.MarkActive, Book.StartHealthCheck;
    InvParts(s);
    var ch := s.nextChannel;
    NewChannelHasNoWorkflow(s);
    MarkingTouchesOneChannel(s.book, ch);
    MarkingLiftsTheFlag(s.book, ch);
    StartingTouchesOneChannel(s.book.MarkActive(ch), ch, conn);
    StartingSetsTheTimer(s.book.MarkActive(ch), ch, conn);
  }

  /** A name that no subscription has had belongs to no workflow, whatever was unlistened. */
  lemma NewChannelHasNoWorkflow(s: State)
    requires Inv(s) && Known(s)
    ensures s.nextChannel !in s.pool && (s.book.Mapped(s.nextChannel) ==> s.book.At(s.nextChannel).activeRestore.None?)
  {
    var ch := s.nextChannel;
    if s.book.Mapped(ch) && s.book.At(ch).activeRestore.Some? {
      assert Claimed(s, s.book.records[ch]);
      var t := s.book.At(ch).activeRestore.value;
      assert ChannelInv(s, s.tasks[t].channel) && RestoreOn(s, t, s.tasks[t].channel) && RestoreOwns(s, t, s.tasks[t].channel);
    }
  }

  lemma RegistrationIsCleaned(s: State, a: Action)
    requires Inv(s) && Enabled(s, a) && a.RegistrationCleaned?
    ensures var t, task, s' := a.task, s.tasks[a.task], NextRegistration(s, a);
            && task.phase.connection in s'.closed
            && (task.done == [] ==> t !in s'.tasks)
            && (task.done != [] ==> t in s'.tasks && s'.tasks[t].phase.RollingBack? && forall ch :: ch in task.done ==> ch in s'.closes)
  {
    hide Unlisten, Inv;
    InvParts(s);
    var t, task := a.task, s.tasks[a.task];
    var s1 := s.(closed := s.closed + multiset{task.phase.connection});
    var s0 := SetTask(s1, t, Registration(RollingBack({}), 0, task.done));
    ClosingKeepsInv(s, s1);
    NeutralTask(s1, s0, t);
    UnlistenAllShrinks(s0, task.done, a.tails);
    UnlistenAllClosesNothing(s0, task.done, a.tails);
  }

  lemma {:induction false} UnlistenAllClosesNothing(s: State, channels: seq<Channel>, tails: set<Channel>)
    ensures UnlistenAll(s, channels, tails).closed == s.closed
    decreases |channels|
  {
    hide Book.CancelRestore, Book.StopHealthCheck, Book.ClearState;
    if channels != [] { UnlistenAllClosesNothing(Unlisten(s, channels[0], channels[0] in tails), channels[1..], tails); }
  }

  // ---------------------------------------------------------------- an unlisten gets on

  /** Unlistening a channel cancels its workflow and starts or joins a close of it, which takes the pooled connection if it does not wait for callbacks. */
  lemma UnlistenTakesTheConnection(s: State, ch: Channel, hasTail: bool)
    requires Inv(s)
    ensures var s' := Unlisten(s, ch, hasTail);
            && ch in s'.closes && s'.closes[ch] in s'.tasks && s'.tasks[s'.closes[ch]].Closing?
            && (ch !in s.closes && hasTail ==> s'.tasks[s'.closes[ch]] == Closing(ch, Draining))
            && (ch !in s.closes && !hasTail ==>
                  ch !in s'.pool && s'.tasks[s'.closes[ch]] == Closing(ch, if ch in s.pool then Releasing(s.pool[ch]) else Settled))
            && (forall t :: RestoreOn(s, t, ch) ==> t in s'.tasks && Cancelled(s', t))
  {
    hide Inv, Book.ClearState, Book.CancelRestore, Book.StopHealthCheck, Cancelled, RestoreOn;
    InvParts(s);
    forall t | RestoreOn(s, t, ch) ensures t in Unlisten(s, ch, hasTail).tasks && Cancelled(Unlisten(s, ch, hasTail), t) {
      UnlistenCancels(s, ch, hasTail, t);
    }
  }

  lemma UnlistenCancels(s: State, ch: Channel, hasTail: bool, t: TaskId)
    requires Inv(s) && RestoreOn(s, t, ch)
    ensures t in Unlisten(s, ch, hasTail).tasks && Cancelled(Unlisten(s, ch, hasTail), t)
  {
    hide Inv, Unlisten;
    UnlistenKeepsWorkflow(s, ch, hasTail, t);
    ChecksReadTheFlag(s, t);
    OwnRecord(s, t, ch);
    UnlistensBook(s, ch, hasTail, s.tasks[t].record);
  }

  lemma OwnRecord(s: State, t: TaskId, ch: Channel)
    requires Inv(s) && RestoreOn(s, t, ch)
    ensures s.book.Valid()
    ensures var id := s.tasks[t].record;
            && id < |s.book.store| && s.book.store[id].activeRestore.Some? && s.book.store[id].channel == ch
            && (!s.book.isDestroyed ==> ch in s.book.records && s.book.records[ch] == id)
  {
    assert ChannelInv(s, ch) && RestoreOwns(s, t, ch);
  }

  /** A workflow with this record finds itself cancelled. */
  ghost predicate CancelledBook(b: Book, id: RecordId) {
    b.isDestroyed || (id < |b.store| && b.store[id].isCancelled)
  }

  lemma UnlistensBook(s: State, ch: Channel, hasTail: bool, id: RecordId)
    requires s.book.Valid() && id < |s.book.store| && s.book.store[id].activeRestore.Some? && s.book.store[id].channel == ch
    requires !s.book.isDestroyed ==> ch in s.book.records && s.book.records[ch] == id
    ensures CancelledBook(Unlisten(s, ch, hasTail).book, id)
  {
    hide Book.CancelRestore, Book.StopHealthCheck, Book.ClearState;
    var b1 := s.book.CancelRestore(ch);
    var b2 := b1.StopHealthCheck(ch);
    CancellingTouchesOneChannel(s.book, ch);
    StoppingTouchesOneChannel(b1, ch);
    ClearingTouchesOneChannel(b2, ch);
    RespectsTwice(s.book, b1, b2, ch);
    RespectsTwice(b1, b2, b2.ClearState(ch), ch);
  }

  /** A close that has drained takes the connection, one that has released it has closed it. */
  lemma CloseGetsOn(s: State, a: Action)
    requires Inv(s) && Enabled(s, a) && (a.CloseDrained? || a.CloseReleased? || a.CloseCleared?)
    ensures var t, ch, s' := a.task, s.tasks[a.task].channel, NextClose(s, a);
            match a
            case CloseDrained(_) => ch !in s'.pool && t in s'.tasks && s'.tasks[t] == Closing(ch, if ch in s.pool then Releasing(s.pool[ch]) else Settled)
            case CloseReleased(_) =>
              t in s'.tasks && s'.tasks[t] == Closing(ch, Settled) && s'.closed == s.closed + multiset{s.tasks[t].stage.connection}
            case CloseCleared(_) => t !in s'.tasks && ch !in s'.closes
  {
    hide Book.ClearState;
  }

  // ---------------------------------------------------------------- a restore gets on

  /** A health check that finds its pooled connection broken starts a workflow or joins one; one that finds it well changes no channel. */
  lemma UnhealthyConnectionIsRestored(s: State, a: Action)
    requires Inv(s) && Known(s) && Enabled(s, a) && a.HealthProbed?
    ensures var task, s' := s.tasks[a.task], NextHealth(s, a);
            var ch := task.channel;
            var broken := !a.healthy && ch in s.pool && s.pool[ch] == task.connection;
            if broken && !s.book.IsCancelled(ch) then
              && a.task in s'.tasks && s'.tasks[a.task].Health? && s'.tasks[a.task].awaiting.Some?
              && RestoreOn(s', s'.tasks[a.task].awaiting.value, ch)
              && ((forall t :: !RestoreOn(s, t, ch)) ==>
                    ch !in s'.pool && s'.tasks[s'.tasks[a.task].awaiting.value].step == ClosingOld(Some(task.connection)))
            else a.task !in s'.tasks && s'.pool == s.pool && forall t :: RestoreOn(s', t, ch) ==> RestoreOn(s, t, ch)
  {
    hide Book.StopHealthCheck, Book.DeleteIfIdle, Inv, Known;
    InvParts(s);
    ActiveIsRunning(s, s.tasks[a.task].channel);
  }

  /** The workflow that the record of a channel knows is running on that channel. */
  lemma ActiveIsRunning(s: State, ch: Channel)
    requires Inv(s) && Known(s)
    ensures s.book.Mapped(ch) && s.book.At(ch).activeRestore.Some? ==> RestoreOn(s, s.book.At(ch).activeRestore.value, ch)
  {
    if s.book.Mapped(ch) && s.book.At(ch).activeRestore.Some? {
      assert Claimed(s, s.book.records[ch]);
      var t := s.book.At(ch).activeRestore.value;
      assert ChannelInv(s, s.tasks[t].channel) && RestoreOn(s, t, s.tasks[t].channel) && RestoreOwns(s, t, s.tasks[t].channel);
    }
  }

  /**
   Each answer moves a workflow that is not cancelled on: the old connection is
   closed, a new one made and subscribed, and the subscription published, not
   cancelled and watched. A failure closes the connection it may have made and
   leads to a delay, and the delay to the next attempt, which takes whatever is
   pooled.
   */
  lemma RestoreGetsOn(s: State, a: Action)
    requires Inv(s) && Known(s) && Enabled(s, a)
    requires a.OldClosed? || a.RestoreConnected? || a.Resubscribed? || a.FailedConnectionClosed? || a.PublishedChecked? || a.DelayResumed?
    requires !s.book.IsCancelled(s.tasks[a.task].channel)
    ensures var t, task, s' := a.task, s.tasks[a.task], NextRestore(s, a);
            var ch := task.channel;
            match a
            case OldClosed(_) => t in s'.tasks && s'.tasks[t] == task.(step := Connecting) && OptionSet(task.step.replaced) <= set c | c in s'.closed
            case RestoreConnected(_, ok) =>
              t in s'.tasks && s'.tasks[t] == task.(step := if ok then Resubscribing(s.nextConnection) else Delaying(task.retry >= task.maxRetries))
            case Resubscribed(_, ok) =>
              && t in s'.tasks && s'.tasks[t] == task.(step := if ok then Published(task.step.connection) else SubscribeFailed(task.step.connection))
              && (ok ==> ch in s'.pool && s'.pool[ch] == task.step.connection && s'.book.Mapped(ch) && !s'.book.IsCancelled(ch)
                         && s'.book.At(ch).healthCheckTimer == Some(Timer(ch, task.step.connection)))
            case FailedConnectionClosed(_) =>
              t in s'.tasks && s'.tasks[t] == task.(step := ClosingAgain(task.step.connection)) && task.step.connection in s'.closed
            case PublishedChecked(_) => t !in s'.tasks && s'.pool == s.pool
            case DelayResumed(_) =>
              t in s'.tasks && s'.tasks[t].Restore? && s'.tasks[t].step == ClosingOld(if ch in s.pool then Some(s.pool[ch]) else None) && ch !in s'.pool
  {
    hide Inv, Known, Book.StopHealthCheck, Book.MarkActive, Book.StartHealthCheck, Book.DeleteIfIdle, AttemptFailed, EndRestore;
    InvParts(s);
    ChecksReadTheFlag(s, a.task);
    if a.Resubscribed? && a.ok {
      RestoredIsWatched(s, a);
    } else if a.RestoreConnected? && !a.ok {
      FailedAttemptWaits(s, a.task);
    } else if a.PublishedChecked? {
      EndingTakesNothing(s, a.task, s.tasks[a.task]);
      EndingEnds(s, a.task);
    }
  }

  lemma EndingEnds(s: State, t: TaskId)
    requires t in s.tasks && s.tasks[t].Restore?
    ensures t !in EndRestore(s, t, s.tasks[t]).tasks
  {
    hide Book.DeleteIfIdle;
  }

  lemma RestoredIsWatched(s: State, a: Action)
    requires Inv(s) && Enabled(s, a) && a.Resubscribed? && a.ok && !s.book.IsCancelled(s.tasks[a.task].channel)
    ensures var ch, conn := s.tasks[a.task].channel, s.tasks[a.task].step.connection;
            var b := s.book.MarkActive(ch).StartHealthCheck(ch, conn);
            b.Mapped(ch) && !b.IsCancelled(ch) && b.At(ch).healthCheckTimer == Some(Timer(ch, conn))
  {
    hide Inv, Book.MarkActive, Book.StartHealthCheck;
    InvParts(s);
    var ch, conn := s.tasks[a.task].channel, s.tasks[a.task].step.connection;
    MarkingTouchesOneChannel(s.book, ch);
    MarkingLiftsTheFlag(s.book, ch);
    StartingTouchesOneChannel(s.book.MarkActive(ch), ch, conn);
    StartingSetsTheTimer(s.book.MarkActive(ch), ch, conn);
  }

  /** An attempt that failed before it had a connection waits, if it is not cancelled. */
  lemma FailedAttemptWaits(s: State, t: TaskId)
    requires Inv(s) && t in s.tasks && s.tasks[t].Restore? && !s.book.IsCancelled(s.tasks[t].channel)
    ensures var s1 := s.(book := s.book.StopHealthCheck(s.tasks[t].channel));
            var s' := AttemptFailed(s1, t, s.tasks[t]);
            t in s'.tasks && s'.tasks[t] == s.tasks[t].(step := Delaying(s.tasks[t].retry >= s.tasks[t].maxRetries))
  {
    hide Inv, Book.StopHealthCheck, Book.ClearState, EndRestore, Book.GetOrCreate;
    InvParts(s);
    var ch := s.tasks[t].channel;
    var b := s.book.StopHealthCheck(ch);
    StoppingTouchesOneChannel(s.book, ch);
    StoppingClearsTheTimer(s.book, ch);
    ClearingTouchesOneChannel(b, ch);
    ClearingLiftsTheFlag(b, ch);
  }

  /** A periodic check of a pooled connection starts unless one is under way; a call to listen queues its operations. */
  lemma ChecksAndCallsStart(s: State, a: Action)
    requires Inv(s) && Enabled(s, a) && (a.HealthTick? || a.Listen?)
    ensures a.Listen? ==> var s' := NextRegistration(s, a); s.nextTask in s'.tasks && s'.tasks[s.nextTask] == Registration(Queued, a.operations, [])
    ensures a.HealthTick? ==>
              var Timer(ch, conn) := s.book.store[a.record].healthCheckTimer.value;
              var s' := NextHealth(s, a);
              if !s.book.isDestroyed && ch in s.pool && s.pool[ch] == conn && !Current(s.book, ch).isHealthCheckInProgress then
                && s.nextTask in s'.tasks && s'.book.Mapped(ch)
                && s'.tasks[s.nextTask] == Health(ch, conn, s'.book.records[ch], None) && s'.book.At(ch).isHealthCheckInProgress
              else s' == s
  {
    hide Inv;
    InvParts(s);
    if a.HealthTick? { CreatingTouchesOneChannel(s.book, s.book.store[a.record].healthCheckTimer.value.channel); }
  }
}
