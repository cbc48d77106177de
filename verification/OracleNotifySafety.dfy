/** What every run of the Oracle notification protocol keeps. */
module OracleNotifySafety {
  import opened Options
  import opened RestoreRecords
  import opened OracleNotifyProtocol

  ghost predicate RestoreOn(s: State, t: TaskId, ch: Channel) {
    t in s.tasks && s.tasks[t].Restore? && s.tasks[t].channel == ch
  }

  ghost predicate HealthOn(s: State, t: TaskId, ch: Channel) {
    t in s.tasks && s.tasks[t].Health? && s.tasks[t].channel == ch
  }

  /** Task identities are unused above `nextTask`; the close map lists exactly the closes in flight. */
  ghost predicate Ids(s: State) {
    && (forall t :: t in s.tasks ==> t < s.nextTask)
    && (forall ch :: ch in s.pool ==> ch < s.nextChannel)
    && (forall ch :: ch in s.closes ==> s.closes[ch] in s.tasks && s.tasks[s.closes[ch]].Closing? && s.tasks[s.closes[ch]].channel == ch)
    && (forall t :: t in s.tasks && s.tasks[t].Closing? ==> s.tasks[t].channel in s.closes && s.closes[s.tasks[t].channel] == t)
    && (forall t :: t in s.tasks && (s.tasks[t].Restore? || s.tasks[t].Health?) ==> s.tasks[t].channel < s.nextChannel)
  }

  /**
   A workflow owns its channel: its record knows it, is stored under the channel
   (until shutdown), and its channel is out of the pool except while a
   connection it has just published waits for its last check.
   */
  ghost predicate RestoreOwns(s: State, t: TaskId, ch: Channel) {
    RestoreOn(s, t, ch) ==>
      && s.tasks[t].record < |s.book.store| && s.book.store[s.tasks[t].record].channel == ch
      && s.book.store[s.tasks[t].record].activeRestore == Some(t)
      && (!s.book.isDestroyed ==> ch in s.book.records && s.book.records[ch] == s.tasks[t].record)
      && (s.tasks[t].step.Published? || ch !in s.pool)
  }

  /** A channel nobody can bring back: not pooled, and no workflow runs on it. */
  ghost predicate Dead(s: State, ch: Channel) {
    ch !in s.pool && forall t :: !RestoreOn(s, t, ch)
  }

  /** A health check holds the stored record, or its channel is dead. */
  ghost predicate HealthHolds(s: State, t: TaskId, ch: Channel) {
    HealthOn(s, t, ch) ==>
      && s.tasks[t].record < |s.book.store| && s.book.store[s.tasks[t].record].channel == ch
      && (!s.book.isDestroyed ==> Dead(s, ch) || (ch in s.book.records && s.book.records[ch] == s.tasks[t].record))
  }

  /** A pooled channel is watched by a timer, unless it has been cancelled. */
  ghost predicate PooledIsWatched(s: State, ch: Channel) {
    ch in s.pool && !s.book.isDestroyed ==>
      s.book.Mapped(ch) && (s.book.At(ch).isCancelled || s.book.At(ch).healthCheckTimer.Some?)
  }

  ghost predicate ChannelInv(s: State, ch: Channel) {
    && (forall t, u :: RestoreOn(s, t, ch) && RestoreOn(s, u, ch) ==> t == u)
    && (forall t :: RestoreOwns(s, t, ch))
    && (forall t :: HealthHolds(s, t, ch))
    && PooledIsWatched(s, ch)
  }

  ghost predicate Inv(s: State) {
    && s.book.Valid()
    && Ids(s)
    && (s.shutdown.Running? <==> !s.book.isDestroyed)
    && (forall ch :: ChannelInv(s, ch))
  }

  lemma InvParts(s: State)
    requires Inv(s)
    ensures Ids(s) && s.book.Valid() && (s.shutdown.Running? <==> !s.book.isDestroyed)
  {}

  /** Everything outside channel `ch` and task `t` is as before. */
  ghost predicate Local(s: State, s': State, ch: Channel, t: TaskId) {
    && Touches(s.book, s'.book, ch)
    && (forall u :: u != t && u in s.tasks ==> u in s'.tasks && s'.tasks[u] == s.tasks[u])
    && (forall u :: u != t && u in s'.tasks ==> u in s.tasks)
    && (forall c :: c != ch && c in s.pool ==> c in s'.pool && s'.pool[c] == s.pool[c])
    && (forall c :: c != ch && c in s'.pool ==> c in s.pool)
    && (forall c :: c != ch ==> !RestoreOn(s, t, c) && !HealthOn(s, t, c) && !RestoreOn(s', t, c) && !HealthOn(s', t, c))
  }

  /** The invariant of one channel depends on nothing outside it. */
  lemma OtherChannelsKept(s: State, s': State, ch: Channel, t: TaskId, c: Channel)
    requires s.book.Valid() && Local(s, s', ch, t) && c != ch && ChannelInv(s, c)
    ensures ChannelInv(s', c)
  {
    assert forall u :: RestoreOn(s, u, c) == RestoreOn(s', u, c);
    assert forall u :: HealthOn(s, u, c) == HealthOn(s', u, c);
    forall u ensures RestoreOwns(s', u, c) { assert RestoreOwns(s, u, c); }
    forall u ensures HealthHolds(s', u, c) { assert HealthHolds(s, u, c); }
  }

  lemma LocalStep(s: State, s': State, ch: Channel, t: TaskId)
    requires Inv(s) && Local(s, s', ch, t)
    requires s'.book.Valid() && Ids(s') && ChannelInv(s', ch) && s'.shutdown == s.shutdown
    ensures Inv(s')
  {
    forall c ensures ChannelInv(s', c) {
      if c != ch { OtherChannelsKept(s, s', ch, t, c); }
    }
  }

  lemma CancelAndStop(b: Book, ch: Channel) returns (b2: Book)
    requires b.Valid()
    ensures b2 == b.CancelRestore(ch).StopHealthCheck(ch)
    ensures b2.Valid() && Respects(b, b2, ch) && b2.Mapped(ch) && b2.At(ch).isCancelled
    ensures ch in b.records ==> b2.records[ch] == b.records[ch]
  {
    hide Book.CancelRestore, Book.StopHealthCheck;
    b2 := b.CancelRestore(ch).StopHealthCheck(ch);
    CancellingTouchesOneChannel(b, ch);
    StoppingTouchesOneChannel(b.CancelRestore(ch), ch);
  }

  /**
   Removing the channel from the pool, or changing its record by bookkeeping
   only, keeps the channel's invariant: no workflow starts, ends or moves.
   */
  lemma QuietChannel(s: State, s': State, ch: Channel)
    requires s.book.Valid() && ChannelInv(s, ch)
    requires Respects(s.book, s'.book, ch)
    requires forall u :: RestoreOn(s', u, ch) == RestoreOn(s, u, ch) && HealthOn(s', u, ch) == HealthOn(s, u, ch)
    requires forall u :: RestoreOn(s, u, ch) || HealthOn(s, u, ch) ==> u in s'.tasks && s'.tasks[u] == s.tasks[u]
    requires ch in s'.pool ==> ch in s.pool
    requires ch in s'.pool && ch in s.book.records ==> ch in s'.book.records && s'.book.records[ch] == s.book.records[ch]
    requires PooledIsWatched(s', ch)
    ensures ChannelInv(s', ch)
  {
    forall u ensures RestoreOwns(s', u, ch) { assert RestoreOwns(s, u, ch); }
    forall u ensures HealthHolds(s', u, ch) {
      assert HealthHolds(s, u, ch);
      assert forall v :: RestoreOn(s, v, ch) ==> RestoreOwns(s, v, ch);
    }
  }

  /** Task `t` becomes a close of `ch`; it was one before, or is new. */
  ghost predicate ClosingStep(s: State, s': State, ch: Channel, t: TaskId, stage: ClosePhase) {
    && ((t == s.nextTask && ch !in s.closes) || (t in s.tasks && s.tasks[t].Closing? && s.tasks[t].channel == ch))
    && s'.closes == s.closes[ch := t] && s'.tasks == s.tasks[t := Closing(ch, stage)]
    && s'.nextTask == (if t == s.nextTask then t + 1 else s.nextTask)
    && s'.nextChannel == s.nextChannel && s'.shutdown == s.shutdown
    && (s'.pool == s.pool || s'.pool == s.pool - {ch})
  }

  lemma ClosingStepIds(s: State, s': State, ch: Channel, t: TaskId, stage: ClosePhase)
    requires Ids(s) && ClosingStep(s, s', ch, t, stage)
    ensures Ids(s')
  {}

  lemma ClosingStepIsLocal(s: State, s': State, ch: Channel, t: TaskId, stage: ClosePhase)
    requires Ids(s) && ClosingStep(s, s', ch, t, stage) && Touches(s.book, s'.book, ch)
    ensures Local(s, s', ch, t)
    ensures forall u :: RestoreOn(s', u, ch) == RestoreOn(s, u, ch) && HealthOn(s', u, ch) == HealthOn(s, u, ch)
    ensures forall u :: RestoreOn(s, u, ch) || HealthOn(s, u, ch) ==> u in s'.tasks && s'.tasks[u] == s.tasks[u]
  {}

  /** A close operation that starts or moves, with the pool entry gone or its record still cancelled. */
  lemma CloseStepKeepsInv(s: State, s': State, ch: Channel, t: TaskId, stage: ClosePhase)
    requires Inv(s) && ClosingStep(s, s', ch, t, stage)
    requires s'.book.Valid() && Respects(s.book, s'.book, ch)
    requires s'.pool == s.pool - {ch} || s'.book == s.book
             || (s'.book.Mapped(ch) && s'.book.At(ch).isCancelled && (ch in s.book.records ==> s'.book.records[ch] == s.book.records[ch]))
    ensures Inv(s')
  {
    ClosingStepIds(s, s', ch, t, stage);
    ClosingStepIsLocal(s, s', ch, t, stage);
    assert ChannelInv(s, ch);
    QuietChannel(s, s', ch);
    LocalStep(s, s', ch, t);
  }

  /** Bookkeeping on one channel that leaves its record stored. */
  lemma BookStepKeepsInv(s: State, s': State, ch: Channel)
    requires Inv(s) && Respects(s.book, s'.book, ch) && s'.book.Valid() && Ids(s')
    requires s'.pool == s.pool && s'.tasks == s.tasks && s'.shutdown == s.shutdown
    requires ch in s.book.records && ch in s.pool ==> ch in s'.book.records && s'.book.records[ch] == s.book.records[ch]
    requires PooledIsWatched(s', ch)
    ensures Inv(s')
  {
    assert forall u :: RestoreOn(s', u, ch) == RestoreOn(s, u, ch) && HealthOn(s', u, ch) == HealthOn(s, u, ch);
    QuietChannel(s, s', ch);
    assert Local(s, s', ch, s.nextTask);
    LocalStep(s, s', ch, s.nextTask);
  }

  /** A task that is no workflow, health check or close may appear, change or end freely. */
  lemma NeutralTask(s: State, s': State, t: TaskId)
    requires Inv(s) && t < s'.nextTask && s.nextTask <= s'.nextTask && s.nextChannel <= s'.nextChannel
    requires s'.book == s.book && s'.pool == s.pool && s'.closes == s.closes && s'.shutdown == s.shutdown
    requires forall u :: u != t ==> (u in s.tasks <==> u in s'.tasks) && (u in s.tasks ==> s'.tasks[u] == s.tasks[u])
    requires t in s.tasks ==> s.tasks[t].Registration?
    requires t in s'.tasks ==> s'.tasks[t].Registration?
    ensures Inv(s')
  {
    assert Ids(s');
    forall ch ensures ChannelInv(s', ch) {
      assert ChannelInv(s, ch);
      assert forall u :: RestoreOn(s', u, ch) == RestoreOn(s, u, ch) && HealthOn(s', u, ch) == HealthOn(s, u, ch);
      QuietChannel(s, s', ch);
    }
  }

  lemma UnlistenKeepsInv(s: State, ch: Channel, hasTail: bool)
    requires Inv(s)
    ensures Inv(Unlisten(s, ch, hasTail))
  {
    hide Book.CancelRestore, Book.StopHealthCheck, Book.ClearState;
    var s' := Unlisten(s, ch, hasTail);
    var b2 := CancelAndStop(s.book, ch);
    if ch in s.closes {
      BookStepKeepsInv(s, s', ch);
    } else if hasTail {
      CloseStepKeepsInv(s, s', ch, s.nextTask, Draining);
    } else {
      ClearingTouchesOneChannel(b2, ch);
      RespectsTwice(s.book, b2, b2.ClearState(ch), ch);
      CloseStepKeepsInv(s, s', ch, s.nextTask, ClosePhaseFor(TakeFromPool(s, ch)));
    }
  }

  lemma RespectsTwice(b: Book, b1: Book, b2: Book, ch: Channel)
    requires Respects(b, b1, ch) && Respects(b1, b2, ch) && b.Valid() && b1.Valid()
    ensures Respects(b, b2, ch)
  {}

  lemma UnlistenAllKeepsInv(s: State, channels: seq<Channel>, tails: set<Channel>)
    requires Inv(s)
    ensures Inv(UnlistenAll(s, channels, tails))
    decreases |channels|
  {
    hide Inv, Unlisten;
    if channels != [] {
      UnlistenKeepsInv(s, channels[0], channels[0] in tails);
      UnlistenAllKeepsInv(Unlisten(s, channels[0], channels[0] in tails), channels[1..], tails);
    }
  }

  lemma CloseKeepsInv(s: State, a: Action)
    requires Inv(s) && Enabled(s, a) && (a.CloseDrained? || a.CloseReleased?)
    ensures Inv(NextClose(s, a))
  {
    hide Book.ClearState;
    var ch := s.tasks[a.task].channel;
    var s' := NextClose(s, a);
    ClearingTouchesOneChannel(s.book, ch);
    if a.CloseDrained? {
      CloseStepKeepsInv(s, s', ch, a.task, ClosePhaseFor(TakeFromPool(s, ch)));
    } else {
      assert s.closes[ch := a.task] == s.closes;
      CloseStepKeepsInv(s, s', ch, a.task, Settled);
    }
  }

  lemma CloseClearedKeepsInv(s: State, a: Action)
    requires Inv(s) && Enabled(s, a) && a.CloseCleared?
    ensures Inv(NextClose(s, a))
  {
    var ch := s.tasks[a.task].channel;
    var s' := NextClose(s, a);
    assert Ids(s');
    assert forall u :: RestoreOn(s', u, ch) == RestoreOn(s, u, ch) && HealthOn(s', u, ch) == HealthOn(s, u, ch);
    QuietChannel(s, s', ch);
    LocalStep(s, s', ch, a.task);
  }

  // ---------------------------------------------------------------- workflows

  /** Workflow `t` on `ch` changes phase. */
  ghost predicate WorkflowStep(s: State, s': State, ch: Channel, t: TaskId) {
    && RestoreOn(s, t, ch) && RestoreOn(s', t, ch) && s'.tasks[t].record == s.tasks[t].record
    && s'.tasks == s.tasks[t := s'.tasks[t]]
    && s'.closes == s.closes && s'.nextTask == s.nextTask && s'.nextChannel == s.nextChannel && s'.shutdown == s.shutdown
    && (forall c :: c != ch ==> (c in s.pool <==> c in s'.pool) && (c in s.pool ==> s'.pool[c] == s.pool[c]))
    && (ch in s'.pool ==> s'.tasks[t].step.Published?)
  }

  lemma WorkflowStepIsLocal(s: State, s': State, ch: Channel, t: TaskId)
    requires Ids(s) && WorkflowStep(s, s', ch, t) && Touches(s.book, s'.book, ch)
    ensures Local(s, s', ch, t) && Ids(s')
  {}

  lemma WorkflowMoves(s: State, s': State, ch: Channel, t: TaskId)
    requires Inv(s) && WorkflowStep(s, s', ch, t)
    requires s'.book.Valid() && Respects(s.book, s'.book, ch) && PooledIsWatched(s', ch)
    ensures Inv(s')
  {
    WorkflowStepIsLocal(s, s', ch, t);
    assert ChannelInv(s, ch);
    assert RestoreOwns(s, t, ch);
    forall u | RestoreOn(s', u, ch) ensures u == t { assert RestoreOn(s, u, ch); }
    forall u ensures HealthHolds(s', u, ch) { assert HealthHolds(s, u, ch); }
    LocalStep(s, s', ch, t);
  }

  lemma EndingTouchesOneChannel(s: State, t: TaskId, task: Task)
    requires s.book.Valid() && task.Restore? && task.record < |s.book.store|
    requires s.book.store[task.record].channel == task.channel && s.book.store[task.record].activeRestore == Some(t)
    ensures var b := EndRestore(s, t, task).book;
            && b.Valid() && Touches(s.book, b, task.channel)
            && (task.channel in b.records ==> task.channel in s.book.records && b.records[task.channel] == s.book.records[task.channel])
  {}

  /** What a workflow that ends leaves of the state. */
  ghost predicate EndingStep(s: State, s': State, ch: Channel, t: TaskId) {
    && RestoreOn(s, t, ch) && s'.tasks == s.tasks - {t}
    && s'.pool == s.pool && s'.closes == s.closes && s'.nextTask == s.nextTask && s'.nextChannel == s.nextChannel
    && s'.shutdown == s.shutdown
    && s'.book.Valid() && Touches(s.book, s'.book, ch)
    && (ch in s'.book.records ==> ch in s.book.records && s'.book.records[ch] == s.book.records[ch])
  }

  lemma EndingStepIsLocal(s: State, s': State, ch: Channel, t: TaskId)
    requires Ids(s) && EndingStep(s, s', ch, t)
    ensures Local(s, s', ch, t) && Ids(s')
  {}

  lemma EndedChannel(s: State, s': State, ch: Channel, t: TaskId)
    requires ChannelInv(s, ch) && EndingStep(s, s', ch, t) && PooledIsWatched(s', ch)
    requires ch in s.pool ==> !s.book.IsCancelled(ch)
    ensures ChannelInv(s', ch)
  {
    assert RestoreOwns(s, t, ch);
    assert forall u :: RestoreOn(s', u, ch) ==> RestoreOn(s, u, ch);
    assert forall u :: !RestoreOn(s', u, ch);
    forall u ensures HealthHolds(s', u, ch) { assert HealthHolds(s, u, ch); }
  }

  lemma EndingIsAStep(s: State, t: TaskId)
    requires s.book.Valid() && t in s.tasks && s.tasks[t].Restore? && ChannelInv(s, s.tasks[t].channel)
    requires s.tasks[t].channel !in s.pool || !s.book.IsCancelled(s.tasks[t].channel)
    ensures EndingStep(s, EndRestore(s, t, s.tasks[t]), s.tasks[t].channel, t)
    ensures PooledIsWatched(EndRestore(s, t, s.tasks[t]), s.tasks[t].channel)
  {
    var ch := s.tasks[t].channel;
    assert RestoreOwns(s, t, ch) && RestoreOn(s, t, ch) && PooledIsWatched(s, ch);
    EndingTouchesOneChannel(s, t, s.tasks[t]);
  }

  /** A workflow that leaves nothing in the pool, or an uncancelled subscription, may end. */
  lemma WorkflowEnds(s: State, t: TaskId)
    requires Inv(s) && t in s.tasks && s.tasks[t].Restore?
    requires s.tasks[t].channel !in s.pool || !s.book.IsCancelled(s.tasks[t].channel)
    ensures Inv(EndRestore(s, t, s.tasks[t]))
  {
    hide EndRestore, ChannelInv, Ids, Local, PooledIsWatched;
    var ch := s.tasks[t].channel;
    var s' := EndRestore(s, t, s.tasks[t]);
    assert ChannelInv(s, ch);
    EndingIsAStep(s, t);
    EndingStepIsLocal(s, s', ch, t);
    EndedChannel(s, s', ch, t);
    LocalStep(s, s', ch, t);
  }

  lemma FailedAttemptKeepsInv(s: State, t: TaskId)
    requires Inv(s) && t in s.tasks && s.tasks[t].Restore? && s.tasks[t].channel !in s.pool
    ensures Inv(AttemptFailed(s, t, s.tasks[t]))
  {
    hide Book.ClearState;
    var task := s.tasks[t];
    var ch := task.channel;
    var s1 := s.(book := s.book.ClearState(ch));
    ClearingTouchesOneChannel(s.book, ch);
    BookStepKeepsInv(s, s1, ch);
    if s1.book.IsCancelled(ch) {
      WorkflowEnds(s1, t);
    } else {
      var s' := AttemptFailed(s, t, task);
      assert ChannelInv(s1, ch) && RestoreOwns(s1, t, ch);
      WorkflowMoves(s1, s', ch, t);
    }
  }

  lemma AttemptKeepsInv(s: State, t: TaskId, task: Task)
    requires Inv(s) && t in s.tasks && s.tasks[t].Restore? && task.Restore?
    requires task.channel == s.tasks[t].channel && task.record == s.tasks[t].record && task.channel !in s.pool
    ensures Inv(BeginAttempt(s, t, task))
  {
    hide Book.StopHealthCheck;
    StoppingTouchesOneChannel(s.book, task.channel);
    WorkflowMoves(s, BeginAttempt(s, t, task), task.channel, t);
  }

  lemma UnpublishedIsOut(s: State, t: TaskId)
    requires Inv(s) && t in s.tasks && s.tasks[t].Restore? && !s.tasks[t].step.Published?
    ensures s.tasks[t].channel !in s.pool
  {
    assert ChannelInv(s, s.tasks[t].channel);
    assert RestoreOwns(s, t, s.tasks[t].channel);
  }

  lemma DelayKeepsInv(s: State, t: TaskId)
    requires Inv(s) && Enabled(s, DelayElapsed(t))
    ensures Inv(NextRestore(s, DelayElapsed(t)))
  {
    var task := s.tasks[t];
    var ch := task.channel;
    var s' := NextRestore(s, DelayElapsed(t));
    UnpublishedIsOut(s, t);
    assert ChannelInv(s, ch) && RestoreOwns(s, t, ch) && RestoreOn(s, t, ch);
    if s' != s {
      hide Book.CompleteDelay;
      CompletingTouchesOneChannel(s.book, ch, task.record);
      BookStepKeepsInv(s, s', ch);
    }
  }

  /** Only the closes that have ended change. */
  lemma ClosingKeepsInv(s: State, s': State)
    requires Inv(s) && s' == s.(closed := s'.closed)
    ensures Inv(s')
  {
    BookStepKeepsInv(s, s', 0) by { assert ChannelInv(s, 0); }
  }

  lemma AwaitedCloseKeepsInv(s: State, a: Action)
    requires Inv(s) && Enabled(s, a) && (a.OldClosed? || a.UndoClosed? || a.DelayResumed?)
    ensures Inv(NextRestore(s, a))
  {
    hide Book.StopHealthCheck, Book.DeleteIfIdle;
    var t := a.task;
    var task := s.tasks[t];
    var ch := task.channel;
    UnpublishedIsOut(s, t);
    if a.DelayResumed? {
      if s.book.IsCancelled(ch) { WorkflowEnds(s, t); }
      else { AttemptKeepsInv(s, t, task.(retry := if task.step.long then 1 else task.retry + 1)); }
    } else {
      var s1 := s.(closed := s.closed + multiset(OptionSet(if a.OldClosed? then task.step.replaced else task.step.undone)));
      ClosingKeepsInv(s, s1);
      if a.UndoClosed? || s.book.IsCancelled(ch) {
        WorkflowEnds(s1, t);
      } else {
        WorkflowMoves(s1, NextRestore(s, a), ch, t);
      }
    }
  }

  lemma ConnectedKeepsInv(s: State, a: Action)
    requires Inv(s) && Enabled(s, a) && (a.RestoreConnected? || a.FailedConnectionClosed? || a.FailedConnectionClosedAgain?)
    ensures Inv(NextRestore(s, a))
  {
    hide Book.StopHealthCheck, AttemptFailed;
    var t := a.task;
    var task := s.tasks[t];
    var ch := task.channel;
    UnpublishedIsOut(s, t);
    StoppingTouchesOneChannel(s.book, ch);
    if a.FailedConnectionClosedAgain? {
      var s1 := s.(closed := s.closed + multiset{task.step.connection});
      ClosingKeepsInv(s, s1);
      FailedAttemptKeepsInv(s1, t);
    } else if a.RestoreConnected? && !a.ok {
      var s1 := s.(book := s.book.StopHealthCheck(ch));
      BookStepKeepsInv(s, s1, ch);
      FailedAttemptKeepsInv(s1, t);
    } else {
      WorkflowMoves(s, NextRestore(s, a), ch, t);
    }
  }

  lemma MarkAndStart(b: Book, ch: Channel, conn: Connection) returns (b2: Book)
    requires b.Valid()
    ensures b2 == b.MarkActive(ch).StartHealthCheck(ch, conn)
    ensures b2.Valid() && Respects(b, b2, ch)
    ensures !b.isDestroyed ==> b2.Mapped(ch) && b2.At(ch).healthCheckTimer.Some?
  {
    hide Book.MarkActive, Book.StartHealthCheck;
    b2 := b.MarkActive(ch).StartHealthCheck(ch, conn);
    MarkingTouchesOneChannel(b, ch);
    StartingTouchesOneChannel(b.MarkActive(ch), ch, conn);
    RespectsTwice(b, b.MarkActive(ch), b2, ch);
  }

  lemma ResubscribedKeepsInv(s: State, a: Action)
    requires Inv(s) && Enabled(s, a) && a.Resubscribed?
    ensures Inv(NextRestore(s, a))
  {
    hide Book.MarkActive, Book.StartHealthCheck;
    var ch := s.tasks[a.task].channel;
    UnpublishedIsOut(s, a.task);
    var b2 := MarkAndStart(s.book, ch, s.tasks[a.task].step.connection);
    WorkflowMoves(s, NextRestore(s, a), ch, a.task);
  }

  lemma CheckedKeepsInv(s: State, a: Action)
    requires Inv(s) && Enabled(s, a) && a.PublishedChecked?
    ensures Inv(NextRestore(s, a))
  {
    hide Book.StopHealthCheck, Book.DeleteIfIdle;
    var ch := s.tasks[a.task].channel;
    if s.book.IsCancelled(ch) {
      StoppingTouchesOneChannel(s.book, ch);
      WorkflowMoves(s, NextRestore(s, a), ch, a.task);
    } else {
      WorkflowEnds(s, a.task);
    }
  }

  lemma RestoreKeepsInv(s: State, a: Action)
    requires Inv(s) && Enabled(s, a)
    requires a.OldClosed? || a.RestoreConnected? || a.Resubscribed? || a.FailedConnectionClosed? || a.FailedConnectionClosedAgain?
             || a.PublishedChecked? || a.UndoClosed? || a.DelayElapsed? || a.DelayResumed?
    ensures Inv(NextRestore(s, a))
  {
    hide NextRestore, Inv;
    if a.DelayElapsed? { DelayKeepsInv(s, a.task); }
    else if a.OldClosed? || a.UndoClosed? || a.DelayResumed? { AwaitedCloseKeepsInv(s, a); }
    else if a.Resubscribed? { ResubscribedKeepsInv(s, a); }
    else if a.PublishedChecked? { CheckedKeepsInv(s, a); }
    else { ConnectedKeepsInv(s, a); }
  }

  // ---------------------------------------------------------------- starting a workflow

  /** On a pooled channel whose record is stored and has no workflow, a new one may claim it. */
  lemma WorkflowStarts(s: State, ch: Channel, maxRetries: nat)
    requires Inv(s) && ch in s.pool && !s.book.IsCancelled(ch) && s.book.Mapped(ch) && s.book.At(ch).activeRestore.None?
    ensures Inv(StartRestore(s, ch, maxRetries).0)
  {
    hide Book.StopHealthCheck;
    var t := s.nextTask;
    var id := s.book.records[ch];
    var b1 := s.book.Put(id, s.book.At(ch).(activeRestore := Some(t)));
    StoppingTouchesOneChannel(b1, ch);
    var s' := StartRestore(s, ch, maxRetries).0;
    assert s'.book == b1.StopHealthCheck(ch) && s'.pool == s.pool - {ch} && s'.closes == s.closes;
    assert ChannelInv(s, ch);
    forall u ensures !RestoreOn(s, u, ch) { assert RestoreOwns(s, u, ch); }
    forall u ensures HealthHolds(s', u, ch) { assert HealthHolds(s, u, ch); assert HealthOn(s', u, ch) ==> HealthOn(s, u, ch); }
    forall u, v | RestoreOn(s', u, ch) && RestoreOn(s', v, ch) ensures u == v { assert !RestoreOn(s, u, ch) && !RestoreOn(s, v, ch); }
    forall u ensures RestoreOwns(s', u, ch) { assert !RestoreOn(s, u, ch); }
    WorkflowStartIsLocal(s, s', ch, t);
    LocalStep(s, s', ch, t);
  }

  lemma WorkflowStartIsLocal(s: State, s': State, ch: Channel, t: TaskId)
    requires Ids(s) && ch < s.nextChannel && t == s.nextTask && Touches(s.book, s'.book, ch)
    requires s'.pool == s.pool - {ch} && s'.closes == s.closes && s'.nextTask == t + 1 && s'.nextChannel == s.nextChannel
    requires t in s'.tasks && s'.tasks == s.tasks[t := s'.tasks[t]] && RestoreOn(s', t, ch)
    ensures Local(s, s', ch, t) && Ids(s')
  {}

  lemma StartRestoreKeepsInv(s: State, ch: Channel, maxRetries: nat)
    requires Inv(s) && ch in s.pool
    ensures Inv(StartRestore(s, ch, maxRetries).0)
  {
    assert ChannelInv(s, ch) && PooledIsWatched(s, ch);
    if !s.book.IsCancelled(ch) && s.book.At(ch).activeRestore.None? {
      WorkflowStarts(s, ch, maxRetries);
    }
  }

  // ---------------------------------------------------------------- health checks

  /** The finally block of a health check, even one holding a record that is no longer stored. */
  lemma HealthEnds(s: State, t: TaskId)
    requires Inv(s) && t in s.tasks && s.tasks[t].Health?
    ensures Inv(EndHealth(s, t, s.tasks[t]))
  {
    var task := s.tasks[t];
    var ch := task.channel;
    var s' := EndHealth(s, t, task);
    assert ChannelInv(s, ch) && HealthOn(s, t, ch) && HealthHolds(s, t, ch);
    assert forall u :: RestoreOn(s', u, ch) == RestoreOn(s, u, ch);
    assert forall u :: HealthOn(s', u, ch) ==> HealthOn(s, u, ch);
    forall u ensures RestoreOwns(s', u, ch) { assert RestoreOwns(s, u, ch); }
    assert PooledIsWatched(s, ch);
    if s.book.isDestroyed || ch in s'.book.records {
      forall u ensures HealthHolds(s', u, ch) { assert HealthHolds(s, u, ch); }
    } else {
      forall u ensures !RestoreOn(s', u, ch) { assert RestoreOwns(s', u, ch); }
      forall u ensures HealthHolds(s', u, ch) { assert HealthHolds(s, u, ch); }
    }
    HealthEndIsLocal(s, s', ch, t);
    LocalStep(s, s', ch, t);
  }

  lemma HealthEndIsLocal(s: State, s': State, ch: Channel, t: TaskId)
    requires Ids(s) && HealthOn(s, t, ch) && Touches(s.book, s'.book, ch)
    requires s'.pool == s.pool && s'.closes == s.closes && s'.nextTask == s.nextTask && s'.nextChannel == s.nextChannel
    requires s'.tasks == s.tasks - {t}
    ensures Local(s, s', ch, t) && Ids(s')
  {}

  lemma HealthTaskStep(s: State, s': State, ch: Channel, t: TaskId)
    requires Inv(s) && t in s'.tasks && HealthOn(s', t, ch) && ch < s.nextChannel && HealthHolds(s', t, ch)
    requires (t == s.nextTask && s'.nextTask == t + 1) || (HealthOn(s, t, ch) && s'.nextTask == s.nextTask)
    requires s'.tasks == s.tasks[t := s'.tasks[t]] && s'.pool == s.pool && s'.closes == s.closes
    requires s'.nextChannel == s.nextChannel && s'.shutdown == s.shutdown
    requires Respects(s.book, s'.book, ch) && s'.book.Valid()
    requires ch in s.book.records ==> ch in s'.book.records && s'.book.records[ch] == s.book.records[ch]
    requires PooledIsWatched(s', ch)
    ensures Inv(s')
  {
    assert ChannelInv(s, ch);
    assert forall u :: RestoreOn(s', u, ch) == RestoreOn(s, u, ch);
    forall u ensures RestoreOwns(s', u, ch) { assert RestoreOwns(s, u, ch); }
    forall u ensures HealthHolds(s', u, ch) { assert HealthHolds(s, u, ch); }
    HealthStepIsLocal(s, s', ch, t);
    LocalStep(s, s', ch, t);
  }

  lemma HealthStepIsLocal(s: State, s': State, ch: Channel, t: TaskId)
    requires Ids(s) && t in s'.tasks && HealthOn(s', t, ch) && ch < s.nextChannel
    requires (t == s.nextTask && s'.nextTask == t + 1) || (HealthOn(s, t, ch) && s'.nextTask == s.nextTask)
    requires s'.tasks == s.tasks[t := s'.tasks[t]] && s'.pool == s.pool && s'.closes == s.closes && s'.nextChannel == s.nextChannel
    requires Touches(s.book, s'.book, ch)
    ensures Local(s, s', ch, t) && Ids(s')
  {}

  lemma StartedHealthStays(s: State, t: TaskId, maxRetries: nat)
    requires Inv(s) && t in s.tasks && s.tasks[t].Health? && s.tasks[t].channel in s.pool
    ensures var s1 := StartRestore(s, s.tasks[t].channel, maxRetries).0; t in s1.tasks && s1.tasks[t] == s.tasks[t]
  {
    hide Book.StopHealthCheck;
  }

  lemma ProbedKeepsInv(s: State, a: Action)
    requires Inv(s) && Enabled(s, a) && a.HealthProbed?
    ensures Inv(NextHealth(s, a))
  {
    hide StartRestore;
    var t := a.task;
    var task := s.tasks[t];
    var ch := task.channel;
    if a.healthy || ch !in s.pool || s.pool[ch] != task.connection {
      HealthEnds(s, t);
    } else {
      StartRestoreKeepsInv(s, ch, a.maxRetries);
      StartedHealthStays(s, t, a.maxRetries);
      var (s1, joined) := StartRestore(s, ch, a.maxRetries);
      if joined.None? { HealthEnds(s1, t); }
      else {
        var s' := NextHealth(s, a);
        assert ChannelInv(s1, ch) && HealthHolds(s1, t, ch) && HealthOn(s1, t, ch);
        assert forall u :: RestoreOn(s', u, ch) == RestoreOn(s1, u, ch);
        HealthTaskStep(s1, s', ch, t);
      }
    }
  }

  lemma TickKeepsInv(s: State, a: Action)
    requires Inv(s) && Enabled(s, a) && a.HealthTick?
    ensures Inv(NextHealth(s, a))
  {
    var s' := NextHealth(s, a);
    var ch := s.book.store[a.record].healthCheckTimer.value.channel;
    if s' != s {
      assert ChannelInv(s, ch) && PooledIsWatched(s, ch);
      HealthTaskStep(s, s', ch, s.nextTask);
    }
  }

  lemma HealthKeepsInv(s: State, a: Action)
    requires Inv(s) && Enabled(s, a) && (a.HealthTick? || a.HealthProbed? || a.HealthResumed? || a.Deregistered?)
    ensures Inv(NextHealth(s, a))
  {
    hide Inv, StartRestore, EndHealth;
    if a.HealthTick? { TickKeepsInv(s, a); }
    else if a.HealthProbed? { ProbedKeepsInv(s, a); }
    else if a.HealthResumed? { HealthEnds(s, a.task); }
    else { StartRestoreKeepsInv(s, a.channel, a.maxRetries); }
  }

  // ---------------------------------------------------------------- registrations

  /** A registration publishes a name nobody has used. */
  lemma PublishedKeepsInv(s: State, a: Action)
    requires Inv(s) && Enabled(s, a) && a.RegistrationSubscribed?
    ensures Inv(NextRegistration(s, a))
  {
    hide Book.MarkActive, Book.StartHealthCheck;
    var t := a.task;
    var s' := NextRegistration(s, a);
    if !a.ok || s.book.isDestroyed {
      NeutralTask(s, s', t);
    } else {
      var ch := s.nextChannel;
      var conn := s.tasks[t].phase.connection;
      var s1 := Publish(s.(nextChannel := ch + 1), ch, conn);
      var b := MarkAndStart(s.book, ch, conn);
      FreshPublishKeepsInv(s, s1, b, conn);
      NeutralTask(s1, s', t);
    }
  }

  lemma FreshPublishKeepsInv(s: State, s1: State, b: Book, conn: Connection)
    requires Inv(s) && b.Valid() && Respects(s.book, b, s.nextChannel)
    requires b.Mapped(s.nextChannel) && b.At(s.nextChannel).healthCheckTimer.Some?
    requires s1 == s.(nextChannel := s.nextChannel + 1, pool := s.pool[s.nextChannel := conn], book := b)
    ensures Inv(s1)
  {
    var ch := s.nextChannel;
    forall u ensures !RestoreOn(s1, u, ch) && !HealthOn(s1, u, ch) {}
    assert Ids(s1);
    LocalStep(s, s1, ch, s.nextTask);
  }

  lemma RegistrationFailedKeepsInv(s: State, t: TaskId, done: seq<Channel>, tails: set<Channel>)
    requires Inv(s) && t in s.tasks && s.tasks[t].Registration?
    ensures Inv(RegistrationFailed(s, t, done, tails))
  {
    if done == [] {
      NeutralTask(s, EndTask(s, t), t);
    } else {
      var s0 := SetTask(s, t, Registration(RollingBack({}), 0, done));
      NeutralTask(s, s0, t);
      UnlistenAllKeepsInv(s0, done, tails);
      UnlistenAllKeepsOthers(s0, done, tails, t);
      var s1 := UnlistenAll(s0, done, tails);
      NeutralTask(s1, SetTask(s1, t, Registration(RollingBack(Awaited(s1, done)), 0, done)), t);
    }
  }

  /** Unlistening only adds close operations. */
  lemma UnlistenAllKeepsOthers(s: State, channels: seq<Channel>, tails: set<Channel>, t: TaskId)
    requires t in s.tasks && t < s.nextTask
    ensures var s1 := UnlistenAll(s, channels, tails);
            t in s1.tasks && s1.tasks[t] == s.tasks[t] && s.nextTask <= s1.nextTask && s1.shutdown == s.shutdown
            && s1.book.isDestroyed == s.book.isDestroyed
    decreases |channels|
  {
    if channels != [] {
      UnlistenKeepsOthers(s, channels[0], channels[0] in tails, t);
      UnlistenAllKeepsOthers(Unlisten(s, channels[0], channels[0] in tails), channels[1..], tails, t);
    }
  }

  lemma UnlistenKeepsOthers(s: State, ch: Channel, hasTail: bool, t: TaskId)
    requires t in s.tasks && t < s.nextTask
    ensures var s1 := Unlisten(s, ch, hasTail);
            t in s1.tasks && s1.tasks[t] == s.tasks[t] && s.nextTask <= s1.nextTask && s1.shutdown == s.shutdown
            && s1.book.isDestroyed == s.book.isDestroyed
  {}

  lemma RegistrationKeepsInv(s: State, a: Action)
    requires Inv(s) && Enabled(s, a)
    requires a.Listen? || a.RegistrationStarts? || a.RegistrationConnected? || a.RegistrationSubscribed? || a.RegistrationCleaned? || a.RegistrationRolledBack?
    ensures Inv(NextRegistration(s, a))
  {
    hide RegistrationFailed, Publish;
    if a.RegistrationSubscribed? {
      PublishedKeepsInv(s, a);
    } else if a.RegistrationCleaned? {
      var s1 := s.(closed := s.closed + multiset{s.tasks[a.task].phase.connection});
      ClosingKeepsInv(s, s1);
      RegistrationFailedKeepsInv(s1, a.task, s.tasks[a.task].done, a.tails);
    } else if a.RegistrationConnected? && !a.ok {
      RegistrationFailedKeepsInv(s, a.task, s.tasks[a.task].done, a.tails);
    } else {
      NeutralTask(s, NextRegistration(s, a), if a.Listen? then s.nextTask else a.task);
    }
  }

  // ---------------------------------------------------------------- shutdown

  /** Bookkeeping after shutdown has begun, on any number of channels. */
  lemma ShuttingDownKeepsInv(s: State, s': State)
    requires Inv(s) && s'.book.Valid() && s'.book.isDestroyed && !s'.shutdown.Running?
    requires SameWorkflows(s.book, s'.book)
    requires s'.tasks == s.tasks && s'.closes == s.closes && s'.nextTask == s.nextTask && s'.nextChannel == s.nextChannel
    requires forall ch :: ch in s'.pool ==> ch in s.pool
    ensures Inv(s')
  {
    assert Ids(s');
    forall ch ensures ChannelInv(s', ch) {
      assert ChannelInv(s, ch);
      assert forall u :: RestoreOn(s', u, ch) == RestoreOn(s, u, ch) && HealthOn(s', u, ch) == HealthOn(s, u, ch);
      forall u ensures RestoreOwns(s', u, ch) { assert RestoreOwns(s, u, ch); }
      forall u ensures HealthHolds(s', u, ch) { assert HealthHolds(s, u, ch); }
    }
  }

  lemma CancelAllRespects(b: Book, channels: seq<Channel>)
    requires b.Valid()
    ensures var b' := CancelAll(b, channels);
            b'.Valid() && b'.isDestroyed == b.isDestroyed && SameWorkflows(b, b')
    decreases |channels|
  {
    hide Book.CancelRestore;
    if channels != [] {
      CancellingTouchesOneChannel(b, channels[0]);
      CancelAllRespects(b.CancelRestore(channels[0]), channels[1..]);
    }
  }

  /** The records' channels and workflows are the same; only flags may differ. */
  ghost predicate SameWorkflows(b: Book, after: Book) {
    && |b.store| <= |after.store|
    && forall i :: 0 <= i < |b.store| ==> after.store[i].channel == b.store[i].channel && after.store[i].activeRestore == b.store[i].activeRestore
  }

  lemma BeginDestroyKeepsWorkflows(b: Book)
    requires b.Valid()
    ensures b.BeginDestroy().Valid() && b.BeginDestroy().isDestroyed && SameWorkflows(b, b.BeginDestroy())
  {}

  lemma StopAllKeepsWorkflows(b: Book)
    requires b.Valid()
    ensures b.StopAllHealthChecks().Valid() && b.StopAllHealthChecks().isDestroyed == b.isDestroyed && SameWorkflows(b, b.StopAllHealthChecks())
  {}

  lemma DestroyKeepsInv(s: State, a: Action)
    requires Inv(s) && Enabled(s, a) && (a.Destroy? || a.DestroyRest? || a.DestroyFinishes?)
    ensures Inv(NextDestroy(s, a))
  {
    hide Book.BeginDestroy, Book.StopAllHealthChecks;
    if a.DestroyFinishes? {
      ShuttingDownKeepsInv(s, NextDestroy(s, a));
    } else {
      var b0 := if a.Destroy? then s.book.BeginDestroy().StopAllHealthChecks() else s.book;
      BeginDestroyKeepsWorkflows(s.book);
      StopAllKeepsWorkflows(s.book.BeginDestroy());
      var chs := if a.Destroy? then a.pooled + a.restoring else a.pooled;
      CancelAllRespects(b0, chs);
      var s0 := s.(book := CancelAll(b0, chs), shutdown := if a.Destroy? then UnsubscribingAll({}) else s.shutdown);
      ShuttingDownKeepsInv(s, s0);
      UnlistenAllKeepsInv(s0, a.pooled, a.tails);
      UnlistenAllStaysDestroyed(s0, a.pooled, a.tails);
      ShuttingDownKeepsInv(UnlistenAll(s0, a.pooled, a.tails), NextDestroy(s, a));
    }
  }

  lemma UnlistenAllStaysDestroyed(s: State, channels: seq<Channel>, tails: set<Channel>)
    ensures UnlistenAll(s, channels, tails).book.isDestroyed == s.book.isDestroyed
    decreases |channels|
  {
    if channels != [] {
      UnlistenAllStaysDestroyed(Unlisten(s, channels[0], channels[0] in tails), channels[1..], tails);
    }
  }

  /** Every action keeps the invariant. */
  lemma StepKeepsInv(s: State, a: Action)
    requires Inv(s) && Enabled(s, a)
    ensures Inv(Next(s, a))
  {
    hide Inv, NextDestroy, NextHealth, NextRegistration, NextRestore;
    if a.Destroy? || a.DestroyRest? || a.DestroyFinishes? { DestroyKeepsInv(s, a); }
    else if a.UserUnlisten? { UnlistenKeepsInv(s, a.channel, a.hasTail); }
    else if a.CloseDrained? || a.CloseReleased? { CloseKeepsInv(s, a); }
    else if a.CloseCleared? { CloseClearedKeepsInv(s, a); }
    else if a.HealthTick? || a.HealthProbed? || a.HealthResumed? || a.Deregistered? { HealthKeepsInv(s, a); }
    else if a.Listen? || a.RegistrationStarts? || a.RegistrationConnected? || a.RegistrationSubscribed?
            || a.RegistrationCleaned? || a.RegistrationRolledBack? { RegistrationKeepsInv(s, a); }
    else { RestoreKeepsInv(s, a); }
  }
}
