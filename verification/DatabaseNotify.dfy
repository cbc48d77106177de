/**
 The restore bookkeeping and the callback queues of a notifier as the object the
 program has: methods that change its maps, each tied to the state machine step
 that the run-level theorems are about.
 */
module DatabaseNotify {
  import opened Options
  import opened RestoreRecords
  import Queues = NotificationQueue

  /** Restore records; a record keeps its identity, its index in `store`, after the map has let it go. */
  class RestoreStates {
    var isDestroyed: bool
    var restoreStates: map<Channel, RecordId>
    var store: seq<Record>

    constructor ()
      ensures View() == Book(false, map[], [])
    {
      isDestroyed, restoreStates, store := false, map[], [];
    }

    ghost function View(): Book
      reads this
    {
      Book(isDestroyed, restoreStates, store)
    }

    method DeleteRestoreStateIfIdle(channelName: Channel, id: RecordId)
      requires id < |store|
      modifies this
      ensures View() == old(View()).DeleteIfIdle(channelName, id)
    {
      var state := store[id];
      if state.isCancelled || state.isHealthCheckInProgress || state.activeRestore.Some? || state.retryDelay.Some? || state.healthCheckTimer.Some? {
        return;
      }
      restoreStates := restoreStates - {channelName};
    }

    method GetOrCreateRestoreState(channelName: Channel) returns (id: RecordId)
      requires View().Valid()
      modifies this
      ensures View() == old(View()).GetOrCreate(channelName)
      ensures View().Mapped(channelName) && id == restoreStates[channelName] && View().Valid()
    {
      if channelName in restoreStates {
        return restoreStates[channelName];
      }
      id := |store|;
      store := store + [Record(channelName, false, false, None, None, None)];
      restoreStates := restoreStates[channelName := id];
    }

    method StopConnectionHealthCheck(channelName: Channel)
      requires View().Valid()
      modifies this
      ensures View() == old(View()).StopHealthCheck(channelName)
    {
      if channelName !in restoreStates {
        return;
      }
      var id := restoreStates[channelName];
      if store[id].healthCheckTimer.None? {
        return;
      }
      store := store[id := store[id].(healthCheckTimer := None)];
      DeleteRestoreStateIfIdle(channelName, id);
    }

    method StartConnectionHealthCheck(channelName: Channel, connection: Connection)
      requires View().Valid()
      modifies this
      ensures View() == old(View()).StartHealthCheck(channelName, connection)
    {
      if isDestroyed {
        return;
      }
      StoppingTouchesOneChannel(View(), channelName);
      StopConnectionHealthCheck(channelName);
      var id := GetOrCreateRestoreState(channelName);
      store := store[id := store[id].(healthCheckTimer := Some(Timer(channelName, connection)))];
    }

    method CompleteRetryDelay(channelName: Channel, id: RecordId)
      requires id < |store|
      modifies this
      ensures View() == old(View()).CompleteDelay(channelName, id)
    {
      store := store[id := store[id].(retryDelay := None)];
      DeleteRestoreStateIfIdle(channelName, id);
    }

    method CancelNotificationRestore(channelName: Channel)
      requires View().Valid()
      modifies this
      ensures View() == old(View()).CancelRestore(channelName)
    {
      var id := GetOrCreateRestoreState(channelName);
      store := store[id := store[id].(isCancelled := true)];
      if store[id].retryDelay.Some? {
        CompleteRetryDelay(channelName, id);
      }
    }

    method MarkNotificationActive(channelName: Channel)
      requires View().Valid()
      modifies this
      ensures View() == old(View()).MarkActive(channelName)
    {
      if isDestroyed {
        CancelNotificationRestore(channelName);
        return;
      }
      if channelName !in restoreStates {
        return;
      }
      var id := restoreStates[channelName];
      if store[id].activeRestore.Some? {
        return;
      }
      store := store[id := store[id].(isCancelled := false)];
      DeleteRestoreStateIfIdle(channelName, id);
    }

    method ClearNotificationRestoreState(channelName: Channel)
      requires View().Valid()
      modifies this
      ensures View() == old(View()).ClearState(channelName)
    {
      if channelName !in restoreStates {
        return;
      }
      var id := restoreStates[channelName];
      store := store[id := store[id].(isHealthCheckInProgress := false)];
      if !isDestroyed && store[id].activeRestore.None? {
        store := store[id := store[id].(isCancelled := false)];
      }
      DeleteRestoreStateIfIdle(channelName, id);
    }

    /** Sets the flag and completes every pending retry delay, record by record. */
    method BeginDestroy()
      requires View().Valid()
      modifies this
      ensures View() == old(View()).BeginDestroy()
    {
      hide DelaysCompleted, Book.CompleteDelay, Book.BeginDestroy, Book.Valid;
      isDestroyed := true;
      ghost var before := old(View());
      var remaining := restoreStates;
      NoDelayYet(before);
      while remaining != map[]
        invariant before.Valid() && (forall ch :: ch in remaining ==> ch in before.records && remaining[ch] == before.records[ch])
        invariant View() == DelaysCompleted(before, remaining.Keys)
        decreases |remaining|
      {
        var channelName :| channelName in remaining;
        var id := remaining[channelName];
        OneDelay(before, remaining.Keys, channelName);
        assert (remaining - {channelName}).Keys == remaining.Keys - {channelName};
        if store[id].retryDelay.Some? {
          CompleteRetryDelay(channelName, id);
        }
        remaining := remaining - {channelName};
      }
      assert remaining.Keys == {};
      AllDelaysCompleted(before);
    }

    /** Clears the health-check timer of every record. */
    method StopAllConnectionHealthChecks()
      requires View().Valid()
      modifies this
      ensures View() == old(View()).StopAllHealthChecks()
    {
      hide TimersStopped, Book.DeleteIfIdle, Book.StopAllHealthChecks, Book.Valid;
      ghost var before := old(View());
      var remaining := restoreStates;
      NoTimerYet(before);
      while remaining != map[]
        invariant before.Valid() && (forall ch :: ch in remaining ==> ch in before.records && remaining[ch] == before.records[ch])
        invariant View() == TimersStopped(before, remaining.Keys)
        decreases |remaining|
      {
        var channelName :| channelName in remaining;
        var id := remaining[channelName];
        OneTimer(before, remaining.Keys, channelName);
        assert (remaining - {channelName}).Keys == remaining.Keys - {channelName};
        if store[id].healthCheckTimer.Some? {
          store := store[id := store[id].(healthCheckTimer := None)];
          DeleteRestoreStateIfIdle(channelName, id);
        }
        remaining := remaining - {channelName};
      }
      assert remaining.Keys == {};
      AllTimersStopped(before);
    }
  }

  /** The record that a channel maps to, unless the channel is still to be visited. */
  predicate Visited(b: Book, remaining: set<Channel>, i: nat)
    requires i < |b.store|
  {
    var ch := b.store[i].channel;
    ch in b.records && b.records[ch] == i && ch !in remaining
  }

  /** Half-way through destroy: the delays of the visited channels are completed. */
  function DelaysCompleted(b: Book, remaining: set<Channel>): Book {
    var done := seq(|b.store|, i requires 0 <= i < |b.store| =>
      if Visited(b, remaining, i) then b.store[i].(retryDelay := None) else b.store[i]);
    Book(true,
         map ch | ch in b.records && !(ch !in remaining && b.Mapped(ch) && b.At(ch).retryDelay.Some? && done[b.records[ch]].Idle()) ::
           b.records[ch],
         done)
  }

  lemma NoDelayYet(b: Book)
    requires b.Valid()
    ensures DelaysCompleted(b, b.records.Keys) == b.(isDestroyed := true)
  {
    assert DelaysCompleted(b, b.records.Keys).store == b.store;
    assert DelaysCompleted(b, b.records.Keys).records == b.records;
  }

  lemma OneDelay(b: Book, remaining: set<Channel>, ch: Channel)
    requires b.Valid() && ch in remaining && ch in b.records
    ensures var p, id := DelaysCompleted(b, remaining), b.records[ch];
            && id < |p.store|
            && DelaysCompleted(b, remaining - {ch}) == if p.store[id].retryDelay.Some? then p.CompleteDelay(ch, id) else p
  {
    var p, id := DelaysCompleted(b, remaining), b.records[ch];
    var q := if p.store[id].retryDelay.Some? then p.CompleteDelay(ch, id) else p;
    var r := DelaysCompleted(b, remaining - {ch});
    assert p.store[id] == b.store[id] && b.store[id].channel == ch;
    assert r.store == q.store;
    assert r.records == q.records;
  }

  lemma AllDelaysCompleted(b: Book)
    requires b.Valid()
    ensures DelaysCompleted(b, {}) == b.BeginDestroy()
  {
    forall i | 0 <= i < |b.store|
      ensures Visited(b, {}, i) <==> i in b.records.Values
    {
      if Visited(b, {}, i) { assert b.records[b.store[i].channel] == i; }
    }
    assert DelaysCompleted(b, {}).store == b.BeginDestroy().store;
    assert DelaysCompleted(b, {}).records == b.BeginDestroy().records;
  }

  /** Half-way through clearing health checks. */
  function TimersStopped(b: Book, remaining: set<Channel>): Book {
    var done := seq(|b.store|, i requires 0 <= i < |b.store| =>
      if Visited(b, remaining, i) then b.store[i].(healthCheckTimer := None) else b.store[i]);
    Book(b.isDestroyed,
         map ch | ch in b.records && !(ch !in remaining && b.Mapped(ch) && b.At(ch).healthCheckTimer.Some? && done[b.records[ch]].Idle()) ::
           b.records[ch],
         done)
  }

  lemma NoTimerYet(b: Book)
    requires b.Valid()
    ensures TimersStopped(b, b.records.Keys) == b
  {
    assert TimersStopped(b, b.records.Keys).store == b.store;
    assert TimersStopped(b, b.records.Keys).records == b.records;
  }

  lemma OneTimer(b: Book, remaining: set<Channel>, ch: Channel)
    requires b.Valid() && ch in remaining && ch in b.records
    ensures var p, id := TimersStopped(b, remaining), b.records[ch];
            && id < |p.store|
            && TimersStopped(b, remaining - {ch}) ==
               if p.store[id].healthCheckTimer.Some? then p.Put(id, p.store[id].(healthCheckTimer := None)).DeleteIfIdle(ch, id) else p
  {
    var p, id := TimersStopped(b, remaining), b.records[ch];
    var q := if p.store[id].healthCheckTimer.Some? then p.Put(id, p.store[id].(healthCheckTimer := None)).DeleteIfIdle(ch, id) else p;
    var r := TimersStopped(b, remaining - {ch});
    assert p.store[id] == b.store[id] && b.store[id].channel == ch;
    assert r.store == q.store;
    assert r.records == q.records;
  }

  lemma AllTimersStopped(b: Book)
    requires b.Valid()
    ensures TimersStopped(b, {}) == b.StopAllHealthChecks()
  {
    forall i | 0 <= i < |b.store|
      ensures Visited(b, {}, i) <==> i in b.records.Values
    {
      if Visited(b, {}, i) { assert b.records[b.store[i].channel] == i; }
    }
    assert TimersStopped(b, {}).store == b.StopAllHealthChecks().store;
    assert TimersStopped(b, {}).records == b.StopAllHealthChecks().records;
  }

  /** The callback queues of a notifier. */
  class CallbackQueues {
    const limit: nat
    var pool: map<string, Queues.Connection>
    var closing: set<string>
    var queues: map<string, Queues.QueueId>
    var store: seq<Queues.Queue>
    var jobs: seq<Queues.Job>
    var invoked: seq<Queues.JobId>

    constructor (limit: nat)
      ensures View() == Queues.State(limit, map[], {}, map[], [], [], [])
    {
      this.limit := limit;
      pool, closing, queues, store, jobs, invoked := map[], {}, map[], [], [], [];
    }

    ghost function View(): Queues.State
      reads this
    {
      Queues.State(limit, pool, closing, queues, store, jobs, invoked)
    }

    /** Chains an event to the queue of its channel, unless that is closing or full. */
    method EnqueueNotificationPayload(channelName: string, connection: Queues.Connection)
      requires Queues.Counted(View())
      modifies this
      ensures View() == Queues.Next(old(View()), Queues.Event(channelName, connection))
    {
      if channelName in closing {
        return;
      }
      var queue := Queues.Queue(0, None);
      var q := |store|;
      if channelName in queues {
        q := queues[channelName];
        queue := store[q];
      }
      if queue.size >= limit {
        return;
      }
      var current := |jobs|;
      jobs := jobs + [Queues.Job(q, channelName, connection, queue.tail, Queues.Waiting)];
      queue := Queues.Queue(queue.size + 1, Some(current));
      store := if q < |store| then store[q := queue] else store + [queue];
      queues := queues[channelName := q];
    }

    /** The job's turn: its handler is called only for the pooled connection. */
    method ProcessPayload(job: Queues.JobId)
      requires Queues.Enabled(View(), Queues.Start(job))
      modifies this
      ensures View() == Queues.Next(old(View()), Queues.Start(job))
    {
      var current := jobs[job];
      if current.channel !in pool || pool[current.channel] != current.connection {
        jobs := jobs[job := current.(phase := Queues.Settled)];
        return;
      }
      invoked := invoked + [job];
      jobs := jobs[job := current.(phase := Queues.Running)];
    }

    /** The job's cleanup; the queue leaves the map with its last job. */
    method ReleaseJob(job: Queues.JobId)
      requires Queues.Enabled(View(), Queues.Release(job))
      modifies this
      ensures View() == Queues.Next(old(View()), Queues.Release(job))
    {
      var current := jobs[job];
      var q := current.queue;
      jobs := jobs[job := current.(phase := Queues.Released)];
      store := store[q := store[q].(size := store[q].size - 1)];
      if store[q].size == 0 && store[q].tail == Some(job) {
        queues := queues - {current.channel};
      }
    }

    method BeginNotificationQueueClose(channelName: string) returns (tail: Option<Queues.JobId>)
      requires Queues.Counted(View())
      modifies this
      ensures View() == Queues.Next(old(View()), Queues.BeginClose(channelName))
      ensures tail == if channelName in queues then store[queues[channelName]].tail else None
    {
      closing := closing + {channelName};
      tail := if channelName in queues then store[queues[channelName]].tail else None;
    }

    method CompleteNotificationQueueClose(channelName: string)
      modifies this
      ensures View() == Queues.Next(old(View()), Queues.CompleteClose(channelName))
    {
      queues := queues - {channelName};
      closing := closing - {channelName};
    }
  }
}
