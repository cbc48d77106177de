/**
 The per-channel bookkeeping of `DatabaseNotify`: restore records with their
 cancellation flag, active workflow, retry delay and health-check timer.

 Records are objects with identity in the program: an operation keeps the
 record it started with while the map may meanwhile hold another one for the
 same channel. Identities are indices into `store`, which only grows.
 */
module RestoreRecords {
  import opened Options

  type Channel = nat
  type Connection = nat
  type TaskId = nat
  type RecordId = nat

  /** The options a periodic health check was started with. */
  datatype Timer = Timer(channel: Channel, connection: Connection)

  /** `channel` is the key the record was created under; it never changes. */
  datatype Record = Record(
    channel: Channel,
    isCancelled: bool,
    isHealthCheckInProgress: bool,
    activeRestore: Option<TaskId>,
    retryDelay: Option<TaskId>,
    healthCheckTimer: Option<Timer>)
  {
    predicate Idle() {
      && !isCancelled
      && !isHealthCheckInProgress
      && activeRestore.None?
      && retryDelay.None?
      && healthCheckTimer.None?
    }
  }

  datatype Book = Book(isDestroyed: bool, records: map<Channel, RecordId>, store: seq<Record>) {

    ghost predicate Valid() {
      forall ch :: ch in records ==> records[ch] < |store| && store[records[ch]].channel == ch
    }

    predicate Mapped(ch: Channel) {
      ch in records && records[ch] < |store|
    }

    /** The record stored for `ch`. */
    function At(ch: Channel): Record
      requires Mapped(ch)
    {
      store[records[ch]]
    }

    function Put(id: RecordId, record: Record): Book
      requires id < |store|
    {
      this.(store := store[id := record])
    }

    /** Deletes by channel name, whichever record is stored there. */
    function DeleteIfIdle(ch: Channel, id: RecordId): Book
      requires id < |store|
    {
      if store[id].Idle() then this.(records := records - {ch}) else this
    }

    function GetOrCreate(ch: Channel): Book {
      if Mapped(ch) then this
      else this.(records := records[ch := |store|],
                 store := store + [Record(ch, false, false, None, None, None)])
    }

    function StopHealthCheck(ch: Channel): Book {
      if !Mapped(ch) || At(ch).healthCheckTimer.None? then this
      else Put(records[ch], At(ch).(healthCheckTimer := None)).DeleteIfIdle(ch, records[ch])
    }

    function StartHealthCheck(ch: Channel, conn: Connection): Book {
      if isDestroyed then this
      else
        var stopped := StopHealthCheck(ch).GetOrCreate(ch);
        stopped.Put(stopped.records[ch], stopped.At(ch).(healthCheckTimer := Some(Timer(ch, conn))))
    }

    /** Resolves the pending retry delay of a record, as the delay's own timer does. */
    function CompleteDelay(ch: Channel, id: RecordId): Book
      requires id < |store|
    {
      Put(id, store[id].(retryDelay := None)).DeleteIfIdle(ch, id)
    }

    function CancelRestore(ch: Channel): Book {
      var b := GetOrCreate(ch);
      var cancelled := b.Put(b.records[ch], b.At(ch).(isCancelled := true));
      if cancelled.At(ch).retryDelay.Some? then cancelled.CompleteDelay(ch, cancelled.records[ch])
      else cancelled
    }

    predicate IsCancelled(ch: Channel) {
      isDestroyed || (Mapped(ch) && At(ch).isCancelled)
    }

    function MarkActive(ch: Channel): Book {
      if isDestroyed then CancelRestore(ch)
      else if !Mapped(ch) || At(ch).activeRestore.Some? then this
      else Put(records[ch], At(ch).(isCancelled := false)).DeleteIfIdle(ch, records[ch])
    }

    function ClearState(ch: Channel): Book {
      if !Mapped(ch) then this
      else
        var record := At(ch).(isHealthCheckInProgress := false);
        var kept := if !isDestroyed && record.activeRestore.None? then record.(isCancelled := false) else record;
        Put(records[ch], kept).DeleteIfIdle(ch, records[ch])
    }

    /** Sets the destroyed flag and completes every pending retry delay. */
    function BeginDestroy(): Book {
      var completed := seq(|store|, i requires 0 <= i < |store| =>
        if i in records.Values then store[i].(retryDelay := None) else store[i]);
      Book(true,
           map ch | ch in records && !(Mapped(ch) && At(ch).retryDelay.Some? && completed[records[ch]].Idle()) :: records[ch],
           completed)
    }

    /** Clears every health-check timer of a stored record. */
    function StopAllHealthChecks(): Book {
      var stopped := seq(|store|, i requires 0 <= i < |store| =>
        if i in records.Values then store[i].(healthCheckTimer := None) else store[i]);
      Book(isDestroyed,
           map ch | ch in records && !(Mapped(ch) && At(ch).healthCheckTimer.Some? && stopped[records[ch]].Idle()) :: records[ch],
           stopped)
    }
  }

  /** What any operation on one channel leaves alone. */
  ghost predicate Touches(b: Book, after: Book, ch: Channel) {
    && |b.store| <= |after.store|
    && after.isDestroyed == b.isDestroyed
    && (forall c :: c != ch ==> (c in b.records <==> c in after.records))
    && (forall c :: c != ch && c in b.records ==> after.records[c] == b.records[c])
    && (forall i :: 0 <= i < |b.store| ==> after.store[i].channel == b.store[i].channel)
    && (forall i :: 0 <= i < |b.store| && b.store[i].channel != ch ==> after.store[i] == b.store[i])
  }

  /** What the bookkeeping operations never do to a running workflow: end it, un-cancel it, or forget its record. */
  ghost predicate Respects(b: Book, after: Book, ch: Channel) {
    && Touches(b, after, ch)
    && (forall i :: 0 <= i < |b.store| ==> after.store[i].activeRestore == b.store[i].activeRestore)
    && (forall i :: 0 <= i < |b.store| && b.store[i].isCancelled && b.store[i].activeRestore.Some? ==> after.store[i].isCancelled)
    && (!b.isDestroyed && b.Mapped(ch) && b.At(ch).activeRestore.Some? ==> ch in after.records && after.records[ch] == b.records[ch])
  }

  /** The record stored for `ch` becomes this one, or leaves the map if nothing about it matters any more. */
  ghost predicate Becomes(b: Book, after: Book, ch: Channel, record: Record)
    requires b.Mapped(ch)
  {
    if record.Idle() then ch !in after.records
    else after.Mapped(ch) && after.records[ch] == b.records[ch] && after.At(ch) == record
  }

  /** The record stored for `ch`, or a new one. */
  function Current(b: Book, ch: Channel): Record {
    if b.Mapped(ch) then b.At(ch) else Record(ch, false, false, None, None, None)
  }

  lemma CreatingTouchesOneChannel(b: Book, ch: Channel)
    requires b.Valid()
    ensures b.GetOrCreate(ch).Valid() && Respects(b, b.GetOrCreate(ch), ch) && b.GetOrCreate(ch).Mapped(ch)
    ensures ch in b.records ==> b.GetOrCreate(ch) == b
    ensures ch !in b.records ==> b.GetOrCreate(ch).At(ch) == Record(ch, false, false, None, None, None)
  {}

  lemma CancellingTouchesOneChannel(b: Book, ch: Channel)
    requires b.Valid()
    ensures b.CancelRestore(ch).Valid() && Respects(b, b.CancelRestore(ch), ch)
    ensures b.CancelRestore(ch).Mapped(ch) && b.CancelRestore(ch).At(ch).isCancelled
    ensures ch in b.records ==> b.CancelRestore(ch).records[ch] == b.records[ch]
  {
    CreatingTouchesOneChannel(b, ch);
  }

  lemma StoppingTouchesOneChannel(b: Book, ch: Channel)
    requires b.Valid()
    ensures b.StopHealthCheck(ch).Valid() && Respects(b, b.StopHealthCheck(ch), ch)
    ensures b.Mapped(ch) && b.At(ch).isCancelled ==>
              b.StopHealthCheck(ch).Mapped(ch) && b.StopHealthCheck(ch).records[ch] == b.records[ch] && b.StopHealthCheck(ch).At(ch).isCancelled
  {}

  lemma StartingTouchesOneChannel(b: Book, ch: Channel, conn: Connection)
    requires b.Valid()
    ensures b.StartHealthCheck(ch, conn).Valid() && Respects(b, b.StartHealthCheck(ch, conn), ch)
    ensures !b.isDestroyed ==>
              b.StartHealthCheck(ch, conn).Mapped(ch) && b.StartHealthCheck(ch, conn).At(ch).healthCheckTimer == Some(Timer(ch, conn))
  {
    StoppingTouchesOneChannel(b, ch);
    CreatingTouchesOneChannel(b.StopHealthCheck(ch), ch);
  }

  lemma ClearingTouchesOneChannel(b: Book, ch: Channel)
    requires b.Valid()
    ensures b.ClearState(ch).Valid() && Respects(b, b.ClearState(ch), ch)
  {}

  lemma MarkingTouchesOneChannel(b: Book, ch: Channel)
    requires b.Valid()
    ensures b.MarkActive(ch).Valid() && Respects(b, b.MarkActive(ch), ch)
  {
    if b.isDestroyed {
      hide Book.CancelRestore;
      CancellingTouchesOneChannel(b, ch);
    }
  }

  // ---- and what each operation does to it

  /** Cancelling completes a pending retry delay, so that a waiting workflow notices. */
  lemma CancellingSetsTheFlag(b: Book, ch: Channel)
    requires b.Valid()
    ensures b.CancelRestore(ch).Mapped(ch) && b.CancelRestore(ch).At(ch) == Current(b, ch).(isCancelled := true, retryDelay := None)
  {
    CreatingTouchesOneChannel(b, ch);
  }

  /** Stopping clears the timer and nothing else. */
  lemma StoppingClearsTheTimer(b: Book, ch: Channel)
    requires b.Valid()
    ensures if b.Mapped(ch) && b.At(ch).healthCheckTimer.Some? then Becomes(b, b.StopHealthCheck(ch), ch, b.At(ch).(healthCheckTimer := None))
            else b.StopHealthCheck(ch) == b
  {}

  /** Starting replaces the timer and nothing else; after destroy it does nothing. */
  lemma StartingSetsTheTimer(b: Book, ch: Channel, conn: Connection)
    requires b.Valid()
    ensures if b.isDestroyed then b.StartHealthCheck(ch, conn) == b
            else b.StartHealthCheck(ch, conn).Mapped(ch)
                 && b.StartHealthCheck(ch, conn).At(ch) == Current(b, ch).(healthCheckTimer := Some(Timer(ch, conn)))
  {
    hide Book.StopHealthCheck;
    StoppingTouchesOneChannel(b, ch);
    StoppingClearsTheTimer(b, ch);
    CreatingTouchesOneChannel(b.StopHealthCheck(ch), ch);
  }

  /** Clearing ends the health check's claim, and lifts a cancellation that no workflow is left to notice, while the notifier lives. */
  lemma ClearingLiftsTheFlag(b: Book, ch: Channel)
    requires b.Valid()
    ensures if b.Mapped(ch)
            then Becomes(b, b.ClearState(ch), ch,
                         b.At(ch).(isHealthCheckInProgress := false,
                                   isCancelled := b.At(ch).isCancelled && (b.isDestroyed || b.At(ch).activeRestore.Some?)))
            else b.ClearState(ch) == b
  {}

  /** Marking lifts the cancellation of a channel that has no workflow; after destroy it cancels. */
  lemma MarkingLiftsTheFlag(b: Book, ch: Channel)
    requires b.Valid()
    ensures b.isDestroyed ==> b.MarkActive(ch).Mapped(ch) && b.MarkActive(ch).At(ch).isCancelled
    ensures !b.isDestroyed ==>
              if b.Mapped(ch) && b.At(ch).activeRestore.None? then Becomes(b, b.MarkActive(ch), ch, b.At(ch).(isCancelled := false))
              else b.MarkActive(ch) == b
  {
    if b.isDestroyed {
      hide Book.CancelRestore;
      CancellingTouchesOneChannel(b, ch);
    }
  }

  /** Destroying completes every pending delay, and stopping all clears every timer, of the records that are stored. */
  lemma DestroyingCompletesDelays(b: Book, id: RecordId)
    requires id in b.records.Values && id < |b.store|
    ensures b.BeginDestroy().isDestroyed && b.BeginDestroy().store[id] == b.store[id].(retryDelay := None)
    ensures b.StopAllHealthChecks().store[id] == b.store[id].(healthCheckTimer := None)
  {}

  lemma CompletingTouchesOneChannel(b: Book, ch: Channel, id: RecordId)
    requires b.Valid() && id < |b.store| && b.store[id].channel == ch
    requires !b.isDestroyed && b.Mapped(ch) && b.At(ch).activeRestore.Some? ==> b.records[ch] == id
    ensures b.CompleteDelay(ch, id).Valid() && Respects(b, b.CompleteDelay(ch, id), ch)
  {}
}
