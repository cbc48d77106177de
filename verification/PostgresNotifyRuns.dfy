/** Theorems about whole runs of the PostgreSQL listener protocol. */
module PostgresNotifyRuns {
  import opened PostgresNotifyProtocol
  import opened PostgresNotifySafety

  ghost predicate Step(s: State, s': State) {
    exists a :: Enabled(s, a) && s' == Next(s, a)
  }

  ghost predicate Run(run: seq<State>) {
    && |run| > 0 && run[0] == INITIAL
    && forall i :: 0 <= i < |run| - 1 ==> Step(run[i], run[i + 1])
  }

  lemma StepAt(run: seq<State>, i: nat) returns (a: Action)
    requires Run(run) && i + 1 < |run|
    ensures Enabled(run[i], a) && run[i + 1] == Next(run[i], a)
  {
    assert Step(run[i], run[i + 1]);
    a :| Enabled(run[i], a) && run[i + 1] == Next(run[i], a);
  }

  lemma {:induction false} RunsAreSafe(run: seq<State>, i: nat)
    requires Run(run) && i < |run|
    ensures Inv(run[i])
  {
    if i > 0 {
      hide Enabled, Next, Inv;
      RunsAreSafe(run, i - 1);
      var a := StepAt(run, i - 1);
      StepKeepsInv(run[i - 1], a);
    }
  }

  /** In every state of every run, each connection ever created is pooled, owned by an operation, or closed. */
  lemma ConnectionsAreConserved(run: seq<State>, i: nat, c: Connection)
    requires Run(run) && i < |run| && c < run[i].nextConnection
    ensures c in run[i].closed || Pooled(run[i], c) || Held(run[i], c)
  {
    RunsAreSafe(run, i);
  }

  // ---------------------------------------------------------------- after destroy

  lemma DestroyedPoolShrinks(s: State, a: Action)
    requires Inv(s) && Enabled(s, a) && s.IsDestroyed()
    ensures forall ch :: ch in Next(s, a).pool ==> ch in s.pool && Next(s, a).pool[ch] == s.pool[ch]
    ensures Next(s, a).IsDestroyed()
    ensures s.shutdown.Finished? ==> Next(s, a).shutdown.Finished?
  {
    hide Exclusive, Accounted, Unshared, Close;
    if a.DestroyRest? { CloseAllKeepsCore(s, a.pooled, a.tails); }
    else if a.CloseListener? { CloseShrinks(s, a.channel, a.hasTail); }
  }

  /** Once `destroy` has been called, no connection is ever added to the pool. */
  lemma {:induction false} NothingPooledAfterDestroy(run: seq<State>, i: nat, j: nat, ch: Channel)
    requires Run(run) && i <= j < |run| && run[i].IsDestroyed() && ch in run[j].pool
    ensures ch in run[i].pool && run[j].pool[ch] == run[i].pool[ch] && run[j].IsDestroyed()
    decreases j - i
  {
    if i < j {
      hide Enabled, Next, Inv;
      RunsAreSafe(run, i);
      var a := StepAt(run, i);
      DestroyedPoolShrinks(run[i], a);
      NothingPooledAfterDestroy(run, i + 1, j, ch);
    }
  }

  /** When `destroy` settles, the pool is empty for good, and every connection is closed or still owned by an operation. */
  lemma {:induction false} DestroyEmptiesThePool(run: seq<State>, i: nat, j: nat)
    requires Run(run) && i <= j < |run| && run[i].shutdown.Finished?
    ensures run[j].pool == map[] && run[j].shutdown.Finished?
    ensures forall c :: 0 <= c < run[j].nextConnection ==> c in run[j].closed || Held(run[j], c)
    decreases j - i
  {
    hide Enabled, Next;
    RunsAreSafe(run, i);
    if i < j {
      hide Inv;
      var a := StepAt(run, i);
      DestroyedPoolShrinks(run[i], a);
      DestroyEmptiesThePool(run, i + 1, j);
    } else {
      assert forall c :: !Pooled(run[j], c);
    }
  }

  // ---------------------------------------------------------------- what unlisten removes

  /** Connection `c` has left the pool and nothing can publish it. */
  ghost predicate Gone(s: State, c: Connection) {
    c < s.nextConnection && !Pooled(s, c) && forall t: TaskId :: !Registers(s, t, c)
  }

  lemma GoneStays(s: State, a: Action, c: Connection)
    requires Inv(s) && Enabled(s, a) && Gone(s, c)
    ensures Gone(Next(s, a), c)
  {
    hide Accounted, ShutdownInv, Close;
    if a.Destroy? || a.DestroyRest? {
      var s0 := if a.Destroy? then s.(shutdown := UnsubscribingAll({})) else s;
      CloseAllOnlyCloses(s0, a.pooled, a.tails) by { ShutdownStageKeeps(s, s0.shutdown); assert s.(shutdown := s0.shutdown) == s0; }
      var s1 := CloseAll(s0, a.pooled, a.tails);
      assert ClosesOnly(s0, s1);
    } else if a.CloseListener? {
      CloseOnlyCloses(s, a.channel, a.hasTail);
    }
    var s' := Next(s, a);
    forall t: TaskId ensures !Registers(s', t, c) { assert !Registers(s, t, c); }
    if a.Listened? { assert !Registers(s, a.task, c); }
    assert !Pooled(s', c);
  }

  lemma {:induction false} CloseAllOnlyCloses(s: State, channels: seq<Channel>, tails: set<Channel>)
    requires Core(s)
    ensures ClosesOnly(s, CloseAll(s, channels, tails))
    decreases |channels|
  {
    hide Core, Close;
    if channels != [] {
      var s1 := Close(s, channels[0], channels[0] in tails);
      CoreHasIds(s);
      CloseOnlyCloses(s, channels[0], channels[0] in tails);
      CloseKeepsCore(s, channels[0], channels[0] in tails);
      CloseAllOnlyCloses(s1, channels[1..], tails);
    }
  }

  /** Close `t` will take connection `c` of channel `ch`, or `c` is gone already. */
  ghost predicate Takes(s: State, t: TaskId, ch: Channel, c: Connection) {
    Gone(s, c) || (t in s.tasks && s.tasks[t] == Closing(ch, Draining) && ch in s.pool && s.pool[ch] == c)
  }

  lemma {:induction false} CloseAllLeavesClosing(s: State, channels: seq<Channel>, tails: set<Channel>, ch: Channel)
    requires Core(s) && ch in s.closes
    ensures var s' := CloseAll(s, channels, tails);
            && ch in s'.closes && s'.closes[ch] == s.closes[ch] && s'.closes[ch] in s'.tasks && s'.tasks[s'.closes[ch]] == s.tasks[s.closes[ch]]
            && (ch in s.pool ==> ch in s'.pool && s'.pool[ch] == s.pool[ch])
    decreases |channels|
  {
    CoreHasIds(s);
    if channels != [] {
      CloseKeepsCore(s, channels[0], channels[0] in tails);
      CloseAllLeavesClosing(Close(s, channels[0], channels[0] in tails), channels[1..], tails, ch);
    }
  }

  lemma TakesStays(s: State, a: Action, t: TaskId, ch: Channel, c: Connection)
    requires Inv(s) && Enabled(s, a) && Takes(s, t, ch, c)
    ensures Takes(Next(s, a), t, ch, c)
  {
    hide Accounted;
    if Gone(s, c) {
      GoneStays(s, a, c);
    } else if a.Destroy? || a.DestroyRest? {
      var s0 := if a.Destroy? then s.(shutdown := UnsubscribingAll({})) else s;
      CloseAllLeavesClosing(s0, a.pooled, a.tails, ch) by { ShutdownStageKeeps(s, s0.shutdown); assert s.(shutdown := s0.shutdown) == s0; }
    } else if a.DestroyFinishes? {
      ClearedPoolIsEmpty(s);
    } else if a == CloseDrained(t) {
      var s' := Next(s, a);
      forall u: TaskId ensures !Registers(s', u, c) { assert Registers(s, u, c) ==> !Pooled(s, c); }
      assert Gone(s', c);
    } else if a.Listened? {
      assert Active(s, a.task, s.tasks[a.task].channel);
    }
  }

  lemma {:induction false} TakesUntilGone(run: seq<State>, i: nat, j: nat, t: TaskId, ch: Channel, c: Connection)
    requires Run(run) && i <= j < |run| && Takes(run[i], t, ch, c)
    ensures Takes(run[j], t, ch, c)
    decreases j - i
  {
    if i < j {
      hide Enabled, Next, Inv, Takes;
      RunsAreSafe(run, i);
      var a := StepAt(run, i);
      TakesStays(run[i], a, t, ch, c);
      TakesUntilGone(run, i + 1, j, t, ch, c);
    }
  }

  /** The close that unlisten would join has already taken its connection. */
  ghost predicate JoinsLateClose(s: State, ch: Channel) {
    ch in s.closes && !Drains(s, ch)
  }

  /**
   Unless it joins a close that has already taken its connection, unlisten
   removes the subscription it found: when the close it waits for is over, that
   connection is in the pool no more, whoever listens to the channel again.
   */
  lemma UnlistenRemovesWhatItFound(run: seq<State>, i: nat, j: nat, ch: Channel, hasTail: bool, c: Connection)
    requires Run(run) && i < j < |run| && run[i + 1] == Close(run[i], ch, hasTail)
    requires ch in run[i].pool && run[i].pool[ch] == c && !JoinsLateClose(run[i], ch)
    requires ch in run[i + 1].closes && run[i + 1].closes[ch] !in run[j].tasks
    ensures !Pooled(run[j], c)
  {
    RunsAreSafe(run, i);
    hide Accounted;
    var s, s' := run[i], run[i + 1];
    if ch !in s.closes && !hasTail {
      forall u: TaskId ensures !Registers(s', u, c) { assert Registers(s, u, c) ==> !Pooled(s, c); }
      assert Gone(s', c);
    }
    TakesUntilGone(run, i + 1, j, s'.closes[ch], ch, c);
  }

  /** When it does join one, the subscription it found may outlive it: nothing else need happen. */
  lemma UnlistenLeavesWhatALateCloseMissed(s: State, ch: Channel, hasTail: bool)
    requires Inv(s) && ch in s.pool && JoinsLateClose(s, ch)
    ensures var t := s.closes[ch];
            && Close(s, ch, hasTail) == s
            && var s1 := if s.tasks[t].stage.Releasing? then Next(s, CloseReleased(t)) else s;
            && Enabled(s1, CloseCleared(t))
            && t !in Next(s1, CloseCleared(t)).tasks
            && ch in Next(s1, CloseCleared(t)).pool && Next(s1, CloseCleared(t)).pool[ch] == s.pool[ch]
  {}

  /** The run `states` may continue with `s'`. */
  lemma Continue(run: seq<State>, s': State, a: Action) returns (longer: seq<State>)
    requires |run| > 0 && Run(run) && Enabled(run[|run| - 1], a) && s' == Next(run[|run| - 1], a)
    ensures Run(longer) && |longer| > 0 && longer[|longer| - 1] == s'
  {
    longer := run + [s'];
    assert Step(run[|run| - 1], s');
    forall i | 0 <= i < |longer| - 1 ensures Step(longer[i], longer[i + 1]) {
      if i < |run| - 1 { assert Step(run[i], run[i + 1]); }
    }
  }

  const LISTENED := State(map[0 := 0], {}, map[], map[], Running, {}, 1, 1)

  lemma FirstListen() returns (run: seq<State>)
    ensures Run(run) && |run| > 0 && run[|run| - 1] == LISTENED
  {
    run := [INITIAL];
    assert Run(run);
    hide Run;
    var s1 := INITIAL.(tasks := map[0 := Registration(0, Queued)], nextTask := 1);
    var s2 := s1.(pending := {0}, tasks := map[0 := Registration(0, Connecting)]);
    var s3 := s2.(tasks := map[0 := Registration(0, Listening(0))], nextConnection := 1);
    run := Continue(run, s1, Listen(0));
    run := Continue(run, s2, RegistrationStarts(0));
    run := Continue(run, s3, Connected(0, true));
    assert LISTENED.pending == s3.pending - {0} && LISTENED.tasks == s3.tasks - {0};
    run := Continue(run, LISTENED, Listened(0, true));
  }

  /** A run in which that happens: the channel is listened to again while its first connection is still closing. */
  lemma RelistenDuringASlowUnlisten() returns (run: seq<State>)
    ensures Run(run) && |run| > 0 && 0 in run[|run| - 1].pool && JoinsLateClose(run[|run| - 1], 0)
  {
    hide Run;
    var close := Closing(0, Releasing(0));
    var s5 := State(map[], {}, map[0 := 1], map[1 := close], Running, {}, 2, 1);
    var s6 := s5.(tasks := map[1 := close, 2 := Registration(0, Queued)], nextTask := 3);
    var s7 := s6.(pending := {0}, tasks := map[1 := close, 2 := Registration(0, Connecting)]);
    var s8 := s7.(tasks := map[1 := close, 2 := Registration(0, Listening(1))], nextConnection := 2);
    var s9 := s5.(pool := map[0 := 1], nextTask := 3, nextConnection := 2);
    run := FirstListen();
    assert s5.pool == LISTENED.pool - {0};
    run := Continue(run, s5, CloseListener(0, false));
    run := Continue(run, s6, Listen(0));
    run := Continue(run, s7, RegistrationStarts(2));
    run := Continue(run, s8, Connected(2, true));
    assert s9.tasks == s8.tasks - {2} && s9.pending == s8.pending - {0};
    run := Continue(run, s9, Listened(2, true));
  }
}
