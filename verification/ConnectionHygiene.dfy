/**
 What happens to a pooled connection around one operation: session options are
 captured, changed and restored (`DatabaseOptionsExecutor`), a transaction is
 committed or rolled back (`EntityManager.transaction`), and the connection is
 released (`ExecuteBase`, `ConnectionBase`, `QueryRunner.release`). Any step may fail.
 */
module ConnectionHygiene {
  import opened Options

  /** `invalidate` is the mark that a connection must not be used again. */
  datatype Error = Error(invalidate: bool)

  datatype Statement =
    | Begin
    | Savepoint(depth: int)
    | Commit
    | Rollback
    | RollbackTo(depth: int)
    | ReadParameter(name: string)
    | Alter(parameter: string, literal: string)
    | SetLocal(text: string)
    | Work
    | Connect          // not SQL, but it can fail as well: acquiring, preparing and giving back a connection,
    | Prepare          // and telling subscribers about a transaction
    | Close
    | Announce

  /** The operation's own statement, carried out under some session values and local settings. */
  datatype Effect = Effect(values: map<string, string>, localSettings: seq<string>)

  /** A session as the server sees it: `open` is work not yet committed, `marks` how much there was at each savepoint. */
  datatype Condition = Condition(
    values: map<string, string>,
    localSettings: seq<string>,
    inTransaction: bool,
    open: seq<Effect>,
    durable: seq<Effect>,
    marks: map<int, nat>)

  /** How a connection leaves its user: back to the pool as it is, or dropped. */
  datatype Fate = Returned(condition: Condition) | Dropped

  /** What was tried, statement by statement, each with whether it succeeded. */
  type Tried = seq<(Statement, bool)>

  /** The text of a quoted literal: its quotes removed, doubled quotes read as one. */
  function Unquote(literal: string): string {
    if |literal| < 2 then "" else Undouble(literal[1..|literal| - 1])
  }

  function Undouble(s: string): string {
    if s == [] then []
    else if s[0] == '\'' && |s| > 1 && s[1] == '\'' then ['\''] + Undouble(s[2..])
    else [s[0]] + Undouble(s[1..])
  }

  function Double(s: string): string {
    if s == [] then [] else (if s[0] == '\'' then "''" else [s[0]]) + Double(s[1..])
  }

  /** A captured value, written as a literal, is read back unchanged. */
  lemma {:induction false} QuotingKeepsValue(value: string)
    ensures Undouble(Double(value)) == value
    ensures Unquote("'" + Double(value) + "'") == value
  {
    var d := Double(value);
    assert ("'" + d + "'")[1..|d| + 1] == d;
    if value != [] {
      QuotingKeepsValue(value[1..]);
      var rest := Double(value[1..]);
      if value[0] == '\'' {
        assert d == "''" + rest && d[2..] == rest;
      } else {
        assert d == [value[0]] + rest && d[1..] == rest;
      }
    }
  }

  /** What a statement does when the server carries it out; whether it opens a transaction depends on the server. */
  ghost predicate Takes(c: Condition, s: Statement, c': Condition) {
    match s
    case Work => c' == c.(open := c.open + [Effect(c.values, c.localSettings)], inTransaction := c'.inTransaction)
    case Commit => c' == Condition(c.values, [], false, [], c.durable + c.open, map[])
    case Rollback => c' == Condition(c.values, [], false, [], c.durable, map[])
    case Savepoint(depth) => c' == c.(marks := c.marks[depth := |c.open|], inTransaction := c'.inTransaction)
    case RollbackTo(depth) =>
      && c' == c.(open := c'.open, localSettings := c'.localSettings, inTransaction := c'.inTransaction)
      && (depth in c.marks && c.marks[depth] <= |c.open| ==> c'.open == c.open[..c.marks[depth]])
    case Alter(parameter, literal) => c' == c.(values := c.values[parameter := Unquote(literal)], inTransaction := c'.inTransaction)
    case SetLocal(text) => c' == c.(localSettings := c.localSettings + [text], inTransaction := c'.inTransaction)
    case _ => c' == c.(inTransaction := c'.inTransaction)
  }

  /** A statement that fails may have been carried out all the same. */
  ghost predicate Outcome(c: Condition, s: Statement, succeeds: bool, c': Condition) {
    Takes(c, s, c') || (!succeeds && c' == c)
  }

  /** A database session. */
  class Session {
    var condition: Condition
    ghost var tried: Tried
    ghost var fate: seq<Fate>

    constructor (values: map<string, string>)
      ensures condition == Condition(values, [], false, [], [], map[]) && tried == [] && fate == []
    {
      condition := Condition(values, [], false, [], [], map[]);
      tried, fate := [], [];
    }

    method Run(s: Statement) returns (r: Result<Option<string>, Error>)
      modifies `condition
      ensures Outcome(old(condition), s, r.Ok?, condition)
      ensures s.ReadParameter? && r.Ok? ==> r.value == if s.name in condition.values then Some(condition.values[s.name]) else None
    {
      var succeeds: bool := *;
      var takesEffect: bool := *;
      if succeeds || takesEffect {
        var inTransaction: bool := *;
        var c := condition;
        match s
        case Work => condition := c.(open := c.open + [Effect(c.values, c.localSettings)], inTransaction := inTransaction);
        case Commit => condition := Condition(c.values, [], false, [], c.durable + c.open, map[]);
        case Rollback => condition := Condition(c.values, [], false, [], c.durable, map[]);
        case Savepoint(depth) => condition := c.(marks := c.marks[depth := |c.open|], inTransaction := inTransaction);
        case RollbackTo(depth) =>
          var localSettings: seq<string> := *;
          var known := depth in c.marks && c.marks[depth] <= |c.open|;
          condition := c.(open := if known then c.open[..c.marks[depth]] else c.open,
                          localSettings := localSettings, inTransaction := inTransaction);
        case Alter(parameter, literal) =>
          condition := c.(values := c.values[parameter := Unquote(literal)], inTransaction := inTransaction);
        case SetLocal(text) => condition := c.(localSettings := c.localSettings + [text], inTransaction := inTransaction);
        case _ => condition := c.(inTransaction := inTransaction);
      }
      if succeeds {
        r := Ok(if s.ReadParameter? && s.name in condition.values then Some(condition.values[s.name]) else None);
      } else {
        var marked: bool := *;
        r := Err(Error(marked));
      }
    }

    method Close(drop: bool) returns (r: Result<(), Error>)
      modifies `fate, `tried
      ensures tried == old(tried) + [(Statement.Close, r.Ok?)]
      ensures r.Err? ==> Failed(old(tried), tried)
      ensures fate == old(fate) + [if drop then Dropped else Returned(condition)]
    {
      fate := fate + [if drop then Dropped else Returned(condition)];
      var succeeds: bool := *;
      tried := tried + [(Statement.Close, succeeds)];
      assert tried[|tried| - 1] == (Statement.Close, succeeds);
      r := if succeeds then Ok(()) else Err(Error(false));
    }
  }

  /** Something tried since `before` has failed. */
  ghost predicate Failed(before: Tried, tried: Tried) {
    before <= tried && exists i :: |before| <= i < |tried| && !tried[i].1
  }

  /** What has failed in between has failed altogether. */
  lemma FailedWithin(before: Tried, from: Tried, to: Tried, after: Tried)
    requires before <= from && Failed(from, to) && to <= after
    ensures Failed(before, after)
  {
    var i :| |from| <= i < |to| && !to[i].1;
    assert after[i] == to[i];
  }

  /** How far the start of a transaction came. */
  datatype Start =
    | Refused        // a subscriber failed before anything was sent
    | NotBegun       // the statement that begins it, or its savepoint, failed
    | Begun

  /** Nothing of a transaction is left on the session. */
  predicate Clean(c: Condition) {
    !c.inTransaction && c.localSettings == [] && c.open == []
  }

  /** The owner of at most one connection, taken from the pool. */
  class QueryRunner {
    const pooled: Session
    var connection: Session?
    var isReleased: bool
    var isTransactionActive: bool
    var transactionDepth: int

    constructor (pooled: Session)
      ensures this.pooled == pooled && connection == null
      ensures !isReleased && !isTransactionActive && transactionDepth == 0
    {
      this.pooled := pooled;
      connection, isReleased, isTransactionActive, transactionDepth := null, false, false, 0;
    }

    /** The connection has no fate as long as the runner holds it. */
    ghost predicate Holding()
      reads this, pooled
    {
      connection == pooled && pooled.fate == [] && !isReleased
    }

    /** Without an active transaction nothing of one is left on the session. */
    ghost predicate Settled()
      reads this, pooled
    {
      !isTransactionActive ==> Clean(pooled.condition)
    }

    method Connect() returns (r: Result<(), Error>)
      requires connection == null
      modifies `connection, pooled`tried
      ensures connection == if r.Ok? then pooled else null
      ensures pooled.tried == old(pooled.tried) + [(Statement.Connect, r.Ok?)]
      ensures r.Err? ==> Failed(old(pooled.tried), pooled.tried)
    {
      var succeeds: bool := *;
      pooled.tried := pooled.tried + [(Statement.Connect, succeeds)];
      assert pooled.tried[|pooled.tried| - 1] == (Statement.Connect, succeeds);
      if succeeds {
        connection := pooled;
        r := Ok(());
      } else {
        r := Err(Error(false));
      }
    }

    /** Idempotent: only the first call after connecting decides the fate of the connection. */
    method Release(error: Option<Error>) returns (r: Result<(), Error>)
      requires connection == null || connection == pooled
      modifies `isReleased, `connection, pooled`fate, pooled`tried
      ensures connection == null && isReleased
      ensures pooled.tried == old(pooled.tried) + if old(connection) == null then [] else [(Close, r.Ok?)]
      ensures r.Err? ==> Failed(old(pooled.tried), pooled.tried)
      ensures pooled.fate == old(pooled.fate)
                             + if old(connection) == null then []
                               else [if error.Some? then Dropped else Returned(pooled.condition)]
    {
      isReleased := true;
      if connection == null {
        return Ok(());
      }
      connection := null;
      r := pooled.Close(error.Some?);
    }

    method Query(s: Statement) returns (r: Result<Option<string>, Error>)
      requires Holding()
      modifies pooled`condition, pooled`tried
      ensures Outcome(old(pooled.condition), s, r.Ok?, pooled.condition)
      ensures pooled.tried == old(pooled.tried) + [(s, r.Ok?)]
      ensures r.Err? ==> Failed(old(pooled.tried), pooled.tried)
      ensures s.ReadParameter? && r.Ok? ==>
                r.value == if s.name in pooled.condition.values then Some(pooled.condition.values[s.name]) else None
    {
      var announced := Broadcast();
      if announced.Err? {
        r := Err(announced.error);
      } else {
        r := pooled.Run(s);
      }
      pooled.tried := pooled.tried + [(s, r.Ok?)];
      assert pooled.tried[|pooled.tried| - 1] == (s, r.Ok?);
    }

    /** Subscribers of runner events may fail. */
    method Broadcast() returns (r: Result<(), Error>) {
      var succeeds: bool := *;
      r := if succeeds then Ok(()) else Err(Error(false));
    }

    /** So may those that are told about transactions. */
    method Notify() returns (r: Result<(), Error>)
      modifies pooled`tried
      ensures pooled.tried == old(pooled.tried) + [(Announce, r.Ok?)]
      ensures r.Err? ==> Failed(old(pooled.tried), pooled.tried)
    {
      r := Broadcast();
      pooled.tried := pooled.tried + [(Announce, r.Ok?)];
      assert pooled.tried[|pooled.tried| - 1] == (Announce, r.Ok?);
    }

    /**
     Refused, it clears the active flag, of an open outer transaction too, and
     leaves the session as it was; otherwise the flag is set. Only a beginning
     that the server has confirmed counts as one level deeper.
     */
    method StartTransaction() returns (r: Result<(), Error>, ghost start: Start)
      requires Holding()
      modifies `isTransactionActive, `transactionDepth, pooled`condition, pooled`tried
      ensures isTransactionActive <==> !start.Refused?
      ensures start.Refused? ==> pooled.condition == old(pooled.condition) && pooled.tried == old(pooled.tried) + [(Announce, false)]
      ensures !start.Refused? ==>
                var first := if old(transactionDepth) == 0 then Begin else Savepoint(old(transactionDepth));
                && Outcome(old(pooled.condition), first, start.Begun?, pooled.condition)
                && pooled.tried == old(pooled.tried) + [(Announce, true), (first, start.Begun?)] + if start.Begun? then [(Announce, r.Ok?)] else []
      ensures transactionDepth == old(transactionDepth) + if start.Begun? then 1 else 0
      ensures r.Ok? ==> start.Begun?
      ensures r.Err? ==> Failed(old(pooled.tried), pooled.tried)
    {
      start := Refused;
      isTransactionActive := true;
      var b := Notify();
      if b.Err? {
        isTransactionActive := false;
        return b, start;
      }
      start := NotBegun;
      var q;
      if transactionDepth == 0 {
        q := Query(Begin);
      } else {
        q := Query(Savepoint(transactionDepth));
      }
      if q.Err? {
        return Err(q.error), start;
      }
      start := Begun;
      transactionDepth := transactionDepth + 1;
      r := Notify();
    }

    /** Only the outermost level is committed, and then what is open becomes durable; a deeper one just counts down. */
    method CommitTransaction() returns (r: Result<(), Error>)
      requires Holding() && Settled()
      modifies `isTransactionActive, `transactionDepth, pooled`condition, pooled`tried
      ensures Settled()
      ensures isTransactionActive ==> old(isTransactionActive)
      ensures r.Ok? ==> transactionDepth == old(transactionDepth) - 1
      ensures r.Ok? ==> (isTransactionActive <==> old(transactionDepth) != 1)
      ensures r.Ok? && old(transactionDepth) == 1 ==>
                && pooled.condition.durable == old(pooled.condition.durable) + old(pooled.condition.open)
                && pooled.condition.values == old(pooled.condition.values) && Clean(pooled.condition)
      ensures r.Ok? ==> pooled.tried == old(pooled.tried) + [(Announce, true)]
                                        + (if old(transactionDepth) == 1 then [(Commit, true)] else []) + [(Announce, true)]
      ensures old(pooled.tried) <= pooled.tried
      ensures r.Err? && old(isTransactionActive) ==> Failed(old(pooled.tried), pooled.tried)
      ensures var n := |old(pooled.tried)|;
              || pooled.condition == old(pooled.condition)
              || (&& old(transactionDepth) == 1
                  && n + 1 < |pooled.tried| && pooled.tried[n] == (Announce, true) && pooled.tried[n + 1].0 == Commit
                  && Outcome(old(pooled.condition), Commit, pooled.tried[n + 1].1, pooled.condition))
    {
      if !isTransactionActive {
        return Err(Error(false));
      }
      var b := Notify();
      if b.Err? {
        return b;
      }
      if transactionDepth == 1 {
        var q := Query(Commit);
        if q.Err? {
          return Err(q.error);
        }
        isTransactionActive := false;
      }
      transactionDepth := transactionDepth - 1;
      r := Notify();
    }

    /** Drops what is open, or at a deeper level what came after its savepoint; nothing becomes durable. */
    method RollbackTransaction() returns (r: Result<(), Error>)
      requires Holding() && Settled()
      modifies `isTransactionActive, `transactionDepth, pooled`condition, pooled`tried
      ensures Settled()
      ensures pooled.condition.values == old(pooled.condition.values) && pooled.condition.durable == old(pooled.condition.durable)
      ensures r.Ok? ==> transactionDepth == old(transactionDepth) - 1
      ensures r.Ok? ==> (isTransactionActive <==> old(transactionDepth) > 1)
      ensures r.Ok? && old(transactionDepth) <= 1 ==> pooled.condition.open == []
      ensures var mark, was := old(transactionDepth) - 1, old(pooled.condition);
              r.Ok? && mark > 0 && mark in was.marks && was.marks[mark] <= |was.open| ==>
                pooled.condition.open == was.open[..was.marks[mark]]
      ensures old(pooled.tried) <= pooled.tried
      ensures r.Err? && old(isTransactionActive) ==> Failed(old(pooled.tried), pooled.tried)
      ensures NoCommit(old(pooled.tried), pooled.tried)
    {
      if !isTransactionActive {
        return Err(Error(false));
      }
      var b := Notify();
      if b.Err? {
        return b;
      }
      if transactionDepth > 1 {
        var q := Query(RollbackTo(transactionDepth - 1));
        if q.Err? {
          return Err(q.error);
        }
      } else {
        var q := Query(Rollback);
        if q.Err? {
          return Err(q.error);
        }
        isTransactionActive := false;
      }
      transactionDepth := transactionDepth - 1;
      r := Notify();
    }
  }

  /** No COMMIT was tried since `before`. */
  ghost predicate NoCommit(before: Tried, tried: Tried) {
    before <= tried && forall i :: |before| <= i < |tried| ==> !tried[i].0.Commit?
  }

  lemma NoCommitTwice(before: Tried, between: Tried, tried: Tried)
    requires NoCommit(before, between) && NoCommit(between, tried)
    ensures NoCommit(before, tried)
  {}

  /** Every statement tried since `before` has succeeded, the operation's own among them, and none ends a transaction. */
  ghost predicate Complete(before: Tried, tried: Tried) {
    && before <= tried
    && (forall i :: |before| <= i < |tried| ==> tried[i].1 && !tried[i].0.Commit? && !tried[i].0.Rollback? && !tried[i].0.RollbackTo?)
    && exists i :: |before| <= i < |tried| && tried[i].0 == Work
  }

  // ---- session options around the operation

  /** A setup command after validation. */
  datatype Command = PostgresOption(text: string) | OracleOption(parameter: string, literal: string) | Unsafe

  predicate SameDialect(commands: seq<Command>) {
    || (forall i :: 0 <= i < |commands| ==> commands[i].PostgresOption?)
    || (forall i :: 0 <= i < |commands| ==> commands[i].OracleOption?)
  }

  /** The session values that the first n commands ask for. */
  function Asked(values: map<string, string>, commands: seq<Command>, n: nat): map<string, string>
    requires n <= |commands|
  {
    if n == 0 then values
    else
      var before, command := Asked(values, commands, n - 1), commands[n - 1];
      if command.OracleOption? then before[command.parameter := Unquote(command.literal)] else before
  }

  /** The local settings that the first n commands ask for. */
  function AskedLocally(commands: seq<Command>, n: nat): seq<string>
    requires n <= |commands|
  {
    if n == 0 then []
    else AskedLocally(commands, n - 1) + if commands[n - 1].PostgresOption? then [commands[n - 1].text] else []
  }

  /** The operation, carried out as its caller has asked: under exactly the options of the commands. */
  function Wanted(values: map<string, string>, localSettings: seq<string>, commands: seq<Command>): Effect {
    Effect(Asked(values, commands, |commands|), localSettings + AskedLocally(commands, |commands|))
  }

  /** The commands of a call cannot be carried out together, or one sets a parameter that the session does not have. */
  ghost predicate Refusable(values: map<string, string>, commands: seq<Command>) {
    || (commands != [] && !SameDialect(commands))
    || exists i :: 0 <= i < |commands| && commands[i].OracleOption? && commands[i].parameter !in values
  }

  /** Nothing but session values, local settings, and perhaps one more piece of open work. */
  ghost predicate Worked(c: Condition, c': Condition, effect: Effect) {
    && c'.durable == c.durable && c'.marks == c.marks
    && (c'.open == c.open || c'.open == c.open + [effect])
  }

  /** The operation itself: one statement of its own, which leaves session parameters alone. */
  method Operation(runner: QueryRunner) returns (r: Result<(), Error>)
    requires runner.Holding()
    modifies runner.pooled`condition, runner.pooled`tried
    ensures runner.pooled.condition.values == old(runner.pooled.condition.values)
    ensures runner.pooled.condition.localSettings == old(runner.pooled.condition.localSettings)
    ensures var c := old(runner.pooled.condition); Worked(c, runner.pooled.condition, Effect(c.values, c.localSettings))
    ensures r.Ok? ==> var c := old(runner.pooled.condition); runner.pooled.condition.open == c.open + [Effect(c.values, c.localSettings)]
    ensures runner.pooled.tried == old(runner.pooled.tried) + [(Work, r.Ok?)]
    ensures r.Err? ==> Failed(old(runner.pooled.tried), runner.pooled.tried)
  {
    var q := runner.Query(Work);
    r := if q.Ok? then Ok(()) else Err(q.error);
  }

  /**
   Setup commands around the operation. It succeeds only if every statement
   did, and then the operation ran once, under the options asked for. Unless
   the error is marked, every session value is what it was.
   */
  method ExecuteWithCommands(runner: QueryRunner, commands: seq<Command>) returns (r: Result<(), Error>)
    requires runner.Holding()
    modifies runner.pooled`condition, runner.pooled`tried
    ensures (r.Ok? || !r.error.invalidate) ==> runner.pooled.condition.values == old(runner.pooled.condition.values)
    ensures var c := old(runner.pooled.condition); Worked(c, runner.pooled.condition, Wanted(c.values, c.localSettings, commands))
    ensures r.Ok? ==> var c := old(runner.pooled.condition); runner.pooled.condition.open == c.open + [Wanted(c.values, c.localSettings, commands)]
    ensures r.Ok? ==> Complete(old(runner.pooled.tried), runner.pooled.tried)
    ensures r.Err? ==> Failed(old(runner.pooled.tried), runner.pooled.tried) || Refusable(old(runner.pooled.condition.values), commands)
    ensures old(runner.pooled.tried) <= runner.pooled.tried
    ensures NoCommit(old(runner.pooled.tried), runner.pooled.tried)
  {
    ghost var before, tried := runner.pooled.condition, runner.pooled.tried;
    if commands == [] {
      r := Operation(runner);
      if r.Ok? { EndsWithWork(tried, runner.pooled.tried); }
      assert before.localSettings + AskedLocally(commands, |commands|) == before.localSettings;
      return;
    }
    if !SameDialect(commands) {
      return Err(Error(false));
    }
    if commands[0].PostgresOption? {
      r := ExecuteValidatedCommands(runner, commands);
      if r.Ok? {
        ghost var ready := runner.pooled.tried;
        r := Operation(runner);
        if r.Ok? { EndsWithWork(tried, runner.pooled.tried); }
        else { FailedWithin(tried, ready, runner.pooled.tried, runner.pooled.tried); }
      }
      return;
    }
    r := ExecuteWithRestoredOracleSession(runner, commands);
  }

  lemma EndsWithWork(before: Tried, tried: Tried)
    requires before <= tried && |before| < |tried| && tried[|tried| - 1] == (Work, true)
    requires forall i :: |before| <= i < |tried| - 1 ==> tried[i].1 && tried[i].0.SetLocal?
    ensures Complete(before, tried)
  {
    assert tried[|tried| - 1].0 == Work;
  }

  /** Sets the transaction-local options one after the other. */
  method ExecuteValidatedCommands(runner: QueryRunner, commands: seq<Command>) returns (r: Result<(), Error>)
    requires runner.Holding() && forall i :: 0 <= i < |commands| ==> commands[i].PostgresOption?
    modifies runner.pooled`condition, runner.pooled`tried
    ensures var c, c' := old(runner.pooled.condition), runner.pooled.condition;
            c' == c.(localSettings := c'.localSettings, inTransaction := c'.inTransaction)
    ensures r.Ok? ==>
              var c := old(runner.pooled.condition);
              && runner.pooled.condition.localSettings == c.localSettings + AskedLocally(commands, |commands|)
              && Asked(c.values, commands, |commands|) == c.values
    ensures old(runner.pooled.tried) <= runner.pooled.tried
    ensures forall k :: |old(runner.pooled.tried)| <= k < |runner.pooled.tried| ==>
              runner.pooled.tried[k].0.SetLocal? && (r.Ok? ==> runner.pooled.tried[k].1)
    ensures r.Err? ==> Failed(old(runner.pooled.tried), runner.pooled.tried)
  {
    ghost var before, tried := runner.pooled.condition, runner.pooled.tried;
    PostgresAskLocally(before.values, commands, |commands|);
    var i := 0;
    while i < |commands|
      invariant i <= |commands|
      invariant runner.pooled.condition == before.(localSettings := before.localSettings + AskedLocally(commands, i),
                                                   inTransaction := runner.pooled.condition.inTransaction)
      invariant tried <= runner.pooled.tried
      invariant forall k :: |tried| <= k < |runner.pooled.tried| ==> runner.pooled.tried[k].1 && runner.pooled.tried[k].0.SetLocal?
    {
      var q := runner.Query(SetLocal(commands[i].text));
      if q.Err? {
        return Err(q.error);
      }
      i := i + 1;
    }
    r := Ok(());
  }

  lemma {:induction false} PostgresAskLocally(values: map<string, string>, commands: seq<Command>, n: nat)
    requires n <= |commands| && forall i :: 0 <= i < |commands| ==> commands[i].PostgresOption?
    ensures Asked(values, commands, n) == values
  {
    if n > 0 { PostgresAskLocally(values, commands, n - 1); }
  }

  lemma {:induction false} OracleAsksOfTheSession(commands: seq<Command>, n: nat)
    requires n <= |commands| && forall i :: 0 <= i < |commands| ==> commands[i].OracleOption?
    ensures AskedLocally(commands, n) == []
  {
    if n > 0 { OracleAsksOfTheSession(commands, n - 1); }
  }

  /** Captured parameters with their values, in the order of capture. */
  type Captured = seq<(string, string)>

  ghost predicate Names(captured: Captured, parameter: string) {
    exists i :: 0 <= i < |captured| && captured[i].0 == parameter
  }

  /** Each parameter once, with the value it has in `values`. */
  ghost predicate CapturedFrom(captured: Captured, values: map<string, string>) {
    && (forall i, j :: 0 <= i < j < |captured| ==> captured[i].0 != captured[j].0)
    && (forall i :: 0 <= i < |captured| ==> captured[i].0 in values && values[captured[i].0] == captured[i].1)
  }

  /** Values differ from the original ones in captured parameters only. */
  ghost predicate DiffersIn(values: map<string, string>, original: map<string, string>, captured: Captured) {
    && values.Keys == original.Keys
    && forall p :: p in original && !Names(captured, p) ==> values[p] == original[p]
  }

  lemma NothingCapturedDiffers(values: map<string, string>, original: map<string, string>)
    requires DiffersIn(values, original, [])
    ensures values == original
  {}

  lemma NamesExtends(captured: Captured, parameter: string, value: string, p: string)
    ensures Names(captured + [(parameter, value)], p) <==> Names(captured, p) || p == parameter
  {
    var longer := captured + [(parameter, value)];
    if Names(captured, p) {
      var i :| 0 <= i < |captured| && captured[i].0 == p;
      assert longer[i].0 == p;
    }
    if p == parameter { assert longer[|captured|].0 == p; }
  }

  lemma CapturedPrefix(captured: Captured, values: map<string, string>, i: nat)
    requires CapturedFrom(captured, values) && i <= |captured|
    ensures CapturedFrom(captured[..i], values)
  {}

  /** Restoring the last captured parameter leaves one fewer to restore. */
  lemma RestoredLast(values: map<string, string>, original: map<string, string>, captured: Captured)
    requires captured != [] && CapturedFrom(captured, original) && DiffersIn(values, original, captured)
    ensures var (parameter, value) := captured[|captured| - 1];
            DiffersIn(values[parameter := value], original, captured[..|captured| - 1])
  {
    var (parameter, value) := captured[|captured| - 1];
    var rest := captured[..|captured| - 1];
    assert captured == rest + [(parameter, value)];
    forall p | p in original && !Names(rest, p)
      ensures values[parameter := value][p] == original[p]
    {
      NamesExtends(rest, parameter, value, p);
    }
  }

  /** What the phases around the operation leave alone: all but values, the transaction flag and what was tried. */
  ghost predicate OnlyValues(c: Condition, c': Condition) {
    c' == c.(values := c'.values, inTransaction := c'.inTransaction)
  }

  /** Statements tried since `before` neither commit nor roll back. */
  ghost predicate Continues(before: Tried, tried: Tried) {
    && before <= tried
    && forall i :: |before| <= i < |tried| ==> tried[i].0.ReadParameter? || tried[i].0.Alter? || tried[i].0.Work?
  }

  ghost predicate Succeeded(before: Tried, tried: Tried) {
    forall i :: |before| <= i < |tried| ==> tried[i].1
  }

  method ExecuteWithRestoredOracleSession(runner: QueryRunner, commands: seq<Command>) returns (r: Result<(), Error>)
    requires runner.Holding()
    requires forall i :: 0 <= i < |commands| ==> commands[i].OracleOption?
    modifies runner.pooled`condition, runner.pooled`tried
    ensures (r.Ok? || !r.error.invalidate) ==> runner.pooled.condition.values == old(runner.pooled.condition.values)
    ensures var c := old(runner.pooled.condition); Worked(c, runner.pooled.condition, Wanted(c.values, c.localSettings, commands))
    ensures r.Ok? ==> var c := old(runner.pooled.condition); runner.pooled.condition.open == c.open + [Wanted(c.values, c.localSettings, commands)]
    ensures r.Ok? ==> Complete(old(runner.pooled.tried), runner.pooled.tried)
    ensures Continues(old(runner.pooled.tried), runner.pooled.tried)
    ensures r.Err? ==> Failed(old(runner.pooled.tried), runner.pooled.tried) || Refusable(old(runner.pooled.condition.values), commands)
  {
    hide CapturedFrom, DiffersIn, Names, Unquote;
    ghost var original := runner.pooled.condition.values;
    OracleAsksOfTheSession(commands, |commands|);
    assert runner.pooled.condition.localSettings + AskedLocally(commands, |commands|) == runner.pooled.condition.localSettings;
    var originalValues: Captured, captureError := CaptureValues(runner, commands);
    if captureError.Some? {
      return Err(captureError.value);
    }
    var primaryError := SetupAndOperate(runner, commands, originalValues, original);
    var restoreError := RestoreValues(runner, originalValues, original);
    if restoreError.Some? {
      return Err(Error(true));
    }
    r := if primaryError.Some? then Err(primaryError.value) else Ok(());
  }

  /** Reads every parameter that the commands set, before any of them is changed. */
  method CaptureValues(runner: QueryRunner, commands: seq<Command>) returns (captured: Captured, error: Option<Error>)
    requires runner.Holding()
    requires forall i :: 0 <= i < |commands| ==> commands[i].OracleOption?
    modifies runner.pooled`condition, runner.pooled`tried
    ensures OnlyValues(old(runner.pooled.condition), runner.pooled.condition)
    ensures runner.pooled.condition.values == old(runner.pooled.condition.values)
    ensures error.None? ==>
              && CapturedFrom(captured, runner.pooled.condition.values)
              && forall i :: 0 <= i < |commands| ==> Names(captured, commands[i].parameter)
    ensures Continues(old(runner.pooled.tried), runner.pooled.tried)
    ensures error.None? ==> Succeeded(old(runner.pooled.tried), runner.pooled.tried)
    ensures error.Some? ==> Failed(old(runner.pooled.tried), runner.pooled.tried) || Refusable(old(runner.pooled.condition.values), commands)
  {
    hide Unquote;
    captured, error := [], None;
    var seen: set<string> := {};
    var i := 0;
    while i < |commands|
      invariant i <= |commands| && OnlyValues(old(runner.pooled.condition), runner.pooled.condition)
      invariant runner.pooled.condition.values == old(runner.pooled.condition.values)
      invariant CapturedFrom(captured, runner.pooled.condition.values)
      invariant forall p :: p in seen <==> Names(captured, p)
      invariant forall k :: 0 <= k < i ==> Names(captured, commands[k].parameter)
      invariant Continues(old(runner.pooled.tried), runner.pooled.tried) && Succeeded(old(runner.pooled.tried), runner.pooled.tried)
    {
      var parameter := commands[i].parameter;
      if parameter !in seen {
        var rows := runner.Query(ReadParameter(parameter));
        if rows.Err? {
          return captured, Some(rows.error);
        }
        if rows.value.None? {
          return captured, Some(Error(false));
        }
        CapturedOneMore(captured, runner.pooled.condition.values, parameter, rows.value.value);
        captured := captured + [(parameter, rows.value.value)];
        seen := seen + {parameter};
      }
      i := i + 1;
    }
  }

  lemma CapturedOneMore(captured: Captured, values: map<string, string>, parameter: string, value: string)
    requires CapturedFrom(captured, values) && !Names(captured, parameter) && parameter in values && values[parameter] == value
    ensures CapturedFrom(captured + [(parameter, value)], values)
    ensures forall p :: Names(captured + [(parameter, value)], p) <==> Names(captured, p) || p == parameter
  {
    forall p ensures Names(captured + [(parameter, value)], p) <==> Names(captured, p) || p == parameter {
      NamesExtends(captured, parameter, value, p);
    }
    forall i | 0 <= i < |captured| ensures captured[i].0 != parameter {
      assert Names(captured, captured[i].0);
    }
  }

  /** Sets the parameters one after the other. */
  method SetParameters(runner: QueryRunner, commands: seq<Command>, captured: Captured, ghost original: map<string, string>)
    returns (error: Option<Error>)
    requires runner.Holding() && runner.pooled.condition.values == original && CapturedFrom(captured, original)
    requires forall i :: 0 <= i < |commands| ==> commands[i].OracleOption? && Names(captured, commands[i].parameter)
    modifies runner.pooled`condition, runner.pooled`tried
    ensures DiffersIn(runner.pooled.condition.values, original, captured)
    ensures OnlyValues(old(runner.pooled.condition), runner.pooled.condition)
    ensures error.None? ==> runner.pooled.condition.values == Asked(original, commands, |commands|)
    ensures Continues(old(runner.pooled.tried), runner.pooled.tried)
    ensures error.None? ==> Succeeded(old(runner.pooled.tried), runner.pooled.tried)
    ensures error.Some? ==> Failed(old(runner.pooled.tried), runner.pooled.tried)
  {
    hide Unquote, DiffersIn, CapturedFrom, Names, Takes;
    NothingDiffers(original, captured);
    ghost var c, before := runner.pooled.condition, runner.pooled.tried;
    var i := 0;
    while i < |commands|
      invariant i <= |commands| && DiffersIn(runner.pooled.condition.values, original, captured)
      invariant OnlyValues(c, runner.pooled.condition) && runner.pooled.condition.values == Asked(original, commands, i)
      invariant Continues(before, runner.pooled.tried) && Succeeded(before, runner.pooled.tried)
    {
      DiffersInCaptured(runner.pooled.condition.values, original, captured, commands[i].parameter, Unquote(commands[i].literal));
      AlteredOrNot(runner.pooled.condition, commands[i].parameter, commands[i].literal);
      var q := runner.Query(Alter(commands[i].parameter, commands[i].literal));
      if q.Err? {
        return Some(q.error);
      }
      i := i + 1;
    }
    error := None;
  }

  lemma NothingDiffers(values: map<string, string>, captured: Captured)
    ensures DiffersIn(values, values, captured)
  {}

  lemma DiffersInCaptured(values: map<string, string>, original: map<string, string>, captured: Captured, parameter: string, value: string)
    requires DiffersIn(values, original, captured) && CapturedFrom(captured, original) && Names(captured, parameter)
    ensures DiffersIn(values[parameter := value], original, captured)
  {
    CapturedIsKnown(captured, original, parameter);
  }

  lemma AlteredOrNot(c: Condition, parameter: string, literal: string)
    ensures forall c' :: Takes(c, Alter(parameter, literal), c') ==> OnlyValues(c, c') && c'.values == c.values[parameter := Unquote(literal)]
  {}

  /** Sets the parameters and then runs the operation under them. */
  method SetupAndOperate(runner: QueryRunner, commands: seq<Command>, captured: Captured, ghost original: map<string, string>)
    returns (error: Option<Error>)
    requires runner.Holding() && runner.pooled.condition.values == original && CapturedFrom(captured, original)
    requires forall i :: 0 <= i < |commands| ==> commands[i].OracleOption? && Names(captured, commands[i].parameter)
    modifies runner.pooled`condition, runner.pooled`tried
    ensures DiffersIn(runner.pooled.condition.values, original, captured)
    ensures var c, effect := old(runner.pooled.condition), Effect(Asked(original, commands, |commands|), old(runner.pooled.condition.localSettings));
            && Worked(c, runner.pooled.condition, effect)
            && runner.pooled.condition.localSettings == c.localSettings
            && (error.None? ==> runner.pooled.condition.open == c.open + [effect])
    ensures Continues(old(runner.pooled.tried), runner.pooled.tried)
    ensures error.None? ==>
              && Succeeded(old(runner.pooled.tried), runner.pooled.tried)
              && |old(runner.pooled.tried)| < |runner.pooled.tried| && runner.pooled.tried[|runner.pooled.tried| - 1].0 == Work
    ensures error.Some? ==> Failed(old(runner.pooled.tried), runner.pooled.tried)
  {
    hide DiffersIn, CapturedFrom, Asked;
    ghost var before := runner.pooled.tried;
    error := SetParameters(runner, commands, captured, original);
    if error.None? {
      ghost var ready := runner.pooled.tried;
      var done := Operation(runner);
      if done.Err? {
        FailedWithin(before, ready, runner.pooled.tried, runner.pooled.tried);
        error := Some(done.error);
      }
    }
  }

  lemma CapturedIsKnown(captured: Captured, values: map<string, string>, parameter: string)
    requires CapturedFrom(captured, values) && Names(captured, parameter)
    ensures parameter in values
  {}

  /** Writes the captured values back, last captured first. */
  method RestoreValues(runner: QueryRunner, captured: Captured, ghost original: map<string, string>) returns (error: Option<Error>)
    requires runner.Holding() && CapturedFrom(captured, original) && DiffersIn(runner.pooled.condition.values, original, captured)
    modifies runner.pooled`condition, runner.pooled`tried
    ensures OnlyValues(old(runner.pooled.condition), runner.pooled.condition)
    ensures error.None? ==> runner.pooled.condition.values == original
    ensures Continues(old(runner.pooled.tried), runner.pooled.tried)
    ensures error.None? ==> Succeeded(old(runner.pooled.tried), runner.pooled.tried)
    ensures error.Some? ==> Failed(old(runner.pooled.tried), runner.pooled.tried)
  {
    hide Undouble, Double, Unquote, DiffersIn, CapturedFrom;
    var i := |captured|;
    assert captured[..i] == captured;
    while i > 0
      invariant 0 <= i <= |captured|
      invariant DiffersIn(runner.pooled.condition.values, original, captured[..i])
      invariant OnlyValues(old(runner.pooled.condition), runner.pooled.condition)
      invariant Continues(old(runner.pooled.tried), runner.pooled.tried) && Succeeded(old(runner.pooled.tried), runner.pooled.tried)
    {
      var (parameter, value) := captured[i - 1];
      QuotingKeepsValue(value);
      CapturedPrefix(captured, original, i);
      RestoredLast(runner.pooled.condition.values, original, captured[..i]);
      assert captured[..i][..i - 1] == captured[..i - 1];
      var q := runner.Query(Alter(parameter, "'" + Double(value) + "'"));
      if q.Err? {
        return Some(q.error);
      }
      i := i - 1;
    }
    assert captured[..i] == [];
    NothingCapturedDiffers(runner.pooled.condition.values, original);
    error := None;
  }

  // ---- one transaction, one call

  /** The connection is still held and clean, or it was dropped. */
  ghost predicate CleanOrDropped(runner: QueryRunner, original: map<string, string>)
    reads runner, runner.pooled
  {
    || (runner.Holding() && runner.pooled.condition.values == original && Clean(runner.pooled.condition))
    || (runner.connection == null && runner.isReleased && runner.pooled.fate == [Dropped])
  }

  /**
   Only complete work becomes durable: nothing did, or the operation once and
   under the options asked for, by a COMMIT before which every statement had
   succeeded and the operation's own was among them.
   */
  ghost predicate OnlyCompleteWork(before: Tried, tried: Tried, durable: seq<Effect>, durable': seq<Effect>, wanted: Effect) {
    || durable' == durable
    || (&& durable' == durable + [wanted]
        && exists i :: |before| <= i < |tried| && tried[i].0 == Commit && Complete(before, tried[..i]))
  }

  lemma OnlyCompleteWorkStays(before: Tried, tried: Tried, later: Tried, durable: seq<Effect>, durable': seq<Effect>, wanted: Effect)
    requires tried <= later
    ensures OnlyCompleteWork(before, tried, durable, durable', wanted) ==> OnlyCompleteWork(before, later, durable, durable', wanted)
  {
    if OnlyCompleteWork(before, tried, durable, durable', wanted) && durable' != durable {
      var i :| |before| <= i < |tried| && tried[i].0 == Commit && Complete(before, tried[..i]);
      assert later[..i] == tried[..i] && later[i] == tried[i];
    }
  }

  lemma Beginning(c: Condition, depth: int)
    ensures forall c' :: Takes(c, Begin, c') ==> c' == c.(inTransaction := c'.inTransaction)
    ensures forall c' :: Takes(c, Savepoint(depth), c') ==> c' == c.(marks := c.marks[depth := |c.open|], inTransaction := c'.inTransaction)
  {}

  lemma Committing(c: Condition)
    ensures forall c' :: Takes(c, Commit, c') ==> c' == Condition(c.values, [], false, [], c.durable + c.open, map[])
  {}

  /** The way to the end of a transaction on which nothing fails, as far as it gets. */
  method StartRunCommit(runner: QueryRunner, commands: seq<Command>)
    returns (r: Result<(), Error>, ghost start: Start, commitAttempted: bool)
    requires runner.Holding() && runner.Settled()
    modifies runner`isTransactionActive, runner`transactionDepth, runner.pooled`condition, runner.pooled`tried
    ensures r.Ok? ==> commitAttempted
    ensures commitAttempted ==> start.Begun? && runner.Settled()
    ensures !commitAttempted ==> runner.transactionDepth == old(runner.transactionDepth) + if start.Begun? then 1 else 0
    ensures !commitAttempted ==> (runner.isTransactionActive <==> !start.Refused?)
    ensures start.Refused? ==> runner.pooled.condition == old(runner.pooled.condition)
    ensures r.Ok? ==> runner.transactionDepth == old(runner.transactionDepth)
    ensures r.Ok? ==> (runner.isTransactionActive <==> old(runner.transactionDepth) != 0)
    ensures commitAttempted || !r.error.invalidate ==> runner.pooled.condition.values == old(runner.pooled.condition.values)
    ensures var c, c' := old(runner.pooled.condition), runner.pooled.condition;
            var wanted := Wanted(c.values, c.localSettings, commands);
            && (!commitAttempted || old(runner.transactionDepth) != 0 ==>
                  c'.durable == c.durable && (c'.open == c.open || c'.open == c.open + [wanted]))
            && (start.Begun? && old(runner.transactionDepth) != 0 ==>
                  old(runner.transactionDepth) in c'.marks && c'.marks[old(runner.transactionDepth)] == |c.open|)
            && (r.Ok? && old(runner.transactionDepth) != 0 ==> c'.open == c.open + [wanted])
            && (r.Ok? && old(runner.transactionDepth) == 0 ==> c'.durable == c.durable + c.open + [wanted] && Clean(c'))
            && (c.open == [] ==> OnlyCompleteWork(old(runner.pooled.tried), runner.pooled.tried, c.durable, c'.durable, wanted))
    ensures old(runner.pooled.tried) <= runner.pooled.tried
    ensures !commitAttempted ==> NoCommit(old(runner.pooled.tried), runner.pooled.tried)
    ensures r.Err? ==> Failed(old(runner.pooled.tried), runner.pooled.tried) || Refusable(old(runner.pooled.condition.values), commands)
  {
    hide Wanted, Complete, Refusable, Failed, NoCommit, Takes;
    Beginning(runner.pooled.condition, runner.transactionDepth);
    Committing(runner.pooled.condition);
    commitAttempted := false;
    ghost var tried := runner.pooled.tried;
    r, start := runner.StartTransaction();
    StartsWithoutCommit(tried, runner.pooled.tried);
    if r.Ok? {
      ghost var begun := runner.pooled.tried;
      r := ExecuteWithCommands(runner, commands);
      NoCommitTwice(tried, begun, runner.pooled.tried);
      if r.Err? && Failed(begun, runner.pooled.tried) { FailedWithin(tried, begun, runner.pooled.tried, runner.pooled.tried); }
      if r.Ok? {
        ghost var done := runner.pooled.tried;
        Committing(runner.pooled.condition);
        CompleteFromStart(tried, begun, done);
        commitAttempted := true;
        r := runner.CommitTransaction();
        if r.Err? { FailedWithin(tried, done, runner.pooled.tried, runner.pooled.tried); }
        if |runner.pooled.tried| > |done| && runner.pooled.tried[|done|] == (Announce, true) {
          assert runner.pooled.tried[..|done| + 1] == done + [(Announce, true)];
          CompleteThenAnnounced(tried, done);
        }
      }
    }
  }

  /**
   One transaction on a runner that its caller owns, at any depth. Either the
   connection is dropped or it is still held with every session value as it
   was. A held runner is back at the depth it came from, unless the beginning
   statement failed: rolling that back takes one level too many.

   An outermost one that succeeds has run the operation once, as asked, and
   its work is durable. A deeper one leaves its work to the outer transaction,
   or if it fails and its savepoint was set takes back its own work only.
   */
  method Transaction(runner: QueryRunner, commands: seq<Command>) returns (r: Result<(), Error>, ghost start: Start)
    requires runner.Holding() && runner.Settled()
    modifies runner, runner.pooled
    ensures runner.Holding() || (runner.connection == null && runner.isReleased && runner.pooled.fate == [Dropped])
    ensures old(runner.pooled.tried) <= runner.pooled.tried
    ensures r.Err? && !NoCommit(old(runner.pooled.tried), runner.pooled.tried) ==> !runner.Holding()
    ensures r.Ok? ==> runner.Holding() && start.Begun?
    ensures runner.Holding() ==> runner.pooled.condition.values == old(runner.pooled.condition.values)
    ensures runner.Holding() ==> runner.transactionDepth == old(runner.transactionDepth) - if start.NotBegun? then 1 else 0
    ensures runner.Holding() ==>
              (runner.isTransactionActive <==> !start.Refused? && (runner.transactionDepth >= 1 || (r.Ok? && runner.transactionDepth < 0)))
    ensures runner.Holding() && (!start.Refused? || !old(runner.isTransactionActive)) ==> runner.Settled()
    ensures !old(runner.isTransactionActive) && old(runner.transactionDepth) == 0 ==>
              var c, wanted := old(runner.pooled.condition), Wanted(old(runner.pooled.condition.values), old(runner.pooled.condition.localSettings), commands);
              && CleanOrDropped(runner, c.values)
              && (r.Ok? ==> runner.pooled.condition.durable == c.durable + [wanted])
              && OnlyCompleteWork(old(runner.pooled.tried), runner.pooled.tried, c.durable, runner.pooled.condition.durable, wanted)
    ensures r.Err? ==> Failed(old(runner.pooled.tried), runner.pooled.tried) || Refusable(old(runner.pooled.condition.values), commands)
    ensures old(runner.transactionDepth) >= 1 ==>
              var c := old(runner.pooled.condition);
              && runner.pooled.condition.durable == c.durable
              && (runner.Holding() && start.Begun? ==>
                    runner.pooled.condition.open == if r.Ok? then c.open + [Wanted(c.values, c.localSettings, commands)] else c.open)
  {
    hide Wanted, Complete, OnlyCompleteWork, Refusable, Failed, NoCommit;
    ghost var tried, c := runner.pooled.tried, runner.pooled.condition;
    ghost var wanted := Wanted(c.values, c.localSettings, commands);
    var releaseError: Option<Error> := None;
    var commitAttempted;
    r, start, commitAttempted := StartRunCommit(runner, commands);
    ghost var middle := runner.pooled.tried;
    if r.Err? {
      if commitAttempted || r.error.invalidate {
        releaseError := Some(r.error);
      }
      if runner.isTransactionActive {
        var rolledBack := runner.RollbackTransaction();
        if NoCommit(tried, middle) { NoCommitTwice(tried, middle, runner.pooled.tried); }
        if Failed(tried, middle) { FailedWithin(tried, tried, middle, runner.pooled.tried); }
        OnlyCompleteWorkStays(tried, middle, runner.pooled.tried, c.durable, runner.pooled.condition.durable, wanted);
        if rolledBack.Err? {
          releaseError := Some(rolledBack.error);
        }
      }
    }
    if releaseError.Some? {
      ghost var ended := runner.pooled.tried;
      var released := runner.Release(releaseError);
      OnlyCompleteWorkStays(tried, ended, runner.pooled.tried, c.durable, runner.pooled.condition.durable, wanted);
      if Failed(tried, ended) { FailedWithin(tried, tried, ended, runner.pooled.tried); }
      if released.Err? { FailedWithin(tried, ended, runner.pooled.tried, runner.pooled.tried); }
      if released.Err? {
        r := Err(released.error);
      }
    }
  }

  lemma StartsWithoutCommit(before: Tried, tried: Tried)
    requires before <= tried && |tried| <= |before| + 3
    requires forall i :: |before| <= i < |tried| ==> tried[i].0.Announce? || tried[i].0.Begin? || tried[i].0.Savepoint?
    ensures NoCommit(before, tried)
  {}

  lemma CompleteFromStart(before: Tried, begun: Tried, tried: Tried)
    requires |begun| == |before| + 3 && Complete(begun, tried)
    requires var first := begun[|before| + 1].0;
             (first.Begin? || first.Savepoint?) && begun == before + [(Announce, true), (first, true)] + [(Announce, true)]
    ensures Complete(before, tried)
  {
    assert forall i :: |before| <= i < |begun| ==> tried[i] == begun[i];
  }

  lemma CompleteThenAnnounced(before: Tried, tried: Tried)
    requires Complete(before, tried)
    ensures Complete(before, tried + [(Announce, true)])
  {
    var i :| |before| <= i < |tried| && tried[i].0 == Work;
    assert (tried + [(Announce, true)])[i].0 == Work;
  }

  /** Acquiring: a connection that was handed out but cannot be used is dropped. */
  method GetEntityManager(session: Session) returns (runner: QueryRunner, r: Result<(), Error>)
    requires session.fate == []
    modifies session`fate, session`tried
    ensures old(session.tried) <= session.tried && NoCommit(old(session.tried), session.tried)
    ensures r.Err? ==> Failed(old(session.tried), session.tried)
    ensures r.Ok? ==> session.tried == old(session.tried) + [(Connect, true), (Prepare, true)]
    ensures fresh(runner) && runner.pooled == session
    ensures r.Ok? ==> runner.Holding() && !runner.isTransactionActive && runner.transactionDepth == 0
    ensures r.Err? ==> runner.connection == null && (session.fate == [] || session.fate == [Dropped])
  {
    ghost var before := session.tried;
    runner := new QueryRunner(session);
    r := runner.Connect();
    if r.Ok? {
      var isInitialized: bool := *;
      session.tried := session.tried + [(Prepare, isInitialized)];
      assert session.tried[|session.tried| - 1] == (Prepare, isInitialized);
      if !isInitialized {
        r := Err(Error(false));
      }
    }
    if r.Err? && !runner.isReleased {
      ghost var failed := session.tried;
      assert !failed[|failed| - 1].1;
      var cleaned := runner.Release(Some(r.error));
      FailedWithin(before, before, failed, session.tried);
    }
  }

  /**
   One call through the pool: acquire, run in a transaction, release. Whatever
   fails, a connection that was acquired goes back at most once, and then with
   every session value as it was, no local settings and no open work;
   otherwise it is dropped. A call that succeeds returns its connection, and
   its operation is durable, once and as asked; one that fails has made nothing
   durable, or its complete work.
   */
  method Execute(session: Session, commands: seq<Command>) returns (acquired: bool, r: Result<(), Error>)
    requires session.fate == [] && Clean(session.condition)
    modifies session
    ensures acquired ==> session.fate == [Dropped] || session.fate == [Returned(session.condition)]
    ensures session.fate == [Returned(session.condition)] ==> Clean(session.condition) && session.condition.values == old(session.condition.values)
    ensures !acquired ==> r.Err? && session.condition == old(session.condition) && (session.fate == [] || session.fate == [Dropped])
    ensures r.Ok? ==> acquired && session.fate == [Returned(session.condition)]
    ensures r.Err? ==> Failed(old(session.tried), session.tried) || Refusable(old(session.condition.values), commands)
    ensures var c, wanted := old(session.condition), Wanted(old(session.condition.values), old(session.condition.localSettings), commands);
            && (r.Ok? ==> session.condition.durable == c.durable + [wanted])
            && OnlyCompleteWork(old(session.tried), session.tried, c.durable, session.condition.durable, wanted)
  {
    hide Wanted, OnlyCompleteWork;
    ghost var before, c, wanted := session.tried, session.condition, Wanted(session.condition.values, session.condition.localSettings, commands);
    var runner, got := GetEntityManager(session);
    acquired := got.Ok?;
    if got.Err? {
      NothingIsComplete(before, session.tried, c.durable, wanted);
      return acquired, Err(got.error);
    }
    ghost var start;
    ghost var acquiredAt := session.tried;
    r, start := Transaction(runner, commands);
    ghost var ended := session.tried;
    OnlyCompleteWorkBefore(before, acquiredAt, ended, c.durable, session.condition.durable, wanted);
    var released := runner.Release(None);
    OnlyCompleteWorkStays(before, ended, session.tried, c.durable, session.condition.durable, wanted);
    if Failed(acquiredAt, ended) { FailedWithin(before, acquiredAt, ended, session.tried); }
    if released.Err? { FailedWithin(before, ended, session.tried, session.tried); }
    if released.Err? {
      r := Err(released.error);
    }
  }

  lemma NothingIsComplete(before: Tried, tried: Tried, durable: seq<Effect>, wanted: Effect)
    ensures OnlyCompleteWork(before, tried, durable, durable, wanted)
  {}

  lemma OnlyCompleteWorkBefore(before: Tried, acquired: Tried, tried: Tried, durable: seq<Effect>, durable': seq<Effect>, wanted: Effect)
    requires acquired == before + [(Connect, true), (Prepare, true)] && OnlyCompleteWork(acquired, tried, durable, durable', wanted)
    ensures OnlyCompleteWork(before, tried, durable, durable', wanted)
  {
    if durable' != durable {
      var i :| |acquired| <= i < |tried| && tried[i].0 == Commit && Complete(acquired, tried[..i]);
      assert forall k :: |before| <= k < |acquired| ==> tried[..i][k] == acquired[k];
      assert Complete(before, tried[..i]);
    }
  }
}
