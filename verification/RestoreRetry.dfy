/**
 The retry loop of one restore workflow. `environment` says, attempt by
 attempt, what the workflow reads and gets; when it is used up, the next call
 never answers.
 */
module RestoreRetry {

  /** One turn of the loop: what the cancellation checks read and whether the attempt throws. */
  datatype Turn = Turn(cancelledBefore: bool, succeeds: bool, cancelledAfter: bool, cancelledAfterDelay: bool)

  datatype Event =
    | Checked(cancelled: bool)
    | Attempted(succeeds: bool)
    | Delayed(long: bool)

  const FIRST_RETRY := 1

  /** What the loop does from retry counter `retry` on. */
  function Workflow(maxRetries: int, retry: int, environment: seq<Turn>): seq<Event>
    decreases |environment|
  {
    if retry > maxRetries || environment == [] then []
    else
      var turn := environment[0];
      if turn.cancelledBefore then [Checked(true)]
      else
        var attempt := [Checked(false), Attempted(turn.succeeds), Checked(turn.cancelledAfter)];
        if turn.succeeds || turn.cancelledAfter then attempt
        else
          var long := retry >= maxRetries;
          var waited := attempt + [Delayed(long), Checked(turn.cancelledAfterDelay)];
          if turn.cancelledAfterDelay then waited
          else waited + Workflow(maxRetries, if long then FIRST_RETRY else retry + 1, environment[1..])
  }

  method RestoreWithRetry(maxRetries: int, currentRetry: int, environment: seq<Turn>) returns (trace: seq<Event>)
    ensures trace == Workflow(maxRetries, currentRetry, environment)
  {
    trace := [];
    var retry := currentRetry;
    var turn := 0;
    while retry <= maxRetries && turn < |environment|
      invariant 0 <= turn <= |environment|
      invariant trace + Workflow(maxRetries, retry, environment[turn..]) == Workflow(maxRetries, currentRetry, environment)
      decreases |environment| - turn
    {
      var now := environment[turn];
      assert environment[turn..][0] == now && environment[turn..][1..] == environment[turn + 1..];
      if now.cancelledBefore { return trace + [Checked(true)]; }
      var attempt := [Checked(false), Attempted(now.succeeds), Checked(now.cancelledAfter)];
      if now.cancelledAfter || now.succeeds { return trace + attempt; }
      var long := retry >= maxRetries;
      var waited := attempt + [Delayed(long), Checked(now.cancelledAfterDelay)];
      if now.cancelledAfterDelay { return trace + waited; }
      retry := if long then FIRST_RETRY else retry + 1;
      turn := turn + 1;
      assert trace + (waited + Workflow(maxRetries, retry, environment[turn..])) == (trace + waited) + Workflow(maxRetries, retry, environment[turn..]);
      trace := trace + waited;
    }
  }

  function Attempts(trace: seq<Event>): nat {
    if trace == [] then 0 else (if trace[0].Attempted? then 1 else 0) + Attempts(trace[1..])
  }

  /** `made` attempts have been made since the last long delay. */
  ghost predicate Paced(trace: seq<Event>, maxRetries: int, made: int) {
    if trace == [] then true
    else match trace[0]
      case Checked(_) => Paced(trace[1..], maxRetries, made)
      case Attempted(_) => made < maxRetries && Paced(trace[1..], maxRetries, made + 1)
      case Delayed(true) => made == maxRetries && Paced(trace[1..], maxRetries, 0)
      case Delayed(false) => made < maxRetries && Paced(trace[1..], maxRetries, made)
  }

  lemma {:induction false} WorkflowIsPaced(maxRetries: int, retry: int, environment: seq<Turn>)
    requires maxRetries >= 1
    ensures Paced(Workflow(maxRetries, retry, environment), maxRetries, retry - 1)
    decreases |environment|
  {
    hide Paced;
    PacedEnds(maxRetries, retry - 1);
    if retry <= maxRetries && environment != [] && !environment[0].cancelledBefore {
      var turn := environment[0];
      var long := retry >= maxRetries;
      var next := if long then FIRST_RETRY else retry + 1;
      var rest := Workflow(maxRetries, next, environment[1..]);
      WorkflowIsPaced(maxRetries, next, environment[1..]);
      var last := if turn.cancelledAfterDelay then [] else rest;
      var delay := [Delayed(long), Checked(turn.cancelledAfterDelay)] + last;
      var after := if turn.succeeds || turn.cancelledAfter then [] else delay;
      PacedEnds(maxRetries, retry);
      PacedEnds(maxRetries, next - 1);
      DelayIsPaced(long, turn.cancelledAfterDelay, last, maxRetries, retry);
      AttemptIsPaced(turn, after, maxRetries, retry);
      WorkflowTurn(maxRetries, retry, environment, rest);
    }
  }

  /** The first turn of a workflow that is not cancelled before it. */
  lemma WorkflowTurn(maxRetries: int, retry: int, environment: seq<Turn>, rest: seq<Event>)
    requires retry <= maxRetries && environment != [] && !environment[0].cancelledBefore
    requires rest == Workflow(maxRetries, if retry >= maxRetries then FIRST_RETRY else retry + 1, environment[1..])
    ensures var turn, long := environment[0], retry >= maxRetries;
            Workflow(maxRetries, retry, environment) == [Checked(false), Attempted(turn.succeeds), Checked(turn.cancelledAfter)] +
              (if turn.succeeds || turn.cancelledAfter then []
               else [Delayed(long), Checked(turn.cancelledAfterDelay)] + if turn.cancelledAfterDelay then [] else rest)
  {}

  lemma AttemptIsPaced(turn: Turn, rest: seq<Event>, maxRetries: int, retry: int)
    requires retry <= maxRetries
    ensures Paced([Checked(false), Attempted(turn.succeeds), Checked(turn.cancelledAfter)] + rest, maxRetries, retry - 1) <==>
            Paced(rest, maxRetries, retry)
  {
    hide Paced;
    PacedCons(Checked(turn.cancelledAfter), rest, maxRetries, retry);
    PacedCons(Attempted(turn.succeeds), [Checked(turn.cancelledAfter)] + rest, maxRetries, retry - 1);
    PacedCons(Checked(false), [Attempted(turn.succeeds)] + ([Checked(turn.cancelledAfter)] + rest), maxRetries, retry - 1);
    assert [Checked(false), Attempted(turn.succeeds), Checked(turn.cancelledAfter)] + rest
        == [Checked(false)] + ([Attempted(turn.succeeds)] + ([Checked(turn.cancelledAfter)] + rest));
  }

  lemma DelayIsPaced(long: bool, cancelled: bool, rest: seq<Event>, maxRetries: int, retry: int)
    requires retry <= maxRetries && (long <==> retry == maxRetries)
    ensures Paced([Delayed(long), Checked(cancelled)] + rest, maxRetries, retry) <==> Paced(rest, maxRetries, if long then 0 else retry)
  {
    hide Paced;
    PacedCons(Checked(cancelled), rest, maxRetries, if long then 0 else retry);
    PacedCons(Delayed(long), [Checked(cancelled)] + rest, maxRetries, retry);
    assert [Delayed(long), Checked(cancelled)] + rest == [Delayed(long)] + ([Checked(cancelled)] + rest);
  }

  lemma PacedEnds(maxRetries: int, made: int)
    ensures Paced([], maxRetries, made) && Paced([Checked(true)], maxRetries, made)
  {}

  lemma PacedCons(event: Event, rest: seq<Event>, maxRetries: int, made: int)
    ensures Paced([event] + rest, maxRetries, made) ==
            match event
            case Checked(_) => Paced(rest, maxRetries, made)
            case Attempted(_) => made < maxRetries && Paced(rest, maxRetries, made + 1)
            case Delayed(true) => made == maxRetries && Paced(rest, maxRetries, 0)
            case Delayed(false) => made < maxRetries && Paced(rest, maxRetries, made)
  {
    assert ([event] + rest)[1..] == rest;
  }

  lemma {:induction false} PacedFrom(trace: seq<Event>, maxRetries: int, made: int, i: nat)
    requires Paced(trace, maxRetries, made) && i < |trace| && trace[i] == Delayed(true)
    ensures Paced(trace[i + 1..], maxRetries, 0)
    decreases i
  {
    if i > 0 {
      var made' := match trace[0] case Checked(_) => made case Attempted(_) => made + 1 case Delayed(long) => if long then 0 else made;
      PacedFrom(trace[1..], maxRetries, made', i - 1);
      assert trace[1..][i..] == trace[i + 1..];
    }
  }

  lemma {:induction false} PacedUntil(trace: seq<Event>, maxRetries: int, made: int, j: nat)
    requires Paced(trace, maxRetries, made) && j < |trace| && trace[j] == Delayed(true)
    requires forall k :: 0 <= k < j ==> trace[k] != Delayed(true)
    ensures made + Attempts(trace[..j]) == maxRetries
    decreases j
  {
    if j > 0 {
      var made' := match trace[0] case Checked(_) => made case Attempted(_) => made + 1 case Delayed(_) => made;
      PacedUntil(trace[1..], maxRetries, made', j - 1);
      assert trace[..j][1..] == trace[1..][..j - 1];
    }
  }

  /** Between two consecutive long delays a workflow makes exactly `maxRetries` attempts. */
  lemma ExactlyMaxRetriesBetweenLongDelays(maxRetries: int, retry: int, environment: seq<Turn>, i: nat, j: nat)
    requires maxRetries >= 1
    requires i < j < |Workflow(maxRetries, retry, environment)|
    requires var trace := Workflow(maxRetries, retry, environment);
             trace[i] == Delayed(true) && trace[j] == Delayed(true) && forall k :: i < k < j ==> trace[k] != Delayed(true)
    ensures Attempts(Workflow(maxRetries, retry, environment)[i + 1..j]) == maxRetries
  {
    var trace := Workflow(maxRetries, retry, environment);
    WorkflowIsPaced(maxRetries, retry, environment);
    PacedFrom(trace, maxRetries, retry - 1, i);
    var rest := trace[i + 1..];
    PacedUntil(rest, maxRetries, 0, j - i - 1);
    assert rest[..j - i - 1] == trace[i + 1..j];
  }

  /** The first long delay comes after the attempts the starting counter leaves. */
  lemma FirstLongDelay(maxRetries: int, retry: int, environment: seq<Turn>, j: nat)
    requires maxRetries >= 1 && j < |Workflow(maxRetries, retry, environment)|
    requires var trace := Workflow(maxRetries, retry, environment);
             trace[j] == Delayed(true) && forall k :: 0 <= k < j ==> trace[k] != Delayed(true)
    ensures Attempts(Workflow(maxRetries, retry, environment)[..j]) == maxRetries - retry + 1
  {
    WorkflowIsPaced(maxRetries, retry, environment);
    PacedUntil(Workflow(maxRetries, retry, environment), maxRetries, retry - 1, j);
  }

  /** A check that reads "cancelled" is the last thing a workflow does. */
  lemma {:induction false} NothingAfterCancellation(maxRetries: int, retry: int, environment: seq<Turn>, i: nat)
    requires i < |Workflow(maxRetries, retry, environment)| && Workflow(maxRetries, retry, environment)[i] == Checked(true)
    ensures i == |Workflow(maxRetries, retry, environment)| - 1
    decreases |environment|
  {
    if i >= 5 {
      NothingAfterCancellation(maxRetries, if retry >= maxRetries then FIRST_RETRY else retry + 1, environment[1..], i - 5);
    }
  }

  /** Every attempt is made right after a check that read "not cancelled". */
  lemma {:induction false} AttemptsFollowAClearCheck(maxRetries: int, retry: int, environment: seq<Turn>, i: nat)
    requires i < |Workflow(maxRetries, retry, environment)| && Workflow(maxRetries, retry, environment)[i].Attempted?
    ensures i > 0 && Workflow(maxRetries, retry, environment)[i - 1] == Checked(false)
    decreases |environment|
  {
    if i >= 5 {
      AttemptsFollowAClearCheck(maxRetries, if retry >= maxRetries then FIRST_RETRY else retry + 1, environment[1..], i - 5);
    }
  }

  /** The turn leads to another attempt. */
  predicate GoesOn(turn: Turn) {
    !turn.cancelledBefore && !turn.succeeds && !turn.cancelledAfter && !turn.cancelledAfterDelay
  }

  /**
   A workflow does not give up: it makes an attempt for every turn up to the
   one in which it succeeds or finds itself cancelled, and none after that.
   */
  lemma {:induction false} AttemptsUntilDone(maxRetries: int, retry: int, environment: seq<Turn>, n: nat)
    requires FIRST_RETRY <= retry <= maxRetries && n <= |environment|
    requires forall i :: 0 <= i < n ==> GoesOn(environment[i])
    requires n < |environment| ==> !GoesOn(environment[n])
    ensures Attempts(Workflow(maxRetries, retry, environment)) == n + if n < |environment| && !environment[n].cancelledBefore then 1 else 0
    decreases |environment|
  {
    if n > 0 {
      var long := retry >= maxRetries;
      var rest := Workflow(maxRetries, if long then FIRST_RETRY else retry + 1, environment[1..]);
      AttemptsUntilDone(maxRetries, if long then FIRST_RETRY else retry + 1, environment[1..], n - 1);
      OneTurn(false, long, rest);
      assert Workflow(maxRetries, retry, environment) == [Checked(false), Attempted(false), Checked(false)] + [Delayed(long), Checked(false)] + rest;
    } else if environment != [] && !environment[0].cancelledBefore {
      LastTurn(environment[0], retry >= maxRetries);
    }
  }

  lemma AttemptsCons(event: Event, rest: seq<Event>)
    ensures Attempts([event] + rest) == (if event.Attempted? then 1 else 0) + Attempts(rest)
  {
    assert ([event] + rest)[1..] == rest;
  }

  lemma ThreeEvents(a: bool, b: bool, rest: seq<Event>)
    ensures Attempts([Checked(false), Attempted(a), Checked(b)] + rest) == 1 + Attempts(rest)
  {
    AttemptsCons(Checked(b), rest);
    AttemptsCons(Attempted(a), [Checked(b)] + rest);
    AttemptsCons(Checked(false), [Attempted(a)] + ([Checked(b)] + rest));
    assert [Checked(false), Attempted(a), Checked(b)] + rest == [Checked(false)] + ([Attempted(a)] + ([Checked(b)] + rest));
  }

  lemma TwoEvents(long: bool, b: bool, rest: seq<Event>)
    ensures Attempts([Delayed(long), Checked(b)] + rest) == Attempts(rest)
  {
    AttemptsCons(Checked(b), rest);
    AttemptsCons(Delayed(long), [Checked(b)] + rest);
    assert [Delayed(long), Checked(b)] + rest == [Delayed(long)] + ([Checked(b)] + rest);
  }

  lemma OneTurn(succeeds: bool, long: bool, rest: seq<Event>)
    ensures Attempts([Checked(false), Attempted(succeeds), Checked(false)] + [Delayed(long), Checked(false)] + rest) == 1 + Attempts(rest)
  {
    TwoEvents(long, false, rest);
    ThreeEvents(succeeds, false, [Delayed(long), Checked(false)] + rest);
    assert [Checked(false), Attempted(succeeds), Checked(false)] + [Delayed(long), Checked(false)] + rest
        == [Checked(false), Attempted(succeeds), Checked(false)] + ([Delayed(long), Checked(false)] + rest);
  }

  lemma LastTurn(turn: Turn, long: bool)
    ensures Attempts([Checked(false), Attempted(turn.succeeds), Checked(turn.cancelledAfter)]) == 1
    ensures Attempts([Checked(false), Attempted(turn.succeeds), Checked(turn.cancelledAfter)] + [Delayed(long), Checked(turn.cancelledAfterDelay)]) == 1
  {
    var t, d := [Checked(false), Attempted(turn.succeeds), Checked(turn.cancelledAfter)], [Delayed(long), Checked(turn.cancelledAfterDelay)];
    ThreeEvents(turn.succeeds, turn.cancelledAfter, []);
    TwoEvents(long, turn.cancelledAfterDelay, []);
    ThreeEvents(turn.succeeds, turn.cancelledAfter, d);
    assert t + [] == t && d + [] == d;
  }
}
