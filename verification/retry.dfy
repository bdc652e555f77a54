/** The connection retry policy of the ingestion script
    (`create_db_connection`): up to `MaxRetries` attempts, a pause of
    `RetryDelay` seconds after every failed attempt except the last, the
    engine of the first successful attempt, and the last attempt's exception
    re-raised when every attempt fails. */
module Retry {
  const MaxRetries: nat := 30
  const RetryDelay: nat := 2

  /** What connecting and running `SELECT 1` does on one attempt: it
      connects, or it raises an `Exception`, which the loop's handler
      catches. A `BaseException` that is not an `Exception` escapes the
      handler and is not an `Attempt`. */
  datatype Attempt<G, E> = Connected(engine: G) | Failed(error: E)

  /** How the call ends: the engine is returned, the exception propagates,
      or (only when the loop runs zero times) the function falls off its end
      and returns Python's `None`. */
  datatype Outcome<G, E> = Engine(engine: G) | Raised(error: E) | NoResult

  /** What the caller can observe happening, in order. */
  datatype Event = Try(attempt: nat) | Sleep(seconds: nat)

  datatype Run<G, E> = Run(outcome: Outcome<G, E>, trace: seq<Event>)

  /** Number of connection attempts in a trace. */
  function Attempts(trace: seq<Event>): nat {
    if |trace| == 0 then 0
    else (if trace[0].Try? then 1 else 0) + Attempts(trace[1..])
  }

  /** Number of pauses in a trace. */
  function Sleeps(trace: seq<Event>): nat {
    if |trace| == 0 then 0
    else (if trace[0].Sleep? then 1 else 0) + Sleeps(trace[1..])
  }

  /** Total seconds spent pausing. */
  function TotalDelay(trace: seq<Event>): nat {
    if |trace| == 0 then 0
    else (if trace[0].Sleep? then trace[0].seconds else 0) + TotalDelay(trace[1..])
  }

  /** The events of `n` attempts numbered from `first` with a pause of
      `delay` between consecutive ones: attempts at even positions, pauses at
      odd positions, never a pause at either end. */
  function Schedule(first: nat, n: nat, delay: nat): (s: seq<Event>)
    ensures |s| == if n == 0 then 0 else 2 * n - 1
  {
    if n == 0 then []
    else seq(2 * n - 1, i requires 0 <= i < 2 * n - 1 => if i % 2 == 0 then Try(first + i / 2) else Sleep(delay))
  }

  /** The loop of `create_db_connection` from iteration `attempt` on, with
      the outcome of every attempt supplied by `connect`. */
  function RetryFrom<G, E>(connect: nat -> Attempt<G, E>, maxRetries: nat, retryDelay: nat, attempt: nat): (run: Run<G, E>)
    ensures run.outcome.NoResult? <==> attempt >= maxRetries
    ensures |run.trace| == 0 <==> attempt >= maxRetries
    decreases maxRetries - attempt
  {
    if attempt >= maxRetries then Run(NoResult, [])
    else
      match connect(attempt)
      case Connected(g) => Run(Engine(g), [Try(attempt)])
      case Failed(e) =>
        if attempt < maxRetries - 1 then
          var rest := RetryFrom(connect, maxRetries, retryDelay, attempt + 1);
          Run(rest.outcome, [Try(attempt), Sleep(retryDelay)] + rest.trace)
        else
          Run(Raised(e), [Try(attempt)])
  }

  /** Unrolling a schedule by one attempt. */
  lemma ScheduleStep(first: nat, n: nat, delay: nat)
    requires n >= 1
    ensures Schedule(first, n + 1, delay) == [Try(first), Sleep(delay)] + Schedule(first + 1, n, delay)
  {
  }

  /** Prepending an attempt and a pause adds one of each. */
  lemma CountsPrefix(first: nat, delay: nat, rest: seq<Event>)
    ensures var s := [Try(first), Sleep(delay)] + rest;
      && Attempts(s) == Attempts(rest) + 1
      && Sleeps(s) == Sleeps(rest) + 1
      && TotalDelay(s) == TotalDelay(rest) + delay
  {
  }

  /** A schedule of `n` attempts holds `n` attempts and `n - 1` pauses. */
  lemma {:induction false} ScheduleCounts(first: nat, n: nat, delay: nat)
    requires n >= 1
    ensures Attempts(Schedule(first, n, delay)) == n
    ensures Sleeps(Schedule(first, n, delay)) == n - 1
    decreases n
  {
    if n == 1 {
      var s := Schedule(first, n, delay);
      assert s == [Try(first)];
      assert s[1..] == [];
    } else {
      var rest := Schedule(first + 1, n - 1, delay);
      ScheduleStep(first, n - 1, delay);
      ScheduleCounts(first + 1, n - 1, delay);
      CountsPrefix(first, delay, rest);
    }
  }

  /** A schedule starts and ends with an attempt: no pause before the first
      attempt or after the last. */
  lemma ScheduleEnds(first: nat, n: nat, delay: nat)
    requires n >= 1
    ensures Schedule(first, n, delay)[0] == Try(first)
    ensures Schedule(first, n, delay)[2 * n - 2] == Try(first + n - 1)
  {
  }

  /** The pauses of a schedule of `n` attempts add up to `(n - 1) * delay`
      seconds. */
  lemma {:induction false} ScheduleDelay(first: nat, n: nat, delay: nat)
    requires n >= 1
    ensures TotalDelay(Schedule(first, n, delay)) == (n - 1) * delay
    decreases n
  {
    var s := Schedule(first, n, delay);
    if n == 1 {
      assert s == [Try(first)];
      assert s[1..] == [];
    } else {
      var rest := Schedule(first + 1, n - 1, delay);
      ScheduleStep(first, n - 1, delay);
      ScheduleDelay(first + 1, n - 1, delay);
      CountsPrefix(first, delay, rest);
      assert (n - 1) * delay == (n - 2) * delay + delay;
    }
  }

  /** Every run from `attempt` below the limit: `n` attempts follow the
      schedule, all but the last failed, and the last one decides the
      outcome: its engine on success, its exception only when it was the
      final permitted attempt. */
  lemma {:induction false} RetryShape<G, E>(connect: nat -> Attempt<G, E>, maxRetries: nat, retryDelay: nat, attempt: nat)
    requires attempt < maxRetries
    ensures var run := RetryFrom(connect, maxRetries, retryDelay, attempt);
      var n := Attempts(run.trace);
      && 1 <= n <= maxRetries - attempt
      && run.trace == Schedule(attempt, n, retryDelay)
      && (forall j :: attempt <= j < attempt + n - 1 ==> connect(j).Failed?)
      && (run.outcome.Engine? || run.outcome.Raised?)
      && (run.outcome.Engine? ==>
            connect(attempt + n - 1).Connected? && run.outcome.engine == connect(attempt + n - 1).engine)
      && (run.outcome.Raised? ==>
            n == maxRetries - attempt && connect(attempt + n - 1).Failed?
            && run.outcome.error == connect(attempt + n - 1).error)
    decreases maxRetries - attempt
  {
    var run := RetryFrom(connect, maxRetries, retryDelay, attempt);
    if connect(attempt).Connected? || attempt == maxRetries - 1 {
      assert run.trace == [Try(attempt)];
      assert run.trace[1..] == [];
      assert run.trace == Schedule(attempt, 1, retryDelay);
    } else {
      var rest := RetryFrom(connect, maxRetries, retryDelay, attempt + 1);
      RetryShape(connect, maxRetries, retryDelay, attempt + 1);
      var m := Attempts(rest.trace);
      assert run.trace == [Try(attempt), Sleep(retryDelay)] + rest.trace;
      CountsPrefix(attempt, retryDelay, rest.trace);
      ScheduleStep(attempt, m, retryDelay);
    }
  }

  /** If attempt `k` is the first to connect, the engine it made is returned
      after exactly `k + 1` attempts and `k` pauses, and nothing follows. */
  lemma RetryFirstSuccess<G, E>(connect: nat -> Attempt<G, E>, maxRetries: nat, retryDelay: nat, k: nat)
    requires k < maxRetries
    requires connect(k).Connected?
    requires forall j :: 0 <= j < k ==> connect(j).Failed?
    ensures var run := RetryFrom(connect, maxRetries, retryDelay, 0);
      && run.outcome == Engine(connect(k).engine)
      && run.trace == Schedule(0, k + 1, retryDelay)
      && Attempts(run.trace) == k + 1
      && Sleeps(run.trace) == k
      && TotalDelay(run.trace) == k * retryDelay
  {
    RetryShape(connect, maxRetries, retryDelay, 0);
    ScheduleCounts(0, k + 1, retryDelay);
    ScheduleDelay(0, k + 1, retryDelay);
  }

  /** If every permitted attempt fails, the last attempt's exception is
      raised after `maxRetries` attempts and `maxRetries - 1` pauses. */
  lemma RetryExhausted<G, E>(connect: nat -> Attempt<G, E>, maxRetries: nat, retryDelay: nat)
    requires maxRetries > 0
    requires forall j :: 0 <= j < maxRetries ==> connect(j).Failed?
    ensures var run := RetryFrom(connect, maxRetries, retryDelay, 0);
      && run.outcome == Raised(connect(maxRetries - 1).error)
      && run.trace == Schedule(0, maxRetries, retryDelay)
      && Attempts(run.trace) == maxRetries
      && Sleeps(run.trace) == maxRetries - 1
      && TotalDelay(run.trace) == (maxRetries - 1) * retryDelay
  {
    RetryShape(connect, maxRetries, retryDelay, 0);
    var run := RetryFrom(connect, maxRetries, retryDelay, 0);
    ScheduleCounts(0, Attempts(run.trace), retryDelay);
    ScheduleDelay(0, Attempts(run.trace), retryDelay);
  }

  /** With no permitted attempt the loop body never runs and the function
      returns `None` without trying to connect. */
  lemma RetryNoAttempts<G, E>(connect: nat -> Attempt<G, E>, retryDelay: nat)
    ensures RetryFrom(connect, 0, retryDelay, 0) == Run(NoResult, [])
  {
  }

  /** For any positive limit the call either returns an engine or raises,
      after between 1 and `maxRetries` attempts with one pause between
      consecutive attempts; it connects exactly when one of the permitted
      attempts does, returning that attempt's engine, and it raises only
      after the last permitted attempt, with that attempt's exception. */
  lemma RetryPolicy<G, E>(connect: nat -> Attempt<G, E>, maxRetries: nat, retryDelay: nat)
    requires maxRetries > 0
    ensures var run := RetryFrom(connect, maxRetries, retryDelay, 0);
      var n := Attempts(run.trace);
      && (run.outcome.Engine? || run.outcome.Raised?)
      && 1 <= n <= maxRetries
      && Sleeps(run.trace) == n - 1
      && TotalDelay(run.trace) == (n - 1) * retryDelay
      && (run.outcome.Engine? <==> exists k :: 0 <= k < maxRetries && connect(k).Connected?)
      && (run.outcome.Engine? ==> connect(n - 1).Connected? && run.outcome.engine == connect(n - 1).engine)
      && (run.outcome.Raised? ==> n == maxRetries && run.outcome.error == connect(maxRetries - 1).error)
  {
    var run := RetryFrom(connect, maxRetries, retryDelay, 0);
    RetryShape(connect, maxRetries, retryDelay, 0);
    var n := Attempts(run.trace);
    ScheduleCounts(0, n, retryDelay);
    ScheduleDelay(0, n, retryDelay);
    if run.outcome.Raised? {
      assert forall k :: 0 <= k < maxRetries ==> connect(k).Failed?;
    }
  }

  /** A pause is only ever taken between two attempts, right after one
      that failed, and lasts `retryDelay` seconds; in particular the call
      never pauses after its last attempt. */
  lemma RetryPausesFollowFailures<G, E>(connect: nat -> Attempt<G, E>, maxRetries: nat, retryDelay: nat)
    ensures var t := RetryFrom(connect, maxRetries, retryDelay, 0).trace;
      forall i :: 0 <= i < |t| && t[i].Sleep? ==>
        && 0 < i < |t| - 1
        && t[i - 1].Try? && connect(t[i - 1].attempt).Failed?
        && t[i + 1].Try?
        && t[i].seconds == retryDelay
  {
    if maxRetries > 0 {
      RetryShape(connect, maxRetries, retryDelay, 0);
      var t := RetryFrom(connect, maxRetries, retryDelay, 0).trace;
      var n := Attempts(t);
      forall i | 0 <= i < |t| && t[i].Sleep?
        ensures 0 < i < |t| - 1 && t[i - 1] == Try((i - 1) / 2) && (i - 1) / 2 < n - 1 && t[i + 1].Try?
      {
        assert i % 2 == 1;
      }
    }
  }

  /** `create_db_connection` with its constants: it returns an engine or
      raises, never neither, after at most 30 attempts with a 2-second pause
      between consecutive ones, and it raises only when all 30 failed. */
  function CreateDbConnection<G, E>(connect: nat -> Attempt<G, E>): (run: Run<G, E>)
    ensures run.outcome.Engine? || run.outcome.Raised?
    ensures 1 <= Attempts(run.trace) <= MaxRetries
    ensures Sleeps(run.trace) == Attempts(run.trace) - 1
    ensures TotalDelay(run.trace) == RetryDelay * Sleeps(run.trace)
    ensures forall i :: 0 <= i < |run.trace| && run.trace[i].Sleep? ==> run.trace[i].seconds == RetryDelay
    ensures run.outcome.Raised? ==> forall k :: 0 <= k < MaxRetries ==> connect(k).Failed?
  {
    RetryPolicy(connect, MaxRetries, RetryDelay);
    RetryPausesFollowFailures(connect, MaxRetries, RetryDelay);
    RetryFrom(connect, MaxRetries, RetryDelay, 0)
  }

  /** The ingestion script's policy with its constants: at most 30 attempts,
      2-second pauses between them, and, when every attempt fails, the 30th
      attempt's exception raised after 29 pauses, 58 seconds in all. */
  lemma CreateDbConnectionPolicy<G, E>(connect: nat -> Attempt<G, E>)
    ensures var run := CreateDbConnection(connect);
      var n := Attempts(run.trace);
      && (run.outcome.Engine? || run.outcome.Raised?)
      && 1 <= n <= 30
      && Sleeps(run.trace) == n - 1
      && TotalDelay(run.trace) == 2 * (n - 1)
      && (run.outcome.Engine? <==> exists k :: 0 <= k < 30 && connect(k).Connected?)
      && (run.outcome.Raised? ==>
            n == 30 && Sleeps(run.trace) == 29 && TotalDelay(run.trace) == 58
            && run.outcome.error == connect(29).error)
  {
    RetryPolicy(connect, MaxRetries, RetryDelay);
  }
}
