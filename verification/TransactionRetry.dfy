/** `withTransactionRetry`: re-running an aborted transaction with capped exponential delays. */
module TransactionRetry {
  import opened Common

  datatype Outcome<+T, +E> = Done(value: T) | Thrown(error: E)

  /** What the loop throws: the operation's own error, or a complaint about its options. */
  datatype RetryError<+E> = BadMaxAttempts | Raised(error: E)

  function Pow2(n: nat): nat { if n == 0 then 1 else 2 * Pow2(n - 1) }

  /** `getTransactionRetryDelayMs` for a valid attempt number. */
  function DelayMs(attempt: nat, baseMs: nat, maxMs: nat): nat
    requires attempt > 0
  {
    Min(baseMs * Pow2(attempt - 1), maxMs)
  }

  /** Running attempts `attempt..maxAttempts` from state `s`: the outcome, the state, the sleeps. */
  function Attempts<S, T, E>(operation: (S, nat) -> (Outcome<T, E>, S), shouldRetry: E -> bool,
                             maxAttempts: nat, baseMs: nat, maxMs: nat,
                             attempt: nat, s: S): (Outcome<T, E>, S, seq<nat>)
    requires 0 < attempt <= maxAttempts
    decreases maxAttempts - attempt
  {
    var (outcome, s1) := operation(s, attempt);
    if outcome.Done? || !shouldRetry(outcome.error) || attempt == maxAttempts then (outcome, s1, [])
    else
      var (last, s2, sleeps) := Attempts(operation, shouldRetry, maxAttempts, baseMs, maxMs, attempt + 1, s1);
      (last, s2, [DelayMs(attempt, baseMs, maxMs)] + sleeps)
  }

  method WithTransactionRetry<S, T, E>(operation: (S, nat) -> (Outcome<T, E>, S), shouldRetry: E -> bool,
                                       maxAttempts: int, baseMs: nat, maxMs: nat, start: S)
    returns (outcome: Outcome<T, RetryError<E>>, state: S, sleeps: seq<nat>)
    ensures maxAttempts <= 0 ==> outcome == Thrown(BadMaxAttempts) && state == start && sleeps == []
    ensures maxAttempts > 0 ==>
      var (last, s, delays) := Attempts(operation, shouldRetry, maxAttempts, baseMs, maxMs, 1, start);
      && state == s && sleeps == delays
      && outcome == (match last case Done(v) => Done(v) case Thrown(e) => Thrown(Raised(e)))
  {
    state, sleeps := start, [];
    if maxAttempts <= 0 { return Thrown(BadMaxAttempts), state, sleeps; }
    var attempt := 1;
    assert sleeps + Attempts(operation, shouldRetry, maxAttempts, baseMs, maxMs, 1, start).2
        == Attempts(operation, shouldRetry, maxAttempts, baseMs, maxMs, 1, start).2;
    while true
      invariant 0 < attempt <= maxAttempts
      invariant var (last, s, delays) := Attempts(operation, shouldRetry, maxAttempts, baseMs, maxMs, attempt, state);
        Attempts(operation, shouldRetry, maxAttempts, baseMs, maxMs, 1, start) == (last, s, sleeps + delays)
      decreases maxAttempts - attempt
    {
      var (result, state1) := operation(state, attempt);
      ghost var rest := Attempts(operation, shouldRetry, maxAttempts, baseMs, maxMs, attempt, state);
      if result.Done? {
        assert sleeps + [] == sleeps;
        return Done(result.value), state1, sleeps;
      }
      if !shouldRetry(result.error) || attempt >= maxAttempts {
        assert sleeps + [] == sleeps;
        return Thrown(Raised(result.error)), state1, sleeps;
      }
      assert sleeps + rest.2 == sleeps + [DelayMs(attempt, baseMs, maxMs)] + rest.2[1..];
      sleeps := sleeps + [DelayMs(attempt, baseMs, maxMs)];
      state := state1;
      attempt := attempt + 1;
    }
  }

  /** A transaction that throws leaves the database as it found it. */
  ghost predicate RollsBack<S(!new), T, E>(operation: (S, nat) -> (Outcome<T, E>, S)) {
    forall s, n :: operation(s, n).0.Thrown? ==> operation(s, n).1 == s
  }

  /** Every attempt from `attempt` on that was slept after failed retryably on `s`, and its sleep is
      the capped doubling delay. */
  ghost predicate FailedBefore<S(!new), T, E>(operation: (S, nat) -> (Outcome<T, E>, S), shouldRetry: E -> bool,
                                              baseMs: nat, maxMs: nat, attempt: nat, s: S, sleeps: seq<nat>)
    requires attempt > 0
  {
    forall i :: 0 <= i < |sleeps| ==>
      && operation(s, attempt + i).0.Thrown? && shouldRetry(operation(s, attempt + i).0.error)
      && sleeps[i] == DelayMs(attempt + i, baseMs, maxMs) && sleeps[i] <= maxMs
  }

  lemma {:induction false} FailedOnceMore<S(!new), T, E>(
      operation: (S, nat) -> (Outcome<T, E>, S), shouldRetry: E -> bool, baseMs: nat, maxMs: nat,
      attempt: nat, s: S, rest: seq<nat>)
    requires attempt > 0 && operation(s, attempt).0.Thrown? && shouldRetry(operation(s, attempt).0.error)
    requires FailedBefore(operation, shouldRetry, baseMs, maxMs, attempt + 1, s, rest)
    ensures FailedBefore(operation, shouldRetry, baseMs, maxMs, attempt, s, [DelayMs(attempt, baseMs, maxMs)] + rest)
  {
    var sleeps := [DelayMs(attempt, baseMs, maxMs)] + rest;
    forall i | 0 <= i < |sleeps|
      ensures operation(s, attempt + i).0.Thrown? && shouldRetry(operation(s, attempt + i).0.error)
      ensures sleeps[i] == DelayMs(attempt + i, baseMs, maxMs) && sleeps[i] <= maxMs
    {
      if i > 0 { assert sleeps[i] == rest[i - 1] && attempt + i == (attempt + 1) + (i - 1); }
    }
  }

  /** Retrying a transaction that rolls back commits at most once: the final state is the start
      state or one single run from it, every earlier attempt failed retryably, the sleeps are the
      capped doubling delays, and it gives up only on a fatal error or after `maxAttempts`. */
  lemma {:induction false} RetryCommitsAtMostOnce<S(!new), T, E>(
      operation: (S, nat) -> (Outcome<T, E>, S), shouldRetry: E -> bool,
      maxAttempts: nat, baseMs: nat, maxMs: nat, attempt: nat, s: S)
    requires 0 < attempt <= maxAttempts && RollsBack(operation)
    ensures var (last, end, sleeps) := Attempts(operation, shouldRetry, maxAttempts, baseMs, maxMs, attempt, s);
      var final := attempt + |sleeps|;
      && final <= maxAttempts
      && operation(s, final) == (last, end)
      && (last.Thrown? ==> end == s && (shouldRetry(last.error) ==> final == maxAttempts))
      && FailedBefore(operation, shouldRetry, baseMs, maxMs, attempt, s, sleeps)
    decreases maxAttempts - attempt
  {
    var (outcome, s1) := operation(s, attempt);
    if outcome.Thrown? && shouldRetry(outcome.error) && attempt < maxAttempts {
      assert s1 == s;
      RetryCommitsAtMostOnce(operation, shouldRetry, maxAttempts, baseMs, maxMs, attempt + 1, s);
      var rest := Attempts(operation, shouldRetry, maxAttempts, baseMs, maxMs, attempt + 1, s).2;
      FailedOnceMore(operation, shouldRetry, baseMs, maxMs, attempt, s, rest);
    }
  }

  lemma {:induction false} DelayDoubles(attempt: nat, baseMs: nat, maxMs: nat)
    requires attempt > 0
    ensures DelayMs(1, baseMs, maxMs) == Min(baseMs, maxMs)
    ensures DelayMs(attempt + 1, baseMs, maxMs) == Min(2 * DelayMs(attempt, baseMs, maxMs), maxMs)
  {
    assert Pow2(attempt) == 2 * Pow2(attempt - 1) && Pow2(0) == 1;
    assert baseMs * Pow2(attempt) == 2 * (baseMs * Pow2(attempt - 1));
  }

  /** The sleeps of one call begin with the base delay and double from one to the next, up to the maximum. */
  lemma {:induction false} SleepsDouble<S(!new), T, E>(
      operation: (S, nat) -> (Outcome<T, E>, S), shouldRetry: E -> bool,
      maxAttempts: nat, baseMs: nat, maxMs: nat, s: S)
    requires 0 < maxAttempts && RollsBack(operation)
    ensures var sleeps := Attempts(operation, shouldRetry, maxAttempts, baseMs, maxMs, 1, s).2;
      && |sleeps| < maxAttempts
      && (sleeps != [] ==> sleeps[0] == Min(baseMs, maxMs))
      && forall i :: 0 <= i < |sleeps| - 1 ==> sleeps[i + 1] == Min(2 * sleeps[i], maxMs)
  {
    var sleeps := Attempts(operation, shouldRetry, maxAttempts, baseMs, maxMs, 1, s).2;
    RetryCommitsAtMostOnce(operation, shouldRetry, maxAttempts, baseMs, maxMs, 1, s);
    DelayDoubles(1, baseMs, maxMs);
    forall i | 0 <= i < |sleeps| - 1 ensures sleeps[i + 1] == Min(2 * sleeps[i], maxMs) {
      assert sleeps[i] == DelayMs(1 + i, baseMs, maxMs) && sleeps[i + 1] == DelayMs(1 + (i + 1), baseMs, maxMs);
      DelayDoubles(1 + i, baseMs, maxMs);
    }
  }
}
