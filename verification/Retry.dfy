/** The SDK's retry loop with exponential sleeps. */
module Retry {
  import opened Arithmetic

  datatype Attempt<+T, +E> = Resolved(value: T) | Rejected(error: E)

  datatype Outcome<+T, +E> = Returned(value: T) | Thrown(lastError: E)

  function Sum(xs: seq<nat>): nat {
    if xs == [] then 0 else Sum(xs[..|xs| - 1]) + xs[|xs| - 1]
  }

  /** `baseDelay * 2^(attempt - 1)`, the sleep after a failed attempt. */
  function DelayAfter(baseDelay: nat, attempt: nat): nat
    requires attempt >= 1
  {
    baseDelay * Pow2(attempt - 1)
  }

  /** `fn(i)` is what the i-th call settles to. The loop makes exactly the calls up to the first
      success or the last allowed attempt, sleeps once between any two of them for twice as long
      as before, and ends with the result of its last call. Without a single allowed attempt it
      throws the error it started out with. */
  method Retry<T, E>(fn: nat -> Attempt<T, E>, maxAttempts: int, baseDelay: nat, unknown: E)
    returns (outcome: Outcome<T, E>, calls: nat, sleeps: seq<nat>)
    ensures maxAttempts < 1 ==> calls == 0 && sleeps == [] && outcome == Thrown(unknown)
    ensures maxAttempts >= 1 ==>
      && 1 <= calls <= maxAttempts
      && (forall i :: 1 <= i < calls ==> fn(i).Rejected?)
      && (fn(calls).Resolved? || calls == maxAttempts)
      && (fn(calls).Resolved? ==> outcome == Returned(fn(calls).value))
      && (fn(calls).Rejected? ==> outcome == Thrown(fn(calls).error))
      && |sleeps| == calls - 1
      && (sleeps != [] ==> sleeps[0] == baseDelay)
      && (forall i :: 0 <= i < |sleeps| - 1 ==> sleeps[i + 1] == 2 * sleeps[i])
      && Sum(sleeps) == baseDelay * (Pow2(calls - 1) - 1)
  {
    var lastError := unknown;
    calls, sleeps := 0, [];
    var attempt := 1;
    while attempt <= maxAttempts
      invariant calls == attempt - 1 == |sleeps|
      invariant maxAttempts >= 1 ==> attempt <= maxAttempts
      invariant maxAttempts < 1 ==> attempt == 1
      invariant forall i :: 1 <= i < attempt ==> fn(i).Rejected?
      invariant forall i :: 0 <= i < |sleeps| ==> sleeps[i] == DelayAfter(baseDelay, i + 1)
      invariant attempt == 1 ==> lastError == unknown
      decreases maxAttempts - attempt
    {
      calls := calls + 1;
      var settled := fn(attempt);
      if settled.Resolved? {
        SumOfDoublings(sleeps, baseDelay);
        return Returned(settled.value), calls, sleeps;
      }
      lastError := settled.error;
      if attempt == maxAttempts {
        break;
      }
      sleeps := sleeps + [DelayAfter(baseDelay, attempt)];
      attempt := attempt + 1;
    }
    SumOfDoublings(sleeps, baseDelay);
    outcome := Thrown(lastError);
  }

  /** Doubling delays add up to the next doubling less one. */
  lemma {:induction false} SumOfDoublings(sleeps: seq<nat>, baseDelay: nat)
    requires forall i :: 0 <= i < |sleeps| ==> sleeps[i] == DelayAfter(baseDelay, i + 1)
    ensures Sum(sleeps) == baseDelay * (Pow2(|sleeps|) - 1)
  {
    if sleeps != [] {
      var n := |sleeps| - 1;
      SumOfDoublings(sleeps[..n], baseDelay);
      var p := Pow2(n);
      assert Pow2(n + 1) == 2 * p;
      assert baseDelay * (p - 1) + baseDelay * p == baseDelay * (2 * p - 1);
    }
  }
}
