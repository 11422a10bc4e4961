/** The SDK's debounce: one shared timer that every call clears and sets again. */
module Debounce {

  datatype Timer<+A> = Idle | Set(due: nat, args: A)

  /** A call of the debounced function. When a timer is due at the very moment of a call the
      event loop may run either first; `timerFirst` says which it was. */
  datatype Call<+A> = Call(at: nat, args: A, timerFirst: bool)

  datatype Firing<+A> = Firing(at: nat, args: A)

  ghost predicate Chronological<A>(calls: seq<Call<A>>) {
    forall i, j :: 0 <= i < j < |calls| ==> calls[i].at <= calls[j].at
  }

  /** The i-th call is followed by no other within `wait`. */
  predicate Settled<A>(calls: seq<Call<A>>, i: nat, wait: nat)
    requires i < |calls|
  {
    || i == |calls| - 1
    || calls[i + 1].at > calls[i].at + wait
    || (calls[i + 1].at == calls[i].at + wait && calls[i + 1].timerFirst)
  }

  /** One firing for each settled call among the first `n`, at its time plus the wait and with
      its arguments. */
  function Firings<A>(calls: seq<Call<A>>, n: nat, wait: nat): seq<Firing<A>>
    requires n <= |calls|
  {
    if n == 0 then []
    else if Settled(calls, n - 1, wait)
    then Firings(calls, n - 1, wait) + [Firing(calls[n - 1].at + wait, calls[n - 1].args)]
    else Firings(calls, n - 1, wait)
  }

  class Debounced<A> {
    const wait: nat
    var timeout: Timer<A>
    var fired: seq<Firing<A>>

    constructor (wait: nat)
      ensures this.wait == wait && timeout == Idle && fired == []
    {
      this.wait := wait;
      timeout, fired := Idle, [];
    }

    /** The returned function: clear the timer, set it anew. */
    method Invoke(now: nat, args: A)
      modifies this
      ensures timeout == Set(now + wait, args) && fired == old(fired)
    {
      timeout := Idle;
      timeout := Set(now + wait, args);
    }

    /** The event loop up to a moment: a timer that is due runs the function. */
    method Elapse(now: nat, inclusive: bool)
      modifies this
      ensures var runs := old(timeout).Set? && (old(timeout).due < now || (old(timeout).due == now && inclusive));
        && timeout == (if runs then Idle else old(timeout))
        && fired == old(fired) + if runs then [Firing(old(timeout).due, old(timeout).args)] else []
    {
      if timeout.Set? && (timeout.due < now || (timeout.due == now && inclusive)) {
        fired := fired + [Firing(timeout.due, timeout.args)];
        timeout := Idle;
      }
    }

    /** A whole history of calls, and then silence: exactly the settled calls fire. */
    method Play(calls: seq<Call<A>>)
      requires Chronological(calls) && timeout == Idle && fired == []
      modifies this
      ensures timeout == Idle
      ensures fired == Firings(calls, |calls|, wait)
    {
      for i := 0 to |calls|
        invariant i == 0 ==> timeout == Idle && fired == []
        invariant i > 0 ==> timeout == Set(calls[i - 1].at + wait, calls[i - 1].args)
        invariant i > 0 ==> fired == Firings(calls, i - 1, wait)
      {
        Elapse(calls[i].at, calls[i].timerFirst);
        Invoke(calls[i].at, calls[i].args);
      }
      if timeout.Set? {
        Elapse(timeout.due, true);
      }
    }
  }

  /** A firing happens for a call if and only if the call is settled. */
  lemma {:induction false} FiresIffSettled<A>(calls: seq<Call<A>>, n: nat, wait: nat, f: Firing<A>)
    requires n <= |calls|
    ensures f in Firings(calls, n, wait) <==>
      exists i :: 0 <= i < n && Settled(calls, i, wait) && f == Firing(calls[i].at + wait, calls[i].args)
  {
    if n > 0 {
      FiresIffSettled(calls, n - 1, wait, f);
    }
  }

  /** Spelled out for a whole history: a call fires if and only if no other comes within the wait,
      where one that comes at its very end is too late if the timer runs first. */
  lemma WhatFires<A>(calls: seq<Call<A>>, wait: nat)
    requires Chronological(calls)
    ensures var fired := Firings(calls, |calls|, wait);
      && (forall f :: f in fired <==> exists i ::
            && 0 <= i < |calls| && f == Firing(calls[i].at + wait, calls[i].args)
            && (|| i == |calls| - 1
                || calls[i + 1].at > calls[i].at + wait
                || (calls[i + 1].at == calls[i].at + wait && calls[i + 1].timerFirst)))
      && forall k :: 0 <= k < |fired| - 1 ==> fired[k].at + wait <= fired[k + 1].at
  {
    FiringsAreSpaced(calls, |calls|, wait);
    forall f ensures f in Firings(calls, |calls|, wait) <==> exists i ::
      0 <= i < |calls| && Settled(calls, i, wait) && f == Firing(calls[i].at + wait, calls[i].args)
    {
      FiresIffSettled(calls, |calls|, wait, f);
    }
  }

  /** No two firings are closer together than the wait, and they come in order. */
  lemma {:induction false} FiringsAreSpaced<A>(calls: seq<Call<A>>, n: nat, wait: nat)
    requires n <= |calls| && Chronological(calls)
    ensures var fs := Firings(calls, n, wait);
      && |fs| <= n
      && (forall k :: 0 <= k < |fs| - 1 ==> fs[k].at + wait <= fs[k + 1].at)
      && (fs != [] && n < |calls| ==> fs[|fs| - 1].at <= calls[n].at)
  {
    if n > 0 {
      FiringsAreSpaced(calls, n - 1, wait);
      var before := Firings(calls, n - 1, wait);
      var fs := Firings(calls, n, wait);
      assert forall k :: 0 <= k < |before| ==> fs[k] == before[k];
    }
  }
}
