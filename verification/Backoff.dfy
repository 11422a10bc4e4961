/** Retry scheduling in the gateway: exponential backoff in blocks, readiness and the
    acceptance of at most three retries. */
module Backoff {
  import opened Arithmetic

  const MAX_RETRIES: nat := 3
  const BASE_DELAY: nat := 5

  /** `BASE_DELAY_BLOCKS.saturating_mul(2u32.pow(retry_count))`. The power is a plain u32
      power: with release arithmetic it keeps the low 32 bits. */
  function Delay(retryCount: nat): nat {
    Min(BASE_DELAY * Wrap32(Pow2(retryCount)), MAX_U32)
  }

  predicate IsReady(lastRetryBlock: nat, retryCount: nat, currentBlock: nat) {
    SaturatingSub(currentBlock, lastRetryBlock) >= Delay(retryCount)
  }

  /** `retry_transaction` answers whether another retry is scheduled. */
  predicate AcceptsRetry(retryCount: nat) {
    retryCount < MAX_RETRIES
  }

  /** Above exponent 31 the 32-bit power is zero. */
  lemma {:induction false} PowerWrapsToZero(retryCount: nat)
    requires 32 <= retryCount
    ensures Wrap32(Pow2(retryCount)) == 0
  {
    if retryCount == 32 {
      Pow2Values();
    } else {
      PowerWrapsToZero(retryCount - 1);
      WrapOfDouble(Pow2(retryCount - 1));
    }
  }

  /** While it fits, the 32-bit power is the power. */
  lemma SmallDelay(retryCount: nat)
    requires retryCount <= 31
    ensures Delay(retryCount) == Min(BASE_DELAY * Pow2(retryCount), MAX_U32)
  {
    Pow2Monotone(retryCount, 31);
    Pow2Values();
    assert Pow2(32) == 2 * Pow2(31);
    WrapIsIdentityIff(Pow2(retryCount));
  }

  /** The delay is the saturated doubling that the handler advertises exactly for retry
      counts up to 31, and it is the unsaturated doubling exactly up to 29. */
  lemma DelayIsSaturatedDoublingIff(retryCount: nat)
    ensures Delay(retryCount) == Min(BASE_DELAY * Pow2(retryCount), MAX_U32) <==> retryCount <= 31
    ensures Delay(retryCount) == BASE_DELAY * Pow2(retryCount) <==> retryCount <= 29
  {
    Pow2Values();
    assert Pow2(30) == 2 * Pow2(29);
    if retryCount <= 31 {
      SmallDelay(retryCount);
      if retryCount <= 29 {
        Pow2Monotone(retryCount, 29);
      } else {
        Pow2Monotone(30, retryCount);
      }
    } else {
      PowerWrapsToZero(retryCount);
      assert Delay(retryCount) == 0;
      Pow2Monotone(32, retryCount);
    }
  }

  /** When a retry is due, in full: `5 * 2^count` blocks after the last one for counts up to 29, the
      largest block count for 30 and 31, and at once beyond, where the power has wrapped to zero;
      and it is accepted as one of the first three. */
  lemma ReadyIff(last: nat, retryCount: nat, now: nat)
    ensures retryCount <= 29 ==> (IsReady(last, retryCount, now) <==> now >= last + 5 * Pow2(retryCount))
    ensures 30 <= retryCount <= 31 ==> (IsReady(last, retryCount, now) <==> now >= last + 4_294_967_295)
    ensures retryCount >= 32 ==> IsReady(last, retryCount, now)
    ensures AcceptsRetry(retryCount) <==> retryCount < 3
  {
    Pow2Values();
    if retryCount <= 29 {
      DelayIsSaturatedDoublingIff(retryCount);
    } else if retryCount <= 31 {
      SmallDelay(retryCount);
      Pow2Monotone(30, retryCount);
      assert Pow2(30) == 2 * Pow2(29);
    } else {
      PowerWrapsToZero(retryCount);
    }
  }

  /** Waiting longer never makes a retry unready, whatever its count. A later retry waits at
      least as long as an earlier one exactly if the later count is still below the wrap or
      the earlier one is already beyond it; then readiness for the later implies readiness for
      the earlier. */
  lemma BackoffIsMonotone(last: nat, retryCount: nat, more: nat, now: nat, later: nat)
    requires retryCount <= more && now <= later
    ensures IsReady(last, retryCount, now) ==> IsReady(last, retryCount, later)
    ensures Delay(retryCount) <= Delay(more) <==> more <= 31 || retryCount >= 32
    ensures (more <= 31 || retryCount >= 32) && IsReady(last, more, now) ==> IsReady(last, retryCount, now)
  {
    if more <= 31 {
      SmallDelay(retryCount);
      SmallDelay(more);
      Pow2Monotone(retryCount, more);
    } else {
      PowerWrapsToZero(more);
      if retryCount <= 31 {
        SmallDelay(retryCount);
      } else {
        PowerWrapsToZero(retryCount);
      }
    }
  }

  /** The scheduling part of a pending transaction. */
  datatype Retry = Retry(retryCount: nat, lastRetryAt: nat)

  /** One visit of the retry queue at a block: an entry that is ready and accepted advances
      both fields, any other stays as it was. */
  function Visit(entry: Retry, block: nat): Retry {
    if IsReady(entry.lastRetryAt, entry.retryCount, block) && AcceptsRetry(entry.retryCount)
    then Retry(entry.retryCount + 1, block)
    else entry
  }

  function VisitAll(entry: Retry, blocks: seq<nat>): Retry {
    if blocks == [] then entry
    else Visit(VisitAll(entry, blocks[..|blocks| - 1]), blocks[|blocks| - 1])
  }

  /** Over any sequence of queue visits a transaction first tracked at `start` is retried at
      most three times, and the k-th retry is no earlier than `start + 5 * (2^k - 1)`. */
  lemma {:induction false} RetriesAreBoundedAndSpaced(start: nat, blocks: seq<nat>)
    ensures var entry := VisitAll(Retry(0, start), blocks);
      && entry.retryCount <= MAX_RETRIES
      && entry.lastRetryAt >= start + BASE_DELAY * (Pow2(entry.retryCount) - 1)
  {
    if blocks != [] {
      RetriesAreBoundedAndSpaced(start, blocks[..|blocks| - 1]);
      var before := VisitAll(Retry(0, start), blocks[..|blocks| - 1]);
      SmallDelay(before.retryCount);
    }
  }

  /** The bounds are met: visits at exactly those blocks retry each time, and a fourth visit,
      however late, does not. */
  lemma ScheduleIsTight(start: nat, late: nat)
    ensures VisitAll(Retry(0, start), [start + 5]) == Retry(1, start + 5)
    ensures VisitAll(Retry(0, start), [start + 5, start + 15]) == Retry(2, start + 15)
    ensures VisitAll(Retry(0, start), [start + 5, start + 15, start + 35]) == Retry(3, start + 35)
    ensures VisitAll(Retry(0, start), [start + 5, start + 15, start + 35, late]) == Retry(3, start + 35)
  {
    assert Pow2(0) == 1 && Pow2(1) == 2 && Pow2(2) == 4;
    var blocks := [start + 5, start + 15, start + 35, late];
    assert VisitAll(Retry(0, start), []) == Retry(0, start);
    assert [start + 5, start + 15][..1] == [start + 5];
    assert [start + 5, start + 15, start + 35][..2] == [start + 5, start + 15];
    assert blocks[..3] == [start + 5, start + 15, start + 35];
  }
}
