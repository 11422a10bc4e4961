/** When a sponsorship goes through, what it costs, and how many a pool can pay for. */
module Sponsoring {
  import opened Arithmetic
  import opened Gateway
  import opened Ledger
  import opened Counting
  import opened Footprint

  /** The success condition in closed form, through every stage of pallet and gateway. */
  predicate CanSponsor(g: Storage, id: PoolId, chain: ParaId, callData: seq<Byte>) {
    && id in g.pools
    && g.pools[id].status == Active
    && chain in g.pools[id].config.allowedChains
    && chain in BASE_FEES
    && 1 <= |callData| <= 1024
    && BASE_FEES[chain] + 2 * |callData| <= g.pools[id].balance
  }

  /** A sponsorship succeeds exactly under that condition. Then one number is quoted over RPC,
      logged, allowed to the message, held by the tracker and taken from the pool, and nothing is
      written but that charge, the log record, the counter and the event; otherwise nothing at
      all changes. */
  lemma SponsorSucceedsIff(cfg: Config, s: State, origin: Origin, id: PoolId, chain: ParaId, callData: seq<Byte>,
                           withdrawable: bool)
    ensures var call := SponsorTransaction(id, chain, callData);
      var before := s.storage;
      var after := Dispatch(cfg, s, origin, call, withdrawable);
      var tx := before.nextTransactionId;
      && ((VerdictOf(cfg, s, origin, call, withdrawable) == Ok) <==>
            (origin.Signed? && CanSponsor(before, id, chain, callData)))
      && (VerdictOf(cfg, s, origin, call, withdrawable) != Ok ==> after == s)
      && (VerdictOf(cfg, s, origin, call, withdrawable) == Ok ==>
            var pool := before.pools[id];
            var fee := BASE_FEES[chain] + 2 * |callData|;
            var sent := Send(cfg.hash, s.block, id, origin.who, chain, callData, tx);
            && RpcEstimate(chain, callData) == fee
            && sent.Success?
            && sent.value.message.maxFee == fee
            && sent.value.pending.reservedFee == fee
            && sent.value.pending.callHash == cfg.hash(callData)
            && fee <= pool.balance
            && after == s.(storage := before.(
                 pools := before.pools[id := pool.(balance := pool.balance - fee, totalSpent := pool.totalSpent + fee)],
                 log := before.log[tx := TransactionRecord(
                   id := tx, poolId := id, user := origin.who, targetChain := chain, callHash := cfg.hash(callData),
                   gasCost := fee, status := TransactionStatus.Pending, timestamp := s.block)],
                 nextTransactionId := Min(tx + 1, 18_446_744_073_709_551_615),
                 events := before.events + [TransactionSponsored(tx, id, origin.who, chain, fee)])))
  {
    if origin.Signed? && id in s.storage.pools && Supported(chain) && Deliverable(callData) {
      DeliverableFee(chain, callData);
      SendOutcome(cfg.hash, s.block, id, origin.who, chain, callData, s.storage.nextTransactionId);
    }
  }

  /** From an accepted reconfiguration on, the new chain list is the one that decides: a call can
      be sponsored exactly if its chain is on it and everything but the old list allows it. */
  lemma UpdateDecidesChains(cfg: Config, s: State, who: AccountId, id: PoolId, newConfig: PoolConfig,
                            chain: ParaId, callData: seq<Byte>)
    requires id in s.storage.pools && s.storage.pools[id].owner == who
    ensures var after := Dispatch(cfg, s, Signed(who), UpdatePoolConfig(id, newConfig), true);
      CanSponsor(after.storage, id, chain, callData) <==>
        && chain in newConfig.allowedChains
        && s.storage.pools[id].status == Active
        && chain in BASE_FEES && 1 <= |callData| <= 1024
        && BASE_FEES[chain] + 2 * |callData| <= s.storage.pools[id].balance
  {
    UpdateSucceedsIff(cfg, s, Signed(who), id, newConfig, true);
  }

  /** A sponsorship does not narrow what the pool sponsors: any call that could be sponsored
      before still can, unless the balance no longer covers it. */
  lemma SponsoringLeavesChains(cfg: Config, s: State, origin: Origin, id: PoolId, chain: ParaId, callData: seq<Byte>,
                               other: PoolId, nextChain: ParaId, nextData: seq<Byte>)
    requires origin.Signed? && CanSponsor(s.storage, id, chain, callData)
    requires CanSponsor(s.storage, other, nextChain, nextData)
    ensures var after := Dispatch(cfg, s, origin, SponsorTransaction(id, chain, callData), true);
      && other in after.storage.pools
      && (CanSponsor(after.storage, other, nextChain, nextData) <==>
            BASE_FEES[nextChain] + 2 * |nextData| <= after.storage.pools[other].balance)
  {
    SponsorSucceedsIff(cfg, s, origin, id, chain, callData, true);
  }

  // ---- Budgets ---------------------------------------------------------------------------

  predicate SponsorsFrom(cfg: Config, s: State, step: Step, id: PoolId) {
    Sponsors(cfg, s, step) && step.call.poolId == id
  }

  predicate Funds(cfg: Config, s: State, step: Step, id: PoolId) {
    Succeeds(cfg, s, step) && step.call.FundPool? && step.call.poolId == id
  }

  /** A creation under an id in use, which only a stuck counter hands out. */
  predicate Replaces(cfg: Config, s: State, step: Step, id: PoolId) {
    Creates(cfg, s, step) && s.storage.nextPoolId == id
  }

  /** How many sponsorships a run takes from a pool, and what its fundings add up to. */
  ghost function SponsorCount(cfg: Config, s: State, steps: seq<Step>, id: PoolId): nat {
    if steps == [] then 0
    else
      var front := steps[..|steps| - 1];
      SponsorCount(cfg, s, front, id) + if SponsorsFrom(cfg, Run(cfg, s, front), steps[|steps| - 1], id) then 1 else 0
  }

  ghost function AllFunded(cfg: Config, s: State, steps: seq<Step>, id: PoolId): nat {
    if steps == [] then 0
    else
      var front, last := steps[..|steps| - 1], steps[|steps| - 1];
      AllFunded(cfg, s, front, id) + if Funds(cfg, Run(cfg, s, front), last, id) then last.call.amount else 0
  }

  /** No step of a run creates a new pool in the place of this one. */
  ghost predicate NeverReplaced(cfg: Config, s: State, steps: seq<Step>, id: PoolId) {
    forall n :: 0 <= n < |steps| ==> !Replaces(cfg, Run(cfg, s, steps[..n]), steps[n], id)
  }

  /** The law of one step for the balance of a pool: it is set to the deposit of a creation that
      takes its place, grows by a funding, falls by the fee of a sponsorship from it, and
      otherwise stays. */
  lemma StepSpends(cfg: Config, s: State, step: Step, id: PoolId)
    requires id in s.storage.pools
    ensures var before := s.storage.pools[id].balance;
      && id in Next(cfg, s, step).storage.pools
      && var after := Next(cfg, s, step).storage.pools[id].balance;
      if Replaces(cfg, s, step, id) then after == step.call.deposit
      else if Funds(cfg, s, step, id) then after == before + step.call.amount
      else if SponsorsFrom(cfg, s, step, id) then MIN_FEE <= before - after <= MAX_FEE
      else after == before
  {
    if SponsorsFrom(cfg, s, step, id) {
      DeliverableFee(step.call.targetChain, step.call.callData);
    }
  }

  /** Over any run from any state, as long as no creation takes the pool's place, every
      sponsorship from it costs between 802 and 3248: a balance of B and fundings of F pay for
      at most (B + F) / 802 of them. */
  lemma {:induction false} BudgetBoundsSponsorships(cfg: Config, s: State, steps: seq<Step>, id: PoolId)
    requires id in s.storage.pools && NeverReplaced(cfg, s, steps, id)
    ensures var count := SponsorCount(cfg, s, steps, id);
      var budget := s.storage.pools[id].balance + AllFunded(cfg, s, steps, id);
      && id in Run(cfg, s, steps).storage.pools
      && var end := Run(cfg, s, steps).storage.pools[id].balance;
      && end + count * MIN_FEE <= budget <= end + count * MAX_FEE
      && count <= budget / MIN_FEE
  {
    if steps != [] {
      var front := steps[..|steps| - 1];
      assert NeverReplaced(cfg, s, front, id) by {
        forall n | 0 <= n < |front| ensures !Replaces(cfg, Run(cfg, s, front[..n]), front[n], id) {
          assert front[..n] == steps[..n];
        }
      }
      BudgetBoundsSponsorships(cfg, s, front, id);
      assert !Replaces(cfg, Run(cfg, s, steps[..|front|]), steps[|front|], id);
      StepSpends(cfg, Run(cfg, s, front), steps[|steps| - 1], id);
    }
  }

  /** The counter never goes back, so a pool below it is never replaced; the last pool is not
      replaced before the next creation. */
  lemma {:induction false} CounterNeverGoesBack(cfg: Config, s: State, steps: seq<Step>)
    requires s.storage.nextPoolId <= MAX_U32
    ensures s.storage.nextPoolId <= Run(cfg, s, steps).storage.nextPoolId <= MAX_U32
  {
    if steps != [] {
      CounterNeverGoesBack(cfg, s, steps[..|steps| - 1]);
    }
  }

  lemma PoolBelowCounterStays(cfg: Config, s: State, steps: seq<Step>, id: PoolId)
    requires id < s.storage.nextPoolId <= MAX_U32
    ensures NeverReplaced(cfg, s, steps, id)
  {
    forall n | 0 <= n < |steps| ensures !Replaces(cfg, Run(cfg, s, steps[..n]), steps[n], id) {
      CounterNeverGoesBack(cfg, s, steps[..n]);
    }
  }

  /** Over any run that does not fund the pool, with any configuration, balance / 802 of a pool
      below the counter falls by at least one with each sponsorship from it. */
  lemma UnfundedPoolRunsDry(cfg: Config, s: State, steps: seq<Step>, id: PoolId)
    requires id in s.storage.pools && id < s.storage.nextPoolId <= MAX_U32
    requires AllFunded(cfg, s, steps, id) == 0
    ensures var count := SponsorCount(cfg, s, steps, id);
      var start := s.storage.pools[id].balance;
      && id in Run(cfg, s, steps).storage.pools
      && id < Run(cfg, s, steps).storage.nextPoolId <= MAX_U32
      && var end := Run(cfg, s, steps).storage.pools[id].balance;
      && end + count * MIN_FEE <= start <= end + count * MAX_FEE
      && end / MIN_FEE + count <= start / MIN_FEE
  {
    PoolBelowCounterStays(cfg, s, steps, id);
    BudgetBoundsSponsorships(cfg, s, steps, id);
    CounterNeverGoesBack(cfg, s, steps);
  }

  /** The pool under the last id keeps to its budget until a creation succeeds while the counter
      is stuck, and that creation ends it: the new balance is the new deposit, whatever the old
      one was. */
  lemma LastPoolRunsDryUntilReplaced(cfg: Config, s: State, steps: seq<Step>, step: Step)
    requires MAX_U32 in s.storage.pools && s.storage.nextPoolId == MAX_U32
    requires forall n :: 0 <= n < |steps| ==> !Creates(cfg, Run(cfg, s, steps[..n]), steps[n])
    ensures var count := SponsorCount(cfg, s, steps, MAX_U32);
      var end := Run(cfg, s, steps);
      && MAX_U32 in end.storage.pools
      && end.storage.pools[MAX_U32].balance + count * MIN_FEE
           <= s.storage.pools[MAX_U32].balance + AllFunded(cfg, s, steps, MAX_U32)
           <= end.storage.pools[MAX_U32].balance + count * MAX_FEE
      && (Creates(cfg, end, step) ==>
            && MAX_U32 in Next(cfg, end, step).storage.pools
            && Next(cfg, end, step).storage.pools[MAX_U32].owner == step.origin.who
            && Next(cfg, end, step).storage.pools[MAX_U32].balance == step.call.deposit
            && Next(cfg, end, step).storage.nextPoolId == MAX_U32)
  {
    BudgetBoundsSponsorships(cfg, s, steps, MAX_U32);
    CounterNeverGoesBack(cfg, s, steps);
  }
}
