/** Ids cost money. Every id handed out is paid for into reserved funds, and nothing takes those
    back, so a chain whose issuance cannot pay for all ids never gets a counter stuck and keeps
    everything that module `Counting` promises to runs with few ids. */
module Freshness {
  import opened Arithmetic
  import opened MapTotals
  import opened Currency
  import opened Gateway
  import opened Ledger
  import opened Solvency
  import opened Consistency
  import opened Counting
  import opened Overwriting
  import opened Replay

  /** The whole issuance cannot pay for all ids of either counter. */
  predicate IdsOutlastMoney(cfg: Config, issuance: nat) {
    && issuance < MIN_FEE * MAX_U64
    && issuance < cfg.minPoolDeposit * MAX_U32
  }

  /** The next ids are unused and neither counter is about to stick. */
  ghost predicate IdsFresh(g: Storage) {
    && g.nextPoolId < MAX_U32 && g.nextPoolId !in g.pools
    && g.nextTransactionId < MAX_U64 && g.nextTransactionId !in g.log
  }

  /** The chain of bounds from the ids of a consistent state to money. */
  lemma IdsAreBacked(cfg: Config, s: State)
    requires Consistent(cfg, s)
    ensures s.storage.nextTransactionId * MIN_FEE
         <= Total(s.storage.pools, SpentPart())
         <= Total(s.accounts, ReservedPart())
         <= Issuance(s.accounts)
    ensures s.storage.nextPoolId * cfg.minPoolDeposit <= Total(s.accounts, ReservedPart())
  {
    TotalMonotone(s.storage.pools, SpentPart(), Holding());
    HoldingsWithinIssuance(s.accounts, 0);
  }

  /** Money runs out before either counter reaches its maximum, so the next ids are unused. */
  lemma CountersStayBelowMaximum(cfg: Config, s: State)
    requires Consistent(cfg, s) && IdsOutlastMoney(cfg, Issuance(s.accounts))
    ensures IdsFresh(s.storage)
  {
    IdsAreBacked(cfg, s);
    if s.storage.nextPoolId >= MAX_U32 {
      MulMonotone(MAX_U32, s.storage.nextPoolId, cfg.minPoolDeposit);
    }
    assert Contiguous(s.storage.pools, s.storage.nextPoolId, MAX_U32);
    assert Contiguous(s.storage.log, s.storage.nextTransactionId, MAX_U64);
  }

  /** So from any consistent state on, a run stays consistent as long as its issuance, whatever is
      burnt or minted, could never pay for all ids. */
  lemma {:induction false} RunKeepsConsistent(cfg: Config, s: State, steps: seq<Step>)
    requires Consistent(cfg, s)
    requires forall n :: 0 <= n <= |steps| ==> IdsOutlastMoney(cfg, Issuance(Run(cfg, s, steps[..n]).accounts))
    ensures Consistent(cfg, Run(cfg, s, steps)) && IdsFresh(Run(cfg, s, steps).storage)
  {
    assert steps[..|steps|] == steps;
    if steps != [] {
      var front := steps[..|steps| - 1];
      forall n | 0 <= n <= |front| ensures IdsOutlastMoney(cfg, Issuance(Run(cfg, s, front[..n]).accounts)) {
        assert front[..n] == steps[..n];
      }
      RunKeepsConsistent(cfg, s, front);
      NextKeepsConsistent(cfg, Run(cfg, s, front), steps[|steps| - 1]);
    }
    CountersStayBelowMaximum(cfg, Run(cfg, s, steps));
  }

  // ---- What every run has paid for its ids -----------------------------------------------

  /** The reserved total never falls, and grows by each deposit. */
  lemma NextReserves(cfg: Config, s: State, step: Step)
    ensures Total(Next(cfg, s, step).accounts, ReservedPart()) >=
      Total(s.accounts, ReservedPart()) + if Creates(cfg, s, step) then cfg.minPoolDeposit else 0
  {
    if Succeeds(cfg, s, step) {
      match step.call
      case CreatePool(deposit, _) => ReserveMoves(s.accounts, step.origin.who, deposit);
      case FundPool(_, amount) => ReserveMoves(s.accounts, step.origin.who, amount);
      case _ =>
    } else if step.FreeFundsMove? && MovesOnlyFree(s.accounts, step.accounts) {
      ReservedTotalIsPointwise(step.accounts, s.accounts);
    }
  }

  /** What pools ever spent, overwritten spending included, never falls, and grows by each fee. */
  lemma EffectSpends(cfg: Config, s: State, who: AccountId, call: Call, withdrawable: bool)
    requires Refusal(cfg, s, who, call, withdrawable) == Ok
    ensures Total(Effect(cfg, s, who, call, withdrawable).storage.pools, SpentPart())
        + SpendingOverwritten(s.storage, call)
      >= Total(s.storage.pools, SpentPart()) + if call.SponsorTransaction? then MIN_FEE else 0
  {
    var after := Effect(cfg, s, who, call, withdrawable).storage;
    match call
    case CreatePool(_, _) => PutMovesTotals(s.storage, after, s.storage.nextPoolId, after.pools[s.storage.nextPoolId]);
    case FundPool(id, _) => PutMovesTotals(s.storage, after, id, after.pools[id]);
    case UpdatePoolConfig(id, _) => PutMovesTotals(s.storage, after, id, after.pools[id]);
    case SponsorTransaction(id, chain, callData) =>
      DeliverableFee(chain, callData);
      PutMovesTotals(s.storage, after, id, after.pools[id]);
    case _ =>
  }

  lemma {:induction false} RunPays(cfg: Config, s: State, steps: seq<Step>)
    requires Genesis(s)
    ensures Creations(cfg, s, steps) * cfg.minPoolDeposit <= Total(Run(cfg, s, steps).accounts, ReservedPart())
    ensures Sponsorships(cfg, s, steps) * MIN_FEE <=
      Total(Run(cfg, s, steps).storage.pools, SpentPart()) + AllSpendingOverwritten(cfg, s, steps)
    ensures AllSpendingOverwritten(cfg, s, steps) <= AllOverwritten(cfg, s, steps)
  {
    if steps != [] {
      var front, last := steps[..|steps| - 1], steps[|steps| - 1];
      RunPays(cfg, s, front);
      NextReserves(cfg, Run(cfg, s, front), last);
      if Succeeds(cfg, Run(cfg, s, front), last) {
        EffectSpends(cfg, Run(cfg, s, front), last.origin.who, last.call, last.withdrawable);
      }
      OneMore(Creations(cfg, s, steps), Creations(cfg, s, front), cfg.minPoolDeposit);
    }
  }

  /** In every run of every configuration, even when records were overwritten, the reserved funds
      have paid the minimum deposit for each creation, and at least 802 for each sponsorship. */
  lemma EveryIdIsPaidFor(cfg: Config, s: State, steps: seq<Step>)
    requires Genesis(s)
    ensures var end := Run(cfg, s, steps);
      && Creations(cfg, s, steps) * cfg.minPoolDeposit <= Total(end.accounts, ReservedPart()) <= Issuance(end.accounts)
      && Sponsorships(cfg, s, steps) * MIN_FEE <= Total(end.accounts, ReservedPart())
  {
    RunPays(cfg, s, steps);
    RunLosesWhatItOverwrites(cfg, s, steps);
    TotalMonotone(Run(cfg, s, steps).storage.pools, SpentPart(), Holding());
    HoldingsWithinIssuance(Run(cfg, s, steps).accounts, 0);
  }

  /** So an issuance that cannot pay for all ids means few ids. */
  lemma MoneyBoundsIds(cfg: Config, s: State, steps: seq<Step>)
    requires Genesis(s) && IdsOutlastMoney(cfg, Issuance(Run(cfg, s, steps).accounts))
    ensures Creations(cfg, s, steps) < MAX_U32 && Sponsorships(cfg, s, steps) < MAX_U64
  {
    EveryIdIsPaidFor(cfg, s, steps);
    if Creations(cfg, s, steps) >= MAX_U32 {
      MulMonotone(MAX_U32, Creations(cfg, s, steps), cfg.minPoolDeposit);
    }
  }

  // ---- What an issuance that ids outlast guarantees --------------------------------------

  /** With an issuance that ids outlast, the state at the end of a run is consistent, both
      counters are below their maximum and both next ids are unused. The issuance meant is the
      one at that point, whatever was burnt or minted on the way. */
  lemma EveryRunConsistent(cfg: Config, s: State, steps: seq<Step>)
    requires Genesis(s) && IdsOutlastMoney(cfg, Issuance(Run(cfg, s, steps).accounts))
    ensures Consistent(cfg, Run(cfg, s, steps)) && IdsFresh(Run(cfg, s, steps).storage)
  {
    MoneyBoundsIds(cfg, s, steps);
    FewIdsKeepConsistent(cfg, s, steps);
    CountersStayBelowMaximum(cfg, Run(cfg, s, steps));
  }

  /** Then the counters have counted every creation and every sponsorship, and everything
      recorded at any earlier point of the run still stands. */
  lemma EveryRunCountsAndExtends(cfg: Config, s: State, steps: seq<Step>, early: nat)
    requires Genesis(s) && IdsOutlastMoney(cfg, Issuance(Run(cfg, s, steps).accounts)) && early <= |steps|
    ensures Run(cfg, s, steps).storage.nextPoolId == Creations(cfg, s, steps)
    ensures Run(cfg, s, steps).storage.nextTransactionId == Sponsorships(cfg, s, steps)
    ensures Extends(Run(cfg, s, steps[..early]).storage, Run(cfg, s, steps).storage, POOL_IDS, TRANSACTION_IDS)
  {
    MoneyBoundsIds(cfg, s, steps);
    RunRecords(cfg, s, steps);
    FewIdsExtend(cfg, s, steps, early);
  }

  /** And the log and the payments audit each pool. */
  lemma EveryRunAudits(cfg: Config, s: State, steps: seq<Step>, id: PoolId)
    requires Genesis(s) && IdsOutlastMoney(cfg, Issuance(Run(cfg, s, steps).accounts))
    requires id in Run(cfg, s, steps).storage.pools
    ensures var g := Run(cfg, s, steps).storage;
      && g.pools[id].totalSpent == Total(g.log, CostOn(id))
      && g.pools[id].balance == AllPaidIn(g.events, id) - Total(g.log, CostOn(id))
  {
    MoneyBoundsIds(cfg, s, steps);
    PoolsAreAudited(cfg, s, steps, id);
  }

  /** The deployed constants satisfy the bound: a minimum deposit of 100 units of 10^12, and
      twelve endowed accounts of 2^60 each. */
  lemma DeployedIdsOutlastMoney(cfg: Config)
    requires cfg.minPoolDeposit == 100 * 1_000_000_000_000
    ensures IdsOutlastMoney(cfg, 12 * Pow2(60))
  {
    Pow2Values();
  }

  /** On such a chain, as long as nothing else mints, every state of every run is consistent and
      its next ids are unused. */
  lemma EveryDeployedRunConsistent(cfg: Config, s: State, steps: seq<Step>)
    requires Genesis(s) && IdsOutlastMoney(cfg, Issuance(s.accounts))
    requires forall n :: 0 <= n < |steps| ==> !Mints(Run(cfg, s, steps[..n]), steps[n])
    ensures Consistent(cfg, Run(cfg, s, steps)) && IdsFresh(Run(cfg, s, steps).storage)
  {
    IssuanceNeverRises(cfg, s, steps);
    EveryRunConsistent(cfg, s, steps);
  }
}
