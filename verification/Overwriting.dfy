/** What runs lose in which ids run out. A saturated counter makes the next record overwrite
    the last one: this module gives the exact law of what that costs the books, for any
    configuration, first for one call and then over whole runs. */
module Overwriting {
  import opened Arithmetic
  import opened MapTotals
  import opened Currency
  import opened Gateway
  import opened Ledger
  import opened Solvency
  import opened Consistency
  import opened Counting

  // ---- Exactly what one reused id breaks -------------------------------------------------

  /** The spending a successful call would overwrite. */
  function SpendingOverwritten(g: Storage, call: Call): nat {
    if call.CreatePool? && g.nextPoolId in g.pools then g.pools[g.nextPoolId].totalSpent else 0
  }

  /** Creating a pool keeps the reserved funds and the pools in balance if and only if the
      next pool id was not in use, or the pool it overwrites held nothing. */
  lemma CreateConservesIff(cfg: Config, s: State, who: AccountId, deposit: nat, config: PoolConfig, withdrawable: bool)
    requires Conserved(s)
    requires Refusal(cfg, s, who, CreatePool(deposit, config), withdrawable) == Ok
    ensures Conserved(Effect(cfg, s, who, CreatePool(deposit, config), withdrawable)) <==>
      Overwritten(s.storage, CreatePool(deposit, config)) == 0
  {
    var g := s.storage;
    var after := Effect(cfg, s, who, CreatePool(deposit, config), withdrawable);
    if Overwritten(g, CreatePool(deposit, config)) == 0 {
      EffectConserves(cfg, s, who, CreatePool(deposit, config), withdrawable);
    } else {
      ReserveMoves(s.accounts, who, deposit);
      PutMovesTotals(g, after.storage, g.nextPoolId, after.storage.pools[g.nextPoolId]);
    }
  }

  /** Sponsoring a transaction keeps the log a full audit of the pools if and only if the
      next transaction id was not in use. */
  lemma SponsorAuditsIff(cfg: Config, s: State, who: AccountId, id: PoolId, chain: ParaId, callData: seq<Byte>)
    requires Audited(s.storage) && LogIntact(s.storage, s.block)
    requires Refusal(cfg, s, who, SponsorTransaction(id, chain, callData), true) == Ok
    ensures Audited(Effect(cfg, s, who, SponsorTransaction(id, chain, callData), true).storage)
       <==> s.storage.nextTransactionId !in s.storage.log
  {
    var g := s.storage;
    var tx := g.nextTransactionId;
    var after := Effect(cfg, s, who, SponsorTransaction(id, chain, callData), true).storage;
    if tx !in g.log {
      SponsorAudits(cfg, s, who, id, chain, callData);
    } else {
      assert RecordIntact(g, g.log[tx], tx, s.block);
      PutMovesTotals(g, after, id, after.pools[id]);
      TotalPut(g.log, tx, after.log[tx], Cost());
    }
  }

  /** Creating a pool keeps the log an audit of the pools if and only if the next pool id was
      not in use, or the pool it overwrites had spent nothing. */
  lemma CreateAuditsIff(cfg: Config, s: State, who: AccountId, deposit: nat, config: PoolConfig, withdrawable: bool)
    requires Audited(s.storage) && LogIntact(s.storage, s.block)
    requires Refusal(cfg, s, who, CreatePool(deposit, config), withdrawable) == Ok
    ensures Audited(Effect(cfg, s, who, CreatePool(deposit, config), withdrawable).storage) <==>
      SpendingOverwritten(s.storage, CreatePool(deposit, config)) == 0
  {
    var g := s.storage;
    var after := Effect(cfg, s, who, CreatePool(deposit, config), withdrawable).storage;
    PutMovesTotals(g, after, g.nextPoolId, after.pools[g.nextPoolId]);
    if g.nextPoolId !in g.pools {
      NoRecordNames(g, s.block, g.nextPoolId);
    }
  }

  // ---- Too many pools: money is lost and stays lost --------------------------------------

  /** What is reserved and no pool accounts for. */
  ghost function Lost(s: State): int {
    Total(s.accounts, ReservedPart()) - Total(s.storage.pools, Holding())
  }

  /** The holdings overwritten along a run. */
  ghost function AllOverwritten(cfg: Config, s: State, steps: seq<Step>): nat {
    if steps == [] then 0
    else
      var front, last := steps[..|steps| - 1], steps[|steps| - 1];
      AllOverwritten(cfg, s, front) +
      if Succeeds(cfg, Run(cfg, s, front), last) then Overwritten(Run(cfg, s, front).storage, last.call) else 0
  }

  lemma EffectLoses(cfg: Config, s: State, who: AccountId, call: Call, withdrawable: bool)
    requires Refusal(cfg, s, who, call, withdrawable) == Ok
    ensures Lost(Effect(cfg, s, who, call, withdrawable)) ==
      Lost(s) + Overwritten(s.storage, call)
  {
    var after := Effect(cfg, s, who, call, withdrawable);
    match call
    case CreatePool(deposit, _) =>
      ReserveMoves(s.accounts, who, deposit);
      PutMovesTotals(s.storage, after.storage, s.storage.nextPoolId, after.storage.pools[s.storage.nextPoolId]);
    case FundPool(id, amount) =>
      ReserveMoves(s.accounts, who, amount);
      PutMovesTotals(s.storage, after.storage, id, after.storage.pools[id]);
    case UpdatePoolConfig(id, _) => PutMovesTotals(s.storage, after.storage, id, after.storage.pools[id]);
    case SponsorTransaction(id, _, _) => PutMovesTotals(s.storage, after.storage, id, after.storage.pools[id]);
    case _ =>
  }

  /** The exact law of every step: nothing is lost but what is overwritten. */
  lemma NextLoses(cfg: Config, s: State, step: Step)
    ensures Lost(Next(cfg, s, step)) ==
      Lost(s) + if Succeeds(cfg, s, step) then Overwritten(s.storage, step.call) else 0
  {
    if Succeeds(cfg, s, step) {
      EffectLoses(cfg, s, step.origin.who, step.call, step.withdrawable);
    } else if step.FreeFundsMove? && MovesOnlyFree(s.accounts, step.accounts) {
      ReservedTotalIsPointwise(step.accounts, s.accounts);
    }
  }

  lemma {:induction false} RunLosesWhatItOverwrites(cfg: Config, s: State, steps: seq<Step>)
    requires Genesis(s)
    ensures Lost(Run(cfg, s, steps)) == AllOverwritten(cfg, s, steps)
  {
    if steps == [] {
      GenesisConsistent(cfg, s);
    } else {
      var front := steps[..|steps| - 1];
      RunLosesWhatItOverwrites(cfg, s, front);
      NextLoses(cfg, Run(cfg, s, front), steps[|steps| - 1]);
    }
  }

  lemma {:induction false} NothingOverwrittenConserves(cfg: Config, s: State, steps: seq<Step>)
    requires Genesis(s) && AllOverwritten(cfg, s, steps) == 0
    ensures Conserved(Run(cfg, s, steps))
  {
    if steps == [] {
      GenesisConsistent(cfg, s);
    } else {
      var front := steps[..|steps| - 1];
      NothingOverwrittenConserves(cfg, s, front);
      NextConserves(cfg, Run(cfg, s, front), steps[|steps| - 1]);
    }
  }

  /** Over any run of any configuration, reserved funds equal the pools at the end if and only
      if no pool that held anything was overwritten on the way. */
  lemma ConservedIffNothingOverwritten(cfg: Config, s: State, steps: seq<Step>)
    requires Genesis(s)
    ensures Conserved(Run(cfg, s, steps)) <==> AllOverwritten(cfg, s, steps) == 0
  {
    RunLosesWhatItOverwrites(cfg, s, steps);
    if AllOverwritten(cfg, s, steps) == 0 {
      NothingOverwrittenConserves(cfg, s, steps);
    }
  }

  /** Overwriting begins when the pool ids are used up, and with a positive minimum deposit
      it then always destroys a holding. */
  lemma {:induction false} OverwritingBeginsAfterTheLastId(cfg: Config, s: State, steps: seq<Step>)
    requires Genesis(s)
    ensures Creations(cfg, s, steps) <= POOL_IDS ==> AllOverwritten(cfg, s, steps) == 0
    ensures cfg.minPoolDeposit > 0 && Creations(cfg, s, steps) > POOL_IDS ==> AllOverwritten(cfg, s, steps) > 0
  {
    if steps != [] {
      OverwritingBeginsAfterTheLastId(cfg, s, steps[..|steps| - 1]);
      RunRecords(cfg, s, steps[..|steps| - 1]);
    }
  }

  /** So with a positive minimum deposit reserved funds equal the pools at the end of a run if
      and only if the run created no more pools than there are ids. */
  lemma ConservedIffFewPools(cfg: Config, s: State, steps: seq<Step>)
    requires Genesis(s) && cfg.minPoolDeposit > 0
    ensures Conserved(Run(cfg, s, steps)) <==> Creations(cfg, s, steps) <= POOL_IDS
  {
    ConservedIffNothingOverwritten(cfg, s, steps);
    OverwritingBeginsAfterTheLastId(cfg, s, steps);
  }

  // ---- Lost records and lost spending: the log stops being an audit ----------------------

  /** What pools have spent and no log record shows, in total and for one pool. */
  ghost function Unlogged(g: Storage): int {
    Total(g.pools, SpentPart()) - Total(g.log, Cost())
  }

  ghost function UnloggedOn(g: Storage, id: PoolId): int {
    (if id in g.pools then g.pools[id].totalSpent else 0) - Total(g.log, CostOn(id))
  }

  /** The record a successful call would overwrite, weighed: with `Cost()` its whole cost, with
      `CostOn(id)` its cost if it names that pool. */
  function Erased(g: Storage, call: Call, weight: TransactionRecord -> nat): nat {
    if call.SponsorTransaction? && g.nextTransactionId in g.log then weight(g.log[g.nextTransactionId]) else 0
  }

  /** The records and the spending overwritten along a run. */
  ghost function AllErased(cfg: Config, s: State, steps: seq<Step>, weight: TransactionRecord -> nat): nat {
    if steps == [] then 0
    else
      var front, last := steps[..|steps| - 1], steps[|steps| - 1];
      AllErased(cfg, s, front, weight) +
      if Succeeds(cfg, Run(cfg, s, front), last) then Erased(Run(cfg, s, front).storage, last.call, weight) else 0
  }

  ghost function AllSpendingOverwritten(cfg: Config, s: State, steps: seq<Step>): nat {
    if steps == [] then 0
    else
      var front, last := steps[..|steps| - 1], steps[|steps| - 1];
      AllSpendingOverwritten(cfg, s, front) +
      if Succeeds(cfg, Run(cfg, s, front), last) then SpendingOverwritten(Run(cfg, s, front).storage, last.call) else 0
  }

  /** The exact law of every call: what no record shows grows by the cost of the record it
      overwrites and falls by the spending it overwrites. */
  lemma EffectUnlogs(cfg: Config, s: State, who: AccountId, call: Call, withdrawable: bool)
    requires Refusal(cfg, s, who, call, withdrawable) == Ok
    ensures Unlogged(Effect(cfg, s, who, call, withdrawable).storage) ==
      Unlogged(s.storage) + Erased(s.storage, call, Cost()) - SpendingOverwritten(s.storage, call)
  {
    var after := Effect(cfg, s, who, call, withdrawable).storage;
    match call
    case CreatePool(_, _) => PutMovesTotals(s.storage, after, s.storage.nextPoolId, after.pools[s.storage.nextPoolId]);
    case FundPool(id, _) => PutMovesTotals(s.storage, after, id, after.pools[id]);
    case UpdatePoolConfig(id, _) => PutMovesTotals(s.storage, after, id, after.pools[id]);
    case SponsorTransaction(id, _, _) =>
      PutMovesTotals(s.storage, after, id, after.pools[id]);
      TotalPut(s.storage.log, s.storage.nextTransactionId, after.log[s.storage.nextTransactionId], Cost());
    case _ =>
  }

  lemma EffectUnlogsOn(cfg: Config, s: State, who: AccountId, call: Call, withdrawable: bool, id: PoolId)
    requires Refusal(cfg, s, who, call, withdrawable) == Ok
    ensures UnloggedOn(Effect(cfg, s, who, call, withdrawable).storage, id) ==
      UnloggedOn(s.storage, id) + Erased(s.storage, call, CostOn(id))
        - if id == s.storage.nextPoolId then SpendingOverwritten(s.storage, call) else 0
  {
    var after := Effect(cfg, s, who, call, withdrawable).storage;
    if call.SponsorTransaction? {
      TotalPut(s.storage.log, s.storage.nextTransactionId, after.log[s.storage.nextTransactionId], CostOn(id));
    }
  }

  lemma NextUnlogs(cfg: Config, s: State, step: Step, id: PoolId)
    ensures var erases := Succeeds(cfg, s, step);
      && Unlogged(Next(cfg, s, step).storage) == Unlogged(s.storage)
           + (if erases then Erased(s.storage, step.call, Cost()) else 0)
           - (if erases then SpendingOverwritten(s.storage, step.call) else 0)
      && UnloggedOn(Next(cfg, s, step).storage, id) == UnloggedOn(s.storage, id)
           + (if erases then Erased(s.storage, step.call, CostOn(id)) else 0)
           - (if erases && id == s.storage.nextPoolId then SpendingOverwritten(s.storage, step.call) else 0)
  {
    if Succeeds(cfg, s, step) {
      EffectUnlogs(cfg, s, step.origin.who, step.call, step.withdrawable);
      EffectUnlogsOn(cfg, s, step.origin.who, step.call, step.withdrawable, id);
    }
  }

  /** Over any run of any configuration, what no record shows is what overwritten records cost,
      less the spending overwritten. */
  lemma {:induction false} RunUnlogs(cfg: Config, s: State, steps: seq<Step>)
    requires Genesis(s)
    ensures Unlogged(Run(cfg, s, steps).storage) ==
      AllErased(cfg, s, steps, Cost()) - AllSpendingOverwritten(cfg, s, steps)
  {
    if steps == [] {
      GenesisConsistent(cfg, s);
    } else {
      var front, last := steps[..|steps| - 1], steps[|steps| - 1];
      RunUnlogs(cfg, s, front);
      NextUnlogs(cfg, Run(cfg, s, front), last, 0);
    }
  }

  /** The same pool by pool: all overwritten spending was under the last id. */
  lemma {:induction false} RunUnlogsOn(cfg: Config, s: State, steps: seq<Step>, id: PoolId)
    requires Genesis(s)
    ensures UnloggedOn(Run(cfg, s, steps).storage, id) ==
      AllErased(cfg, s, steps, CostOn(id)) - if id == MAX_U32 then AllSpendingOverwritten(cfg, s, steps) else 0
  {
    if steps == [] {
      GenesisConsistent(cfg, s);
    } else {
      var front, last := steps[..|steps| - 1], steps[|steps| - 1];
      RunUnlogsOn(cfg, s, front, id);
      RunRecords(cfg, s, front);
      NextUnlogs(cfg, Run(cfg, s, front), last, id);
    }
  }

  /** An overwritten record names a pool that still exists, so when none of them names a pool
      other than the last one, all their cost is that pool's. */
  lemma {:induction false} ErasedNamesPools(cfg: Config, s: State, steps: seq<Step>)
    requires Genesis(s)
    requires forall id: PoolId :: id != MAX_U32 ==> AllErased(cfg, s, steps, CostOn(id)) == 0
    ensures AllErased(cfg, s, steps, Cost()) == AllErased(cfg, s, steps, CostOn(MAX_U32))
  {
    if steps != [] {
      var front, last := steps[..|steps| - 1], steps[|steps| - 1];
      var g := Run(cfg, s, front).storage;
      forall id: PoolId | id != MAX_U32 ensures AllErased(cfg, s, front, CostOn(id)) == 0 {
        assert AllErased(cfg, s, steps, CostOn(id)) == 0;
      }
      ErasedNamesPools(cfg, s, front);
      if Succeeds(cfg, Run(cfg, s, front), last) && last.call.SponsorTransaction? && g.nextTransactionId in g.log {
        var named := g.log[g.nextTransactionId].poolId;
        assert named != MAX_U32 ==> AllErased(cfg, s, steps, CostOn(named)) == 0;
      }
    }
  }

  /** Over any run of any configuration, the log is a full audit of the pools at the end if and
      only if every overwritten record named the last pool id and their costs add up to the
      spending overwritten under it. */
  lemma AuditedIffLossesCancel(cfg: Config, s: State, steps: seq<Step>)
    requires Genesis(s)
    ensures Audited(Run(cfg, s, steps).storage) <==>
      forall id: PoolId :: AllErased(cfg, s, steps, CostOn(id)) ==
        if id == MAX_U32 then AllSpendingOverwritten(cfg, s, steps) else 0
  {
    var end := Run(cfg, s, steps);
    forall id: PoolId
      ensures UnloggedOn(end.storage, id) ==
        AllErased(cfg, s, steps, CostOn(id)) - if id == MAX_U32 then AllSpendingOverwritten(cfg, s, steps) else 0
      ensures id !in end.storage.pools ==> UnloggedOn(end.storage, id) == 0
    {
      RunUnlogsOn(cfg, s, steps, id);
      EveryLogIntact(cfg, s, steps);
      if id !in end.storage.pools {
        NoRecordNames(end.storage, end.block, id);
      }
    }
    if forall id: PoolId :: AllErased(cfg, s, steps, CostOn(id)) ==
         if id == MAX_U32 then AllSpendingOverwritten(cfg, s, steps) else 0 {
      ErasedNamesPools(cfg, s, steps);
      RunUnlogs(cfg, s, steps);
      assert forall id :: id in end.storage.pools ==> UnloggedOn(end.storage, id) == 0;
    } else {
      var id: PoolId :| AllErased(cfg, s, steps, CostOn(id)) !=
        if id == MAX_U32 then AllSpendingOverwritten(cfg, s, steps) else 0;
      assert UnloggedOn(end.storage, id) != 0;
    }
  }

  /** Records are overwritten when the transaction ids are used up, and spending only when the
      pool ids are. */
  lemma {:induction false} ErasingBeginsAfterTheLastId(cfg: Config, s: State, steps: seq<Step>)
    requires Genesis(s)
    ensures Sponsorships(cfg, s, steps) <= TRANSACTION_IDS ==>
      forall weight :: AllErased(cfg, s, steps, weight) == 0
    ensures Sponsorships(cfg, s, steps) > TRANSACTION_IDS ==> AllErased(cfg, s, steps, Cost()) > 0
    ensures Creations(cfg, s, steps) <= POOL_IDS ==> AllSpendingOverwritten(cfg, s, steps) == 0
  {
    if steps != [] {
      ErasingBeginsAfterTheLastId(cfg, s, steps[..|steps| - 1]);
      RunRecords(cfg, s, steps[..|steps| - 1]);
    }
  }

  /** While the transaction ids last, the log is a full audit at the end of a run if and only if
      no pool that had spent anything was overwritten. */
  lemma AuditedIffNoSpendingOverwritten(cfg: Config, s: State, steps: seq<Step>)
    requires Genesis(s) && Sponsorships(cfg, s, steps) <= TRANSACTION_IDS
    ensures Audited(Run(cfg, s, steps).storage) <==> AllSpendingOverwritten(cfg, s, steps) == 0
  {
    AuditedIffLossesCancel(cfg, s, steps);
    ErasingBeginsAfterTheLastId(cfg, s, steps);
    assert AllErased(cfg, s, steps, CostOn(MAX_U32)) == 0;
  }

  /** While the pool ids last, the log is a full audit at the end of a run if and only if the run
      sponsored no more transactions than there are ids. */
  lemma AuditedIffFewTransactions(cfg: Config, s: State, steps: seq<Step>)
    requires Genesis(s) && Creations(cfg, s, steps) <= POOL_IDS
    ensures Audited(Run(cfg, s, steps).storage) <==> Sponsorships(cfg, s, steps) <= TRANSACTION_IDS
  {
    ErasingBeginsAfterTheLastId(cfg, s, steps);
    if Sponsorships(cfg, s, steps) <= TRANSACTION_IDS {
      AuditedIffNoSpendingOverwritten(cfg, s, steps);
    } else {
      RunUnlogs(cfg, s, steps);
    }
  }
}
