/** Runs from genesis that do use up the ids, and what each of them breaks. They need nothing
    but accounts that can afford them. */
module Exhaustion {
  import opened Arithmetic
  import opened Currency
  import opened Gateway
  import opened Ledger
  import opened Consistency
  import opened Counting
  import opened Overwriting
  import opened Ownership

  const OPEN := PoolConfig(0, 0, [2006], false)

  function Create(who: AccountId, deposit: nat): Step {
    Extrinsic(Signed(who), CreatePool(deposit, OPEN), true)
  }

  /** The cheapest sponsorship from a pool. */
  function Sponsor(id: PoolId): Step {
    Extrinsic(Signed(0), SponsorTransaction(id, 2006, [0]), true)
  }

  function CreateSteps(n: nat, deposit: nat): seq<Step> {
    seq(n, i => Create(0, deposit))
  }

  /** One pool, and then `n` sponsorships from it. */
  function OpenAndSponsor(n: nat, deposit: nat): seq<Step> {
    seq(n + 1, i => if i == 0 then Create(0, deposit) else Sponsor(0))
  }

  lemma OneCreation(cfg: Config, s: State, who: AccountId, deposit: nat)
    requires cfg.minPoolDeposit <= deposit <= AccountOf(s.accounts, who).free
    ensures var after := Next(cfg, s, Create(who, deposit));
      && Creates(cfg, s, Create(who, deposit))
      && AccountOf(after.accounts, who).free + deposit == AccountOf(s.accounts, who).free
      && (forall a :: a != who ==> AccountOf(after.accounts, a) == AccountOf(s.accounts, a))
      && after.block == s.block
      && after.storage.pools ==
           s.storage.pools[s.storage.nextPoolId := PoolInfo(who, deposit, 0, s.block, OPEN, Active)]
  {
  }

  /** An account that can afford `n` deposits creates `n` pools, each successfully. */
  lemma {:induction false} ManyCreations(cfg: Config, s: State, n: nat, deposit: nat)
    requires Genesis(s) && cfg.minPoolDeposit <= deposit && n * deposit <= AccountOf(s.accounts, 0).free
    ensures var steps := CreateSteps(n, deposit);
      var end := Run(cfg, s, steps);
      && Creations(cfg, s, steps) == n && Sponsorships(cfg, s, steps) == 0
      && AccountOf(end.accounts, 0).free + n * deposit == AccountOf(s.accounts, 0).free
      && (forall a :: a != 0 ==> AccountOf(end.accounts, a) == AccountOf(s.accounts, a))
      && end.block == s.block
      && (forall id :: id in end.storage.pools ==>
            end.storage.pools[id] == PoolInfo(0, deposit, 0, s.block, OPEN, Active))
  {
    if n > 0 {
      var steps, front := CreateSteps(n, deposit), CreateSteps(n - 1, deposit);
      assert n * deposit == (n - 1) * deposit + deposit;
      ManyCreations(cfg, s, n - 1, deposit);
      assert steps[..|steps| - 1] == front && steps[|steps| - 1] == Create(0, deposit);
      OneCreation(cfg, Run(cfg, s, front), 0, deposit);
    }
  }

  /** After 2^32 creations the next id is taken, by the last pool. */
  lemma IdsUsedUp(cfg: Config, s: State, deposit: nat)
    requires Genesis(s) && cfg.minPoolDeposit <= deposit && POOL_IDS * deposit <= AccountOf(s.accounts, 0).free
    ensures var end := Run(cfg, s, CreateSteps(POOL_IDS, deposit));
      && end.storage.nextPoolId == MAX_U32 && MAX_U32 in end.storage.pools
      && end.storage.pools[MAX_U32] == PoolInfo(0, deposit, 0, s.block, OPEN, Active)
  {
    ManyCreations(cfg, s, POOL_IDS, deposit);
    RunRecords(cfg, s, CreateSteps(POOL_IDS, deposit));
  }

  /** An account that can afford 2^32 + 1 minimum deposits loses money to the counter. */
  lemma CheapPoolsLoseMoney(cfg: Config, s: State)
    requires Genesis(s) && cfg.minPoolDeposit > 0
    requires (POOL_IDS + 1) * cfg.minPoolDeposit <= AccountOf(s.accounts, 0).free
    ensures !Conserved(Run(cfg, s, CreateSteps(POOL_IDS + 1, cfg.minPoolDeposit)))
  {
    ManyCreations(cfg, s, POOL_IDS + 1, cfg.minPoolDeposit);
    ConservedIffFewPools(cfg, s, CreateSteps(POOL_IDS + 1, cfg.minPoolDeposit));
  }

  /** The owner of 2^32 pools stays indexed as the owner of the last one when the next account
      that creates a pool takes it over. */
  lemma TakenOverPoolStaysIndexed(cfg: Config, s: State)
    requires Genesis(s)
    requires POOL_IDS * cfg.minPoolDeposit <= AccountOf(s.accounts, 0).free
    requires cfg.minPoolDeposit <= AccountOf(s.accounts, 1).free
    ensures var steps := CreateSteps(POOL_IDS, cfg.minPoolDeposit) + [Create(1, cfg.minPoolDeposit)];
      var g := Run(cfg, s, steps).storage;
      && Reownings(cfg, s, steps) > 0 && !OwnersIndexed(g)
      && MAX_U32 in g.pools && g.pools[MAX_U32].owner == 1 && (0, MAX_U32) in g.poolOwners
  {
    var front := CreateSteps(POOL_IDS, cfg.minPoolDeposit);
    var steps := front + [Create(1, cfg.minPoolDeposit)];
    ManyCreations(cfg, s, POOL_IDS, cfg.minPoolDeposit);
    IdsUsedUp(cfg, s, cfg.minPoolDeposit);
    OwnersIndexedIffNoneReowned(cfg, s, front);
    assert steps[..|steps| - 1] == front && steps[|steps| - 1] == Create(1, cfg.minPoolDeposit);
    OneCreation(cfg, Run(cfg, s, front), 1, cfg.minPoolDeposit);
    OwnersIndexedIffNoneReowned(cfg, s, steps);
  }

  lemma OneSponsorship(cfg: Config, s: State, id: PoolId)
    requires id in s.storage.pools && s.storage.pools[id].status == Active && s.storage.pools[id].config == OPEN
    requires MIN_FEE <= s.storage.pools[id].balance
    ensures var before := s.storage.pools[id];
      var after := Next(cfg, s, Sponsor(id));
      && Sponsors(cfg, s, Sponsor(id))
      && after.storage.pools == s.storage.pools[id :=
           before.(balance := before.balance - MIN_FEE, totalSpent := before.totalSpent + MIN_FEE)]
      && after.storage.nextPoolId == s.storage.nextPoolId && after.accounts == s.accounts
  {
    assert EstimateFee(2006, [0]) == Success(MIN_FEE);
  }

  /** A sponsorship from the last pool is lost to the audit when the next creation takes the
      pool's place. */
  lemma TakenOverPoolLosesSpending(cfg: Config, s: State, deposit: nat)
    requires Genesis(s) && cfg.minPoolDeposit <= deposit && MIN_FEE <= deposit
    requires (POOL_IDS + 1) * deposit <= AccountOf(s.accounts, 0).free
    ensures !Audited(Run(cfg, s, CreateSteps(POOL_IDS, deposit) + [Sponsor(MAX_U32), Create(0, deposit)]).storage)
  {
    var made := CreateSteps(POOL_IDS, deposit);
    var used := made + [Sponsor(MAX_U32)];
    var steps := made + [Sponsor(MAX_U32), Create(0, deposit)];
    assert (POOL_IDS + 1) * deposit == POOL_IDS * deposit + deposit;
    ManyCreations(cfg, s, POOL_IDS, deposit);
    IdsUsedUp(cfg, s, deposit);
    assert used[..|used| - 1] == made && used[|used| - 1] == Sponsor(MAX_U32);
    OneSponsorship(cfg, Run(cfg, s, made), MAX_U32);
    assert steps[..|steps| - 1] == used && steps[|steps| - 1] == Create(0, deposit);
    OneCreation(cfg, Run(cfg, s, used), 0, deposit);
    AuditedIffNoSpendingOverwritten(cfg, s, steps);
  }

  /** A pool that can pay for `n` of the cheapest calls sponsors `n` of them. */
  lemma {:induction false} ManySponsorships(cfg: Config, s: State, n: nat, deposit: nat)
    requires Genesis(s) && cfg.minPoolDeposit <= deposit <= AccountOf(s.accounts, 0).free
    requires n * MIN_FEE <= deposit
    ensures var steps := OpenAndSponsor(n, deposit);
      && Creations(cfg, s, steps) == 1 && Sponsorships(cfg, s, steps) == n
      && 0 in Run(cfg, s, steps).storage.pools
      && var pool := Run(cfg, s, steps).storage.pools[0];
      && pool.status == Active && pool.config == OPEN && pool.balance == deposit - n * MIN_FEE
  {
    var steps := OpenAndSponsor(n, deposit);
    if n == 0 {
      assert steps == [Create(0, deposit)] && steps[..0] == [];
      assert Run(cfg, s, []) == s && Creations(cfg, s, []) == 0 && Sponsorships(cfg, s, []) == 0;
      OneCreation(cfg, s, 0, deposit);
    } else {
      var front := OpenAndSponsor(n - 1, deposit);
      ManySponsorships(cfg, s, n - 1, deposit);
      assert steps[..|steps| - 1] == front && steps[|steps| - 1] == Sponsor(0);
      OneSponsorship(cfg, Run(cfg, s, front), 0);
    }
  }

  /** An account that can fund 2^64 + 1 of the cheapest calls outlives the transaction ids: a
      run from genesis ends with spending that the log no longer shows. */
  lemma CheapTransactionsLoseRecords(cfg: Config, s: State, deposit: nat)
    requires Genesis(s) && cfg.minPoolDeposit <= deposit <= AccountOf(s.accounts, 0).free
    requires (TRANSACTION_IDS + 1) * MIN_FEE <= deposit
    ensures !Audited(Run(cfg, s, OpenAndSponsor(TRANSACTION_IDS + 1, deposit)).storage)
  {
    ManySponsorships(cfg, s, TRANSACTION_IDS + 1, deposit);
    AuditedIffFewTransactions(cfg, s, OpenAndSponsor(TRANSACTION_IDS + 1, deposit));
  }
}
