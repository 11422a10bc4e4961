/** The part of the pallet's invariant that needs no assumption about ids: no owner's pools
    ever account for more than the currency holds reserved for that owner. It is what makes
    every saturating operation on a pool exact. */
module Solvency {
  import opened Arithmetic
  import opened MapTotals
  import opened Currency
  import opened Gateway
  import opened Ledger

  /** What a pool accounts for, and the same restricted to one owner. */
  function Holding(): PoolInfo -> nat { (p: PoolInfo) => p.balance + p.totalSpent }

  function HoldingOf(a: AccountId): PoolInfo -> nat {
    (p: PoolInfo) => if p.owner == a then p.balance + p.totalSpent else 0
  }

  ghost function Held(g: Storage, a: AccountId): nat {
    Total(g.pools, HoldingOf(a))
  }

  ghost predicate Solvent(s: State) {
    && Issuance(s.accounts) <= MAX_U128
    && s.storage.nextPoolId <= MAX_U32
    && s.storage.nextTransactionId <= MAX_U64
    && forall a :: Held(s.storage, a) <= AccountOf(s.accounts, a).reserved
  }

  /** In a solvent state a pool, its owner's free funds included, fits the balance type. */
  lemma PoolFitsIssuance(s: State, id: PoolId)
    requires Solvent(s) && id in s.storage.pools
    ensures var p := s.storage.pools[id];
      p.balance + p.totalSpent + AccountOf(s.accounts, p.owner).free <= Issuance(s.accounts) <= MAX_U128
  {
    var p := s.storage.pools[id];
    TotalMember(s.storage.pools, id, HoldingOf(p.owner));
    HoldingsWithinIssuance(s.accounts, p.owner);
    assert Held(s.storage, p.owner) <= AccountOf(s.accounts, p.owner).reserved;
  }

  /** Exactness: whatever a call adds to or takes from a pool field, the saturating
      operation of the code and the exact one agree. */
  lemma SaturationNeverBites(s: State, id: PoolId, amount: nat, fee: nat)
    requires Solvent(s) && id in s.storage.pools
    requires amount <= AccountOf(s.accounts, s.storage.pools[id].owner).free
    requires fee <= s.storage.pools[id].balance
    ensures var p := s.storage.pools[id];
      && SaturatingAdd(p.balance, amount, MAX_U128) == p.balance + amount
      && SaturatingSub(p.balance, fee) == p.balance - fee
      && SaturatingAdd(p.totalSpent, fee, MAX_U128) == p.totalSpent + fee
  {
    PoolFitsIssuance(s, id);
  }

  /** Overwriting one pool record moves the holding of each account by the two weights. */
  lemma HeldAfterPut(g: Storage, after: Storage, id: PoolId, p: PoolInfo, a: AccountId)
    requires after.pools == g.pools[id := p]
    ensures Held(after, a) + (if id in g.pools then HoldingOf(a)(g.pools[id]) else 0) == Held(g, a) + HoldingOf(a)(p)
  {
    TotalPut(g.pools, id, p, HoldingOf(a));
  }

  /** Nothing but `paid` more is reserved, and that for one account. */
  ghost predicate OnlyReservesMore(before: Accounts, after: Accounts, who: AccountId, paid: nat) {
    && AccountOf(after, who).reserved == AccountOf(before, who).reserved + paid
    && forall other :: other != who ==> AccountOf(after, other).reserved == AccountOf(before, other).reserved
  }

  /** A pool write stays covered when what its owner's holding gains has been reserved. */
  lemma PutStaysCovered(s: State, after: State, id: PoolId, p: PoolInfo, paid: nat)
    requires Solvent(s) && after.storage.pools == s.storage.pools[id := p]
    requires OnlyReservesMore(s.accounts, after.accounts, p.owner, paid)
    requires p.balance + p.totalSpent <=
      paid + if id in s.storage.pools then HoldingOf(p.owner)(s.storage.pools[id]) else 0
    ensures forall a :: Held(after.storage, a) <= AccountOf(after.accounts, a).reserved
  {
    forall a ensures Held(after.storage, a) <= AccountOf(after.accounts, a).reserved {
      HeldAfterPut(s.storage, after.storage, id, p, a);
      assert Held(s.storage, a) <= AccountOf(s.accounts, a).reserved;
    }
  }

  lemma EffectKeepsSolvent(cfg: Config, s: State, who: AccountId, call: Call, withdrawable: bool)
    requires Solvent(s) && Refusal(cfg, s, who, call, withdrawable) == Ok
    ensures Solvent(Effect(cfg, s, who, call, withdrawable))
    ensures Issuance(Effect(cfg, s, who, call, withdrawable).accounts) == Issuance(s.accounts)
  {
    var after := Effect(cfg, s, who, call, withdrawable);
    match call
    case CreatePool(deposit, _) =>
      ReserveMoves(s.accounts, who, deposit);
      PutStaysCovered(s, after, s.storage.nextPoolId, after.storage.pools[s.storage.nextPoolId], deposit);
    case FundPool(id, amount) =>
      ReserveMoves(s.accounts, who, amount);
      PutStaysCovered(s, after, id, after.storage.pools[id], amount);
    case UpdatePoolConfig(id, _) => PutStaysCovered(s, after, id, after.storage.pools[id], 0);
    case SponsorTransaction(id, _, _) => PutStaysCovered(s, after, id, after.storage.pools[id], 0);
    case _ => SamePoolsStayCovered(s, after);
  }

  lemma SamePoolsStayCovered(s: State, after: State)
    requires Solvent(s) && after.storage.pools == s.storage.pools
    requires forall a :: AccountOf(after.accounts, a).reserved == AccountOf(s.accounts, a).reserved
    ensures forall a :: Held(after.storage, a) <= AccountOf(after.accounts, a).reserved
  {
    forall a ensures Held(after.storage, a) <= AccountOf(after.accounts, a).reserved {
      assert Held(s.storage, a) <= AccountOf(s.accounts, a).reserved;
    }
  }

  ghost predicate Mints(s: State, step: Step) {
    step.FreeFundsMove? && Issuance(step.accounts) > Issuance(s.accounts)
  }

  lemma NextKeepsSolvent(cfg: Config, s: State, step: Step)
    requires Solvent(s)
    ensures Solvent(Next(cfg, s, step))
    ensures !Mints(s, step) ==> Issuance(Next(cfg, s, step).accounts) <= Issuance(s.accounts)
  {
    if Succeeds(cfg, s, step) {
      EffectKeepsSolvent(cfg, s, step.origin.who, step.call, step.withdrawable);
    } else {
      SamePoolsStayCovered(s, Next(cfg, s, step));
    }
  }

  lemma GenesisSolvent(s: State)
    requires Genesis(s)
    ensures Solvent(s)
  {
    forall a ensures Held(s.storage, a) <= AccountOf(s.accounts, a).reserved {
      TotalZero(s.storage.pools, HoldingOf(a));
    }
  }

  /** Every state of every run of every configuration is solvent, so no pool arithmetic of
      the code ever saturates, whatever the deposit minimum, however many ids are used and
      whatever is minted within the balance type. */
  lemma {:induction false} EveryRunSolvent(cfg: Config, s: State, steps: seq<Step>)
    requires Genesis(s)
    ensures Solvent(Run(cfg, s, steps))
  {
    if steps == [] {
      GenesisSolvent(s);
    } else {
      EveryRunSolvent(cfg, s, steps[..|steps| - 1]);
      NextKeepsSolvent(cfg, Run(cfg, s, steps[..|steps| - 1]), steps[|steps| - 1]);
    }
  }

  /** No call of the pallet issues funds: over a run in which nothing else does, the issuance
      never rises. */
  lemma {:induction false} IssuanceNeverRises(cfg: Config, s: State, steps: seq<Step>)
    requires Genesis(s)
    requires forall n :: 0 <= n < |steps| ==> !Mints(Run(cfg, s, steps[..n]), steps[n])
    ensures Issuance(Run(cfg, s, steps).accounts) <= Issuance(s.accounts)
  {
    if steps != [] {
      var front := steps[..|steps| - 1];
      forall n | 0 <= n < |front| ensures !Mints(Run(cfg, s, front[..n]), front[n]) {
        assert front[..n] == steps[..n];
      }
      IssuanceNeverRises(cfg, s, front);
      EveryRunSolvent(cfg, s, front);
      NextKeepsSolvent(cfg, Run(cfg, s, front), steps[|steps| - 1]);
    }
  }
}
