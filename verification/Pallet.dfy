/** The pallet as the object it is: storage items that the extrinsics update in place, in
    the order and with the saturating arithmetic of the code. Each extrinsic is proved to
    compute `Ledger.Dispatch`, and to keep the pallet solvent. */
module Pallet {
  import opened Arithmetic
  import opened Currency
  import opened Gateway
  import opened Ledger
  import opened Solvency

  class Sponsorship {
    const cfg: Config
    const currency: Balances
    var block: nat

    var pools: map<PoolId, PoolInfo>
    var nextPoolId: PoolId
    var poolOwners: set<(AccountId, PoolId)>
    var rules: map<(PoolId, RuleType), Rule>
    var transactionLog: map<TxId, TransactionRecord>
    var nextTransactionId: TxId
    var events: seq<Event>

    ghost function Stored(): Storage
      reads this
    {
      Storage(pools, nextPoolId, poolOwners, rules, transactionLog, nextTransactionId, events)
    }

    ghost function Snapshot(): State
      reads this, currency
    {
      State(Stored(), currency.accounts, block)
    }

    ghost predicate Valid()
      reads this, currency
    {
      Solvent(Snapshot())
    }

    constructor (cfg: Config, currency: Balances, block: nat)
      requires Genesis(State(EMPTY, currency.accounts, block))
      ensures this.cfg == cfg && this.currency == currency
      ensures Genesis(Snapshot()) && Snapshot().block == block
      ensures Valid()
    {
      this.cfg, this.currency, this.block := cfg, currency, block;
      pools, nextPoolId, poolOwners, rules := map[], 0, {}, map[];
      transactionLog, nextTransactionId, events := map[], 0, [];
      new;
      GenesisSolvent(Snapshot());
    }

    method DepositEvent(event: Event)
      modifies this`events
      ensures events == old(events) + [event]
    {
      events := events + [event];
    }

    method CreatePool(origin: Origin, deposit: nat, config: PoolConfig, withdrawable: bool) returns (verdict: Verdict)
      requires Valid()
      modifies this, currency
      ensures verdict == VerdictOf(cfg, old(Snapshot()), origin, Call.CreatePool(deposit, config), withdrawable)
      ensures Snapshot() == Dispatch(cfg, old(Snapshot()), origin, Call.CreatePool(deposit, config), withdrawable)
      ensures Valid()
    {
      NextKeepsSolvent(cfg, Snapshot(), Extrinsic(origin, Call.CreatePool(deposit, config), withdrawable));
      if origin.Unsigned? {
        return Err(BadOrigin);
      }
      var who := origin.who;
      if !(deposit >= cfg.minPoolDeposit) {
        return Err(DepositTooSmall);
      }
      var poolId := nextPoolId;
      var nextId := SaturatingAdd(poolId, 1, MAX_U32);
      var reserved := currency.TryReserve(who, deposit, withdrawable);
      if !reserved {
        return Err(CurrencyRefused);
      }
      pools := pools[poolId := PoolInfo(who, deposit, 0, block, config, Active)];
      poolOwners := poolOwners + {(who, poolId)};
      nextPoolId := nextId;
      DepositEvent(PoolCreated(poolId, who, deposit));
      verdict := Ok;
    }

    method FundPool(origin: Origin, poolId: PoolId, amount: nat, withdrawable: bool) returns (verdict: Verdict)
      requires Valid()
      modifies this, currency
      ensures verdict == VerdictOf(cfg, old(Snapshot()), origin, Call.FundPool(poolId, amount), withdrawable)
      ensures Snapshot() == Dispatch(cfg, old(Snapshot()), origin, Call.FundPool(poolId, amount), withdrawable)
      ensures Valid()
    {
      NextKeepsSolvent(cfg, Snapshot(), Extrinsic(origin, Call.FundPool(poolId, amount), withdrawable));
      if origin.Unsigned? {
        return Err(BadOrigin);
      }
      var who := origin.who;
      if poolId !in pools {
        return Err(PoolNotFound);
      }
      var pool := pools[poolId];
      if pool.owner != who {
        return Err(NotPoolOwner);
      }
      if pool.status != Active {
        return Err(PoolPaused);
      }
      PoolFitsIssuance(Snapshot(), poolId);
      var reserved := currency.TryReserve(who, amount, withdrawable);
      if !reserved {
        return Err(CurrencyRefused);
      }
      pool := pool.(balance := SaturatingAdd(pool.balance, amount, MAX_U128));
      var newBalance := pool.balance;
      pools := pools[poolId := pool];
      DepositEvent(PoolFunded(poolId, amount, newBalance));
      verdict := Ok;
    }

    method UpdatePoolConfig(origin: Origin, poolId: PoolId, newConfig: PoolConfig) returns (verdict: Verdict)
      requires Valid()
      modifies this
      ensures verdict == VerdictOf(cfg, old(Snapshot()), origin, Call.UpdatePoolConfig(poolId, newConfig), true)
      ensures Snapshot() == Dispatch(cfg, old(Snapshot()), origin, Call.UpdatePoolConfig(poolId, newConfig), true)
      ensures Valid()
    {
      NextKeepsSolvent(cfg, Snapshot(), Extrinsic(origin, Call.UpdatePoolConfig(poolId, newConfig), true));
      if origin.Unsigned? {
        return Err(BadOrigin);
      }
      if poolId !in pools {
        return Err(PoolNotFound);
      }
      var pool := pools[poolId];
      if pool.owner != origin.who {
        return Err(NotPoolOwner);
      }
      pool := pool.(config := newConfig);
      pools := pools[poolId := pool];
      DepositEvent(PoolConfigUpdated(poolId, origin.who));
      verdict := Ok;
    }

    method AddAuthorizationRule(origin: Origin, poolId: PoolId, rule: Rule) returns (verdict: Verdict)
      requires Valid()
      modifies this
      ensures verdict == VerdictOf(cfg, old(Snapshot()), origin, AddRule(poolId, rule), true)
      ensures Snapshot() == Dispatch(cfg, old(Snapshot()), origin, AddRule(poolId, rule), true)
      ensures Valid()
    {
      NextKeepsSolvent(cfg, Snapshot(), Extrinsic(origin, AddRule(poolId, rule), true));
      if origin.Unsigned? {
        return Err(BadOrigin);
      }
      if poolId !in pools {
        return Err(PoolNotFound);
      }
      if pools[poolId].owner != origin.who {
        return Err(NotPoolOwner);
      }
      rules := rules[(poolId, rule.ruleType) := rule];
      DepositEvent(RuleAdded(poolId, rule.ruleType));
      verdict := Ok;
    }

    method RemoveAuthorizationRule(origin: Origin, poolId: PoolId, ruleType: RuleType) returns (verdict: Verdict)
      requires Valid()
      modifies this
      ensures verdict == VerdictOf(cfg, old(Snapshot()), origin, RemoveRule(poolId, ruleType), true)
      ensures Snapshot() == Dispatch(cfg, old(Snapshot()), origin, RemoveRule(poolId, ruleType), true)
      ensures Valid()
    {
      NextKeepsSolvent(cfg, Snapshot(), Extrinsic(origin, RemoveRule(poolId, ruleType), true));
      if origin.Unsigned? {
        return Err(BadOrigin);
      }
      if poolId !in pools {
        return Err(PoolNotFound);
      }
      if pools[poolId].owner != origin.who {
        return Err(NotPoolOwner);
      }
      rules := rules - {(poolId, ruleType)};
      DepositEvent(RuleRemoved(poolId, ruleType));
      verdict := Ok;
    }

    /** The body of the sponsorship extrinsic. It charges the pool and writes the log before
        the gateway answers, so a late refusal leaves those writes behind. */
    method SponsorBody(who: AccountId, poolId: PoolId, chain: ParaId, callData: seq<Byte>) returns (verdict: Verdict)
      requires Valid()
      modifies this
      ensures verdict == SponsorRefusal(old(Stored()), poolId, chain, callData)
      ensures verdict == Ok ==>
        Stored() == Sponsored(cfg, old(Stored()), who, poolId, chain, callData,
                              EstimateFee(chain, callData).value, block)
      ensures verdict != Ok ==>
        Stored() ==
          if Chargeable(old(Stored()), poolId, chain, callData)
          then Charged(cfg, old(Stored()), who, poolId, chain, callData, EstimateFee(chain, callData).value, block)
          else old(Stored())
      ensures block == old(block)
    {
      if poolId !in pools {
        return Err(PoolNotFound);
      }
      var pool := pools[poolId];
      if pool.status != Active {
        return Err(PoolPaused);
      }
      if chain !in pool.config.allowedChains {
        return Err(ChainNotSupported);
      }
      var transactionId := nextTransactionId;
      var nextTxId := SaturatingAdd(transactionId, 1, MAX_U64);
      var estimate := EstimateFee(chain, callData);
      if estimate.Failure? {
        return Err(ChainNotSupported);
      }
      var fee := estimate.value;
      if !(pool.balance >= fee) {
        return Err(InsufficientFunds);
      }
      SaturationNeverBites(Snapshot(), poolId, 0, fee);
      var record := TransactionRecord(
        transactionId, poolId, who, chain, cfg.hash(callData), fee, TransactionStatus.Pending, block);
      transactionLog := transactionLog[transactionId := record];
      nextTransactionId := nextTxId;
      pool := pool.(balance := SaturatingSub(pool.balance, fee),
                    totalSpent := SaturatingAdd(pool.totalSpent, fee, MAX_U128));
      pools := pools[poolId := pool];
      SendOutcome(cfg.hash, block, poolId, who, chain, callData, transactionId);
      var sent := Send(cfg.hash, block, poolId, who, chain, callData, transactionId);
      if sent.Failure? {
        return Err(ChainNotSupported);
      }
      DepositEvent(TransactionSponsored(transactionId, poolId, who, chain, fee));
      verdict := Ok;
    }

    /** The dispatched extrinsic: the runtime runs the body in a storage layer and discards
        the layer when the body refuses. */
    method SponsorTransaction(origin: Origin, poolId: PoolId, chain: ParaId, callData: seq<Byte>)
      returns (verdict: Verdict)
      requires Valid()
      modifies this
      ensures verdict == VerdictOf(cfg, old(Snapshot()), origin, Call.SponsorTransaction(poolId, chain, callData), true)
      ensures Snapshot() ==
        Dispatch(cfg, old(Snapshot()), origin, Call.SponsorTransaction(poolId, chain, callData), true)
      ensures Valid()
    {
      NextKeepsSolvent(cfg, Snapshot(), Extrinsic(origin, Call.SponsorTransaction(poolId, chain, callData), true));
      if origin.Unsigned? {
        return Err(BadOrigin);
      }
      var layer := (pools, transactionLog, nextTransactionId, events);
      verdict := SponsorBody(origin.who, poolId, chain, callData);
      if verdict != Ok {
        pools, transactionLog, nextTransactionId, events := layer.0, layer.1, layer.2, layer.3;
      }
    }

    method ProcessReceipt(origin: Origin, receipt: Receipt) returns (verdict: Verdict)
      requires Valid()
      ensures verdict == VerdictOf(cfg, Snapshot(), origin, SubmitReceipt(receipt), true)
      ensures Snapshot() == Dispatch(cfg, Snapshot(), origin, SubmitReceipt(receipt), true)
    {
      if origin.Unsigned? {
        return Err(BadOrigin);
      }
      var result := Gateway.ProcessReceipt(receipt);
      if result == InvalidReceipt {
        return Err(InvalidConfiguration);
      }
      verdict := Ok;
    }

    /** The runtime's dispatcher for this pallet. */
    method DispatchCall(origin: Origin, call: Call, withdrawable: bool) returns (verdict: Verdict)
      requires Valid()
      modifies this, currency
      ensures verdict == VerdictOf(cfg, old(Snapshot()), origin, call, withdrawable)
      ensures Snapshot() == Dispatch(cfg, old(Snapshot()), origin, call, withdrawable)
      ensures Valid()
    {
      match call
      case CreatePool(deposit, config) => verdict := CreatePool(origin, deposit, config, withdrawable);
      case FundPool(id, amount) => verdict := FundPool(origin, id, amount, withdrawable);
      case UpdatePoolConfig(id, config) => verdict := UpdatePoolConfig(origin, id, config);
      case AddRule(id, rule) => verdict := AddAuthorizationRule(origin, id, rule);
      case RemoveRule(id, ruleType) => verdict := RemoveAuthorizationRule(origin, id, ruleType);
      case SponsorTransaction(id, chain, callData) => verdict := SponsorTransaction(origin, id, chain, callData);
      case SubmitReceipt(receipt) => verdict := ProcessReceipt(origin, receipt);
    }

    method PassBlocks(count: nat)
      requires Valid()
      modifies this
      ensures Snapshot() == Next(cfg, old(Snapshot()), BlocksPass(count))
      ensures Valid()
    {
      NextKeepsSolvent(cfg, Snapshot(), BlocksPass(count));
      block := block + count;
    }

    /** The rest of the runtime moves, burns or mints free funds in the shared currency. */
    method SettleFreeFunds(accounts: Accounts)
      requires Valid() && MovesOnlyFree(currency.accounts, accounts)
      modifies currency
      ensures Snapshot() == Next(cfg, old(Snapshot()), FreeFundsMove(accounts))
      ensures Valid()
    {
      NextKeepsSolvent(cfg, Snapshot(), FreeFundsMove(accounts));
      currency.Rewrite(accounts);
    }

    /** Any history of extrinsics, passing blocks and movements of free funds, carried out by
        the code, is the ledger's run; so the theorems about runs hold of the pallet. What the
        rest of the runtime does to the funds has to be a movement of free funds. */
    method Execute(steps: seq<Step>)
      requires Valid()
      requires forall i :: 0 <= i < |steps| && steps[i].FreeFundsMove? ==>
        MovesOnlyFree(Run(cfg, Snapshot(), steps[..i]).accounts, steps[i].accounts)
      modifies this, currency
      ensures Snapshot() == Run(cfg, old(Snapshot()), steps)
      ensures Valid()
    {
      for i := 0 to |steps|
        invariant Valid() && Snapshot() == Run(cfg, old(Snapshot()), steps[..i])
      {
        assert steps[..i + 1][..i] == steps[..i];
        match steps[i]
        case Extrinsic(origin, call, withdrawable) => var _ := DispatchCall(origin, call, withdrawable);
        case BlocksPass(count) => PassBlocks(count);
        case FreeFundsMove(accounts) => SettleFreeFunds(accounts);
      }
      assert steps[..|steps|] == steps;
    }
  }
}
