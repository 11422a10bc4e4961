/** When each extrinsic succeeds, what it then does to the whole state, and what it leaves alone;
    and what each error means. The sponsorship has module `Sponsoring` to itself. */
module Footprint {
  import opened Arithmetic
  import opened Currency
  import opened Gateway
  import opened Ledger
  import opened Consistency

  // ---- Verdicts --------------------------------------------------------------------------

  /** The calls that name a pool, and those among them that are its owner's alone. */
  predicate NamesPool(call: Call) {
    !call.CreatePool? && !call.SubmitReceipt?
  }

  predicate IsOwners(call: Call) {
    NamesPool(call) && !call.SponsorTransaction?
  }

  /** What the estimator asks for a call to a chain it has a price for, whatever its length. */
  function Price(chain: ParaId, callData: seq<Byte>): nat
    requires chain in BASE_FEES
  {
    BASE_FEES[chain] + 2 * (|callData| % 0x1_0000_0000)
  }

  /** The calls for which funds of the caller are to be reserved, once the pallet's own checks
      are passed. */
  predicate AsksToReserve(cfg: Config, g: Storage, who: AccountId, call: Call) {
    || (call.CreatePool? && call.deposit >= cfg.minPoolDeposit)
    || (call.FundPool? && call.poolId in g.pools
        && g.pools[call.poolId].owner == who && g.pools[call.poolId].status == Active)
  }

  /** Each error has one meaning: it is answered exactly in these cases. */
  lemma ErrorsMean(cfg: Config, s: State, origin: Origin, call: Call, withdrawable: bool)
    ensures var verdict := VerdictOf(cfg, s, origin, call, withdrawable);
      var pools := s.storage.pools;
      && (verdict == Err(BadOrigin) <==> origin == Unsigned)
      && (verdict == Err(DepositTooSmall) <==>
            origin != Unsigned && call.CreatePool? && call.deposit < cfg.minPoolDeposit)
      && (verdict == Err(CurrencyRefused) <==>
            && origin != Unsigned && AsksToReserve(cfg, s.storage, origin.who, call)
            && Paid(call) > 0 && (!withdrawable || Paid(call) > AccountOf(s.accounts, origin.who).free))
      && (verdict == Err(PoolNotFound) <==> origin != Unsigned && NamesPool(call) && PoolOf(call) !in pools)
      && (verdict == Err(NotPoolOwner) <==>
            && origin != Unsigned && IsOwners(call)
            && PoolOf(call) in pools && pools[PoolOf(call)].owner != origin.who)
      && (verdict == Err(PoolPaused) <==>
            && origin != Unsigned && (call.SponsorTransaction? || call.FundPool?)
            && call.poolId in pools && pools[call.poolId].status != Active
            && (call.FundPool? ==> pools[call.poolId].owner == origin.who))
      && (verdict == Err(InsufficientFunds) <==>
            && origin != Unsigned && call.SponsorTransaction?
            && call.poolId in pools && pools[call.poolId].status == Active
            && call.targetChain in pools[call.poolId].config.allowedChains && call.targetChain in BASE_FEES
            && pools[call.poolId].balance < Price(call.targetChain, call.callData))
      && (verdict == Err(ChainNotSupported) <==>
            && origin != Unsigned && call.SponsorTransaction?
            && call.poolId in pools && pools[call.poolId].status == Active
            && (|| call.targetChain !in pools[call.poolId].config.allowedChains
                || call.targetChain !in BASE_FEES
                || (pools[call.poolId].balance >= Price(call.targetChain, call.callData)
                    && (call.callData == [] || |call.callData| > 1024))))
      && (verdict == Err(InvalidConfiguration) <==>
            && origin != Unsigned && call.SubmitReceipt?
            && (call.receipt.transactionId == 0 || call.receipt.targetChain == 0 || call.receipt.blockHash == 0))
  {
  }

  function PoolOf(call: Call): PoolId
    requires NamesPool(call)
  {
    match call
    case FundPool(id, _) => id
    case UpdatePoolConfig(id, _) => id
    case AddRule(id, _) => id
    case RemoveRule(id, _) => id
    case SponsorTransaction(id, _, _) => id
  }

  // ---- Effects ---------------------------------------------------------------------------

  /** A pool is created exactly for a signed deposit of at least the minimum that the caller can
      have reserved. It starts out with that deposit, nothing spent, the current block and the
      given configuration, and the call writes nothing else but the index, the counter and the
      event. */
  lemma CreateSucceedsIff(cfg: Config, s: State, origin: Origin, deposit: nat, config: PoolConfig, withdrawable: bool)
    ensures var call := CreatePool(deposit, config);
      var after := Dispatch(cfg, s, origin, call, withdrawable);
      var id := s.storage.nextPoolId;
      && (VerdictOf(cfg, s, origin, call, withdrawable) == Ok <==>
            && origin != Unsigned && cfg.minPoolDeposit <= deposit
            && (deposit == 0 || (withdrawable && deposit <= AccountOf(s.accounts, origin.who).free)))
      && (VerdictOf(cfg, s, origin, call, withdrawable) != Ok ==> after == s)
      && (VerdictOf(cfg, s, origin, call, withdrawable) == Ok ==>
            && after.block == s.block
            && after.storage == s.storage.(
                 pools := s.storage.pools[id := PoolInfo(
                   owner := origin.who, balance := deposit, totalSpent := 0, createdAt := s.block,
                   config := config, status := Active)],
                 poolOwners := s.storage.poolOwners + {(origin.who, id)},
                 nextPoolId := Min(id + 1, 4_294_967_295),
                 events := s.storage.events + [PoolCreated(id, origin.who, deposit)]))
  {
  }

  /** Funding succeeds exactly for the signed owner of an active pool who can have the amount
      reserved. It adds the amount to that pool's balance, announces the new balance, and writes
      nothing else. */
  lemma FundSucceedsIff(cfg: Config, s: State, origin: Origin, id: PoolId, amount: nat, withdrawable: bool)
    ensures var call := FundPool(id, amount);
      var after := Dispatch(cfg, s, origin, call, withdrawable);
      && (VerdictOf(cfg, s, origin, call, withdrawable) == Ok <==>
            && origin != Unsigned && id in s.storage.pools
            && s.storage.pools[id].owner == origin.who && s.storage.pools[id].status == Active
            && (amount == 0 || (withdrawable && amount <= AccountOf(s.accounts, origin.who).free)))
      && (VerdictOf(cfg, s, origin, call, withdrawable) != Ok ==> after == s)
      && (VerdictOf(cfg, s, origin, call, withdrawable) == Ok ==>
            var before := s.storage.pools[id];
            && after.block == s.block
            && after.storage == s.storage.(
                 pools := s.storage.pools[id := before.(balance := before.balance + amount)],
                 events := s.storage.events + [PoolFunded(id, amount, before.balance + amount)]))
  {
  }

  /** Reconfiguring succeeds exactly for the signed owner, whatever the pool's status. The pool
      then has the new configuration and everything else it had, and nothing else is written. */
  lemma UpdateSucceedsIff(cfg: Config, s: State, origin: Origin, id: PoolId, newConfig: PoolConfig, withdrawable: bool)
    ensures var call := UpdatePoolConfig(id, newConfig);
      var after := Dispatch(cfg, s, origin, call, withdrawable);
      && (VerdictOf(cfg, s, origin, call, withdrawable) == Ok <==>
            origin != Unsigned && id in s.storage.pools && s.storage.pools[id].owner == origin.who)
      && (VerdictOf(cfg, s, origin, call, withdrawable) != Ok ==> after == s)
      && (VerdictOf(cfg, s, origin, call, withdrawable) == Ok ==>
            && id in after.storage.pools && after.storage.pools[id].config == newConfig
            && after == s.(storage := s.storage.(
                 pools := s.storage.pools[id := s.storage.pools[id].(config := newConfig)],
                 events := s.storage.events + [PoolConfigUpdated(id, origin.who)])))
  {
  }

  /** Rules are filed and removed exactly by the signed owner. A rule takes the place of the one
      of its type on that pool; a removal takes out that one and no other, and succeeds even if
      there is none. */
  lemma RuleCallsSucceedIff(cfg: Config, s: State, origin: Origin, id: PoolId, rule: Rule, ruleType: RuleType,
                            withdrawable: bool)
    ensures var mayWrite := origin != Unsigned && id in s.storage.pools && s.storage.pools[id].owner == origin.who;
      var added := Dispatch(cfg, s, origin, AddRule(id, rule), withdrawable);
      var removed := Dispatch(cfg, s, origin, RemoveRule(id, ruleType), withdrawable);
      && (VerdictOf(cfg, s, origin, AddRule(id, rule), withdrawable) == Ok <==> mayWrite)
      && (VerdictOf(cfg, s, origin, RemoveRule(id, ruleType), withdrawable) == Ok <==> mayWrite)
      && (!mayWrite ==> added == s && removed == s)
      && (mayWrite ==>
            && added == s.(storage := s.storage.(
                 rules := added.storage.rules, events := s.storage.events + [RuleAdded(id, rule.ruleType)]))
            && removed == s.(storage := s.storage.(
                 rules := removed.storage.rules, events := s.storage.events + [RuleRemoved(id, ruleType)]))
            && (id, rule.ruleType) in added.storage.rules && added.storage.rules[(id, rule.ruleType)] == rule
            && (id, ruleType) !in removed.storage.rules
            && (forall k :: k != (id, rule.ruleType) ==> SameRule(s.storage, added.storage, k))
            && (forall k :: k != (id, ruleType) ==> SameRule(s.storage, removed.storage, k)))
  {
  }

  /** What is not an extrinsic leaves the pallet's storage alone: blocks only move the clock on, and
      free funds only change the accounts, and those only if nothing reserved moves. */
  lemma OutsideLeavesStorage(cfg: Config, s: State, count: nat, accounts: Accounts)
    ensures Next(cfg, s, BlocksPass(count)) == s.(block := s.block + count)
    ensures Next(cfg, s, FreeFundsMove(accounts)) == s
         || Next(cfg, s, FreeFundsMove(accounts)) == s.(accounts := accounts)
    ensures forall a :: AccountOf(Next(cfg, s, FreeFundsMove(accounts)).accounts, a).reserved
                     == AccountOf(s.accounts, a).reserved
  {
  }

  /** Both rule tables have the same under this key, be it a rule or none. */
  predicate SameRule(before: Storage, after: Storage, key: (PoolId, RuleType)) {
    && (key in before.rules <==> key in after.rules)
    && (key in before.rules ==> before.rules[key] == after.rules[key])
  }

  /** The one pool a call may write. */
  function Touched(g: Storage, call: Call): set<PoolId> {
    match call
    case CreatePool(_, _) => {g.nextPoolId}
    case FundPool(id, _) => {id}
    case UpdatePoolConfig(id, _) => {id}
    case SponsorTransaction(id, _, _) => {id}
    case _ => {}
  }

  /** What the caller puts up. */
  function Paid(call: Call): nat {
    match call
    case CreatePool(deposit, _) => deposit
    case FundPool(_, amount) => amount
    case _ => 0
  }

  /** No call writes a second pool, nobody but the caller pays, and the caller pays exactly
      the amount named in the call, out of free into reserved funds. */
  lemma CallFootprint(cfg: Config, s: State, origin: Origin, call: Call, withdrawable: bool)
    ensures var after := Dispatch(cfg, s, origin, call, withdrawable);
      && (forall id :: id in s.storage.pools && id !in Touched(s.storage, call) ==>
            id in after.storage.pools && after.storage.pools[id] == s.storage.pools[id])
      && (forall id :: id in after.storage.pools ==> id in s.storage.pools || id in Touched(s.storage, call))
      && (forall a :: origin != Signed(a) ==> AccountOf(after.accounts, a) == AccountOf(s.accounts, a))
      && (VerdictOf(cfg, s, origin, call, withdrawable) == Ok ==>
            && AccountOf(after.accounts, origin.who).free + Paid(call) == AccountOf(s.accounts, origin.who).free
            && AccountOf(after.accounts, origin.who).reserved
                 == AccountOf(s.accounts, origin.who).reserved + Paid(call))
  {
    if VerdictOf(cfg, s, origin, call, withdrawable) == Ok {
      if call.CreatePool? || call.FundPool? {
        ReserveMoves(s.accounts, origin.who, Paid(call));
      }
    }
  }

  /** A receipt never moves the ledger. It is accepted exactly when its id, chain and block
      hash are all nonzero, whatever execution it reports. For a logged transaction that
      leaves out the very first one: ids start at zero. */
  lemma ReceiptAcceptedIff(cfg: Config, s: State, who: AccountId, receipt: Receipt, withdrawable: bool)
    requires LogIntact(s.storage, s.block)
    ensures var verdict := VerdictOf(cfg, s, Signed(who), SubmitReceipt(receipt), withdrawable);
      var id := receipt.transactionId;
      && Dispatch(cfg, s, Signed(who), SubmitReceipt(receipt), withdrawable) == s
      && (verdict == Ok <==> id != 0 && receipt.targetChain != 0 && receipt.blockHash != ZERO_HASH)
      && (id in s.storage.log && receipt.targetChain == s.storage.log[id].targetChain
          && receipt.blockHash != ZERO_HASH ==>
            (verdict == Ok <==> id != 0))
  {
    var id := receipt.transactionId;
    if id in s.storage.log {
      assert RecordIntact(s.storage, s.storage.log[id], id, s.block);
    }
  }
}
