/** The sponsorship pallet's storage as a value, its extrinsics as calls, and what each call
    does stated without the order in which the code does it: a refusal, or an effect in exact
    arithmetic. Module `Pallet` shows that the code computes this. */
module Ledger {
  import opened Arithmetic
  import opened Currency
  import opened Gateway

  type RuleData = seq<Byte>

  datatype PoolStatus = Active | Paused | Closed

  datatype PoolConfig = PoolConfig(
    maxTransactionValue: nat, dailySpendingLimit: nat, allowedChains: seq<ParaId>, authorizationRequired: bool)

  datatype PoolInfo = PoolInfo(
    owner: AccountId, balance: nat, totalSpent: nat, createdAt: nat, config: PoolConfig, status: PoolStatus)

  datatype RuleType = UserWhitelist | TransactionType | SpendingLimit

  datatype Rule = Rule(ruleType: RuleType, data: RuleData, createdAt: nat)

  datatype TransactionStatus = Pending | Dispatched | Executed | Failed | Refunded

  datatype TransactionRecord = TransactionRecord(
    id: TxId, poolId: PoolId, user: AccountId, targetChain: ParaId, callHash: Hash,
    gasCost: nat, status: TransactionStatus, timestamp: nat)

  datatype Event =
    | PoolCreated(poolId: PoolId, owner: AccountId, initialDeposit: nat)
    | PoolFunded(poolId: PoolId, amount: nat, newBalance: nat)
    | PoolConfigUpdated(poolId: PoolId, owner: AccountId)
    | TransactionSponsored(transactionId: TxId, poolId: PoolId, user: AccountId, targetChain: ParaId, gasCost: nat)
    | RuleAdded(poolId: PoolId, ruleType: RuleType)
    | RuleRemoved(poolId: PoolId, ruleType: RuleType)

  datatype Error =
    | BadOrigin
    | DepositTooSmall
    | CurrencyRefused
    | PoolNotFound
    | NotPoolOwner
    | PoolPaused
    | ChainNotSupported
    | InsufficientFunds
    | InvalidConfiguration

  datatype Verdict = Ok | Err(error: Error)

  /** The pallet's constants and the runtime's hash, which is left uninterpreted. */
  datatype Config = Config(minPoolDeposit: nat, hash: seq<Byte> -> Hash)

  datatype Storage = Storage(
    pools: map<PoolId, PoolInfo>,
    nextPoolId: PoolId,
    poolOwners: set<(AccountId, PoolId)>,
    rules: map<(PoolId, RuleType), Rule>,
    log: map<TxId, TransactionRecord>,
    nextTransactionId: TxId,
    events: seq<Event>)

  /** The whole state an extrinsic can see: the pallet's storage, the currency, the block. */
  datatype State = State(storage: Storage, accounts: Accounts, block: nat)

  datatype Origin = Signed(who: AccountId) | Unsigned

  datatype Call =
    | CreatePool(deposit: nat, config: PoolConfig)
    | FundPool(poolId: PoolId, amount: nat)
    | UpdatePoolConfig(poolId: PoolId, newConfig: PoolConfig)
    | AddRule(poolId: PoolId, rule: Rule)
    | RemoveRule(poolId: PoolId, ruleType: RuleType)
    | SponsorTransaction(poolId: PoolId, targetChain: ParaId, callData: seq<Byte>)
    | SubmitReceipt(receipt: Receipt)

  // ---- Refusals --------------------------------------------------------------------------

  /** The checks that every call naming a pool as its owner goes through. */
  function OwnerRefusal(g: Storage, who: AccountId, id: PoolId): Verdict {
    if id !in g.pools then Err(PoolNotFound)
    else if g.pools[id].owner != who then Err(NotPoolOwner)
    else Ok
  }

  /** The checks before the first write of a sponsorship: all but the gateway's own. */
  predicate Chargeable(g: Storage, id: PoolId, chain: ParaId, callData: seq<Byte>) {
    && id in g.pools
    && g.pools[id].status == Active
    && chain in g.pools[id].config.allowedChains
    && Supported(chain)
    && EstimateFee(chain, callData).value <= g.pools[id].balance
  }

  function SponsorRefusal(g: Storage, id: PoolId, chain: ParaId, callData: seq<Byte>): Verdict {
    if id !in g.pools then Err(PoolNotFound)
    else if g.pools[id].status != Active then Err(PoolPaused)
    else if chain !in g.pools[id].config.allowedChains || !Supported(chain) then Err(ChainNotSupported)
    else if g.pools[id].balance < EstimateFee(chain, callData).value then Err(InsufficientFunds)
    else if !Deliverable(callData) then Err(ChainNotSupported)
    else Ok
  }

  function Refusal(cfg: Config, s: State, who: AccountId, call: Call, withdrawable: bool): Verdict {
    var g := s.storage;
    match call
    case CreatePool(deposit, _) =>
      if deposit < cfg.minPoolDeposit then Err(DepositTooSmall)
      else if !CanReserve(s.accounts, who, deposit, withdrawable) then Err(CurrencyRefused)
      else Ok
    case FundPool(id, amount) =>
      if OwnerRefusal(g, who, id) != Ok then OwnerRefusal(g, who, id)
      else if g.pools[id].status != Active then Err(PoolPaused)
      else if !CanReserve(s.accounts, who, amount, withdrawable) then Err(CurrencyRefused)
      else Ok
    case UpdatePoolConfig(id, _) => OwnerRefusal(g, who, id)
    case AddRule(id, _) => OwnerRefusal(g, who, id)
    case RemoveRule(id, _) => OwnerRefusal(g, who, id)
    case SponsorTransaction(id, chain, callData) => SponsorRefusal(g, id, chain, callData)
    case SubmitReceipt(receipt) =>
      if ProcessReceipt(receipt) == InvalidReceipt then Err(InvalidConfiguration) else Ok
  }

  // ---- Effects ---------------------------------------------------------------------------

  function Created(g: Storage, who: AccountId, deposit: nat, config: PoolConfig, block: nat): Storage {
    var id := g.nextPoolId;
    g.(pools := g.pools[id := PoolInfo(who, deposit, 0, block, config, Active)],
       poolOwners := g.poolOwners + {(who, id)},
       nextPoolId := SaturatingAdd(id, 1, MAX_U32),
       events := g.events + [PoolCreated(id, who, deposit)])
  }

  function Funded(g: Storage, id: PoolId, amount: nat): Storage
    requires id in g.pools
  {
    var pool := g.pools[id];
    g.(pools := g.pools[id := pool.(balance := pool.balance + amount)],
       events := g.events + [PoolFunded(id, amount, pool.balance + amount)])
  }

  /** The pool and log writes of a sponsorship, before the gateway has spoken. */
  function Charged(cfg: Config, g: Storage, who: AccountId, id: PoolId, chain: ParaId, callData: seq<Byte>,
                   fee: nat, block: nat): Storage
    requires id in g.pools && fee <= g.pools[id].balance
  {
    var tx := g.nextTransactionId;
    var pool := g.pools[id];
    g.(log := g.log[tx := TransactionRecord(tx, id, who, chain, cfg.hash(callData), fee, Pending, block)],
       nextTransactionId := SaturatingAdd(tx, 1, MAX_U64),
       pools := g.pools[id := pool.(balance := pool.balance - fee, totalSpent := pool.totalSpent + fee)])
  }

  function Sponsored(cfg: Config, g: Storage, who: AccountId, id: PoolId, chain: ParaId, callData: seq<Byte>,
                     fee: nat, block: nat): Storage
    requires id in g.pools && fee <= g.pools[id].balance
  {
    var charged := Charged(cfg, g, who, id, chain, callData, fee, block);
    charged.(events := g.events + [TransactionSponsored(g.nextTransactionId, id, who, chain, fee)])
  }

  function Effect(cfg: Config, s: State, who: AccountId, call: Call, withdrawable: bool): State
    requires Refusal(cfg, s, who, call, withdrawable) == Ok
  {
    var g := s.storage;
    match call
    case CreatePool(deposit, config) =>
      State(Created(g, who, deposit, config, s.block), Reserve(s.accounts, who, deposit), s.block)
    case FundPool(id, amount) =>
      State(Funded(g, id, amount), Reserve(s.accounts, who, amount), s.block)
    case UpdatePoolConfig(id, newConfig) =>
      s.(storage := g.(pools := g.pools[id := g.pools[id].(config := newConfig)],
                       events := g.events + [PoolConfigUpdated(id, who)]))
    case AddRule(id, rule) =>
      s.(storage := g.(rules := g.rules[(id, rule.ruleType) := rule],
                       events := g.events + [RuleAdded(id, rule.ruleType)]))
    case RemoveRule(id, ruleType) =>
      s.(storage := g.(rules := g.rules - {(id, ruleType)}, events := g.events + [RuleRemoved(id, ruleType)]))
    case SponsorTransaction(id, chain, callData) =>
      s.(storage := Sponsored(cfg, g, who, id, chain, callData, EstimateFee(chain, callData).value, s.block))
    case SubmitReceipt(_) => s
  }

  // ---- Dispatch and runs -----------------------------------------------------------------

  function VerdictOf(cfg: Config, s: State, origin: Origin, call: Call, withdrawable: bool): Verdict {
    if origin.Unsigned? then Err(BadOrigin) else Refusal(cfg, s, origin.who, call, withdrawable)
  }

  /** Dispatch is all or nothing: a refused call leaves no trace. */
  function Dispatch(cfg: Config, s: State, origin: Origin, call: Call, withdrawable: bool): State {
    if VerdictOf(cfg, s, origin, call, withdrawable) == Ok
    then Effect(cfg, s, origin.who, call, withdrawable)
    else s
  }

  /** What can happen between two observations: an extrinsic, some blocks passing, or free
      funds moving outside this pallet, be it between accounts, out of existence as a fee or as
      dust, or into existence as newly issued funds. */
  datatype Step =
    | Extrinsic(origin: Origin, call: Call, withdrawable: bool)
    | BlocksPass(count: nat)
    | FreeFundsMove(accounts: Accounts)

  /** Movements by other pallets: everything reserved stays as it is, and the total issuance
      still fits the balance type. */
  ghost predicate MovesOnlyFree(before: Accounts, after: Accounts) {
    && Issuance(after) <= MAX_U128
    && forall a :: AccountOf(after, a).reserved == AccountOf(before, a).reserved
  }

  ghost function Next(cfg: Config, s: State, step: Step): State {
    match step
    case Extrinsic(origin, call, withdrawable) => Dispatch(cfg, s, origin, call, withdrawable)
    case BlocksPass(count) => s.(block := s.block + count)
    case FreeFundsMove(accounts) => if MovesOnlyFree(s.accounts, accounts) then s.(accounts := accounts) else s
  }

  ghost function Run(cfg: Config, s: State, steps: seq<Step>): State {
    if steps == [] then s
    else Next(cfg, Run(cfg, s, steps[..|steps| - 1]), steps[|steps| - 1])
  }

  const EMPTY: Storage := Storage(map[], 0, {}, map[], map[], 0, [])

  /** Genesis: empty storage, and nothing reserved yet. */
  ghost predicate Genesis(s: State) {
    && s.storage == EMPTY
    && Issuance(s.accounts) <= MAX_U128
    && forall a :: a in s.accounts ==> s.accounts[a].reserved == 0
  }

  predicate Succeeds(cfg: Config, s: State, step: Step) {
    step.Extrinsic? && VerdictOf(cfg, s, step.origin, step.call, step.withdrawable) == Ok
  }
}
