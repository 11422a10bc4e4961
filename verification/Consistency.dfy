/** The full invariant of the ledger: sums over pools, log and currency agree with each
    other, and the id maps have no holes. It is kept by every step that hands out a fresh
    id; modules `Counting` and `Freshness` show when every step does. */
module Consistency {
  import opened Arithmetic
  import opened MapTotals
  import opened Currency
  import opened Gateway
  import opened Ledger
  import opened Solvency

  function SpentPart(): PoolInfo -> nat { (p: PoolInfo) => p.totalSpent }

  function Cost(): TransactionRecord -> nat { (t: TransactionRecord) => t.gasCost }

  function CostOn(id: PoolId): TransactionRecord -> nat {
    (t: TransactionRecord) => if t.poolId == id then t.gasCost else 0
  }

  /** What the pallet holds reserved is what the pools account for, owner by owner and in
      total. */
  ghost predicate Conserved(s: State) {
    && (forall a :: Held(s.storage, a) == AccountOf(s.accounts, a).reserved)
    && Total(s.storage.pools, Holding()) == Total(s.accounts, ReservedPart())
  }

  /** The log audits the pools, pool by pool and in total. */
  ghost predicate Audited(g: Storage) {
    && (forall id :: id in g.pools ==> g.pools[id].totalSpent == Total(g.log, CostOn(id)))
    && Total(g.pools, SpentPart()) == Total(g.log, Cost())
  }

  /** Ids below the counter are all in use; the only other id in use can be the counter
      itself, once it is stuck at its maximum. */
  ghost predicate Contiguous<V>(m: map<nat, V>, counter: nat, limit: nat) {
    && counter <= limit
    && (forall id: nat :: id < counter ==> id in m)
    && (forall id: nat :: id in m ==> id < counter || id == counter == limit)
  }

  ghost predicate IdsInUse(g: Storage) {
    && Contiguous(g.pools, g.nextPoolId, MAX_U32)
    && Contiguous(g.log, g.nextTransactionId, MAX_U64)
  }

  ghost predicate OwnersIndexed(g: Storage) {
    forall a: AccountId, id: PoolId :: (a, id) in g.poolOwners <==> id in g.pools && g.pools[id].owner == a
  }

  ghost predicate PoolsWellFormed(cfg: Config, g: Storage, block: nat) {
    forall id :: id in g.pools ==>
      var p := g.pools[id];
      p.balance + p.totalSpent >= cfg.minPoolDeposit && p.createdAt <= block && p.status == Active
  }

  predicate RecordIntact(g: Storage, t: TransactionRecord, id: TxId, block: nat) {
    && t.id == id
    && t.status == TransactionStatus.Pending
    && MIN_FEE <= t.gasCost <= MAX_FEE
    && Supported(t.targetChain)
    && t.poolId in g.pools
    && t.timestamp <= block
  }

  predicate RecordWellFormed(g: Storage, t: TransactionRecord, id: TxId, block: nat) {
    RecordIntact(g, t, id, block) && g.pools[t.poolId].createdAt <= t.timestamp
  }

  ghost predicate InOrder(log: map<TxId, TransactionRecord>) {
    forall i, j :: i in log && j in log && i < j ==> log[i].timestamp <= log[j].timestamp
  }

  ghost predicate LogIntact(g: Storage, block: nat) {
    && (forall id :: id in g.log ==> RecordIntact(g, g.log[id], id, block))
    && InOrder(g.log)
  }

  ghost predicate LogWellFormed(g: Storage, block: nat) {
    && (forall id :: id in g.log ==> RecordWellFormed(g, g.log[id], id, block))
    && InOrder(g.log)
  }

  /** Every id handed out is paid for: a pool id by its deposit, a transaction id by its fee. */
  ghost predicate PaidFor(cfg: Config, g: Storage) {
    && g.nextPoolId * cfg.minPoolDeposit <= Total(g.pools, Holding())
    && g.nextTransactionId * MIN_FEE <= Total(g.pools, SpentPart())
  }

  ghost predicate Consistent(cfg: Config, s: State) {
    && Solvent(s)
    && Conserved(s)
    && Audited(s.storage)
    && IdsInUse(s.storage)
    && OwnersIndexed(s.storage)
    && PoolsWellFormed(cfg, s.storage, s.block)
    && LogWellFormed(s.storage, s.block)
    && PaidFor(cfg, s.storage)
  }

  /** The id a call is about to take is not in use. */
  predicate TakesFreshId(g: Storage, call: Call) {
    && (call.CreatePool? ==> g.nextPoolId !in g.pools)
    && (call.SponsorTransaction? ==> g.nextTransactionId !in g.log)
  }

  lemma PutMovesTotals(g: Storage, after: Storage, id: PoolId, p: PoolInfo)
    requires after.pools == g.pools[id := p]
    ensures Total(after.pools, Holding()) + (if id in g.pools then g.pools[id].balance + g.pools[id].totalSpent else 0)
         == Total(g.pools, Holding()) + p.balance + p.totalSpent
    ensures Total(after.pools, SpentPart()) + (if id in g.pools then g.pools[id].totalSpent else 0)
         == Total(g.pools, SpentPart()) + p.totalSpent
  {
    TotalPut(g.pools, id, p, Holding());
    TotalPut(g.pools, id, p, SpentPart());
  }

  /** Pools may be added or rewritten under a log as long as they keep their birth block. */
  lemma LogStays(g: Storage, after: Storage, block: nat, later: nat)
    requires LogWellFormed(g, block) && block <= later && after.log == g.log
    requires forall id :: id in g.pools ==> id in after.pools && after.pools[id].createdAt == g.pools[id].createdAt
    ensures LogWellFormed(after, later)
  {
    forall k | k in after.log ensures RecordWellFormed(after, after.log[k], k, later) {
      assert RecordWellFormed(g, g.log[k], k, block);
    }
  }

  // ---- Conservation ----------------------------------------------------------------------

  /** A pool write keeps conservation when its holding gains exactly what was reserved. */
  lemma PutStaysConserved(s: State, after: State, id: PoolId, p: PoolInfo, paid: nat)
    requires Conserved(s) && after.storage.pools == s.storage.pools[id := p]
    requires OnlyReservesMore(s.accounts, after.accounts, p.owner, paid)
    requires Total(after.accounts, ReservedPart()) == Total(s.accounts, ReservedPart()) + paid
    requires id in s.storage.pools ==>
      s.storage.pools[id].owner == p.owner || s.storage.pools[id].balance + s.storage.pools[id].totalSpent == 0
    requires p.balance + p.totalSpent ==
      paid + if id in s.storage.pools then s.storage.pools[id].balance + s.storage.pools[id].totalSpent else 0
    ensures Conserved(after)
  {
    PutMovesTotals(s.storage, after.storage, id, p);
    forall a ensures Held(after.storage, a) == AccountOf(after.accounts, a).reserved {
      HeldAfterPut(s.storage, after.storage, id, p, a);
      assert Held(s.storage, a) == AccountOf(s.accounts, a).reserved;
    }
  }

  lemma SamePoolsStayConserved(s: State, after: State)
    requires Conserved(s) && after.storage.pools == s.storage.pools
    requires forall a :: AccountOf(after.accounts, a).reserved == AccountOf(s.accounts, a).reserved
    ensures Conserved(after)
  {
    ReservedTotalIsPointwise(after.accounts, s.accounts);
    forall a ensures Held(after.storage, a) == AccountOf(after.accounts, a).reserved {
      assert Held(s.storage, a) == AccountOf(s.accounts, a).reserved;
    }
  }

  /** The holding a successful call would overwrite: that of a pool under the id about to be
      handed out, if there is one. */
  function Overwritten(g: Storage, call: Call): nat {
    if call.CreatePool? && g.nextPoolId in g.pools
    then g.pools[g.nextPoolId].balance + g.pools[g.nextPoolId].totalSpent
    else 0
  }

  /** Every call that overwrites no holding keeps reserved funds equal to the pools. */
  lemma EffectConserves(cfg: Config, s: State, who: AccountId, call: Call, withdrawable: bool)
    requires Conserved(s) && Refusal(cfg, s, who, call, withdrawable) == Ok
    requires Overwritten(s.storage, call) == 0
    ensures Conserved(Effect(cfg, s, who, call, withdrawable))
  {
    var after := Effect(cfg, s, who, call, withdrawable);
    match call
    case CreatePool(deposit, _) =>
      ReserveMoves(s.accounts, who, deposit);
      PutStaysConserved(s, after, s.storage.nextPoolId, after.storage.pools[s.storage.nextPoolId], deposit);
    case FundPool(id, amount) =>
      ReserveMoves(s.accounts, who, amount);
      PutStaysConserved(s, after, id, after.storage.pools[id], amount);
    case UpdatePoolConfig(id, _) => PutStaysConserved(s, after, id, after.storage.pools[id], 0);
    case SponsorTransaction(id, _, _) => PutStaysConserved(s, after, id, after.storage.pools[id], 0);
    case _ => SamePoolsStayConserved(s, after);
  }

  lemma NextConserves(cfg: Config, s: State, step: Step)
    requires Conserved(s)
    requires Succeeds(cfg, s, step) ==> Overwritten(s.storage, step.call) == 0
    ensures Conserved(Next(cfg, s, step))
  {
    if Succeeds(cfg, s, step) {
      EffectConserves(cfg, s, step.origin.who, step.call, step.withdrawable);
    } else {
      SamePoolsStayConserved(s, Next(cfg, s, step));
    }
  }

  // ---- Creating a pool ------------------------------------------------------------------

  lemma CreateKeepsConsistent(cfg: Config, s: State, who: AccountId, deposit: nat, config: PoolConfig,
                              withdrawable: bool)
    requires Consistent(cfg, s) && s.storage.nextPoolId !in s.storage.pools
    requires Refusal(cfg, s, who, CreatePool(deposit, config), withdrawable) == Ok
    ensures Consistent(cfg, Effect(cfg, s, who, CreatePool(deposit, config), withdrawable))
  {
    var g := s.storage;
    var id := g.nextPoolId;
    var after := Effect(cfg, s, who, CreatePool(deposit, config), withdrawable);
    var p := after.storage.pools[id];
    EffectKeepsSolvent(cfg, s, who, CreatePool(deposit, config), withdrawable);
    EffectConserves(cfg, s, who, CreatePool(deposit, config), withdrawable);
    LogStays(g, after.storage, s.block, s.block);
    CreateAudits(g, after.storage, p, s.block);
    CreatePays(cfg, g, after.storage, p);
    CreateKeepsIndexes(g, after.storage, p);
    assert PoolsWellFormed(cfg, after.storage, s.block);
  }

  lemma CreateAudits(g: Storage, after: Storage, p: PoolInfo, block: nat)
    requires g.nextPoolId !in g.pools && LogWellFormed(g, block) && Audited(g)
    requires after.pools == g.pools[g.nextPoolId := p] && after.log == g.log && p.totalSpent == 0
    ensures Audited(after)
  {
    PutMovesTotals(g, after, g.nextPoolId, p);
    assert forall k :: k in g.log ==> RecordWellFormed(g, g.log[k], k, block);
    NoRecordNames(g, block, g.nextPoolId);
  }

  lemma CreatePays(cfg: Config, g: Storage, after: Storage, p: PoolInfo)
    requires g.nextPoolId !in g.pools && PaidFor(cfg, g)
    requires after.pools == g.pools[g.nextPoolId := p]
    requires after.nextPoolId <= g.nextPoolId + 1 && after.nextTransactionId == g.nextTransactionId
    requires p.totalSpent == 0 && p.balance >= cfg.minPoolDeposit
    ensures PaidFor(cfg, after)
  {
    PutMovesTotals(g, after, g.nextPoolId, p);
    OneMore(after.nextPoolId, g.nextPoolId, cfg.minPoolDeposit);
  }

  lemma OneMore(m: nat, n: nat, unit: nat)
    requires m <= n + 1
    ensures m * unit <= n * unit + unit
  {
    MulMonotone(m, n + 1, unit);
    assert (n + 1) * unit == n * unit + unit;
  }

  lemma CreateKeepsIndexes(g: Storage, after: Storage, p: PoolInfo)
    requires g.nextPoolId !in g.pools && IdsInUse(g) && OwnersIndexed(g)
    requires after.pools == g.pools[g.nextPoolId := p] && after.log == g.log
    requires after.nextPoolId == SaturatingAdd(g.nextPoolId, 1, MAX_U32)
    requires after.nextTransactionId == g.nextTransactionId
    requires after.poolOwners == g.poolOwners + {(p.owner, g.nextPoolId)}
    ensures IdsInUse(after) && OwnersIndexed(after)
  {
  }

  /** A pool that does not exist has no costs in an intact log. */
  lemma NoRecordNames(g: Storage, block: nat, id: PoolId)
    requires LogIntact(g, block) && id !in g.pools
    ensures Total(g.log, CostOn(id)) == 0
  {
    forall k | k in g.log ensures CostOn(id)(g.log[k]) == 0 {
      assert RecordIntact(g, g.log[k], k, block);
    }
    TotalZero(g.log, CostOn(id));
  }

  // ---- Funding and reconfiguring a pool -------------------------------------------------

  /** A write to an existing pool that keeps what the log refers to. */
  predicate KeepsIdentity(before: PoolInfo, after: PoolInfo) {
    && after.owner == before.owner
    && after.createdAt == before.createdAt
    && after.totalSpent == before.totalSpent
    && after.status == before.status
    && after.balance >= before.balance
  }

  lemma PoolWriteKeepsRest(cfg: Config, g: Storage, after: Storage, id: PoolId, p: PoolInfo, block: nat)
    requires id in g.pools && KeepsIdentity(g.pools[id], p)
    requires after.pools == g.pools[id := p] && after.log == g.log && after.poolOwners == g.poolOwners
    requires after.nextPoolId == g.nextPoolId && after.nextTransactionId == g.nextTransactionId
    requires Audited(g) && IdsInUse(g) && OwnersIndexed(g) && PoolsWellFormed(cfg, g, block)
    requires LogWellFormed(g, block) && PaidFor(cfg, g)
    ensures Audited(after) && IdsInUse(after) && OwnersIndexed(after) && PoolsWellFormed(cfg, after, block)
    ensures LogWellFormed(after, block) && PaidFor(cfg, after)
  {
    PoolWriteKeepsSums(cfg, g, after, id, p);
    LogStays(g, after, block, block);
    PoolWriteKeepsIndexes(g, after, id, p);
  }

  lemma PoolWriteKeepsSums(cfg: Config, g: Storage, after: Storage, id: PoolId, p: PoolInfo)
    requires id in g.pools && KeepsIdentity(g.pools[id], p)
    requires after.pools == g.pools[id := p] && after.log == g.log
    requires after.nextPoolId == g.nextPoolId && after.nextTransactionId == g.nextTransactionId
    requires Audited(g) && PaidFor(cfg, g)
    ensures Audited(after) && PaidFor(cfg, after)
  {
    PutMovesTotals(g, after, id, p);
  }

  lemma PoolWriteKeepsIndexes(g: Storage, after: Storage, id: PoolId, p: PoolInfo)
    requires id in g.pools && p.owner == g.pools[id].owner && after.pools == g.pools[id := p]
    requires after.poolOwners == g.poolOwners && after.nextPoolId == g.nextPoolId
    requires Contiguous(g.pools, g.nextPoolId, MAX_U32) && OwnersIndexed(g)
    ensures Contiguous(after.pools, after.nextPoolId, MAX_U32) && OwnersIndexed(after)
  {
  }

  lemma FundKeepsConsistent(cfg: Config, s: State, who: AccountId, id: PoolId, amount: nat, withdrawable: bool)
    requires Consistent(cfg, s)
    requires Refusal(cfg, s, who, FundPool(id, amount), withdrawable) == Ok
    ensures Consistent(cfg, Effect(cfg, s, who, FundPool(id, amount), withdrawable))
  {
    var after := Effect(cfg, s, who, FundPool(id, amount), withdrawable);
    EffectKeepsSolvent(cfg, s, who, FundPool(id, amount), withdrawable);
    EffectConserves(cfg, s, who, FundPool(id, amount), withdrawable);
    PoolWriteKeepsRest(cfg, s.storage, after.storage, id, after.storage.pools[id], s.block);
  }

  lemma ReconfigureKeepsConsistent(cfg: Config, s: State, who: AccountId, id: PoolId, config: PoolConfig)
    requires Consistent(cfg, s)
    requires Refusal(cfg, s, who, UpdatePoolConfig(id, config), true) == Ok
    ensures Consistent(cfg, Effect(cfg, s, who, UpdatePoolConfig(id, config), true))
  {
    var after := Effect(cfg, s, who, UpdatePoolConfig(id, config), true);
    EffectKeepsSolvent(cfg, s, who, UpdatePoolConfig(id, config), true);
    EffectConserves(cfg, s, who, UpdatePoolConfig(id, config), true);
    PoolWriteKeepsRest(cfg, s.storage, after.storage, id, after.storage.pools[id], s.block);
  }

  // ---- Sponsoring a transaction ---------------------------------------------------------

  lemma SponsorAudits(cfg: Config, s: State, who: AccountId, id: PoolId, chain: ParaId, callData: seq<Byte>)
    requires Audited(s.storage) && s.storage.nextTransactionId !in s.storage.log
    requires Refusal(cfg, s, who, SponsorTransaction(id, chain, callData), true) == Ok
    ensures Audited(Effect(cfg, s, who, SponsorTransaction(id, chain, callData), true).storage)
  {
    var g := s.storage;
    var after := Effect(cfg, s, who, SponsorTransaction(id, chain, callData), true).storage;
    var record := after.log[g.nextTransactionId];
    PutMovesTotals(g, after, id, after.pools[id]);
    TotalPut(g.log, g.nextTransactionId, record, Cost());
    forall other | other in after.pools
      ensures after.pools[other].totalSpent == Total(after.log, CostOn(other))
    {
      TotalPut(g.log, g.nextTransactionId, record, CostOn(other));
    }
  }

  lemma SponsorKeepsLog(cfg: Config, s: State, who: AccountId, id: PoolId, chain: ParaId, callData: seq<Byte>)
    requires LogWellFormed(s.storage, s.block) && IdsInUse(s.storage)
    requires PoolsWellFormed(cfg, s.storage, s.block)
    requires s.storage.nextTransactionId !in s.storage.log
    requires Refusal(cfg, s, who, SponsorTransaction(id, chain, callData), true) == Ok
    ensures LogWellFormed(Effect(cfg, s, who, SponsorTransaction(id, chain, callData), true).storage, s.block)
  {
    var g := s.storage;
    var after := Effect(cfg, s, who, SponsorTransaction(id, chain, callData), true).storage;
    DeliverableFee(chain, callData);
    forall k | k in after.log ensures RecordWellFormed(after, after.log[k], k, s.block) {
      if k in g.log {
        assert RecordWellFormed(g, g.log[k], k, s.block);
      }
    }
  }

  lemma SponsorKeepsConsistent(cfg: Config, s: State, who: AccountId, id: PoolId, chain: ParaId, callData: seq<Byte>)
    requires Consistent(cfg, s) && s.storage.nextTransactionId !in s.storage.log
    requires Refusal(cfg, s, who, SponsorTransaction(id, chain, callData), true) == Ok
    ensures Consistent(cfg, Effect(cfg, s, who, SponsorTransaction(id, chain, callData), true))
  {
    var after := Effect(cfg, s, who, SponsorTransaction(id, chain, callData), true);
    EffectKeepsSolvent(cfg, s, who, SponsorTransaction(id, chain, callData), true);
    EffectConserves(cfg, s, who, SponsorTransaction(id, chain, callData), true);
    SponsorAudits(cfg, s, who, id, chain, callData);
    SponsorKeepsLog(cfg, s, who, id, chain, callData);
    SponsorKeepsIndexes(cfg, s, who, id, chain, callData);
    SponsorPays(cfg, s, who, id, chain, callData);
  }

  lemma SponsorKeepsIndexes(cfg: Config, s: State, who: AccountId, id: PoolId, chain: ParaId, callData: seq<Byte>)
    requires IdsInUse(s.storage) && OwnersIndexed(s.storage) && PoolsWellFormed(cfg, s.storage, s.block)
    requires Refusal(cfg, s, who, SponsorTransaction(id, chain, callData), true) == Ok
    ensures var after := Effect(cfg, s, who, SponsorTransaction(id, chain, callData), true).storage;
      IdsInUse(after) && OwnersIndexed(after) && PoolsWellFormed(cfg, after, s.block)
  {
    var after := Effect(cfg, s, who, SponsorTransaction(id, chain, callData), true).storage;
    PoolWriteKeepsIndexes(s.storage, after, id, after.pools[id]);
  }

  lemma SponsorPays(cfg: Config, s: State, who: AccountId, id: PoolId, chain: ParaId, callData: seq<Byte>)
    requires PaidFor(cfg, s.storage)
    requires Refusal(cfg, s, who, SponsorTransaction(id, chain, callData), true) == Ok
    ensures PaidFor(cfg, Effect(cfg, s, who, SponsorTransaction(id, chain, callData), true).storage)
  {
    var after := Effect(cfg, s, who, SponsorTransaction(id, chain, callData), true).storage;
    DeliverableFee(chain, callData);
    PutMovesTotals(s.storage, after, id, after.pools[id]);
  }

  // ---- Every step -----------------------------------------------------------------------

  lemma EffectKeepsConsistent(cfg: Config, s: State, who: AccountId, call: Call, withdrawable: bool)
    requires Consistent(cfg, s) && TakesFreshId(s.storage, call)
    requires Refusal(cfg, s, who, call, withdrawable) == Ok
    ensures Consistent(cfg, Effect(cfg, s, who, call, withdrawable))
  {
    match call
    case CreatePool(deposit, config) => CreateKeepsConsistent(cfg, s, who, deposit, config, withdrawable);
    case FundPool(id, amount) => FundKeepsConsistent(cfg, s, who, id, amount, withdrawable);
    case UpdatePoolConfig(id, config) => ReconfigureKeepsConsistent(cfg, s, who, id, config);
    case SponsorTransaction(id, chain, callData) => SponsorKeepsConsistent(cfg, s, who, id, chain, callData);
    case _ => RuleOrReceiptKeepsConsistent(cfg, s, who, call, withdrawable);
  }

  lemma RuleOrReceiptKeepsConsistent(cfg: Config, s: State, who: AccountId, call: Call, withdrawable: bool)
    requires Consistent(cfg, s) && (call.AddRule? || call.RemoveRule? || call.SubmitReceipt?)
    requires Refusal(cfg, s, who, call, withdrawable) == Ok
    ensures Consistent(cfg, Effect(cfg, s, who, call, withdrawable))
  {
    EffectKeepsSolvent(cfg, s, who, call, withdrawable);
    EffectConserves(cfg, s, who, call, withdrawable);
    LogStays(s.storage, Effect(cfg, s, who, call, withdrawable).storage, s.block, s.block);
  }

  /** One step keeps the whole invariant as long as it does not reuse an id. */
  lemma NextKeepsConsistent(cfg: Config, s: State, step: Step)
    requires Consistent(cfg, s)
    requires Succeeds(cfg, s, step) ==> TakesFreshId(s.storage, step.call)
    ensures Consistent(cfg, Next(cfg, s, step))
  {
    if Succeeds(cfg, s, step) {
      EffectKeepsConsistent(cfg, s, step.origin.who, step.call, step.withdrawable);
    } else {
      var after := Next(cfg, s, step);
      NextKeepsSolvent(cfg, s, step);
      NextConserves(cfg, s, step);
      LogStays(s.storage, after.storage, s.block, after.block);
    }
  }

  lemma GenesisConsistent(cfg: Config, s: State)
    requires Genesis(s)
    ensures Consistent(cfg, s)
  {
    GenesisSolvent(s);
    TotalZero(s.accounts, ReservedPart());
    forall a ensures Held(s.storage, a) == AccountOf(s.accounts, a).reserved {
      TotalZero(s.storage.pools, HoldingOf(a));
    }
  }
}
