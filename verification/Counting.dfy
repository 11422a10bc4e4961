/** How many ids a run hands out, and what that count alone decides. Both id counters saturate
    instead of overflowing, so a stuck counter makes the next record overwrite the last one.
    This module says what every run keeps even then, and that runs which do not hand out more
    ids than there are keep everything. Module `Overwriting` says what the others lose, and
    module `Freshness` how much money it takes to be one of the others. */
module Counting {
  import opened Arithmetic
  import opened Gateway
  import opened Ledger
  import opened Consistency

  /** How many different ids a 32-bit and a 64-bit counter hand out. */
  const POOL_IDS: nat := 0x1_0000_0000
  const TRANSACTION_IDS: nat := 0x1_0000_0000_0000_0000

  predicate Creates(cfg: Config, s: State, step: Step) {
    Succeeds(cfg, s, step) && step.call.CreatePool?
  }

  predicate Sponsors(cfg: Config, s: State, step: Step) {
    Succeeds(cfg, s, step) && step.call.SponsorTransaction?
  }

  /** The successful creations and sponsorships of a run. */
  ghost function Creations(cfg: Config, s: State, steps: seq<Step>): nat {
    if steps == [] then 0
    else
      var front := steps[..|steps| - 1];
      Creations(cfg, s, front) + if Creates(cfg, Run(cfg, s, front), steps[|steps| - 1]) then 1 else 0
  }

  ghost function Sponsorships(cfg: Config, s: State, steps: seq<Step>): nat {
    if steps == [] then 0
    else
      var front := steps[..|steps| - 1];
      Sponsorships(cfg, s, front) + if Sponsors(cfg, Run(cfg, s, front), steps[|steps| - 1]) then 1 else 0
  }

  // ---- What every run keeps, overwriting or not ------------------------------------------

  /** After `count` insertions the ids in use are the first `count`, as far as there are ids. */
  ghost predicate Issued<V>(m: map<nat, V>, counter: nat, count: nat, ids: nat) {
    && ids > 0
    && counter == Min(count, ids - 1)
    && forall id: nat :: id in m <==> id < Min(count, ids)
  }

  /** The facts that survive overwriting: which ids are in use, and that no record is free. */
  ghost predicate Records(cfg: Config, g: Storage, created: nat, sponsored: nat) {
    && Issued(g.pools, g.nextPoolId, created, POOL_IDS)
    && Issued(g.log, g.nextTransactionId, sponsored, TRANSACTION_IDS)
    && (forall id :: id in g.pools ==> g.pools[id].balance + g.pools[id].totalSpent >= cfg.minPoolDeposit)
    && (forall id :: id in g.log ==> g.log[id].gasCost >= MIN_FEE)
  }

  lemma InsertIssues<V>(m: map<nat, V>, counter: nat, count: nat, ids: nat, v: V)
    requires Issued(m, counter, count, ids)
    ensures Issued(m[counter := v], SaturatingAdd(counter, 1, ids - 1), count + 1, ids)
  {
  }

  lemma CreateRecords(cfg: Config, s: State, who: AccountId, deposit: nat, config: PoolConfig, withdrawable: bool,
                      created: nat, sponsored: nat)
    requires Records(cfg, s.storage, created, sponsored)
    requires Refusal(cfg, s, who, CreatePool(deposit, config), withdrawable) == Ok
    ensures Records(cfg, Effect(cfg, s, who, CreatePool(deposit, config), withdrawable).storage, created + 1, sponsored)
  {
    var after := Effect(cfg, s, who, CreatePool(deposit, config), withdrawable).storage;
    InsertIssues(s.storage.pools, s.storage.nextPoolId, created, POOL_IDS, after.pools[s.storage.nextPoolId]);
  }

  lemma SponsorRecords(cfg: Config, s: State, who: AccountId, id: PoolId, chain: ParaId, callData: seq<Byte>,
                       created: nat, sponsored: nat)
    requires Records(cfg, s.storage, created, sponsored)
    requires Refusal(cfg, s, who, SponsorTransaction(id, chain, callData), true) == Ok
    ensures Records(cfg, Effect(cfg, s, who, SponsorTransaction(id, chain, callData), true).storage,
                    created, sponsored + 1)
  {
    var after := Effect(cfg, s, who, SponsorTransaction(id, chain, callData), true).storage;
    var tx := s.storage.nextTransactionId;
    InsertIssues(s.storage.log, tx, sponsored, TRANSACTION_IDS, after.log[tx]);
    DeliverableFee(chain, callData);
  }

  lemma NextRecords(cfg: Config, s: State, step: Step, created: nat, sponsored: nat)
    requires Records(cfg, s.storage, created, sponsored)
    ensures Records(cfg, Next(cfg, s, step).storage,
                    created + if Creates(cfg, s, step) then 1 else 0,
                    sponsored + if Sponsors(cfg, s, step) then 1 else 0)
  {
    if Succeeds(cfg, s, step) {
      match step.call
      case CreatePool(deposit, config) =>
        CreateRecords(cfg, s, step.origin.who, deposit, config, step.withdrawable, created, sponsored);
      case SponsorTransaction(id, chain, callData) =>
        SponsorRecords(cfg, s, step.origin.who, id, chain, callData, created, sponsored);
      case _ =>
    }
  }

  lemma {:induction false} RunRecords(cfg: Config, s: State, steps: seq<Step>)
    requires Genesis(s)
    ensures Records(cfg, Run(cfg, s, steps).storage, Creations(cfg, s, steps), Sponsorships(cfg, s, steps))
  {
    if steps != [] {
      var front := steps[..|steps| - 1];
      RunRecords(cfg, s, front);
      NextRecords(cfg, Run(cfg, s, front), steps[|steps| - 1],
                  Creations(cfg, s, front), Sponsorships(cfg, s, front));
    }
  }

  // ---- What every log keeps --------------------------------------------------------------

  lemma EffectKeepsLogIntact(cfg: Config, s: State, who: AccountId, call: Call, withdrawable: bool)
    requires LogIntact(s.storage, s.block)
    requires forall id :: id in s.storage.log ==> id <= s.storage.nextTransactionId
    requires Refusal(cfg, s, who, call, withdrawable) == Ok
    ensures LogIntact(Effect(cfg, s, who, call, withdrawable).storage, s.block)
  {
    var after := Effect(cfg, s, who, call, withdrawable).storage;
    if call.SponsorTransaction? {
      DeliverableFee(call.targetChain, call.callData);
    }
    forall k | k in after.log ensures RecordIntact(after, after.log[k], k, s.block) {
      assert k in s.storage.log ==> RecordIntact(s.storage, s.storage.log[k], k, s.block);
    }
  }

  /** Every log record of every run of every configuration carries its own key and is pending,
      costs a fee in the band, names a supported chain and an existing pool, and timestamps
      never decrease with the id. */
  lemma {:induction false} EveryLogIntact(cfg: Config, s: State, steps: seq<Step>)
    requires Genesis(s)
    ensures LogIntact(Run(cfg, s, steps).storage, Run(cfg, s, steps).block)
  {
    if steps != [] {
      var front, last := steps[..|steps| - 1], steps[|steps| - 1];
      var before, after := Run(cfg, s, front), Run(cfg, s, steps);
      EveryLogIntact(cfg, s, front);
      RunRecords(cfg, s, front);
      if Succeeds(cfg, before, last) {
        EffectKeepsLogIntact(cfg, before, last.origin.who, last.call, last.withdrawable);
      } else {
        forall k | k in after.storage.log ensures RecordIntact(after.storage, after.storage.log[k], k, after.block) {
          assert RecordIntact(before.storage, before.storage.log[k], k, before.block);
        }
      }
    }
  }

  // ---- What stands -----------------------------------------------------------------------

  /** What a later state must still say about what an earlier one recorded under pool ids
      below `pools` and transaction ids below `transactions`. */
  ghost predicate Extends(before: Storage, after: Storage, pools: nat, transactions: nat) {
    && (forall id :: id in before.pools && id < pools ==>
          && id in after.pools
          && after.pools[id].owner == before.pools[id].owner
          && after.pools[id].createdAt == before.pools[id].createdAt
          && after.pools[id].totalSpent >= before.pools[id].totalSpent)
    && (forall id :: id in before.log && id < transactions ==> id in after.log && after.log[id] == before.log[id])
    && before.nextPoolId <= after.nextPoolId
    && before.nextTransactionId <= after.nextTransactionId
    && before.poolOwners <= after.poolOwners
    && before.events <= after.events
  }

  lemma EffectExtends(cfg: Config, s: State, who: AccountId, call: Call, withdrawable: bool,
                      pools: nat, transactions: nat)
    requires s.storage.nextPoolId <= MAX_U32 && s.storage.nextTransactionId <= MAX_U64
    requires call.CreatePool? ==> pools <= s.storage.nextPoolId || s.storage.nextPoolId !in s.storage.pools
    requires call.SponsorTransaction? ==>
      transactions <= s.storage.nextTransactionId || s.storage.nextTransactionId !in s.storage.log
    requires Refusal(cfg, s, who, call, withdrawable) == Ok
    ensures Extends(s.storage, Effect(cfg, s, who, call, withdrawable).storage, pools, transactions)
  {
    match call
    case CreatePool(_, _) =>
    case FundPool(_, _) =>
    case UpdatePoolConfig(_, _) =>
    case AddRule(_, _) =>
    case RemoveRule(_, _) =>
    case SponsorTransaction(_, _, _) =>
    case SubmitReceipt(_) =>
  }

  lemma NextExtends(cfg: Config, s: State, step: Step, pools: nat, transactions: nat)
    requires s.storage.nextPoolId <= MAX_U32 && s.storage.nextTransactionId <= MAX_U64
    requires Creates(cfg, s, step) ==> pools <= s.storage.nextPoolId || s.storage.nextPoolId !in s.storage.pools
    requires Sponsors(cfg, s, step) ==>
      transactions <= s.storage.nextTransactionId || s.storage.nextTransactionId !in s.storage.log
    ensures Extends(s.storage, Next(cfg, s, step).storage, pools, transactions)
  {
    if Succeeds(cfg, s, step) {
      EffectExtends(cfg, s, step.origin.who, step.call, step.withdrawable, pools, transactions);
    }
  }

  lemma ExtendsIsTransitive(a: Storage, b: Storage, c: Storage, pools: nat, transactions: nat)
    requires Extends(a, b, pools, transactions) && Extends(b, c, pools, transactions)
    ensures Extends(a, c, pools, transactions)
  {
  }

  /** From any point of a run to its end, what is recorded under ids below the limits stands if
      the limits are not above the counters of that point or the run does not exhaust the ids. */
  lemma {:induction false} RunExtends(cfg: Config, s: State, steps: seq<Step>, early: nat,
                                      pools: nat, transactions: nat)
    requires Genesis(s) && early <= |steps|
    requires pools <= Run(cfg, s, steps[..early]).storage.nextPoolId || Creations(cfg, s, steps) <= POOL_IDS
    requires transactions <= Run(cfg, s, steps[..early]).storage.nextTransactionId
          || Sponsorships(cfg, s, steps) <= TRANSACTION_IDS
    ensures Extends(Run(cfg, s, steps[..early]).storage, Run(cfg, s, steps).storage, pools, transactions)
  {
    if early == |steps| {
      assert steps[..early] == steps;
    } else {
      var front, last := steps[..|steps| - 1], steps[|steps| - 1];
      var before := Run(cfg, s, front);
      assert front[..early] == steps[..early];
      RunExtends(cfg, s, front, early, pools, transactions);
      RunRecords(cfg, s, front);
      NextExtends(cfg, before, last, pools, transactions);
      ExtendsIsTransitive(Run(cfg, s, steps[..early]).storage, before.storage, Run(cfg, s, steps).storage,
                          pools, transactions);
    }
  }

  /** In every run of every configuration, what is recorded under an id below its counter
      stands from then on: owners, birth blocks and log records stay, spending only grows. The
      counters never go back, the owner index only grows and events are only appended. */
  lemma EveryRunExtends(cfg: Config, s: State, steps: seq<Step>, early: nat)
    requires Genesis(s) && early <= |steps|
    ensures var before := Run(cfg, s, steps[..early]).storage;
      Extends(before, Run(cfg, s, steps).storage, before.nextPoolId, before.nextTransactionId)
  {
    var before := Run(cfg, s, steps[..early]).storage;
    RunExtends(cfg, s, steps, early, before.nextPoolId, before.nextTransactionId);
  }

  // ---- Few enough ids: everything holds --------------------------------------------------

  /** With at most 2^32 creations and 2^64 sponsorships the full invariant holds, whatever the
      minimum deposit and the issuance. */
  lemma {:induction false} FewIdsKeepConsistent(cfg: Config, s: State, steps: seq<Step>)
    requires Genesis(s)
    requires Creations(cfg, s, steps) <= POOL_IDS && Sponsorships(cfg, s, steps) <= TRANSACTION_IDS
    ensures Consistent(cfg, Run(cfg, s, steps))
  {
    if steps == [] {
      GenesisConsistent(cfg, s);
    } else {
      var front := steps[..|steps| - 1];
      FewIdsKeepConsistent(cfg, s, front);
      RunRecords(cfg, s, front);
      NextKeepsConsistent(cfg, Run(cfg, s, front), steps[|steps| - 1]);
    }
  }

  /** Under the same two counts everything ever recorded stands to the end of the run. */
  lemma FewIdsExtend(cfg: Config, s: State, steps: seq<Step>, early: nat)
    requires Genesis(s) && early <= |steps|
    requires Creations(cfg, s, steps) <= POOL_IDS && Sponsorships(cfg, s, steps) <= TRANSACTION_IDS
    ensures Extends(Run(cfg, s, steps[..early]).storage, Run(cfg, s, steps).storage, POOL_IDS, TRANSACTION_IDS)
    ensures forall id :: id in Run(cfg, s, steps[..early]).storage.pools ==> id < POOL_IDS
    ensures forall id :: id in Run(cfg, s, steps[..early]).storage.log ==> id < TRANSACTION_IDS
  {
    RunExtends(cfg, s, steps, early, POOL_IDS, TRANSACTION_IDS);
    RunRecords(cfg, s, steps[..early]);
  }

  /** What the invariant then says about the two id maps and the owner index, spelled out: pool
      and log keys are exactly the first ids, as many as were handed out, each record carries
      its own key and names an existing pool born no later, timestamps never decrease with the
      id, and the index holds a pair exactly when the account owns that pool. */
  lemma FewIdsNumberWithoutGaps(cfg: Config, s: State, steps: seq<Step>)
    requires Genesis(s)
    requires Creations(cfg, s, steps) <= POOL_IDS && Sponsorships(cfg, s, steps) <= TRANSACTION_IDS
    ensures var g := Run(cfg, s, steps).storage;
      var created, sponsored := Creations(cfg, s, steps), Sponsorships(cfg, s, steps);
      && (forall id: nat :: id in g.pools <==> id < created)
      && (forall id: nat :: id in g.log <==> id < sponsored)
      && (forall id: nat :: id < sponsored ==>
            && g.log[id].id == id
            && g.log[id].poolId < created
            && g.pools[g.log[id].poolId].createdAt <= g.log[id].timestamp)
      && (forall i: nat, j: nat :: i < j < sponsored ==> g.log[i].timestamp <= g.log[j].timestamp)
      && (forall a: AccountId, id: nat :: (a, id) in g.poolOwners <==> id < created && g.pools[id].owner == a)
  {
    FewIdsKeepConsistent(cfg, s, steps);
    RunRecords(cfg, s, steps);
    var end := Run(cfg, s, steps);
    forall id: nat | id in end.storage.log
      ensures RecordWellFormed(end.storage, end.storage.log[id], id, end.block)
    {
    }
  }
}
