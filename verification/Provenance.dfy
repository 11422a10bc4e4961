/** Where everything in storage comes from. Each cell of the pallet's storage is written by some
    calls and by no others, so after any run it holds what the last accepted one of them said.
    Balances, which accumulate, are the subject of modules `Replay` and `Overwriting`. */
module Provenance {
  import opened Gateway
  import opened Ledger
  import opened Sponsoring

  datatype Option<+T> = None | Some(value: T)

  // ---- The last write stands -------------------------------------------------------------

  /** `writes` says which value, if any, a step writes to a cell. The cell holds what the last
      writing step of the run wrote, or its initial value if no step wrote it. */
  ghost predicate HoldsLastWrite<V>(cfg: Config, s: State, steps: seq<Step>, writes: (State, Step) -> Option<V>,
                                    initial: V, final: V)
  {
    || (exists n :: LastWriteAt(cfg, s, steps, writes, n) && writes(Run(cfg, s, steps[..n]), steps[n]) == Some(final))
    || ((forall n :: 0 <= n < |steps| ==> writes(Run(cfg, s, steps[..n]), steps[n]) == None) && final == initial)
  }

  /** Step `n` writes the cell and no later one does. */
  ghost predicate LastWriteAt<V>(cfg: Config, s: State, steps: seq<Step>, writes: (State, Step) -> Option<V>,
                                       n: int)
  {
    && 0 <= n < |steps|
    && writes(Run(cfg, s, steps[..n]), steps[n]) != None
    && forall m :: n < m < |steps| ==> writes(Run(cfg, s, steps[..m]), steps[m]) == None
  }

  /** A step writes what it says it writes to the cell, and otherwise leaves it alone. */
  ghost predicate Obeys<V>(cfg: Config, s: State, step: Step, writes: (State, Step) -> Option<V>, cell: Storage -> V) {
    cell(Next(cfg, s, step).storage) == if writes(s, step).Some? then writes(s, step).value else cell(s.storage)
  }

  lemma LastWriteOneMore<V>(cfg: Config, s: State, front: seq<Step>, last: Step,
                            writes: (State, Step) -> Option<V>, initial: V, before: V)
    requires HoldsLastWrite(cfg, s, front, writes, initial, before)
    ensures var written := writes(Run(cfg, s, front), last);
      HoldsLastWrite(cfg, s, front + [last], writes, initial, if written.Some? then written.value else before)
  {
    var steps := front + [last];
    assert forall n :: 0 <= n <= |front| ==> steps[..n] == front[..n];
    assert front[..|front|] == front;
    if writes(Run(cfg, s, front), last).Some? {
      assert LastWriteAt(cfg, s, steps, writes, |front|);
    } else if n :| LastWriteAt(cfg, s, front, writes, n) && writes(Run(cfg, s, front[..n]), front[n]) == Some(before) {
      assert LastWriteAt(cfg, s, steps, writes, n);
    }
  }

  /** A cell that every step obeys holds the last write. */
  lemma {:induction false} LastWriteStands<V>(cfg: Config, s: State, steps: seq<Step>,
                                              writes: (State, Step) -> Option<V>, cell: Storage -> V)
    requires forall n :: 0 <= n < |steps| ==> Obeys(cfg, Run(cfg, s, steps[..n]), steps[n], writes, cell)
    ensures HoldsLastWrite(cfg, s, steps, writes, cell(s.storage), cell(Run(cfg, s, steps).storage))
  {
    if steps != [] {
      var front, last := steps[..|steps| - 1], steps[|steps| - 1];
      forall n | 0 <= n < |front| ensures Obeys(cfg, Run(cfg, s, front[..n]), front[n], writes, cell) {
        assert front[..n] == steps[..n];
      }
      LastWriteStands(cfg, s, front, writes, cell);
      LastWriteOneMore(cfg, s, front, last, writes, cell(s.storage), cell(Run(cfg, s, front).storage));
      assert front + [last] == steps;
      assert Obeys(cfg, Run(cfg, s, front), last, writes, cell);
    }
  }

  // ---- Cells, and what accepted calls write to them --------------------------------------

  /** A pool's configuration: given at its creation, replaced by each accepted update. */
  function ConfigOf(id: PoolId): Storage -> Option<PoolConfig> {
    (g: Storage) => if id in g.pools then Some(g.pools[id].config) else None
  }

  function ConfigWrites(cfg: Config, id: PoolId): (State, Step) -> Option<Option<PoolConfig>> {
    (s: State, step: Step) =>
      if !Succeeds(cfg, s, step) then None
      else
        match step.call
        case CreatePool(_, config) => if s.storage.nextPoolId == id then Some(Some(config)) else None
        case UpdatePoolConfig(updated, config) => if updated == id then Some(Some(config)) else None
        case _ => None
  }

  /** What a pool is born with and keeps: its owner, its block and its status. */
  datatype Birth = Birth(owner: AccountId, createdAt: nat, status: PoolStatus)

  function BirthOf(id: PoolId): Storage -> Option<Birth> {
    (g: Storage) =>
      if id in g.pools then Some(Birth(g.pools[id].owner, g.pools[id].createdAt, g.pools[id].status)) else None
  }

  function BirthWrites(cfg: Config, id: PoolId): (State, Step) -> Option<Option<Birth>> {
    (s: State, step: Step) =>
      if Succeeds(cfg, s, step) && step.call.CreatePool? && s.storage.nextPoolId == id
      then Some(Some(Birth(step.origin.who, s.block, Active)))
      else None
  }

  /** The rule of one type on one pool: filed, replaced or removed by its owner. */
  function RuleOf(id: PoolId, ruleType: RuleType): Storage -> Option<Rule> {
    (g: Storage) => if (id, ruleType) in g.rules then Some(g.rules[(id, ruleType)]) else None
  }

  function RuleWrites(cfg: Config, id: PoolId, ruleType: RuleType): (State, Step) -> Option<Option<Rule>> {
    (s: State, step: Step) =>
      if !Succeeds(cfg, s, step) then None
      else
        match step.call
        case AddRule(pool, rule) => if pool == id && rule.ruleType == ruleType then Some(Some(rule)) else None
        case RemoveRule(pool, removed) => if pool == id && removed == ruleType then Some(None) else None
        case _ => None
  }

  /** A log record: written once, by the sponsorship it records, as long as ids last. */
  function RecordOf(tx: TxId): Storage -> Option<TransactionRecord> {
    (g: Storage) => if tx in g.log then Some(g.log[tx]) else None
  }

  function RecordWrites(cfg: Config, tx: TxId): (State, Step) -> Option<Option<TransactionRecord>> {
    (s: State, step: Step) =>
      if Succeeds(cfg, s, step) && step.call.SponsorTransaction? && s.storage.nextTransactionId == tx
      then
        var call := step.call;
        Some(Some(TransactionRecord(
          tx, call.poolId, step.origin.who, call.targetChain, cfg.hash(call.callData),
          RpcEstimate(call.targetChain, call.callData), TransactionStatus.Pending, s.block)))
      else None
  }

  /** Whether an account is indexed for a pool id: from its first creation of it on. */
  function IndexOf(who: AccountId, id: PoolId): Storage -> bool {
    (g: Storage) => (who, id) in g.poolOwners
  }

  function IndexWrites(cfg: Config, who: AccountId, id: PoolId): (State, Step) -> Option<bool> {
    (s: State, step: Step) =>
      if Succeeds(cfg, s, step) && step.call.CreatePool? && s.storage.nextPoolId == id && step.origin.who == who
      then Some(true)
      else None
  }

  // ---- Every step writes its cells and no others -----------------------------------------

  lemma StepWritesConfig(cfg: Config, s: State, step: Step, id: PoolId)
    ensures Obeys(cfg, s, step, ConfigWrites(cfg, id), ConfigOf(id))
  {
  }

  lemma StepWritesBirth(cfg: Config, s: State, step: Step, id: PoolId)
    ensures Obeys(cfg, s, step, BirthWrites(cfg, id), BirthOf(id))
  {
  }

  lemma StepWritesRule(cfg: Config, s: State, step: Step, id: PoolId, ruleType: RuleType)
    ensures Obeys(cfg, s, step, RuleWrites(cfg, id, ruleType), RuleOf(id, ruleType))
  {
  }

  lemma StepWritesRecord(cfg: Config, s: State, step: Step, tx: TxId)
    ensures Obeys(cfg, s, step, RecordWrites(cfg, tx), RecordOf(tx))
  {
    if Succeeds(cfg, s, step) && step.call.SponsorTransaction? {
      SponsorSucceedsIff(cfg, s, step.origin, step.call.poolId, step.call.targetChain, step.call.callData,
                         step.withdrawable);
    }
  }

  lemma StepWritesIndex(cfg: Config, s: State, step: Step, who: AccountId, id: PoolId)
    ensures Obeys(cfg, s, step, IndexWrites(cfg, who, id), IndexOf(who, id))
  {
  }

  // ---- Over whole runs -------------------------------------------------------------------

  /** After any run from any state, a pool's configuration is the one of the last accepted update
      of it or creation under its id, or the one it had; and it has the owner, block and status of
      the last creation under its id. */
  lemma PoolsHoldLastWrites(cfg: Config, s: State, steps: seq<Step>, id: PoolId)
    ensures var end := Run(cfg, s, steps).storage;
      && HoldsLastWrite(cfg, s, steps, ConfigWrites(cfg, id), ConfigOf(id)(s.storage), ConfigOf(id)(end))
      && HoldsLastWrite(cfg, s, steps, BirthWrites(cfg, id), BirthOf(id)(s.storage), BirthOf(id)(end))
  {
    forall n | 0 <= n < |steps|
      ensures Obeys(cfg, Run(cfg, s, steps[..n]), steps[n], ConfigWrites(cfg, id), ConfigOf(id))
      ensures Obeys(cfg, Run(cfg, s, steps[..n]), steps[n], BirthWrites(cfg, id), BirthOf(id))
    {
      StepWritesConfig(cfg, Run(cfg, s, steps[..n]), steps[n], id);
      StepWritesBirth(cfg, Run(cfg, s, steps[..n]), steps[n], id);
    }
    LastWriteStands(cfg, s, steps, ConfigWrites(cfg, id), ConfigOf(id));
    LastWriteStands(cfg, s, steps, BirthWrites(cfg, id), BirthOf(id));
  }

  /** A pool has a rule of a type exactly if its owner's last word on that type filed one, and
      then it is that one. */
  lemma RulesHoldLastWrites(cfg: Config, s: State, steps: seq<Step>, id: PoolId, ruleType: RuleType)
    ensures HoldsLastWrite(cfg, s, steps, RuleWrites(cfg, id, ruleType), RuleOf(id, ruleType)(s.storage),
                           RuleOf(id, ruleType)(Run(cfg, s, steps).storage))
  {
    forall n | 0 <= n < |steps|
      ensures Obeys(cfg, Run(cfg, s, steps[..n]), steps[n], RuleWrites(cfg, id, ruleType), RuleOf(id, ruleType))
    {
      StepWritesRule(cfg, Run(cfg, s, steps[..n]), steps[n], id, ruleType);
    }
    LastWriteStands(cfg, s, steps, RuleWrites(cfg, id, ruleType), RuleOf(id, ruleType));
  }

  /** A log record says what the last sponsorship under its id was: who, from which pool, to which
      chain, the hash of the call, the quoted fee, and when. */
  lemma RecordsHoldLastWrites(cfg: Config, s: State, steps: seq<Step>, tx: TxId)
    ensures HoldsLastWrite(cfg, s, steps, RecordWrites(cfg, tx), RecordOf(tx)(s.storage),
                           RecordOf(tx)(Run(cfg, s, steps).storage))
  {
    forall n | 0 <= n < |steps|
      ensures Obeys(cfg, Run(cfg, s, steps[..n]), steps[n], RecordWrites(cfg, tx), RecordOf(tx))
    {
      StepWritesRecord(cfg, Run(cfg, s, steps[..n]), steps[n], tx);
    }
    LastWriteStands(cfg, s, steps, RecordWrites(cfg, tx), RecordOf(tx));
  }

  /** From genesis, an account is indexed for a pool id if and only if it created a pool under it. */
  lemma IndexedIffCreated(cfg: Config, s: State, steps: seq<Step>, who: AccountId, id: PoolId)
    requires Genesis(s)
    ensures (who, id) in Run(cfg, s, steps).storage.poolOwners <==>
      exists n :: 0 <= n < |steps| && IndexWrites(cfg, who, id)(Run(cfg, s, steps[..n]), steps[n]).Some?
  {
    forall n | 0 <= n < |steps|
      ensures Obeys(cfg, Run(cfg, s, steps[..n]), steps[n], IndexWrites(cfg, who, id), IndexOf(who, id))
    {
      StepWritesIndex(cfg, Run(cfg, s, steps[..n]), steps[n], who, id);
    }
    LastWriteStands(cfg, s, steps, IndexWrites(cfg, who, id), IndexOf(who, id));
  }

  /** In every run from genesis each pool's configuration was given by some accepted creation or
      update and by no later one, and each log record by some sponsorship and no later one. */
  lemma EverythingHasASource(cfg: Config, s: State, steps: seq<Step>, id: PoolId, tx: TxId)
    requires Genesis(s)
    ensures var g := Run(cfg, s, steps).storage;
      && (id in g.pools ==> exists n ::
            && LastWriteAt(cfg, s, steps, ConfigWrites(cfg, id), n)
            && ConfigWrites(cfg, id)(Run(cfg, s, steps[..n]), steps[n]) == Some(Some(g.pools[id].config)))
      && (tx in g.log ==> exists n ::
            && LastWriteAt(cfg, s, steps, RecordWrites(cfg, tx), n)
            && RecordWrites(cfg, tx)(Run(cfg, s, steps[..n]), steps[n]) == Some(Some(g.log[tx])))
  {
    PoolsHoldLastWrites(cfg, s, steps, id);
    RecordsHoldLastWrites(cfg, s, steps, tx);
  }
}
