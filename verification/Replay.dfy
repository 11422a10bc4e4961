/** The event stream as a complete account: replaying it from nothing rebuilds the pools, the
    transactions and both counters, in every run. */
module Replay {
  import opened Arithmetic
  import opened MapTotals
  import opened Gateway
  import opened Ledger
  import opened Consistency
  import opened Counting

  datatype Entry = Entry(owner: AccountId, balance: int, spent: nat)

  datatype Charge = Charge(poolId: PoolId, user: AccountId, targetChain: ParaId, cost: nat)

  /** What an off-chain reader knows who has seen nothing but events. */
  datatype Book = Book(
    pools: map<PoolId, Entry>, poolCount: nat, transactions: map<TxId, Charge>, transactionCount: nat)

  /** The reader counts ids as the pallet does, up to the largest one. */
  function Post(book: Book, event: Event): Book {
    match event
    case PoolCreated(id, owner, deposit) =>
      book.(pools := book.pools[id := Entry(owner, deposit, 0)],
            poolCount := SaturatingAdd(book.poolCount, 1, MAX_U32))
    case PoolFunded(id, amount, _) =>
      if id !in book.pools then book
      else book.(pools := book.pools[id := book.pools[id].(balance := book.pools[id].balance + amount)])
    case TransactionSponsored(tx, id, user, chain, cost) =>
      if id !in book.pools then book
      else
        var e := book.pools[id];
        book.(pools := book.pools[id := Entry(e.owner, e.balance - cost, e.spent + cost)],
              transactions := book.transactions[tx := Charge(id, user, chain, cost)],
              transactionCount := SaturatingAdd(book.transactionCount, 1, MAX_U64))
    case _ => book
  }

  function Replayed(events: seq<Event>): Book {
    if events == [] then Book(map[], 0, map[], 0)
    else Post(Replayed(events[..|events| - 1]), events[|events| - 1])
  }

  function EntryOf(p: PoolInfo): Entry {
    Entry(p.owner, p.balance, p.totalSpent)
  }

  function ChargeOf(t: TransactionRecord): Charge {
    Charge(t.poolId, t.user, t.targetChain, t.gasCost)
  }

  function Entries(pools: map<PoolId, PoolInfo>): map<PoolId, Entry> {
    map id | id in pools :: EntryOf(pools[id])
  }

  function Charges(log: map<TxId, TransactionRecord>): map<TxId, Charge> {
    map tx | tx in log :: ChargeOf(log[tx])
  }

  /** The same facts read off the storage. */
  function BookOf(g: Storage): Book {
    Book(Entries(g.pools), g.nextPoolId, Charges(g.log), g.nextTransactionId)
  }

  /** An event agrees with the replay of the events before it: new ids are the running
      counts, and an announced balance is the balance the replay arrives at. */
  predicate Truthful(before: Book, event: Event) {
    match event
    case PoolCreated(id, _, _) => id == before.poolCount
    case PoolFunded(id, amount, newBalance) => id in before.pools && newBalance == before.pools[id].balance + amount
    case TransactionSponsored(tx, id, _, _, cost) =>
      tx == before.transactionCount && id in before.pools && cost <= before.pools[id].balance
    case PoolConfigUpdated(id, owner) => id in before.pools && before.pools[id].owner == owner
    case RuleAdded(id, _) => id in before.pools
    case RuleRemoved(id, _) => id in before.pools
  }

  ghost predicate AllTruthful(events: seq<Event>) {
    forall i :: 0 <= i < |events| ==> Truthful(Replayed(events[..i]), events[i])
  }

  /** The event a successful call emits; receipts emit none. */
  function Announced(s: State, who: AccountId, call: Call): Event
    requires !call.SubmitReceipt?
    requires call.FundPool? ==> call.poolId in s.storage.pools
    requires call.SponsorTransaction? ==> Supported(call.targetChain)
  {
    match call
    case CreatePool(deposit, _) => PoolCreated(s.storage.nextPoolId, who, deposit)
    case FundPool(id, amount) => PoolFunded(id, amount, s.storage.pools[id].balance + amount)
    case UpdatePoolConfig(id, _) => PoolConfigUpdated(id, who)
    case AddRule(id, rule) => RuleAdded(id, rule.ruleType)
    case RemoveRule(id, ruleType) => RuleRemoved(id, ruleType)
    case SponsorTransaction(id, chain, callData) =>
      TransactionSponsored(s.storage.nextTransactionId, id, who, chain, EstimateFee(chain, callData).value)
  }

  lemma EntriesPut(pools: map<PoolId, PoolInfo>, id: PoolId, p: PoolInfo)
    ensures Entries(pools[id := p]) == Entries(pools)[id := EntryOf(p)]
    ensures id in pools && EntryOf(p) == EntryOf(pools[id]) ==> Entries(pools[id := p]) == Entries(pools)
  {
  }

  lemma ChargesPut(log: map<TxId, TransactionRecord>, tx: TxId, t: TransactionRecord)
    ensures Charges(log[tx := t]) == Charges(log)[tx := ChargeOf(t)]
  {
  }

  lemma SponsorPosts(cfg: Config, s: State, who: AccountId, id: PoolId, chain: ParaId, callData: seq<Byte>)
    requires SponsorRefusal(s.storage, id, chain, callData) == Ok
    ensures BookOf(Effect(cfg, s, who, SponsorTransaction(id, chain, callData), true).storage)
         == Post(BookOf(s.storage), Announced(s, who, SponsorTransaction(id, chain, callData)))
  {
    var g := Effect(cfg, s, who, SponsorTransaction(id, chain, callData), true).storage;
    EntriesPut(s.storage.pools, id, g.pools[id]);
    ChargesPut(s.storage.log, s.storage.nextTransactionId, g.log[s.storage.nextTransactionId]);
  }

  /** Posting the event of a call moves the book as the call moved the storage. */
  lemma EffectPosts(cfg: Config, s: State, who: AccountId, call: Call, withdrawable: bool)
    requires Refusal(cfg, s, who, call, withdrawable) == Ok && !call.SubmitReceipt?
    ensures BookOf(Effect(cfg, s, who, call, withdrawable).storage) == Post(BookOf(s.storage), Announced(s, who, call))
  {
    var g := Effect(cfg, s, who, call, withdrawable).storage;
    match call
    case CreatePool(_, _) => EntriesPut(s.storage.pools, s.storage.nextPoolId, g.pools[s.storage.nextPoolId]);
    case FundPool(id, _) => EntriesPut(s.storage.pools, id, g.pools[id]);
    case UpdatePoolConfig(id, _) => EntriesPut(s.storage.pools, id, g.pools[id]);
    case SponsorTransaction(id, chain, callData) => SponsorPosts(cfg, s, who, id, chain, callData);
    case _ =>
  }

  lemma EffectAnnounces(cfg: Config, s: State, who: AccountId, call: Call, withdrawable: bool)
    requires Refusal(cfg, s, who, call, withdrawable) == Ok && !call.SubmitReceipt?
    ensures Effect(cfg, s, who, call, withdrawable).storage.events == s.storage.events + [Announced(s, who, call)]
    ensures Truthful(BookOf(s.storage), Announced(s, who, call))
  {
  }

  lemma AppendTruth(events: seq<Event>, event: Event)
    requires AllTruthful(events) && Truthful(Replayed(events), event)
    ensures AllTruthful(events + [event])
    ensures Replayed(events + [event]) == Post(Replayed(events), event)
  {
    var longer := events + [event];
    assert longer[..|events|] == events;
    forall i | 0 <= i < |longer| ensures Truthful(Replayed(longer[..i]), longer[i]) {
      assert i < |events| ==> longer[..i] == events[..i];
    }
  }

  /** Over every run of every configuration, even one that overwrites records, the replay of the
      events is the state, and every event told the truth when it was emitted. */
  lemma {:induction false} EventsRebuildState(cfg: Config, s: State, steps: seq<Step>)
    requires Genesis(s)
    ensures var g := Run(cfg, s, steps).storage;
      Replayed(g.events) == BookOf(g) && AllTruthful(g.events)
  {
    if steps != [] {
      var front := steps[..|steps| - 1];
      var before := Run(cfg, s, front);
      var step := steps[|steps| - 1];
      EventsRebuildState(cfg, s, front);
      NextRebuilds(cfg, before, step);
    }
  }

  /** Read entry by entry: a reader of the events alone knows exactly the pools and transactions
      there are, the owner, the balance and the spending of each pool, the payer, the user, the
      chain and the cost of each transaction, and the next ids. */
  lemma ReaderKnows(cfg: Config, s: State, steps: seq<Step>, id: PoolId, tx: TxId)
    requires Genesis(s)
    ensures var g := Run(cfg, s, steps).storage;
      var book := Replayed(g.events);
      && (id in book.pools <==> id in g.pools)
      && (id in g.pools ==>
            && book.pools[id].owner == g.pools[id].owner
            && book.pools[id].balance == g.pools[id].balance
            && book.pools[id].spent == g.pools[id].totalSpent)
      && (tx in book.transactions <==> tx in g.log)
      && (tx in g.log ==>
            && book.transactions[tx].poolId == g.log[tx].poolId
            && book.transactions[tx].user == g.log[tx].user
            && book.transactions[tx].targetChain == g.log[tx].targetChain
            && book.transactions[tx].cost == g.log[tx].gasCost)
      && book.poolCount == g.nextPoolId && book.transactionCount == g.nextTransactionId
  {
    EventsRebuildState(cfg, s, steps);
  }

  lemma NextRebuilds(cfg: Config, s: State, step: Step)
    requires Replayed(s.storage.events) == BookOf(s.storage) && AllTruthful(s.storage.events)
    ensures var g := Next(cfg, s, step).storage;
      Replayed(g.events) == BookOf(g) && AllTruthful(g.events)
  {
    if Succeeds(cfg, s, step) && !step.call.SubmitReceipt? {
      EffectPosts(cfg, s, step.origin.who, step.call, step.withdrawable);
      EffectAnnounces(cfg, s, step.origin.who, step.call, step.withdrawable);
      AppendTruth(s.storage.events, Announced(s, step.origin.who, step.call));
    }
  }

  // ---- Money in, money out ---------------------------------------------------------------

  function PaidIn(event: Event, id: PoolId): nat {
    match event
    case PoolCreated(created, _, deposit) => if created == id then deposit else 0
    case PoolFunded(funded, amount, _) => if funded == id then amount else 0
    case _ => 0
  }

  /** All deposits and fundings ever announced for a pool id. */
  function AllPaidIn(events: seq<Event>, id: PoolId): nat {
    if events == [] then 0
    else AllPaidIn(events[..|events| - 1], id) + PaidIn(events[|events| - 1], id)
  }

  /** The deposit and the fundings of the pool now under an id, that is, since its creation. */
  function PaidInSinceCreation(events: seq<Event>, id: PoolId): nat {
    if events == [] then 0
    else
      var front, last := events[..|events| - 1], events[|events| - 1];
      if last.PoolCreated? && last.poolId == id then last.initialDeposit
      else PaidInSinceCreation(front, id) + PaidIn(last, id)
  }

  lemma {:induction false} TruthfulBooksBalance(events: seq<Event>, id: PoolId)
    requires AllTruthful(events)
    ensures var book := Replayed(events);
      if id in book.pools then book.pools[id].balance + book.pools[id].spent == PaidInSinceCreation(events, id)
      else AllPaidIn(events, id) == PaidInSinceCreation(events, id) == 0
  {
    if events != [] {
      var front := events[..|events| - 1];
      assert AllTruthful(front) by {
        forall i | 0 <= i < |front| ensures Truthful(Replayed(front[..i]), front[i]) {
          assert front[..i] == events[..i];
          assert Truthful(Replayed(events[..i]), events[i]);
        }
      }
      TruthfulBooksBalance(front, id);
      assert Truthful(Replayed(events[..|events| - 1]), events[|events| - 1]);
    }
  }

  /** In every state of every run of every configuration, a pool's balance and spending add up to
      what was paid in since it was created. */
  lemma EveryPoolBalances(cfg: Config, s: State, steps: seq<Step>, id: PoolId)
    requires Genesis(s) && id in Run(cfg, s, steps).storage.pools
    ensures var g := Run(cfg, s, steps).storage;
      g.pools[id].balance + g.pools[id].totalSpent == PaidInSinceCreation(g.events, id)
  {
    EventsRebuildState(cfg, s, steps);
    TruthfulBooksBalance(Run(cfg, s, steps).storage.events, id);
  }

  /** While the pool ids last each id is created once, so that is all that was ever paid in. */
  lemma {:induction false} CreatedOnce(cfg: Config, s: State, steps: seq<Step>, id: PoolId)
    requires Genesis(s) && Creations(cfg, s, steps) <= POOL_IDS
    ensures var events := Run(cfg, s, steps).storage.events;
      AllPaidIn(events, id) == PaidInSinceCreation(events, id)
  {
    if steps != [] {
      var front, last := steps[..|steps| - 1], steps[|steps| - 1];
      var before := Run(cfg, s, front);
      CreatedOnce(cfg, s, front, id);
      RunRecords(cfg, s, front);
      EventsRebuildState(cfg, s, front);
      if Succeeds(cfg, before, last) && !last.call.SubmitReceipt? {
        EffectAnnounces(cfg, before, last.origin.who, last.call, last.withdrawable);
        NewEventPaysOnce(before.storage, Announced(before, last.origin.who, last.call), id);
      }
    }
  }

  lemma NewEventPaysOnce(g: Storage, event: Event, id: PoolId)
    requires Replayed(g.events) == BookOf(g) && AllTruthful(g.events)
    requires event.PoolCreated? ==> event.poolId !in g.pools
    requires AllPaidIn(g.events, id) == PaidInSinceCreation(g.events, id)
    ensures AllPaidIn(g.events + [event], id) == PaidInSinceCreation(g.events + [event], id)
  {
    var longer := g.events + [event];
    assert longer[..|longer| - 1] == g.events;
    TruthfulBooksBalance(g.events, id);
  }

  /** While the ids last, whatever the minimum deposit and the issuance, the log and the payments
      audit each pool: its spending is the sum of the log's costs on it, and its balance is
      everything ever paid in minus that sum. */
  lemma PoolsAreAudited(cfg: Config, s: State, steps: seq<Step>, id: PoolId)
    requires Genesis(s)
    requires Creations(cfg, s, steps) <= POOL_IDS && Sponsorships(cfg, s, steps) <= TRANSACTION_IDS
    requires id in Run(cfg, s, steps).storage.pools
    ensures var g := Run(cfg, s, steps).storage;
      && g.pools[id].totalSpent == Total(g.log, CostOn(id))
      && g.pools[id].balance == AllPaidIn(g.events, id) - Total(g.log, CostOn(id))
  {
    FewIdsKeepConsistent(cfg, s, steps);
    EveryPoolBalances(cfg, s, steps, id);
    CreatedOnce(cfg, s, steps, id);
  }
}
