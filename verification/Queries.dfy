/** The read-only loops behind the RPC interface. Storage maps are iterated in an order the
    caller cannot choose, so each loop takes the order as a parameter. */
module Queries {
  import opened Arithmetic
  import opened MapTotals
  import opened Currency
  import opened Gateway
  import opened Ledger
  import opened Solvency
  import opened Consistency
  import opened Counting
  import opened Ownership
  import opened Exhaustion

  // ---- Pools by owner --------------------------------------------------------------------

  /** `order` lists the ids under the owner's prefix of the index, each once. */
  ghost predicate EnumeratesPrefix(order: seq<PoolId>, index: set<(AccountId, PoolId)>, owner: AccountId) {
    && (forall i, j :: 0 <= i < j < |order| ==> order[i] != order[j])
    && (forall id :: id in order <==> (owner, id) in index)
  }

  /** A listing of exactly the pools of one owner, each once, with its record. */
  ghost predicate ListsPoolsOf(list: seq<(PoolId, PoolInfo)>, pools: map<PoolId, PoolInfo>, owner: AccountId) {
    && (forall i, j :: 0 <= i < j < |list| ==> list[i].0 != list[j].0)
    && (forall i :: 0 <= i < |list| ==> list[i].0 in pools && list[i].1 == pools[list[i].0] && list[i].1.owner == owner)
    && (forall id :: id in pools && pools[id].owner == owner ==> (id, pools[id]) in list)
  }

  function Anyone(): PoolInfo -> bool { (p: PoolInfo) => true }

  function OwnedBy(owner: AccountId): PoolInfo -> bool { (p: PoolInfo) => p.owner == owner }

  /** The pools under the ids of `order` that exist and pass the filter, in that order. */
  function Scan(pools: map<PoolId, PoolInfo>, order: seq<PoolId>, keep: PoolInfo -> bool): seq<(PoolId, PoolInfo)> {
    if order == [] then []
    else
      var id := order[|order| - 1];
      var found := Scan(pools, order[..|order| - 1], keep);
      if id in pools && keep(pools[id]) then found + [(id, pools[id])] else found
  }

  /** `list` holds exactly the pools under `ids` that pass the filter, each once, with its record. */
  ghost predicate Holds(list: seq<(PoolId, PoolInfo)>, pools: map<PoolId, PoolInfo>, ids: seq<PoolId>,
                        keep: PoolInfo -> bool)
  {
    && (forall i, j :: 0 <= i < j < |list| ==> list[i].0 != list[j].0)
    && (forall i :: 0 <= i < |list| ==>
          list[i].0 in ids && list[i].0 in pools && list[i].1 == pools[list[i].0] && keep(list[i].1))
    && (forall id :: id in ids && id in pools && keep(pools[id]) ==> (id, pools[id]) in list)
  }

  lemma HoldsOneMore(front: seq<(PoolId, PoolInfo)>, pools: map<PoolId, PoolInfo>, ids: seq<PoolId>, id: PoolId,
                     keep: PoolInfo -> bool)
    requires Holds(front, pools, ids, keep) && id !in ids
    ensures Holds(if id in pools && keep(pools[id]) then front + [(id, pools[id])] else front, pools, ids + [id], keep)
  {
    if id in pools && keep(pools[id]) {
      var list := front + [(id, pools[id])];
      assert list[|front|] == (id, pools[id]);
      assert forall x :: x in front ==> x in list;
    }
  }

  lemma {:induction false} ScanHolds(pools: map<PoolId, PoolInfo>, order: seq<PoolId>, keep: PoolInfo -> bool)
    requires forall i, j :: 0 <= i < j < |order| ==> order[i] != order[j]
    ensures Holds(Scan(pools, order, keep), pools, order, keep)
  {
    if order != [] {
      var front, id := order[..|order| - 1], order[|order| - 1];
      ScanHolds(pools, front, keep);
      HoldsOneMore(Scan(pools, front, keep), pools, front, id, keep);
      assert front + [id] == order;
    }
  }

  /** The index lookup of the source: it returns every pool under the owner's prefix, whoever
      owns it, which is exactly the owner's pools if and only if the index has the owner for
      exactly those. */
  method PoolsByOwner(g: Storage, owner: AccountId, order: seq<PoolId>) returns (list: seq<(PoolId, PoolInfo)>)
    requires EnumeratesPrefix(order, g.poolOwners, owner)
    ensures list == Scan(g.pools, order, Anyone())
    ensures ListsPoolsOf(list, g.pools, owner) <==> OwnerIndexed(g, owner)
  {
    list := [];
    for i := 0 to |order|
      invariant list == Scan(g.pools, order[..i], Anyone())
    {
      assert order[..i + 1][..i] == order[..i];
      if order[i] in g.pools {
        list := list + [(order[i], g.pools[order[i]])];
      }
    }
    assert order[..|order|] == order;
    ListingIsExactIff(g, owner, order);
  }

  lemma ListingIsExactIff(g: Storage, owner: AccountId, order: seq<PoolId>)
    requires EnumeratesPrefix(order, g.poolOwners, owner)
    ensures ListsPoolsOf(Scan(g.pools, order, Anyone()), g.pools, owner) <==> OwnerIndexed(g, owner)
  {
    var list := Scan(g.pools, order, Anyone());
    ScanHolds(g.pools, order, Anyone());
    if OwnerIndexed(g, owner) {
      forall i | 0 <= i < |list| ensures list[i].1.owner == owner {
        assert list[i].0 in order;
      }
    }
    if ListsPoolsOf(list, g.pools, owner) {
      forall id | id in g.pools ensures (owner, id) in g.poolOwners <==> g.pools[id].owner == owner {
        if (id, g.pools[id]) in list {
          var i :| 0 <= i < |list| && list[i] == (id, g.pools[id]);
          assert list[i].0 in order && list[i].1.owner == owner;
        }
      }
    }
  }

  /** With an index that covers the pools, the loop misses no pool of the owner and returns nothing
      else but possibly the pool under the last id. */
  lemma ListingCovers(g: Storage, owner: AccountId, order: seq<PoolId>)
    requires IndexCovers(g) && EnumeratesPrefix(order, g.poolOwners, owner)
    ensures var list := Scan(g.pools, order, Anyone());
      && (forall id :: id in g.pools && g.pools[id].owner == owner ==> (id, g.pools[id]) in list)
      && (forall i :: 0 <= i < |list| ==> list[i].1.owner == owner || list[i].0 == MAX_U32)
  {
    var list := Scan(g.pools, order, Anyone());
    ScanHolds(g.pools, order, Anyone());
    forall i | 0 <= i < |list| ensures list[i].1.owner == owner || list[i].0 == MAX_U32 {
      assert list[i].0 in order;
    }
  }

  /** It does so in every run of every configuration, and is exact for every owner if and only if
      no creation of the run took over a pool of somebody else. */
  lemma EveryListingExactIff(cfg: Config, s: State, steps: seq<Step>)
    requires Genesis(s)
    ensures IndexCovers(Run(cfg, s, steps).storage)
    ensures (forall owner :: OwnerIndexed(Run(cfg, s, steps).storage, owner)) <==> Reownings(cfg, s, steps) == 0
  {
    OwnersIndexedIffNoneReowned(cfg, s, steps);
    IndexedOwnerByOwner(Run(cfg, s, steps).storage);
  }

  /** After account 0 has used up the ids and account 1 has taken over the last pool, account 0
      is still listed a pool that account 1 owns. */
  lemma TakenOverPoolStaysListed(cfg: Config, s: State, order: seq<PoolId>)
    requires Genesis(s)
    requires POOL_IDS * cfg.minPoolDeposit <= AccountOf(s.accounts, 0).free
    requires cfg.minPoolDeposit <= AccountOf(s.accounts, 1).free
    requires var steps := CreateSteps(POOL_IDS, cfg.minPoolDeposit) + [Create(1, cfg.minPoolDeposit)];
      EnumeratesPrefix(order, Run(cfg, s, steps).storage.poolOwners, 0)
    ensures var steps := CreateSteps(POOL_IDS, cfg.minPoolDeposit) + [Create(1, cfg.minPoolDeposit)];
      exists p :: (MAX_U32, p) in Scan(Run(cfg, s, steps).storage.pools, order, Anyone()) && p.owner == 1
  {
    var steps := CreateSteps(POOL_IDS, cfg.minPoolDeposit) + [Create(1, cfg.minPoolDeposit)];
    var g := Run(cfg, s, steps).storage;
    TakenOverPoolStaysIndexed(cfg, s);
    ScanHolds(g.pools, order, Anyone());
    assert (MAX_U32, g.pools[MAX_U32]) in Scan(g.pools, order, Anyone());
  }

  /** Any two listings of an owner's pools are the same up to order, so where the index lookup is
      exact it returns what a full scan of the pool table would. */
  lemma IndexAgreesWithFullScan(g: Storage, owner: AccountId, list: seq<(PoolId, PoolInfo)>, order: seq<PoolId>)
    requires ListsPoolsOf(list, g.pools, owner) && Enumerates(order, g.pools)
    ensures ListsPoolsOf(Scan(g.pools, order, OwnedBy(owner)), g.pools, owner)
    ensures multiset(list) == multiset(Scan(g.pools, order, OwnedBy(owner)))
  {
    ScanHolds(g.pools, order, OwnedBy(owner));
    SameListing(list, Scan(g.pools, order, OwnedBy(owner)), g.pools, owner);
  }

  lemma {:induction false} CountsOnce(list: seq<(PoolId, PoolInfo)>, x: (PoolId, PoolInfo))
    requires forall i, j :: 0 <= i < j < |list| ==> list[i].0 != list[j].0
    ensures multiset(list)[x] == if x in list then 1 else 0
  {
    if list != [] {
      var front := list[..|list| - 1];
      CountsOnce(front, x);
      assert list == front + [list[|list| - 1]];
    }
  }

  lemma SameListing(a: seq<(PoolId, PoolInfo)>, b: seq<(PoolId, PoolInfo)>, pools: map<PoolId, PoolInfo>,
                    owner: AccountId)
    requires ListsPoolsOf(a, pools, owner) && ListsPoolsOf(b, pools, owner)
    ensures multiset(a) == multiset(b)
  {
    forall x ensures multiset(a)[x] == multiset(b)[x] {
      CountsOnce(a, x);
      CountsOnce(b, x);
    }
  }

  // ---- Pool history ----------------------------------------------------------------------

  /** All records of a pool, in iteration order. */
  function Matching(log: map<TxId, TransactionRecord>, order: seq<TxId>, pool: PoolId): seq<TransactionRecord>
    requires forall i :: 0 <= i < |order| ==> order[i] in log
  {
    if order == [] then []
    else
      var last := log[order[|order| - 1]];
      var found := Matching(log, order[..|order| - 1], pool);
      if last.poolId == pool then found + [last] else found
  }

  lemma {:induction false} MatchingGrows(log: map<TxId, TransactionRecord>, order: seq<TxId>, pool: PoolId, n: nat)
    requires forall i :: 0 <= i < |order| ==> order[i] in log
    requires n <= |order|
    ensures Matching(log, order[..n], pool) <= Matching(log, order, pool)
  {
    if n == |order| {
      assert order[..n] == order;
    } else {
      MatchingGrows(log, order[..|order| - 1], pool, n);
      assert order[..|order| - 1][..n] == order[..n];
    }
  }

  /** What the loop returns for a limit: it checks the limit after a push, so it never
      returns fewer than one record when there is one. */
  function History(log: map<TxId, TransactionRecord>, order: seq<TxId>, pool: PoolId, limit: nat)
    : seq<TransactionRecord>
    requires forall i :: 0 <= i < |order| ==> order[i] in log
  {
    var all := Matching(log, order, pool);
    all[..Min(if limit == 0 then 1 else limit, |all|)]
  }

  predicate IsOf(log: map<TxId, TransactionRecord>, tx: TxId, pool: PoolId) {
    tx in log && log[tx].poolId == pool
  }

  /** The positions below `n` of the iteration that hold records of the pool. */
  function PositionsOf(log: map<TxId, TransactionRecord>, order: seq<TxId>, n: nat, pool: PoolId): set<nat>
    requires n <= |order|
  {
    set i: nat | i < n && IsOf(log, order[i], pool)
  }

  /** What the caller of a pool's history gets: one record for each of the pool's, up to the limit
      or one, and the k-th of them is the record before which the iteration has exactly k of that
      pool. */
  ghost predicate AnswersHistory(transactions: seq<TransactionRecord>, log: map<TxId, TransactionRecord>,
                                 order: seq<TxId>, pool: PoolId, limit: nat)
  {
    && |transactions| == Min(if limit == 0 then 1 else limit, |PositionsOf(log, order, |order|, pool)|)
    && forall i: nat :: i < |order| && IsOf(log, order[i], pool) ==>
         var k := |PositionsOf(log, order, i, pool)|;
         k < |transactions| ==> transactions[k] == log[order[i]]
  }

  lemma OneMorePosition(log: map<TxId, TransactionRecord>, order: seq<TxId>, n: nat, pool: PoolId)
    requires n < |order|
    ensures |PositionsOf(log, order, n + 1, pool)| ==
      |PositionsOf(log, order, n, pool)| + if IsOf(log, order[n], pool) then 1 else 0
  {
    var before, after := PositionsOf(log, order, n, pool), PositionsOf(log, order, n + 1, pool);
    assert after == if IsOf(log, order[n], pool) then before + {n} else before;
  }

  lemma {:induction false} MatchingIsRanked(log: map<TxId, TransactionRecord>, order: seq<TxId>, n: nat, pool: PoolId)
    requires n <= |order| && forall i :: 0 <= i < |order| ==> order[i] in log
    ensures |Matching(log, order[..n], pool)| == |PositionsOf(log, order, n, pool)|
    ensures forall i: nat :: i < n && IsOf(log, order[i], pool) ==>
      var k := |PositionsOf(log, order, i, pool)|;
      k < |Matching(log, order[..n], pool)| && Matching(log, order[..n], pool)[k] == log[order[i]]
  {
    if n == 0 {
      assert PositionsOf(log, order, 0, pool) == {};
    } else {
      MatchingIsRanked(log, order, n - 1, pool);
      OneMorePosition(log, order, n - 1, pool);
      assert order[..n][..n - 1] == order[..n - 1];
    }
  }

  lemma HistoryAnswers(log: map<TxId, TransactionRecord>, order: seq<TxId>, pool: PoolId, limit: nat)
    requires forall i :: 0 <= i < |order| ==> order[i] in log
    ensures AnswersHistory(History(log, order, pool, limit), log, order, pool, limit)
  {
    MatchingIsRanked(log, order, |order|, pool);
    assert order[..|order|] == order;
  }

  /** The position that the iteration gives the pool's record number `k`. */
  lemma {:induction false} PositionOfRank(log: map<TxId, TransactionRecord>, order: seq<TxId>, n: nat, pool: PoolId,
                                          k: nat) returns (i: nat)
    requires 0 < n <= |order| && k < |PositionsOf(log, order, n, pool)|
    ensures i < n && IsOf(log, order[i], pool) && |PositionsOf(log, order, i, pool)| == k
  {
    OneMorePosition(log, order, n - 1, pool);
    assert n == 1 ==> PositionsOf(log, order, n - 1, pool) == {};
    if k < |PositionsOf(log, order, n - 1, pool)| {
      i := PositionOfRank(log, order, n - 1, pool, k);
    } else {
      i := n - 1;
    }
  }

  /** Spelled out: every record returned is one of that pool, they come from increasing positions,
      and below the limit none of the pool's records in the log is missing. */
  lemma HistoryIsThePools(transactions: seq<TransactionRecord>, log: map<TxId, TransactionRecord>, order: seq<TxId>,
                          pool: PoolId, limit: nat)
    requires Enumerates(order, log) && AnswersHistory(transactions, log, order, pool, limit)
    ensures forall k :: 0 <= k < |transactions| ==> transactions[k].poolId == pool
    ensures forall i: nat, j: nat :: i < j < |order| && IsOf(log, order[i], pool) ==>
      |PositionsOf(log, order, i, pool)| < |PositionsOf(log, order, j, pool)|
    ensures |transactions| < 1 || |transactions| < limit ==>
      forall tx :: tx in log && log[tx].poolId == pool ==> log[tx] in transactions
  {
    forall k | 0 <= k < |transactions| ensures transactions[k].poolId == pool {
      var i := PositionOfRank(log, order, |order|, pool, k);
    }
    forall i: nat, j: nat | i < j <= |order| && IsOf(log, order[i], pool)
      ensures |PositionsOf(log, order, i, pool)| < |PositionsOf(log, order, j, pool)|
    {
      Ranks(log, order, i, j, pool);
    }
    if |transactions| < 1 || |transactions| < limit {
      forall tx | tx in log && log[tx].poolId == pool ensures log[tx] in transactions {
        var i: nat :| i < |order| && order[i] == tx;
        assert transactions[|PositionsOf(log, order, i, pool)|] == log[tx] by {
          Ranks(log, order, i, |order|, pool);
        }
      }
    }
  }

  lemma {:induction false} Ranks(log: map<TxId, TransactionRecord>, order: seq<TxId>, i: nat, j: nat, pool: PoolId)
    requires i < j <= |order| && IsOf(log, order[i], pool)
    ensures |PositionsOf(log, order, i, pool)| < |PositionsOf(log, order, j, pool)|
  {
    OneMorePosition(log, order, j - 1, pool);
    if i < j - 1 {
      Ranks(log, order, i, j - 1, pool);
    }
  }

  method PoolHistory(log: map<TxId, TransactionRecord>, order: seq<TxId>, pool: PoolId, limit: nat)
    returns (transactions: seq<TransactionRecord>)
    requires forall i :: 0 <= i < |order| ==> order[i] in log
    requires limit <= MAX_U32
    ensures transactions == History(log, order, pool, limit)
    ensures AnswersHistory(transactions, log, order, pool, limit)
  {
    transactions := [];
    var count := 0;
    for i := 0 to |order|
      invariant transactions == Matching(log, order[..i], pool)
      invariant count == |transactions|
      invariant count == 0 || count < limit
    {
      var record := log[order[i]];
      assert order[..i + 1][..i] == order[..i];
      if record.poolId == pool {
        transactions := transactions + [record];
        assert count + 1 <= MAX_U32;
        count := count + 1;
        if count >= limit {
          MatchingGrows(log, order, pool, i + 1);
          HistoryAnswers(log, order, pool, limit);
          return;
        }
      }
    }
    assert order[..|order|] == order;
    HistoryAnswers(log, order, pool, limit);
  }

  /** The loop returns the first `min(limit, matches)` records exactly when the limit is at
      least one or nothing matches. */
  lemma HistoryHonoursLimitIff(log: map<TxId, TransactionRecord>, order: seq<TxId>, pool: PoolId, limit: nat)
    requires Enumerates(order, log)
    ensures var all := Matching(log, order, pool);
      History(log, order, pool, limit) == all[..Min(limit, |all|)] <==> limit >= 1 || all == []
  {
    var all := Matching(log, order, pool);
    if limit == 0 && all != [] {
      assert |History(log, order, pool, limit)| == 1;
    }
  }

  /** A smaller limit returns a prefix of what a larger one returns. */
  lemma HistoryIsPrefixClosed(log: map<TxId, TransactionRecord>, order: seq<TxId>, pool: PoolId, small: nat, large: nat)
    requires Enumerates(order, log) && small <= large
    ensures History(log, order, pool, small) <= History(log, order, pool, large)
  {
    var all := Matching(log, order, pool);
    var n := Min(if small == 0 then 1 else small, |all|);
    assert History(log, order, pool, large)[..n] == all[..n];
  }

  // ---- User savings ----------------------------------------------------------------------

  function SavedBy(user: AccountId): TransactionRecord -> nat {
    (t: TransactionRecord) => if t.user == user && t.status == TransactionStatus.Executed then t.gasCost else 0
  }

  /** What each executed record of a user cost. */
  function ExecutedCosts(log: map<TxId, TransactionRecord>, user: AccountId): map<TxId, int> {
    map id | id in log && log[id].user == user && log[id].status.Executed? :: log[id].gasCost
  }

  lemma SavedIsExecuted(log: map<TxId, TransactionRecord>, user: AccountId)
    ensures Total(log, SavedBy(user)) == Sum(ExecutedCosts(log, user))
  {
    TotalIsSum(log, SavedBy(user), ExecutedCosts(log, user));
  }

  /** The saturating fold over the log. Its result does not depend on the iteration order: it is
      the true sum of what the user's executed records cost, capped once. */
  method UserSavings(log: map<TxId, TransactionRecord>, order: seq<TxId>, user: AccountId) returns (total: nat)
    requires Enumerates(order, log)
    ensures total == Min(Total(log, SavedBy(user)), MAX_U128)
    ensures total == if Sum(ExecutedCosts(log, user)) <= 340_282_366_920_938_463_463_374_607_431_768_211_455
                     then Sum(ExecutedCosts(log, user)) else 340_282_366_920_938_463_463_374_607_431_768_211_455
  {
    SavedIsExecuted(log, user);
    total := 0;
    for i := 0 to |order|
      invariant total == Min(TotalAlong(log, order[..i], SavedBy(user)), MAX_U128)
    {
      var record := log[order[i]];
      assert order[..i + 1][..i] == order[..i];
      if record.user == user && record.status == TransactionStatus.Executed {
        total := SaturatingAdd(total, record.gasCost, MAX_U128);
      }
    }
    assert order[..|order|] == order;
    TotalOfEnumeration(log, order, SavedBy(user));
  }

  /** Whatever statuses an audited log carries, a user's savings never exceed what all pools
      have spent, and in a solvent state they are below the cap. */
  lemma SavingsWithinSpending(s: State, user: AccountId)
    requires Audited(s.storage) && Solvent(s) && Conserved(s)
    ensures Total(s.storage.log, SavedBy(user)) <= Total(s.storage.pools, SpentPart()) <= MAX_U128
  {
    TotalMonotone(s.storage.log, SavedBy(user), Cost());
    TotalMonotone(s.storage.pools, SpentPart(), Holding());
    HoldingsWithinIssuance(s.accounts, user);
  }

  /** No code moves a record out of `Pending`, so in every run of every configuration nobody ever
      has savings. */
  lemma ReachableSavingsAreZero(cfg: Config, s: State, steps: seq<Step>, user: AccountId)
    requires Genesis(s)
    ensures Total(Run(cfg, s, steps).storage.log, SavedBy(user)) == 0
  {
    var end := Run(cfg, s, steps);
    EveryLogIntact(cfg, s, steps);
    forall id | id in end.storage.log ensures SavedBy(user)(end.storage.log[id]) == 0 {
      assert RecordIntact(end.storage, end.storage.log[id], id, end.block);
    }
    TotalZero(end.storage.log, SavedBy(user));
  }
}
