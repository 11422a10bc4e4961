/** The owner index. Nothing is ever removed from it, so when a stuck counter hands the last
    pool id to a second owner, the pair of the first one stays behind. This module says when
    the index agrees with the owners in the pool table, and what it says when it does not. */
module Ownership {
  import opened Arithmetic
  import opened Gateway
  import opened Ledger
  import opened Consistency
  import opened Counting

  /** A creation that takes over a pool of somebody else. */
  predicate Reowns(cfg: Config, s: State, step: Step) {
    && Creates(cfg, s, step)
    && s.storage.nextPoolId in s.storage.pools
    && s.storage.pools[s.storage.nextPoolId].owner != step.origin.who
  }

  ghost function Reownings(cfg: Config, s: State, steps: seq<Step>): nat {
    if steps == [] then 0
    else
      var front := steps[..|steps| - 1];
      Reownings(cfg, s, front) + if Reowns(cfg, Run(cfg, s, front), steps[|steps| - 1]) then 1 else 0
  }

  /** No owner is missing, no pair is about a pool that does not exist, and below the last id
      every pair names the owner. */
  ghost predicate IndexCovers(g: Storage) {
    && (forall id :: id in g.pools ==> (g.pools[id].owner, id) in g.poolOwners)
    && (forall a: AccountId, id: PoolId :: (a, id) in g.poolOwners ==>
          id in g.pools && (g.pools[id].owner == a || id == MAX_U32))
  }

  /** Two accounts are indexed as owners of one pool. */
  ghost predicate Contested(g: Storage) {
    exists a: AccountId, b: AccountId, id: PoolId :: (a, id) in g.poolOwners && (b, id) in g.poolOwners && a != b
  }

  lemma EffectIndexes(cfg: Config, s: State, who: AccountId, call: Call, withdrawable: bool)
    requires IndexCovers(s.storage) && (s.storage.nextPoolId in s.storage.pools ==> s.storage.nextPoolId == MAX_U32)
    requires Refusal(cfg, s, who, call, withdrawable) == Ok
    ensures var after := Effect(cfg, s, who, call, withdrawable).storage;
      var reowns := Reowns(cfg, s, Extrinsic(Signed(who), call, withdrawable));
      && IndexCovers(after)
      && (Contested(s.storage) || reowns ==> Contested(after))
      && (OwnersIndexed(s.storage) && !reowns ==> OwnersIndexed(after))
  {
    var g, after := s.storage, Effect(cfg, s, who, call, withdrawable).storage;
    if call.CreatePool? && g.nextPoolId in g.pools && g.pools[g.nextPoolId].owner != who {
      assert (g.pools[g.nextPoolId].owner, g.nextPoolId) in after.poolOwners && (who, g.nextPoolId) in after.poolOwners;
    }
  }

  lemma {:induction false} RunIndexes(cfg: Config, s: State, steps: seq<Step>)
    requires Genesis(s)
    ensures var g := Run(cfg, s, steps).storage;
      && IndexCovers(g)
      && if Reownings(cfg, s, steps) == 0 then OwnersIndexed(g) else Contested(g)
  {
    if steps != [] {
      var front, last := steps[..|steps| - 1], steps[|steps| - 1];
      var before := Run(cfg, s, front);
      RunIndexes(cfg, s, front);
      RunRecords(cfg, s, front);
      if Succeeds(cfg, before, last) {
        EffectIndexes(cfg, before, last.origin.who, last.call, last.withdrawable);
      }
    }
  }

  /** Over any run of any configuration, the index and the pool table name the same owners at
      the end if and only if no creation took over a pool of another owner. Either way every
      owner is indexed, and the index can be wrong about the last id alone. */
  lemma OwnersIndexedIffNoneReowned(cfg: Config, s: State, steps: seq<Step>)
    requires Genesis(s)
    ensures OwnersIndexed(Run(cfg, s, steps).storage) <==> Reownings(cfg, s, steps) == 0
    ensures IndexCovers(Run(cfg, s, steps).storage)
  {
    RunIndexes(cfg, s, steps);
    var g := Run(cfg, s, steps).storage;
    if Contested(g) {
      var a: AccountId, b: AccountId, id: PoolId :| (a, id) in g.poolOwners && (b, id) in g.poolOwners && a != b;
      assert g.pools[id].owner != a || g.pools[id].owner != b;
    }
  }

  /** The index has this account for exactly the pools it owns. */
  ghost predicate OwnerIndexed(g: Storage, owner: AccountId) {
    forall id :: id in g.pools ==> ((owner, id) in g.poolOwners <==> g.pools[id].owner == owner)
  }

  lemma IndexedOwnerByOwner(g: Storage)
    requires IndexCovers(g)
    ensures OwnersIndexed(g) <==> forall owner :: OwnerIndexed(g, owner)
  {
    if forall owner :: OwnerIndexed(g, owner) {
      forall a: AccountId, id: PoolId ensures (a, id) in g.poolOwners <==> id in g.pools && g.pools[id].owner == a {
        assert OwnerIndexed(g, a);
      }
    }
  }
}
