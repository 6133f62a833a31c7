/** The instance cache (ci/runners/garm/cache/instance_cache.go) and its two joins
    over the entity cache: from an instance to its entity, and back. */
module InstanceJoin {
  import opened Wrappers
  import opened Params
  import EntityIndex
  import Flow = CredentialFlow
  import GarmCache
  import Lists

  datatype Instance = Instance(name: string, poolID: string, scaleSetID: nat, createdAt: int, settings: string)

  function CreatedAt(i: Instance): int {
    i.createdAt
  }

  // ---------------------------------------------------------------------
  // The two joins, over the pool index and the scale set index
  // ---------------------------------------------------------------------

  /** The owner of a cached resource; None if it is not cached or has no owner. */
  function OwnerOf<K>(ix: EntityIndex.Index<K>, id: K): Option<string> {
    if id in ix.table then ix.table[id].Owner() else None
  }

  /** The entity that GetEntityForInstance looks for: a scale set ID wins. */
  function OwnerOfInstance(
    i: Instance, pools: EntityIndex.Index<string>, scaleSets: EntityIndex.Index<nat>): Option<string>
  {
    if i.scaleSetID > 0 then OwnerOf(scaleSets, i.scaleSetID)
    else if i.poolID != "" then OwnerOf(pools, i.poolID)
    else None
  }

  /** GetEntityForInstance finds the entity e. */
  predicate Finds(i: Instance, pools: EntityIndex.Index<string>, scaleSets: EntityIndex.Index<nat>, e: string) {
    OwnerOfInstance(i, pools, scaleSets) == Some(e) && e in pools.members
  }

  /** GetEntityInstances(e) takes i: it looks at pool IDs only. */
  predicate Takes(i: Instance, pools: EntityIndex.Index<string>, e: string) {
    exists p :: p in EntityIndex.Listed(pools, e) && p.id == i.poolID
  }

  lemma TakesIffOwned(i: Instance, pools: EntityIndex.Index<string>, e: string)
    requires EntityIndex.Coherent(pools)
    ensures Takes(i, pools, e) <==> OwnerOf(pools, i.poolID) == Some(e)
  {
  }

  /** Both indexes belong to the same entities. */
  ghost predicate Together(pools: EntityIndex.Index<string>, scaleSets: EntityIndex.Index<nat>) {
    && EntityIndex.Coherent(pools) && EntityIndex.Coherent(scaleSets)
    && pools.members.Keys == scaleSets.members.Keys
  }

  /** Main result: for an instance with a pool and no scale set the two joins agree. */
  lemma JoinAgrees(i: Instance, pools: EntityIndex.Index<string>, scaleSets: EntityIndex.Index<nat>, e: string)
    requires Together(pools, scaleSets)
    requires i.scaleSetID == 0 && i.poolID != ""
    ensures Takes(i, pools, e) <==> Finds(i, pools, scaleSets, e)
  {
    TakesIffOwned(i, pools, e);
  }

  /** Main result: exactly when they agree for every entity. With a scale set, its
      owner must also be the owner of the pool ID, and both or neither be cached. */
  lemma JoinAgreesIff(i: Instance, pools: EntityIndex.Index<string>, scaleSets: EntityIndex.Index<nat>)
    requires Together(pools, scaleSets)
    ensures (forall e :: Takes(i, pools, e) <==> Finds(i, pools, scaleSets, e))
            <==> if i.scaleSetID == 0
                 then i.poolID != "" || "" !in pools.table
                 else OwnerOf(pools, i.poolID) == OwnerOf(scaleSets, i.scaleSetID)
  {
    forall e
      ensures Takes(i, pools, e) <==> OwnerOf(pools, i.poolID) == Some(e)
      ensures Finds(i, pools, scaleSets, e) <==> OwnerOfInstance(i, pools, scaleSets) == Some(e)
    {
      TakesIffOwned(i, pools, e);
    }
    var a, b := OwnerOf(pools, i.poolID), OwnerOfInstance(i, pools, scaleSets);
    if a != b {
      var e := if a.Some? then a.value else b.value;
      assert Takes(i, pools, e) != Finds(i, pools, scaleSets, e);
    }
  }

  /** So an instance of a cached scale set without a pool is found from its name,
      and no entity lists it. */
  lemma ScaleSetInstancesAreNotListed(
    i: Instance, pools: EntityIndex.Index<string>, scaleSets: EntityIndex.Index<nat>, e: string)
    requires Together(pools, scaleSets)
    requires i.poolID == "" && "" !in pools.table && i.scaleSetID > 0 && i.scaleSetID in scaleSets.table
    ensures exists owner :: Finds(i, pools, scaleSets, owner)
    ensures !Takes(i, pools, e)
  {
    TakesIffOwned(i, pools, e);
    EntityIndex.CoherentMeansFlat(scaleSets, e);
    assert Finds(i, pools, scaleSets, scaleSets.table[i.scaleSetID].Owner().value);
  }

  // ---------------------------------------------------------------------
  // Reachable states: the two indexes change together
  // ---------------------------------------------------------------------

  /** One call on the entity cache. */
  datatype CacheOp =
    | OnPools(pop: EntityIndex.Op<string>)
    | OnScaleSets(sop: EntityIndex.Op<nat>)
    | SetEntity(e: string)
    | DeleteEntity(e: string)

  /** Calls on one index leave the set of entities alone. */
  predicate OnItems<K>(op: EntityIndex.Op<K>) {
    op.OpSetItem? || op.OpReplace? || op.OpDeleteItem?
  }

  datatype Pair = Pair(pools: EntityIndex.Index<string>, scaleSets: EntityIndex.Index<nat>)

  function Step(c: Pair, op: CacheOp): Pair {
    match op
    case OnPools(pop) => if OnItems(pop) then c.(pools := EntityIndex.Apply(c.pools, pop)) else c
    case OnScaleSets(sop) => if OnItems(sop) then c.(scaleSets := EntityIndex.Apply(c.scaleSets, sop)) else c
    case SetEntity(e) => Pair(EntityIndex.AddEntity(c.pools, e), EntityIndex.AddEntity(c.scaleSets, e))
    case DeleteEntity(e) => Pair(EntityIndex.DeleteEntity(c.pools, e), EntityIndex.DeleteEntity(c.scaleSets, e))
  }

  function Run(c: Pair, ops: seq<CacheOp>): Pair
    decreases |ops|
  {
    if ops == [] then c else Run(Step(c, ops[0]), ops[1..])
  }

  /** No pool and no scale set ever changes its owner. */
  predicate KeepsOwners(ownPool: string -> string, ownScaleSet: nat -> string, op: CacheOp) {
    match op
    case OnPools(pop) => EntityIndex.KeepsOwners(ownPool, pop)
    case OnScaleSets(sop) => EntityIndex.KeepsOwners(ownScaleSet, sop)
    case _ => true
  }

  ghost predicate Sound(ownPool: string -> string, ownScaleSet: nat -> string, c: Pair) {
    && Together(c.pools, c.scaleSets)
    && EntityIndex.OwnersKept(ownPool, c.pools) && EntityIndex.OwnersKept(ownScaleSet, c.scaleSets)
  }

  lemma ItemsKeepMembers<K(!new)>(ix: EntityIndex.Index<K>, op: EntityIndex.Op<K>)
    requires OnItems(op)
    ensures EntityIndex.Apply(ix, op).members.Keys == ix.members.Keys
  {
  }

  lemma StepSound(ownPool: string -> string, ownScaleSet: nat -> string, c: Pair, op: CacheOp)
    requires Sound(ownPool, ownScaleSet, c) && KeepsOwners(ownPool, ownScaleSet, op)
    ensures Sound(ownPool, ownScaleSet, Step(c, op))
  {
    match op
    case OnPools(pop) =>
      if OnItems(pop) {
        EntityIndex.StepKeeps(ownPool, c.pools, pop);
        ItemsKeepMembers(c.pools, pop);
      }
    case OnScaleSets(sop) =>
      if OnItems(sop) {
        EntityIndex.StepKeeps(ownScaleSet, c.scaleSets, sop);
        ItemsKeepMembers(c.scaleSets, sop);
      }
    case SetEntity(e) =>
      EntityIndex.StepKeeps(ownPool, c.pools, EntityIndex.OpAddEntity(e));
      EntityIndex.StepKeeps(ownScaleSet, c.scaleSets, EntityIndex.OpAddEntity(e));
    case DeleteEntity(e) =>
      EntityIndex.StepKeeps(ownPool, c.pools, EntityIndex.OpDeleteEntity(e));
      EntityIndex.StepKeeps(ownScaleSet, c.scaleSets, EntityIndex.OpDeleteEntity(e));
  }

  lemma {:induction false} RunSound(ownPool: string -> string, ownScaleSet: nat -> string, c: Pair, ops: seq<CacheOp>)
    requires Sound(ownPool, ownScaleSet, c)
    requires forall k :: 0 <= k < |ops| ==> KeepsOwners(ownPool, ownScaleSet, ops[k])
    ensures Sound(ownPool, ownScaleSet, Run(c, ops))
    decreases |ops|
  {
    if ops == [] {
    } else {
      StepSound(ownPool, ownScaleSet, c, ops[0]);
      RunSound(ownPool, ownScaleSet, Step(c, ops[0]), ops[1..]);
    }
  }

  /** Main result: in every reachable state, for every instance with a pool and no
      scale set, GetEntityInstances(e) takes it iff GetEntityForInstance finds e. */
  lemma JoinAgreesInAllRuns(
    ownPool: string -> string, ownScaleSet: nat -> string, ops: seq<CacheOp>, i: Instance, e: string)
    requires forall k :: 0 <= k < |ops| ==> KeepsOwners(ownPool, ownScaleSet, ops[k])
    requires i.scaleSetID == 0 && i.poolID != ""
    ensures var c := Run(Pair(EntityIndex.Index(map[], map[]), EntityIndex.Index(map[], map[])), ops);
            Takes(i, c.pools, e) <==> Finds(i, c.pools, c.scaleSets, e)
  {
    var c := Pair(EntityIndex.Index(map[], map[]), EntityIndex.Index(map[], map[]));
    RunSound(ownPool, ownScaleSet, c, ops);
    JoinAgrees(i, Run(c, ops).pools, Run(c, ops).scaleSets, e);
  }

  // ---------------------------------------------------------------------
  // The cache itself
  // ---------------------------------------------------------------------

  function Cached(cache: map<string, Instance>): set<Instance> {
    set n | n in cache :: cache[n]
  }

  /** The instances of a set that GetEntityInstances(e) takes. */
  ghost function Taken(xs: set<Instance>, pools: EntityIndex.Index<string>, e: string): set<Instance> {
    set i | i in xs && Takes(i, pools, e)
  }

  /** The instances whose pool ID is among ids, in their order. */
  function Picked(all: seq<Instance>, ids: set<string>): seq<Instance> {
    if all == [] then []
    else
      var before, i := Picked(all[..|all| - 1], ids), all[|all| - 1];
      if i.poolID in ids then before + [i] else before
  }

  lemma {:induction false} PickedKeepsCounts(all: seq<Instance>, ids: set<string>, x: Instance)
    ensures multiset(Picked(all, ids))[x] == if x.poolID in ids then multiset(all)[x] else 0
  {
    if all == [] {
    } else {
      var last := |all| - 1;
      assert all == all[..last] + [all[last]];
      PickedKeepsCounts(all[..last], ids, x);
    }
  }

  lemma {:induction false} PickedKeepsOrder(all: seq<Instance>, ids: set<string>)
    requires Lists.Sorted(all, CreatedAt)
    ensures Lists.Sorted(Picked(all, ids), CreatedAt)
    ensures forall x :: x in Picked(all, ids) ==> x in all
  {
    if all == [] {
    } else {
      var last := |all| - 1;
      PickedKeepsOrder(all[..last], ids);
      forall x | x in Picked(all[..last], ids)
        ensures CreatedAt(x) <= CreatedAt(all[last])
      {
        var j :| 0 <= j < last && all[j] == x;
        assert CreatedAt(all[j]) <= CreatedAt(all[last]);
      }
    }
  }

  lemma TakesIffInPoolIDs(pools: seq<Pool>, ids: set<string>, index: EntityIndex.Index<string>, e: string, i: Instance)
    requires ids == set k | 0 <= k < |pools| :: pools[k].id
    requires multiset(pools) == multiset(EntityIndex.Listed(index, e))
    ensures Takes(i, index, e) <==> i.poolID in ids
  {
    var listed := EntityIndex.Listed(index, e);
    assert forall p :: p in multiset(pools) <==> p in listed;
    if Takes(i, index, e) {
      var p :| p in listed && p.id == i.poolID;
      assert p in pools;
    }
    if i.poolID in ids {
      var k :| 0 <= k < |pools| && pools[k].id == i.poolID;
      assert pools[k] in multiset(pools);
    }
  }

  lemma PickedAreTaken(
    all: seq<Instance>, xs: set<Instance>, pools: seq<Pool>, ids: set<string>,
    index: EntityIndex.Index<string>, e: string)
    requires multiset(all) == multiset(xs)
    requires ids == set k | 0 <= k < |pools| :: pools[k].id
    requires multiset(pools) == multiset(EntityIndex.Listed(index, e))
    ensures multiset(Picked(all, ids)) == multiset(Taken(xs, index, e))
  {
    forall x
      ensures multiset(Picked(all, ids))[x] == multiset(Taken(xs, index, e))[x]
    {
      PickedKeepsCounts(all, ids, x);
      TakesIffInPoolIDs(pools, ids, index, e, x);
    }
  }

  /** poolsAsMap. */
  method PoolIDs(pools: seq<Pool>) returns (ids: set<string>)
    ensures ids == set k | 0 <= k < |pools| :: pools[k].id
  {
    ids := {};
    for n := 0 to |pools|
      invariant ids == set k | 0 <= k < n :: pools[k].id
    {
      ids := ids + {pools[n].id};
    }
  }

  class InstanceCache {
    var cache: map<string, Instance>

    ghost predicate Valid()
      reads this
    {
      forall n :: n in cache ==> cache[n].name == n
    }

    constructor ()
      ensures Valid() && cache == map[]
    {
      cache := map[];
    }

    method SetInstance(i: Instance)
      requires Valid()
      modifies this
      ensures Valid() && cache == old(cache)[i.name := i]
    {
      cache := cache[i.name := i];
    }

    method GetInstance(name: string) returns (r: Option<Instance>)
      ensures r == if name in cache then Some(cache[name]) else None
    {
      r := if name in cache then Some(cache[name]) else None;
    }

    method DeleteInstance(name: string)
      requires Valid()
      modifies this
      ensures Valid() && cache == old(cache) - {name}
    {
      cache := cache - {name};
    }

    method GetAllInstances() returns (all: seq<Instance>)
      requires Valid()
      ensures multiset(all) == multiset(Cached(cache))
      ensures forall i, j :: 0 <= i < j < |all| ==> all[i].createdAt <= all[j].createdAt
    {
      all := [];
      ghost var seen := {};
      var todo := cache.Keys;
      while todo != {}
        invariant todo <= cache.Keys && seen == cache.Keys - todo
        invariant multiset(all) == multiset(set n | n in seen :: cache[n])
      {
        var n :| n in todo;
        assert (set x | x in seen + {n} :: cache[x]) == (set x | x in seen :: cache[x]) + {cache[n]};
        all := all + [cache[n]];
        seen, todo := seen + {n}, todo - {n};
      }
      assert seen == cache.Keys;
      all := Lists.SortBy(all, CreatedAt);
    }

    /** The owner of the instance's scale set or pool, with its cached credentials. */
    method GetEntityForInstance(
      name: string, ec: GarmCache.EntityCache, github: GarmCache.CredentialCache, gitea: GarmCache.CredentialCache)
      returns (r: Option<Flow.Entity>)
      requires Valid() && ec.Valid()
      ensures r.Some? <==> name in cache && exists e :: Finds(cache[name], ec.PoolIndex(), ec.ScaleSetIndex(), e)
      ensures r.Some? ==>
                var e := OwnerOfInstance(cache[name], ec.PoolIndex(), ec.ScaleSetIndex()).value;
                r.value == Flow.WithCachedCredentials(ec.Entities()[e], github.cache, gitea.cache)
    {
      var found := GetInstance(name);
      if found.None? {
        return None;
      }
      var entityID := "";
      if found.value.scaleSetID > 0 {
        var s := ec.GetScaleSetByID(found.value.scaleSetID);
        if s.Some? {
          var owner := s.value.Owner();
          if owner.None? {
            return None;
          }
          entityID := owner.value;
        }
      } else if found.value.poolID != "" {
        var p := ec.GetPoolByID(found.value.poolID);
        if p.Some? {
          var owner := p.value.Owner();
          if owner.None? {
            return None;
          }
          entityID := owner.value;
        }
      } else {
        return None;
      }
      if entityID != "" {
        r := ec.GetEntity(entityID, github, gitea);
        assert r.Some? ==> Finds(cache[name], ec.PoolIndex(), ec.ScaleSetIndex(), entityID);
        return;
      }
      return None;
    }

    method GetEntityInstances(e: string, ec: GarmCache.EntityCache) returns (taken: seq<Instance>)
      requires Valid() && ec.Valid()
      ensures multiset(taken) == multiset(Taken(Cached(cache), ec.PoolIndex(), e))
      ensures forall i, j :: 0 <= i < j < |taken| ==> taken[i].createdAt <= taken[j].createdAt
    {
      var pools := ec.GetEntityPools(e);
      var ids := PoolIDs(pools);
      var all := GetAllInstances();
      taken := [];
      for k := 0 to |all|
        invariant taken == Picked(all[..k], ids)
      {
        assert all[..k + 1][..k] == all[..k];
        if all[k].poolID in ids {
          taken := taken + [all[k]];
        }
      }
      assert all[..|all|] == all;
      PickedKeepsOrder(all, ids);
      PickedAreTaken(all, Cached(cache), pools, ids, ec.PoolIndex(), e);
    }
  }
}
