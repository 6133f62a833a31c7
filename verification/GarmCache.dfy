/** The in-memory caches of ci/runners/garm/cache: entities with their pools and
    scale sets, credentials, and endpoints. */
module GarmCache {
  import opened Wrappers
  import opened Params
  import EntityIndex
  import Flow = CredentialFlow
  import Lists

  datatype EntityItem = EntityItem(entity: Flow.Entity, pools: set<string>, scaleSets: set<nat>)

  function CreatedAt<K>(r: Resource<K>): int {
    r.createdAt
  }

  function NumericID(s: ScaleSet): int {
    s.id
  }

  /** The pools of e that carry all the labels. */
  function Matching(lower: string -> string, pools: set<Pool>, labels: seq<string>): set<Pool> {
    set p | p in pools && HasLabels(lower, p.tags, labels)
  }

  lemma MatchingOneMore(lower: string -> string, pools: set<Pool>, p: Pool, labels: seq<string>)
    ensures Matching(lower, pools + {p}, labels)
            == if HasLabels(lower, p.tags, labels)
               then Matching(lower, pools, labels) + {p}
               else Matching(lower, pools, labels)
  {
  }

  // ---------------------------------------------------------------------
  // The three columns of the entity map
  // ---------------------------------------------------------------------

  type Items = map<string, EntityItem>

  function EntitiesOf(m: Items): Flow.EntityMap {
    map e | e in m :: m[e].entity
  }

  function PoolsOf(m: Items): map<string, set<string>> {
    map e | e in m :: m[e].pools
  }

  function ScaleSetsOf(m: Items): map<string, set<nat>> {
    map e | e in m :: m[e].scaleSets
  }

  lemma ColumnsAfterUpdate(m: Items, e: string, item: EntityItem)
    ensures EntitiesOf(m[e := item])
            == if e in m && m[e].entity == item.entity then EntitiesOf(m) else EntitiesOf(m)[e := item.entity]
    ensures PoolsOf(m[e := item])
            == if e in m && m[e].pools == item.pools then PoolsOf(m) else PoolsOf(m)[e := item.pools]
    ensures ScaleSetsOf(m[e := item])
            == if e in m && m[e].scaleSets == item.scaleSets
               then ScaleSetsOf(m)
               else ScaleSetsOf(m)[e := item.scaleSets]
  {
  }

  lemma ColumnsAfterRemoval(m: Items, e: string)
    ensures EntitiesOf(m - {e}) == EntitiesOf(m) - {e}
    ensures PoolsOf(m - {e}) == PoolsOf(m) - {e}
    ensures ScaleSetsOf(m - {e}) == ScaleSetsOf(m) - {e}
    ensures e !in m ==> EntitiesOf(m) - {e} == EntitiesOf(m)
                        && PoolsOf(m) - {e} == PoolsOf(m) && ScaleSetsOf(m) - {e} == ScaleSetsOf(m)
  {
  }

  lemma ColumnsAfterPush(was: Items, now: Items, c: Flow.Credentials)
    requires now.Keys == was.Keys
    requires forall e :: e in was ==>
               now[e] == if was[e].entity.credentials.id == c.id
                         then was[e].(entity := was[e].entity.(credentials := c)) else was[e]
    ensures EntitiesOf(now) == Flow.Push(EntitiesOf(was), c)
    ensures PoolsOf(now) == PoolsOf(was) && ScaleSetsOf(now) == ScaleSetsOf(was)
  {
  }

  class EntityCache {
    var entities: map<string, EntityItem>
    var pools: map<string, Pool>
    var scaleSets: map<nat, ScaleSet>

    /** Everything is filed under its own ID. */
    ghost predicate Valid()
      reads this
    {
      && (forall e :: e in entities ==> entities[e].entity.id == e)
      && (forall id :: id in pools ==> pools[id].id == id)
      && (forall id :: id in scaleSets ==> scaleSets[id].id == id)
    }

    ghost function Entities(): Flow.EntityMap
      reads this
    {
      EntitiesOf(entities)
    }

    ghost function PoolIndex(): EntityIndex.Index<string>
      reads this
    {
      EntityIndex.Index(PoolsOf(entities), pools)
    }

    ghost function ScaleSetIndex(): EntityIndex.Index<nat>
      reads this
    {
      EntityIndex.Index(ScaleSetsOf(entities), scaleSets)
    }

    constructor ()
      ensures Valid()
      ensures Entities() == map[]
      ensures PoolIndex() == EntityIndex.Index(map[], map[]) && ScaleSetIndex() == EntityIndex.Index(map[], map[])
    {
      entities, pools, scaleSets := map[], map[], map[];
    }

    method SetEntity(entity: Flow.Entity)
      requires Valid()
      modifies this
      ensures Valid()
      ensures Entities() == old(Entities())[entity.id := entity]
      ensures PoolIndex() == EntityIndex.AddEntity(old(PoolIndex()), entity.id)
      ensures ScaleSetIndex() == EntityIndex.AddEntity(old(ScaleSetIndex()), entity.id)
    {
      if entity.id !in entities {
        ColumnsAfterUpdate(entities, entity.id, EntityItem(entity, {}, {}));
        entities := entities[entity.id := EntityItem(entity, {}, {})];
        return;
      }
      var item := entities[entity.id].(entity := entity);
      ColumnsAfterUpdate(entities, entity.id, item);
      entities := entities[entity.id := item];
    }

    method ReplaceEntityPools(e: string, ps: seq<Pool>)
      requires Valid()
      modifies this
      ensures Valid()
      ensures PoolIndex() == EntityIndex.Replace(old(PoolIndex()), e, ps)
      ensures ScaleSetIndex() == old(ScaleSetIndex()) && Entities() == old(Entities())
    {
      if e !in entities {
        return;
      }
      var rest := Lists.RemoveEach(pools, entities[e].pools);
      var table, ids := Lists.AddEach(rest, e, ps);
      EntityIndex.AddAllIs(rest, e, ps);
      var item := entities[e].(pools := ids);
      ColumnsAfterUpdate(entities, e, item);
      pools, entities := table, entities[e := item];
    }

    method ReplaceEntityScaleSets(e: string, ss: seq<ScaleSet>)
      requires Valid()
      modifies this
      ensures Valid()
      ensures ScaleSetIndex() == EntityIndex.Replace(old(ScaleSetIndex()), e, ss)
      ensures PoolIndex() == old(PoolIndex()) && Entities() == old(Entities())
    {
      if e !in entities {
        return;
      }
      var rest := Lists.RemoveEach(scaleSets, entities[e].scaleSets);
      var table, ids := Lists.AddEach(rest, e, ss);
      EntityIndex.AddAllIs(rest, e, ss);
      var item := entities[e].(scaleSets := ids);
      ColumnsAfterUpdate(entities, e, item);
      scaleSets, entities := table, entities[e := item];
    }

    method DeleteEntity(e: string)
      requires Valid()
      modifies this
      ensures Valid()
      ensures Entities() == old(Entities()) - {e}
      ensures PoolIndex() == EntityIndex.DeleteEntity(old(PoolIndex()), e)
      ensures ScaleSetIndex() == EntityIndex.DeleteEntity(old(ScaleSetIndex()), e)
    {
      if e in entities {
        pools := Lists.RemoveEach(pools, entities[e].pools);
        scaleSets := Lists.RemoveEach(scaleSets, entities[e].scaleSets);
      }
      ColumnsAfterRemoval(entities, e);
      entities := entities - {e};
    }

    method SetEntityPool(e: string, pool: Pool)
      requires Valid()
      modifies this
      ensures Valid()
      ensures PoolIndex() == EntityIndex.SetItem(old(PoolIndex()), e, pool)
      ensures ScaleSetIndex() == old(ScaleSetIndex()) && Entities() == old(Entities())
    {
      if pool.Owner() != Some(e) {
        return;
      }
      if e in entities {
        pools := pools[pool.id := pool];
        var item := entities[e].(pools := entities[e].pools + {pool.id});
        ColumnsAfterUpdate(entities, e, item);
        entities := entities[e := item];
      }
    }

    method SetEntityScaleSet(e: string, s: ScaleSet)
      requires Valid()
      modifies this
      ensures Valid()
      ensures ScaleSetIndex() == EntityIndex.SetItem(old(ScaleSetIndex()), e, s)
      ensures PoolIndex() == old(PoolIndex()) && Entities() == old(Entities())
    {
      if s.Owner() != Some(e) {
        return;
      }
      if e in entities {
        scaleSets := scaleSets[s.id := s];
        var item := entities[e].(scaleSets := entities[e].scaleSets + {s.id});
        ColumnsAfterUpdate(entities, e, item);
        entities := entities[e := item];
      }
    }

    method DeleteEntityPool(e: string, id: string)
      requires Valid()
      modifies this
      ensures Valid()
      ensures PoolIndex() == EntityIndex.DeleteItem(old(PoolIndex()), e, id)
      ensures ScaleSetIndex() == old(ScaleSetIndex()) && Entities() == old(Entities())
    {
      if e in entities {
        var item := entities[e].(pools := entities[e].pools - {id});
        ColumnsAfterUpdate(entities, e, item);
        entities := entities[e := item];
      }
      pools := pools - {id};
    }

    method DeleteEntityScaleSet(e: string, id: nat)
      requires Valid()
      modifies this
      ensures Valid()
      ensures ScaleSetIndex() == EntityIndex.DeleteItem(old(ScaleSetIndex()), e, id)
      ensures PoolIndex() == old(PoolIndex()) && Entities() == old(Entities())
    {
      if e in entities {
        var item := entities[e].(scaleSets := entities[e].scaleSets - {id});
        ColumnsAfterUpdate(entities, e, item);
        entities := entities[e := item];
      }
      scaleSets := scaleSets - {id};
    }

    // -------------------------------------------------------------------
    // Look-ups
    // -------------------------------------------------------------------

    /** Sorted by creation; by coherence it is all that the flat table holds for e. */
    method GetEntityPools(e: string) returns (rs: seq<Pool>)
      requires Valid()
      ensures forall i, j :: 0 <= i < j < |rs| ==> rs[i].createdAt <= rs[j].createdAt
      ensures multiset(rs) == multiset(EntityIndex.Listed(PoolIndex(), e))
      ensures EntityIndex.Coherent(PoolIndex()) ==> multiset(rs) == multiset(EntityIndex.Owned(PoolIndex(), e))
    {
      if EntityIndex.Coherent(PoolIndex()) {
        EntityIndex.CoherentMeansFlat(PoolIndex(), e);
      }
      if e !in entities {
        return [];
      }
      rs := Lists.Collect(entities[e].pools, pools);
      rs := Lists.SortBy(rs, CreatedAt<string>);
    }

    /** The same for scale sets, sorted by ID. */
    method GetEntityScaleSets(e: string) returns (rs: seq<ScaleSet>)
      requires Valid()
      ensures forall i, j :: 0 <= i < j < |rs| ==> rs[i].id <= rs[j].id
      ensures multiset(rs) == multiset(EntityIndex.Listed(ScaleSetIndex(), e))
      ensures EntityIndex.Coherent(ScaleSetIndex()) ==> multiset(rs) == multiset(EntityIndex.Owned(ScaleSetIndex(), e))
    {
      if EntityIndex.Coherent(ScaleSetIndex()) {
        EntityIndex.CoherentMeansFlat(ScaleSetIndex(), e);
      }
      if e !in entities {
        return [];
      }
      rs := Lists.Collect(entities[e].scaleSets, scaleSets);
      rs := Lists.SortBy(rs, NumericID);
    }

    method FindPoolsMatchingAllTags(lower: string -> string, e: string, labels: seq<string>) returns (rs: seq<Pool>)
      requires Valid()
      ensures forall i, j :: 0 <= i < j < |rs| ==> rs[i].createdAt <= rs[j].createdAt
      ensures multiset(rs) == multiset(Matching(lower, EntityIndex.Listed(PoolIndex(), e), labels))
    {
      if e !in entities {
        return [];
      }
      rs := [];
      ghost var seen := {};
      var todo := entities[e].pools;
      while todo != {}
        invariant seen == entities[e].pools - todo && todo <= entities[e].pools
        invariant multiset(rs) == multiset(Matching(lower, EntityIndex.Behind(seen, pools), labels))
      {
        var id :| id in todo;
        Lists.BehindOneMore(seen, id, pools);
        if id in pools {
          MatchingOneMore(lower, EntityIndex.Behind(seen, pools), pools[id], labels);
          var ok := HasRequiredLabels(lower, pools[id].tags, labels);
          if ok {
            rs := rs + [pools[id]];
          }
        }
        seen, todo := seen + {id}, todo - {id};
      }
      assert seen == entities[e].pools;
      rs := Lists.SortBy(rs, CreatedAt<string>);
    }

    /** The cached owner of a pool; by coherence every cached pool has one. */
    method GetEntityForPool(id: string) returns (r: Option<Flow.Entity>)
      requires Valid()
      ensures r.Some? <==> id in pools && pools[id].Owner().Some? && pools[id].Owner().value in Entities()
      ensures r.Some? ==> r.value == Entities()[pools[id].Owner().value]
      ensures EntityIndex.Coherent(PoolIndex()) && id in pools
              ==> r.Some? && Some(r.value.id) == pools[id].Owner()
    {
      if EntityIndex.Coherent(PoolIndex()) {
        EntityIndex.CoherentMeansFlat(PoolIndex(), "");
        assert forall x :: x in pools ==> x in PoolIndex().table;
      }
      if id !in pools || pools[id].Owner().None? {
        return None;
      }
      var owner := pools[id].Owner().value;
      r := if owner in entities then Some(entities[owner].entity) else None;
    }

    method GetEntityForScaleSet(id: nat) returns (r: Option<Flow.Entity>)
      requires Valid()
      ensures r.Some? <==> id in scaleSets && scaleSets[id].Owner().Some? && scaleSets[id].Owner().value in Entities()
      ensures r.Some? ==> r.value == Entities()[scaleSets[id].Owner().value]
      ensures EntityIndex.Coherent(ScaleSetIndex()) && id in scaleSets
              ==> r.Some? && Some(r.value.id) == scaleSets[id].Owner()
    {
      if EntityIndex.Coherent(ScaleSetIndex()) {
        EntityIndex.CoherentMeansFlat(ScaleSetIndex(), "");
        assert forall x :: x in scaleSets ==> x in ScaleSetIndex().table;
      }
      if id !in scaleSets || scaleSets[id].Owner().None? {
        return None;
      }
      var owner := scaleSets[id].Owner().value;
      r := if owner in entities then Some(entities[owner].entity) else None;
    }

    /** The entity as stored, with the credentials that its cache holds now. */
    method GetEntity(e: string, github: CredentialCache, gitea: CredentialCache) returns (r: Option<Flow.Entity>)
      ensures r == if e in Entities()
                   then Some(Flow.WithCachedCredentials(Entities()[e], github.cache, gitea.cache))
                   else None
    {
      if e !in entities {
        return None;
      }
      var entity := entities[e].entity;
      var found: Option<Flow.Credentials> := None;
      match entity.credentials.forgeType {
        case GithubForge => found := github.GetCredentials(entity.credentials.id);
        case GiteaForge => found := gitea.GetCredentials(entity.credentials.id);
        case AutoForge =>
      }
      if found.Some? {
        entity := entity.(credentials := found.value);
      }
      return Some(entity);
    }

    method GetPoolByID(id: string) returns (r: Option<Pool>)
      ensures r == if id in pools then Some(pools[id]) else None
    {
      r := if id in pools then Some(pools[id]) else None;
    }

    method GetScaleSetByID(id: nat) returns (r: Option<ScaleSet>)
      ensures r == if id in scaleSets then Some(scaleSets[id]) else None
    {
      r := if id in scaleSets then Some(scaleSets[id]) else None;
    }

    method UpdateCredentialsInAffectedEntities(c: Flow.Credentials)
      requires Valid()
      modifies this
      ensures Valid()
      ensures Entities() == Flow.Push(old(Entities()), c)
      ensures PoolIndex() == old(PoolIndex()) && ScaleSetIndex() == old(ScaleSetIndex())
    {
      ghost var was := entities;
      var todo := entities.Keys;
      while todo != {}
        invariant todo <= entities.Keys == was.Keys
        invariant pools == old(pools) && scaleSets == old(scaleSets)
        invariant forall e :: e in todo ==> entities[e] == was[e]
        invariant forall e :: e in was && e !in todo ==>
                    entities[e] == if was[e].entity.credentials.id == c.id
                                   then was[e].(entity := was[e].entity.(credentials := c)) else was[e]
      {
        var e :| e in todo;
        if entities[e].entity.credentials.id == c.id {
          entities := entities[e := entities[e].(entity := entities[e].entity.(credentials := c))];
        }
        todo := todo - {e};
      }
      ColumnsAfterPush(was, entities, c);
    }
  }

  // ---------------------------------------------------------------------
  // Credentials: one cache for GitHub, one for Gitea
  // ---------------------------------------------------------------------

  /** What the loop over `was` has to change in the credentials in `seen`. */
  function ChangedIn(was: Flow.CredentialMap, ep: Flow.Endpoint, seen: set<nat>): Flow.CredentialMap {
    map id | id in was && id in seen && was[id].endpoint.name == ep.name :: was[id].(endpoint := ep)
  }

  lemma ChangedAtTheEnds(was: Flow.CredentialMap, entities: Flow.EntityMap, ep: Flow.Endpoint)
    ensures was + ChangedIn(was, ep, {}) == was
    ensures Flow.PushAll(entities, ChangedIn(was, ep, {})) == entities
    ensures ChangedIn(was, ep, was.Keys) == Flow.OnEndpoint(was, ep)
  {
  }

  lemma ChangedInOneMore(was: Flow.CredentialMap, ep: Flow.Endpoint, seen: set<nat>, id: nat)
    requires id in was && id !in seen
    ensures (was + ChangedIn(was, ep, seen))[id] == was[id]
    ensures ChangedIn(was, ep, seen + {id})
            == if was[id].endpoint.name == ep.name
               then ChangedIn(was, ep, seen)[id := was[id].(endpoint := ep)]
               else ChangedIn(was, ep, seen)
  {
  }

  /** Pushing one more update after some others is pushing all of them. */
  lemma PushOneMore(entities: Flow.EntityMap, updated: Flow.CredentialMap, c: Flow.Credentials)
    requires forall id :: id in updated ==> updated[id].id == id
    ensures Flow.Push(Flow.PushAll(entities, updated), c) == Flow.PushAll(entities, updated[c.id := c])
  {
  }

  lemma MergeOneMore(was: Flow.CredentialMap, m: Flow.CredentialMap, id: nat, c: Flow.Credentials)
    ensures (was + m)[id := c] == was + m[id := c]
  {
  }

  lemma ChangeStep(was: Flow.CredentialMap, entities: Flow.EntityMap, ep: Flow.Endpoint, seen: set<nat>, id: nat)
    requires id in was && id !in seen && was[id].endpoint.name == ep.name
    requires forall x :: x in was ==> was[x].id == x
    ensures var c := was[id].(endpoint := ep);
            && (was + ChangedIn(was, ep, seen))[id := c] == was + ChangedIn(was, ep, seen + {id})
            && Flow.Push(Flow.PushAll(entities, ChangedIn(was, ep, seen)), c)
               == Flow.PushAll(entities, ChangedIn(was, ep, seen + {id}))
  {
    var c := was[id].(endpoint := ep);
    ChangedInOneMore(was, ep, seen, id);
    PushOneMore(entities, ChangedIn(was, ep, seen), c);
    MergeOneMore(was, ChangedIn(was, ep, seen), id, c);
  }

  class CredentialCache {
    var cache: Flow.CredentialMap

    ghost predicate Valid()
      reads this
    {
      forall id :: id in cache ==> cache[id].id == id
    }

    constructor ()
      ensures Valid() && cache == map[]
    {
      cache := map[];
    }

    method GetCredentials(id: nat) returns (r: Option<Flow.Credentials>)
      ensures r == if id in cache then Some(cache[id]) else None
    {
      r := if id in cache then Some(cache[id]) else None;
    }

    method SetCredentialsRateLimit(id: nat, limit: int)
      requires Valid()
      modifies this
      ensures Valid()
      ensures cache == if id in old(cache)
                       then old(cache)[id := old(cache)[id].(rateLimit := Some(limit))]
                       else old(cache)
    {
      if id in cache {
        cache := cache[id := cache[id].(rateLimit := Some(limit))];
      }
    }

    method SetCredentials(c: Flow.Credentials, ec: EntityCache)
      requires Valid() && ec.Valid()
      modifies this, ec
      ensures Valid() && ec.Valid()
      ensures cache == old(cache)[c.id := c]
      ensures ec.Entities() == Flow.Push(old(ec.Entities()), c)
      ensures ec.PoolIndex() == old(ec.PoolIndex()) && ec.ScaleSetIndex() == old(ec.ScaleSetIndex())
    {
      cache := cache[c.id := c];
      ec.UpdateCredentialsInAffectedEntities(c);
    }

    method DeleteCredentials(id: nat)
      requires Valid()
      modifies this
      ensures Valid()
      ensures cache == old(cache) - {id}
    {
      cache := cache - {id};
    }

    /** Every credential on an endpoint of that name gets it, and so does every
        entity that carries one of these credential IDs. */
    method UpdateCredentialsUsingEndpoint(ep: Flow.Endpoint, ec: EntityCache)
      requires Valid() && ec.Valid()
      modifies this, ec
      ensures Valid() && ec.Valid()
      ensures cache == old(cache) + Flow.OnEndpoint(old(cache), ep)
      ensures ec.Entities() == Flow.PushAll(old(ec.Entities()), Flow.OnEndpoint(old(cache), ep))
      ensures ec.PoolIndex() == old(ec.PoolIndex()) && ec.ScaleSetIndex() == old(ec.ScaleSetIndex())
    {
      ghost var was, entitiesWere, seen := cache, ec.Entities(), {};
      ChangedAtTheEnds(was, entitiesWere, ep);
      var todo := cache.Keys;
      while todo != {}
        invariant Valid() && ec.Valid()
        invariant todo <= was.Keys && seen == was.Keys - todo
        invariant cache == was + ChangedIn(was, ep, seen)
        invariant ec.Entities() == Flow.PushAll(entitiesWere, ChangedIn(was, ep, seen))
        invariant ec.PoolIndex() == old(ec.PoolIndex()) && ec.ScaleSetIndex() == old(ec.ScaleSetIndex())
      {
        var id :| id in todo;
        ChangedInOneMore(was, ep, seen, id);
        var c := cache[id];
        if c.endpoint.name == ep.name {
          ChangeStep(was, entitiesWere, ep, seen, id);
          SetCredentials(c.(endpoint := ep), ec);
        }
        seen, todo := seen + {id}, todo - {id};
      }
    }
  }

  class EndpointCache {
    var endpoints: map<string, Flow.Endpoint>

    constructor ()
      ensures endpoints == map[]
    {
      endpoints := map[];
    }

    method GetEndpoint(name: string) returns (r: Option<Flow.Endpoint>)
      ensures r == if name in endpoints then Some(endpoints[name]) else None
    {
      r := if name in endpoints then Some(endpoints[name]) else None;
    }

    method RemoveEndpoint(name: string)
      modifies this
      ensures endpoints == old(endpoints) - {name}
    {
      endpoints := endpoints - {name};
    }

    /** Only the Gitea credentials are told. */
    method SetEndpoint(ep: Flow.Endpoint, gitea: CredentialCache, ec: EntityCache)
      requires gitea.Valid() && ec.Valid()
      modifies this, gitea, ec
      ensures gitea.Valid() && ec.Valid()
      ensures endpoints == old(endpoints)[ep.name := ep]
      ensures gitea.cache == old(gitea.cache) + Flow.OnEndpoint(old(gitea.cache), ep)
      ensures ec.Entities() == Flow.PushAll(old(ec.Entities()), Flow.OnEndpoint(old(gitea.cache), ep))
      ensures ec.PoolIndex() == old(ec.PoolIndex()) && ec.ScaleSetIndex() == old(ec.ScaleSetIndex())
    {
      endpoints := endpoints[ep.name := ep];
      gitea.UpdateCredentialsUsingEndpoint(ep, ec);
    }
  }
}
