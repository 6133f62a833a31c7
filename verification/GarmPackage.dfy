/** The caches of the package ci/runners/garm/cache as its exported functions use
    them: one of each kind, wired together. */
module GarmPackage {
  import opened Wrappers
  import EntityIndex
  import Flow = CredentialFlow
  import GarmCache

  class Caches {
    const endpoints: GarmCache.EndpointCache
    const github: GarmCache.CredentialCache
    const gitea: GarmCache.CredentialCache
    const entities: GarmCache.EntityCache
    ghost var accounts: map<string, Flow.Account>

    ghost predicate Valid()
      reads this, github, gitea, entities
    {
      github != gitea && github.Valid() && gitea.Valid() && entities.Valid()
    }

    ghost function World(): Flow.World
      reads this, endpoints, github, gitea, entities
    {
      Flow.World(endpoints.endpoints, github.cache, gitea.cache, entities.Entities(), accounts)
    }

    constructor ()
      ensures Valid() && World() == Flow.EMPTY
      ensures fresh(endpoints) && fresh(github) && fresh(gitea) && fresh(entities)
    {
      endpoints := new GarmCache.EndpointCache();
      github := new GarmCache.CredentialCache();
      gitea := new GarmCache.CredentialCache();
      entities := new GarmCache.EntityCache();
      accounts := map[];
    }

    /** One exported call that sets or deletes something; it acts on the four caches
        as Flow.Apply says. */
    method Do(op: Flow.Op)
      requires Valid()
      modifies this, endpoints, github, gitea, entities
      ensures Valid() && World() == Flow.Apply(old(World()), op)
    {
      match op {
        case SetGithub(c) => github.SetCredentials(c, entities);
        case SetGitea(c) => gitea.SetCredentials(c, entities);
        case SetRateLimit(id, limit) => github.SetCredentialsRateLimit(id, limit);
        case DeleteGithub(id) => github.DeleteCredentials(id);
        case DeleteGitea(id) => gitea.DeleteCredentials(id);
        case SetEndpoint(ep) => endpoints.SetEndpoint(ep, gitea, entities);
        case RemoveEndpoint(name) => endpoints.RemoveEndpoint(name);
        case SetEntity(entity) =>
          entities.SetEntity(entity);
          accounts := accounts[entity.id := Flow.AccountOf(entity.credentials)];
        case DeleteEntity(e) =>
          entities.DeleteEntity(e);
          accounts := accounts - {e};
      }
    }

    method GetEntity(e: string) returns (r: Option<Flow.Entity>)
      requires Valid()
      ensures var w := World();
              r == if e in w.entities then Some(Flow.WithCachedCredentials(w.entities[e], w.github, w.gitea)) else None
    {
      r := entities.GetEntity(e, github, gitea);
    }
  }
}
