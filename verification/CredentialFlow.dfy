/** Credentials, endpoints and the entities that carry copies of them: what
    ci/runners/garm/cache/{endpoint,credentials,entity}_cache.go propagate. */
module CredentialFlow {
  import opened Wrappers

  datatype ForgeType = AutoForge | GithubForge | GiteaForge

  datatype Endpoint = Endpoint(name: string, settings: string)

  datatype Credentials = Credentials(
    id: nat,
    forgeType: ForgeType,
    endpoint: Endpoint,
    rateLimit: Option<int>,
    settings: string)

  datatype Entity = Entity(id: string, credentials: Credentials, createdAt: int, settings: string)

  type CredentialMap = map<nat, Credentials>
  type EntityMap = map<string, Entity>

  /** UpdateCredentialsInAffectedEntities: matched by ID alone. */
  function Push(entities: EntityMap, c: Credentials): EntityMap {
    map e | e in entities ::
      if entities[e].credentials.id == c.id then entities[e].(credentials := c) else entities[e]
  }

  /** The credentials on the endpoint of that name, with the new endpoint. */
  function OnEndpoint(cache: CredentialMap, ep: Endpoint): CredentialMap {
    map id | id in cache && cache[id].endpoint.name == ep.name :: cache[id].(endpoint := ep)
  }

  /** Every entity whose credential ID is among the updated ones gets the update. */
  function PushAll(entities: EntityMap, updated: CredentialMap): EntityMap {
    map e | e in entities ::
      var id := entities[e].credentials.id;
      if id in updated then entities[e].(credentials := updated[id]) else entities[e]
  }

  /** GetEntity: the stored entity with the cached credentials, if there are any. */
  function WithCachedCredentials(e: Entity, github: CredentialMap, gitea: CredentialMap): Entity {
    var id := e.credentials.id;
    match e.credentials.forgeType
    case GithubForge => if id in github then e.(credentials := github[id]) else e
    case GiteaForge => if id in gitea then e.(credentials := gitea[id]) else e
    case AutoForge => e
  }

  /** Propagation replaces the credentials of the matching entities by exactly what
      is pushed, and touches nothing else of any entity. */
  lemma PushChangesCredentialsOnly(entities: EntityMap, c: Credentials, e: string)
    requires e in entities
    ensures Push(entities, c).Keys == entities.Keys
    ensures var was, now := entities[e], Push(entities, c)[e];
            && now.id == was.id && now.createdAt == was.createdAt && now.settings == was.settings
            && now.credentials == if was.credentials.id == c.id then c else was.credentials
  {
  }

  /** An endpoint update replaces the endpoint of the credentials on its name, and
      touches nothing else of them and no other credential. */
  lemma OnEndpointChangesEndpointOnly(cache: CredentialMap, ep: Endpoint, id: nat)
    requires id in cache
    ensures (cache + OnEndpoint(cache, ep)).Keys == cache.Keys
    ensures var was, now := cache[id], (cache + OnEndpoint(cache, ep))[id];
            && now.id == was.id && now.forgeType == was.forgeType
            && now.rateLimit == was.rateLimit && now.settings == was.settings
            && now.endpoint == if was.endpoint.name == ep.name then ep else was.endpoint
  {
  }

  /** Pushing many credentials is pushing each of them. */
  lemma PushAllPushesEach(entities: EntityMap, updated: CredentialMap, e: string)
    requires e in entities
    ensures PushAll(entities, updated).Keys == entities.Keys
    ensures var was, now := entities[e], PushAll(entities, updated)[e];
            && now.id == was.id && now.createdAt == was.createdAt && now.settings == was.settings
            && now.credentials
               == if was.credentials.id in updated then updated[was.credentials.id] else was.credentials
  {
  }

  // ---------------------------------------------------------------------
  // The three caches together
  // ---------------------------------------------------------------------

  /** The account an entity was last set to use. */
  datatype Account = Account(forgeType: ForgeType, id: nat)

  /** `accounts` is history: it changes only with SetEntity and DeleteEntity. */
  datatype World = World(
    endpoints: map<string, Endpoint>,
    github: CredentialMap,
    gitea: CredentialMap,
    entities: EntityMap,
    accounts: map<string, Account>)

  const EMPTY := World(map[], map[], map[], map[], map[])

  datatype Op =
    | SetGithub(c: Credentials)
    | SetGitea(c: Credentials)
    | SetRateLimit(id: nat, limit: int)
    | DeleteGithub(id: nat)
    | DeleteGitea(id: nat)
    | SetEndpoint(ep: Endpoint)
    | RemoveEndpoint(name: string)
    | SetEntity(entity: Entity)
    | DeleteEntity(e: string)

  function AccountOf(c: Credentials): Account {
    Account(c.forgeType, c.id)
  }

  function Apply(w: World, op: Op): World {
    match op
    case SetGithub(c) => w.(github := w.github[c.id := c], entities := Push(w.entities, c))
    case SetGitea(c) => w.(gitea := w.gitea[c.id := c], entities := Push(w.entities, c))
    case SetRateLimit(id, limit) =>
      if id in w.github then w.(github := w.github[id := w.github[id].(rateLimit := Some(limit))]) else w
    case DeleteGithub(id) => w.(github := w.github - {id})
    case DeleteGitea(id) => w.(gitea := w.gitea - {id})
    case SetEndpoint(ep) =>
      var updated := OnEndpoint(w.gitea, ep);
      w.(endpoints := w.endpoints[ep.name := ep],
         gitea := w.gitea + updated,
         entities := PushAll(w.entities, updated))
    case RemoveEndpoint(name) => w.(endpoints := w.endpoints - {name})
    case SetEntity(entity) =>
      w.(entities := w.entities[entity.id := entity],
         accounts := w.accounts[entity.id := AccountOf(entity.credentials)])
    case DeleteEntity(e) => w.(entities := w.entities - {e}, accounts := w.accounts - {e})
  }

  function Run(w: World, ops: seq<Op>): World
    decreases |ops|
  {
    if ops == [] then w else Run(Apply(w, ops[0]), ops[1..])
  }

  predicate SameUpToRateLimit(a: Credentials, b: Credentials) {
    a.(rateLimit := None) == b.(rateLimit := None)
  }

  /** The cache that holds an account's credentials. */
  function CacheOf(w: World, t: ForgeType): CredentialMap {
    match t
    case GithubForge => w.github
    case GiteaForge => w.gitea
    case AutoForge => map[]
  }

  /** Each cache holds its own forge's credentials under their IDs. */
  ghost predicate Filed(w: World) {
    && (forall id :: id in w.github ==> w.github[id].id == id && w.github[id].forgeType.GithubForge?)
    && (forall id :: id in w.gitea ==> w.gitea[id].id == id && w.gitea[id].forgeType.GiteaForge?)
    && (forall e :: e in w.entities ==> w.entities[e].id == e)
  }

  /** c is what the caches hold for its account, if they hold anything. */
  predicate UpToDate(w: World, c: Credentials) {
    var cache := CacheOf(w, c.forgeType);
    c.id in cache ==> SameUpToRateLimit(c, cache[c.id])
  }

  /** e is still on the account it was set to use, with the cached credentials of
      that account up to the rate limit. */
  predicate EntityInStep(w: World, e: string) {
    && e in w.entities && e in w.accounts
    && AccountOf(w.entities[e].credentials) == w.accounts[e]
    && UpToDate(w, w.entities[e].credentials)
  }

  ghost predicate InStep(w: World) {
    w.entities.Keys == w.accounts.Keys && forall e :: e in w.entities ==> EntityInStep(w, e)
  }

  /** What callers must do: file credentials under their own forge, and set
      entities only with credentials that are up to date. */
  predicate Proper(w: World, op: Op) {
    match op
    case SetGithub(c) => c.forgeType.GithubForge?
    case SetGitea(c) => c.forgeType.GiteaForge?
    case SetEntity(entity) => UpToDate(w, entity.credentials)
    case _ => true
  }

  /** No entity uses the same credential ID on another forge. */
  ghost predicate NoNamesake(w: World, c: Credentials) {
    forall e :: e in w.entities && w.entities[e].credentials.id == c.id
                ==> w.entities[e].credentials.forgeType == c.forgeType
  }

  /** Main result on one step: setting credentials keeps all entities in step
      exactly when no entity uses that credential ID on the other forge. */
  lemma SetCredentialsInStepIff(w: World, op: Op)
    requires Filed(w) && InStep(w) && Proper(w, op) && (op.SetGithub? || op.SetGitea?)
    ensures InStep(Apply(w, op)) <==> NoNamesake(w, op.c)
  {
  }

  /** The endpoint update touches no entity of the other forge. */
  ghost predicate NoNamesakes(w: World, ep: Endpoint) {
    forall id :: id in OnEndpoint(w.gitea, ep) ==> NoNamesake(w, w.gitea[id])
  }

  /** Main result on one step: the same for an endpoint update. */
  lemma SetEndpointInStepIff(w: World, ep: Endpoint)
    requires Filed(w) && InStep(w)
    ensures InStep(Apply(w, SetEndpoint(ep))) <==> NoNamesakes(w, ep)
  {
  }

  lemma OtherOpForOne(w: World, op: Op, e: string)
    requires Filed(w) && EntityInStep(w, e) && Proper(w, op) && !op.SetGithub? && !op.SetGitea? && !op.SetEndpoint?
    requires e in Apply(w, op).entities
    ensures EntityInStep(Apply(w, op), e)
  {
  }

  /** The other operations never get anything out of step. */
  lemma OtherOpsKeepInStep(w: World, op: Op)
    requires Filed(w) && InStep(w) && Proper(w, op) && !op.SetGithub? && !op.SetGitea? && !op.SetEndpoint?
    ensures InStep(Apply(w, op))
  {
    var after := Apply(w, op);
    forall e | e in after.entities
      ensures EntityInStep(after, e)
    {
      if e in w.entities {
        OtherOpForOne(w, op, e);
      }
    }
  }

  lemma FiledKept(w: World, op: Op)
    requires Filed(w) && Proper(w, op)
    ensures Filed(Apply(w, op))
  {
  }

  /** Every credential ID belongs to one forge. */
  predicate OneForgePerID(forge: nat -> ForgeType, op: Op) {
    match op
    case SetGithub(c) => forge(c.id) == c.forgeType
    case SetGitea(c) => forge(c.id) == c.forgeType
    case SetEntity(entity) => forge(entity.credentials.id) == entity.credentials.forgeType
    case _ => true
  }

  ghost predicate ForgesKept(forge: nat -> ForgeType, w: World) {
    && (forall id :: id in w.github ==> forge(id).GithubForge?)
    && (forall id :: id in w.gitea ==> forge(id).GiteaForge?)
    && (forall e :: e in w.entities ==> forge(w.entities[e].credentials.id) == w.entities[e].credentials.forgeType)
  }

  lemma ForgesStayKept(forge: nat -> ForgeType, w: World, op: Op)
    requires Filed(w) && ForgesKept(forge, w) && Proper(w, op) && OneForgePerID(forge, op)
    ensures ForgesKept(forge, Apply(w, op))
  {
  }

  ghost predicate ProperRun(forge: nat -> ForgeType, w: World, ops: seq<Op>)
    decreases |ops|
  {
    ops == [] || (Proper(w, ops[0]) && OneForgePerID(forge, ops[0]) && ProperRun(forge, Apply(w, ops[0]), ops[1..]))
  }

  lemma StepInStep(forge: nat -> ForgeType, w: World, op: Op)
    requires Filed(w) && InStep(w) && ForgesKept(forge, w) && Proper(w, op) && OneForgePerID(forge, op)
    ensures InStep(Apply(w, op))
  {
    if op.SetGithub? || op.SetGitea? {
      SetCredentialsInStepIff(w, op);
    } else if op.SetEndpoint? {
      SetEndpointInStepIff(w, op.ep);
    } else {
      OtherOpsKeepInStep(w, op);
    }
  }

  /** Main result: if GitHub and Gitea credential IDs are disjoint and entities are
      set with up-to-date credentials, then in all runs every entity carries the
      cached credentials of its own account, up to the rate limit. */
  lemma {:induction false} AlwaysInStep(forge: nat -> ForgeType, w: World, ops: seq<Op>)
    requires Filed(w) && InStep(w) && ForgesKept(forge, w) && ProperRun(forge, w, ops)
    ensures Filed(Run(w, ops)) && InStep(Run(w, ops))
    decreases |ops|
  {
    if ops == [] {
    } else {
      StepInStep(forge, w, ops[0]);
      FiledKept(w, ops[0]);
      ForgesStayKept(forge, w, ops[0]);
      AlwaysInStep(forge, Apply(w, ops[0]), ops[1..]);
    }
  }

  /** In particular from the empty caches. */
  lemma AlwaysInStepFromStart(forge: nat -> ForgeType, ops: seq<Op>)
    requires ProperRun(forge, EMPTY, ops)
    ensures InStep(Run(EMPTY, ops))
  {
    AlwaysInStep(forge, EMPTY, ops);
  }

  /** Every single step is proper; the IDs may meet. */
  predicate ProperSteps(w: World, ops: seq<Op>)
    decreases |ops|
  {
    ops == [] || (Proper(w, ops[0]) && ProperSteps(Apply(w, ops[0]), ops[1..]))
  }

  /** The disjointness is needed: from the empty caches, a Gitea credential, an
      entity that uses it, and a GitHub credential with the same ID leave the
      entity with the GitHub credential. */
  lemma NamesakeOverwrites(tea: Credentials, hub: Credentials, entity: Entity)
    requires tea.forgeType.GiteaForge? && hub.forgeType.GithubForge? && tea.id == hub.id
    requires entity.credentials == tea
    ensures var ops := [SetGitea(tea), SetEntity(entity), SetGithub(hub)];
            && ProperSteps(EMPTY, ops)
            && !InStep(Run(EMPTY, ops))
            && entity.id in Run(EMPTY, ops).entities
            && Run(EMPTY, ops).entities[entity.id].credentials == hub
  {
    var ops := [SetGitea(tea), SetEntity(entity), SetGithub(hub)];
    var w1 := Apply(EMPTY, ops[0]);
    var w2 := Apply(w1, ops[1]);
    var w3 := Apply(w2, ops[2]);
    assert ops[1..][1..] == [ops[2]] && [ops[2]][1..] == [];
    assert Run(w3, []) == w3 && Run(w2, [ops[2]]) == w3 && Run(w1, ops[1..]) == w3 && Run(EMPTY, ops) == w3;
    assert ProperSteps(w3, []) && ProperSteps(w2, [ops[2]]) && ProperSteps(w1, ops[1..]);
    assert w3.entities[entity.id].credentials == hub;
    assert !EntityInStep(w3, entity.id);
  }

  /** Right after SetEndpoint(ep) an entity carries ep exactly when its credential
      ID is cached for Gitea on an endpoint of that name, or it carried ep already. */
  lemma EndpointReaches(w: World, ep: Endpoint, e: string)
    requires Filed(w) && e in w.entities
    ensures var c := w.entities[e].credentials;
            Apply(w, SetEndpoint(ep)).entities[e].credentials.endpoint == ep
            <==> (c.id in w.gitea && w.gitea[c.id].endpoint.name == ep.name) || c.endpoint == ep
  {
  }

  /** In step, it follows for every entity on a cached Gitea account whose own
      endpoint has that name. */
  lemma EndpointReachesGiteaEntities(w: World, ep: Endpoint, e: string)
    requires Filed(w) && InStep(w) && e in w.entities
    requires w.entities[e].credentials.forgeType.GiteaForge? && w.entities[e].credentials.id in w.gitea
    requires w.entities[e].credentials.endpoint.name == ep.name
    ensures Apply(w, SetEndpoint(ep)).entities[e].credentials.endpoint == ep
  {
  }

  /** The entity is on that Gitea credential with that endpoint, and so is what the
      cache still holds for it. */
  predicate Carries(w: World, e: string, id: nat, ep: Endpoint) {
    && e in w.entities
    && w.entities[e].credentials.forgeType.GiteaForge? && w.entities[e].credentials.id == id
    && w.entities[e].credentials.endpoint == ep
    && (id in w.gitea ==> w.gitea[id].endpoint == ep)
  }

  /** A call that is meant to change which endpoint the entity has. */
  predicate Replaces(op: Op, e: string, id: nat, name: string) {
    match op
    case SetEndpoint(other) => other.name == name
    case SetGitea(c) => c.id == id
    case SetEntity(entity) => entity.id == e
    case DeleteEntity(x) => x == e
    case _ => false
  }

  lemma StepCarries(forge: nat -> ForgeType, w: World, op: Op, e: string, id: nat, ep: Endpoint)
    requires Filed(w) && ForgesKept(forge, w) && Proper(w, op) && OneForgePerID(forge, op)
    requires Carries(w, e, id, ep) && !Replaces(op, e, id, ep.name)
    ensures Carries(Apply(w, op), e, id, ep)
  {
  }

  lemma {:induction false} RunCarries(
    forge: nat -> ForgeType, w: World, ops: seq<Op>, e: string, id: nat, ep: Endpoint)
    requires Filed(w) && ForgesKept(forge, w) && ProperRun(forge, w, ops) && Carries(w, e, id, ep)
    requires forall k :: 0 <= k < |ops| ==> !Replaces(ops[k], e, id, ep.name)
    ensures Carries(Run(w, ops), e, id, ep)
    decreases |ops|
  {
    if ops == [] {
    } else {
      StepCarries(forge, w, ops[0], e, id, ep);
      FiledKept(w, ops[0]);
      ForgesStayKept(forge, w, ops[0]);
      RunCarries(forge, Apply(w, ops[0]), ops[1..], e, id, ep);
    }
  }

  lemma SetEndpointCarries(w: World, ep: Endpoint, e: string)
    requires Filed(w) && InStep(w) && e in w.entities
    requires w.entities[e].credentials.forgeType.GiteaForge? && w.entities[e].credentials.id in w.gitea
    requires w.entities[e].credentials.endpoint.name == ep.name
    ensures Carries(Apply(w, SetEndpoint(ep)), e, w.entities[e].credentials.id, ep)
  {
    EndpointReachesGiteaEntities(w, ep, e);
    assert UpToDate(w, w.entities[e].credentials);
  }

  /** Main result on endpoints: with disjoint credential IDs, after SetEndpoint(ep)
      every in-step Gitea entity on a cached credential of that endpoint name
      carries ep, in all runs, until an endpoint of that name, its account, or the
      entity itself is set again or the entity deleted. */
  lemma EndpointStays(forge: nat -> ForgeType, w: World, ep: Endpoint, ops: seq<Op>, e: string)
    requires Filed(w) && InStep(w) && ForgesKept(forge, w) && e in w.entities
    requires w.entities[e].credentials.forgeType.GiteaForge? && w.entities[e].credentials.id in w.gitea
    requires w.entities[e].credentials.endpoint.name == ep.name
    requires ProperRun(forge, Apply(w, SetEndpoint(ep)), ops)
    requires forall k :: 0 <= k < |ops| ==> !Replaces(ops[k], e, w.entities[e].credentials.id, ep.name)
    ensures var w' := Run(Apply(w, SetEndpoint(ep)), ops);
            e in w'.entities && w'.entities[e].credentials.endpoint == ep
  {
    var id, w1 := w.entities[e].credentials.id, Apply(w, SetEndpoint(ep));
    SetEndpointCarries(w, ep, e);
    FiledKept(w, SetEndpoint(ep));
    ForgesStayKept(forge, w, SetEndpoint(ep));
    RunCarries(forge, w1, ops, e, id, ep);
  }

  /** GetEntity answers with the stored entity, and with exactly what the cache of
      its forge holds for its credential ID, the rate limit included; without a
      cached credential the stored copy stays. */
  lemma GetEntityIsFresh(w: World, e: string)
    requires Filed(w) && e in w.entities
    ensures var got, c := WithCachedCredentials(w.entities[e], w.github, w.gitea), w.entities[e].credentials;
            && got.id == e && got.createdAt == w.entities[e].createdAt && got.settings == w.entities[e].settings
            && (c.forgeType.GithubForge? && c.id in w.github ==> got.credentials == w.github[c.id])
            && (c.forgeType.GiteaForge? && c.id in w.gitea ==> got.credentials == w.gitea[c.id])
            && (c.id !in CacheOf(w, c.forgeType) ==> got == w.entities[e])
  {
  }

  /** So a new rate limit is seen at once by GetEntity on a GitHub account, and
      deleted credentials leave the entity with its own copy. */
  lemma RateLimitIsSeen(w: World, e: string, limit: int)
    requires Filed(w) && e in w.entities && w.entities[e].credentials.forgeType.GithubForge?
    ensures var id := w.entities[e].credentials.id;
            var limited, gone := Apply(w, SetRateLimit(id, limit)), Apply(w, DeleteGithub(id));
            && (id in w.github ==>
                  WithCachedCredentials(limited.entities[e], limited.github, limited.gitea).credentials.rateLimit
                  == Some(limit))
            && WithCachedCredentials(gone.entities[e], gone.github, gone.gitea) == w.entities[e]
  {
  }

  /** In step, GetEntity adds nothing to the stored entity but the rate limit. */
  lemma GetEntityAddsRateLimit(w: World, e: string)
    requires Filed(w) && InStep(w) && e in w.entities
    ensures var got := WithCachedCredentials(w.entities[e], w.github, w.gitea);
            got.(credentials := w.entities[e].credentials) == w.entities[e]
            && SameUpToRateLimit(got.credentials, w.entities[e].credentials)
  {
  }
}
