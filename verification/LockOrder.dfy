/** The mutexes of ci/runners/garm/cache and how its calls nest them. Any number
    of threads, each running any number of calls; only the Lock and Unlock
    operations are kept of a call. */
module LockOrder {
  type Tid = nat

  /** One mutex per cache: endpoints, GitHub and Gitea credentials, entities,
      instances. */
  datatype Mutex = Endpoints | Github | Gitea | Entities | Instances

  datatype Op = Acquire(m: Mutex) | Release(m: Mutex)

  /** The calls of the package, up to what they lock. `n` counts the credentials
      on the endpoint, `kinds` lists the credential cache that each visited
      entity points to, if any. */
  datatype Call =
    | Single(m: Mutex)                          // every call that takes one mutex
    | SetEndpoint(n: nat)
    | UpdateCredentialsUsingEndpoint(n: nat)
    | SetGithubCredentials
    | SetGiteaCredentials
    | GetEntity(kind: seq<Mutex>)
    | GetAllEntities(kinds: seq<Mutex>)
    | GetEntityForInstance(kind: seq<Mutex>)
    | GetEntityInstances

  function Section(m: Mutex, body: seq<Op>): seq<Op> {
    [Acquire(m)] + body + [Release(m)]
  }

  /** UpdateCredentialsInAffectedEntities, once per credential on the endpoint. */
  function PushEach(n: nat): seq<Op> {
    if n == 0 then [] else Section(Entities, []) + PushEach(n - 1)
  }

  /** GetGithubCredentials or GetGiteaCredentials, once per visited entity. */
  function LookUpEach(kinds: seq<Mutex>): seq<Op> {
    if kinds == [] then [] else Section(kinds[0], []) + LookUpEach(kinds[1..])
  }

  /** Entities point to GitHub or Gitea credentials only, and GetEntity visits at
      most one entity. */
  predicate ValidCall(c: Call) {
    match c
    case GetEntity(kinds) => |kinds| <= 1 && CredentialKinds(kinds)
    case GetEntityForInstance(kinds) => |kinds| <= 1 && CredentialKinds(kinds)
    case GetAllEntities(kinds) => CredentialKinds(kinds)
    case _ => true
  }

  predicate CredentialKinds(kinds: seq<Mutex>) {
    forall i :: 0 <= i < |kinds| ==> kinds[i] in {Github, Gitea}
  }

  function Program(c: Call): seq<Op> {
    match c
    case Single(m) => Section(m, [])
    case SetEndpoint(n) => Section(Endpoints, Section(Gitea, PushEach(n)))
    case UpdateCredentialsUsingEndpoint(n) => Section(Gitea, PushEach(n))
    case SetGithubCredentials => Section(Github, Section(Entities, []))
    case SetGiteaCredentials => Section(Gitea, Section(Entities, []))
    case GetEntity(kind) => Section(Entities, LookUpEach(kind))
    case GetAllEntities(kinds) => Section(Entities, LookUpEach(kinds))
    case GetEntityForInstance(kind) =>
      Section(Instances, []) + (Section(Entities, []) + Section(Entities, LookUpEach(kind)))
    case GetEntityInstances => Section(Entities, []) + Section(Instances, [])
  }

  predicate Takes(p: seq<Op>, m: Mutex) {
    Acquire(m) in p
  }

  lemma {:induction false} EachTakes(n: nat, kinds: seq<Mutex>, m: Mutex)
    ensures Takes(PushEach(n), m) <==> n > 0 && m == Entities
    ensures Takes(LookUpEach(kinds), m) <==> m in kinds
    decreases n + |kinds|
  {
    if n > 0 {
      EachTakes(n - 1, kinds, m);
    } else if kinds != [] {
      EachTakes(n, kinds[1..], m);
    }
    if n > 0 && kinds != [] {
      EachTakes(n, kinds[1..], m);
    }
  }

  /** Which mutexes a call takes at all. */
  lemma MutexesOf(c: Call, m: Mutex)
    ensures Takes(Program(c), m)
            <==> match c
                 case Single(single) => m == single
                 case SetEndpoint(n) => m in {Endpoints, Gitea} || (n > 0 && m == Entities)
                 case UpdateCredentialsUsingEndpoint(n) => m == Gitea || (n > 0 && m == Entities)
                 case SetGithubCredentials => m in {Github, Entities}
                 case SetGiteaCredentials => m in {Gitea, Entities}
                 case GetEntity(kinds) => m == Entities || m in kinds
                 case GetAllEntities(kinds) => m == Entities || m in kinds
                 case GetEntityForInstance(kinds) => m in {Instances, Entities} || m in kinds
                 case GetEntityInstances => m in {Entities, Instances}
  {
    match c
    case SetEndpoint(n) => EachTakes(n, [], m);
    case UpdateCredentialsUsingEndpoint(n) => EachTakes(n, [], m);
    case GetEntity(kinds) => EachTakes(0, kinds, m);
    case GetAllEntities(kinds) => EachTakes(0, kinds, m);
    case GetEntityForInstance(kinds) => EachTakes(0, kinds, m);
    case _ =>
  }

  // ---------------------------------------------------------------------
  // Threads
  // ---------------------------------------------------------------------

  datatype Thread = Thread(held: set<Mutex>, rest: seq<Op>)

  /** Threads that are inside a call. */
  type State = map<Tid, Thread>

  datatype Move = Start(t: Tid, c: Call) | Step(t: Tid)

  predicate Free(s: State, m: Mutex) {
    forall t :: t in s ==> m !in s[t].held
  }

  predicate CanStep(s: State, t: Tid) {
    t in s && s[t].rest != [] && (s[t].rest[0].Acquire? ==> Free(s, s[t].rest[0].m))
  }

  function Advance(th: Thread): Thread
    requires th.rest != []
  {
    var op := th.rest[0];
    Thread(if op.Acquire? then th.held + {op.m} else th.held - {op.m}, th.rest[1..])
  }

  /** A thread that has run all its operations has returned. */
  function AfterStep(s: State, t: Tid): State
    requires t in s && s[t].rest != []
  {
    if |s[t].rest| == 1 then s - {t} else s[t := Advance(s[t])]
  }

  /** `mix` says which calls the program ever makes. */
  ghost predicate Allowed(mix: Call -> bool, s: State, m: Move) {
    match m
    case Start(t, c) => t !in s && mix(c) && ValidCall(c)
    case Step(t) => CanStep(s, t)
  }

  function Next(s: State, m: Move): State
    requires m.Step? ==> CanStep(s, m.t)
  {
    match m
    case Start(t, c) => s[t := Thread({}, Program(c))]
    case Step(t) => AfterStep(s, t)
  }

  ghost predicate Reaches(mix: Call -> bool, s: State, moves: seq<Move>, s': State)
    decreases |moves|
  {
    if moves == [] then s == s'
    else Allowed(mix, s, moves[0]) && Reaches(mix, Next(s, moves[0]), moves[1..], s')
  }

  /** Some call is under way and no thread inside a call can go on. */
  ghost predicate Stuck(s: State) {
    s != map[] && forall t :: !CanStep(s, t)
  }

  /** t is blocked on a mutex that u holds. */
  predicate WaitsFor(s: State, t: Tid, u: Tid) {
    t in s && u in s && s[t].rest != [] && s[t].rest[0].Acquire? && s[t].rest[0].m in s[u].held
  }

  /** Each thread of the path waits for the next one. */
  ghost predicate WaitPath(s: State, path: seq<Tid>) {
    path != [] && forall i :: 0 <= i < |path| - 1 ==> WaitsFor(s, path[i], path[i + 1])
  }

  /** Some threads wait for each other in a circle, whatever the others do. */
  ghost predicate Circular(s: State) {
    exists path :: WaitPath(s, path) && |path| > 1 && path[0] == path[|path| - 1]
  }

  // ---------------------------------------------------------------------
  // Two calls that nest the same pair of mutexes in opposite order
  // ---------------------------------------------------------------------

  /** Calls that take credential mutex k while they hold the entity mutex. */
  predicate LooksUp(c: Call, k: Mutex) {
    match c
    case GetEntity(kinds) => k in kinds
    case GetAllEntities(kinds) => k in kinds
    case GetEntityForInstance(kinds) => k in kinds
    case _ => false
  }

  /** Calls that take the entity mutex while they hold credential mutex k. */
  predicate Pushes(c: Call, k: Mutex) {
    match c
    case SetEndpoint(n) => n > 0 && k == Gitea
    case UpdateCredentialsUsingEndpoint(n) => n > 0 && k == Gitea
    case SetGithubCredentials => k == Github
    case SetGiteaCredentials => k == Gitea
    case _ => false
  }

  ghost predicate OppositeOn(mix: Call -> bool, k: Mutex) {
    && (exists c :: mix(c) && ValidCall(c) && LooksUp(c, k))
    && (exists c :: mix(c) && ValidCall(c) && Pushes(c, k))
  }

  ghost predicate Opposite(mix: Call -> bool) {
    OppositeOn(mix, Github) || OppositeOn(mix, Gitea)
  }

  // ---------------------------------------------------------------------
  // No opposite nesting: there is always a thread that can go on
  // ---------------------------------------------------------------------

  /** The credential mutex is below the entity mutex if some call of the mix
      takes it first, and above it otherwise. */
  ghost function Level(mix: Call -> bool, m: Mutex): nat {
    match m
    case Endpoints => 0
    case Entities => 2
    case Instances => 2
    case _ => if exists c :: mix(c) && ValidCall(c) && Pushes(c, m) then 1 else 3
  }

  /** Every mutex is taken above all those held, released by its holder, and
      nothing is held at the end. */
  ghost predicate Ordered(mix: Call -> bool, held: set<Mutex>, rest: seq<Op>)
    decreases |rest|
  {
    if rest == [] then held == {}
    else match rest[0]
      case Acquire(m) =>
        (forall h :: h in held ==> Level(mix, h) < Level(mix, m)) && Ordered(mix, held + {m}, rest[1..])
      case Release(m) =>
        m in held && Ordered(mix, held - {m}, rest[1..])
  }

  lemma OrderedSection(mix: Call -> bool, held: set<Mutex>, m: Mutex, rest: seq<Op>)
    requires forall h :: h in held ==> Level(mix, h) < Level(mix, m)
    requires Ordered(mix, held, rest)
    ensures Ordered(mix, held, Section(m, []) + rest)
  {
  }

  lemma {:induction false} OrderedPushEach(mix: Call -> bool, held: set<Mutex>, n: nat, rest: seq<Op>)
    requires n > 0 ==> forall h :: h in held ==> Level(mix, h) < Level(mix, Entities)
    requires Ordered(mix, held, rest)
    ensures Ordered(mix, held, PushEach(n) + rest)
  {
    if n == 0 {
      assert PushEach(0) + rest == rest;
    } else {
      OrderedPushEach(mix, held, n - 1, rest);
      OrderedSection(mix, held, Entities, PushEach(n - 1) + rest);
      assert PushEach(n) + rest == Section(Entities, []) + (PushEach(n - 1) + rest);
    }
  }

  lemma {:induction false} OrderedLookUpEach(mix: Call -> bool, held: set<Mutex>, kinds: seq<Mutex>, rest: seq<Op>)
    requires forall i, h :: 0 <= i < |kinds| && h in held ==> Level(mix, h) < Level(mix, kinds[i])
    requires Ordered(mix, held, rest)
    ensures Ordered(mix, held, LookUpEach(kinds) + rest)
  {
    if kinds == [] {
      assert LookUpEach([]) + rest == rest;
    } else {
      OrderedLookUpEach(mix, held, kinds[1..], rest);
      OrderedSection(mix, held, kinds[0], LookUpEach(kinds[1..]) + rest);
      assert LookUpEach(kinds) + rest == Section(kinds[0], []) + (LookUpEach(kinds[1..]) + rest);
    }
  }

  /** Section m around an ordered body. */
  lemma OrderedAround(mix: Call -> bool, held: set<Mutex>, m: Mutex, body: seq<Op>, rest: seq<Op>)
    requires forall h :: h in held ==> Level(mix, h) < Level(mix, m)
    requires Ordered(mix, held + {m}, body + ([Release(m)] + rest))
    ensures Ordered(mix, held, Section(m, body) + rest)
  {
    var ops := Section(m, body) + rest;
    assert ops[0] == Acquire(m) && ops[1..] == body + ([Release(m)] + rest);
  }

  lemma OrderedRelease(mix: Call -> bool, held: set<Mutex>, m: Mutex, rest: seq<Op>)
    requires m !in held && Ordered(mix, held, rest)
    ensures Ordered(mix, held + {m}, [Release(m)] + rest)
  {
  }

  /** A credential mutex, the entity mutex n times inside it. */
  lemma PushOrdered(mix: Call -> bool, held: set<Mutex>, k: Mutex, n: nat, rest: seq<Op>)
    requires k in {Github, Gitea} && held <= {Endpoints}
    requires n > 0 ==> exists c :: mix(c) && ValidCall(c) && Pushes(c, k)
    requires Ordered(mix, held, rest)
    ensures Ordered(mix, held, Section(k, PushEach(n)) + rest)
  {
    OrderedRelease(mix, held, k, rest);
    OrderedPushEach(mix, held + {k}, n, [Release(k)] + rest);
    OrderedAround(mix, held, k, PushEach(n), rest);
  }

  lemma LookedUpIsAbove(mix: Call -> bool, c: Call, k: Mutex)
    requires !Opposite(mix) && mix(c) && ValidCall(c) && k in {Github, Gitea} && LooksUp(c, k)
    ensures Level(mix, k) == 3
  {
  }

  /** The entity mutex, some credential mutexes one after the other inside it. */
  lemma LookUpOrdered(mix: Call -> bool, c: Call, kinds: seq<Mutex>)
    requires !Opposite(mix) && mix(c) && ValidCall(c) && CredentialKinds(kinds)
    requires forall i :: 0 <= i < |kinds| ==> LooksUp(c, kinds[i])
    ensures Ordered(mix, {}, Section(Entities, LookUpEach(kinds)))
  {
    forall i | 0 <= i < |kinds|
      ensures Level(mix, kinds[i]) == 3
    {
      LookedUpIsAbove(mix, c, kinds[i]);
    }
    OrderedRelease(mix, {}, Entities, []);
    OrderedLookUpEach(mix, {} + {Entities}, kinds, [Release(Entities)] + []);
    OrderedAround(mix, {}, Entities, LookUpEach(kinds), []);
    assert Section(Entities, LookUpEach(kinds)) + [] == Section(Entities, LookUpEach(kinds));
  }

  lemma SetterOrdered(mix: Call -> bool, c: Call)
    requires mix(c) && ValidCall(c)
    requires c.SetEndpoint? || c.UpdateCredentialsUsingEndpoint? || c.SetGithubCredentials? || c.SetGiteaCredentials?
    ensures Ordered(mix, {}, Program(c))
  {
    assert Program(c) + [] == Program(c);
    assert PushEach(1) == Section(Entities, []) by {
      assert PushEach(0) == [];
    }
    match c
    case SetEndpoint(n) =>
      assert n > 0 ==> Pushes(c, Gitea);
      OrderedRelease(mix, {}, Endpoints, []);
      PushOrdered(mix, {} + {Endpoints}, Gitea, n, [Release(Endpoints)] + []);
      OrderedAround(mix, {}, Endpoints, Section(Gitea, PushEach(n)), []);
    case UpdateCredentialsUsingEndpoint(n) =>
      assert n > 0 ==> Pushes(c, Gitea);
      PushOrdered(mix, {}, Gitea, n, []);
    case SetGithubCredentials =>
      assert Pushes(c, Github);
      PushOrdered(mix, {}, Github, 1, []);
    case SetGiteaCredentials =>
      assert Pushes(c, Gitea);
      PushOrdered(mix, {}, Gitea, 1, []);
  }

  lemma ReaderOrdered(mix: Call -> bool, c: Call)
    requires !Opposite(mix) && mix(c) && ValidCall(c)
    requires c.Single? || c.GetEntity? || c.GetAllEntities? || c.GetEntityForInstance? || c.GetEntityInstances?
    ensures Ordered(mix, {}, Program(c))
  {
    match c
    case Single(m) =>
      OrderedSection(mix, {}, m, []);
      assert Section(m, []) + [] == Section(m, []);
    case GetEntity(kinds) =>
      LookUpOrdered(mix, c, kinds);
    case GetAllEntities(kinds) =>
      LookUpOrdered(mix, c, kinds);
    case GetEntityForInstance(kinds) =>
      LookUpOrdered(mix, c, kinds);
      OrderedSection(mix, {}, Entities, Section(Entities, LookUpEach(kinds)));
      OrderedSection(mix, {}, Instances, Section(Entities, []) + Section(Entities, LookUpEach(kinds)));
    case GetEntityInstances =>
      OrderedSection(mix, {}, Instances, []);
      assert Section(Instances, []) + [] == Section(Instances, []);
      OrderedSection(mix, {}, Entities, Section(Instances, []));
  }

  lemma ProgramOrdered(mix: Call -> bool, c: Call)
    requires !Opposite(mix) && mix(c) && ValidCall(c)
    ensures Ordered(mix, {}, Program(c)) && Program(c) != []
  {
    if c.SetEndpoint? || c.UpdateCredentialsUsingEndpoint? || c.SetGithubCredentials? || c.SetGiteaCredentials? {
      SetterOrdered(mix, c);
    } else {
      ReaderOrdered(mix, c);
    }
  }

  /** What every reachable state keeps: threads are in order and no mutex has two
      holders. */
  ghost predicate Inv(mix: Call -> bool, s: State) {
    && (forall t :: t in s ==> s[t].rest != [] && Ordered(mix, s[t].held, s[t].rest))
    && (forall t, u, m :: t in s && u in s && m in s[t].held && m in s[u].held ==> t == u)
  }

  lemma MoveKeepsInv(mix: Call -> bool, s: State, m: Move)
    requires !Opposite(mix) && Inv(mix, s) && Allowed(mix, s, m)
    ensures Inv(mix, Next(s, m))
  {
    if m.Start? {
      ProgramOrdered(mix, m.c);
    }
  }

  lemma {:induction false} ReachableInv(mix: Call -> bool, s: State, moves: seq<Move>, s': State)
    requires !Opposite(mix) && Inv(mix, s) && Reaches(mix, s, moves, s')
    ensures Inv(mix, s')
    decreases |moves|
  {
    if moves == [] {
    } else {
      MoveKeepsInv(mix, s, moves[0]);
      ReachableInv(mix, Next(s, moves[0]), moves[1..], s');
    }
  }

  /** The level of the mutex that t is about to take, above all others if none. */
  ghost function Height(mix: Call -> bool, s: State, t: Tid): nat {
    if t in s && s[t].rest != [] && s[t].rest[0].Acquire? then Level(mix, s[t].rest[0].m) else 4
  }

  /** A thread waits for a mutex of a lower level than its holder waits for. */
  lemma WaitsUpward(mix: Call -> bool, s: State, t: Tid, u: Tid)
    requires Inv(mix, s) && WaitsFor(s, t, u)
    ensures Height(mix, s, t) < Height(mix, s, u)
  {
  }

  /** Following the holders from any thread inside a call leads to one that can go
      on: whoever waits, waits in the end for a thread that is not blocked. */
  lemma {:induction false} SomeoneCanStep(mix: Call -> bool, s: State, t: Tid) returns (path: seq<Tid>)
    requires Inv(mix, s) && t in s
    ensures WaitPath(s, path) && path[0] == t && CanStep(s, path[|path| - 1])
    decreases 4 - Height(mix, s, t)
  {
    if CanStep(s, t) {
      path := [t];
    } else {
      var m := s[t].rest[0].m;
      var holder :| holder in s && m in s[holder].held;
      assert WaitsFor(s, t, holder);
      if CanStep(s, holder) {
        path := [t, holder];
      } else {
        WaitsUpward(mix, s, t, holder);
        var rest := SomeoneCanStep(mix, s, holder);
        path := [t] + rest;
      }
    }
  }

  lemma {:induction false} PathClimbs(mix: Call -> bool, s: State, path: seq<Tid>)
    requires Inv(mix, s) && WaitPath(s, path) && |path| > 1
    ensures Height(mix, s, path[0]) < Height(mix, s, path[|path| - 1])
    decreases |path|
  {
    assert WaitsFor(s, path[0], path[1]);
    WaitsUpward(mix, s, path[0], path[1]);
    if |path| == 2 {
    } else {
      var tail := path[1..];
      forall i | 0 <= i < |tail| - 1
        ensures WaitsFor(s, tail[i], tail[i + 1])
      {
        assert WaitsFor(s, path[i + 1], path[i + 1 + 1]);
      }
      PathClimbs(mix, s, tail);
    }
  }

  lemma NeverCircular(mix: Call -> bool, s: State)
    requires Inv(mix, s)
    ensures !Circular(s)
  {
    forall path | WaitPath(s, path) && |path| > 1
      ensures path[0] != path[|path| - 1]
    {
      PathClimbs(mix, s, path);
    }
  }

  /** Following the holders from t ends at a thread that can go on. */
  ghost predicate GoesOnInTheEnd(s: State, t: Tid) {
    exists path :: WaitPath(s, path) && path[0] == t && CanStep(s, path[|path| - 1])
  }

  lemma EveryoneGoesOn(mix: Call -> bool, s: State)
    requires Inv(mix, s)
    ensures forall t :: t in s ==> GoesOnInTheEnd(s, t)
  {
    forall t | t in s
      ensures GoesOnInTheEnd(s, t)
    {
      var path := SomeoneCanStep(mix, s, t);
    }
  }

  /** Main result on progress. Without opposite nesting no reachable state has all
      threads waiting, or some of them in a circle while others go on: whoever
      waits, waits in the end for a thread that can go on. */
  lemma NeverStuck(mix: Call -> bool, moves: seq<Move>, s: State)
    requires !Opposite(mix) && Reaches(mix, map[], moves, s)
    ensures !Stuck(s) && !Circular(s)
    ensures forall t :: t in s ==> GoesOnInTheEnd(s, t)
  {
    ReachableInv(mix, map[], moves, s);
    EveryoneGoesOn(mix, s);
    NeverCircular(mix, s);
    if s != map[] {
      var t :| t in s;
      assert GoesOnInTheEnd(s, t);
    }
  }

  // ---------------------------------------------------------------------
  // Opposite nesting: two threads can wait for each other
  // ---------------------------------------------------------------------

  ghost predicate CanGetStuck(mix: Call -> bool, s: State) {
    exists moves, s' :: Reaches(mix, s, moves, s') && Stuck(s') && Circular(s')
  }

  lemma StuckLater(mix: Call -> bool, s: State, m: Move)
    requires Allowed(mix, s, m) && CanGetStuck(mix, Next(s, m))
    ensures CanGetStuck(mix, s)
  {
    var moves, s' :| Reaches(mix, Next(s, m), moves, s') && Stuck(s') && Circular(s');
    assert ([m] + moves)[1..] == moves;
    assert Reaches(mix, s, [m] + moves, s');
  }

  /** Thread 0 holds the entity mutex and wants k, thread 1 the other way round. */
  lemma WaitCycle(mix: Call -> bool, s: State, k: Mutex)
    requires s.Keys == {0, 1}
    requires Entities in s[0].held && s[0].rest != [] && s[0].rest[0] == Acquire(k)
    requires k in s[1].held && s[1].rest != [] && s[1].rest[0] == Acquire(Entities)
    ensures CanGetStuck(mix, s)
  {
    assert 0 in s && 1 in s;
    assert Stuck(s);
    assert WaitsFor(s, 0, 1) && WaitsFor(s, 1, 0);
    assert WaitPath(s, [0, 1, 0]);
    assert Reaches(mix, s, [], s);
  }

  /** Thread 0 holds the entity mutex and wants k; thread 1 starts a call that
      pushes credentials of cache k. */
  lemma PusherJoins(mix: Call -> bool, waiting: Thread, c: Call, k: Mutex)
    requires mix(c) && ValidCall(c) && Pushes(c, k)
    requires waiting.held == {Entities} && waiting.rest != [] && waiting.rest[0] == Acquire(k)
    ensures CanGetStuck(mix, map[0 := waiting])
  {
    var s := map[0 := waiting];
    var s1 := Next(s, Start(1, c));
    var s2 := Next(s1, Step(1));
    if c.SetEndpoint? {
      var s3 := Next(s2, Step(1));
      assert s2[1].rest[0] == Acquire(Gitea);
      assert s3[1].rest[0] == Acquire(Entities);
      WaitCycle(mix, s3, k);
      StuckLater(mix, s2, Step(1));
    } else {
      assert s2[1].rest[0] == Acquire(Entities);
      WaitCycle(mix, s2, k);
    }
    StuckLater(mix, s1, Step(1));
    StuckLater(mix, s, Start(1, c));
  }

  /** Thread 0 is inside the entity section and works through its look-ups. */
  lemma {:induction false} LookUpStalls(mix: Call -> bool, kinds: seq<Mutex>, rest: seq<Op>, c: Call, k: Mutex)
    requires k in kinds && CredentialKinds(kinds) && rest != []
    requires mix(c) && ValidCall(c) && Pushes(c, k)
    ensures CanGetStuck(mix, map[0 := Thread({Entities}, LookUpEach(kinds) + rest)])
  {
    var th := Thread({Entities}, LookUpEach(kinds) + rest);
    var s := map[0 := th];
    assert th.rest[0] == Acquire(kinds[0]);
    if kinds[0] == k {
      PusherJoins(mix, th, c, k);
    } else {
      var s1 := Next(s, Step(0));
      assert s1[0].rest[0] == Release(kinds[0]);
      var s2 := Next(s1, Step(0));
      assert s2[0].rest == LookUpEach(kinds[1..]) + rest;
      assert s2[0].held == {Entities};
      assert s2 == map[0 := Thread({Entities}, LookUpEach(kinds[1..]) + rest)];
      LookUpStalls(mix, kinds[1..], rest, c, k);
      StuckLater(mix, s1, Step(0));
      StuckLater(mix, s, Step(0));
    }
  }

  lemma SectionStalls(mix: Call -> bool, kinds: seq<Mutex>, c: Call, k: Mutex)
    requires k in kinds && CredentialKinds(kinds)
    requires mix(c) && ValidCall(c) && Pushes(c, k)
    ensures CanGetStuck(mix, map[0 := Thread({}, Section(Entities, LookUpEach(kinds)))])
  {
    var s := map[0 := Thread({}, Section(Entities, LookUpEach(kinds)))];
    assert s[0].rest[0] == Acquire(Entities);
    assert s[0].rest[1..] == LookUpEach(kinds) + [Release(Entities)];
    var s1 := Next(s, Step(0));
    assert s1[0].held == {Entities};
    assert s1 == map[0 := Thread({Entities}, LookUpEach(kinds) + [Release(Entities)])];
    LookUpStalls(mix, kinds, [Release(Entities)], c, k);
    StuckLater(mix, s, Step(0));
  }

  /** An empty section in front changes nothing for a thread that runs alone. */
  lemma SectionPasses(mix: Call -> bool, m: Mutex, rest: seq<Op>)
    requires rest != [] && CanGetStuck(mix, map[0 := Thread({}, rest)])
    ensures CanGetStuck(mix, map[0 := Thread({}, Section(m, []) + rest)])
  {
    var s := map[0 := Thread({}, Section(m, []) + rest)];
    var s1 := Next(s, Step(0));
    assert s1[0].rest[0] == Release(m);
    var s2 := Next(s1, Step(0));
    assert s2[0].rest == rest && s2[0].held == {};
    assert s2 == map[0 := Thread({}, rest)];
    StuckLater(mix, s1, Step(0));
    StuckLater(mix, s, Step(0));
  }

  lemma OppositeGetsStuck(mix: Call -> bool, k: Mutex)
    requires k in {Github, Gitea} && OppositeOn(mix, k)
    ensures CanGetStuck(mix, map[])
  {
    var c :| mix(c) && ValidCall(c) && LooksUp(c, k);
    var d :| mix(d) && ValidCall(d) && Pushes(d, k);
    var kinds := if c.GetEntity? then c.kind else if c.GetAllEntities? then c.kinds else c.kind;
    SectionStalls(mix, kinds, d, k);
    if c.GetEntityForInstance? {
      SectionPasses(mix, Entities, Section(Entities, LookUpEach(kinds)));
      SectionPasses(mix, Instances, Section(Entities, []) + Section(Entities, LookUpEach(kinds)));
    }
    var s := map[];
    assert Next(s, Start(0, c)) == map[0 := Thread({}, Program(c))];
    StuckLater(mix, s, Start(0, c));
  }

  ghost predicate ReachesStuck(mix: Call -> bool) {
    exists moves, s :: Reaches(mix, map[], moves, s) && Stuck(s)
  }

  ghost predicate ReachesCircle(mix: Call -> bool) {
    exists moves, s :: Reaches(mix, map[], moves, s) && Circular(s)
  }

  /** Main result, for every set of calls a program may make. Some interleaving of
      some number of threads blocks all of them exactly when the set holds a call
      that looks credentials up under the entity mutex and a call that pushes
      credentials of the same cache into the entities; and the same is true of
      threads that wait for each other in a circle while others go on. */
  lemma StuckIffOpposite(mix: Call -> bool)
    ensures ReachesStuck(mix) <==> Opposite(mix)
    ensures ReachesCircle(mix) <==> Opposite(mix)
  {
    if Opposite(mix) {
      OppositeGetsStuck(mix, if OppositeOn(mix, Github) then Github else Gitea);
      var moves, s :| Reaches(mix, map[], moves, s) && Stuck(s) && Circular(s);
      assert ReachesStuck(mix) && ReachesCircle(mix);
    } else {
      forall moves, s | Reaches(mix, map[], moves, s)
        ensures !Stuck(s) && !Circular(s)
      {
        NeverStuck(mix, moves, s);
      }
    }
  }

  /** So one reader of an entity and one setter of its kind of credentials suffice. */
  lemma ReaderAndSetter(k: Mutex, reader: Call, setter: Call)
    requires k in {Github, Gitea}
    requires reader in {GetEntity([k]), GetAllEntities([k]), GetEntityForInstance([k])}
    requires setter == (if k == Github then SetGithubCredentials else SetGiteaCredentials)
             || (k == Gitea && setter in {SetEndpoint(1), UpdateCredentialsUsingEndpoint(1)})
    ensures ReachesStuck(c => c in {reader, setter})
  {
    var mix := c => c in {reader, setter};
    assert mix(reader) && mix(setter);
    assert ValidCall(reader) && LooksUp(reader, k);
    assert ValidCall(setter) && Pushes(setter, k);
    StuckIffOpposite(mix);
  }
}
