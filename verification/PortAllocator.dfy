/** Host ports of the IDE proxies in abstraction/environment/incus.go. */
module PortAllocator {
  import opened Words
  import opened Wrappers
  import opened Decimal

  const FIRST: int := 10000
  const LAST: int := 59999
  const RANGE: int := 50000

  // ---------------------------------------------------------------------
  // hashName and the candidate
  // ---------------------------------------------------------------------

  /** The loop of hashName in 64-bit arithmetic. */
  function HashRaw(s: string): (h: int)
    ensures MIN_INT64 <= h <= MAX_INT64
  {
    if s == "" then 0 else Wrap64(HashRaw(s[..|s| - 1]) * 31 + s[|s| - 1] as int)
  }

  method HashName(s: string) returns (h: int)
    ensures h == if HashRaw(s) < 0 then Wrap64(-HashRaw(s)) else HashRaw(s)
  {
    h := 0;
    for i := 0 to |s|
      invariant h == HashRaw(s[..i])
    {
      h := Wrap64(h * 31 + s[i] as int);
      assert s[..i + 1][..i] == s[..i];
    }
    assert s[..|s|] == s;
    if h < 0 {
      h := Wrap64(-h);
    }
  }

  /** The remainder of Go: it has the sign of the dividend. */
  function GoMod(a: int, b: int): int
    requires b > 0
  {
    if a >= 0 then a % b else -((-a) % b)
  }

  function Candidate(name: string): int {
    var raw := HashRaw(name);
    FIRST + GoMod(if raw < 0 then Wrap64(-raw) else raw, RANGE)
  }

  lemma GoModBounds(a: int)
    ensures a >= 0 ==> 0 <= GoMod(a, RANGE) < RANGE && (GoMod(a, RANGE) - a) % RANGE == 0
    ensures a == MIN_INT64 ==> GoMod(a, RANGE) == -25808
  {
  }

  lemma NegationWraps(raw: int)
    requires MIN_INT64 <= raw < 0
    ensures Wrap64(-raw) == if raw == MIN_INT64 then raw else -raw
  {
    WrapInRange(-raw);
  }

  /** The candidate is a port of the range exactly when the wrapped hash is not the
      smallest integer, whose negation wraps to itself. */
  lemma CandidateInRangeIff(name: string)
    ensures FIRST <= Candidate(name) <= LAST <==> HashRaw(name) != MIN_INT64
    ensures HashRaw(name) == MIN_INT64 ==> Candidate(name) == -15808
    ensures HashRaw(name) != MIN_INT64 ==>
              (Candidate(name) - FIRST - (if HashRaw(name) < 0 then -HashRaw(name) else HashRaw(name))) % RANGE == 0
  {
    var raw := HashRaw(name);
    if raw < 0 {
      NegationWraps(raw);
    }
    var h := if raw < 0 then Wrap64(-raw) else raw;
    GoModBounds(h);
    assert Candidate(name) == FIRST + GoMod(h, RANGE);
  }

  lemma HashAppend(s: string, c: char)
    ensures HashRaw(s + [c]) == Wrap64(HashRaw(s) * 31 + c as int)
  {
    assert (s + [c])[..|s|] == s;
  }

  lemma HashNext(s: string, i: nat, h: int, next: int)
    requires i < |s| && HashRaw(s[..i]) == h && next == Wrap64(h * 31 + s[i] as int)
    ensures HashRaw(s[..i + 1]) == next
  {
    HashAppend(s[..i], s[i]);
    assert s[..i + 1] == s[..i] + [s[i]];
  }

  lemma HashPart1(s: string)
    requires |s| == 18 && HashRaw(s[..0]) == 0
    requires s[0] == 'e' && s[1] == 'n' && s[2] == 'v' && s[3] == '-' && s[4] == 'd' && s[5] == 'd'
    ensures HashRaw(s[..6]) == 2996693344
  {
    HashNext(s, 0, 0, 101);
    HashNext(s, 1, 101, 3241);
    HashNext(s, 2, 3241, 100589);
    HashNext(s, 3, 100589, 3118304);
    HashNext(s, 4, 3118304, 96667524);
    HashNext(s, 5, 96667524, 2996693344);
  }

  lemma HashPart2(s: string)
    requires |s| == 18 && HashRaw(s[..6]) == 2996693344
    requires s[6] == 'c' && s[7] == 'u' && s[8] == 'x' && s[9] == 'x' && s[10] == 't' && s[11] == 's'
    ensures HashRaw(s[..12]) == 2659576376574231121
  {
    HashNext(s, 6, 2996693344, 92897493763);
    HashNext(s, 7, 92897493763, 2879822306770);
    HashNext(s, 8, 2879822306770, 89274491509990);
    HashNext(s, 9, 89274491509990, 2767509236809810);
    HashNext(s, 10, 2767509236809810, 85792786341104226);
    HashNext(s, 11, 85792786341104226, 2659576376574231121);
  }

  lemma HashPart3(s: string)
    requires |s| == 18 && HashRaw(s[..12]) == 2659576376574231121
    requires s[12] == 'm' && s[13] == 'u' && s[14] == 'r'
    ensures HashRaw(s[..15]) == 2674037940395243481
  {
    HashNext(s, 12, 2659576376574231121, 8659891378962958396);
    HashNext(s, 13, 8659891378962958396, -8244528357791563847);
    HashNext(s, 14, -8244528357791563847, 2674037940395243481);
  }

  lemma HashPart4(s: string)
    requires |s| == 18 && HashRaw(s[..15]) == 2674037940395243481
    requires s[15] == 'p' && s[16] == 'p' && s[17] == 'y'
    ensures HashRaw(s[..18]) == MIN_INT64
  {
    HashNext(s, 15, 2674037940395243481, 9108199857414341559);
    HashNext(s, 16, 9108199857414341559, 5653034474201314201);
    HashNext(s, 17, 5653034474201314201, MIN_INT64);
  }

  /** The exception is a real container name: "env-ddcuxxtsmurppy", the one of the
      environment "ddcuxxtsmurppy", spelled out. */
  lemma OutOfRangeName(s: string)
    requires |s| == 18
    requires s[0] == 'e' && s[1] == 'n' && s[2] == 'v' && s[3] == '-' && s[4] == 'd' && s[5] == 'd'
    requires s[6] == 'c' && s[7] == 'u' && s[8] == 'x' && s[9] == 'x' && s[10] == 't' && s[11] == 's'
    requires s[12] == 'm' && s[13] == 'u' && s[14] == 'r' && s[15] == 'p' && s[16] == 'p' && s[17] == 'y'
    ensures Candidate(s) == -15808
  {
    assert s[..0] == "";
    HashPart1(s);
    HashPart2(s);
    HashPart3(s);
    HashPart4(s);
    assert s[..18] == s;
    CandidateInRangeIff(s);
  }

  // ---------------------------------------------------------------------
  // The probe
  // ---------------------------------------------------------------------

  predicate InRange(p: int) {
    FIRST <= p <= LAST
  }

  /** Steps from the candidate to p, wrapping from the last port to the first. */
  function Distance(candidate: int, p: int): int {
    (p - candidate) % RANGE
  }

  /** What the probe must return from a candidate in the range: the unused port
      that comes first in cyclic order, or nothing if there is none. */
  ghost predicate ProbeResult(candidate: int, used: set<int>, r: Option<int>) {
    match r
    case None => forall p :: InRange(p) ==> p in used
    case Some(port) =>
      && InRange(port) && port !in used
      && forall p :: InRange(p) && p !in used ==> Distance(candidate, port) <= Distance(candidate, p)
  }

  /** The same for any candidate: below the range it is the first unused port from
      the candidate upwards. */
  ghost predicate ProbeOutcome(candidate: int, used: set<int>, r: Option<int>) {
    if InRange(candidate) then ProbeResult(candidate, used, r)
    else
      r.Some? && candidate <= r.value <= LAST && r.value !in used
      && forall p :: candidate <= p < r.value ==> p in used
  }

  /** The probing loop of addProxyDevice. A candidate below the range climbs
      towards it; the loop ends for it only if some port on the way is unused. */
  method FirstFreePort(candidate: int, used: set<int>) returns (r: Option<int>)
    requires InRange(candidate) || (candidate < FIRST && exists p :: candidate <= p <= LAST && p !in used)
    ensures ProbeOutcome(candidate, used, r)
  {
    var hostPort := candidate;
    ghost var steps := 0;
    while hostPort in used
      invariant candidate <= hostPort <= LAST || FIRST <= hostPort < candidate
      invariant steps >= 0
      invariant hostPort == if candidate + steps <= LAST then candidate + steps else candidate + steps - RANGE
      invariant InRange(candidate) ==> steps < RANGE
      invariant InRange(candidate) ==> forall p :: InRange(p) && Distance(candidate, p) < steps ==> p in used
      invariant candidate < FIRST ==> forall p :: candidate <= p < hostPort ==> p in used
      invariant candidate < FIRST ==> candidate + steps <= LAST
      decreases (if InRange(candidate) then RANGE else LAST + 1 - candidate) - steps
    {
      ghost var tried := hostPort;
      DistanceOf(candidate, steps, tried);
      if candidate < FIRST {
        assert hostPort < LAST by {
          var p :| candidate <= p <= LAST && p !in used;
        }
      }
      hostPort := hostPort + 1;
      steps := steps + 1;
      if hostPort > LAST {
        hostPort := FIRST;
      }
      forall p | InRange(candidate) && InRange(p) && Distance(candidate, p) < steps
        ensures p in used
      {
        if Distance(candidate, p) == steps - 1 {
          SameDistance(candidate, p, tried);
        }
      }
      if hostPort == candidate {
        return None;
      }
    }
    if InRange(candidate) {
      DistanceOf(candidate, steps, hostPort);
    }
    r := Some(hostPort);
  }

  lemma DistanceOf(candidate: int, steps: nat, p: int)
    requires p == (if candidate + steps <= LAST then candidate + steps else candidate + steps - RANGE)
    ensures InRange(candidate) && steps < RANGE ==> Distance(candidate, p) == steps
  {
  }

  lemma SameDistance(candidate: int, p: int, q: int)
    requires InRange(candidate) && InRange(p) && InRange(q) && Distance(candidate, p) == Distance(candidate, q)
    ensures p == q
  {
  }

  /** The contract leaves no choice: cyclic order has one first unused port. */
  lemma ProbeResultUnique(candidate: int, used: set<int>, r: Option<int>, q: Option<int>)
    requires InRange(candidate) && ProbeResult(candidate, used, r) && ProbeResult(candidate, used, q)
    ensures r == q
  {
  }

  // ---------------------------------------------------------------------
  // Containers and their proxy devices
  // ---------------------------------------------------------------------

  /** A container: its env-id if it is managed, its host-addr setting, and the
      listen address of its ide-proxy device if it has one. */
  datatype Container = Container(envID: Option<string>, hostAddr: string, listen: Option<string>)

  function ListenAddr(port: int): string {
    "tcp:0.0.0.0:" + Print(port)
  }

  /** strings.LastIndex for one character, -1 if absent. */
  function LastIndex(s: string, c: char): (i: int)
    ensures -1 <= i < |s|
    ensures i >= 0 ==> s[i] == c
    ensures forall k :: i < k < |s| ==> s[k] != c
  {
    if s == "" then -1
    else if s[|s| - 1] == c then |s| - 1
    else LastIndex(s[..|s| - 1], c)
  }

  function AfterLastColon(listen: string): Option<string> {
    var i := LastIndex(listen, ':');
    if i >= 0 then Some(listen[i + 1..]) else None
  }

  function PortOf(listen: string): Option<int> {
    match AfterLastColon(listen)
    case None => None
    case Some(text) => Scan(text)
  }

  function ClaimedPort(c: Container): Option<int> {
    if c.envID.Some? && c.listen.Some? then PortOf(c.listen.value) else None
  }

  /** The ports among the first k answers. */
  function PortsAmong(claims: seq<Option<int>>, k: nat): set<int>
    requires k <= |claims|
  {
    set i | 0 <= i < k && claims[i].Some? :: claims[i].value
  }

  lemma PortsAmongNext(claims: seq<Option<int>>, k: nat)
    requires k < |claims|
    ensures PortsAmong(claims, k + 1)
            == PortsAmong(claims, k) + (if claims[k].Some? then {claims[k].value} else {})
  {
  }

  method UsedProxyPorts(instances: seq<Container>) returns (used: set<int>)
    ensures forall p :: p in used <==> exists i :: 0 <= i < |instances| && ClaimedPort(instances[i]) == Some(p)
  {
    ghost var claims := seq(|instances|, i requires 0 <= i < |instances| => ClaimedPort(instances[i]));
    used := {};
    for k := 0 to |instances|
      invariant used == PortsAmong(claims, k)
    {
      var port := ClaimedPort(instances[k]);
      PortsAmongNext(claims, k);
      if port.Some? {
        used := used + {port.value};
      }
    }
    forall p
      ensures p in used <==> exists i :: 0 <= i < |instances| && ClaimedPort(instances[i]) == Some(p)
    {
      if p in used {
        var i :| 0 <= i < |claims| && claims[i].Some? && claims[i].value == p;
        assert ClaimedPort(instances[i]) == Some(p);
      }
      if i :| 0 <= i < |instances| && ClaimedPort(instances[i]) == Some(p) {
        assert claims[i] == Some(p);
      }
    }
  }

  /** The text after the last colon, wherever that is. */
  lemma AfterLastColonIs(front: string, back: string)
    requires ':' !in back
    ensures AfterLastColon(front + ":" + back) == Some(back)
    ensures AfterLastColon(back) == None
  {
    var s := front + ":" + back;
    assert s[|front|] == ':' && s[|front| + 1..] == back;
    assert forall k :: |front| < k < |s| ==> s[k] == back[k - |front| - 1];
  }

  lemma ColonFree(n: int)
    ensures forall i :: 0 <= i < |Print(n)| ==> Print(n)[i] != ':'
  {
  }

  lemma ListenAddrParts(port: int)
    ensures AfterLastColon(ListenAddr(port)) == Some(Print(port))
    ensures ListenAddr(port)[..12] == "tcp:0.0.0.0:"
  {
    ColonFree(port);
    AfterLastColonIs("tcp:0.0.0.0", Print(port));
    assert ListenAddr(port) == "tcp:0.0.0.0" + ":" + Print(port);
  }

  /** usedProxyPorts reads back exactly the port that addProxyDevice printed. */
  lemma ListenAddrRoundTrip(port: int)
    requires MIN_INT64 <= port <= MAX_INT64
    ensures PortOf(ListenAddr(port)) == Some(port)
  {
    ListenAddrParts(port);
    ScanPrint(port, "");
    assert Print(port) + "" == Print(port);
  }

  // ---------------------------------------------------------------------
  // Runs of Create and Delete
  // ---------------------------------------------------------------------

  type Host = map<string, Container>

  ghost predicate Used(h: Host, p: int) {
    exists n :: n in h && ClaimedPort(h[n]) == Some(p)
  }

  /** The container as Create makes it, before its proxy device. */
  function NewContainer(envID: string): Container {
    Container(Some(envID), "localhost", None)
  }

  function WithProxy(c: Container, port: int): Container {
    c.(listen := Some(ListenAddr(port)))
  }

  /** The URL that Create returns. */
  function CreateURL(port: int): string {
    "http://localhost:" + Print(port)
  }

  /** The URL that instanceToEnv rebuilds. */
  function RebuiltURL(c: Container): string {
    if c.listen.None? then ""
    else
      match AfterLastColon(c.listen.value)
      case None => ""
      case Some(port) => "http://" + (if c.hostAddr == "" then "localhost" else c.hostAddr) + ":" + port
  }

  lemma LocalURL(port: string)
    ensures "http://" + "localhost" + ":" + port == "http://localhost:" + port
  {
    assert "http://" + "localhost" + ":" == "http://localhost:";
  }

  /** The URL names the configured host, or localhost, and the port of the device. */
  lemma RebuiltURLNames(c: Container, port: int)
    requires c.listen == Some(ListenAddr(port))
    ensures c.hostAddr != "" ==> RebuiltURL(c) == "http://" + c.hostAddr + ":" + Print(port)
    ensures c.hostAddr == "" ==> RebuiltURL(c) == "http://localhost:" + Print(port)
    ensures RebuiltURL(c.(listen := None)) == ""
  {
    ListenAddrParts(port);
    LocalURL(Print(port));
  }

  lemma RebuiltURLOfNew(envID: string, port: int)
    ensures RebuiltURL(WithProxy(NewContainer(envID), port)) == CreateURL(port)
  {
    RebuiltURLNames(WithProxy(NewContainer(envID), port), port);
  }

  datatype Event =
    | Create(name: string, envID: string, port: Option<int>)  // port of the device, if it was added
    | Delete(name: string)
    | Foreign(name: string, c: Option<Container>)             // somebody else's unmanaged container

  /** Create fails if the name is taken; it may fail again after the container
      exists, and then leaves it without a proxy. The port is what the probe
      returns from the name's candidate, given the ports of that moment. */
  ghost predicate Happens(h: Host, e: Event, h': Host) {
    match e
    case Create(name, envID, port) =>
      && name !in h
      && (port.Some? ==> exists used: set<int> ::
            (forall p :: p in used <==> Used(h, p)) && ProbeOutcome(Candidate(name), used, port))
      && h' == h[name := if port.Some? then WithProxy(NewContainer(envID), port.value) else NewContainer(envID)]
    case Delete(name) =>
      h' == h - {name}
    case Foreign(name, c) =>
      && (name in h ==> h[name].envID.None?)
      && (c.Some? ==> c.value.envID.None?)
      && h' == if c.Some? then h[name := c.value] else h - {name}
  }

  lemma AllocatedPort(h: Host, e: Event, h': Host)
    requires Happens(h, e, h') && e.Create? && e.port.Some?
    ensures MIN_INT64 <= e.port.value <= MAX_INT64 && !Used(h, e.port.value)
  {
  }

  ghost predicate ValidRun(hosts: seq<Host>, events: seq<Event>) {
    && |hosts| == |events| + 1
    && (forall n :: n in hosts[0] ==> hosts[0][n].envID.None?)
    && forall k :: 0 <= k < |events| ==> Happens(hosts[k], events[k], hosts[k + 1])
  }

  /** Managed proxies were printed by addProxyDevice and have distinct ports. */
  ghost predicate Distinct(h: Host) {
    && (forall n :: n in h && h[n].envID.Some? && h[n].listen.Some? ==> ClaimedPort(h[n]).Some?)
    && (forall n, m :: n in h && m in h && n != m && ClaimedPort(h[n]).Some?
                       ==> ClaimedPort(h[n]) != ClaimedPort(h[m]))
  }

  lemma EventKeepsDistinct(h: Host, e: Event, h': Host)
    requires Distinct(h) && Happens(h, e, h')
    ensures Distinct(h')
  {
    if e.Create? && e.port.Some? {
      AllocatedPort(h, e, h');
      ListenAddrRoundTrip(e.port.value);
      assert ClaimedPort(h'[e.name]) == Some(e.port.value);
    }
  }

  lemma StartDistinct(h: Host)
    requires forall n :: n in h ==> h[n].envID.None?
    ensures Distinct(h)
  {
  }

  lemma EventOf(hosts: seq<Host>, events: seq<Event>, k: nat)
    requires ValidRun(hosts, events) && k < |events|
    ensures Happens(hosts[k], events[k], hosts[k + 1])
  {
  }

  /** Main result: at every moment of every sequential run, all managed containers
      that have a proxy claim a port, and no two claim the same. */
  lemma {:induction false} PortsDistinct(hosts: seq<Host>, events: seq<Event>, k: nat)
    requires ValidRun(hosts, events) && k < |hosts|
    ensures Distinct(hosts[k])
  {
    if k > 0 {
      PortsDistinct(hosts, events, k - 1);
      EventOf(hosts, events, k - 1);
      EventKeepsDistinct(hosts[k - 1], events[k - 1], hosts[k]);
    } else {
      StartDistinct(hosts[0]);
    }
  }

  /** A managed container does not change while it exists. */
  lemma {:induction false} ContainerStable(hosts: seq<Host>, events: seq<Event>, i: nat, j: nat, name: string)
    requires ValidRun(hosts, events) && i <= j < |hosts|
    requires forall k :: i <= k <= j ==> name in hosts[k]
    requires hosts[i][name].envID.Some?
    ensures hosts[j][name] == hosts[i][name]
  {
    if i == j {
    } else {
      ContainerStable(hosts, events, i, j - 1, name);
      EventOf(hosts, events, j - 1);
    }
  }

  /** Main result: as long as the container exists, instanceToEnv rebuilds the URL
      that Create returned, whatever else is created or deleted meanwhile. */
  lemma URLStable(hosts: seq<Host>, events: seq<Event>, i: nat, j: nat)
    requires ValidRun(hosts, events) && i < |events| && i < j < |hosts|
    requires events[i].Create? && events[i].port.Some?
    requires forall k :: i < k <= j ==> events[i].name in hosts[k]
    ensures RebuiltURL(hosts[j][events[i].name]) == CreateURL(events[i].port.value)
  {
    var name, port := events[i].name, events[i].port.value;
    EventOf(hosts, events, i);
    ContainerStable(hosts, events, i + 1, j, name);
    assert hosts[j][name] == WithProxy(NewContainer(events[i].envID), port);
    RebuiltURLOfNew(events[i].envID, port);
  }
}
