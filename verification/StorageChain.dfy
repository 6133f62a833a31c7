/** The backend chain of abstraction/storage/interface.go: writes fan out to all
    available backends, reads go to the first available one. */
module StorageChain {
  import opened Wrappers

  type Data = string
  type Store = map<string, Data>

  /** What happens at one backend during one call. A failed write may leave the
      key in any state: `residue` is what the backend holds for it afterwards. */
  datatype Outcome = Unavailable | Succeeds | Fails(residue: Option<Data>)

  datatype ChainError = SourceFailed | NoBackendAvailable | BackendFailed(index: nat)

  function Update(m: Store, key: string, value: Option<Data>): Store {
    match value
    case None => m - {key}
    case Some(d) => m[key := d]
  }

  /** One backend after a Put (Some) or a Delete (None). */
  function WriteOne(m: Store, key: string, value: Option<Data>, o: Outcome): Store {
    match o
    case Unavailable => m
    case Succeeds => Update(m, key, value)
    case Fails(residue) => Update(m, key, residue)
  }

  /** The error of a fan-out: nil exactly when some backend was available and every
      available one succeeded; otherwise the first failure, if any. */
  ghost predicate FanOutResult(os: seq<Outcome>, err: Option<ChainError>) {
    match err
    case None => (exists i :: 0 <= i < |os| && os[i].Succeeds?) && (forall i :: 0 <= i < |os| ==> !os[i].Fails?)
    case Some(SourceFailed) => false
    case Some(NoBackendAvailable) => forall i :: 0 <= i < |os| ==> os[i].Unavailable?
    case Some(BackendFailed(i)) => i < |os| && os[i].Fails? && forall j :: 0 <= j < i ==> !os[j].Fails?
  }

  lemma FanOutResultUnique(os: seq<Outcome>, e: Option<ChainError>, f: Option<ChainError>)
    requires FanOutResult(os, e) && FanOutResult(os, f)
    ensures e == f
  {
  }

  class Backend {
    var contents: Store

    constructor ()
      ensures contents == map[]
    {
      contents := map[];
    }

    method Write(key: string, value: Option<Data>, o: Outcome) returns (ok: bool)
      modifies this
      ensures contents == WriteOne(old(contents), key, value, o)
      ensures ok == o.Succeeds?
    {
      contents := WriteOne(contents, key, value, o);
      ok := o.Succeeds?;
    }
  }

  datatype ReadResult = Found(data: Data) | NotFound | ReadFailed(index: nat) | NoneAvailable

  datatype ListResult = Listing(keys: set<string>) | ListFailed(index: nat) | NothingToList

  function KeysWith(m: Store, prefix: string): set<string> {
    set k | k in m && prefix <= k
  }

  function Lookup(m: Store, key: string): ReadResult {
    if key in m then Found(m[key]) else NotFound
  }

  class Chain {
    const backends: seq<Backend>

    /** The chain lists distinct backends. */
    ghost predicate Valid() {
      forall i, j :: 0 <= i < j < |backends| ==> backends[i] != backends[j]
    }

    ghost function Stores(): (s: seq<Store>)
      reads backends
      ensures |s| == |backends|
    {
      seq(|backends|, i requires 0 <= i < |backends| reads backends => backends[i].contents)
    }

    constructor (backends: seq<Backend>)
      requires forall i, j :: 0 <= i < j < |backends| ==> backends[i] != backends[j]
      ensures Valid() && this.backends == backends
    {
      this.backends := backends;
    }

    /** `source` is what reading the stream to its end gives; None is its error. */
    method Put(key: string, source: Option<Data>, os: seq<Outcome>) returns (err: Option<ChainError>)
      requires Valid() && |os| == |backends|
      modifies backends
      ensures source.None? ==> err == Some(SourceFailed) && Stores() == old(Stores())
      ensures source.Some? ==> FanOutResult(os, err) && Stores() == WriteAll(old(Stores()), key, source, os)
    {
      if source.None? {
        return Some(SourceFailed);
      }
      var firstErr: Option<ChainError> := None;
      var wrote := 0;
      for i := 0 to |backends|
        invariant forall j :: 0 <= j < i ==>
                    backends[j].contents == WriteOne(old(backends[j].contents), key, source, os[j])
        invariant forall j :: i <= j < |backends| ==> backends[j].contents == old(backends[j].contents)
        invariant firstErr.None? <==> forall j :: 0 <= j < i ==> !os[j].Fails?
        invariant firstErr.Some? ==>
                    firstErr.value.BackendFailed? && firstErr.value.index < i && FanOutResult(os, firstErr)
        invariant wrote >= 0 && (wrote > 0 <==> exists j :: 0 <= j < i && os[j].Succeeds?)
      {
        if os[i].Unavailable? {
          continue;
        }
        var ok := backends[i].Write(key, source, os[i]);
        if !ok {
          if firstErr.None? {
            firstErr := Some(BackendFailed(i));
          }
          continue;
        }
        wrote := wrote + 1;
      }
      if wrote == 0 {
        if firstErr.Some? {
          return firstErr;
        }
        return Some(NoBackendAvailable);
      }
      return firstErr;
    }

    method Delete(key: string, os: seq<Outcome>) returns (err: Option<ChainError>)
      requires Valid() && |os| == |backends|
      modifies backends
      ensures Stores() == WriteAll(old(Stores()), key, None, os)
      ensures FanOutResult(os, err)
    {
      var firstErr: Option<ChainError> := None;
      var deleted := 0;
      for i := 0 to |backends|
        invariant forall j :: 0 <= j < i ==>
                    backends[j].contents == WriteOne(old(backends[j].contents), key, None, os[j])
        invariant forall j :: i <= j < |backends| ==> backends[j].contents == old(backends[j].contents)
        invariant firstErr.None? <==> forall j :: 0 <= j < i ==> !os[j].Fails?
        invariant firstErr.Some? ==>
                    firstErr.value.BackendFailed? && firstErr.value.index < i && FanOutResult(os, firstErr)
        invariant deleted >= 0 && (deleted > 0 <==> exists j :: 0 <= j < i && os[j].Succeeds?)
      {
        if os[i].Unavailable? {
          continue;
        }
        var ok := backends[i].Write(key, None, os[i]);
        if !ok {
          if firstErr.None? {
            firstErr := Some(BackendFailed(i));
          }
          continue;
        }
        deleted := deleted + 1;
      }
      if deleted == 0 && firstErr.None? {
        return Some(NoBackendAvailable);
      }
      return firstErr;
    }

    /** active: the index of the first available backend. */
    method Active(available: seq<bool>) returns (r: Option<nat>)
      requires |available| == |backends|
      ensures r == FirstAvailable(available)
    {
      for i := 0 to |backends|
        invariant forall j :: 0 <= j < i ==> !available[j]
      {
        if available[i] {
          FirstAvailableIs(available, i);
          return Some(i);
        }
      }
      return None;
    }

    /** Get, with `broken` saying that the serving backend fails the read. */
    method Get(key: string, available: seq<bool>, broken: bool) returns (r: ReadResult)
      requires |available| == |backends|
      ensures r == match FirstAvailable(available)
                   case None => NoneAvailable
                   case Some(b) => if broken then ReadFailed(b) else Lookup(Stores()[b], key)
    {
      var b := Active(available);
      match b {
        case None => r := NoneAvailable;
        case Some(i) =>
          r := if broken then ReadFailed(i) else Lookup(backends[i].contents, key);
      }
    }

    /** List, which goes to the first available backend too. */
    method List(prefix: string, available: seq<bool>, broken: bool) returns (r: ListResult)
      requires |available| == |backends|
      ensures r == match FirstAvailable(available)
                   case None => NothingToList
                   case Some(b) => if broken then ListFailed(b) else Listing(KeysWith(Stores()[b], prefix))
      ensures FirstAvailable(available).Some? && !broken ==>
                forall k :: k in r.keys <==> k in Stores()[FirstAvailable(available).value] && prefix <= k
    {
      var b := Active(available);
      match b {
        case None => r := NothingToList;
        case Some(i) =>
          r := if broken then ListFailed(i) else Listing(KeysWith(backends[i].contents, prefix));
      }
    }
  }

  function WriteAll(stores: seq<Store>, key: string, value: Option<Data>, os: seq<Outcome>): (r: seq<Store>)
    requires |os| == |stores|
    ensures |r| == |stores|
  {
    seq(|stores|, i requires 0 <= i < |stores| => WriteOne(stores[i], key, value, os[i]))
  }

  function FirstAvailable(available: seq<bool>): (r: Option<nat>)
    ensures r.None? ==> forall i :: 0 <= i < |available| ==> !available[i]
    ensures r.Some? ==> r.value < |available| && available[r.value] && forall i :: 0 <= i < r.value ==> !available[i]
  {
    if available == [] then None
    else if available[0] then Some(0)
    else
      match FirstAvailable(available[1..])
      case None =>
        assert forall i :: 0 < i < |available| ==> available[i] == available[1..][i - 1];
        None
      case Some(i) =>
        assert forall j :: 0 < j < i + 1 ==> available[j] == available[1..][j - 1];
        Some(i + 1)
  }

  lemma FirstAvailableIs(available: seq<bool>, i: nat)
    requires i < |available| && available[i] && forall j :: 0 <= j < i ==> !available[j]
    ensures FirstAvailable(available) == Some(i)
  {
  }

  // ---------------------------------------------------------------------
  // Runs with availability and failures chosen per call
  // ---------------------------------------------------------------------

  datatype Write = Write(key: string, value: Option<Data>, os: seq<Outcome>)

  predicate WellFormed(n: nat, writes: seq<Write>) {
    forall i :: 0 <= i < |writes| ==> |writes[i].os| == n
  }

  /** The stores after a run from empty backends, latest write last. */
  function Run(n: nat, writes: seq<Write>): (stores: seq<Store>)
    requires WellFormed(n, writes)
    ensures |stores| == n
  {
    if writes == [] then seq(n, _ => map[])
    else
      var w := writes[|writes| - 1];
      WriteAll(Run(n, writes[..|writes| - 1]), w.key, w.value, w.os)
  }

  /** The call returned nil. */
  ghost predicate Succeeded(w: Write) {
    FanOutResult(w.os, None)
  }

  /** The effect of the latest write of the key that reached backend b. */
  function Held(n: nat, writes: seq<Write>, b: nat, key: string): Option<Data>
    requires WellFormed(n, writes) && b < n
  {
    if writes == [] then None
    else
      var w := writes[|writes| - 1];
      if w.key != key || w.os[b].Unavailable? then Held(n, writes[..|writes| - 1], b, key)
      else if w.os[b].Succeeds? then w.value
      else w.os[b].residue
  }

  function AsRead(v: Option<Data>): ReadResult {
    match v
    case None => NotFound
    case Some(d) => Found(d)
  }

  /** Main result: what backend b serves for a key is exactly the effect of the
      latest write of that key that reached b. */
  lemma {:induction false} ServedValue(n: nat, writes: seq<Write>, b: nat, key: string)
    requires WellFormed(n, writes) && b < n
    ensures Lookup(Run(n, writes)[b], key) == AsRead(Held(n, writes, b, key))
  {
    if writes == [] {
    } else {
      ServedValue(n, writes[..|writes| - 1], b, key);
    }
  }

  /** No write of the key after writes[k] reaches backend b. */
  ghost predicate NotReachedAfter(writes: seq<Write>, k: nat, b: nat)
    requires k < |writes| && forall i :: 0 <= i < |writes| ==> b < |writes[i].os|
  {
    forall i :: k < i < |writes| && writes[i].key == writes[k].key ==> writes[i].os[b].Unavailable?
  }

  lemma {:induction false} HeldFrom(n: nat, writes: seq<Write>, k: nat, b: nat)
    requires WellFormed(n, writes) && b < n && k < |writes|
    requires !writes[k].os[b].Unavailable? && NotReachedAfter(writes, k, b)
    ensures Held(n, writes, b, writes[k].key)
            == if writes[k].os[b].Succeeds? then writes[k].value else writes[k].os[b].residue
  {
    if k == |writes| - 1 {
    } else {
      var front := writes[..|writes| - 1];
      assert forall i :: k < i < |front| ==> front[i] == writes[i];
      HeldFrom(n, front, k, b);
    }
  }

  /** A Get served by a backend that took part in a successful write of the key
      returns that write until a later write of the key reaches the backend. */
  lemma ReadsLastSuccessfulWrite(n: nat, writes: seq<Write>, k: nat, b: nat)
    requires WellFormed(n, writes) && b < n && k < |writes|
    requires Succeeded(writes[k]) && !writes[k].os[b].Unavailable? && NotReachedAfter(writes, k, b)
    ensures Lookup(Run(n, writes)[b], writes[k].key) == AsRead(writes[k].value)
  {
    ServedValue(n, writes, b, writes[k].key);
    HeldFrom(n, writes, k, b);
  }

  /** The same calls up to writes[k], and afterwards calls on the same keys that
      meet the same availability; values, outcomes and residues are free. */
  ghost predicate SameShape(n: nat, writes: seq<Write>, others: seq<Write>, k: nat)
    requires WellFormed(n, writes) && k < |writes|
  {
    && WellFormed(n, others) && |others| == |writes| && others[..k + 1] == writes[..k + 1]
    && (forall i :: k < i < |writes| ==> others[i].key == writes[i].key)
    && (forall i, c :: k < i < |writes| && 0 <= c < n ==>
          (others[i].os[c].Unavailable? <==> writes[i].os[c].Unavailable?))
  }

  /** writes[k] succeeds and no later write of its key does. */
  ghost predicate LastSuccess(writes: seq<Write>, k: nat)
    requires k < |writes|
  {
    Succeeded(writes[k]) && forall i :: k < i < |writes| && writes[i].key == writes[k].key ==> !Succeeded(writes[i])
  }

  predicate Serves(n: nat, writes: seq<Write>, k: nat, b: nat)
    requires WellFormed(n, writes) && b < n && k < |writes|
  {
    Lookup(Run(n, writes)[b], writes[k].key) == AsRead(writes[k].value)
  }

  lemma SameShapeServes(n: nat, writes: seq<Write>, others: seq<Write>, k: nat, b: nat)
    requires WellFormed(n, writes) && b < n && k < |writes| && SameShape(n, writes, others, k)
    requires Succeeded(writes[k]) && !writes[k].os[b].Unavailable? && NotReachedAfter(writes, k, b)
    ensures others[k] == writes[k] && Serves(n, others, k, b)
  {
    assert others[k] == others[..k + 1][k] == writes[..k + 1][k];
    ReadsLastSuccessfulWrite(n, others, k, b);
  }

  /** The last write of the key that reaches b after writes[k]. */
  lemma LastReaching(writes: seq<Write>, k: nat, b: nat) returns (i: nat)
    requires k < |writes| && forall j :: 0 <= j < |writes| ==> b < |writes[j].os|
    requires !NotReachedAfter(writes, k, b)
    ensures k < i < |writes| && writes[i].key == writes[k].key && !writes[i].os[b].Unavailable?
    ensures NotReachedAfter(writes, i, b)
  {
    i := |writes| - 1;
    while writes[i].key != writes[k].key || writes[i].os[b].Unavailable?
      invariant k < i < |writes|
      invariant forall j :: i < j < |writes| && writes[j].key == writes[k].key ==> writes[j].os[b].Unavailable?
      invariant exists j :: k < j <= i && writes[j].key == writes[k].key && !writes[j].os[b].Unavailable?
      decreases i
    {
      i := i - 1;
    }
  }

  /** Let that write fail on b and leave something else there. */
  lemma OtherResidue(n: nat, writes: seq<Write>, k: nat, b: nat) returns (others: seq<Write>)
    requires WellFormed(n, writes) && b < n && k < |writes| && Succeeded(writes[k])
    requires !NotReachedAfter(writes, k, b)
    ensures SameShape(n, writes, others, k) && others[k] == writes[k] && !Serves(n, others, k, b)
    ensures LastSuccess(writes, k) ==> LastSuccess(others, k)
  {
    var i := LastReaching(writes, k, b);
    var residue := if writes[k].value.None? then Some("x") else None;
    var w := writes[i].(os := writes[i].os[b := Fails(residue)]);
    others := writes[i := w];
    assert others[..k + 1] == writes[..k + 1];
    assert w.os[b].Fails?;
    ServedValue(n, others, b, w.key);
    HeldFrom(n, others, i, b);
  }

  /** Main result: after a successful write in which b took part, b is sure to
      serve that write, given only the keys and the availability of the later
      calls, exactly when no later write of the key reaches b. */
  lemma ReadBackIff(n: nat, writes: seq<Write>, k: nat, b: nat)
    requires WellFormed(n, writes) && b < n && k < |writes|
    requires Succeeded(writes[k]) && !writes[k].os[b].Unavailable?
    ensures (forall others :: SameShape(n, writes, others, k) ==> Serves(n, others, k, b))
            <==> NotReachedAfter(writes, k, b)
  {
    if NotReachedAfter(writes, k, b) {
      forall others | SameShape(n, writes, others, k)
        ensures Serves(n, others, k, b)
      {
        SameShapeServes(n, writes, others, k, b);
      }
    } else {
      var others := OtherResidue(n, writes, k, b);
    }
  }

  /** Main result on the last successful write: even when all later writes of the
      key return errors, the same condition is needed, and it is enough. */
  lemma LastSuccessReadBackIff(n: nat, writes: seq<Write>, k: nat, b: nat)
    requires WellFormed(n, writes) && b < n && k < |writes|
    requires LastSuccess(writes, k) && !writes[k].os[b].Unavailable?
    ensures (forall others :: SameShape(n, writes, others, k) && LastSuccess(others, k) ==> Serves(n, others, k, b))
            <==> NotReachedAfter(writes, k, b)
  {
    if NotReachedAfter(writes, k, b) {
      forall others | SameShape(n, writes, others, k)
        ensures Serves(n, others, k, b)
      {
        SameShapeServes(n, writes, others, k, b);
      }
    } else {
      var others := OtherResidue(n, writes, k, b);
    }
  }

  /** One case: Put v1 succeeds on two backends, Put v2 fails on the second and
      returns its error, and Get then serves v2 from the first. */
  lemma FailedWriteIsServed()
    ensures var good := Write("k", Some("v1"), [Succeeds, Succeeds]);
            var bad := Write("k", Some("v2"), [Succeeds, Fails(Some("v1"))]);
            Succeeded(good) && !Succeeded(bad) && Lookup(Run(2, [good, bad])[0], "k") == Found("v2")
  {
    var good := Write("k", Some("v1"), [Succeeds, Succeeds]);
    var bad := Write("k", Some("v2"), [Succeeds, Fails(Some("v1"))]);
    assert good.os[0].Succeeds? && bad.os[1].Fails?;
    ServedValue(2, [good, bad], 0, "k");
  }

  // ---------------------------------------------------------------------
  // Constant availability and no failures: one store
  // ---------------------------------------------------------------------

  datatype Op = PutOp(key: string, data: Data) | DeleteOp(key: string) | GetOp(key: string) | ListOp(prefix: string)

  datatype Output = Done(err: Option<ChainError>) | Read(r: ReadResult) | Listed(l: ListResult)

  function Outcomes(available: seq<bool>): seq<Outcome> {
    seq(|available|, i requires 0 <= i < |available| => if available[i] then Succeeds else Unavailable)
  }

  /** A single store, always reachable. */
  function SingleStep(m: Store, op: Op): (Store, Output) {
    match op
    case PutOp(key, data) => (Update(m, key, Some(data)), Done(None))
    case DeleteOp(key) => (Update(m, key, None), Done(None))
    case GetOp(key) => (m, Read(Lookup(m, key)))
    case ListOp(prefix) => (m, Listed(Listing(KeysWith(m, prefix))))
  }

  function ChainStep(stores: seq<Store>, available: seq<bool>, op: Op): (r: (seq<Store>, Output))
    requires |available| == |stores|
    ensures |r.0| == |stores|
  {
    var active := FirstAvailable(available);
    var err := if active.Some? then None else Some(NoBackendAvailable);
    match op
    case PutOp(key, data) => (WriteAll(stores, key, Some(data), Outcomes(available)), Done(err))
    case DeleteOp(key) => (WriteAll(stores, key, None, Outcomes(available)), Done(err))
    case GetOp(key) => (stores, Read(if active.Some? then Lookup(stores[active.value], key) else NoneAvailable))
    case ListOp(prefix) =>
      (stores, Listed(if active.Some? then Listing(KeysWith(stores[active.value], prefix)) else NothingToList))
  }

  /** The error in ChainStep is the one the fan-out returns. */
  lemma ChainStepError(available: seq<bool>)
    ensures FanOutResult(Outcomes(available),
                         if FirstAvailable(available).Some? then None else Some(NoBackendAvailable))
  {
    var active := FirstAvailable(available);
    if active.Some? {
      assert Outcomes(available)[active.value].Succeeds?;
    }
  }

  function SingleRun(m: Store, ops: seq<Op>): (outs: seq<Output>)
    decreases |ops|
  {
    if ops == [] then []
    else
      var (next, out) := SingleStep(m, ops[0]);
      [out] + SingleRun(next, ops[1..])
  }

  function ChainRun(stores: seq<Store>, available: seq<bool>, ops: seq<Op>): (outs: seq<Output>)
    requires |available| == |stores|
    decreases |ops|
  {
    if ops == [] then []
    else
      var (next, out) := ChainStep(stores, available, ops[0]);
      [out] + ChainRun(next, available, ops[1..])
  }

  /** The available backends hold m. */
  predicate Agree(stores: seq<Store>, available: seq<bool>, m: Store) {
    |available| == |stores| && forall i :: 0 <= i < |stores| && available[i] ==> stores[i] == m
  }

  lemma {:induction false} ChainIsOneStore(stores: seq<Store>, available: seq<bool>, m: Store, ops: seq<Op>)
    requires Agree(stores, available, m) && FirstAvailable(available).Some?
    ensures ChainRun(stores, available, ops) == SingleRun(m, ops)
    decreases |ops|
  {
    if ops == [] {
    } else {
      var (next, _) := ChainStep(stores, available, ops[0]);
      ChainIsOneStore(next, available, SingleStep(m, ops[0]).0, ops[1..]);
    }
  }

  /** Main result: with constant availability and no failures, backends that agree
      behave like one store in every run exactly when one of them is available. */
  lemma ChainIsOneStoreIff(stores: seq<Store>, available: seq<bool>, m: Store)
    requires Agree(stores, available, m)
    ensures (forall ops :: ChainRun(stores, available, ops) == SingleRun(m, ops))
            <==> exists i :: 0 <= i < |available| && available[i]
  {
    if i :| 0 <= i < |available| && available[i] {
      forall ops
        ensures ChainRun(stores, available, ops) == SingleRun(m, ops)
      {
        ChainIsOneStore(stores, available, m, ops);
      }
    } else {
      var ops := [GetOp("k")];
      assert ChainRun(stores, available, ops)[0] == Read(NoneAvailable);
      assert SingleRun(m, ops)[0] == Read(Lookup(m, "k"));
    }
  }
}
