/** The delete backoff of ci/runners/garm/locking/local_backoff_locker.go.
    Seconds are reals; the clock is a parameter. */
module DeleteBackoff {
  import opened Wrappers

  const MAX_BACKOFF: real := 1200.0

  /** The result of LoadOrStore for a missing key: no backoff, zero time. */
  datatype Entry = Entry(backoffSeconds: real, lastFailure: Option<real>)

  const NEW_ENTRY := Entry(0.0, None)

  function Min(a: real, b: real): real {
    if a <= b then a else b
  }

  /** RecordFailure on one entry; `start` is PoolConsilitationInterval. */
  function Fail(e: Entry, start: real, now: real): Entry {
    Entry(if e.backoffSeconds == 0.0 then start else Min(e.backoffSeconds * 1.5, MAX_BACKOFF), Some(now))
  }

  /** time.Duration(x): whole seconds, towards zero. */
  function Truncate(x: real): int {
    if x >= 0.0 then x.Floor else -((-x).Floor)
  }

  /** ShouldProcess on one entry: the answer and the deadline (None: zero time). */
  function Verdict(e: Entry, now: real): (bool, Option<real>) {
    if e.lastFailure.None? || e.backoffSeconds == 0.0 then (true, None)
    else
      var deadline := e.lastFailure.value + Truncate(e.backoffSeconds) as real;
      (now > deadline, Some(deadline))
  }

  class InstanceDeleteBackoff {
    const start: real
    var muxes: map<string, Entry>

    constructor (start: real)
      ensures this.start == start && muxes == map[]
    {
      this.start := start;
      muxes := map[];
    }

    method ShouldProcess(key: string, now: real) returns (ok: bool, deadline: Option<real>)
      modifies this
      ensures muxes == After(old(muxes), start, Call.ShouldProcess(key, now))
      ensures (ok, deadline) == Verdict(Lookup(old(muxes), key), now)
    {
      if key !in muxes {
        muxes := muxes[key := NEW_ENTRY];
        return true, None;
      }
      var ib := muxes[key];
      if ib.lastFailure.None? || ib.backoffSeconds == 0.0 {
        return true, None;
      }
      var limit := ib.lastFailure.value + Truncate(ib.backoffSeconds) as real;
      return now > limit, Some(limit);
    }

    method Delete(key: string)
      modifies this
      ensures muxes == After(old(muxes), start, Call.Delete(key))
    {
      muxes := muxes - {key};
    }

    method RecordFailure(key: string, now: real)
      modifies this
      ensures muxes == After(old(muxes), start, Call.RecordFailure(key, now))
    {
      var ib := if key in muxes then muxes[key] else NEW_ENTRY;
      ib := ib.(lastFailure := Some(now));
      if ib.backoffSeconds == 0.0 {
        ib := ib.(backoffSeconds := start);
      } else {
        var newBackoff := ib.backoffSeconds * 1.5;
        ib := ib.(backoffSeconds := Min(newBackoff, MAX_BACKOFF));
      }
      muxes := muxes[key := ib];
    }
  }

  function Lookup(m: map<string, Entry>, key: string): Entry {
    if key in m then m[key] else NEW_ENTRY
  }

  // ---------------------------------------------------------------------
  // Runs
  // ---------------------------------------------------------------------

  datatype Call = ShouldProcess(key: string, now: real) | Delete(key: string) | RecordFailure(key: string, now: real)

  /** The effect of one method call on the map. */
  function After(m: map<string, Entry>, start: real, c: Call): map<string, Entry> {
    match c
    case ShouldProcess(key, _) => if key in m then m else m[key := NEW_ENTRY]
    case Delete(key) => m - {key}
    case RecordFailure(key, now) => m[key := Fail(Lookup(m, key), start, now)]
  }

  /** The map after a run, latest call last. */
  function Run(start: real, calls: seq<Call>): map<string, Entry> {
    if calls == [] then map[]
    else After(Run(start, calls[..|calls| - 1]), start, calls[|calls| - 1])
  }

  /** Failures of the key since its last Delete. */
  function Failures(calls: seq<Call>, key: string): nat {
    if calls == [] then 0
    else
      var last, before := calls[|calls| - 1], Failures(calls[..|calls| - 1], key);
      if last.key != key || last.ShouldProcess? then before
      else if last.Delete? then 0
      else before + 1
  }

  /** The time of the latest failure of the key since its last Delete. */
  function LastFailure(calls: seq<Call>, key: string): Option<real> {
    if calls == [] then None
    else
      var last, before := calls[|calls| - 1], LastFailure(calls[..|calls| - 1], key);
      if last.key != key || last.ShouldProcess? then before
      else if last.Delete? then None
      else Some(last.now)
  }

  function Pow15(n: nat): (p: real)
    ensures p >= 1.0
  {
    if n == 0 then 1.0 else Pow15(n - 1) * 1.5
  }

  /** start * 1.5^(n-1), capped; 0 before the first failure. */
  function ClosedForm(start: real, n: nat): real {
    if n == 0 then 0.0 else Min(start * Pow15(n - 1), 1200.0)
  }

  /** n failures in a row. */
  function Iterate(start: real, n: nat): real {
    if n == 0 then 0.0
    else Fail(Entry(Iterate(start, n - 1), None), start, 0.0).backoffSeconds
  }

  lemma CapStep(x: real)
    requires x > 0.0
    ensures Min(Min(x, MAX_BACKOFF) * 1.5, MAX_BACKOFF) == Min(x * 1.5, MAX_BACKOFF)
    ensures 0.0 < Min(x, MAX_BACKOFF) <= Min(x * 1.5, MAX_BACKOFF)
  {
  }

  lemma NextPower(start: real, n: nat)
    requires start > 0.0
    ensures start * Pow15(n) > 0.0 && start * Pow15(n + 1) == start * Pow15(n) * 1.5
  {
    ScaleUp(start, 1.0, Pow15(n));
    Reassociate(start, Pow15(n));
  }

  lemma Reassociate(a: real, b: real)
    ensures a * (b * 1.5) == (a * b) * 1.5
  {
  }

  lemma GrowsBy15(start: real, n: nat)
    requires 0.0 < start <= MAX_BACKOFF && n >= 1
    ensures Min(ClosedForm(start, n) * 1.5, MAX_BACKOFF) == ClosedForm(start, n + 1)
    ensures 0.0 < ClosedForm(start, n) <= ClosedForm(start, n + 1) <= MAX_BACKOFF
  {
    NextPower(start, n - 1);
    CapStep(start * Pow15(n - 1));
  }

  lemma {:induction false} IterateIsClosedForm(start: real, n: nat)
    requires 0.0 <= start <= MAX_BACKOFF
    ensures Iterate(start, n) == ClosedForm(start, n)
  {
    if start == 0.0 {
      if n > 0 {
        IterateIsClosedForm(start, n - 1);
        assert start * Pow15(n - 1) == 0.0;
        if n > 1 {
          assert start * Pow15(n - 2) == 0.0;
        }
      }
    } else if n == 1 {
      assert Pow15(0) == 1.0;
    } else if n > 1 {
      IterateIsClosedForm(start, n - 1);
      GrowsBy15(start, n - 1);
    }
  }

  /** The closed form is right for every count exactly when the start value does
      not exceed the cap: the first backoff is never capped. */
  lemma ClosedFormIff(start: real)
    requires start >= 0.0
    ensures (forall n :: Iterate(start, n) == ClosedForm(start, n)) <==> start <= MAX_BACKOFF
  {
    if start <= MAX_BACKOFF {
      forall n
        ensures Iterate(start, n) == ClosedForm(start, n)
      {
        IterateIsClosedForm(start, n);
      }
    } else {
      assert Iterate(start, 0) == 0.0;
      assert Iterate(start, 1) == start;
      assert Pow15(0) == 1.0 && ClosedForm(start, 1) == MAX_BACKOFF;
    }
  }

  /** Main result: after any run of calls on any keys, a key's entry depends only
      on its own failures since its own last Delete, in closed form. */
  lemma {:induction false} EntryAfterRun(start: real, calls: seq<Call>, key: string)
    requires 0.0 < start <= MAX_BACKOFF
    ensures Lookup(Run(start, calls), key)
            == Entry(ClosedForm(start, Failures(calls, key)), LastFailure(calls, key))
    ensures LastFailure(calls, key).Some? <==> Failures(calls, key) > 0
  {
    if calls == [] {
    } else {
      var before := calls[..|calls| - 1];
      EntryAfterRun(start, before, key);
      var n := Failures(before, key);
      if n == 0 {
        assert Pow15(0) == 1.0;
      } else {
        GrowsBy15(start, n);
      }
    }
  }

  lemma {:induction false} BackoffMonotone(start: real, m: nat, n: nat)
    requires 0.0 < start <= MAX_BACKOFF && m <= n
    ensures ClosedForm(start, m) <= ClosedForm(start, n) <= MAX_BACKOFF
  {
    if m == n {
    } else {
      BackoffMonotone(start, m, n - 1);
      if n > 1 {
        GrowsBy15(start, n - 1);
      } else {
        assert Pow15(0) == 1.0;
      }
    }
  }

  lemma {:induction false} Bernoulli(n: nat)
    ensures Pow15(n) >= 1.0 + 0.5 * n as real
  {
    if n == 0 {
    } else {
      Bernoulli(n - 1);
    }
  }

  /** The cap is reached: from failure number 2 * ceil(1200 / start) + 1 on. */
  lemma CapReached(start: real, n: nat)
    requires 0.0 < start <= MAX_BACKOFF
    requires n as real >= 2.0 * (MAX_BACKOFF / start) + 1.0
    ensures ClosedForm(start, n) == MAX_BACKOFF
  {
    Bernoulli(n - 1);
    var q := MAX_BACKOFF / start;
    assert 0.5 * (n - 1) as real >= q;
    assert Pow15(n - 1) >= q;
    assert start * Pow15(n - 1) >= start * q by {
      ScaleUp(start, q, Pow15(n - 1));
    }
    assert start * q == MAX_BACKOFF;
  }

  lemma ScaleUp(c: real, a: real, b: real)
    requires c > 0.0 && a <= b
    ensures c * a <= c * b
  {
    assert c * (b - a) >= 0.0;
  }

  /** With the source's five seconds the fifteenth failure is the first at the cap. */
  lemma FiveSecondSchedule()
    ensures ClosedForm(5.0, 14) < MAX_BACKOFF && ClosedForm(5.0, 15) == MAX_BACKOFF
  {
    assert Pow15(3) == 3.375;
    assert Pow15(6) == 11.390625;
    assert Pow15(9) == 38.443359375;
    assert Pow15(12) == 129.746337890625;
    assert Pow15(14) == 291.92926025390625;
  }

  /** Main result on ShouldProcess, over every run: it says no exactly when the
      key has failed since its last Delete and the whole seconds of its capped
      backoff have not passed; more than 1200 seconds after the last failure the
      answer is always yes. */
  lemma ShouldProcessAfterRun(start: real, calls: seq<Call>, key: string, now: real)
    requires 0.0 < start <= MAX_BACKOFF
    ensures var n := Failures(calls, key);
            var verdict := Verdict(Lookup(Run(start, calls), key), now);
            && (!verdict.0 <==>
                && n > 0 && LastFailure(calls, key).Some?
                && now <= LastFailure(calls, key).value + ClosedForm(start, n).Floor as real)
            && (n > 0 && LastFailure(calls, key).Some? && now > LastFailure(calls, key).value + 1200.0
                ==> verdict.0)
            && (n == 0 ==> verdict.1 == None)
            && (n > 0 && LastFailure(calls, key).Some? ==>
                  verdict.1 == Some(LastFailure(calls, key).value + ClosedForm(start, n).Floor as real))
  {
    EntryAfterRun(start, calls, key);
    BackoffMonotone(start, 0, Failures(calls, key));
    if Failures(calls, key) > 0 {
      BackoffMonotone(start, 1, Failures(calls, key));
      assert Pow15(0) == 1.0;
    }
  }

  /** The latest call on the key is not a Delete. */
  predicate Known(calls: seq<Call>, key: string) {
    calls != []
    && var last := calls[|calls| - 1];
       if last.key == key then !last.Delete? else Known(calls[..|calls| - 1], key)
  }

  /** Both ShouldProcess and RecordFailure leave an entry, until the next Delete. */
  lemma {:induction false} KeysAfterRun(start: real, calls: seq<Call>, key: string)
    ensures key in Run(start, calls) <==> Known(calls, key)
  {
    if calls == [] {
    } else {
      KeysAfterRun(start, calls[..|calls| - 1], key);
    }
  }

  /** Calls on other keys change nothing for this one. */
  lemma {:induction false} KeysIndependent(start: real, calls: seq<Call>, others: seq<Call>, key: string)
    requires 0.0 < start <= MAX_BACKOFF
    requires forall i :: 0 <= i < |others| ==> others[i].key != key
    ensures Lookup(Run(start, calls + others), key) == Lookup(Run(start, calls), key)
  {
    if others == [] {
      assert calls + others == calls;
    } else {
      var front := others[..|others| - 1];
      KeysIndependent(start, calls, front, key);
      assert (calls + others)[..|calls + others| - 1] == calls + front;
    }
  }
}
