/** What one Unlock by a client that does not hold the key does to exclusion
    (ci/runners/garm/locking/local_locker.go). */
module KeyLockerStrangers {
  import opened KeyLocker
  import opened KeyLockerExclusion

  /** Inside Unlock, before the mutex is released, with the lock object loaded. */
  predicate InUnlock(pc: Pc) {
    pc.UnlockLoaded? || pc.UnlockCleared? || pc.UnlockWon?
  }

  function UnlockStep(pc: Pc): Action
    requires InUnlock(pc)
  {
    if pc.UnlockLoaded? then ClearIdent else if pc.UnlockCleared? then CompareAndSwap else ReleaseMutex
  }

  /** How far t is from the end of its Unlock. */
  function UnlockSteps(pc: Pc): nat {
    if pc.UnlockLoaded? then 3 else if pc.UnlockCleared? then 2 else if pc.UnlockWon? then 1 else 0
  }

  // ---------------------------------------------------------------------
  // The stranger t clears, swaps and releases while h holds the key
  // ---------------------------------------------------------------------

  /** The lock is free although h holds it: the next client takes it. */
  lemma BreakFromFreed(s: State, h: Hold)
    requires WellFormed(s) && h in s.holds && Current(s, h.lk) && !LockOf(s, h.lk).held
    ensures CanBreak(s)
  {
    var u := BeyondAll(s.pcs.Keys + {h.t});
    var m := Move(u, CallAcquire(Try, h.lk.key, ""));
    StepWellFormed(s, m);
    BreakFromSecond(Next(s, m), u, h);
    BreakLater(s, m);
  }

  /** The stranger goes through its Unlock. */
  lemma {:induction false} BreakFromStranger(s: State, t: Tid, h: Hold)
    requires WellFormed(s) && h in s.holds && Current(s, h.lk)
    requires InUnlock(PcOf(s, t)) && PcOf(s, t).lk == h.lk
    requires LockOf(s, h.lk).held && (PcOf(s, t).UnlockWon? || LockOf(s, h.lk).isLocked)
    ensures CanBreak(s)
    decreases UnlockSteps(PcOf(s, t))
  {
    var m := Move(t, UnlockStep(PcOf(s, t)));
    StepWellFormed(s, m);
    assert Mentions(PcOf(s, t), h.lk);
    if PcOf(s, t).UnlockWon? {
      BreakFromFreed(Next(s, m), h);
    } else {
      BreakFromStranger(Next(s, m), t, h);
    }
    BreakLater(s, m);
  }

  // ---------------------------------------------------------------------
  // Getting there: somebody holds the key before the stranger goes on
  // ---------------------------------------------------------------------

  /** t has loaded the current object for its Unlock and not done anything yet. */
  predicate StrangerWaits(s: State, t: Tid) {
    PcOf(s, t).UnlockLoaded? && Current(s, PcOf(s, t).lk)
  }

  /** u, on its way to the lock, gets it first. */
  lemma {:induction false} BreakAfterAcquirer(s: State, t: Tid, u: Tid)
    requires WellFormed(s) && StrangerWaits(s, t) && u != t
    requires PcOf(s, u).Loaded? || PcOf(s, u).Acquired? || PcOf(s, u).Named?
    requires PcOf(s, u).lk == PcOf(s, t).lk && (PcOf(s, u).Loaded? <==> !LockOf(s, PcOf(s, t).lk).held)
    ensures CanBreak(s)
    decreases if PcOf(s, u).Loaded? then 2 else if PcOf(s, u).Acquired? then 1 else 0
  {
    var pc := PcOf(s, u);
    var m := Move(u, if pc.Loaded? then TakeMutex else if pc.Acquired? then WriteIdent else StoreFlag);
    StepWellFormed(s, m);
    if pc.Named? {
      BreakFromStranger(Next(s, m), t, Hold(u, pc.name, pc.lk));
    } else {
      BreakAfterAcquirer(Next(s, m), t, u);
    }
    BreakLater(s, m);
  }

  lemma BreakFromFreeLockToo(s: State, t: Tid)
    requires WellFormed(s) && StrangerWaits(s, t) && !LockOf(s, PcOf(s, t).lk).held
    ensures CanBreak(s)
  {
    var u := BeyondAll(s.pcs.Keys + {t});
    var m := Move(u, CallAcquire(Try, PcOf(s, t).lk.key, ""));
    StepWellFormed(s, m);
    BreakAfterAcquirer(Next(s, m), t, u);
    BreakLater(s, m);
  }

  /** The owner u is inside its own Unlock: it finishes first. */
  lemma {:induction false} BreakAfterUnlock(s: State, t: Tid, u: Tid)
    requires WellFormed(s) && StrangerWaits(s, t) && u != t
    requires InUnlock(PcOf(s, u)) && PcOf(s, u).lk == PcOf(s, t).lk
    requires LockOf(s, PcOf(s, t).lk).held && (PcOf(s, u).UnlockWon? || LockOf(s, PcOf(s, t).lk).isLocked)
    ensures CanBreak(s)
    decreases UnlockSteps(PcOf(s, u))
  {
    var m := Move(u, UnlockStep(PcOf(s, u)));
    StepWellFormed(s, m);
    if PcOf(s, u).UnlockWon? {
      BreakFromFreeLockToo(Next(s, m), t);
    } else {
      BreakAfterUnlock(Next(s, m), t, u);
    }
    BreakLater(s, m);
  }

  // ---------------------------------------------------------------------
  // The exact condition
  // ---------------------------------------------------------------------

  /** The state after t, which holds nothing of the key, has entered Unlock. */
  lemma StrangerEnters(s: State, t: Tid, key: Key, remove: bool)
    requires ExInv(s) && PcOf(s, t).Idle? && HoldsOf(s, t, key) == {}
    ensures var s' := Next(s, Move(t, CallUnlock(key, remove)));
            && WellFormed(s') && s'.holds == s.holds && s'.locks == s.locks && s'.muxes == s.muxes
            && (key !in s.muxes ==> s' == s)
            && (key in s.muxes ==> s'.pcs == s.pcs[t := UnlockLoaded(remove, s.muxes[key], {})])
  {
    StepWellFormed(s, Move(t, CallUnlock(key, remove)));
    assert s.holds - {} == s.holds;
  }

  lemma StrangerBreaks(s: State, t: Tid, key: Key, remove: bool)
    requires ExInv(s) && PcOf(s, t).Idle? && HoldsOf(s, t, key) == {} && key in s.muxes
    ensures CanBreak(Next(s, Move(t, CallUnlock(key, remove))))
  {
    var s', lk := Next(s, Move(t, CallUnlock(key, remove))), s.muxes[key];
    StrangerEnters(s, t, key, remove);
    assert LockOf(s', lk) == LockOf(s, lk) && StrangerWaits(s', t);
    if !LockOf(s, lk).held {
      BreakFromFreeLockToo(s', t);
    } else {
      assert LockInv(s, lk);
      var o :| Owns(s, o, lk);
      assert OwnerOk(s, o, lk);
      match o
      case Client(h) =>
        BreakFromStranger(s', t, h);
      case Thread(u) =>
        assert PcOf(s', u) == PcOf(s, u);
        if InUnlock(PcOf(s, u)) {
          BreakAfterUnlock(s', t, u);
        } else {
          BreakAfterAcquirer(s', t, u);
        }
    }
  }

  /** Main result on Unlock by a client that does not hold the key: from any state
      of a careful run, exclusion stays unbreakable exactly when the key has no
      entry, and then the call changes nothing. */
  lemma StrangerSafeIffNoEntry(s: State, t: Tid, key: Key, remove: bool)
    requires ExInv(s) && PcOf(s, t).Idle? && HoldsOf(s, t, key) == {}
    ensures !CanBreak(Next(s, Move(t, CallUnlock(key, remove)))) <==> key !in s.muxes
    ensures key !in s.muxes ==> Next(s, Move(t, CallUnlock(key, remove))) == s
  {
    StrangerEnters(s, t, key, remove);
    if key in s.muxes {
      StrangerBreaks(s, t, key, remove);
    } else {
      forall moves | CarefulRun(s, moves) && CanRun(s, moves)
        ensures Exclusive(Run(s, moves))
      {
        CarefulRunKeeps(s, moves);
        InvMeansExclusive(Run(s, moves));
      }
    }
  }
}
