/** What whole calls of the locker do, whatever other threads do meanwhile
    (ci/runners/garm/locking/local_locker.go). */
module KeyLockerCalls {
  import opened KeyLocker

  datatype Call =
    | Acquire(mode: Mode, key: Key, name: string)   // TryLock, Lock, LockWithContext
    | Unlock(key: Key, remove: bool)
    | LockedBy(key: Key)

  /** A thread at pc is inside that call. */
  predicate Inside(pc: Pc, c: Call) {
    match c
    case Acquire(mode, key, name) =>
      || (pc.Loaded? && pc.mode == mode && pc.name == name && pc.lk.key == key)
      || ((pc.Acquired? || pc.Named?) && pc.name == name && pc.lk.key == key)
      || (pc.Waiting? && mode.WithContext? && pc.name == name && pc.key == key)
    case Unlock(key, remove) =>
      || ((pc.UnlockLoaded? || pc.UnlockCleared? || pc.UnlockWon?) && pc.remove == remove && pc.lk.key == key)
      || (pc.Removing? && remove && pc.key == key)
    case LockedBy(key) =>
      (pc.Reading? || pc.ReadOnce?) && pc.lk.key == key
  }

  /** Nothing but the position of t differs. */
  ghost predicate OnlyMoved(s: State, s': State, t: Tid) {
    && s'.muxes == s.muxes && s'.locks == s.locks && s'.holds == s.holds
    && forall u :: u != t ==> PcOf(s', u) == PcOf(s, u)
  }

  // ---------------------------------------------------------------------
  // The first step
  // ---------------------------------------------------------------------

  /** LoadOrStore: a key with an entry keeps its object; otherwise one fresh object
      is stored. The call then stands before the mutex of the key's object. */
  lemma AcquireStarts(s: State, t: Tid, mode: Mode, key: Key, name: string)
    requires PcOf(s, t).Idle?
    ensures var s' := Next(s, Move(t, CallAcquire(mode, key, name)));
            && key in s'.muxes && PcOf(s', t) == Loaded(mode, name, s'.muxes[key])
            && (WellFormed(s) ==> Inside(PcOf(s', t), Acquire(mode, key, name)))
            && (key in s.muxes ==> OnlyMoved(s, s', t))
            && (key !in s.muxes ==>
                  && s'.muxes == s.muxes[key := s'.muxes[key]] && s'.locks == s.locks[s'.muxes[key] := FRESH]
                  && s'.muxes[key].key == key && s'.holds == s.holds)
  {
  }

  /** Unlock and LockedBy load the key's object, or return at once if there is none;
      Delete takes the entry out. */
  lemma OthersStart(s: State, t: Tid, key: Key, remove: bool)
    requires WellFormed(s) && PcOf(s, t).Idle?
    ensures var s' := Next(s, Move(t, CallUnlock(key, remove)));
            && s'.muxes == s.muxes && s'.locks == s.locks && s'.holds == s.holds - HoldsOf(s, t, key)
            && if key in s.muxes then Inside(PcOf(s', t), Unlock(key, remove)) && PcOf(s', t).lk == s.muxes[key]
               else PcOf(s', t).Idle?
    ensures var s' := Next(s, Move(t, CallLockedBy(key)));
            && OnlyMoved(s, s', t)
            && if key in s.muxes then PcOf(s', t) == Reading(s.muxes[key]) && Inside(PcOf(s', t), LockedBy(key))
               else PcOf(s', t).Idle?
    ensures var s' := Next(s, Move(t, CallDelete(key)));
            && s'.muxes == s.muxes - {key} && s'.locks == s.locks && s'.holds == s.holds && s'.pcs == s.pcs
  {
  }

  // ---------------------------------------------------------------------
  // The steps up to the return
  // ---------------------------------------------------------------------

  /** The step of t from s to s' ends the call, and this is what it did at last. */
  ghost predicate Returns(s: State, m: Move, s': State, c: Call) {
    && PcOf(s', m.t).Idle?
    && match c
       case Acquire(mode, key, name) =>
         || (exists lk: LockId ::
               lk.key == key && s'.holds == s.holds + {Hold(m.t, name, lk)} && LockOf(s', lk).isLocked)  // success
         || (m.a.FailTry? && mode.Try? && OnlyMoved(s, s', m.t))                                         // false
         || (m.a.GiveUp? && mode.WithContext? && OnlyMoved(s, s', m.t))                                  // ctx.Err()
       case Unlock(key, remove) =>
         if remove then s'.muxes == s.muxes - {key} && s'.locks == s.locks
         else s'.muxes == s.muxes
       case LockedBy(key) =>
         && OnlyMoved(s, s', m.t)
         && (PcOf(s, m.t).Reading? ==> LockOf(s, PcOf(s, m.t).lk).ident == "")
  }

  /** One that does not end it: Unlock and LockedBy leave the map alone, attempts to
      lock only add to it, and LockedBy goes on only with a name. */
  ghost predicate GoesOn(s: State, m: Move, s': State, c: Call) {
    && Inside(PcOf(s', m.t), c) && s'.holds == s.holds
    && (!c.Acquire? ==> s'.muxes == s.muxes)
    && (forall k :: k in s.muxes ==> k in s'.muxes && s'.muxes[k] == s.muxes[k])
    && (c.LockedBy? ==> PcOf(s, m.t).Reading? && LockOf(s, PcOf(s, m.t).lk).ident != "")
  }

  lemma AcquireStep(s: State, m: Move, c: Call)
    requires WellFormed(s) && c.Acquire? && Inside(PcOf(s, m.t), c) && Enabled(s, m)
    ensures Returns(s, m, Next(s, m), c) || GoesOn(s, m, Next(s, m), c)
  {
    var pc, s' := PcOf(s, m.t), Next(s, m);
    match m.a
    case Retry => EnsureWellFormed(s, pc.key);
    case StoreFlag => assert s'.holds == s.holds + {Hold(m.t, c.name, pc.lk)} && LockOf(s', pc.lk).isLocked;
    case _ =>
  }

  lemma UnlockStep(s: State, m: Move, c: Call)
    requires c.Unlock? && Inside(PcOf(s, m.t), c) && Enabled(s, m)
    ensures Returns(s, m, Next(s, m), c) || GoesOn(s, m, Next(s, m), c)
  {
  }

  lemma LockedByStep(s: State, m: Move, c: Call)
    requires c.LockedBy? && Inside(PcOf(s, m.t), c) && Enabled(s, m)
    ensures Returns(s, m, Next(s, m), c) || GoesOn(s, m, Next(s, m), c)
  {
  }

  // ---------------------------------------------------------------------
  // Any interleaving
  // ---------------------------------------------------------------------

  lemma OthersLeaveInside(s: State, m: Move, t: Tid)
    requires Enabled(s, m) && m.t != t
    ensures PcOf(Next(s, m), t) == PcOf(s, t)
  {
  }

  /** Whatever else happens, t stays inside the call up to the step that ends it. */
  ghost predicate RunsThrough(s: State, moves: seq<Move>, t: Tid, c: Call)
    requires CanRun(s, moves)
    decreases |moves|
  {
    && Inside(PcOf(s, t), c)
    && (moves == []
        || var m, s' := moves[0], Next(s, moves[0]);
           if m.t != t then RunsThrough(s', moves[1..], t, c)
           else Returns(s, m, s', c) || (GoesOn(s, m, s', c) && RunsThrough(s', moves[1..], t, c)))
  }

  /** Main result on calls: in every run, with any number of other threads, a call
      of TryLock, Lock, LockWithContext, Unlock or LockedBy that has begun goes on
      until it returns, and it returns as it should. */
  lemma {:induction false} CallsRunThrough(s: State, moves: seq<Move>, t: Tid, c: Call)
    requires WellFormed(s) && CanRun(s, moves) && Inside(PcOf(s, t), c)
    ensures RunsThrough(s, moves, t, c)
    decreases |moves|
  {
    if moves == [] {
    } else {
      var m, s' := moves[0], Next(s, moves[0]);
      StepWellFormed(s, m);
      if m.t != t {
        OthersLeaveInside(s, m, t);
        CallsRunThrough(s', moves[1..], t, c);
      } else {
        match c {
          case Acquire(_, _, _) => AcquireStep(s, m, c);
          case Unlock(_, _) => UnlockStep(s, m, c);
          case LockedBy(_) => LockedByStep(s, m, c);
        }
        if !Returns(s, m, s', c) {
          CallsRunThrough(s', moves[1..], t, c);
        }
      }
    }
  }

  /** The keys whose entries t takes out in its call, step by step. */
  function Removals(s: State, moves: seq<Move>, t: Tid): seq<Key>
    requires CanRun(s, moves)
    decreases |moves|
  {
    if moves == [] then []
    else
      var m := moves[0];
      (if m.t == t && m.a.RemoveKey? then [PcOf(s, t).key] else []) + Removals(Next(s, m), moves[1..], t)
  }

  /** t begins no call of its own. */
  predicate CallsNothing(moves: seq<Move>, t: Tid) {
    forall i :: 0 <= i < |moves| && moves[i].t == t
                ==> !moves[i].a.CallAcquire? && !moves[i].a.CallUnlock?
                    && !moves[i].a.CallDelete? && !moves[i].a.CallLockedBy?
  }

  lemma {:induction false} IdleRemovesNothing(s: State, moves: seq<Move>, t: Tid)
    requires CanRun(s, moves) && CallsNothing(moves, t) && PcOf(s, t).Idle?
    ensures Removals(s, moves, t) == [] && PcOf(Run(s, moves), t).Idle?
    decreases |moves|
  {
    if moves == [] {
    } else {
      assert moves[0].t != t;
      OthersLeaveInside(s, moves[0], t);
      assert forall i :: 0 <= i < |moves| - 1 ==> moves[1..][i] == moves[i + 1];
      IdleRemovesNothing(Next(s, moves[0]), moves[1..], t);
    }
  }

  /** Main result on removal: a call of Unlock that has returned has taken out the
      key's entry exactly once if `remove` is set, and never otherwise. */
  lemma {:induction false} UnlockRemovesIff(s: State, moves: seq<Move>, t: Tid, key: Key, remove: bool)
    requires CanRun(s, moves) && CallsNothing(moves, t) && Inside(PcOf(s, t), Unlock(key, remove))
    requires PcOf(Run(s, moves), t).Idle?
    ensures Removals(s, moves, t) == if remove then [key] else []
    decreases |moves|
  {
    if moves == [] {
    } else {
      var m, s' := moves[0], Next(s, moves[0]);
      assert forall i :: 0 <= i < |moves| - 1 ==> moves[1..][i] == moves[i + 1];
      if m.t != t {
        OthersLeaveInside(s, m, t);
        UnlockRemovesIff(s', moves[1..], t, key, remove);
      } else {
        UnlockStep(s, m, Unlock(key, remove));
        if PcOf(s', t).Idle? {
          IdleRemovesNothing(s', moves[1..], t);
        } else {
          UnlockRemovesIff(s', moves[1..], t, key, remove);
        }
      }
    }
  }

  /** Such a step takes out that entry and nothing else. */
  lemma RemovalStep(s: State, t: Tid)
    requires PcOf(s, t).Removing?
    ensures Enabled(s, Move(t, RemoveKey))
    ensures var s' := Next(s, Move(t, RemoveKey));
            PcOf(s, t).key !in s'.muxes && s'.muxes == s.muxes - {PcOf(s, t).key}
            && s'.locks == s.locks && s'.holds == s.holds && PcOf(s', t).Idle?
  {
  }

  // ---------------------------------------------------------------------
  // Unlock alone
  // ---------------------------------------------------------------------

  /** The state when the name is cleared. */
  function Cleared(s: State, t: Tid, key: Key, remove: bool): State
    requires PcOf(s, t).Idle? && key in s.muxes
  {
    Next(Next(s, Move(t, CallUnlock(key, remove))), Move(t, ClearIdent))
  }

  lemma ClearedIs(s: State, t: Tid, key: Key, remove: bool)
    requires PcOf(s, t).Idle? && key in s.muxes
    ensures var s2, lk := Cleared(s, t, key, remove), s.muxes[key];
            && PcOf(s2, t) == UnlockCleared(remove, lk)
            && s2.muxes == s.muxes && s2.holds == s.holds - HoldsOf(s, t, key)
            && LockOf(s2, lk) == LockOf(s, lk).(ident := "")
            && (forall other :: other != lk ==> LockOf(s2, other) == LockOf(s, other))
  {
  }

  /** The CompareAndSwap and, if it won, the release. */
  function Swapped(s: State, t: Tid): State
    requires PcOf(s, t).UnlockCleared?
  {
    var s1 := Next(s, Move(t, CompareAndSwap));
    if PcOf(s1, t).UnlockWon? then Next(s1, Move(t, ReleaseMutex)) else s1
  }

  lemma SwappedIs(s: State, t: Tid, lk: LockId, remove: bool)
    requires PcOf(s, t) == UnlockCleared(remove, lk)
    ensures var end := Swapped(s, t);
            && end.muxes == s.muxes && end.holds == s.holds
            && LockOf(end, lk) == Lock(LockOf(s, lk).held && !LockOf(s, lk).isLocked, LockOf(s, lk).ident, false)
            && (forall other :: other != lk ==> LockOf(end, other) == LockOf(s, other))
            && PcOf(end, t) == if remove then Removing(lk.key) else Idle
  {
  }

  /** Unlock of a key with an entry, without a pause: it clears the name, releases
      the mutex if the flag was set and the mutex held, and then stands before the
      removal, its only next step, or has returned with the map as it was. */
  lemma UnlockAlone(s: State, t: Tid, key: Key, remove: bool, s2: State)
    requires PcOf(s, t).Idle? && key in s.muxes && s.muxes[key].key == key && s2 == Cleared(s, t, key, remove)
    ensures PcOf(s2, t).UnlockCleared?
    ensures var end, lk := Swapped(s2, t), s.muxes[key];
            && end.muxes == s.muxes && end.holds == s.holds - HoldsOf(s, t, key)
            && LockOf(end, lk) == Lock(LockOf(s, lk).held && !LockOf(s, lk).isLocked, "", false)
            && (forall other :: other != lk ==> LockOf(end, other) == LockOf(s, other))
            && PcOf(end, t) == if remove then Removing(key) else Idle
  {
    ClearedIs(s, t, key, remove);
    SwappedIs(s2, t, s.muxes[key], remove);
  }

  /** Before the removal there is nothing else that t can do. */
  lemma OnlyRemoval(s: State, t: Tid, a: Action)
    requires PcOf(s, t).Removing?
    ensures Enabled(s, Move(t, a)) <==> a == RemoveKey
  {
  }
}
