/** Mutual exclusion per key in ci/runners/garm/locking/local_locker.go, and the
    exact effect of removing a key's lock object from the map. */
module KeyLockerExclusion {
  import opened KeyLocker

  /** Who is entitled to a held mutex when clients unlock only what they hold. */
  datatype Owner = Client(h: Hold) | Thread(t: Tid)

  predicate PcOwns(pc: Pc, lk: LockId) {
    (pc.Acquired? || pc.Named? || pc.UnlockLoaded? || pc.UnlockCleared? || pc.UnlockWon?) && pc.lk == lk
  }

  predicate Owns(s: State, o: Owner, lk: LockId) {
    match o
    case Client(h) => h in s.holds && h.lk == lk
    case Thread(t) => PcOwns(PcOf(s, t), lk)
  }

  /** lk is what the map holds for its key. */
  predicate Current(s: State, lk: LockId) {
    lk.key in s.muxes && s.muxes[lk.key] == lk
  }

  predicate OwnerOk(s: State, o: Owner, lk: LockId) {
    var l := LockOf(s, lk);
    && l.held
    && match o
       case Client(h) => l.isLocked && l.ident == h.name && Current(s, lk)
       case Thread(t) =>
         var pc := PcOf(s, t);
         && (pc.Acquired? ==> !l.isLocked && l.ident == "" && Current(s, lk))
         && (pc.Named? ==> !l.isLocked && l.ident == pc.name && Current(s, lk))
         && (pc.UnlockLoaded? ==> l.isLocked && Hold(t, l.ident, lk) in pc.gave)
         && (pc.UnlockCleared? ==> l.isLocked && l.ident == "")
         && (pc.UnlockWon? ==> !l.isLocked && l.ident == "")
  }

  ghost predicate LockInv(s: State, lk: LockId) {
    && (forall o :: Owns(s, o, lk) ==> OwnerOk(s, o, lk))
    && (forall o, p :: Owns(s, o, lk) && Owns(s, p, lk) ==> o == p)
    && (LockOf(s, lk).held ==> exists o :: Owns(s, o, lk))
    && (!LockOf(s, lk).held ==> !LockOf(s, lk).isLocked && LockOf(s, lk).ident == "")
  }

  ghost predicate ExInv(s: State) {
    && WellFormed(s)
    && (forall lk :: lk in s.locks ==> LockInv(s, lk))
    && (forall t :: PcOf(s, t).Loaded? ==> Current(s, PcOf(s, t).lk))
  }

  /** Two clients never hold the same key. */
  ghost predicate Exclusive(s: State) {
    forall h, g :: h in s.holds && g in s.holds && h.lk.key == g.lk.key ==> h == g
  }

  lemma InvMeansExclusive(s: State)
    requires ExInv(s)
    ensures Exclusive(s)
  {
    forall h, g | h in s.holds && g in s.holds && h.lk.key == g.lk.key
      ensures h == g
    {
      assert Owns(s, Client(h), h.lk) && Owns(s, Client(g), g.lk);
    }
  }

  // ---------------------------------------------------------------------
  // Which steps are allowed
  // ---------------------------------------------------------------------

  /** Clients call Unlock only for keys they hold. */
  predicate Disciplined(s: State, m: Move) {
    m.a.CallUnlock? ==> HoldsOf(s, m.t, m.a.key) != {}
  }

  /** Nobody holds the key or is on the way to holding it. */
  ghost predicate Quiescent(s: State, key: Key) {
    && (forall h :: h in s.holds ==> h.lk.key != key)
    && (forall t :: (PcOf(s, t).Loaded? || PcOf(s, t).Acquired? || PcOf(s, t).Named?)
                    ==> PcOf(s, t).lk.key != key)
  }

  predicate IsRemoval(a: Action) {
    a.RemoveKey? || a.CallDelete?
  }

  function RemovedKey(s: State, m: Move): Key
    requires Enabled(s, m) && IsRemoval(m.a)
  {
    if m.a.CallDelete? then m.a.key else PcOf(s, m.t).key
  }

  /** Disciplined, and an entry is removed only while its key is quiescent. */
  ghost predicate Careful(s: State, m: Move)
    requires Enabled(s, m)
  {
    Disciplined(s, m) && (IsRemoval(m.a) ==> Quiescent(s, RemovedKey(s, m)))
  }

  ghost predicate CarefulRun(s: State, moves: seq<Move>)
    decreases |moves|
  {
    moves == [] || (Enabled(s, moves[0]) && Careful(s, moves[0]) && CarefulRun(Next(s, moves[0]), moves[1..]))
  }

  lemma {:induction false} CarefulRunRuns(s: State, moves: seq<Move>)
    requires CarefulRun(s, moves)
    ensures CanRun(s, moves)
    decreases |moves|
  {
    if moves == [] {
    } else {
      CarefulRunRuns(Next(s, moves[0]), moves[1..]);
    }
  }

  // ---------------------------------------------------------------------
  // Every careful step keeps the invariant
  // ---------------------------------------------------------------------

  /** Whatever t does to lk0, the other locks see nothing of it. */
  lemma OtherLocksKept(s: State, s': State, t: Tid, lk0: LockId, lk: LockId)
    requires LockInv(s, lk) && lk != lk0
    requires s'.muxes == s.muxes && LockOf(s', lk) == LockOf(s, lk)
    requires forall u :: u != t ==> PcOf(s', u) == PcOf(s, u)
    requires !PcOwns(PcOf(s, t), lk) && !PcOwns(PcOf(s', t), lk)
    requires forall h: Hold :: h.lk != lk0 ==> (h in s'.holds <==> h in s.holds)
    ensures LockInv(s', lk)
  {
    forall o
      ensures Owns(s', o, lk) == Owns(s, o, lk)
      ensures Owns(s', o, lk) ==> OwnerOk(s', o, lk) == OwnerOk(s, o, lk)
    {
    }
    if LockOf(s, lk).held {
      var o :| Owns(s, o, lk);
      assert Owns(s', o, lk);
    }
  }

  /** After a step of t on lk0 the lock has one owner, or it is free. */
  lemma NewOwner(s': State, lk: LockId, o: Owner)
    requires Owns(s', o, lk) && OwnerOk(s', o, lk)
    requires forall p :: Owns(s', p, lk) ==> p == o
    ensures LockInv(s', lk)
  {
  }

  lemma EnsureKeepsLock(s: State, key: Key, lk: LockId)
    requires ExInv(s) && key !in s.muxes && lk in Ensure(s, key).locks
    ensures LockInv(Ensure(s, key), lk)
  {
    var s' := Ensure(s, key);
    forall o
      ensures Owns(s', o, lk) == (Owns(s, o, lk) && lk in s.locks)
      ensures Owns(s', o, lk) ==> OwnerOk(s', o, lk)
    {
      if o.Thread? && PcOwns(PcOf(s, o.t), lk) {
        assert Mentions(PcOf(s, o.t), lk);
      }
      assert lk in s.locks && Owns(s, o, lk) ==> OwnerOk(s, o, lk);
    }
    if LockOf(s, lk).held {
      var o :| Owns(s, o, lk);
      assert Owns(s', o, lk);
    }
  }

  lemma EnsureKeeps(s: State, key: Key)
    requires ExInv(s)
    ensures ExInv(Ensure(s, key)) && Current(Ensure(s, key), Ensure(s, key).muxes[key])
    ensures Ensure(s, key).pcs == s.pcs
  {
    EnsureWellFormed(s, key);
    var s' := Ensure(s, key);
    if key !in s.muxes {
      forall lk | lk in s'.locks
        ensures LockInv(s', lk)
      {
        EnsureKeepsLock(s, key, lk);
      }
      forall t | PcOf(s', t).Loaded?
        ensures Current(s', PcOf(s', t).lk)
      {
        assert Current(s, PcOf(s, t).lk);
      }
    }
  }

  /** A step of t that changes neither a lock nor a hold nor an ownership. */
  lemma QuietKeeps(s: State, t: Tid, pc: Pc)
    requires ExInv(s)
    requires forall lk :: Mentions(pc, lk) ==> lk in s.locks
    requires forall lk :: !PcOwns(PcOf(s, t), lk) && !PcOwns(pc, lk)
    requires pc.Loaded? ==> Current(s, pc.lk)
    ensures ExInv(At(s, t, pc))
  {
    AtWellFormed(s, t, pc);
    var s' := At(s, t, pc);
    forall lk | lk in s'.locks
      ensures LockInv(s', lk)
    {
      OtherLocksKept(s, s', t, LockId(lk.key, lk.serial + 1), lk);
    }
    forall u | PcOf(s', u).Loaded?
      ensures Current(s', PcOf(s', u).lk)
    {
      assert u != t ==> Current(s, PcOf(s, u).lk);
    }
  }

  /** The other locks and the loaded threads, once lk0 itself is settled. */
  lemma OwnedStepKeeps(s: State, s': State, t: Tid, lk0: LockId)
    requires ExInv(s) && WellFormed(s') && LockInv(s', lk0)
    requires s'.muxes == s.muxes && s'.locks.Keys == s.locks.Keys
    requires forall lk :: lk != lk0 ==> LockOf(s', lk) == LockOf(s, lk)
    requires forall u :: u != t ==> PcOf(s', u) == PcOf(s, u)
    requires forall lk :: lk != lk0 ==> !PcOwns(PcOf(s, t), lk) && !PcOwns(PcOf(s', t), lk)
    requires forall h: Hold :: h.lk != lk0 ==> (h in s'.holds <==> h in s.holds)
    requires !PcOf(s', t).Loaded?
    ensures ExInv(s')
  {
    forall lk | lk in s'.locks && lk != lk0
      ensures LockInv(s', lk)
    {
      OtherLocksKept(s, s', t, lk0, lk);
    }
    forall u | PcOf(s', u).Loaded?
      ensures Current(s', PcOf(s', u).lk)
    {
      assert Current(s, PcOf(s, u).lk);
    }
  }

  lemma LoadKeeps(s: State, t: Tid, key: Key, mode: Mode, name: string)
    requires ExInv(s) && !PcOf(s, t).Acquired? && !PcOf(s, t).Named?
    requires !PcOf(s, t).UnlockLoaded? && !PcOf(s, t).UnlockCleared? && !PcOf(s, t).UnlockWon?
    ensures ExInv(At(Ensure(s, key), t, Loaded(mode, name, Ensure(s, key).muxes[key])))
  {
    EnsureKeeps(s, key);
    QuietKeeps(Ensure(s, key), t, Loaded(mode, name, Ensure(s, key).muxes[key]));
  }

  lemma TakeKeeps(s: State, m: Move)
    requires ExInv(s) && Enabled(s, m) && m.a.TakeMutex?
    ensures ExInv(Next(s, m))
  {
    var t, pc, s' := m.t, PcOf(s, m.t), Next(s, m);
    StepWellFormed(s, m);
    assert Mentions(pc, pc.lk);
    assert Current(s, pc.lk);
    forall p | Owns(s', p, pc.lk)
      ensures p == Thread(t)
    {
      assert p != Thread(t) ==> Owns(s, p, pc.lk);
    }
    NewOwner(s', pc.lk, Thread(t));
    OwnedStepKeeps(s, s', t, pc.lk);
  }

  /** The thread owned lk before and owns it after, as pc with the lock as l. */
  lemma OwnedMoveKeeps(s: State, t: Tid, lk: LockId, l: Lock, pc: Pc)
    requires ExInv(s) && lk in s.locks && PcOwns(PcOf(s, t), lk) && PcOwns(pc, lk)
    requires OwnerOk(At(SetLock(s, lk, l), t, pc), Thread(t), lk)
    ensures ExInv(At(SetLock(s, lk, l), t, pc))
  {
    var s' := At(SetLock(s, lk, l), t, pc);
    SetLockWellFormed(s, lk, l);
    AtWellFormed(SetLock(s, lk, l), t, pc);
    assert Owns(s, Thread(t), lk);
    forall p | Owns(s', p, lk)
      ensures p == Thread(t)
    {
      assert Owns(s, p, lk);
    }
    NewOwner(s', lk, Thread(t));
    OwnedStepKeeps(s, s', t, lk);
  }

  /** Writing or clearing the identifier and winning the CompareAndSwap. */
  lemma SameOwnerKeeps(s: State, m: Move)
    requires ExInv(s) && Enabled(s, m)
    requires m.a.WriteIdent? || m.a.ClearIdent? || m.a.CompareAndSwap?
    ensures ExInv(Next(s, m))
  {
    var t, pc := m.t, PcOf(s, m.t);
    var lk, l := pc.lk, LockOf(s, pc.lk);
    assert Mentions(pc, lk);
    assert Owns(s, Thread(t), lk);
    assert OwnerOk(s, Thread(t), lk);
    match m.a
    case WriteIdent => OwnedMoveKeeps(s, t, lk, l.(ident := pc.name), Named(pc.name, lk));
    case ClearIdent => OwnedMoveKeeps(s, t, lk, l.(ident := ""), UnlockCleared(pc.remove, lk));
    case CompareAndSwap => OwnedMoveKeeps(s, t, lk, l.(isLocked := false), UnlockWon(pc.remove, lk));
  }

  lemma StoreKeeps(s: State, m: Move)
    requires ExInv(s) && Enabled(s, m) && m.a.StoreFlag?
    ensures ExInv(Next(s, m))
  {
    var t, pc, s' := m.t, PcOf(s, m.t), Next(s, m);
    StepWellFormed(s, m);
    assert Mentions(pc, pc.lk);
    assert Owns(s, Thread(t), pc.lk);
    var h := Hold(t, pc.name, pc.lk);
    forall p | Owns(s', p, pc.lk)
      ensures p == Client(h)
    {
      assert p != Client(h) ==> Owns(s, p, pc.lk);
    }
    NewOwner(s', pc.lk, Client(h));
    OwnedStepKeeps(s, s', t, pc.lk);
  }

  lemma AcquiringKeeps(s: State, m: Move)
    requires ExInv(s) && Enabled(s, m) && Acquiring(m.a)
    ensures ExInv(Next(s, m))
  {
    var t, pc := m.t, PcOf(s, m.t);
    match m.a
    case CallAcquire(mode, key, name) => LoadKeeps(s, t, key, mode, name);
    case Retry => LoadKeeps(s, t, pc.key, WithContext, pc.name);
    case FailTry => QuietKeeps(s, t, if pc.mode.Try? then Idle else Waiting(pc.name, pc.lk.key));
    case GiveUp => QuietKeeps(s, t, Idle);
    case TakeMutex => TakeKeeps(s, m);
    case WriteIdent => SameOwnerKeeps(s, m);
    case StoreFlag => StoreKeeps(s, m);
  }

  /** A disciplined Unlock: the hold it gives up is the only one of the lock. */
  lemma BeginUnlockLock(s: State, m: Move)
    requires ExInv(s) && Enabled(s, m) && m.a.CallUnlock? && Disciplined(s, m)
    ensures m.a.key in s.muxes && s.muxes[m.a.key] in s.locks && LockInv(Next(s, m), s.muxes[m.a.key])
    ensures forall g :: g in HoldsOf(s, m.t, m.a.key) ==> g.lk == s.muxes[m.a.key]
  {
    var t, key, s' := m.t, m.a.key, Next(s, m);
    var h :| h in HoldsOf(s, t, key);
    var lk := h.lk;
    assert Owns(s, Client(h), lk);
    assert OwnerOk(s, Client(h), lk);
    forall g | g in HoldsOf(s, t, key)
      ensures g == h
    {
      assert Owns(s, Client(g), g.lk);
      assert OwnerOk(s, Client(g), g.lk);
    }
    forall p | Owns(s', p, lk)
      ensures p == Thread(t)
    {
      assert p != Thread(t) ==> Owns(s, p, lk);
    }
    NewOwner(s', lk, Thread(t));
  }

  lemma BeginUnlockKeeps(s: State, m: Move)
    requires ExInv(s) && Enabled(s, m) && m.a.CallUnlock? && Disciplined(s, m)
    ensures ExInv(Next(s, m))
  {
    StepWellFormed(s, m);
    BeginUnlockLock(s, m);
    OwnedStepKeeps(s, Next(s, m), m.t, s.muxes[m.a.key]);
  }

  lemma ReleaseLock(s: State, m: Move)
    requires ExInv(s) && Enabled(s, m) && m.a.ReleaseMutex?
    ensures PcOf(s, m.t).lk in s.locks && LockInv(Next(s, m), PcOf(s, m.t).lk)
  {
    var t, pc, s' := m.t, PcOf(s, m.t), Next(s, m);
    assert Mentions(pc, pc.lk);
    assert Owns(s, Thread(t), pc.lk);
    forall p
      ensures !Owns(s', p, pc.lk)
    {
      assert Owns(s', p, pc.lk) ==> Owns(s, p, pc.lk);
    }
  }

  lemma ReleaseKeeps(s: State, m: Move)
    requires ExInv(s) && Enabled(s, m) && m.a.ReleaseMutex?
    ensures ExInv(Next(s, m))
  {
    StepWellFormed(s, m);
    ReleaseLock(s, m);
    OwnedStepKeeps(s, Next(s, m), m.t, PcOf(s, m.t).lk);
  }

  lemma UnlockingKeeps(s: State, m: Move)
    requires ExInv(s) && Enabled(s, m) && Unlocking(m.a) && Disciplined(s, m)
    ensures ExInv(Next(s, m))
  {
    match m.a
    case CallUnlock(_, _) => BeginUnlockKeeps(s, m);
    case ClearIdent => SameOwnerKeeps(s, m);
    case CompareAndSwap => SameOwnerKeeps(s, m);
    case ReleaseMutex => ReleaseKeeps(s, m);
  }

  lemma RemoveKeepsLock(s: State, key: Key, lk: LockId)
    requires ExInv(s) && Quiescent(s, key) && lk in s.locks
    ensures LockInv(Remove(s, key), lk)
  {
    var s' := Remove(s, key);
    assert LockInv(s, lk);
    forall o
      ensures Owns(s', o, lk) == Owns(s, o, lk)
      ensures Owns(s', o, lk) ==> OwnerOk(s', o, lk)
    {
      assert Owns(s, o, lk) ==> OwnerOk(s, o, lk);
    }
    if LockOf(s, lk).held {
      var o :| Owns(s, o, lk);
      assert Owns(s', o, lk);
    }
  }

  lemma RemoveWellFormed(s: State, key: Key)
    requires WellFormed(s)
    ensures WellFormed(Remove(s, key))
  {
  }

  lemma LoadedStaysCurrent(s: State, key: Key, t: Tid)
    requires ExInv(s) && Quiescent(s, key) && PcOf(s, t).Loaded?
    ensures Current(Remove(s, key), PcOf(s, t).lk)
  {
    assert Current(s, PcOf(s, t).lk);
  }

  /** Removing the entry of a quiescent key. */
  lemma RemoveKeeps(s: State, key: Key)
    requires ExInv(s) && Quiescent(s, key)
    ensures ExInv(Remove(s, key))
  {
    var s' := Remove(s, key);
    RemoveWellFormed(s, key);
    forall lk | lk in s'.locks
      ensures LockInv(s', lk)
    {
      RemoveKeepsLock(s, key, lk);
    }
    forall t | PcOf(s', t).Loaded?
      ensures Current(s', PcOf(s', t).lk)
    {
      LoadedStaysCurrent(s, key, t);
    }
  }

  lemma OtherKeeps(s: State, m: Move)
    requires ExInv(s) && Enabled(s, m) && !Acquiring(m.a) && !Unlocking(m.a) && Careful(s, m)
    ensures ExInv(Next(s, m))
  {
    var t, pc := m.t, PcOf(s, m.t);
    LockInUse(s, t);
    match m.a
    case RemoveKey =>
      RemoveKeeps(s, pc.key);
      QuietKeeps(Remove(s, pc.key), t, Idle);
    case CallDelete(key) =>
      RemoveKeeps(s, key);
    case CallLockedBy(key) =>
      if key in s.muxes { QuietKeeps(s, t, Reading(s.muxes[key])); }
    case ReadIdent =>
      assert Mentions(pc, pc.lk);
      QuietKeeps(s, t, if LockOf(s, pc.lk).ident == "" then Idle else ReadOnce(pc.lk));
    case ReturnIdent =>
      QuietKeeps(s, t, Idle);
  }

  lemma CarefulStepKeeps(s: State, m: Move)
    requires ExInv(s) && Enabled(s, m) && Careful(s, m)
    ensures ExInv(Next(s, m))
  {
    if Acquiring(m.a) {
      AcquiringKeeps(s, m);
    } else if Unlocking(m.a) {
      UnlockingKeeps(s, m);
    } else {
      OtherKeeps(s, m);
    }
  }

  lemma {:induction false} CarefulRunKeeps(s: State, moves: seq<Move>)
    requires ExInv(s) && CarefulRun(s, moves)
    ensures CanRun(s, moves) && ExInv(Run(s, moves))
    decreases |moves|
  {
    if moves == [] {
    } else {
      CarefulStepKeeps(s, moves[0]);
      CarefulRunKeeps(Next(s, moves[0]), moves[1..]);
    }
  }

  /** Main result: in every run in which clients unlock only keys they hold and
      no entry is removed while its key is in use (in particular when nothing is
      ever removed), at most one client holds a key at any time. */
  lemma MutualExclusion(moves: seq<Move>)
    requires CarefulRun(INIT, moves)
    ensures CanRun(INIT, moves) && Exclusive(Run(INIT, moves))
  {
    CarefulRunKeeps(INIT, moves);
    InvMeansExclusive(Run(INIT, moves));
  }

  // ---------------------------------------------------------------------
  // Removing an entry: safe exactly when the key is quiescent
  // ---------------------------------------------------------------------

  /** Clients that go on behaving carefully can still get two holders of a key. */
  ghost predicate CanBreak(s: State) {
    exists moves :: CarefulRun(s, moves) && CanRun(s, moves) && !Exclusive(Run(s, moves))
  }

  lemma BreakLater(s: State, m: Move)
    requires Enabled(s, m) && Careful(s, m) && CanBreak(Next(s, m))
    ensures CanBreak(s)
  {
    var moves :| CarefulRun(Next(s, m), moves) && CanRun(Next(s, m), moves) && !Exclusive(Run(Next(s, m), moves));
    assert ([m] + moves)[1..] == moves;
    assert CarefulRun(s, [m] + moves) && CanRun(s, [m] + moves);
  }

  lemma {:induction false} BeyondAll(ts: set<Tid>) returns (u: Tid)
    ensures forall t :: t in ts ==> t < u
  {
    if ts == {} {
      u := 0;
    } else {
      var t :| t in ts;
      var v := BeyondAll(ts - {t});
      u := if t < v then v else t + 1;
      forall x | x in ts
        ensures x < u
      {
        assert x != t ==> x in ts - {t};
      }
    }
  }

  /** u acquires the key that h holds already: another lock object of the key, or
      the same one, which is free all the same. */
  lemma {:induction false} BreakFromSecond(s: State, u: Tid, h: Hold)
    requires WellFormed(s) && h in s.holds
    requires PcOf(s, u).Loaded? || PcOf(s, u).Acquired? || PcOf(s, u).Named?
    requires PcOf(s, u).lk.key == h.lk.key && (PcOf(s, u).lk != h.lk || u != h.t)
    requires PcOf(s, u).Loaded? ==> !LockOf(s, PcOf(s, u).lk).held
    ensures CanBreak(s)
    decreases if PcOf(s, u).Loaded? then 2 else if PcOf(s, u).Acquired? then 1 else 0
  {
    var pc := PcOf(s, u);
    var m := Move(u, if pc.Loaded? then TakeMutex else if pc.Acquired? then WriteIdent else StoreFlag);
    StepWellFormed(s, m);
    var s' := Next(s, m);
    if pc.Named? {
      assert Hold(u, pc.name, pc.lk) in s'.holds && h in s'.holds;
      assert CarefulRun(s', []) && CanRun(s', []) && Run(s', []) == s';
    } else {
      BreakFromSecond(s', u, h);
    }
    BreakLater(s, m);
  }

  /** Somebody holds a key that has lost its entry: the next client locks too. */
  lemma BreakFromHold(s: State, h: Hold)
    requires WellFormed(s) && h in s.holds && h.lk.key !in s.muxes
    ensures CanBreak(s)
  {
    var u := BeyondAll(s.pcs.Keys);
    var m := Move(u, CallAcquire(Try, h.lk.key, ""));
    StepWellFormed(s, m);
    BreakFromSecond(Next(s, m), u, h);
    BreakLater(s, m);
  }

  lemma BreakFromNamed(s: State, t: Tid)
    requires WellFormed(s) && PcOf(s, t).Named? && PcOf(s, t).lk.key !in s.muxes
    ensures CanBreak(s)
  {
    var pc, m := PcOf(s, t), Move(t, StoreFlag);
    StepWellFormed(s, m);
    BreakFromHold(Next(s, m), Hold(t, pc.name, pc.lk));
    BreakLater(s, m);
  }

  lemma BreakFromAcquired(s: State, t: Tid)
    requires WellFormed(s) && PcOf(s, t).Acquired? && PcOf(s, t).lk.key !in s.muxes
    ensures CanBreak(s)
  {
    var m := Move(t, WriteIdent);
    StepWellFormed(s, m);
    BreakFromNamed(Next(s, m), t);
    BreakLater(s, m);
  }

  lemma BreakFromFreeLock(s: State, t: Tid)
    requires WellFormed(s) && PcOf(s, t).Loaded? && PcOf(s, t).lk.key !in s.muxes
    requires !LockOf(s, PcOf(s, t).lk).held
    ensures CanBreak(s)
  {
    var m := Move(t, TakeMutex);
    StepWellFormed(s, m);
    BreakFromAcquired(Next(s, m), t);
    BreakLater(s, m);
  }

  /** t waits for a lock whose owner u is inside Unlock: u finishes, t goes on. */
  lemma {:induction false} BreakFromUnlock(s: State, t: Tid, u: Tid)
    requires WellFormed(s) && PcOf(s, t).Loaded? && PcOf(s, t).lk.key !in s.muxes
    requires PcOf(s, u).UnlockLoaded? || PcOf(s, u).UnlockCleared? || PcOf(s, u).UnlockWon?
    requires PcOf(s, u).lk == PcOf(s, t).lk && LockOf(s, PcOf(s, t).lk).held
    requires PcOf(s, u).UnlockWon? || LockOf(s, PcOf(s, t).lk).isLocked
    ensures CanBreak(s)
    decreases if PcOf(s, u).UnlockLoaded? then 2 else if PcOf(s, u).UnlockCleared? then 1 else 0
  {
    var m := Move(u, if PcOf(s, u).UnlockLoaded? then ClearIdent
                     else if PcOf(s, u).UnlockCleared? then CompareAndSwap else ReleaseMutex);
    StepWellFormed(s, m);
    if PcOf(s, u).UnlockWon? {
      BreakFromFreeLock(Next(s, m), t);
    } else {
      BreakFromUnlock(Next(s, m), t, u);
    }
    BreakLater(s, m);
  }

  /** t waits for a lock that is held: its owner gets there first. */
  lemma BreakFromHeldLock(s: State, t: Tid)
    requires ExInv(s) && PcOf(s, t).Loaded? && LockOf(s, PcOf(s, t).lk).held
    requires forall h :: h in s.holds ==> h.lk.key != PcOf(s, t).lk.key
    ensures CanBreak(Remove(s, PcOf(s, t).lk.key))
  {
    var lk := PcOf(s, t).lk;
    var s' := Remove(s, lk.key);
    assert Mentions(PcOf(s, t), lk) && LockInv(s, lk);
    var o :| Owns(s, o, lk);
    assert OwnerOk(s, o, lk) && o.Thread?;
    if PcOf(s, o.t).Named? {
      BreakFromNamed(s', o.t);
    } else if PcOf(s, o.t).Acquired? {
      BreakFromAcquired(s', o.t);
    } else {
      BreakFromUnlock(s', t, o.t);
    }
  }

  lemma RemovalInUseBreaks(s: State, key: Key)
    requires ExInv(s) && !Quiescent(s, key)
    ensures CanBreak(Remove(s, key))
  {
    var s' := Remove(s, key);
    if h :| h in s.holds && h.lk.key == key {
      BreakFromHold(s', h);
    } else {
      var t :| (PcOf(s, t).Loaded? || PcOf(s, t).Acquired? || PcOf(s, t).Named?) && PcOf(s, t).lk.key == key;
      if PcOf(s, t).Named? {
        BreakFromNamed(s', t);
      } else if PcOf(s, t).Acquired? {
        BreakFromAcquired(s', t);
      } else if !LockOf(s, PcOf(s, t).lk).held {
        BreakFromFreeLock(s', t);
      } else {
        BreakFromHeldLock(s, t);
      }
    }
  }

  /** Main result on Delete and Unlock(key, true). From any state of a careful
      run, taking the key's entry out of the map leaves exclusion unbreakable
      exactly when nobody holds the key or is on the way to holding it. */
  lemma RemovalSafeIffQuiescent(s: State, key: Key)
    requires ExInv(s)
    ensures Quiescent(s, key) <==> !CanBreak(Remove(s, key))
  {
    if Quiescent(s, key) {
      RemoveKeeps(s, key);
      forall moves | CarefulRun(Remove(s, key), moves) && CanRun(Remove(s, key), moves)
        ensures Exclusive(Run(Remove(s, key), moves))
      {
        CarefulRunKeeps(Remove(s, key), moves);
        InvMeansExclusive(Run(Remove(s, key), moves));
      }
    } else {
      RemovalInUseBreaks(s, key);
    }
  }

  // ---------------------------------------------------------------------
  // One uncontended acquisition, for concrete runs
  // ---------------------------------------------------------------------

  /** The state after TryLock of a key without an entry: a new lock object, held
      by t as `name`. */
  function WithNewLock(s: State, t: Tid, key: Key, name: string): State {
    var lk := LockId(key, s.next);
    State(s.muxes[key := lk], s.locks[lk := Lock(true, name, true)], s.next + 1, s.pcs[t := Idle],
          s.holds + {Hold(t, name, lk)}, s.crashed)
  }

  /** One careful step from s to s'. */
  ghost predicate StepsTo(s: State, m: Move, s': State) {
    Enabled(s, m) && Careful(s, m) && Next(s, m) == s'
  }

  lemma RunCons(s: State, m: Move, s': State, moves: seq<Move>)
    requires StepsTo(s, m, s') && CarefulRun(s', moves) && CanRun(s', moves)
    ensures CarefulRun(s, [m] + moves) && CanRun(s, [m] + moves)
    ensures Run(s, [m] + moves) == Run(s', moves)
  {
    assert ([m] + moves)[1..] == moves;
  }

  lemma RunTwo(s: State, m0: Move, s1: State, m1: Move, s2: State) returns (moves: seq<Move>)
    requires StepsTo(s, m0, s1) && StepsTo(s1, m1, s2)
    ensures CarefulRun(s, moves) && CanRun(s, moves) && Run(s, moves) == s2
    ensures forall m :: m in moves ==> m in {m0, m1}
  {
    RunCons(s1, m1, s2, []);
    RunCons(s, m0, s1, [m1] + []);
    moves := [m0] + ([m1] + []);
  }

  lemma {:induction false} RunAppend(s: State, a: seq<Move>, b: seq<Move>)
    requires CarefulRun(s, a) && CanRun(s, a) && CarefulRun(Run(s, a), b) && CanRun(Run(s, a), b)
    ensures CarefulRun(s, a + b) && CanRun(s, a + b) && Run(s, a + b) == Run(Run(s, a), b)
    ensures forall m :: m in a + b ==> m in a || m in b
    decreases |a|
  {
    if a == [] {
      assert a + b == b;
    } else {
      RunAppend(Next(s, a[0]), a[1..], b);
      assert (a + b)[1..] == a[1..] + b;
    }
  }

  lemma TakeFreeLock(s: State, t: Tid, lk: LockId, name: string)
    requires PcOf(s, t) == Loaded(Try, name, lk) && LockOf(s, lk) == FRESH
    ensures StepsTo(s, Move(t, TakeMutex),
                    s.(locks := s.locks[lk := Lock(true, "", false)], pcs := s.pcs[t := Acquired(name, lk)]))
  {
  }

  lemma NameTakenLock(s: State, t: Tid, lk: LockId, name: string)
    requires PcOf(s, t) == Acquired(name, lk) && LockOf(s, lk) == Lock(true, "", false)
    ensures StepsTo(s, Move(t, WriteIdent),
                    s.(locks := s.locks[lk := Lock(true, name, false)], pcs := s.pcs[t := Named(name, lk)]))
  {
  }

  lemma MarkNamedLock(s: State, t: Tid, lk: LockId, name: string)
    requires PcOf(s, t) == Named(name, lk) && LockOf(s, lk) == Lock(true, name, false)
    ensures StepsTo(s, Move(t, StoreFlag),
                    s.(locks := s.locks[lk := Lock(true, name, true)], pcs := s.pcs[t := Idle],
                       holds := s.holds + {Hold(t, name, lk)}))
  {
  }

  lemma LoadNewLock(s: State, t: Tid, key: Key, name: string)
    requires PcOf(s, t).Idle? && key !in s.muxes
    ensures var lk := LockId(key, s.next);
            StepsTo(s, Move(t, CallAcquire(Try, key, name)),
                    State(s.muxes[key := lk], s.locks[lk := FRESH], s.next + 1,
                          s.pcs[t := Loaded(Try, name, lk)], s.holds, s.crashed))
  {
  }

  lemma LoadAndTake(s: State, t: Tid, key: Key, name: string, lk: LockId, s2: State) returns (moves: seq<Move>)
    requires PcOf(s, t).Idle? && key !in s.muxes && lk == LockId(key, s.next)
    requires s2 == State(s.muxes[key := lk], s.locks[lk := Lock(true, "", false)], s.next + 1,
                         s.pcs[t := Acquired(name, lk)], s.holds, s.crashed)
    ensures CarefulRun(s, moves) && CanRun(s, moves) && Run(s, moves) == s2
    ensures forall m :: m in moves ==> Acquiring(m.a)
  {
    var s1 := State(s.muxes[key := lk], s.locks[lk := FRESH], s.next + 1,
                    s.pcs[t := Loaded(Try, name, lk)], s.holds, s.crashed);
    LoadNewLock(s, t, key, name);
    TakeFreeLock(s1, t, lk, name);
    assert s2 == s1.(locks := s1.locks[lk := Lock(true, "", false)], pcs := s1.pcs[t := Acquired(name, lk)]);
    moves := RunTwo(s, Move(t, CallAcquire(Try, key, name)), s1, Move(t, TakeMutex), s2);
  }

  function Marked(s: State, t: Tid, lk: LockId, name: string): State {
    s.(locks := s.locks[lk := Lock(true, name, true)], pcs := s.pcs[t := Idle], holds := s.holds + {Hold(t, name, lk)})
  }

  lemma NameAndMark(s: State, t: Tid, lk: LockId, name: string) returns (moves: seq<Move>)
    requires PcOf(s, t) == Acquired(name, lk) && LockOf(s, lk) == Lock(true, "", false)
    ensures CarefulRun(s, moves) && CanRun(s, moves) && Run(s, moves) == Marked(s, t, lk, name)
    ensures forall m :: m in moves ==> Acquiring(m.a)
  {
    var s1 := s.(locks := s.locks[lk := Lock(true, name, false)], pcs := s.pcs[t := Named(name, lk)]);
    NameTakenLock(s, t, lk, name);
    MarkNamedLock(s1, t, lk, name);
    assert Marked(s, t, lk, name) == Marked(s1, t, lk, name);
    moves := RunTwo(s, Move(t, WriteIdent), s1, Move(t, StoreFlag), Marked(s, t, lk, name));
  }

  lemma JoinRuns(s: State, a: seq<Move>, s1: State, b: seq<Move>, s2: State) returns (moves: seq<Move>)
    requires CarefulRun(s, a) && CanRun(s, a) && Run(s, a) == s1
    requires CarefulRun(s1, b) && CanRun(s1, b) && Run(s1, b) == s2
    requires forall m :: m in a || m in b ==> Acquiring(m.a)
    ensures CarefulRun(s, moves) && CanRun(s, moves) && Run(s, moves) == s2
    ensures forall m :: m in moves ==> Acquiring(m.a)
  {
    RunAppend(s, a, b);
    moves := a + b;
  }

  lemma AcquireNewLock(s: State, t: Tid, key: Key, name: string) returns (moves: seq<Move>)
    requires PcOf(s, t).Idle? && key !in s.muxes
    ensures CarefulRun(s, moves) && CanRun(s, moves) && Run(s, moves) == WithNewLock(s, t, key, name)
    ensures forall m :: m in moves ==> Acquiring(m.a)
  {
    var lk := LockId(key, s.next);
    var s2 := State(s.muxes[key := lk], s.locks[lk := Lock(true, "", false)], s.next + 1,
                    s.pcs[t := Acquired(name, lk)], s.holds, s.crashed);
    assert Marked(s2, t, lk, name) == WithNewLock(s, t, key, name);
    var a := LoadAndTake(s, t, key, name, lk, s2);
    var b := NameAndMark(s2, t, lk, name);
    moves := JoinRuns(s, a, s2, b, WithNewLock(s, t, key, name));
  }

  /** One concrete case: a client holds "k", somebody calls Delete("k"), and from
      there two clients can hold "k" although each unlocks only what it holds. */
  lemma DeleteWhileHeldBreaks()
    ensures exists moves :: CarefulRun(INIT, moves) && CanRun(INIT, moves)
                            && (exists h :: h in Run(INIT, moves).holds && h.lk.key == "k")
                            && CanBreak(Remove(Run(INIT, moves), "k"))
  {
    var moves := AcquireNewLock(INIT, 0, "k", "worker");
    CarefulRunKeeps(INIT, moves);
    var s := Run(INIT, moves);
    assert Hold(0, "worker", LockId("k", 0)) in s.holds;
    RemovalSafeIffQuiescent(s, "k");
  }
}
