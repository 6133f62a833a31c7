/** The key locker of ci/runners/garm/locking/local_locker.go as a state machine:
    one step per atomic instruction, any number of threads, any interleaving.
    The plain field `ident` is read and written in one step each. */
module KeyLocker {
  import opened Wrappers

  type Key = string
  type Tid = nat

  /** A lock object: made for `key` by the serial-th LoadOrStore that stored. */
  datatype LockId = LockId(key: Key, serial: nat)

  /** lockWithIdent: the mutex, the identifier and the atomic flag. */
  datatype Lock = Lock(held: bool, ident: string, isLocked: bool)

  const FRESH := Lock(false, "", false)

  datatype Mode = Try | Block | WithContext

  /** Where a thread is inside a call of the locker. */
  datatype Pc =
    | Idle
    | Loaded(mode: Mode, name: string, lk: LockId)     // object loaded, mutex not taken
    | Acquired(name: string, lk: LockId)               // mutex taken
    | Named(name: string, lk: LockId)                  // identifier written
    | Waiting(name: string, key: Key)                  // LockWithContext between two attempts
    | UnlockLoaded(remove: bool, lk: LockId, gave: set<Hold>)  // object loaded by Unlock; holds given up
    | UnlockCleared(remove: bool, lk: LockId)          // identifier cleared
    | UnlockWon(remove: bool, lk: LockId)              // CompareAndSwap won
    | Removing(key: Key)                               // Unlock(key, true) before its Delete
    | Reading(lk: LockId)                              // LockedBy before its first read
    | ReadOnce(lk: LockId)                             // LockedBy before its second read

  /** History: client t was told that it holds lk's key, as `name`, and has not
      called Unlock for that key since. */
  datatype Hold = Hold(t: Tid, name: string, lk: LockId)

  datatype State = State(
    muxes: map<Key, LockId>,
    locks: map<LockId, Lock>,
    next: nat,
    pcs: map<Tid, Pc>,
    holds: set<Hold>,
    crashed: bool)   // an unlocked sync.Mutex was unlocked

  datatype Action =
    | CallAcquire(mode: Mode, key: Key, name: string)
    | TakeMutex
    | FailTry
    | WriteIdent
    | StoreFlag
    | Retry
    | GiveUp
    | CallUnlock(key: Key, remove: bool)
    | ClearIdent
    | CompareAndSwap
    | ReleaseMutex
    | RemoveKey
    | CallDelete(key: Key)
    | CallLockedBy(key: Key)
    | ReadIdent
    | ReturnIdent

  datatype Move = Move(t: Tid, a: Action)

  const INIT := State(map[], map[], 0, map[], {}, false)

  function PcOf(s: State, t: Tid): Pc {
    if t in s.pcs then s.pcs[t] else Idle
  }

  function LockOf(s: State, lk: LockId): Lock {
    if lk in s.locks then s.locks[lk] else FRESH
  }

  function At(s: State, t: Tid, pc: Pc): State {
    s.(pcs := s.pcs[t := pc])
  }

  function SetLock(s: State, lk: LockId, l: Lock): State {
    s.(locks := s.locks[lk := l])
  }

  /** sync.Map.LoadOrStore of a fresh lock object. */
  function Ensure(s: State, key: Key): State {
    if key in s.muxes then s
    else
      var lk := LockId(key, s.next);
      s.(muxes := s.muxes[key := lk], locks := s.locks[lk := FRESH], next := s.next + 1)
  }

  function AfterUnlock(remove: bool, key: Key): Pc {
    if remove then Removing(key) else Idle
  }

  /** The state without the entry for key. */
  function Remove(s: State, key: Key): State {
    s.(muxes := s.muxes - {key})
  }

  function HoldsOf(s: State, t: Tid, key: Key): set<Hold> {
    set h | h in s.holds && h.t == t && h.lk.key == key
  }

  predicate Enabled(s: State, m: Move) {
    var pc := PcOf(s, m.t);
    match m.a
    case CallAcquire(_, _, _) => pc.Idle?
    case TakeMutex => pc.Loaded? && !LockOf(s, pc.lk).held
    case FailTry => pc.Loaded? && !pc.mode.Block?      // TryLock may also lose a race
    case WriteIdent => pc.Acquired?
    case StoreFlag => pc.Named?
    case Retry => pc.Waiting?
    case GiveUp => pc.Waiting?
    case CallUnlock(_, _) => pc.Idle?
    case ClearIdent => pc.UnlockLoaded?
    case CompareAndSwap => pc.UnlockCleared?
    case ReleaseMutex => pc.UnlockWon?
    case RemoveKey => pc.Removing?
    case CallDelete(_) => pc.Idle?
    case CallLockedBy(_) => pc.Idle?
    case ReadIdent => pc.Reading?
    case ReturnIdent => pc.ReadOnce?
  }

  /** The steps of TryLock, Lock and LockWithContext. */
  predicate Acquiring(a: Action) {
    a.CallAcquire? || a.Retry? || a.TakeMutex? || a.FailTry? || a.WriteIdent? || a.StoreFlag? || a.GiveUp?
  }

  /** The steps of Unlock before its Delete. */
  predicate Unlocking(a: Action) {
    a.CallUnlock? || a.ClearIdent? || a.CompareAndSwap? || a.ReleaseMutex?
  }

  function NextAcquiring(s: State, m: Move): State
    requires Enabled(s, m) && Acquiring(m.a)
  {
    var t, pc := m.t, PcOf(s, m.t);
    match m.a
    case CallAcquire(mode, key, name) =>
      var s' := Ensure(s, key);
      At(s', t, Loaded(mode, name, s'.muxes[key]))
    case Retry =>
      var s' := Ensure(s, pc.key);
      At(s', t, Loaded(WithContext, pc.name, s'.muxes[pc.key]))
    case TakeMutex =>
      At(SetLock(s, pc.lk, LockOf(s, pc.lk).(held := true)), t, Acquired(pc.name, pc.lk))
    case FailTry =>
      At(s, t, if pc.mode.Try? then Idle else Waiting(pc.name, pc.lk.key))
    case WriteIdent =>
      At(SetLock(s, pc.lk, LockOf(s, pc.lk).(ident := pc.name)), t, Named(pc.name, pc.lk))
    case StoreFlag =>
      At(SetLock(s, pc.lk, LockOf(s, pc.lk).(isLocked := true)), t, Idle)
      .(holds := s.holds + {Hold(t, pc.name, pc.lk)})
    case GiveUp =>
      At(s, t, Idle)
  }

  function NextUnlocking(s: State, m: Move): State
    requires Enabled(s, m) && Unlocking(m.a)
  {
    var t, pc := m.t, PcOf(s, m.t);
    match m.a
    case CallUnlock(key, remove) =>
      var s' := s.(holds := s.holds - HoldsOf(s, t, key));
      if key in s.muxes then At(s', t, UnlockLoaded(remove, s.muxes[key], HoldsOf(s, t, key))) else s'
    case ClearIdent =>
      At(SetLock(s, pc.lk, LockOf(s, pc.lk).(ident := "")), t, UnlockCleared(pc.remove, pc.lk))
    case CompareAndSwap =>
      if LockOf(s, pc.lk).isLocked then
        At(SetLock(s, pc.lk, LockOf(s, pc.lk).(isLocked := false)), t, UnlockWon(pc.remove, pc.lk))
      else
        At(s, t, AfterUnlock(pc.remove, pc.lk.key))
    case ReleaseMutex =>
      var after := AfterUnlock(pc.remove, pc.lk.key);
      if LockOf(s, pc.lk).held then At(SetLock(s, pc.lk, LockOf(s, pc.lk).(held := false)), t, after)
      else At(s, t, after).(crashed := true)
  }

  /** Delete, the tail of Unlock(key, true), and LockedBy. */
  function NextOther(s: State, m: Move): State
    requires Enabled(s, m) && !Acquiring(m.a) && !Unlocking(m.a)
  {
    var t, pc := m.t, PcOf(s, m.t);
    match m.a
    case RemoveKey =>
      At(Remove(s, pc.key), t, Idle)
    case CallDelete(key) =>
      Remove(s, key)
    case CallLockedBy(key) =>
      if key in s.muxes then At(s, t, Reading(s.muxes[key])) else s
    case ReadIdent =>
      At(s, t, if LockOf(s, pc.lk).ident == "" then Idle else ReadOnce(pc.lk))
    case ReturnIdent =>
      At(s, t, Idle)
  }

  function Next(s: State, m: Move): State
    requires Enabled(s, m)
  {
    if Acquiring(m.a) then NextAcquiring(s, m)
    else if Unlocking(m.a) then NextUnlocking(s, m)
    else NextOther(s, m)
  }

  predicate CanRun(s: State, moves: seq<Move>)
    decreases |moves|
  {
    moves == [] || (Enabled(s, moves[0]) && CanRun(Next(s, moves[0]), moves[1..]))
  }

  function Run(s: State, moves: seq<Move>): State
    requires CanRun(s, moves)
    decreases |moves|
  {
    if moves == [] then s else Run(Next(s, moves[0]), moves[1..])
  }

  // ---------------------------------------------------------------------
  // Lock objects in use
  // ---------------------------------------------------------------------

  predicate Mentions(pc: Pc, lk: LockId) {
    (pc.Loaded? || pc.Acquired? || pc.Named? || pc.UnlockLoaded? || pc.UnlockCleared? || pc.UnlockWon?
     || pc.Reading? || pc.ReadOnce?) && pc.lk == lk
  }

  ghost predicate WellFormed(s: State) {
    && (forall lk :: lk in s.locks ==> lk.serial < s.next)
    && (forall k :: k in s.muxes ==> s.muxes[k] in s.locks && s.muxes[k].key == k)
    && (forall t, lk :: t in s.pcs && Mentions(s.pcs[t], lk) ==> lk in s.locks)
    && (forall h :: h in s.holds ==> h.lk in s.locks)
  }

  lemma EnsureWellFormed(s: State, key: Key)
    requires WellFormed(s)
    ensures WellFormed(Ensure(s, key))
    ensures key in Ensure(s, key).muxes && Ensure(s, key).muxes[key].key == key
    ensures key !in s.muxes ==> Ensure(s, key).muxes[key] !in s.locks
  {
  }

  lemma AtWellFormed(s: State, t: Tid, pc: Pc)
    requires WellFormed(s)
    requires forall lk :: Mentions(pc, lk) ==> lk in s.locks
    ensures WellFormed(At(s, t, pc))
  {
  }

  lemma SetLockWellFormed(s: State, lk: LockId, l: Lock)
    requires WellFormed(s) && lk in s.locks
    ensures WellFormed(SetLock(s, lk, l))
  {
  }

  lemma LockInUse(s: State, t: Tid)
    requires WellFormed(s)
    ensures forall lk :: Mentions(PcOf(s, t), lk) ==> lk in s.locks
  {
  }

  lemma AcquiringWellFormed(s: State, m: Move)
    requires WellFormed(s) && Enabled(s, m) && Acquiring(m.a)
    ensures WellFormed(NextAcquiring(s, m))
  {
    var t, pc := m.t, PcOf(s, m.t);
    LockInUse(s, t);
    match m.a
    case CallAcquire(mode, key, name) =>
      EnsureWellFormed(s, key);
      AtWellFormed(Ensure(s, key), t, Loaded(mode, name, Ensure(s, key).muxes[key]));
    case Retry =>
      EnsureWellFormed(s, pc.key);
      AtWellFormed(Ensure(s, pc.key), t, Loaded(WithContext, pc.name, Ensure(s, pc.key).muxes[pc.key]));
    case TakeMutex =>
      assert Mentions(pc, pc.lk);
      SetLockWellFormed(s, pc.lk, LockOf(s, pc.lk).(held := true));
      AtWellFormed(SetLock(s, pc.lk, LockOf(s, pc.lk).(held := true)), t, Acquired(pc.name, pc.lk));
    case FailTry =>
      AtWellFormed(s, t, if pc.mode.Try? then Idle else Waiting(pc.name, pc.lk.key));
    case WriteIdent =>
      assert Mentions(pc, pc.lk);
      SetLockWellFormed(s, pc.lk, LockOf(s, pc.lk).(ident := pc.name));
      AtWellFormed(SetLock(s, pc.lk, LockOf(s, pc.lk).(ident := pc.name)), t, Named(pc.name, pc.lk));
    case StoreFlag =>
      assert Mentions(pc, pc.lk);
      SetLockWellFormed(s, pc.lk, LockOf(s, pc.lk).(isLocked := true));
      AtWellFormed(SetLock(s, pc.lk, LockOf(s, pc.lk).(isLocked := true)), t, Idle);
    case GiveUp =>
      AtWellFormed(s, t, Idle);
  }

  lemma UnlockingWellFormed(s: State, m: Move)
    requires WellFormed(s) && Enabled(s, m) && Unlocking(m.a)
    ensures WellFormed(NextUnlocking(s, m))
  {
    var t, pc := m.t, PcOf(s, m.t);
    LockInUse(s, t);
    match m.a
    case CallUnlock(key, remove) =>
      if key in s.muxes { AtWellFormed(s, t, UnlockLoaded(remove, s.muxes[key], HoldsOf(s, t, key))); }
    case ClearIdent =>
      assert Mentions(pc, pc.lk);
      SetLockWellFormed(s, pc.lk, LockOf(s, pc.lk).(ident := ""));
      AtWellFormed(SetLock(s, pc.lk, LockOf(s, pc.lk).(ident := "")), t, UnlockCleared(pc.remove, pc.lk));
    case CompareAndSwap =>
      assert Mentions(pc, pc.lk);
      SetLockWellFormed(s, pc.lk, LockOf(s, pc.lk).(isLocked := false));
      AtWellFormed(SetLock(s, pc.lk, LockOf(s, pc.lk).(isLocked := false)), t, UnlockWon(pc.remove, pc.lk));
      AtWellFormed(s, t, AfterUnlock(pc.remove, pc.lk.key));
    case ReleaseMutex =>
      assert Mentions(pc, pc.lk);
      AtWellFormed(s, t, AfterUnlock(pc.remove, pc.lk.key));
      SetLockWellFormed(s, pc.lk, LockOf(s, pc.lk).(held := false));
      AtWellFormed(SetLock(s, pc.lk, LockOf(s, pc.lk).(held := false)), t, AfterUnlock(pc.remove, pc.lk.key));
  }

  lemma OtherWellFormed(s: State, m: Move)
    requires WellFormed(s) && Enabled(s, m) && !Acquiring(m.a) && !Unlocking(m.a)
    ensures WellFormed(NextOther(s, m))
  {
  }

  lemma StepWellFormed(s: State, m: Move)
    requires WellFormed(s) && Enabled(s, m)
    ensures WellFormed(Next(s, m))
  {
    if Acquiring(m.a) {
      AcquiringWellFormed(s, m);
    } else if Unlocking(m.a) {
      UnlockingWellFormed(s, m);
    } else {
      OtherWellFormed(s, m);
    }
  }

  // ---------------------------------------------------------------------
  // Token conservation
  // ---------------------------------------------------------------------

  /** The three windows in which a thread, not the flag, carries the token. */
  predicate Carries(pc: Pc, lk: LockId) {
    (pc.Acquired? || pc.Named? || pc.UnlockWon?) && pc.lk == lk
  }

  function TokenThreads(pcs: map<Tid, Pc>, lk: LockId): set<Tid> {
    set t | t in pcs && Carries(pcs[t], lk)
  }

  /** A mutex is held exactly when there is one token for it, and otherwise there
      is none: a thread in one of the windows, or the flag. */
  ghost predicate Conserved(s: State) {
    forall lk :: lk in s.locks ==>
      |TokenThreads(s.pcs, lk)| + One(s.locks[lk].isLocked) == One(s.locks[lk].held)
  }

  lemma TokenCount(pcs: map<Tid, Pc>, t: Tid, pc: Pc, lk: LockId)
    ensures |TokenThreads(pcs[t := pc], lk)|
            == |TokenThreads(pcs, lk)| - One(t in pcs && Carries(pcs[t], lk)) + One(Carries(pc, lk))
  {
    var before, after := TokenThreads(pcs, lk), TokenThreads(pcs[t := pc], lk);
    if Carries(pc, lk) {
      assert after == before + {t};
    } else {
      assert after == before - {t};
    }
  }

  /** Thread t moves on to pc and lock lk0 becomes l: the books balance if the
      changes at lk0 do and pc carries no other lock's token. */
  lemma MoveConserves(s: State, t: Tid, pc: Pc, lk0: LockId, l: Lock)
    requires WellFormed(s) && Conserved(s) && lk0 in s.locks
    requires forall lk :: lk != lk0 ==> Carries(PcOf(s, t), lk) == Carries(pc, lk)
    requires One(l.held) - One(l.isLocked) - One(Carries(pc, lk0))
             == One(s.locks[lk0].held) - One(s.locks[lk0].isLocked) - One(Carries(PcOf(s, t), lk0))
    ensures Conserved(At(SetLock(s, lk0, l), t, pc))
  {
    forall lk | lk in s.locks
      ensures |TokenThreads(s.pcs[t := pc], lk)|
              == |TokenThreads(s.pcs, lk)| - One(Carries(PcOf(s, t), lk)) + One(Carries(pc, lk))
    {
      TokenCount(s.pcs, t, pc, lk);
    }
  }

  lemma EnsureConserves(s: State, key: Key)
    requires WellFormed(s) && Conserved(s)
    ensures Conserved(Ensure(s, key))
  {
  }

  /** A step of t that touches no lock. */
  lemma QuietConserves(s: State, t: Tid, pc: Pc)
    requires WellFormed(s) && Conserved(s)
    requires forall lk :: !Carries(PcOf(s, t), lk) && !Carries(pc, lk)
    ensures Conserved(At(s, t, pc))
  {
    forall lk | lk in s.locks
      ensures |TokenThreads(s.pcs[t := pc], lk)| == |TokenThreads(s.pcs, lk)|
    {
      TokenCount(s.pcs, t, pc, lk);
    }
  }

  /** Who carries the token of a lock shows that its mutex is held. */
  lemma CarrierMeansHeld(s: State, t: Tid, lk: LockId)
    requires Conserved(s) && lk in s.locks && Carries(PcOf(s, t), lk)
    ensures s.locks[lk].held && !s.locks[lk].isLocked
  {
    assert t in TokenThreads(s.pcs, lk);
    assert |TokenThreads(s.pcs, lk)| > 0;
  }

  lemma AcquiringConserves(s: State, m: Move)
    requires WellFormed(s) && Conserved(s) && !s.crashed && Enabled(s, m) && Acquiring(m.a)
    ensures Conserved(NextAcquiring(s, m)) && !NextAcquiring(s, m).crashed
  {
    var t, pc := m.t, PcOf(s, m.t);
    LockInUse(s, t);
    match m.a
    case CallAcquire(mode, key, name) =>
      EnsureWellFormed(s, key);
      EnsureConserves(s, key);
      QuietConserves(Ensure(s, key), t, Loaded(mode, name, Ensure(s, key).muxes[key]));
    case Retry =>
      EnsureWellFormed(s, pc.key);
      EnsureConserves(s, pc.key);
      QuietConserves(Ensure(s, pc.key), t, Loaded(WithContext, pc.name, Ensure(s, pc.key).muxes[pc.key]));
    case TakeMutex =>
      assert Mentions(pc, pc.lk);
      MoveConserves(s, t, Acquired(pc.name, pc.lk), pc.lk, LockOf(s, pc.lk).(held := true));
    case FailTry =>
      QuietConserves(s, t, if pc.mode.Try? then Idle else Waiting(pc.name, pc.lk.key));
    case WriteIdent =>
      assert Mentions(pc, pc.lk);
      MoveConserves(s, t, Named(pc.name, pc.lk), pc.lk, LockOf(s, pc.lk).(ident := pc.name));
    case StoreFlag =>
      assert Mentions(pc, pc.lk);
      CarrierMeansHeld(s, t, pc.lk);
      MoveConserves(s, t, Idle, pc.lk, LockOf(s, pc.lk).(isLocked := true));
    case GiveUp =>
      QuietConserves(s, t, Idle);
  }

  lemma UnlockingConserves(s: State, m: Move)
    requires WellFormed(s) && Conserved(s) && !s.crashed && Enabled(s, m) && Unlocking(m.a)
    ensures Conserved(NextUnlocking(s, m)) && !NextUnlocking(s, m).crashed
  {
    var t, pc := m.t, PcOf(s, m.t);
    LockInUse(s, t);
    match m.a
    case CallUnlock(key, remove) =>
      if key in s.muxes { QuietConserves(s, t, UnlockLoaded(remove, s.muxes[key], HoldsOf(s, t, key))); }
    case ClearIdent =>
      assert Mentions(pc, pc.lk);
      MoveConserves(s, t, UnlockCleared(pc.remove, pc.lk), pc.lk, LockOf(s, pc.lk).(ident := ""));
    case CompareAndSwap =>
      assert Mentions(pc, pc.lk);
      if LockOf(s, pc.lk).isLocked {
        MoveConserves(s, t, UnlockWon(pc.remove, pc.lk), pc.lk, LockOf(s, pc.lk).(isLocked := false));
      } else {
        QuietConserves(s, t, AfterUnlock(pc.remove, pc.lk.key));
      }
    case ReleaseMutex =>
      assert Mentions(pc, pc.lk);
      CarrierMeansHeld(s, t, pc.lk);
      MoveConserves(s, t, AfterUnlock(pc.remove, pc.lk.key), pc.lk, LockOf(s, pc.lk).(held := false));
  }

  lemma OtherConserves(s: State, m: Move)
    requires WellFormed(s) && Conserved(s) && !s.crashed && Enabled(s, m) && !Acquiring(m.a) && !Unlocking(m.a)
    ensures Conserved(NextOther(s, m)) && !NextOther(s, m).crashed
  {
    var t, pc := m.t, PcOf(s, m.t);
    LockInUse(s, t);
    match m.a
    case RemoveKey =>
      QuietConserves(s, t, Idle);
    case CallDelete(key) =>
    case CallLockedBy(key) =>
      if key in s.muxes { QuietConserves(s, t, Reading(s.muxes[key])); }
    case ReadIdent =>
      QuietConserves(s, t, if LockOf(s, pc.lk).ident == "" then Idle else ReadOnce(pc.lk));
    case ReturnIdent =>
      QuietConserves(s, t, Idle);
  }

  lemma StepConserves(s: State, m: Move)
    requires WellFormed(s) && Conserved(s) && !s.crashed && Enabled(s, m)
    ensures Conserved(Next(s, m)) && !Next(s, m).crashed
  {
    if Acquiring(m.a) {
      AcquiringConserves(s, m);
    } else if Unlocking(m.a) {
      UnlockingConserves(s, m);
    } else {
      OtherConserves(s, m);
    }
  }

  /** Main result: whatever the calls and the interleaving, every mutex is held
      exactly when its single token exists, and no unlocked mutex is unlocked. */
  lemma {:induction false} TokensConservedFrom(s: State, moves: seq<Move>)
    requires WellFormed(s) && Conserved(s) && !s.crashed && CanRun(s, moves)
    ensures WellFormed(Run(s, moves)) && Conserved(Run(s, moves)) && !Run(s, moves).crashed
    decreases |moves|
  {
    if moves == [] {
    } else {
      StepWellFormed(s, moves[0]);
      StepConserves(s, moves[0]);
      TokensConservedFrom(Next(s, moves[0]), moves[1..]);
    }
  }

  lemma TokensConserved(moves: seq<Move>)
    requires CanRun(INIT, moves)
    ensures Conserved(Run(INIT, moves)) && !Run(INIT, moves).crashed
  {
    TokensConservedFrom(INIT, moves);
  }
}
