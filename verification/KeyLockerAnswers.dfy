/** What LockedBy tells (ci/runners/garm/locking/local_locker.go): it reads the
    identifier twice, from the lock object that it loaded before. */
module KeyLockerAnswers {
  import opened KeyLocker
  import opened KeyLockerExclusion

  // ---------------------------------------------------------------------
  // One state
  // ---------------------------------------------------------------------

  /** h's client holds the lock, is inside the call that will tell it so, or is
      inside the Unlock that gives it up and has not cleared the name yet. */
  predicate HoldsOrInCall(s: State, h: Hold) {
    var pc := PcOf(s, h.t);
    h in s.holds || pc == Named(h.name, h.lk) || (pc.UnlockLoaded? && pc.lk == h.lk && h in pc.gave)
  }

  /** h's client holds the lock or is about to be told so. */
  predicate HoldsOrGets(s: State, h: Hold) {
    h in s.holds || PcOf(s, h.t) == Named(h.name, h.lk)
  }

  /** What the second read of t's LockedBy call returns. */
  function Answer(s: State, t: Tid): string
    requires PcOf(s, t).ReadOnce?
  {
    LockOf(s, PcOf(s, t).lk).ident
  }

  lemma OwnerOfHold(s: State, h: Hold)
    requires ExInv(s) && HoldsOrInCall(s, h) && h.lk in s.locks
    ensures forall o :: Owns(s, o, h.lk) ==> (if o.Client? then o.h.t == h.t else o.t == h.t)
  {
    assert LockInv(s, h.lk);
    if h in s.holds {
      assert Owns(s, Client(h), h.lk);
    } else {
      assert Owns(s, Thread(h.t), h.lk);
    }
  }

  lemma HolderIsCurrent(s: State, h: Hold)
    requires ExInv(s) && HoldsOrGets(s, h)
    ensures h.lk in s.locks && Current(s, h.lk) && LockOf(s, h.lk).ident == h.name
  {
    if h in s.holds {
      assert Owns(s, Client(h), h.lk) && OwnerOk(s, Client(h), h.lk);
    } else {
      assert Mentions(PcOf(s, h.t), h.lk);
      assert Owns(s, Thread(h.t), h.lk) && OwnerOk(s, Thread(h.t), h.lk);
    }
  }

  /** A name other than "" belongs to exactly one client of the loaded lock object. */
  lemma NamesTheLoadedHolder(s: State, t: Tid)
    requires ExInv(s) && PcOf(s, t).ReadOnce? && Answer(s, t) != ""
    ensures var lk := PcOf(s, t).lk;
            && LockOf(s, lk).held
            && (exists h: Hold :: h.lk == lk && h.name == Answer(s, t) && HoldsOrInCall(s, h))
            && (forall h: Hold, g: Hold ::
                  h.lk == lk && g.lk == lk && HoldsOrInCall(s, h) && HoldsOrInCall(s, g) ==> h.t == g.t)
  {
    var lk := PcOf(s, t).lk;
    assert Mentions(PcOf(s, t), lk);
    assert LockInv(s, lk);
    var o :| Owns(s, o, lk);
    assert OwnerOk(s, o, lk);
    var h := if o.Client? then o.h else Hold(o.t, Answer(s, t), lk);
    assert h.lk == lk && h.name == Answer(s, t) && HoldsOrInCall(s, h);
    forall h: Hold, g: Hold | h.lk == lk && g.lk == lk && HoldsOrInCall(s, h) && HoldsOrInCall(s, g)
      ensures h.t == g.t
    {
      OwnerOfHold(s, h);
      OwnerOfHold(s, g);
    }
  }

  /** Main result on one answer, in every state of a careful run. A name other
      than "" is the one under which exactly one client has or had the loaded
      object; and it names the holder of the key exactly when that object is
      still what the map holds for the key. */
  lemma LockedByNamesTheHolder(moves: seq<Move>, t: Tid)
    requires CarefulRun(INIT, moves) && CanRun(INIT, moves) && PcOf(Run(INIT, moves), t).ReadOnce?
    requires Answer(Run(INIT, moves), t) != ""
    ensures var s := Run(INIT, moves);
            var lk, answer := PcOf(s, t).lk, Answer(s, t);
            && LockOf(s, lk).held
            && (exists h: Hold :: h.lk == lk && h.name == answer && HoldsOrInCall(s, h))
            && (forall h: Hold, g: Hold ::
                  h.lk == lk && g.lk == lk && HoldsOrInCall(s, h) && HoldsOrInCall(s, g) ==> h.t == g.t)
            && (forall h: Hold :: h.lk.key == lk.key && HoldsOrGets(s, h)
                                  ==> (h.lk == lk && h.name == answer <==> Current(s, lk)))
  {
    CarefulRunKeeps(INIT, moves);
    var s := Run(INIT, moves);
    NamesTheLoadedHolder(s, t);
    forall h: Hold | h.lk.key == PcOf(s, t).lk.key && HoldsOrGets(s, h)
      ensures h.lk == PcOf(s, t).lk && h.name == Answer(s, t) <==> Current(s, PcOf(s, t).lk)
    {
      HolderIsCurrent(s, h);
    }
  }

  // ---------------------------------------------------------------------
  // Runs without removal
  // ---------------------------------------------------------------------

  /** Clients unlock only what they hold, and no entry is ever removed. */
  predicate DisciplinedRun(s: State, moves: seq<Move>)
    decreases |moves|
  {
    moves == []
    || (Enabled(s, moves[0]) && Disciplined(s, moves[0]) && !IsRemoval(moves[0].a)
        && DisciplinedRun(Next(s, moves[0]), moves[1..]))
  }

  ghost predicate AllCurrent(s: State) {
    forall lk :: lk in s.locks ==> Current(s, lk)
  }

  lemma AcquiringKeepsAllCurrent(s: State, m: Move)
    requires WellFormed(s) && AllCurrent(s) && Enabled(s, m) && Acquiring(m.a)
    ensures AllCurrent(NextAcquiring(s, m))
  {
    var pc := PcOf(s, m.t);
    assert pc.Loaded? || pc.Acquired? || pc.Named? ==> Mentions(pc, pc.lk);
  }

  lemma UnlockingKeepsAllCurrent(s: State, m: Move)
    requires WellFormed(s) && AllCurrent(s) && Enabled(s, m) && Unlocking(m.a)
    ensures AllCurrent(NextUnlocking(s, m))
  {
    var pc := PcOf(s, m.t);
    assert pc.UnlockLoaded? || pc.UnlockCleared? || pc.UnlockWon? ==> Mentions(pc, pc.lk);
  }

  lemma StepKeepsAllCurrent(s: State, m: Move)
    requires WellFormed(s) && AllCurrent(s) && Enabled(s, m) && !IsRemoval(m.a)
    ensures AllCurrent(Next(s, m))
  {
    if Acquiring(m.a) {
      AcquiringKeepsAllCurrent(s, m);
    } else if Unlocking(m.a) {
      UnlockingKeepsAllCurrent(s, m);
    }
  }

  /** Without removal every lock object stays what the map holds for its key. */
  lemma {:induction false} NoRemovalKeepsCurrent(s: State, moves: seq<Move>)
    requires ExInv(s) && AllCurrent(s) && DisciplinedRun(s, moves)
    ensures CarefulRun(s, moves) && CanRun(s, moves) && ExInv(Run(s, moves)) && AllCurrent(Run(s, moves))
    decreases |moves|
  {
    if moves == [] {
    } else {
      CarefulStepKeeps(s, moves[0]);
      StepKeepsAllCurrent(s, moves[0]);
      NoRemovalKeepsCurrent(Next(s, moves[0]), moves[1..]);
    }
  }

  /** What an answer should mean: some client has the key's current lock object
      under that name, and whoever holds the key holds it so. */
  ghost predicate RightAnswer(s: State, lk: LockId, answer: string) {
    && Current(s, lk)
    && (exists h: Hold :: h.lk == lk && h.name == answer && HoldsOrInCall(s, h))
    && (forall h: Hold :: h.lk.key == lk.key && HoldsOrGets(s, h) ==> h.lk == lk && h.name == answer)
  }

  lemma CurrentMeansRight(s: State, t: Tid)
    requires ExInv(s) && PcOf(s, t).ReadOnce? && Answer(s, t) != "" && Current(s, PcOf(s, t).lk)
    ensures RightAnswer(s, PcOf(s, t).lk, Answer(s, t))
  {
    NamesTheLoadedHolder(s, t);
    forall h: Hold | h.lk.key == PcOf(s, t).lk.key && HoldsOrGets(s, h)
      ensures h.lk == PcOf(s, t).lk && h.name == Answer(s, t)
    {
      HolderIsCurrent(s, h);
    }
  }

  /** Main result without removal: every answer other than "" is right. */
  lemma RightWithoutRemoval(moves: seq<Move>, t: Tid)
    requires DisciplinedRun(INIT, moves) && CanRun(INIT, moves) && PcOf(Run(INIT, moves), t).ReadOnce?
    requires Answer(Run(INIT, moves), t) != ""
    ensures RightAnswer(Run(INIT, moves), PcOf(Run(INIT, moves), t).lk, Answer(Run(INIT, moves), t))
  {
    NoRemovalKeepsCurrent(INIT, moves);
    var s := Run(INIT, moves);
    assert Mentions(PcOf(s, t), PcOf(s, t).lk);
    CurrentMeansRight(s, t);
  }

  // ---------------------------------------------------------------------
  // Runs with removal
  // ---------------------------------------------------------------------

  predicate Reads(pc: Pc, lk: LockId) {
    (pc.Reading? || pc.ReadOnce?) && pc.lk == lk
  }

  /** Nobody reads a name from a lock object that has left the map. */
  ghost predicate ReadersFine(s: State) {
    forall t, lk :: Reads(PcOf(s, t), lk) ==> LockOf(s, lk).ident == "" || Current(s, lk)
  }

  /** The key's lock object carries no name, or no LockedBy call has loaded it. */
  ghost predicate NothingToRead(s: State, key: Key) {
    key in s.muxes ==> LockOf(s, s.muxes[key]).ident == "" || forall t :: !Reads(PcOf(s, t), s.muxes[key])
  }

  /** Careful, and an entry is removed only when there is nothing to read in it. */
  ghost predicate Tidy(s: State, m: Move)
    requires Enabled(s, m)
  {
    Careful(s, m) && (IsRemoval(m.a) ==> NothingToRead(s, RemovedKey(s, m)))
  }

  ghost predicate TidyRun(s: State, moves: seq<Move>)
    decreases |moves|
  {
    moves == [] || (Enabled(s, moves[0]) && Tidy(s, moves[0]) && TidyRun(Next(s, moves[0]), moves[1..]))
  }

  /** A step of t that leaves current locks current and names only those. */
  lemma ReadersKept(s: State, s': State, t: Tid)
    requires ReadersFine(s)
    requires forall lk :: Current(s, lk) ==> Current(s', lk)
    requires forall lk :: LockOf(s', lk).ident == LockOf(s, lk).ident || LockOf(s', lk).ident == "" || Current(s', lk)
    requires forall u :: u != t ==> PcOf(s', u) == PcOf(s, u)
    requires forall lk :: Reads(PcOf(s', t), lk) ==> Reads(PcOf(s, t), lk) || Current(s', lk)
    ensures ReadersFine(s')
  {
    forall u, lk | Reads(PcOf(s', u), lk)
      ensures LockOf(s', lk).ident == "" || Current(s', lk)
    {
      assert u != t ==> Reads(PcOf(s, u), lk);
    }
  }

  lemma EnsureKeepsReaders(s: State, key: Key)
    requires WellFormed(s) && ReadersFine(s)
    ensures ReadersFine(Ensure(s, key))
  {
    var s' := Ensure(s, key);
    forall t, lk | Reads(PcOf(s', t), lk)
      ensures LockOf(s', lk).ident == "" || Current(s', lk)
    {
      assert Reads(PcOf(s, t), lk);
      assert lk != LockId(key, s.next) ==> LockOf(s', lk) == LockOf(s, lk);
      assert LockOf(s', LockId(key, s.next)).ident == LockOf(s, LockId(key, s.next)).ident || key !in s.muxes;
      assert Current(s, lk) ==> Current(s', lk);
    }
  }

  lemma SameReaders(s: State, s': State)
    requires ReadersFine(s) && s'.pcs == s.pcs && s'.muxes == s.muxes && s'.locks == s.locks
    ensures ReadersFine(s')
  {
    forall t, lk | Reads(PcOf(s', t), lk)
      ensures LockOf(s', lk).ident == "" || Current(s', lk)
    {
      assert PcOf(s', t) == PcOf(s, t) && LockOf(s', lk) == LockOf(s, lk) && Current(s', lk) == Current(s, lk);
      assert Reads(PcOf(s, t), lk);
    }
  }

  /** A step of t that touches no lock. */
  lemma QuietKeepsReaders(s: State, t: Tid, pc: Pc)
    requires ReadersFine(s)
    requires forall lk :: Reads(pc, lk) ==> Reads(PcOf(s, t), lk) || Current(s, lk)
    ensures ReadersFine(At(s, t, pc))
  {
    ReadersKept(s, At(s, t, pc), t);
  }

  /** A step of t that changes one lock, naming it only if it is current. */
  lemma MoveKeepsReaders(s: State, t: Tid, lk: LockId, l: Lock, pc: Pc)
    requires ReadersFine(s) && !pc.Reading? && !pc.ReadOnce?
    requires l.ident == LockOf(s, lk).ident || l.ident == "" || Current(s, lk)
    ensures ReadersFine(At(SetLock(s, lk, l), t, pc))
  {
    ReadersKept(s, At(SetLock(s, lk, l), t, pc), t);
  }

  lemma AcquiringKeepsReaders(s: State, m: Move)
    requires ExInv(s) && ReadersFine(s) && Enabled(s, m) && Acquiring(m.a)
    ensures ReadersFine(NextAcquiring(s, m))
  {
    var t, pc := m.t, PcOf(s, m.t);
    match m.a
    case CallAcquire(mode, key, name) =>
      EnsureKeepsReaders(s, key);
      QuietKeepsReaders(Ensure(s, key), t, Loaded(mode, name, Ensure(s, key).muxes[key]));
    case Retry =>
      EnsureKeepsReaders(s, pc.key);
      QuietKeepsReaders(Ensure(s, pc.key), t, Loaded(WithContext, pc.name, Ensure(s, pc.key).muxes[pc.key]));
    case TakeMutex =>
      MoveKeepsReaders(s, t, pc.lk, LockOf(s, pc.lk).(held := true), Acquired(pc.name, pc.lk));
    case FailTry => QuietKeepsReaders(s, t, if pc.mode.Try? then Idle else Waiting(pc.name, pc.lk.key));
    case WriteIdent =>
      OwnerIsCurrent(s, t);
      MoveKeepsReaders(s, t, pc.lk, LockOf(s, pc.lk).(ident := pc.name), Named(pc.name, pc.lk));
    case StoreFlag =>
      var l := LockOf(s, pc.lk).(isLocked := true);
      MoveKeepsReaders(s, t, pc.lk, l, Idle);
      SameReaders(At(SetLock(s, pc.lk, l), t, Idle), NextAcquiring(s, m));
    case GiveUp => QuietKeepsReaders(s, t, Idle);
  }

  lemma OwnerIsCurrent(s: State, t: Tid)
    requires ExInv(s) && PcOf(s, t).Acquired?
    ensures Current(s, PcOf(s, t).lk)
  {
    var lk := PcOf(s, t).lk;
    assert Mentions(PcOf(s, t), lk);
    assert Owns(s, Thread(t), lk) && OwnerOk(s, Thread(t), lk);
  }

  lemma UnlockingKeepsReaders(s: State, m: Move)
    requires ReadersFine(s) && Enabled(s, m) && Unlocking(m.a)
    ensures ReadersFine(NextUnlocking(s, m))
  {
    var t, pc := m.t, PcOf(s, m.t);
    match m.a
    case CallUnlock(key, remove) =>
      SameReaders(s, s.(holds := s.holds - HoldsOf(s, t, key)));
      if key in s.muxes {
        QuietKeepsReaders(s.(holds := s.holds - HoldsOf(s, t, key)), t,
                          UnlockLoaded(remove, s.muxes[key], HoldsOf(s, t, key)));
      }
    case ClearIdent =>
      MoveKeepsReaders(s, t, pc.lk, LockOf(s, pc.lk).(ident := ""), UnlockCleared(pc.remove, pc.lk));
    case CompareAndSwap =>
      MoveKeepsReaders(s, t, pc.lk, LockOf(s, pc.lk).(isLocked := false), UnlockWon(pc.remove, pc.lk));
      QuietKeepsReaders(s, t, AfterUnlock(pc.remove, pc.lk.key));
    case ReleaseMutex =>
      var after := AfterUnlock(pc.remove, pc.lk.key);
      MoveKeepsReaders(s, t, pc.lk, LockOf(s, pc.lk).(held := false), after);
      QuietKeepsReaders(s, t, after);
      SameReaders(At(s, t, after), At(s, t, after).(crashed := true));
  }

  lemma RemoveKeepsReaders(s: State, key: Key)
    requires ExInv(s) && ReadersFine(s) && NothingToRead(s, key)
    ensures ReadersFine(Remove(s, key))
  {
    var s' := Remove(s, key);
    forall t, lk | Reads(PcOf(s', t), lk)
      ensures LockOf(s', lk).ident == "" || Current(s', lk)
    {
      assert Reads(PcOf(s, t), lk);
    }
  }

  lemma OtherKeepsReaders(s: State, m: Move)
    requires ExInv(s) && ReadersFine(s) && Enabled(s, m) && !Acquiring(m.a) && !Unlocking(m.a) && Tidy(s, m)
    ensures ReadersFine(Next(s, m))
  {
    if IsRemoval(m.a) {
      RemoveKeepsReaders(s, RemovedKey(s, m));
      ReadersKept(Remove(s, RemovedKey(s, m)), Next(s, m), m.t);
    } else {
      ReadersKept(s, Next(s, m), m.t);
    }
  }

  lemma {:induction false} TidyRunKeeps(s: State, moves: seq<Move>)
    requires ExInv(s) && ReadersFine(s) && TidyRun(s, moves)
    ensures CarefulRun(s, moves) && CanRun(s, moves) && ExInv(Run(s, moves)) && ReadersFine(Run(s, moves))
    decreases |moves|
  {
    if moves == [] {
    } else {
      CarefulStepKeeps(s, moves[0]);
      if Acquiring(moves[0].a) {
        AcquiringKeepsReaders(s, moves[0]);
      } else if Unlocking(moves[0].a) {
        UnlockingKeepsReaders(s, moves[0]);
      } else {
        OtherKeepsReaders(s, moves[0]);
      }
      TidyRunKeeps(Next(s, moves[0]), moves[1..]);
    }
  }

  /** Main result with removal: in tidy runs every answer other than "" is right. */
  lemma RightInTidyRuns(moves: seq<Move>, t: Tid)
    requires TidyRun(INIT, moves) && CanRun(INIT, moves) && PcOf(Run(INIT, moves), t).ReadOnce?
    requires Answer(Run(INIT, moves), t) != ""
    ensures RightAnswer(Run(INIT, moves), PcOf(Run(INIT, moves), t).lk, Answer(Run(INIT, moves), t))
  {
    TidyRunKeeps(INIT, moves);
    assert Reads(PcOf(Run(INIT, moves), t), PcOf(Run(INIT, moves), t).lk);
    CurrentMeansRight(Run(INIT, moves), t);
  }

  // ---------------------------------------------------------------------
  // The provisos are needed
  // ---------------------------------------------------------------------

  /** t is about to answer with a name while h holds the key on another object. */
  predicate Misled(s: State, t: Tid, h: Hold) {
    PcOf(s, t).ReadOnce? && Answer(s, t) != "" && h in s.holds
    && h.lk.key == PcOf(s, t).lk.key && h.lk != PcOf(s, t).lk
  }

  /** Tidy steps from s can mislead a LockedBy call. */
  ghost predicate CanMislead(s: State) {
    exists moves, t, h :: TidyRun(s, moves) && CanRun(s, moves) && Misled(Run(s, moves), t, h)
  }

  lemma {:induction false} NoRemovalIsTidy(s: State, moves: seq<Move>)
    requires CarefulRun(s, moves) && forall m :: m in moves ==> !IsRemoval(m.a)
    ensures TidyRun(s, moves)
    decreases |moves|
  {
    if moves == [] {
    } else {
      NoRemovalIsTidy(Next(s, moves[0]), moves[1..]);
    }
  }

  /** A reader between its two reads, and the key's entry gone: the next client
      takes the key on a new object. */
  lemma MisleadBetweenReads(s: State, t: Tid)
    requires WellFormed(s) && PcOf(s, t).ReadOnce? && Answer(s, t) != "" && PcOf(s, t).lk.key !in s.muxes
    ensures CanMislead(s)
  {
    var key := PcOf(s, t).lk.key;
    var u := BeyondAll(s.pcs.Keys);
    var moves := AcquireNewLock(s, u, key, "");
    NoRemovalIsTidy(s, moves);
    assert Mentions(PcOf(s, t), PcOf(s, t).lk);
    assert Misled(Run(s, moves), t, Hold(u, "", LockId(key, s.next)));
  }

  lemma MisleadBeforeReads(s: State, t: Tid)
    requires WellFormed(s) && PcOf(s, t).Reading? && LockOf(s, PcOf(s, t).lk).ident != ""
    requires PcOf(s, t).lk.key !in s.muxes
    ensures CanMislead(s)
  {
    var m := Move(t, ReadIdent);
    StepWellFormed(s, m);
    MisleadBetweenReads(Next(s, m), t);
    var moves, r, h :| TidyRun(Next(s, m), moves) && CanRun(Next(s, m), moves) && Misled(Run(Next(s, m), moves), r, h);
    assert ([m] + moves)[1..] == moves;
    assert TidyRun(s, [m] + moves) && CanRun(s, [m] + moves) && Run(s, [m] + moves) == Run(Next(s, m), moves);
  }

  /** Main result on removal: taking the entry of an unused key out of the map
      can mislead a LockedBy call exactly when the object carries a name and such
      a call has loaded it. */
  lemma RemovalMisleadsIff(s: State, key: Key)
    requires ExInv(s) && ReadersFine(s) && Quiescent(s, key)
    ensures CanMislead(Remove(s, key)) <==> !NothingToRead(s, key)
  {
    var s' := Remove(s, key);
    RemoveKeeps(s, key);
    if NothingToRead(s, key) {
      RemoveKeepsReaders(s, key);
      forall moves, t, h | TidyRun(s', moves) && CanRun(s', moves)
        ensures !Misled(Run(s', moves), t, h)
      {
        TidyRunKeeps(s', moves);
        NeverMisled(Run(s', moves), t, h);
      }
    } else {
      var t :| Reads(PcOf(s, t), s.muxes[key]);
      if PcOf(s, t).Reading? {
        MisleadBeforeReads(s', t);
      } else {
        MisleadBetweenReads(s', t);
      }
    }
  }

  lemma NeverMisled(s: State, t: Tid, h: Hold)
    requires ExInv(s) && ReadersFine(s)
    ensures !Misled(s, t, h)
  {
    if Misled(s, t, h) {
      assert Reads(PcOf(s, t), PcOf(s, t).lk);
      HolderIsCurrent(s, h);
    }
  }

  /** Unlock has loaded the object and LockedBy stands between its reads. */
  function AfterReads(s: State, lk: LockId): State {
    s.(pcs := s.pcs[1 := Reading(lk)][1 := ReadOnce(lk)])
  }

  lemma ReadNamed(s: State, lk: LockId) returns (moves: seq<Move>)
    requires PcOf(s, 1).Idle? && Current(s, lk) && LockOf(s, lk).ident != ""
    ensures CarefulRun(s, moves) && CanRun(s, moves) && Run(s, moves) == AfterReads(s, lk)
  {
    var s1 := s.(pcs := s.pcs[1 := Reading(lk)]);
    assert StepsTo(s, Move(1, CallLockedBy(lk.key)), s1) && StepsTo(s1, Move(1, ReadIdent), AfterReads(s, lk));
    moves := RunTwo(s, Move(1, CallLockedBy(lk.key)), s1, Move(1, ReadIdent), AfterReads(s, lk));
  }

  lemma UnlockHeld(s: State, h: Hold)
    requires PcOf(s, h.t).Idle? && Current(s, h.lk) && s.holds == {h}
    ensures StepsTo(s, Move(h.t, CallUnlock(h.lk.key, false)),
                    s.(holds := {}, pcs := s.pcs[h.t := UnlockLoaded(false, h.lk, {h})]))
  {
    assert HoldsOf(s, h.t, h.lk.key) == {h};
  }

  function AfterUnlockAndDelete(s: State, h: Hold): State {
    s.(holds := {}, pcs := s.pcs[h.t := UnlockLoaded(false, h.lk, {h})], muxes := s.muxes - {h.lk.key})
  }

  lemma UnlockAndDelete(s: State, h: Hold) returns (moves: seq<Move>)
    requires h.t != 2 && PcOf(s, h.t).Idle? && PcOf(s, 2).Idle? && Current(s, h.lk) && s.holds == {h}
    requires forall t :: t in s.pcs ==> !s.pcs[t].Loaded? && !s.pcs[t].Acquired? && !s.pcs[t].Named?
    ensures CarefulRun(s, moves) && CanRun(s, moves) && Run(s, moves) == AfterUnlockAndDelete(s, h)
  {
    UnlockHeld(s, h);
    var s1 := s.(holds := {}, pcs := s.pcs[h.t := UnlockLoaded(false, h.lk, {h})]);
    DeleteUnused(s1, h.lk.key);
    moves := RunTwo(s, Move(h.t, CallUnlock(h.lk.key, false)), s1, Move(2, CallDelete(h.lk.key)),
                    AfterUnlockAndDelete(s, h));
  }

  /** From one client's hold: LockedBy reads once, Unlock begins, Delete runs. */
  function AfterDelete(s: State, h: Hold): State {
    AfterUnlockAndDelete(AfterReads(s, h.lk), h)
  }

  lemma DeleteUnused(s: State, key: Key)
    requires PcOf(s, 2).Idle? && s.holds == {}
    requires forall t :: t in s.pcs ==> !s.pcs[t].Loaded? && !s.pcs[t].Acquired? && !s.pcs[t].Named?
    ensures StepsTo(s, Move(2, CallDelete(key)), Remove(s, key))
  {
  }

  lemma RunThree(s: State, a: seq<Move>, s1: State, b: seq<Move>, s2: State, c: seq<Move>, s3: State)
    requires CarefulRun(s, a) && CanRun(s, a) && Run(s, a) == s1
    requires CarefulRun(s1, b) && CanRun(s1, b) && Run(s1, b) == s2
    requires CarefulRun(s2, c) && CanRun(s2, c) && Run(s2, c) == s3
    ensures CarefulRun(s, a + (b + c)) && CanRun(s, a + (b + c)) && Run(s, a + (b + c)) == s3
  {
    RunAppend(s1, b, c);
    RunAppend(s, a, b + c);
  }

  lemma StaleRun(s1: State, s2: State, s3: State, h: Hold) returns (moves: seq<Move>)
    requires h == Hold(0, "a", LockId("k", 0))
    requires s1 == WithNewLock(INIT, 0, "k", "a") && s2 == AfterDelete(s1, h) && s3 == WithNewLock(s2, 3, "k", "b")
    ensures CarefulRun(INIT, moves) && CanRun(INIT, moves) && Run(INIT, moves) == s3
  {
    var first := AcquireNewLock(INIT, 0, "k", "a");
    var asked := ReadNamed(s1, h.lk);
    var removed := UnlockAndDelete(AfterReads(s1, h.lk), h);
    RunAppend(s1, asked, removed);
    var last := AcquireNewLock(s2, 3, "k", "b");
    RunThree(INIT, first, s1, asked + removed, s2, last, s3);
    moves := first + ((asked + removed) + last);
  }

  /** One concrete careful run. Client 0 holds "k" as "a", thread 1 calls LockedBy,
      client 0 calls Unlock, thread 2 calls Delete, client 3 takes "k" as "b"; the
      second read of thread 1 still says "a". */
  lemma StaleAnswer()
    ensures exists moves ::
              && CarefulRun(INIT, moves) && CanRun(INIT, moves)
              && Run(INIT, moves).holds == {Hold(3, "b", LockId("k", 1))}
              && PcOf(Run(INIT, moves), 1).ReadOnce? && Answer(Run(INIT, moves), 1) == "a"
  {
    var h := Hold(0, "a", LockId("k", 0));
    var s1 := WithNewLock(INIT, 0, "k", "a");
    var s2 := AfterDelete(s1, h);
    var s3 := WithNewLock(s2, 3, "k", "b");
    assert s3.holds == {Hold(3, "b", LockId("k", 1))};
    assert PcOf(s3, 1) == ReadOnce(h.lk) && LockOf(s3, h.lk).ident == "a";
    var moves := StaleRun(s1, s2, s3, h);
  }
}
