/**
  The three-state mutex over a futex, as a step protocol.  Any number of
  threads run the lock, try-lock and unlock calls; every compare-and-swap,
  fetch-and-add, store, plain read and futex call is one atomic step, and the
  steps interleave freely.  Unlocking is left to the holder, as the API demands.
*/
module Mutex {
  import opened Digits
  import opened Futex

  const UNLOCKED: Word := 0
  const LOCKED: Word := 1
  const LOCKED_WAIT: Word := 2

  /** What a finished call returned. */
  datatype Return = Ok | NotInitialized | UnauthorizedAction | FutexError

  /** Where a thread is in its call. */
  datatype Pc =
    | Idle(ret: Return)
    | LockCheck              // mutex_lock: read the state, check it is initialized
    | LockFast               // CAS unlocked -> locked
    | LoopTop(seen: Word)    // head of the retry loop, with the last state seen
    | WaitCall               // about to call futex_wait
    | Parked
    | Retry                  // CAS unlocked -> locked-wait
    | TryCheck               // mutex_trylock: read the state
    | TryFast                // CAS unlocked -> locked
    | Holding
    | HeldTryCheck           // mutex_trylock by the holder: read the state
    | HeldTryFast            // its CAS, which is refused
    | UnlockCheck            // mutex_unlock: read the state
    | UnlockSub              // fetch-and-add -1
    | UnlockStore            // store unlocked
    | UnlockWake             // about to call futex_wake

  /** The word, the threads, the wait queue and its table entry, and how often a thread has parked. */
  datatype State = State(word: Word, pc: map<Tid, Pc>, waiters: seq<Waiter>, entry: Entry, parks: nat)

  /** What can happen next: an idle thread or the holder makes a call, or a thread takes a step. */
  datatype Event = CallLock(t: Tid) | CallTryLock(t: Tid) | CallUnlock(t: Tid) | Run(t: Tid)

  predicate Initialized(word: Word) {
    word == UNLOCKED || word == LOCKED || word == LOCKED_WAIT
  }

  predicate Enabled(s: State, e: Event) {
    e.t in s.pc && !s.entry.panicked &&
    match e
    case CallLock(t) => s.pc[t].Idle?
    case CallTryLock(t) => s.pc[t].Idle? || s.pc[t].Holding?
    case CallUnlock(t) => s.pc[t].Holding?
    case Run(t) => !s.pc[t].Idle? && !s.pc[t].Parked? && !s.pc[t].Holding?
  }

  function Goto(s: State, t: Tid, pc: Pc): State {
    s.(pc := s.pc[t := pc])
  }

  function SetWord(s: State, word: Word): State {
    s.(word := word)
  }

  /** The word after ATOMIC_CAS(&word, expected, desired); the call returns the old word. */
  function Cas(word: Word, expected: Word, desired: Word): Word {
    if word == expected then desired else word
  }

  /** futex_wait(&word, LOCKED_WAIT). */
  function FutexWait(s: State, t: Tid): State {
    if s.word == LOCKED_WAIT
    then Goto(s, t, Parked).(waiters := [Waiter(t, LOCKED_WAIT)] + s.waiters, entry := AfterWait(s.entry),
         parks := s.parks + 1)
    else Goto(s, t, Retry)
  }

  function WakeAll(pc: map<Tid, Pc>, woken: seq<Tid>): map<Tid, Pc>
    decreases |woken|
  {
    if woken == [] then pc else WakeAll(pc[woken[0] := Retry], woken[1..])
  }

  /** futex_wake(&word, 1); without a table entry for the word it fails and wakes nobody. */
  function FutexWake(s: State, t: Tid): State {
    if !s.entry.created then Goto(s, t, Idle(FutexError))
    else
      var woken, left := Woken(s.waiters, s.word, 1), Left(s.waiters, s.word, 1);
      s.(pc := WakeAll(s.pc[t := Idle(Ok)], woken), waiters := left,
        entry := AfterWake(s.entry, woken != [], left == []))
  }

  function RunStep(s: State, t: Tid): State
    requires Enabled(s, Run(t))
  {
    match s.pc[t]
    case LockCheck =>
      Goto(s, t, if Initialized(s.word) then LockFast else Idle(NotInitialized))
    case LockFast =>
      Goto(SetWord(s, Cas(s.word, UNLOCKED, LOCKED)), t,
           if s.word == UNLOCKED then Holding else LoopTop(s.word))
    case LoopTop(seen) =>
      if seen == LOCKED_WAIT then Goto(s, t, WaitCall)
      else Goto(SetWord(s, Cas(s.word, LOCKED, LOCKED_WAIT)), t,
                if s.word != UNLOCKED then WaitCall else Retry)
    case WaitCall =>
      FutexWait(s, t)
    case Retry =>
      Goto(SetWord(s, Cas(s.word, UNLOCKED, LOCKED_WAIT)), t,
           if s.word == UNLOCKED then Holding
           else if Initialized(s.word) then LoopTop(s.word) else Idle(NotInitialized))
    case TryCheck =>
      Goto(s, t, if Initialized(s.word) then TryFast else Idle(NotInitialized))
    case TryFast =>
      Goto(SetWord(s, Cas(s.word, UNLOCKED, LOCKED)), t,
           if s.word == UNLOCKED then Holding else Idle(UnauthorizedAction))
    case HeldTryCheck =>
      Goto(s, t, if Initialized(s.word) then HeldTryFast else Holding)
    case HeldTryFast =>
      Goto(SetWord(s, Cas(s.word, UNLOCKED, LOCKED)), t, Holding)
    case UnlockCheck =>
      Goto(s, t, if Initialized(s.word) then UnlockSub else Idle(NotInitialized))
    case UnlockSub =>
      Goto(SetWord(s, if s.word == -0x8000_0000 then 0x7FFF_FFFF else s.word - 1), t,
           if s.word != LOCKED then UnlockStore else Idle(Ok))
    case UnlockStore =>
      Goto(SetWord(s, UNLOCKED), t, UnlockWake)
    case UnlockWake =>
      FutexWake(s, t)
  }

  function Step(s: State, e: Event): State
    requires Enabled(s, e)
  {
    match e
    case CallLock(t) => Goto(s, t, LockCheck)
    case CallTryLock(t) => Goto(s, t, if s.pc[t].Holding? then HeldTryCheck else TryCheck)
    case CallUnlock(t) => Goto(s, t, UnlockCheck)
    case Run(t) => RunStep(s, t)
  }

  /** A run: every event is enabled when its turn comes. */
  ghost predicate IsRun(s: State, es: seq<Event>, s': State)
    decreases |es|
  {
    if es == [] then s == s' else Enabled(s, es[0]) && IsRun(Step(s, es[0]), es[1..], s')
  }

  /** mutex_init, with any set of threads, none of which has made a call. */
  ghost predicate Init(s: State) {
    && s.word == UNLOCKED && s.waiters == [] && s.entry == Entry(false, 0, false) && s.parks == 0
    && forall t :: t in s.pc ==> s.pc[t] == Idle(Ok)
  }

  // ----- the invariant

  /** The thread that has the mutex: it holds it, or is unlocking and has not stored 0 yet. */
  predicate Owner(pc: Pc) {
    pc.Holding? || pc.HeldTryCheck? || pc.HeldTryFast? || pc.UnlockCheck? || pc.UnlockSub? || pc.UnlockStore?
  }

  /** An unlocker between a fetch-and-add that did not return 1 and its finished wake. */
  predicate Waker(pc: Pc) {
    pc.UnlockStore? || pc.UnlockWake?
  }

  /** A thread awake inside the retry loop of mutex_lock. */
  predicate Retrying(pc: Pc) {
    pc.LoopTop? || pc.WaitCall? || pc.Retry?
  }

  ghost predicate Owned(s: State) {
    exists t :: t in s.pc && Owner(s.pc[t])
  }

  ghost predicate Attended(s: State) {
    exists t :: t in s.pc && (Waker(s.pc[t]) || Retrying(s.pc[t]))
  }

  /** At most one thread has the mutex, and the word is nonzero exactly while one does. */
  ghost predicate Exclusive(s: State) {
    && (forall t, u :: t in s.pc && u in s.pc && Owner(s.pc[t]) && Owner(s.pc[u]) ==> t == u)
    && (s.word != UNLOCKED <==> Owned(s))
  }

  /** The wait queue holds exactly the parked threads, once each. */
  ghost predicate QueueOk(s: State) {
    && (forall i :: 0 <= i < |s.waiters| ==> s.waiters[i].wait == LOCKED_WAIT)
    && (forall i, j :: 0 <= i < j < |s.waiters| ==> s.waiters[i].tid != s.waiters[j].tid)
    && (forall i :: 0 <= i < |s.waiters| ==> s.waiters[i].tid in s.pc && s.pc[s.waiters[i].tid].Parked?)
    && (forall t :: t in s.pc && s.pc[t].Parked? ==> Queued(s.waiters, t))
    && (s.waiters != [] ==> s.entry.created)
    && (s.entry.panicked ==> s.waiters != [])
  }

  /** A parked thread is never forgotten. */
  ghost predicate NoLostWakeup(s: State) {
    s.waiters != [] ==> s.word == LOCKED_WAIT || Attended(s)
  }

  ghost predicate WordsOk(s: State) {
    && Initialized(s.word)
    && forall t :: t in s.pc && s.pc[t].LoopTop? ==> s.pc[t].seen == LOCKED || s.pc[t].seen == LOCKED_WAIT
  }

  /** Below 2^32 parks the counter of the queue is right, and the queue stays. */
  ghost predicate EntryOk(s: State) {
    s.parks < 0x1_0000_0000 ==> s.entry == Entry(s.parks > 0, s.parks, false)
  }

  ghost predicate Inv(s: State) {
    WordsOk(s) && Exclusive(s) && QueueOk(s) && NoLostWakeup(s) && EntryOk(s)
  }

  lemma InitInv(s: State)
    requires Init(s)
    ensures Inv(s)
  {
  }

  /** A step that moves one thread and does not touch the queue. */
  ghost predicate MovesOnly(s: State, t: Tid, s': State) {
    && t in s.pc && t in s'.pc && s'.pc == s.pc[t := s'.pc[t]]
    && s'.waiters == s.waiters && s'.entry == s.entry && s'.parks == s.parks
    && !s.pc[t].Parked? && !s'.pc[t].Parked?
  }

  lemma MoveKeepsQueue(s: State, t: Tid, s': State)
    requires QueueOk(s) && MovesOnly(s, t, s')
    ensures QueueOk(s')
  {
    hide Queued;
  }

  /** Moving between non-owners, or from owner to owner, does not change who owns. */
  lemma MoveKeepsExclusive(s: State, t: Tid, s': State)
    requires Exclusive(s) && MovesOnly(s, t, s') && Owner(s.pc[t]) == Owner(s'.pc[t])
    requires s'.word != UNLOCKED <==> s.word != UNLOCKED
    ensures Exclusive(s')
  {
    if Owned(s) {
      var u :| u in s.pc && Owner(s.pc[u]);
      assert u in s'.pc && Owner(s'.pc[u]);
    }
    if Owned(s') {
      var u :| u in s'.pc && Owner(s'.pc[u]);
      assert u in s.pc && Owner(s.pc[u]);
    }
  }

  lemma AcquireKeepsExclusive(s: State, t: Tid, s': State)
    requires Exclusive(s) && MovesOnly(s, t, s') && s.word == UNLOCKED != s'.word && Owner(s'.pc[t])
    ensures Exclusive(s')
  {
  }

  lemma ReleaseKeepsExclusive(s: State, t: Tid, s': State)
    requires Exclusive(s) && MovesOnly(s, t, s') && Owner(s.pc[t]) && !Owner(s'.pc[t]) && s'.word == UNLOCKED
    ensures Exclusive(s')
  {
  }

  lemma MoveKeepsAttended(s: State, t: Tid, s': State)
    requires Attended(s) && MovesOnly(s, t, s')
    requires (Waker(s.pc[t]) || Retrying(s.pc[t])) ==> (Waker(s'.pc[t]) || Retrying(s'.pc[t]))
    ensures Attended(s')
  {
    var u :| u in s.pc && (Waker(s.pc[u]) || Retrying(s.pc[u]));
    assert u in s'.pc && (Waker(s'.pc[u]) || Retrying(s'.pc[u]));
  }

  // ----- every step keeps the invariant

  predicate Attending(pc: Pc) {
    Waker(pc) || Retrying(pc)
  }

  predicate SeenOk(pc: Pc) {
    pc.LoopTop? ==> pc.seen == LOCKED || pc.seen == LOCKED_WAIT
  }

  /** A step that leaves the word alone and neither gains nor loses the mutex. */
  lemma QuietStep(s: State, t: Tid, s': State)
    requires Inv(s) && MovesOnly(s, t, s') && s'.word == s.word
    requires Owner(s.pc[t]) == Owner(s'.pc[t]) && SeenOk(s'.pc[t])
    requires Attending(s.pc[t]) ==> Attending(s'.pc[t])
    ensures Inv(s')
  {
    hide QueueOk, Exclusive, Attended;
    MoveKeepsQueue(s, t, s');
    MoveKeepsExclusive(s, t, s');
    if Attended(s) { MoveKeepsAttended(s, t, s'); }
  }

  lemma AcquireStep(s: State, t: Tid, s': State)
    requires Inv(s) && MovesOnly(s, t, s') && s.word == UNLOCKED && s'.pc[t].Holding?
    requires s'.word == LOCKED_WAIT || (s'.word == LOCKED && !Attending(s.pc[t]))
    ensures Inv(s')
  {
    hide QueueOk, Exclusive, Attended;
    MoveKeepsQueue(s, t, s');
    AcquireKeepsExclusive(s, t, s');
    if Attended(s) && s'.word == LOCKED { MoveKeepsAttended(s, t, s'); }
  }

  lemma MarkStep(s: State, t: Tid, s': State)
    requires Inv(s) && MovesOnly(s, t, s') && s.word == LOCKED && s'.word == LOCKED_WAIT
    requires s.pc[t].LoopTop? && s'.pc[t].WaitCall?
    ensures Inv(s')
  {
    hide QueueOk, Exclusive, Attended;
    MoveKeepsQueue(s, t, s');
    MoveKeepsExclusive(s, t, s');
  }

  lemma OwnerMeansLocked(s: State, t: Tid)
    requires Exclusive(s) && t in s.pc && Owner(s.pc[t])
    ensures s.word != UNLOCKED
  {
  }

  lemma AttendedBy(s: State, t: Tid)
    requires t in s.pc && Attending(s.pc[t])
    ensures Attended(s)
  {
  }

  lemma ReleaseStep(s: State, t: Tid, s': State)
    requires Inv(s) && MovesOnly(s, t, s') && s'.word == UNLOCKED
    requires (s.pc[t].UnlockSub? && s.word == LOCKED && s'.pc[t].Idle?)
             || (s.pc[t].UnlockStore? && s'.pc[t].UnlockWake?)
    ensures Inv(s')
  {
    hide QueueOk, Exclusive, Attended;
    MoveKeepsQueue(s, t, s');
    ReleaseKeepsExclusive(s, t, s');
    if s'.pc[t].UnlockWake? { AttendedBy(s', t); } else if Attended(s) { MoveKeepsAttended(s, t, s'); }
  }

  lemma SubStep(s: State, t: Tid, s': State)
    requires Inv(s) && MovesOnly(s, t, s') && s.word == LOCKED_WAIT && s'.word == LOCKED
    requires s.pc[t].UnlockSub? && s'.pc[t].UnlockStore?
    ensures Inv(s')
  {
    hide QueueOk, Exclusive, Attended;
    MoveKeepsQueue(s, t, s');
    MoveKeepsExclusive(s, t, s');
    AttendedBy(s', t);
  }

  lemma ParkKeepsQueue(s: State, t: Tid)
    requires QueueOk(s) && t in s.pc && s.pc[t].WaitCall? && s.word == LOCKED_WAIT
    ensures QueueOk(FutexWait(s, t))
  {
    var s' := FutexWait(s, t);
    assert s'.waiters[1..] == s.waiters;
    assert !Queued(s.waiters, t);
    forall u | u in s'.pc && s'.pc[u].Parked?
      ensures Queued(s'.waiters, u)
    {
      if u == t {
        assert s'.waiters[0].tid == t;
      } else {
        var i :| 0 <= i < |s.waiters| && s.waiters[i].tid == u;
        assert s'.waiters[i + 1].tid == u;
      }
    }
  }

  lemma ParkStep(s: State, t: Tid)
    requires Inv(s) && t in s.pc && s.pc[t].WaitCall? && s.word == LOCKED_WAIT
    ensures Inv(FutexWait(s, t))
  {
    var s' := FutexWait(s, t);
    ParkKeepsQueue(s, t);
    hide QueueOk;
    if Owned(s) {
      var u :| u in s.pc && Owner(s.pc[u]);
      assert u in s'.pc && Owner(s'.pc[u]);
    }
  }

  /** A wake that finds nobody to release. */
  lemma WakeNobody(s: State, t: Tid)
    requires Inv(s) && t in s.pc && s.pc[t].UnlockWake?
    requires s.word == LOCKED_WAIT || s.waiters == []
    ensures s.entry.created ==> FutexWake(s, t) == Goto(s, t, Idle(Ok))
    ensures Inv(FutexWake(s, t))
  {
    WokenNone(s.waiters, s.word, 1);
    hide QueueOk, Exclusive, Attended, Woken, Left;
    var s' := FutexWake(s, t);
    MoveKeepsQueue(s, t, s');
    MoveKeepsExclusive(s, t, s');
  }

  /** A wake that releases the head of the queue, the newest waiter. */
  lemma WakeHead(s: State, t: Tid)
    requires QueueOk(s) && t in s.pc && s.pc[t].UnlockWake? && s.word != LOCKED_WAIT && s.waiters != []
    ensures FutexWake(s, t)
            == s.(pc := s.pc[t := Idle(Ok)][s.waiters[0].tid := Retry], waiters := s.waiters[1..],
               entry := AfterWake(s.entry, true, |s.waiters| == 1))
  {
    WokenOne(s.waiters, s.word);
    hide Woken, Left;
    var w := s.waiters[0].tid;
    var pc := s.pc[t := Idle(Ok)];
    assert WakeAll(pc, [w]) == WakeAll(pc[w := Retry], []);
  }

  lemma WakeHeadKeepsQueue(s: State, t: Tid, s': State)
    requires QueueOk(s) && !s.entry.panicked && t in s.pc && !s.pc[t].Parked? && s.waiters != []
    requires s' == s.(pc := s.pc[t := Idle(Ok)][s.waiters[0].tid := Retry], waiters := s.waiters[1..],
               entry := AfterWake(s.entry, true, |s.waiters| == 1))
    ensures QueueOk(s')
  {
    forall u | u in s'.pc && s'.pc[u].Parked?
      ensures Queued(s'.waiters, u)
    {
      var i :| 0 <= i < |s.waiters| && s.waiters[i].tid == u;
      assert s'.waiters[i - 1].tid == u;
    }
  }

  lemma WakeHeadStep(s: State, t: Tid, s': State)
    requires Inv(s) && !s.entry.panicked && t in s.pc && s.pc[t].UnlockWake? && s.waiters != []
    requires s' == s.(pc := s.pc[t := Idle(Ok)][s.waiters[0].tid := Retry], waiters := s.waiters[1..],
               entry := AfterWake(s.entry, true, |s.waiters| == 1))
    ensures Inv(s')
  {
    WakeHeadKeepsQueue(s, t, s');
    var w := s.waiters[0].tid;
    assert s.pc[w].Parked?;
    hide QueueOk;
    AttendedBy(s', w);
    WakeKeepsExclusive(s, t, w, s');
    hide Exclusive, Attended;
  }

  lemma WakeKeepsExclusive(s: State, t: Tid, w: Tid, s': State)
    requires Exclusive(s) && t in s.pc && s.pc[t].UnlockWake? && w in s.pc && s.pc[w].Parked?
    requires s'.word == s.word && s'.pc == s.pc[t := Idle(Ok)][w := Retry]
    ensures Exclusive(s')
  {
    if Owned(s) {
      var u :| u in s.pc && Owner(s.pc[u]);
      assert u in s'.pc && Owner(s'.pc[u]);
    }
    if Owned(s') {
      var u :| u in s'.pc && Owner(s'.pc[u]);
      assert u in s.pc && Owner(s.pc[u]);
    }
  }

  lemma WakeStep(s: State, t: Tid)
    requires Inv(s) && !s.entry.panicked && t in s.pc && s.pc[t].UnlockWake?
    ensures Inv(FutexWake(s, t))
  {
    hide FutexWake, WordsOk, Exclusive, NoLostWakeup;
    if s.word == LOCKED_WAIT || s.waiters == [] {
      WakeNobody(s, t);
    } else {
      WakeHead(s, t);
      WakeHeadStep(s, t, FutexWake(s, t));
    }
  }

  /** Every step of every thread keeps the invariant. */
  lemma RunStepInv(s: State, t: Tid)
    requires Inv(s) && Enabled(s, Run(t))
    ensures Inv(RunStep(s, t))
  {
    var s' := RunStep(s, t);
    if Owner(s.pc[t]) { OwnerMeansLocked(s, t); }
    assert WordsOk(s);
    hide QueueOk, Exclusive, NoLostWakeup, Attended, Inv, FutexWake;
    match s.pc[t]
    case LockCheck => QuietStep(s, t, s');
    case LockFast => if s.word == UNLOCKED { AcquireStep(s, t, s'); } else { QuietStep(s, t, s'); }
    case LoopTop(seen) => if seen == LOCKED && s.word == LOCKED { MarkStep(s, t, s'); } else { QuietStep(s, t, s'); }
    case WaitCall => if s.word == LOCKED_WAIT { ParkStep(s, t); } else { QuietStep(s, t, s'); }
    case Retry => if s.word == UNLOCKED { AcquireStep(s, t, s'); } else { QuietStep(s, t, s'); }
    case TryCheck => QuietStep(s, t, s');
    case TryFast => if s.word == UNLOCKED { AcquireStep(s, t, s'); } else { QuietStep(s, t, s'); }
    case HeldTryCheck => QuietStep(s, t, s');
    case HeldTryFast => QuietStep(s, t, s');
    case UnlockCheck => QuietStep(s, t, s');
    case UnlockSub => if s.word == LOCKED { ReleaseStep(s, t, s'); } else { SubStep(s, t, s'); }
    case UnlockStore => ReleaseStep(s, t, s');
    case UnlockWake => WakeStep(s, t);
  }

  lemma StepInv(s: State, e: Event)
    requires Inv(s) && Enabled(s, e)
    ensures Inv(Step(s, e))
  {
    hide Inv, RunStep;
    if e.Run? { RunStepInv(s, e.t); } else { QuietStep(s, e.t, Step(s, e)); }
  }

  /** Safety over whole runs. */
  lemma {:induction false} RunInv(s: State, es: seq<Event>, s': State)
    requires Inv(s) && IsRun(s, es, s')
    ensures Inv(s')
    decreases |es|
  {
    hide Inv, Step, Enabled;
    if es != [] {
      StepInv(s, es[0]);
      RunInv(Step(s, es[0]), es[1..], s');
    }
  }

  // ----- theorems about every run from mutex_init

  /** Mutual exclusion: at most one thread has the mutex, and the word is 0 iff none does. */
  lemma MutualExclusion(s0: State, es: seq<Event>, s: State, t: Tid, u: Tid)
    requires Init(s0) && IsRun(s0, es, s)
    ensures t in s.pc && u in s.pc && Owner(s.pc[t]) && Owner(s.pc[u]) ==> t == u
    ensures s.word != UNLOCKED <==> exists o :: o in s.pc && Owner(s.pc[o])
  {
    InitInv(s0);
    RunInv(s0, es, s);
  }

  /**
    No lost wakeup: while a thread is parked, the word promises a wake, or an
    unlocker still owes one, or an awake thread is in the retry loop.
  */
  lemma ParkedIsAttended(s0: State, es: seq<Event>, s: State, t: Tid)
    requires Init(s0) && IsRun(s0, es, s) && t in s.pc && s.pc[t].Parked?
    ensures s.word == LOCKED_WAIT || exists u :: u in s.pc && (Waker(s.pc[u]) || Retrying(s.pc[u]))
  {
    InitInv(s0);
    RunInv(s0, es, s);
    assert Queued(s.waiters, t);
  }

  lemma EmptyQueue(s: State)
    requires QueueOk(s) && s.waiters == []
    ensures forall t :: t in s.pc ==> !s.pc[t].Parked?
  {
  }

  /** When every thread rests outside the calls or is parked, the mutex is free and nobody is parked. */
  lemma QuiescentIsFree(s: State)
    requires Inv(s) && forall t :: t in s.pc ==> s.pc[t].Idle? || s.pc[t].Parked?
    ensures s.word == UNLOCKED && s.waiters == [] && forall t :: t in s.pc ==> s.pc[t].Idle?
  {
    assert !Attended(s) && !Owned(s);
    EmptyQueue(s);
  }

  /** A step that parks its thread. */
  predicate Parks(s: State, e: Event) {
    e.Run? && e.t in s.pc && s.pc[e.t].WaitCall? && s.word == LOCKED_WAIT
  }

  /** Some thread parks during the run es from s. */
  ghost predicate SomeoneParked(s: State, es: seq<Event>)
    decreases |es|
  {
    es != [] && Enabled(s, es[0]) && (Parks(s, es[0]) || SomeoneParked(Step(s, es[0]), es[1..]))
  }

  lemma StepParks(s: State, e: Event)
    requires Enabled(s, e)
    ensures Step(s, e).parks == s.parks + if Parks(s, e) then 1 else 0
  {
  }

  lemma {:induction false} ParksHistory(s: State, es: seq<Event>, s': State)
    requires IsRun(s, es, s')
    ensures s'.parks >= s.parks && (s'.parks > s.parks <==> SomeoneParked(s, es))
    decreases |es|
  {
    hide Step, Enabled, Parks;
    if es != [] {
      StepParks(s, es[0]);
      ParksHistory(Step(s, es[0]), es[1..], s');
    }
  }

  /**
    What unlocking returns.  The release itself always succeeds.  The call
    reports a futex error exactly when the word has no queue at its wake, which
    during the first 2^32 - 1 parks means that no thread ever parked.
  */
  lemma UnlockReturn(s0: State, es: seq<Event>, s: State, t: Tid)
    requires Init(s0) && IsRun(s0, es, s) && t in s.pc && s.pc[t].UnlockWake? && !s.entry.panicked
    ensures Enabled(s, Run(t)) && t in Step(s, Run(t)).pc
    ensures Step(s, Run(t)).pc[t] == Idle(if s.entry.created then Ok else FutexError)
    ensures s.parks < 0x1_0000_0000 ==> (s.entry.created <==> SomeoneParked(s0, es))
  {
    ParksHistory(s0, es, s);
    InitInv(s0);
    RunInv(s0, es, s);
    hide IsRun, SomeoneParked, NoLostWakeup, Exclusive, FutexWake;
    if !s.entry.created { NoEntry(s, t); }
    else if s.word == LOCKED_WAIT || s.waiters == [] { WakeNobody(s, t); } else { WakeHead(s, t); }
  }

  lemma {:induction false} RunAppend(s: State, es: seq<Event>, s1: State, e: Event)
    requires IsRun(s, es, s1) && Enabled(s1, e)
    ensures IsRun(s, es + [e], Step(s1, e))
    decreases |es|
  {
    hide Step, Enabled;
    if es == [] {
      assert ([e])[1..] == [];
      assert IsRun(Step(s1, e), [], Step(s1, e));
    } else {
      RunAppend(Step(s, es[0]), es[1..], s1, e);
      assert (es + [e])[1..] == es[1..] + [e];
    }
  }

  // ----- what a call does, from its start to its return

  /** A run with the states it goes through. */
  ghost predicate Trace(states: seq<State>, es: seq<Event>) {
    && |states| == |es| + 1
    && forall i :: 0 <= i < |es| ==> Enabled(states[i], es[i]) && states[i + 1] == Step(states[i], es[i])
  }

  lemma {:induction false} TraceRun(states: seq<State>, es: seq<Event>)
    requires Trace(states, es)
    ensures IsRun(states[0], es, states[|es|])
    decreases |es|
  {
    hide Step, Enabled;
    if es != [] { TraceRun(states[1..], es[1..]); }
  }

  /** Every run has such states. */
  lemma {:induction false} RunTrace(s: State, es: seq<Event>, s': State) returns (states: seq<State>)
    requires IsRun(s, es, s')
    ensures Trace(states, es) && states[0] == s && states[|es|] == s'
    decreases |es|
  {
    hide Step, Enabled;
    if es == [] {
      states := [s];
    } else {
      var rest := RunTrace(Step(s, es[0]), es[1..], s');
      states := [s] + rest;
      assert forall i :: 1 <= i < |es| ==> es[i] == es[1..][i - 1];
    }
  }

  lemma {:induction false} TraceInv(states: seq<State>, es: seq<Event>, n: nat)
    requires Trace(states, es) && Inv(states[0]) && n < |states|
    ensures Inv(states[n])
  {
    hide Inv, Step, Enabled;
    if n > 0 {
      TraceInv(states, es, n - 1);
      StepInv(states[n - 1], es[n - 1]);
    }
  }

  /** Thread t makes no call in es[i..n]. */
  predicate NoCall(es: seq<Event>, t: Tid, i: nat, n: nat)
    requires n <= |es|
  {
    forall j :: i <= j < n ==> es[j].t != t || es[j].Run?
  }

  /** How many steps of its own thread t takes in es[i..n]. */
  function Own(es: seq<Event>, t: Tid, i: nat, n: nat): (c: nat)
    requires n <= |es|
  {
    if n <= i then 0 else Own(es, t, i, n - 1) + if es[n - 1] == Run(t) then 1 else 0
  }

  /** The steps of the others leave a thread where it is, but for a wake that releases it. */
  lemma OthersLeave(s: State, e: Event, t: Tid)
    requires Inv(s) && Enabled(s, e) && t in s.pc && e.t != t
    ensures t in Step(s, e).pc
    ensures Step(s, e).pc[t] == s.pc[t] || (s.pc[t].Parked? && Step(s, e).pc[t].Retry?)
  {
    hide Exclusive, NoLostWakeup, FutexWake;
    if e.Run? && s.pc[e.t].UnlockWake? {
      if !s.entry.created { NoEntry(s, e.t); }
      else if s.word == LOCKED_WAIT || s.waiters == [] { WakeNobody(s, e.t); } else { WakeHead(s, e.t); }
    }
    hide EntryOk, WordsOk;
  }

  /** Step a is one of t's own. */
  ghost predicate At(states: seq<State>, es: seq<Event>, t: Tid, a: int) {
    0 <= a < |es| < |states| && es[a] == Run(t) && t in states[a].pc && t in states[a + 1].pc
  }

  /** Between i and n thread t made its fetch-and-add, which found the given word and left one less. */
  ghost predicate Subtracted(states: seq<State>, es: seq<Event>, t: Tid, i: nat, n: nat, word: Word) {
    exists a :: i < a < n && At(states, es, t, a)
                && states[a].pc[t].UnlockSub? && states[a].word == word && states[a + 1].word == word - 1
  }

  /** Between i and n thread t made its wake, with or without a table entry for the word. */
  ghost predicate Woke(states: seq<State>, es: seq<Event>, t: Tid, i: nat, n: nat, created: bool) {
    exists a :: i < a < n && At(states, es, t, a)
                && states[a].pc[t].UnlockWake? && states[a].entry.created == created
  }

  /** Between i and n thread t took the mutex from 0 to the given word: 1 at its first try, 2 in the retry loop. */
  ghost predicate Acquired(states: seq<State>, es: seq<Event>, t: Tid, i: nat, n: nat, word: Word) {
    exists a :: i < a < n && At(states, es, t, a)
                && states[a].word == UNLOCKED && states[a + 1].word == word && states[a + 1].pc[t].Holding?
                && (word == LOCKED_WAIT <==> states[a].pc[t].Retry?)
  }

  /** Between i and n thread t was refused, having found the mutex taken and left the word alone. */
  ghost predicate Refused(states: seq<State>, es: seq<Event>, t: Tid, i: nat, n: nat) {
    exists a :: i < a < n && At(states, es, t, a)
                && states[a].word != UNLOCKED && states[a + 1].word == states[a].word
                && states[a + 1].pc[t] == Idle(UnauthorizedAction)
  }

  /** With its last step before n thread t has marked the mutex as contended, unless it had seen that mark. */
  ghost predicate Marked(states: seq<State>, es: seq<Event>, t: Tid, i: nat, n: nat)
    requires n <= |es|
  {
    exists a :: i < a < n && At(states, es, t, a) && Own(es, t, a + 1, n) == 0
                && states[a].pc[t].LoopTop?
                && (states[a].pc[t].seen == LOCKED_WAIT || states[a + 1].word == LOCKED_WAIT)
  }

  /** How far an unlock called at step i has come. */
  ghost predicate UnlockTrail(states: seq<State>, es: seq<Event>, t: Tid, i: nat, n: nat)
    requires n < |states| && t in states[n].pc
  {
    match states[n].pc[t]
    case UnlockCheck => true
    case UnlockSub => true
    case UnlockStore => Subtracted(states, es, t, i, n, LOCKED_WAIT)
    case UnlockWake => Subtracted(states, es, t, i, n, LOCKED_WAIT)
    case Idle(ret) =>
      || (ret == Ok && Subtracted(states, es, t, i, n, LOCKED))
      || (ret == Ok && Subtracted(states, es, t, i, n, LOCKED_WAIT) && Woke(states, es, t, i, n, true))
      || (ret == FutexError && Subtracted(states, es, t, i, n, LOCKED_WAIT) && Woke(states, es, t, i, n, false))
    case _ => false
  }

  lemma UnlockTrailStep(states: seq<State>, es: seq<Event>, t: Tid, i: nat, n: nat)
    requires Trace(states, es) && i < n < |es| && Inv(states[n])
    requires t in states[n].pc && UnlockTrail(states, es, t, i, n) && (es[n].t != t || es[n].Run?)
    ensures t in states[n + 1].pc && UnlockTrail(states, es, t, i, n + 1)
  {
    var s := states[n];
    assert states[n + 1] == Step(s, es[n]) && Enabled(s, es[n]);
    if es[n].t != t {
      OthersLeave(s, es[n], t);
      hide Step, Enabled, Inv, At;
    } else {
      if s.pc[t].UnlockSub? { OwnerMeansLocked(s, t); }
      UnlockReturns(s, t);
      assert WordsOk(s);
      assert At(states, es, t, n);
      hide Exclusive, QueueOk, NoLostWakeup, FutexWake;
    }
  }

  lemma UnlockReturns(s: State, t: Tid)
    requires Inv(s) && Enabled(s, Run(t))
    ensures t in Step(s, Run(t)).pc
    ensures s.pc[t].UnlockWake? ==> Step(s, Run(t)).pc[t] == Idle(if s.entry.created then Ok else FutexError)
  {
    hide NoLostWakeup, Exclusive, FutexWake;
    if s.pc[t].UnlockWake? {
      if !s.entry.created { NoEntry(s, t); }
      else if s.word == LOCKED_WAIT || s.waiters == [] { WakeNobody(s, t); } else { WakeHead(s, t); }
    }
  }

  /**
    What an unlock returns, in every run: Ok if its fetch-and-add found the word 1,
    which leaves 0; if it found 2, Ok or the futex error, as the word had a table
    entry at its wake or had none.  It neither parks nor returns anything else.
  */
  lemma {:induction false} UnlockOutcome(states: seq<State>, es: seq<Event>, t: Tid, i: nat, n: nat)
    requires Trace(states, es) && Init(states[0]) && i < n < |states|
    requires es[i] == CallUnlock(t) && NoCall(es, t, i + 1, n)
    ensures t in states[n].pc && UnlockTrail(states, es, t, i, n)
    decreases n
  {
    hide Inv, Init, Step, Enabled, Subtracted, Woke;
    TraceStep(states, es, n - 1);
    if n == i + 1 {
      CallMoves(states[i], es[i]);
    } else {
      hide Trace, UnlockTrail;
      InitInv(states[0]);
      TraceInv(states, es, n - 1);
      UnlockOutcome(states, es, t, i, n - 1);
      UnlockTrailStep(states, es, t, i, n - 1);
    }
  }

  lemma TraceStep(states: seq<State>, es: seq<Event>, n: nat)
    requires Trace(states, es) && n < |es|
    ensures |states| == |es| + 1 && Enabled(states[n], es[n]) && states[n + 1] == Step(states[n], es[n])
  {
  }

  /** Where a call starts. */
  lemma CallMoves(s: State, e: Event)
    requires Enabled(s, e)
    ensures e.CallLock? ==> Step(s, e) == s.(pc := s.pc[e.t := LockCheck])
    ensures e.CallTryLock? && s.pc[e.t].Idle? ==> Step(s, e) == s.(pc := s.pc[e.t := TryCheck])
    ensures e.CallTryLock? && s.pc[e.t].Holding? ==> Step(s, e) == s.(pc := s.pc[e.t := HeldTryCheck])
    ensures e.CallUnlock? ==> Step(s, e) == s.(pc := s.pc[e.t := UnlockCheck])
  {
  }

  /** How far a lock has come: it returns only with the mutex, taken by a step of its own. */
  ghost predicate LockTrail(states: seq<State>, es: seq<Event>, t: Tid, i: nat, n: nat)
    requires n < |states| == |es| + 1 && t in states[n].pc
  {
    match states[n].pc[t]
    case Holding => Acquired(states, es, t, i, n, LOCKED) || Acquired(states, es, t, i, n, LOCKED_WAIT)
    case WaitCall => Marked(states, es, t, i, n)
    case _ => Locker(states[n].pc[t]) || states[n].pc[t].Parked?
  }

  lemma LockSteps(s: State, t: Tid)
    requires Inv(s) && Enabled(s, Run(t)) && Locker(s.pc[t])
    ensures t in Step(s, Run(t)).pc
    ensures var s1 := Step(s, Run(t));
            && (s1.pc[t].Holding? || Locker(s1.pc[t]) || s1.pc[t].Parked?)
            && (s1.pc[t].Holding? ==>
                  s.word == UNLOCKED && s1.word == if s.pc[t].Retry? then LOCKED_WAIT else LOCKED)
            && (s1.pc[t].WaitCall? ==>
                  s.pc[t].LoopTop? && (s.pc[t].seen == LOCKED_WAIT || s1.word == LOCKED_WAIT))
  {
    assert WordsOk(s);
    hide Exclusive, QueueOk, NoLostWakeup, EntryOk, FutexWake;
  }

  lemma LockTrailStep(states: seq<State>, es: seq<Event>, t: Tid, i: nat, n: nat)
    requires Trace(states, es) && i < n < |es| && Inv(states[n])
    requires t in states[n].pc && LockTrail(states, es, t, i, n) && (es[n].t != t || es[n].Run?)
    ensures t in states[n + 1].pc && LockTrail(states, es, t, i, n + 1)
  {
    hide Trace, Step, Enabled, Inv, Own, Acquired, Marked;
    TraceStep(states, es, n);
    AcquiredMore(states, es, t, i, n);
    if es[n].t != t {
      OthersLeave(states[n], es[n], t);
    } else {
      CanRun(states[n], t);
      LockSteps(states[n], t);
      if states[n + 1].pc[t].Holding? { AcquiredNow(states, es, t, i, n); }
      if states[n + 1].pc[t].WaitCall? { MarkedNow(states, es, t, i, n); }
    }
  }

  lemma CanRun(s: State, t: Tid)
    requires Enabled(s, Run(t))
    ensures !s.pc[t].Parked? && !s.pc[t].Holding? && !s.pc[t].Idle?
  {
  }

  lemma AcquiredMore(states: seq<State>, es: seq<Event>, t: Tid, i: nat, n: nat)
    requires n < |es|
    ensures Acquired(states, es, t, i, n, LOCKED) ==> Acquired(states, es, t, i, n + 1, LOCKED)
    ensures Acquired(states, es, t, i, n, LOCKED_WAIT) ==> Acquired(states, es, t, i, n + 1, LOCKED_WAIT)
    ensures Marked(states, es, t, i, n) && es[n].t != t ==> Marked(states, es, t, i, n + 1)
  {
    hide At;
  }

  lemma AcquiredNow(states: seq<State>, es: seq<Event>, t: Tid, i: nat, n: nat)
    requires i < n < |es| < |states| && es[n] == Run(t) && t in states[n].pc && t in states[n + 1].pc
    requires states[n].word == UNLOCKED && states[n + 1].pc[t].Holding?
    requires states[n + 1].word == if states[n].pc[t].Retry? then LOCKED_WAIT else LOCKED
    ensures Acquired(states, es, t, i, n + 1, states[n + 1].word)
  {
    assert At(states, es, t, n);
  }

  lemma MarkedNow(states: seq<State>, es: seq<Event>, t: Tid, i: nat, n: nat)
    requires i < n < |es| < |states| && es[n] == Run(t) && t in states[n].pc && t in states[n + 1].pc
    requires states[n].pc[t].LoopTop? && (states[n].pc[t].seen == LOCKED_WAIT || states[n + 1].word == LOCKED_WAIT)
    ensures Marked(states, es, t, i, n + 1)
  {
    assert At(states, es, t, n);
  }

  /** What a lock does, in every run: whatever happens meanwhile it returns only with the mutex. */
  lemma {:induction false} LockOutcome(states: seq<State>, es: seq<Event>, t: Tid, i: nat, n: nat)
    requires Trace(states, es) && Init(states[0]) && i < n < |states|
    requires es[i] == CallLock(t) && NoCall(es, t, i + 1, n)
    ensures t in states[n].pc && LockTrail(states, es, t, i, n)
    decreases n
  {
    hide Inv, Init, Step, Enabled, Acquired;
    TraceStep(states, es, n - 1);
    if n == i + 1 {
      CallMoves(states[i], es[i]);
    } else {
      hide Trace, LockTrail;
      InitInv(states[0]);
      TraceInv(states, es, n - 1);
      LockOutcome(states, es, t, i, n - 1);
      LockTrailStep(states, es, t, i, n - 1);
    }
  }

  /** How far a try-lock has come, by the steps it has taken. */
  ghost predicate TryTrail(states: seq<State>, es: seq<Event>, t: Tid, i: nat, n: nat)
    requires n < |states| == |es| + 1 && t in states[n].pc
  {
    match states[n].pc[t]
    case TryCheck => Own(es, t, i + 1, n) == 0
    case TryFast => Own(es, t, i + 1, n) == 1
    case Holding => Own(es, t, i + 1, n) == 2 && Acquired(states, es, t, i, n, LOCKED)
    case Idle(ret) => Own(es, t, i + 1, n) == 2 && Refused(states, es, t, i, n) && ret == UnauthorizedAction
    case _ => false
  }

  lemma TryTrailStep(states: seq<State>, es: seq<Event>, t: Tid, i: nat, n: nat)
    requires Trace(states, es) && i < n < |es| && Inv(states[n])
    requires t in states[n].pc && TryTrail(states, es, t, i, n) && (es[n].t != t || es[n].Run?)
    ensures t in states[n + 1].pc && TryTrail(states, es, t, i, n + 1)
  {
    TraceStep(states, es, n);
    if es[n].t != t {
      OthersLeave(states[n], es[n], t);
      hide Step, Enabled, Inv, At;
    } else {
      assert WordsOk(states[n]);
      assert t in states[n + 1].pc ==> At(states, es, t, n);
      hide Exclusive, QueueOk, NoLostWakeup, FutexWake;
    }
  }

  /**
    What a try-lock does, in every run: with two steps of its own, so that it never
    blocks, it takes a free mutex, or refuses and leaves the word alone.
  */
  lemma {:induction false} TryOutcome(states: seq<State>, es: seq<Event>, t: Tid, i: nat, n: nat)
    requires Trace(states, es) && Init(states[0]) && i < n < |states|
    requires es[i] == CallTryLock(t) && t in states[i].pc && states[i].pc[t].Idle? && NoCall(es, t, i + 1, n)
    ensures t in states[n].pc && TryTrail(states, es, t, i, n)
    decreases n
  {
    hide Inv, Init, Step, Enabled, Acquired, Refused;
    TraceStep(states, es, n - 1);
    if n == i + 1 {
      CallMoves(states[i], es[i]);
    } else {
      hide Trace, TryTrail;
      InitInv(states[0]);
      TraceInv(states, es, n - 1);
      TryOutcome(states, es, t, i, n - 1);
      TryTrailStep(states, es, t, i, n - 1);
    }
  }

  /** How far a try-lock by the holder has come; its steps leave the word alone. */
  ghost predicate HeldTryTrail(states: seq<State>, es: seq<Event>, t: Tid, i: nat, n: nat)
    requires n < |states| == |es| + 1 && t in states[n].pc
  {
    && (forall a :: i < a < n && es[a] == Run(t) ==> states[a + 1].word == states[a].word)
    && match states[n].pc[t]
       case HeldTryCheck => Own(es, t, i + 1, n) == 0
       case HeldTryFast => Own(es, t, i + 1, n) == 1
       case Holding => Own(es, t, i + 1, n) == 2
       case _ => false
  }

  lemma HeldTryStep(states: seq<State>, es: seq<Event>, t: Tid, i: nat, n: nat)
    requires Trace(states, es) && i < n < |es| && Inv(states[n])
    requires t in states[n].pc && HeldTryTrail(states, es, t, i, n) && (es[n].t != t || es[n].Run?)
    ensures t in states[n + 1].pc && HeldTryTrail(states, es, t, i, n + 1)
  {
    TraceStep(states, es, n);
    if es[n].t != t {
      OthersLeave(states[n], es[n], t);
      hide Step, Enabled, Inv;
    } else {
      if Owner(states[n].pc[t]) { OwnerMeansLocked(states[n], t); }
      assert WordsOk(states[n]);
      hide Exclusive, QueueOk, NoLostWakeup, FutexWake;
    }
  }

  /** What a try-lock by the holder does, in every run: after two steps it is refused and the mutex still held. */
  lemma {:induction false} HeldTryOutcome(states: seq<State>, es: seq<Event>, t: Tid, i: nat, n: nat)
    requires Trace(states, es) && Init(states[0]) && i < n < |states|
    requires es[i] == CallTryLock(t) && t in states[i].pc && states[i].pc[t].Holding? && NoCall(es, t, i + 1, n)
    ensures t in states[n].pc && HeldTryTrail(states, es, t, i, n)
    decreases n
  {
    hide Inv, Init, Step, Enabled;
    TraceStep(states, es, n - 1);
    if n == i + 1 {
      CallMoves(states[i], es[i]);
    } else {
      hide Trace, HeldTryTrail;
      InitInv(states[0]);
      TraceInv(states, es, n - 1);
      HeldTryOutcome(states, es, t, i, n - 1);
      HeldTryStep(states, es, t, i, n - 1);
    }
  }

  /** An unlock without contention takes one fetch-and-add from 1 to 0 and returns Ok. */
  lemma Uncontended(s: State, t: Tid)
    requires Enabled(s, Run(t)) && s.pc[t].UnlockSub? && s.word == LOCKED
    ensures Step(s, Run(t)) == s.(word := UNLOCKED, pc := s.pc[t := Idle(Ok)])
  {
  }

  /** On a word that is none of the three states every call returns at its first step and changes nothing. */
  lemma Uninitialized(s: State, t: Tid)
    requires t in s.pc && !s.entry.panicked && !Initialized(s.word)
    ensures s.pc[t].Idle? ==> Returns(s, CallLock(t)) && Returns(s, CallTryLock(t))
    ensures s.pc[t].Holding? ==> Returns(s, CallUnlock(t))
    ensures s.pc[t].Retry? ==>
              Enabled(s, Run(t)) && Step(s, Run(t)) == s.(pc := s.pc[t := Idle(NotInitialized)])
  {
    hide FutexWait, FutexWake;
  }

  /** The call returns the error for a mutex that is not initialized, with the next step of its thread. */
  predicate Returns(s: State, e: Event)
    requires e.t in s.pc
  {
    && Enabled(s, e) && Enabled(Step(s, e), Run(e.t))
    && Step(Step(s, e), Run(e.t)) == s.(pc := s.pc[e.t := Idle(NotInitialized)])
  }

  // ----- runs that show what can go wrong

  ghost predicate Leads(s: State, s': State) {
    exists es :: IsRun(s, es, s')
  }

  lemma Then(s0: State, s: State, e: Event, s': State)
    requires Leads(s0, s) && Enabled(s, e) && s' == Step(s, e)
    ensures Leads(s0, s')
  {
    var es :| IsRun(s0, es, s);
    RunAppend(s0, es, s, e);
  }

  function Threads(a: Pc, b: Pc, c: Pc): map<Tid, Pc> {
    map[0 := a, 1 := b, 2 := c]
  }

  /** mutex_init, with three threads. */
  function Start(): State {
    State(UNLOCKED, Threads(Idle(Ok), Idle(Ok), Idle(Ok)), [], Entry(false, 0, false), 0)
  }

  /** Thread 0 has the mutex and thread 1 is about to wait, after k parks. */
  function Waiting(k: u32): State {
    State(LOCKED_WAIT, Threads(Holding, WaitCall, Idle(Ok)), [], Entry(k > 0, k, false), k)
  }

  /** A thread takes the free mutex. */
  lemma Take(s0: State, s: State, t: Tid)
    requires Leads(s0, s) && !s.entry.panicked && t in s.pc && s.pc[t].Idle? && s.word == UNLOCKED
    ensures Leads(s0, s.(word := LOCKED, pc := s.pc[t := Holding]))
  {
    var s1 := Goto(s, t, LockCheck);
    var s2 := Goto(s, t, LockFast);
    hide Leads, FutexWait, FutexWake;
    Then(s0, s, CallLock(t), s1);
    Then(s0, s1, Run(t), s2);
    Then(s0, s2, Run(t), s.(word := LOCKED, pc := s.pc[t := Holding]));
  }

  /** A thread finds the mutex taken and goes to wait. */
  lemma Contend(s0: State, s: State, t: Tid)
    requires Leads(s0, s) && !s.entry.panicked && t in s.pc && s.pc[t].Idle?
    requires s.word == LOCKED || s.word == LOCKED_WAIT
    ensures Leads(s0, s.(word := LOCKED_WAIT, pc := s.pc[t := WaitCall]))
  {
    var s1 := Goto(s, t, LockCheck);
    var s2 := Goto(s, t, LockFast);
    var s3 := Goto(s, t, LoopTop(s.word));
    hide Leads, FutexWait, FutexWake;
    Then(s0, s, CallLock(t), s1);
    Then(s0, s1, Run(t), s2);
    Then(s0, s2, Run(t), s3);
    Then(s0, s3, Run(t), s.(word := LOCKED_WAIT, pc := s.pc[t := WaitCall]));
  }

  /** The holder of a contended mutex unlocks it up to the wake. */
  lemma Release(s0: State, s: State, t: Tid)
    requires Leads(s0, s) && !s.entry.panicked && t in s.pc && s.pc[t].Holding? && s.word == LOCKED_WAIT
    ensures Leads(s0, s.(word := UNLOCKED, pc := s.pc[t := UnlockWake]))
  {
    var s1 := Goto(s, t, UnlockCheck);
    var s2 := Goto(s, t, UnlockSub);
    var s3 := Goto(s, t, UnlockStore).(word := LOCKED);
    hide Leads, FutexWait, FutexWake;
    Then(s0, s, CallUnlock(t), s1);
    Then(s0, s1, Run(t), s2);
    Then(s0, s2, Run(t), s3);
    Then(s0, s3, Run(t), s.(word := UNLOCKED, pc := s.pc[t := UnlockWake]));
  }

  /** A thread about to wait parks. */
  lemma Park(s0: State, s: State, t: Tid)
    requires Leads(s0, s) && !s.entry.panicked && t in s.pc && s.pc[t].WaitCall? && s.word == LOCKED_WAIT
    ensures Leads(s0, FutexWait(s, t))
  {
    hide Leads, FutexWait, FutexWake;
    Then(s0, s, Run(t), FutexWait(s, t));
  }

  /** With nobody in a call thread 0 takes the mutex, and thread 1 marks it contended. */
  lemma Begin(s0: State, s: State)
    requires Leads(s0, s) && s.word == UNLOCKED && s.pc == Threads(Idle(Ok), Idle(Ok), Idle(Ok)) && !s.entry.panicked
    ensures Leads(s0, s.(word := LOCKED_WAIT, pc := Threads(Holding, WaitCall, Idle(Ok))))
  {
    hide Leads;
    Take(s0, s, 0);
    var s1 := s.(word := LOCKED, pc := Threads(Holding, Idle(Ok), Idle(Ok)));
    assert s.pc[0 := Holding] == s1.pc;
    Contend(s0, s1, 1);
    assert s1.pc[1 := WaitCall] == Threads(Holding, WaitCall, Idle(Ok));
  }

  /** A reachable state in which the mutex has been released but the unlock call returned an error. */
  lemma UnlockCanReportError() returns (s0: State, es: seq<Event>, s: State)
    ensures Init(s0) && IsRun(s0, es, s)
    ensures s.word == UNLOCKED && 0 in s.pc && s.pc[0] == Idle(FutexError)
  {
    s0 := Start();
    assert IsRun(s0, [], s0);
    hide IsRun;
    Begin(s0, s0);
    Release(s0, Waiting(0), 0);
    var s1 := Start().(pc := Threads(UnlockWake, WaitCall, Idle(Ok)));
    assert Waiting(0).pc[0 := UnlockWake] == s1.pc;
    s := Start().(pc := Threads(Idle(FutexError), WaitCall, Idle(Ok)));
    Then(s0, s1, Run(0), s);
    es := Path(s0, s);
  }

  /** The wake of thread 0 releases thread 1. */
  lemma Released(s: State)
    requires s.word == UNLOCKED && s.pc == Threads(UnlockWake, Parked, Idle(Ok))
    requires s.waiters == [Waiter(1, LOCKED_WAIT)] && s.entry.created && s.entry.size != 0 && !s.entry.panicked
    ensures Enabled(s, Run(0)) && Step(s, Run(0)) == s.(pc := Threads(Idle(Ok), Retry, Idle(Ok)), waiters := [])
  {
    WokenOne(s.waiters, s.word);
    hide Woken, Left;
    var pc := s.pc[0 := Idle(Ok)];
    assert WakeAll(pc, [1]) == WakeAll(pc[1 := Retry], []);
  }

  /** Thread 1 takes the free mutex in its retry loop and releases it, with nobody to wake. */
  lemma TakeAndRelease(s0: State, s: State)
    requires Leads(s0, s) && s.word == UNLOCKED && s.pc == Threads(Idle(Ok), Retry, Idle(Ok))
    requires s.waiters == [] && s.entry.created && !s.entry.panicked
    ensures Leads(s0, s.(pc := Threads(Idle(Ok), Idle(Ok), Idle(Ok))))
  {
    var s1 := s.(word := LOCKED_WAIT, pc := Threads(Idle(Ok), Holding, Idle(Ok)));
    var s2 := s.(pc := Threads(Idle(Ok), UnlockWake, Idle(Ok)));
    var s3 := s.(pc := Threads(Idle(Ok), Idle(Ok), Idle(Ok)));
    hide Leads, FutexWait;
    Then(s0, s, Run(1), s1);
    Release(s0, s1, 1);
    assert s1.pc[1 := UnlockWake] == s2.pc;
    Then(s0, s2, Run(1), s3);
  }

  /** One more park: thread 1 parks, is released, takes and releases the mutex; then the two contend again. */
  lemma ParkOnce(s0: State, k: u32)
    requires Leads(s0, Waiting(k)) && k + 1 < 0x1_0000_0000
    ensures Leads(s0, Waiting(k + 1))
  {
    var s := Waiting(k + 1);
    var s1 := s.(pc := Threads(Holding, Parked, Idle(Ok)), waiters := [Waiter(1, LOCKED_WAIT)]);
    var s2 := s1.(word := UNLOCKED, pc := Threads(UnlockWake, Parked, Idle(Ok)));
    var s3 := s.(word := UNLOCKED, pc := Threads(Idle(Ok), Retry, Idle(Ok)));
    hide Leads, FutexWake, Step, Enabled;
    Park(s0, Waiting(k), 1);
    assert FutexWait(Waiting(k), 1) == s1;
    hide FutexWait;
    Release(s0, s1, 0);
    assert s1.pc[0 := UnlockWake] == s2.pc;
    Released(s2);
    Then(s0, s2, Run(0), s3);
    TakeAndRelease(s0, s3);
    Begin(s0, s3.(pc := Threads(Idle(Ok), Idle(Ok), Idle(Ok))));
  }

  lemma {:induction false} ParkOften(k: u32)
    ensures Init(Start()) && Leads(Start(), Waiting(k))
  {
    if k == 0 {
      assert IsRun(Start(), [], Start());
      assert Leads(Start(), Start());
      Begin(Start(), Start());
    } else {
      ParkOften(k - 1);
      ParkOnce(Start(), k - 1);
    }
  }

  /** A reachable state from which nothing prevents the panic: the 2^32-th park leaves two threads parked. */
  lemma CanBeDoomed() returns (s0: State, es: seq<Event>, s: State)
    ensures Init(s0) && IsRun(s0, es, s) && Doomed(s) && s.parks == 0x1_0000_0000
  {
    s0 := Start();
    var k := 0xFFFF_FFFE;
    ParkOften(k);
    hide IsRun, Leads, FutexWake, Step, Enabled, Doomed;
    var s1 := Waiting(k + 1).(pc := Threads(Holding, Parked, Idle(Ok)), waiters := [Waiter(1, LOCKED_WAIT)]);
    var s2 := s1.(pc := Threads(Holding, Parked, WaitCall));
    Park(s0, Waiting(k), 1);
    assert FutexWait(Waiting(k), 1) == s1;
    Contend(s0, s1, 2);
    assert s1.pc[2 := WaitCall] == s2.pc;
    Park(s0, s2, 2);
    s := FutexWait(s2, 2);
    NobodyElse(s);
    es := Path(s0, s);
  }

  /** Two threads are parked, and the holder has nobody to contend with. */
  lemma NobodyElse(s: State)
    requires s.pc == Threads(Holding, Parked, Parked) && |s.waiters| == 2 && s.entry.created && s.entry.size == 0
    ensures Doomed(s)
  {
    assert forall t :: t in s.pc ==> !Locker(s.pc[t]);
  }

  lemma Path(s: State, s': State) returns (es: seq<Event>)
    requires Leads(s, s')
    ensures IsRun(s, es, s')
  {
    es :| IsRun(s, es, s');
  }

  // ----- no state is stuck: every state can be driven to rest

  /** How far a thread is from the end of its call when it runs alone. */
  function Rank(pc: Pc): nat {
    match pc
    case Idle(_) => 0
    case Parked => 0
    case UnlockWake => 1
    case UnlockStore => 2
    case UnlockSub => 3
    case UnlockCheck => 4
    case Holding => 5
    case HeldTryFast => 6
    case HeldTryCheck => 7
    case LockFast => 6
    case TryFast => 6
    case Retry => 6
    case WaitCall => 7
    case LoopTop(_) => 8
    case LockCheck => 9
    case TryCheck => 9
  }

  /** Nobody else has the mutex. */
  ghost predicate Unopposed(s: State, t: Tid) {
    t in s.pc && (Owner(s.pc[t]) || s.pc[t].UnlockWake? || s.pc[t].Idle? || s.word == UNLOCKED)
  }

  ghost predicate OthersKeep(s: State, t: Tid, s': State) {
    && s'.pc.Keys == s.pc.Keys
    && forall u :: u in s.pc && u != t ==> s'.pc[u].Idle? == s.pc[u].Idle?
  }

  /** What thread t does next. */
  function NextEvent(s: State, t: Tid): Event
    requires t in s.pc
  {
    if s.pc[t].Holding? then CallUnlock(t) else Run(t)
  }

  /** The system has not panicked, and no wake will delete the queue while a thread is left in it. */
  predicate Steady(s: State) {
    !s.entry.panicked && (s.entry.created && s.entry.size == 0 ==> |s.waiters| <= 1)
  }

  /** Which holds during the first 2^32 - 1 parks. */
  lemma EarlySteady(s: State)
    requires Inv(s) && s.parks < 0x1_0000_0000
    ensures Steady(s)
  {
  }

  ghost predicate Closer(s: State, t: Tid, s': State) {
    && t in s.pc && Steady(s') && OthersKeep(s, t, s') && Unopposed(s', t)
    && !s'.pc[t].Parked? && Rank(s'.pc[t]) < Rank(s.pc[t])
  }

  lemma AloneWake(s: State, t: Tid)
    requires Inv(s) && Steady(s) && t in s.pc && s.pc[t].UnlockWake?
    ensures Closer(s, t, FutexWake(s, t)) && FutexWake(s, t).pc[t].Idle?
  {
    hide WordsOk, Exclusive, NoLostWakeup, FutexWake;
    if s.word == LOCKED_WAIT || s.waiters == [] {
      WakeNobody(s, t);
      if !s.entry.created { NoEntry(s, t); }
    } else {
      WakeHead(s, t);
      assert s.pc[s.waiters[0].tid].Parked?;
    }
  }

  lemma NoEntry(s: State, t: Tid)
    requires !s.entry.created
    ensures FutexWake(s, t) == Goto(s, t, Idle(FutexError))
  {
  }

  lemma AloneOwner(s: State, t: Tid)
    requires Inv(s) && Steady(s) && t in s.pc && Owner(s.pc[t])
    ensures Enabled(s, NextEvent(s, t))
    ensures Closer(s, t, Step(s, NextEvent(s, t)))
  {
    OwnerMeansLocked(s, t);
    assert WordsOk(s);
    hide QueueOk, Exclusive, NoLostWakeup, FutexWake, Inv;
  }

  lemma AloneLocker(s: State, t: Tid)
    requires WordsOk(s) && Steady(s) && t in s.pc && s.word == UNLOCKED
    requires !s.pc[t].Idle? && !s.pc[t].Parked? && !s.pc[t].UnlockWake? && !Owner(s.pc[t])
    ensures Enabled(s, NextEvent(s, t))
    ensures Closer(s, t, Step(s, NextEvent(s, t)))
  {
  }

  /** A thread running alone always has a next step, and it brings the thread nearer to its end. */
  lemma AloneStep(s: State, t: Tid)
    requires Inv(s) && Steady(s) && t in s.pc && Unopposed(s, t) && !s.pc[t].Idle? && !s.pc[t].Parked?
    ensures Enabled(s, NextEvent(s, t))
    ensures Closer(s, t, Step(s, NextEvent(s, t)))
  {
    hide Exclusive, QueueOk, NoLostWakeup, FutexWake, Closer, WordsOk;
    if s.pc[t].UnlockWake? {
      AloneWake(s, t);
    } else if Owner(s.pc[t]) {
      AloneOwner(s, t);
    } else {
      AloneLocker(s, t);
    }
  }

  lemma {:induction false} RunConcat(s: State, es: seq<Event>, s1: State, es1: seq<Event>, s2: State)
    requires IsRun(s, es, s1) && IsRun(s1, es1, s2)
    ensures IsRun(s, es + es1, s2)
    decreases |es|
  {
    hide Step, Enabled;
    if es == [] {
      assert es + es1 == es1;
    } else {
      RunConcat(Step(s, es[0]), es[1..], s1, es1, s2);
      assert (es + es1)[1..] == es[1..] + es1;
    }
  }

  lemma RunFirst(s: State, e: Event, es: seq<Event>, s': State)
    requires Enabled(s, e) && IsRun(Step(s, e), es, s')
    ensures IsRun(s, [e] + es, s')
  {
    hide Step, Enabled;
    assert ([e] + es)[1..] == es;
  }

  /** A schedule in which no thread starts to take the mutex anew. */
  ghost predicate NoNewLock(es: seq<Event>) {
    forall i :: 0 <= i < |es| ==> !es[i].CallLock? && !es[i].CallTryLock?
  }

  /** Running one unopposed thread alone brings it back to rest. */
  lemma {:induction false} FinishAlone(s: State, t: Tid) returns (es: seq<Event>, s': State)
    requires Inv(s) && Steady(s) && t in s.pc && Unopposed(s, t) && !s.pc[t].Parked?
    ensures IsRun(s, es, s') && NoNewLock(es) && Inv(s') && Steady(s') && OthersKeep(s, t, s') && s'.pc[t].Idle?
    decreases Rank(s.pc[t])
  {
    hide Inv, Step, Enabled, Unopposed;
    if s.pc[t].Idle? {
      es, s' := [], s;
    } else {
      AloneStep(s, t);
      var e := NextEvent(s, t);
      StepInv(s, e);
      es, s' := FinishAlone(Step(s, e), t);
      RunFirst(s, e, es, s');
      es := [e] + es;
    }
  }

  function Busy(s: State): set<Tid> {
    set t | t in s.pc && !s.pc[t].Idle?
  }

  lemma OneLessBusy(s: State, t: Tid, s': State)
    requires t in s.pc && !s.pc[t].Idle? && OthersKeep(s, t, s') && s'.pc[t].Idle?
    ensures |Busy(s')| < |Busy(s)|
  {
    assert Busy(s') == Busy(s) - {t};
  }

  lemma BusyThread(s: State, t: Tid)
    requires t in Busy(s)
    ensures t in s.pc && !s.pc[t].Idle?
  {
  }

  lemma NotBusy(s: State)
    requires Busy(s) == {}
    ensures forall t :: t in s.pc ==> s.pc[t].Idle?
  {
    forall t | t in s.pc
      ensures s.pc[t].Idle?
    {
      assert t !in Busy(s);
    }
  }

  lemma AllAtRest(s: State)
    requires Inv(s) && forall t :: t in s.pc ==> s.pc[t].Idle? || s.pc[t].Parked?
    ensures Busy(s) == {}
  {
    QuiescentIsFree(s);
  }

  /** A thread that can be run alone: the owner if there is one, otherwise anyone awake. */
  lemma PickAwake(s: State) returns (t: Tid)
    requires Inv(s) && Busy(s) != {}
    ensures t in Busy(s) && Unopposed(s, t) && !s.pc[t].Parked?
  {
    hide QueueOk;
    if Owned(s) {
      t :| t in s.pc && Owner(s.pc[t]);
    } else {
      if forall u :: u in s.pc ==> s.pc[u].Idle? || s.pc[u].Parked? {
        AllAtRest(s);
        assert false;
      }
      t :| t in s.pc && !s.pc[t].Idle? && !s.pc[t].Parked?;
    }
  }

  /**
    No deadlock: from every reachable state in which the queue's counter is not
    wrapped some schedule, without any new call to lock, brings every thread out
    of its call and frees the mutex.
  */
  lemma {:induction false} Drain(s: State) returns (es: seq<Event>, s': State)
    requires Inv(s) && Steady(s)
    ensures IsRun(s, es, s') && NoNewLock(es) && Inv(s')
    ensures s'.word == UNLOCKED && s'.waiters == [] && forall t :: t in s'.pc ==> s'.pc[t].Idle?
    decreases |Busy(s)|
  {
    hide Inv, Unopposed;
    if Busy(s) == {} {
      es, s' := [], s;
      NotBusy(s);
      QuiescentIsFree(s);
    } else {
      var t := PickAwake(s);
      BusyThread(s, t);
      var es1, s1 := FinishAlone(s, t);
      OneLessBusy(s, t, s1);
      var es2;
      es2, s' := Drain(s1);
      RunConcat(s, es1, s1, es2, s');
      es := es1 + es2;
    }
  }

  // ----- the wrapped counter: exactly which states can be driven to rest

  /** Some schedule without new calls to lock brings every thread out of its call. */
  ghost predicate Drainable(s: State) {
    exists es, s' :: IsRun(s, es, s') && NoNewLock(es) && forall t :: t in s'.pc ==> s'.pc[t].Idle?
  }

  predicate Locker(pc: Pc) {
    pc.LockCheck? || pc.LockFast? || Retrying(pc)
  }

  predicate Taker(pc: Pc) {
    Owner(pc) || Locker(pc) || pc.TryCheck? || pc.TryFast?
  }

  /** A thread can be made to park: it is in mutex_lock, and another one has the mutex or is after it. */
  ghost predicate Contest(s: State) {
    exists l, o :: l in s.pc && o in s.pc && l != o && Locker(s.pc[l]) && Taker(s.pc[o])
  }

  /** The counter of the queue stands at 0 with several threads parked, and nobody will park before the next wake. */
  ghost predicate Doomed(s: State) {
    s.entry.created && s.entry.size == 0 && |s.waiters| >= 2 && !Contest(s)
  }

  /** Doomed, or the wake has come and the system has panicked. */
  ghost predicate Lost(s: State) {
    s.waiters != [] && (s.entry.panicked || Doomed(s))
  }

  lemma MoveStaysDoomed(s: State, t: Tid, s': State)
    requires Doomed(s) && MovesOnly(s, t, s')
    requires (Locker(s'.pc[t]) ==> Locker(s.pc[t])) && (Taker(s'.pc[t]) ==> Taker(s.pc[t]))
    ensures Lost(s')
  {
    hide Contest, Locker, Taker;
    NoNewContest(s, t, s');
  }

  lemma NoNewContest(s: State, t: Tid, s': State)
    requires MovesOnly(s, t, s')
    requires (Locker(s'.pc[t]) ==> Locker(s.pc[t])) && (Taker(s'.pc[t]) ==> Taker(s.pc[t]))
    ensures Contest(s') ==> Contest(s)
  {
    hide Locker, Taker;
    if Contest(s') {
      var l, o :| l in s'.pc && o in s'.pc && l != o && Locker(s'.pc[l]) && Taker(s'.pc[o]);
      assert Locker(s.pc[l]) && Taker(s.pc[o]);
    }
  }

  lemma OwnerContested(s: State, t: Tid)
    requires t in s.pc && Locker(s.pc[t])
    ensures Owned(s) ==> Contest(s)
  {
    if Owned(s) {
      var o :| o in s.pc && Owner(s.pc[o]);
      assert Taker(s.pc[o]);
    }
  }

  /** In a doomed state a thread about to wait finds the mutex free. */
  lemma DoomedWait(s: State, t: Tid)
    requires Inv(s) && Doomed(s) && t in s.pc && s.pc[t].WaitCall?
    ensures s.word == UNLOCKED
  {
    hide QueueOk, NoLostWakeup, Contest, Owned;
    OwnerContested(s, t);
  }

  lemma DoomedStep(s: State, e: Event)
    requires Inv(s) && Doomed(s) && Enabled(s, e) && !e.CallLock? && !e.CallTryLock?
    ensures Lost(Step(s, e))
  {
    var t, s' := e.t, Step(s, e);
    hide Inv, Exclusive, QueueOk, NoLostWakeup, EntryOk, Doomed, Lost, FutexWake;
    if e.CallUnlock? {
      MoveStaysDoomed(s, t, s');
    } else if s.pc[t].UnlockWake? {
      DoomedWake(s, t);
    } else {
      if s.pc[t].WaitCall? { DoomedWait(s, t); }
      NoNewLocker(s, t);
      hide *;
      MoveStaysDoomed(s, t, s');
    }
  }

  /** No step but a call makes a thread a locker or a taker. */
  lemma NoNewLocker(s: State, t: Tid)
    requires Enabled(s, Run(t)) && !s.pc[t].UnlockWake? && (s.pc[t].WaitCall? ==> s.word != LOCKED_WAIT)
    ensures var s' := Step(s, Run(t));
            && MovesOnly(s, t, s')
            && (Locker(s'.pc[t]) ==> Locker(s.pc[t])) && (Taker(s'.pc[t]) ==> Taker(s.pc[t]))
  {
    hide FutexWake;
  }

  lemma DoomedWake(s: State, t: Tid)
    requires Inv(s) && Doomed(s) && t in s.pc && s.pc[t].UnlockWake?
    ensures Lost(FutexWake(s, t))
  {
    hide Exclusive, NoLostWakeup, Contest, FutexWake, QueueOk;
    if s.word == LOCKED_WAIT {
      WakeNobody(s, t);
      MoveStaysDoomed(s, t, FutexWake(s, t));
    } else {
      WakeHead(s, t);
      assert |s.waiters[1..]| == |s.waiters| - 1;
    }
  }

  /** From a doomed state every schedule leaves a thread parked, or ends in a panic that does. */
  lemma {:induction false} DoomedRun(s: State, es: seq<Event>, s': State)
    requires Inv(s) && IsRun(s, es, s') && NoNewLock(es)
    ensures Lost(s) ==> Lost(s')
    decreases |es|
  {
    hide Inv, Step, Doomed;
    if es != [] && Lost(s) {
      StepInv(s, es[0]);
      DoomedStep(s, es[0]);
      assert forall i :: 0 <= i < |es[1..]| ==> es[1..][i] == es[i + 1];
      DoomedRun(Step(s, es[0]), es[1..], s');
    }
  }

  lemma NearerTake(s: State, t: Tid)
    requires Inv(s) && !s.entry.panicked && s.word == UNLOCKED && t in s.pc && Taker(s.pc[t])
    ensures Enabled(s, Run(t)) && t in Step(s, Run(t)).pc
    ensures var s1 := Step(s, Run(t));
            && s1.entry == s.entry && s1.pc == s.pc[t := s1.pc[t]]
            && (s1.word == UNLOCKED ==> Taker(s1.pc[t]) && Rank(s1.pc[t]) < Rank(s.pc[t]))
  {
    if Owner(s.pc[t]) { OwnerMeansLocked(s, t); }
    hide Inv, Exclusive, QueueOk, NoLostWakeup, FutexWake, EntryOk;
  }

  /** While nobody has the mutex, a thread after it can take it. */
  lemma {:induction false} TakeAlone(s: State, t: Tid) returns (es: seq<Event>, s': State)
    requires Inv(s) && !s.entry.panicked && s.word == UNLOCKED && t in s.pc && Taker(s.pc[t])
    ensures IsRun(s, es, s') && NoNewLock(es) && Inv(s') && s'.word != UNLOCKED
    ensures s'.entry == s.entry && s'.pc.Keys == s.pc.Keys && forall u :: u in s.pc && u != t ==> s'.pc[u] == s.pc[u]
    decreases Rank(s.pc[t])
  {
    NearerTake(s, t);
    StepInv(s, Run(t));
    var s1 := Step(s, Run(t));
    hide Inv, Step, Enabled, Rank, Taker;
    if s1.word == UNLOCKED {
      es, s' := TakeAlone(s1, t);
    } else {
      es, s' := [], s1;
    }
    RunFirst(s, Run(t), es, s');
    es := [Run(t)] + es;
  }

  /** How far a locker is from parking while another thread has the mutex. */
  function ParkRank(pc: Pc, word: Word): nat {
    match pc
    case WaitCall => if word == LOCKED_WAIT then 0 else 4
    case LoopTop(seen) => if word == LOCKED && seen == LOCKED_WAIT then 5 else 1
    case LockCheck => 4
    case _ => 3
  }

  lemma NearerPark(s: State, t: Tid)
    requires Inv(s) && !s.entry.panicked && s.word != UNLOCKED && t in s.pc && Locker(s.pc[t])
    ensures Enabled(s, Run(t)) && t in Step(s, Run(t)).pc
    ensures var s1 := Step(s, Run(t));
            if s1.pc[t].Parked? then s1.entry == AfterWait(s.entry)
            else && s1.entry == s.entry && s1.word != UNLOCKED && Locker(s1.pc[t])
                 && ParkRank(s1.pc[t], s1.word) < ParkRank(s.pc[t], s.word)
  {
    assert WordsOk(s);
    hide Inv, Exclusive, QueueOk, NoLostWakeup, FutexWake;
  }

  lemma {:induction false} ParkAlone(s: State, t: Tid) returns (es: seq<Event>, s': State)
    requires Inv(s) && !s.entry.panicked && s.word != UNLOCKED && t in s.pc && Locker(s.pc[t])
    ensures IsRun(s, es, s') && NoNewLock(es) && Inv(s') && s'.entry == AfterWait(s.entry)
    decreases ParkRank(s.pc[t], s.word)
  {
    StepInv(s, Run(t));
    NearerPark(s, t);
    var s1 := Step(s, Run(t));
    hide Inv, Step, ParkRank, Locker;
    if s1.pc[t].Parked? {
      es, s' := [], s1;
    } else {
      es, s' := ParkAlone(s1, t);
    }
    RunFirst(s, Run(t), es, s');
    es := [Run(t)] + es;
  }

  lemma Nothing(s: State) returns (es: seq<Event>)
    ensures es == [] && IsRun(s, es, s)
  {
    es := [];
  }

  /** A contest lets one more thread park before the next wake, which takes the counter off 0. */
  lemma Rescue(s: State) returns (es: seq<Event>, s': State)
    requires Inv(s) && !s.entry.panicked && s.entry.size == 0 && Contest(s)
    ensures IsRun(s, es, s') && NoNewLock(es) && Inv(s') && Steady(s')
  {
    hide Inv, IsRun, Taker, Locker;
    var l, o :| l in s.pc && o in s.pc && l != o && Locker(s.pc[l]) && Taker(s.pc[o]);
    var s1 := s;
    es := Nothing(s);
    if s.word == UNLOCKED { es, s1 := TakeAlone(s, o); }
    var es1;
    hide Contest;
    es1, s' := ParkAlone(s1, l);
    RunConcat(s, es, s1, es1, s');
    es := es + es1;
  }

  /** A run that ends at rest did not start lost. */
  lemma NeverLost(s: State, es: seq<Event>, s': State)
    requires Inv(s) && IsRun(s, es, s') && NoNewLock(es) && forall t :: t in s'.pc ==> s'.pc[t].Idle?
    ensures !s.entry.panicked && !Doomed(s)
  {
    RunInv(s, es, s');
    DoomedRun(s, es, s');
    QuiescentIsFree(s');
    hide IsRun, Contest;
  }

  /**
    Deadlock comes with the wrapped counter only: a reachable state can be driven
    to rest exactly when the system has not panicked and is not doomed to.
  */
  lemma CanDrain(s: State)
    requires Inv(s)
    ensures Drainable(s) <==> !s.entry.panicked && !Doomed(s)
  {
    assert IsRun(s, [], s);
    hide Inv, IsRun, Contest;
    if Drainable(s) {
      var es, s' :| IsRun(s, es, s') && NoNewLock(es) && forall t :: t in s'.pc ==> s'.pc[t].Idle?;
      NeverLost(s, es, s');
    }
    if !s.entry.panicked && !Doomed(s) {
      var es, s1 := [], s;
      if !Steady(s) { es, s1 := Rescue(s); }
      var es1, s' := Drain(s1);
      RunConcat(s, es, s1, es1, s');
      assert IsRun(s, es + es1, s') && NoNewLock(es + es1);
    }
  }
}
