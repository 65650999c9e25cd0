/**
  The counting semaphore over a futex, as a step protocol.  Any number of
  threads pend, try-pend and post; taking the spinlock, each stretch of code
  under it, and each futex call is one atomic step.
*/
module Semaphore {
  import opened Digits
  import opened Futex

  datatype Return = Ok | UnauthorizedAction | FutexError

  /** Where a thread is in its call; the threads marked (locked) hold the spinlock. */
  datatype Pc =
    | Idle(ret: Return)
    | PendLock             // sem_pend: taking the spinlock
    | PendTest             // (locked) the while test
    | PendWait(val: Word)  // about to call futex_wait on the level seen
    | Parked
    | Relock               // back from futex_wait, taking the spinlock
    | Unwait               // (locked) no longer a waiter
    | TryLock              // sem_trypend: taking the spinlock
    | TryTest              // (locked)
    | PostLock             // sem_post: taking the spinlock
    | PostAdd              // (locked)
    | PostWake             // (locked) about to call futex_wake

  datatype Lock = Free | Held(t: Tid)

  /** The shared fields, the threads, and counts of what has happened so far. */
  datatype State = State(
    level: int, waiters: int, lock: Lock, pc: map<Tid, Pc>, queue: seq<Waiter>, entry: Entry,
    init: int, posts: nat, taken: nat, parks: nat)

  datatype Event = CallPend(t: Tid) | CallTryPend(t: Tid) | CallPost(t: Tid) | Run(t: Tid)

  predicate Locking(pc: Pc) {
    pc.PendLock? || pc.Relock? || pc.TryLock? || pc.PostLock?
  }

  predicate Locked(pc: Pc) {
    pc.PendTest? || pc.Unwait? || pc.TryTest? || pc.PostAdd? || pc.PostWake?
  }

  /** Incrementing a level of INT32_MAX is undefined in C, so such a post is no step of the model. */
  predicate Enabled(s: State, e: Event) {
    e.t in s.pc && !s.entry.panicked &&
    match e
    case CallPend(t) => s.pc[t].Idle?
    case CallTryPend(t) => s.pc[t].Idle?
    case CallPost(t) => s.pc[t].Idle?
    case Run(t) =>
      && !s.pc[t].Idle? && !s.pc[t].Parked?
      && (Locking(s.pc[t]) ==> s.lock.Free?)
      && (s.pc[t].PostAdd? ==> s.level < 0x7FFF_FFFF)
  }

  function Goto(s: State, t: Tid, pc: Pc): State {
    s.(pc := s.pc[t := pc])
  }

  function Take(s: State, t: Tid): State {
    Goto(s, t, Idle(Ok)).(level := s.level - 1, lock := Free, taken := s.taken + 1)
  }

  /** futex_wait(&level, val). */
  function FutexWait(s: State, t: Tid, val: Word): State {
    if s.level == val
    then Goto(s, t, Parked).(queue := [Waiter(t, val)] + s.queue, entry := AfterWait(s.entry), parks := s.parks + 1)
    else Goto(s, t, Relock)
  }

  /** futex_wake(&level, 1), then the spinlock is released. */
  function PostEnd(s: State, t: Tid): State
    requires -0x8000_0000 <= s.level < 0x8000_0000
  {
    if !s.entry.created then Goto(s, t, Idle(FutexError)).(lock := Free)
    else
      var woken, left := Woken(s.queue, s.level, 1), Left(s.queue, s.level, 1);
      var pc := s.pc[t := Idle(Ok)];
      s.(pc := if woken == [] then pc else pc[woken[0] := Relock], queue := left, lock := Free,
         entry := AfterWake(s.entry, woken != [], left == []))
  }

  predicate InRange(level: int) {
    -0x8000_0000 <= level < 0x8000_0000
  }

  function RunStep(s: State, t: Tid): State
    requires Enabled(s, Run(t)) && InRange(s.level)
  {
    match s.pc[t]
    case PendLock => Goto(s, t, PendTest).(lock := Held(t))
    case PendTest =>
      if s.level <= 0
      then Goto(s, t, PendWait(s.level)).(waiters := s.waiters + 1, lock := Free)
      else Take(s, t)
    case PendWait(val) => FutexWait(s, t, val)
    case Relock => Goto(s, t, Unwait).(lock := Held(t))
    case Unwait => Goto(s, t, PendTest).(waiters := s.waiters - 1)
    case TryLock => Goto(s, t, TryTest).(lock := Held(t))
    case TryTest =>
      if s.level <= 0 then Goto(s, t, Idle(UnauthorizedAction)).(lock := Free) else Take(s, t)
    case PostLock => Goto(s, t, PostAdd).(lock := Held(t))
    case PostAdd =>
      var s1 := s.(level := s.level + 1, posts := s.posts + 1);
      if s1.level > 0 && s.waiters > 0 then Goto(s1, t, PostWake) else Goto(s1, t, Idle(Ok)).(lock := Free)
    case PostWake => PostEnd(s, t)
  }

  function Step(s: State, e: Event): State
    requires Enabled(s, e) && InRange(s.level)
  {
    match e
    case CallPend(t) => Goto(s, t, PendLock)
    case CallTryPend(t) => Goto(s, t, TryLock)
    case CallPost(t) => Goto(s, t, PostLock)
    case Run(t) => RunStep(s, t)
  }

  ghost predicate IsRun(s: State, es: seq<Event>, s': State)
    decreases |es|
  {
    if es == [] then s == s'
    else InRange(s.level) && Enabled(s, es[0]) && IsRun(Step(s, es[0]), es[1..], s')
  }

  /** sem_init, with any int32 level and any threads, none of which has made a call. */
  ghost predicate Init(s: State) {
    && InRange(s.init) && s.level == s.init && s.waiters == 0 && s.lock.Free?
    && s.queue == [] && s.entry == Entry(false, 0, false) && s.posts == s.taken == s.parks == 0
    && forall t :: t in s.pc ==> s.pc[t] == Idle(Ok)
  }

  // ----- the invariant

  /** Threads counted as waiters that are not parked: they will look at the level again. */
  predicate Awake(pc: Pc) {
    pc.PendWait? || pc.Relock? || pc.Unwait?
  }

  function AwakeSet(pc: map<Tid, Pc>): set<Tid> {
    set t | t in pc && Awake(pc[t])
  }

  function ParkedSet(pc: map<Tid, Pc>): set<Tid> {
    set t | t in pc && pc[t].Parked?
  }

  /** The lock holder is about to look at the level, or about to wake a waiter. */
  function Pending(s: State): nat {
    if s.lock.Held? && s.lock.t in s.pc && (s.pc[s.lock.t].PendTest? || s.pc[s.lock.t].PostWake?) then 1 else 0
  }

  ghost predicate LockOk(s: State) {
    && (s.lock.Held? ==> s.lock.t in s.pc)
    && forall t :: t in s.pc ==> (Locked(s.pc[t]) <==> s.lock == Held(t))
  }

  ghost predicate QueueOk(s: State) {
    && (forall i :: 0 <= i < |s.queue| ==> s.queue[i].wait <= 0)
    && (forall i, j :: 0 <= i < j < |s.queue| ==> s.queue[i].tid != s.queue[j].tid)
    && (forall i :: 0 <= i < |s.queue| ==> s.queue[i].tid in s.pc && s.pc[s.queue[i].tid].Parked?)
    && (forall t :: t in s.pc && s.pc[t].Parked? ==> Queued(s.queue, t))
    && (s.queue != [] ==> s.entry.created)
    && (s.parks < 0x1_0000_0000 ==> s.entry == Entry(s.parks > 0, s.parks, false))
  }

  /** Permits are conserved, and taking never drives the level below zero. */
  ghost predicate LevelOk(s: State) {
    && InRange(s.level)
    && s.level == s.init + s.posts - s.taken
    && (s.level >= 0 || s.taken == 0)
    && (forall t :: t in s.pc && s.pc[t].PendWait? ==> s.pc[t].val <= 0)
    && (forall t :: t in s.pc && s.pc[t].PostWake? ==> s.level > 0)
  }

  ghost predicate CountOk(s: State) {
    && s.waiters == |AwakeSet(s.pc)| + |ParkedSet(s.pc)|
    && (ParkedSet(s.pc) != {} ==> s.level <= |AwakeSet(s.pc)| + Pending(s))
  }

  /** A panic comes in the middle of somebody's call. */
  ghost predicate HaltOk(s: State) {
    s.entry.panicked ==> exists t :: t in s.pc && !AtRest(s.pc[t])
  }

  ghost predicate Inv(s: State) {
    LockOk(s) && QueueOk(s) && LevelOk(s) && CountOk(s) && HaltOk(s)
  }

  lemma InitInv(s: State)
    requires Init(s)
    ensures Inv(s)
  {
    assert AwakeSet(s.pc) == {} && ParkedSet(s.pc) == {};
  }

  lemma CardWithout(a: set<Tid>, t: Tid)
    ensures |a - {t}| == |a| - (if t in a then 1 else 0)
  {
    if t !in a { assert a - {t} == a; }
  }

  lemma SameElsewhere(a: set<Tid>, b: set<Tid>, t: Tid)
    requires a - {t} == b - {t}
    ensures |b| == |a| - (if t in a then 1 else 0) + (if t in b then 1 else 0)
  {
    CardWithout(a, t);
    CardWithout(b, t);
  }

  lemma AwakeUpdate(pc: map<Tid, Pc>, t: Tid, x: Pc)
    requires t in pc
    ensures |AwakeSet(pc[t := x])| == |AwakeSet(pc)| - (if Awake(pc[t]) then 1 else 0) + (if Awake(x) then 1 else 0)
  {
    SameElsewhere(AwakeSet(pc), AwakeSet(pc[t := x]), t);
  }

  lemma ParkedUpdate(pc: map<Tid, Pc>, t: Tid, x: Pc)
    requires t in pc
    ensures |ParkedSet(pc[t := x])| == |ParkedSet(pc)| - (if pc[t].Parked? then 1 else 0) + (if x.Parked? then 1 else 0)
  {
    SameElsewhere(ParkedSet(pc), ParkedSet(pc[t := x]), t);
  }

  lemma CountUpdate(s: State, t: Tid, x: Pc)
    requires t in s.pc
    ensures |AwakeSet(s.pc[t := x])| ==
            |AwakeSet(s.pc)| - (if Awake(s.pc[t]) then 1 else 0) + (if Awake(x) then 1 else 0)
    ensures |ParkedSet(s.pc[t := x])| ==
            |ParkedSet(s.pc)| - (if s.pc[t].Parked? then 1 else 0) + (if x.Parked? then 1 else 0)
  {
    AwakeUpdate(s.pc, t, x);
    ParkedUpdate(s.pc, t, x);
  }

  /** A step that moves one thread and leaves the wait queue alone. */
  ghost predicate MovesOnly(s: State, t: Tid, x: Pc, s': State) {
    && t in s.pc && s'.pc == s.pc[t := x]
    && s'.queue == s.queue && s'.entry == s.entry && s'.parks == s.parks && s'.init == s.init
    && !s.pc[t].Parked? && !x.Parked?
  }

  lemma MoveKeepsQueue(s: State, t: Tid, x: Pc, s': State)
    requires QueueOk(s) && MovesOnly(s, t, x, s')
    ensures QueueOk(s')
  {
    hide Queued;
  }

  predicate Plain(pc: Pc) {
    !pc.Idle? && !pc.Parked? && !pc.PendWait? && !pc.PostWake?
  }

  lemma PlainLock(s: State, t: Tid)
    requires LockOk(s) && InRange(s.level) && Enabled(s, Run(t)) && Plain(s.pc[t])
    ensures LockOk(RunStep(s, t))
  {
  }

  lemma PlainLevel(s: State, t: Tid)
    requires LockOk(s) && LevelOk(s) && Enabled(s, Run(t)) && Plain(s.pc[t])
    ensures LevelOk(RunStep(s, t))
  {
  }

  lemma PlainCount(s: State, t: Tid)
    requires LockOk(s) && LevelOk(s) && CountOk(s) && Enabled(s, Run(t)) && Plain(s.pc[t])
    ensures CountOk(RunStep(s, t))
  {
    CountUpdate(s, t, RunStep(s, t).pc[t]);
    hide AwakeSet, ParkedSet, LevelOk;
    if s.pc[t].PendTest? || s.pc[t].PostAdd? {
      assert CountOk(RunStep(s, t));
    }
  }

  /** Every step except parking and waking. */
  lemma PlainStep(s: State, t: Tid)
    requires Inv(s) && Enabled(s, Run(t)) && Plain(s.pc[t])
    ensures Inv(RunStep(s, t))
  {
    MoveKeepsQueue(s, t, RunStep(s, t).pc[t], RunStep(s, t));
    hide LockOk, LevelOk, CountOk;
    PlainLock(s, t);
    PlainLevel(s, t);
    PlainCount(s, t);
  }

  lemma ParkKeepsQueue(s: State, t: Tid)
    requires QueueOk(s) && LevelOk(s) && t in s.pc && s.pc[t].PendWait? && s.level == s.pc[t].val
    ensures QueueOk(FutexWait(s, t, s.pc[t].val))
  {
    var s' := FutexWait(s, t, s.pc[t].val);
    hide Queued;
    assert forall i :: 0 <= i < |s.queue| ==> s.queue[i].tid != t;
    assert forall i :: 0 < i < |s'.queue| ==> s'.queue[i] == s.queue[i - 1];
    forall u | u in s'.pc && s'.pc[u].Parked?
      ensures Queued(s'.queue, u)
    {
      QueuedFirst(s.queue, Waiter(t, s.pc[t].val), u);
    }
  }

  lemma QueuedFirst(q: seq<Waiter>, w: Waiter, u: Tid)
    ensures Queued([w] + q, u) <==> u == w.tid || Queued(q, u)
  {
    var q' := [w] + q;
    assert q'[0].tid == w.tid;
    if Queued(q, u) {
      var i :| 0 <= i < |q| && q[i].tid == u;
      assert q'[i + 1].tid == u;
    }
  }

  /** Parking is safe because it needs the level the thread saw, which was not positive. */
  lemma WaitStep(s: State, t: Tid)
    requires Inv(s) && !s.entry.panicked && t in s.pc && s.pc[t].PendWait?
    ensures Inv(FutexWait(s, t, s.pc[t].val))
  {
    var s' := FutexWait(s, t, s.pc[t].val);
    CountUpdate(s, t, s'.pc[t]);
    if s.level == s.pc[t].val { ParkKeepsQueue(s, t); } else { MoveKeepsQueue(s, t, Relock, s'); }
    hide QueueOk, AwakeSet, ParkedSet;
    assert LockOk(s') && LevelOk(s') && CountOk(s');
  }

  /** A wake with nobody parked. */
  lemma PostNobody(s: State, t: Tid)
    requires Inv(s) && !s.entry.panicked && t in s.pc && s.pc[t].PostWake? && s.queue == []
    ensures Inv(PostEnd(s, t))
  {
    WokenNone(s.queue, s.level, 1);
    hide Woken, Left;
    var s' := PostEnd(s, t);
    CountUpdate(s, t, s'.pc[t]);
    NoneParked(s);
    MoveKeepsQueue(s, t, s'.pc[t], s');
    hide QueueOk, AwakeSet, ParkedSet;
    assert LockOk(s') && LevelOk(s') && CountOk(s');
  }

  lemma NoneParked(s: State)
    requires QueueOk(s) && s.queue == []
    ensures ParkedSet(s.pc) == {}
  {
  }

  /** A wake with someone parked: every stored value is not positive, so the head is released. */
  lemma PostHead(s: State, t: Tid)
    requires Inv(s) && t in s.pc && s.pc[t].PostWake? && s.queue != []
    ensures PostEnd(s, t) ==
            s.(pc := s.pc[t := Idle(Ok)][s.queue[0].tid := Relock], queue := s.queue[1..], lock := Free,
                  entry := AfterWake(s.entry, true, |s.queue| == 1))
  {
    assert LevelOk(s) && QueueOk(s);
    WokenOne(s.queue, s.level);
    hide Woken, Left, LockOk, CountOk;
  }

  lemma PostHeadQueue(s: State, t: Tid, s': State)
    requires QueueOk(s) && t in s.pc && !s.pc[t].Parked? && s.queue != []
    requires s' == s.(pc := s.pc[t := Idle(Ok)][s.queue[0].tid := Relock], queue := s.queue[1..], lock := Free,
                  entry := AfterWake(s.entry, true, |s.queue| == 1))
    ensures QueueOk(s')
  {
    forall u | u in s'.pc && s'.pc[u].Parked?
      ensures Queued(s'.queue, u)
    {
      var i :| 0 <= i < |s.queue| && s.queue[i].tid == u;
      assert s'.queue[i - 1].tid == u;
    }
  }

  lemma PostHeadCount(s: State, t: Tid, s': State)
    requires Inv(s) && t in s.pc && s.pc[t].PostWake? && s.queue != []
    requires s' == s.(pc := s.pc[t := Idle(Ok)][s.queue[0].tid := Relock], queue := s.queue[1..], lock := Free,
                  entry := AfterWake(s.entry, true, |s.queue| == 1))
    ensures CountOk(s')
  {
    var w := s.queue[0].tid;
    assert s.pc[w].Parked?;
    var s1 := Goto(s, t, Idle(Ok));
    CountUpdate(s, t, Idle(Ok));
    CountUpdate(s1, w, Relock);
    assert w in ParkedSet(s.pc);
    hide QueueOk, AwakeSet, ParkedSet;
  }

  lemma WakeStep(s: State, t: Tid)
    requires Inv(s) && !s.entry.panicked && t in s.pc && s.pc[t].PostWake?
    ensures Inv(PostEnd(s, t))
  {
    if s.queue == [] {
      PostNobody(s, t);
    } else {
      PostHead(s, t);
      var s' := PostEnd(s, t);
      PostHeadQueue(s, t, s');
      PostHeadCount(s, t, s');
      assert s.pc[s.queue[0].tid].Parked?;
      assert !AtRest(s'.pc[s.queue[0].tid]);
      hide QueueOk, CountOk, PostEnd;
      assert LockOk(s') && LevelOk(s');
    }
  }

  lemma CallStep(s: State, e: Event)
    requires Inv(s) && Enabled(s, e) && !e.Run?
    ensures Inv(Step(s, e))
  {
    var s' := Step(s, e);
    MoveKeepsQueue(s, e.t, s'.pc[e.t], s');
    CountUpdate(s, e.t, s'.pc[e.t]);
    hide QueueOk, AwakeSet, ParkedSet;
    assert LockOk(s') && LevelOk(s') && CountOk(s');
  }

  lemma StepInv(s: State, e: Event)
    requires Inv(s) && Enabled(s, e)
    ensures InRange(s.level) && Inv(Step(s, e)) && Step(s, e).init == s.init
  {
    assert LevelOk(s);
    hide LockOk, QueueOk, CountOk, PostEnd, FutexWait;
    if !e.Run? { CallStep(s, e); }
    else if Plain(s.pc[e.t]) { PlainStep(s, e.t); }
    else if s.pc[e.t].PendWait? { WaitStep(s, e.t); }
    else { WakeStep(s, e.t); }
  }

  /** Safety over whole runs. */
  lemma {:induction false} RunInv(s: State, es: seq<Event>, s': State)
    requires Inv(s) && IsRun(s, es, s')
    ensures Inv(s') && s'.init == s.init
    decreases |es|
  {
    hide Inv, Step, Enabled;
    if es != [] {
      StepInv(s, es[0]);
      RunInv(Step(s, es[0]), es[1..], s');
    }
  }

  // ----- theorems about every run from sem_init

  /** Permits are conserved, and no more are taken than were ever there. */
  lemma PermitsConserved(s0: State, es: seq<Event>, s: State)
    requires Init(s0) && IsRun(s0, es, s)
    ensures s.level == s0.level + s.posts - s.taken
    ensures s.taken == 0 || s.taken <= s0.level + s.posts
  {
    InitInv(s0);
    RunInv(s0, es, s);
  }

  /** The permits available while someone is parked all have an awake taker. */
  lemma PermitsHaveTakers(s0: State, es: seq<Event>, s: State, t: Tid)
    requires Init(s0) && IsRun(s0, es, s) && t in s.pc && s.pc[t].Parked?
    ensures s.level <= |AwakeSet(s.pc)| + Pending(s)
    ensures s.lock.Free? ==> s.level <= |AwakeSet(s.pc)|
    ensures s.waiters == |AwakeSet(s.pc)| + |ParkedSet(s.pc)|
    ensures s.level > 0 ==> exists u :: u in s.pc && (Awake(s.pc[u]) || s.pc[u].PendTest? || s.pc[u].PostWake?)
  {
    InitInv(s0);
    RunInv(s0, es, s);
    assert t in ParkedSet(s.pc);
    if s.level > 0 && Pending(s) == 0 {
      assert AwakeSet(s.pc) != {};
      var u :| u in AwakeSet(s.pc);
    }
  }

  /** When nobody is running, a parked thread means there is no permit, and no thread holds the spinlock. */
  lemma QuiescentHasNoPermit(s: State)
    requires Inv(s) && forall t :: t in s.pc ==> s.pc[t].Idle? || s.pc[t].Parked?
    ensures s.waiters == |ParkedSet(s.pc)|
    ensures ParkedSet(s.pc) != {} ==> s.level <= 0
  {
    assert AwakeSet(s.pc) == {};
  }

  /**
    What posting with waiters returns: the permit is always added.  The call
    reports a futex error exactly when the level has no queue at its wake, which
    during the first 2^32 - 1 parks means that no thread ever parked.
  */
  lemma PostReturn(s0: State, es: seq<Event>, s: State, t: Tid)
    requires Init(s0) && IsRun(s0, es, s) && t in s.pc && s.pc[t].PostWake? && !s.entry.panicked
    ensures InRange(s.level) && Enabled(s, Run(t)) && t in Step(s, Run(t)).pc
    ensures Step(s, Run(t)).pc[t] == Idle(if s.entry.created then Ok else FutexError)
    ensures s.parks < 0x1_0000_0000 ==> (s.entry.created <==> s.parks > 0)
    ensures Step(s, Run(t)).level == s.level
  {
    InitInv(s0);
    RunInv(s0, es, s);
    if s.queue == [] { WokenNone(s.queue, s.level, 1); } else { PostHead(s, t); }
    hide LockOk, CountOk, Woken, Left;
  }

  lemma {:induction false} RunAppend(s: State, es: seq<Event>, s1: State, e: Event)
    requires IsRun(s, es, s1) && InRange(s1.level) && Enabled(s1, e)
    ensures IsRun(s, es + [e], Step(s1, e))
    decreases |es|
  {
    hide Step, Enabled;
    if es == [] {
      assert ([e])[1..] == [];
      assert IsRun(Step(s1, e), [], Step(s1, e));
    } else {
      RunAppend(Step(s, es[0]), es[1..], s1, e);
      assert (es + [e])[1..] == es[1..] + [e];
    }
  }

  // ----- what a call does, from its start to its return

  /** A run with the states it goes through. */
  ghost predicate Trace(states: seq<State>, es: seq<Event>) {
    && |states| == |es| + 1
    && forall i :: 0 <= i < |es| ==>
         InRange(states[i].level) && Enabled(states[i], es[i]) && states[i + 1] == Step(states[i], es[i])
  }

  lemma {:induction false} TraceRun(states: seq<State>, es: seq<Event>)
    requires Trace(states, es)
    ensures IsRun(states[0], es, states[|es|])
    decreases |es|
  {
    hide Step, Enabled;
    if es != [] { TraceRun(states[1..], es[1..]); }
  }

  /** Every run has such states. */
  lemma {:induction false} RunTrace(s: State, es: seq<Event>, s': State) returns (states: seq<State>)
    requires IsRun(s, es, s')
    ensures Trace(states, es) && states[0] == s && states[|es|] == s'
    decreases |es|
  {
    hide Step, Enabled;
    if es == [] {
      states := [s];
    } else {
      var rest := RunTrace(Step(s, es[0]), es[1..], s');
      states := [s] + rest;
      assert forall i :: 1 <= i < |es| ==> es[i] == es[1..][i - 1];
    }
  }

  lemma TraceStep(states: seq<State>, es: seq<Event>, n: nat)
    requires Trace(states, es) && n < |es|
    ensures |states| == |es| + 1 && InRange(states[n].level) && Enabled(states[n], es[n])
    ensures states[n + 1] == Step(states[n], es[n])
  {
  }

  lemma {:induction false} TraceInv(states: seq<State>, es: seq<Event>, n: nat)
    requires Trace(states, es) && Inv(states[0]) && n < |states|
    ensures Inv(states[n])
  {
    hide Inv, Step, Enabled;
    if n > 0 {
      TraceInv(states, es, n - 1);
      StepInv(states[n - 1], es[n - 1]);
    }
  }

  /** Thread t makes no call in es[i..n]. */
  predicate NoCall(es: seq<Event>, t: Tid, i: nat, n: nat)
    requires n <= |es|
  {
    forall j :: i <= j < n ==> es[j].t != t || es[j].Run?
  }

  /** How many steps of its own thread t takes in es[i..n]. */
  function Own(es: seq<Event>, t: Tid, i: nat, n: nat): (c: nat)
    requires n <= |es|
  {
    if n <= i then 0 else Own(es, t, i, n - 1) + if es[n - 1] == Run(t) then 1 else 0
  }

  /** The steps of the others leave a thread where it is, but for a wake that releases it. */
  lemma OthersLeave(s: State, e: Event, t: Tid)
    requires Inv(s) && InRange(s.level) && Enabled(s, e) && t in s.pc && e.t != t
    ensures t in Step(s, e).pc
    ensures Step(s, e).pc[t] == s.pc[t] || (s.pc[t].Parked? && Step(s, e).pc[t].Relock?)
  {
    hide LevelOk, CountOk, LockOk, HaltOk, PostEnd;
    if e.Run? && s.pc[e.t].PostWake? { PostMoves(s, e.t); }
  }

  /** A wake returns its poster and moves nobody else but a parked thread. */
  lemma PostMoves(s: State, u: Tid)
    requires Inv(s) && u in s.pc && s.pc[u].PostWake? && InRange(s.level)
    ensures var s' := PostEnd(s, u);
            && s'.pc.Keys == s.pc.Keys && s'.pc[u] == Idle(if s.entry.created then Ok else FutexError)
            && forall v :: v in s.pc && v != u ==> s'.pc[v] == s.pc[v] || (s.pc[v].Parked? && s'.pc[v].Relock?)
  {
    if s.queue == [] { WokenNone(s.queue, s.level, 1); } else { PostHead(s, u); }
    hide LevelOk, CountOk, LockOk, HaltOk, Woken, Left;
  }

  /** Where a call starts. */
  lemma CallMoves(s: State, e: Event)
    requires InRange(s.level) && Enabled(s, e)
    ensures e.CallPend? ==> Step(s, e) == s.(pc := s.pc[e.t := PendLock])
    ensures e.CallTryPend? ==> Step(s, e) == s.(pc := s.pc[e.t := TryLock])
    ensures e.CallPost? ==> Step(s, e) == s.(pc := s.pc[e.t := PostLock])
  {
  }

  /** Step a is one of t's own. */
  ghost predicate At(states: seq<State>, es: seq<Event>, t: Tid, a: int) {
    0 <= a < |es| < |states| && es[a] == Run(t) && t in states[a].pc && t in states[a + 1].pc
  }

  /** Between i and n thread t found a permit while it held the spinlock, and took one. */
  ghost predicate TookOne(states: seq<State>, es: seq<Event>, t: Tid, i: nat, n: nat) {
    exists a :: i < a < n && At(states, es, t, a) && states[a].lock == Held(t) && states[a].level > 0
                && states[a + 1].level == states[a].level - 1 && states[a + 1].taken == states[a].taken + 1
                && states[a + 1].pc[t] == Idle(Ok) && states[a + 1].lock.Free?
  }

  /** Between i and n thread t found none, and went away with an error and nothing changed but the spinlock. */
  ghost predicate Refused(states: seq<State>, es: seq<Event>, t: Tid, i: nat, n: nat) {
    exists a :: i < a < n && At(states, es, t, a) && states[a].lock == Held(t) && states[a].level <= 0
                && states[a + 1] == states[a].(lock := Free, pc := states[a].pc[t := Idle(UnauthorizedAction)])
  }

  /** Between i and n thread t added a permit, and went on to wake somebody or did not. */
  ghost predicate Added(states: seq<State>, es: seq<Event>, t: Tid, i: nat, n: nat, waking: bool) {
    exists a :: i < a < n && At(states, es, t, a) && states[a].lock == Held(t)
                && states[a + 1].level == states[a].level + 1 && states[a + 1].posts == states[a].posts + 1
                && (waking <==> states[a].level + 1 > 0 && states[a].waiters > 0)
  }

  /** Between i and n thread t made its wake, with or without a table entry for the level. */
  ghost predicate Woke(states: seq<State>, es: seq<Event>, t: Tid, i: nat, n: nat, created: bool) {
    exists a :: i < a < n && At(states, es, t, a)
                && states[a].pc[t].PostWake? && states[a].entry.created == created
  }

  /** How far a try-pend has come, by the steps it has taken. */
  ghost predicate TryTrail(states: seq<State>, es: seq<Event>, t: Tid, i: nat, n: nat)
    requires n < |states| == |es| + 1 && t in states[n].pc
  {
    match states[n].pc[t]
    case TryLock => Own(es, t, i + 1, n) == 0
    case TryTest => Own(es, t, i + 1, n) == 1
    case Idle(ret) =>
      && Own(es, t, i + 1, n) == 2
      && ((ret == Ok && TookOne(states, es, t, i, n)) || (ret == UnauthorizedAction && Refused(states, es, t, i, n)))
    case _ => false
  }

  lemma TryTrailStep(states: seq<State>, es: seq<Event>, t: Tid, i: nat, n: nat)
    requires Trace(states, es) && i < n < |es| && Inv(states[n])
    requires t in states[n].pc && TryTrail(states, es, t, i, n) && (es[n].t != t || es[n].Run?)
    ensures t in states[n + 1].pc && TryTrail(states, es, t, i, n + 1)
  {
    TraceStep(states, es, n);
    if es[n].t != t {
      OthersLeave(states[n], es[n], t);
      hide Step, Enabled, Inv, At;
    } else {
      InvLock(states[n]);
      assert t in states[n + 1].pc ==> At(states, es, t, n);
      hide Inv, FutexWait, PostEnd;
    }
  }

  /**
    What a try-pend does, in every run: it never parks and is never counted as a
    waiter.  With its second step it returns, with a permit if it found one under
    the spinlock, and otherwise refused with nothing changed.
  */
  lemma {:induction false} TryOutcome(states: seq<State>, es: seq<Event>, t: Tid, i: nat, n: nat)
    requires Trace(states, es) && Init(states[0]) && i < n < |states|
    requires es[i] == CallTryPend(t) && NoCall(es, t, i + 1, n)
    ensures t in states[n].pc && TryTrail(states, es, t, i, n)
    decreases n
  {
    hide Inv, Init, Step, Enabled, TookOne, Refused;
    TraceStep(states, es, n - 1);
    if n == i + 1 {
      CallMoves(states[i], es[i]);
    } else {
      hide Trace, TryTrail;
      InitInv(states[0]);
      TraceInv(states, es, n - 1);
      TryOutcome(states, es, t, i, n - 1);
      TryTrailStep(states, es, t, i, n - 1);
    }
  }

  /** How far a pend has come: it returns only with a permit. */
  ghost predicate PendTrail(states: seq<State>, es: seq<Event>, t: Tid, i: nat, n: nat)
    requires n < |states| && t in states[n].pc
  {
    match states[n].pc[t]
    case Idle(ret) => ret == Ok && TookOne(states, es, t, i, n)
    case _ => Pender(states[n].pc[t]) || states[n].pc[t].Parked?
  }

  lemma PendTrailStep(states: seq<State>, es: seq<Event>, t: Tid, i: nat, n: nat)
    requires Trace(states, es) && i < n < |es| && Inv(states[n])
    requires t in states[n].pc && PendTrail(states, es, t, i, n) && (es[n].t != t || es[n].Run?)
    ensures t in states[n + 1].pc && PendTrail(states, es, t, i, n + 1)
  {
    TraceStep(states, es, n);
    if es[n].t != t {
      OthersLeave(states[n], es[n], t);
      hide Step, Enabled, Inv, At;
    } else {
      InvLock(states[n]);
      assert t in states[n + 1].pc ==> At(states, es, t, n);
      hide Inv, PostEnd;
    }
  }

  /** What a pend does, in every run: whatever happens meanwhile it returns only with a permit. */
  lemma {:induction false} PendOutcome(states: seq<State>, es: seq<Event>, t: Tid, i: nat, n: nat)
    requires Trace(states, es) && Init(states[0]) && i < n < |states|
    requires es[i] == CallPend(t) && NoCall(es, t, i + 1, n)
    ensures t in states[n].pc && PendTrail(states, es, t, i, n)
    decreases n
  {
    hide Inv, Init, Step, Enabled, TookOne;
    TraceStep(states, es, n - 1);
    if n == i + 1 {
      CallMoves(states[i], es[i]);
    } else {
      hide Trace, PendTrail;
      InitInv(states[0]);
      TraceInv(states, es, n - 1);
      PendOutcome(states, es, t, i, n - 1);
      PendTrailStep(states, es, t, i, n - 1);
    }
  }

  /** How far a post has come, by the steps it has taken. */
  ghost predicate PostTrail(states: seq<State>, es: seq<Event>, t: Tid, i: nat, n: nat)
    requires n < |states| == |es| + 1 && t in states[n].pc
  {
    match states[n].pc[t]
    case PostLock => Own(es, t, i + 1, n) == 0
    case PostAdd => Own(es, t, i + 1, n) == 1
    case PostWake => Own(es, t, i + 1, n) == 2 && Added(states, es, t, i, n, true)
    case Idle(ret) =>
      || (ret == Ok && Own(es, t, i + 1, n) == 2 && Added(states, es, t, i, n, false))
      || (Own(es, t, i + 1, n) == 3 && Added(states, es, t, i, n, true)
          && (ret == Ok || ret == FutexError) && Woke(states, es, t, i, n, ret == Ok))
    case _ => false
  }

  lemma PostTrailStep(states: seq<State>, es: seq<Event>, t: Tid, i: nat, n: nat)
    requires Trace(states, es) && i < n < |es| && Inv(states[n])
    requires t in states[n].pc && PostTrail(states, es, t, i, n) && (es[n].t != t || es[n].Run?)
    ensures t in states[n + 1].pc && PostTrail(states, es, t, i, n + 1)
  {
    hide Trace, Inv, Step, Enabled, Added, Woke, Own;
    TraceStep(states, es, n);
    AddedMore(states, es, t, i, n);
    OwnNext(es, t, i + 1, n);
    if es[n].t != t {
      OthersLeave(states[n], es[n], t);
    } else {
      InvLock(states[n]);
      PostSteps(states[n], t);
      if states[n].pc[t].PostAdd? { AddsOne(states, es, t, i, n); }
      if states[n].pc[t].PostWake? { WakesOne(states, es, t, i, n); }
    }
  }

  lemma OwnNext(es: seq<Event>, t: Tid, i: nat, n: nat)
    requires i <= n < |es|
    ensures Own(es, t, i, n + 1) == Own(es, t, i, n) + if es[n] == Run(t) then 1 else 0
  {
  }

  lemma AddsOne(states: seq<State>, es: seq<Event>, t: Tid, i: nat, n: nat)
    requires i < n < |es| < |states| && es[n] == Run(t) && t in states[n].pc && t in states[n + 1].pc
    requires states[n].lock == Held(t)
    requires states[n + 1].level == states[n].level + 1 && states[n + 1].posts == states[n].posts + 1
    ensures Added(states, es, t, i, n + 1, states[n].level + 1 > 0 && states[n].waiters > 0)
  {
    assert At(states, es, t, n);
  }

  lemma WakesOne(states: seq<State>, es: seq<Event>, t: Tid, i: nat, n: nat)
    requires i < n < |es| < |states| && es[n] == Run(t) && t in states[n].pc && t in states[n + 1].pc
    requires states[n].pc[t].PostWake?
    ensures Woke(states, es, t, i, n + 1, states[n].entry.created)
  {
    assert At(states, es, t, n);
  }

  lemma AddedMore(states: seq<State>, es: seq<Event>, t: Tid, i: nat, n: nat)
    ensures Added(states, es, t, i, n, true) ==> Added(states, es, t, i, n + 1, true)
    ensures Added(states, es, t, i, n, false) ==> Added(states, es, t, i, n + 1, false)
    ensures Woke(states, es, t, i, n, true) ==> Woke(states, es, t, i, n + 1, true)
    ensures Woke(states, es, t, i, n, false) ==> Woke(states, es, t, i, n + 1, false)
  {
    hide At;
  }

  /** The steps of a post. */
  lemma PostSteps(s: State, t: Tid)
    requires Inv(s) && LockOk(s) && InRange(s.level) && Enabled(s, Run(t))
    ensures !s.pc[t].Idle?
    ensures s.pc[t].PostLock? ==> t in Step(s, Run(t)).pc && Step(s, Run(t)).pc[t].PostAdd?
    ensures s.pc[t].PostAdd? ==>
              var s' := Step(s, Run(t));
              && s.lock == Held(t) && s'.level == s.level + 1 && s'.posts == s.posts + 1 && t in s'.pc
              && s'.pc[t] == if s.level + 1 > 0 && s.waiters > 0 then PostWake else Idle(Ok)
    ensures s.pc[t].PostWake? ==>
              t in Step(s, Run(t)).pc && Step(s, Run(t)).pc[t] == Idle(if s.entry.created then Ok else FutexError)
  {
    if s.pc[t].PostWake? { PostMoves(s, t); }
    hide Inv, PostEnd, FutexWait;
  }

  /**
    What a post does, in every run: it adds one permit.  It wakes somebody exactly
    if a permit is there then and a waiter counted, and then returns Ok or the futex
    error, as the level had a table entry or had none; otherwise it returns Ok.
  */
  lemma {:induction false} PostOutcome(states: seq<State>, es: seq<Event>, t: Tid, i: nat, n: nat)
    requires Trace(states, es) && Init(states[0]) && i < n < |states|
    requires es[i] == CallPost(t) && NoCall(es, t, i + 1, n)
    ensures t in states[n].pc && PostTrail(states, es, t, i, n)
    decreases n
  {
    hide Inv, Init, Step, Enabled, Added, Woke;
    TraceStep(states, es, n - 1);
    if n == i + 1 {
      CallMoves(states[i], es[i]);
    } else {
      hide Trace, PostTrail;
      InitInv(states[0]);
      TraceInv(states, es, n - 1);
      PostOutcome(states, es, t, i, n - 1);
      PostTrailStep(states, es, t, i, n - 1);
    }
  }

  // ----- runs that show what can go wrong

  ghost predicate Leads(s: State, s': State) {
    exists es :: IsRun(s, es, s')
  }

  lemma Then(s0: State, s: State, e: Event, s': State)
    requires Leads(s0, s) && InRange(s.level) && Enabled(s, e) && s' == Step(s, e)
    ensures Leads(s0, s')
  {
    var es :| IsRun(s0, es, s);
    RunAppend(s0, es, s, e);
  }

  lemma Path(s: State, s': State) returns (es: seq<Event>)
    requires Leads(s, s')
    ensures IsRun(s, es, s')
  {
    es :| IsRun(s, es, s');
  }

  function Threads(a: Pc, b: Pc, c: Pc): map<Tid, Pc> {
    map[0 := a, 1 := b, 2 := c]
  }

  /** Nobody is in a call, after k parks, posts and acquisitions from level 0. */
  function Resting(k: u32): State {
    State(0, 0, Free, Threads(Idle(Ok), Idle(Ok), Idle(Ok)), [], Entry(k > 0, k, false), 0, k, k, k)
  }

  /** A thread pends, finds no permit and goes to wait. */
  lemma Pend(s0: State, s: State, t: Tid)
    requires Leads(s0, s) && !s.entry.panicked && t in s.pc && s.pc[t].Idle? && s.lock.Free?
    requires -0x8000_0000 <= s.level <= 0
    ensures Leads(s0, s.(pc := s.pc[t := PendWait(s.level)], waiters := s.waiters + 1))
  {
    var s1 := Goto(s, t, PendLock);
    var s2 := Goto(s, t, PendTest).(lock := Held(t));
    hide Leads, FutexWait, PostEnd;
    Then(s0, s, CallPend(t), s1);
    Then(s0, s1, Run(t), s2);
    Then(s0, s2, Run(t), s.(pc := s.pc[t := PendWait(s.level)], waiters := s.waiters + 1));
  }

  /** And parks. */
  lemma Park(s0: State, s: State, t: Tid)
    requires Leads(s0, s) && !s.entry.panicked && t in s.pc && s.pc[t].PendWait? && InRange(s.level)
    ensures Leads(s0, FutexWait(s, t, s.pc[t].val))
  {
    hide Leads, FutexWait, PostEnd;
    Then(s0, s, Run(t), FutexWait(s, t, s.pc[t].val));
  }

  /** A thread posts while others wait, up to the wake. */
  lemma Post(s0: State, s: State, t: Tid)
    requires Leads(s0, s) && !s.entry.panicked && t in s.pc && s.pc[t].Idle? && s.lock.Free?
    requires 0 <= s.level < 0x7FFF_FFFF && s.waiters > 0
    ensures Leads(s0, s.(pc := s.pc[t := PostWake], lock := Held(t), level := s.level + 1, posts := s.posts + 1))
  {
    var s1 := Goto(s, t, PostLock);
    var s2 := Goto(s, t, PostAdd).(lock := Held(t));
    hide Leads, FutexWait, PostEnd;
    Then(s0, s, CallPost(t), s1);
    Then(s0, s1, Run(t), s2);
    Then(s0, s2, Run(t), s.(pc := s.pc[t := PostWake], lock := Held(t), level := s.level + 1, posts := s.posts + 1));
  }

  /** A thread that was released takes the permit. */
  lemma TakeOne(s0: State, s: State, t: Tid)
    requires Leads(s0, s) && !s.entry.panicked && t in s.pc && s.pc[t].Relock? && s.lock.Free?
    requires 0 < s.level <= 0x7FFF_FFFF
    ensures Leads(s0, s.(pc := s.pc[t := Idle(Ok)], waiters := s.waiters - 1,
                         level := s.level - 1, taken := s.taken + 1))
  {
    var s1 := Goto(s, t, Unwait).(lock := Held(t));
    var s2 := Goto(s, t, PendTest).(lock := Held(t), waiters := s.waiters - 1);
    hide Leads, FutexWait, PostEnd;
    Then(s0, s, Run(t), s1);
    Then(s0, s1, Run(t), s2);
    Then(s0, s2, Run(t), Take(s2, t));
    assert s2.pc[t := Idle(Ok)] == s.pc[t := Idle(Ok)];
  }

  /** A post whose level has no queue yet. */
  lemma NoQueue(s: State, s': State)
    requires !s.entry.created && !s.entry.panicked && s.level == 1
    requires s.pc == Threads(PostWake, PendWait(0), Idle(Ok))
    requires s' == s.(pc := Threads(Idle(FutexError), PendWait(0), Idle(Ok)), lock := Free)
    ensures Enabled(s, Run(0)) && Step(s, Run(0)) == s'
  {
  }

  /** A reachable state in which the permit was added but the post returned an error. */
  lemma PostCanReportError() returns (s0: State, es: seq<Event>, s: State)
    ensures Init(s0) && IsRun(s0, es, s)
    ensures s.level == 1 && s.posts == 1 && 0 in s.pc && s.pc[0] == Idle(FutexError)
  {
    s0 := Resting(0);
    assert IsRun(s0, [], s0);
    assert Leads(s0, s0);
    hide IsRun, Leads, FutexWait, Step, Enabled, PostEnd;
    Pend(s0, s0, 1);
    var s1 := s0.(pc := Threads(Idle(Ok), PendWait(0), Idle(Ok)), waiters := 1);
    assert s0.pc[1 := PendWait(0)] == s1.pc;
    Post(s0, s1, 0);
    var s2 := s1.(pc := Threads(PostWake, PendWait(0), Idle(Ok)), lock := Held(0), level := 1, posts := 1);
    assert s1.pc[0 := PostWake] == s2.pc;
    s := s1.(pc := Threads(Idle(FutexError), PendWait(0), Idle(Ok)), level := 1, posts := 1);
    NoQueue(s2, s);
    Then(s0, s2, Run(0), s);
    es := Path(s0, s);
  }

  /** Thread 1 is parked at level 0, the others rest. */
  function OneParked(k: u32): State
    requires k + 1 < 0x1_0000_0000
  {
    Resting(k).(pc := Threads(Idle(Ok), Parked, Idle(Ok)), waiters := 1, queue := [Waiter(1, 0)],
                entry := Entry(true, k + 1, false), parks := k + 1)
  }

  lemma ParkFirst(s0: State, k: u32)
    requires Leads(s0, Resting(k)) && k + 1 < 0x1_0000_0000
    ensures Leads(s0, OneParked(k))
  {
    var s := Resting(k);
    hide Leads, Step, Enabled, PostEnd;
    Pend(s0, s, 1);
    var s1 := s.(pc := Threads(Idle(Ok), PendWait(0), Idle(Ok)), waiters := 1);
    assert s.pc[1 := PendWait(0)] == s1.pc;
    Park(s0, s1, 1);
    assert FutexWait(s1, 1, 0) == OneParked(k);
  }

  /** Thread 1 parks at level 0, and thread 0 comes to post. */
  lemma ParkAndPost(s0: State, k: u32)
    requires Leads(s0, Resting(k)) && k + 1 < 0x1_0000_0000
    ensures Leads(s0, Posted(k))
  {
    hide Leads, Step, Enabled, PostEnd;
    ParkFirst(s0, k);
    Post(s0, OneParked(k), 0);
    assert OneParked(k).pc[0 := PostWake] == Threads(PostWake, Parked, Idle(Ok));
  }

  /** Then it is about to wake thread 1. */
  function Posted(k: u32): State
    requires k + 1 < 0x1_0000_0000
  {
    State(1, 1, Held(0), Threads(PostWake, Parked, Idle(Ok)), [Waiter(1, 0)], Entry(true, k + 1, false),
          0, k + 1, k, k + 1)
  }

  lemma Released(k: u32)
    requires k + 1 < 0x1_0000_0000
    ensures Enabled(Posted(k), Run(0))
    ensures Step(Posted(k), Run(0))
            == Posted(k).(lock := Free, pc := Threads(Idle(Ok), Relock, Idle(Ok)), queue := [])
  {
    WokenOne(Posted(k).queue, 1);
    hide Woken, Left;
  }

  /** One more park: thread 1 parks, is released by a post of thread 0, and takes the permit. */
  lemma ParkOnce(s0: State, k: u32)
    requires Leads(s0, Resting(k)) && k + 1 < 0x1_0000_0000
    ensures Leads(s0, Resting(k + 1))
  {
    hide Leads, Step, Enabled;
    ParkAndPost(s0, k);
    Released(k);
    var s := Posted(k).(lock := Free, pc := Threads(Idle(Ok), Relock, Idle(Ok)), queue := []);
    Then(s0, Posted(k), Run(0), s);
    TakeOne(s0, s, 1);
    assert s.pc[1 := Idle(Ok)] == Resting(k + 1).pc;
  }

  lemma {:induction false} ParkOften(k: u32)
    ensures Init(Resting(0)) && Leads(Resting(0), Resting(k))
  {
    if k == 0 {
      assert IsRun(Resting(0), [], Resting(0));
    } else {
      ParkOften(k - 1);
      ParkOnce(Resting(0), k - 1);
    }
  }

  /**
    A reachable state from which only a panic follows: a post is about to wake
    after the 2^32-th park left two threads parked.
  */
  lemma CanBeDoomed() returns (s0: State, es: seq<Event>, s: State)
    ensures Init(s0) && IsRun(s0, es, s) && Doomed(s) && s.parks == 0x1_0000_0000
  {
    s0 := Resting(0);
    ParkOften(0xFFFF_FFFE);
    hide Leads, IsRun, Doomed;
    ParkFirst(s0, 0xFFFF_FFFE);
    s := ParkSecond(s0, 0xFFFF_FFFE);
    es := Path(s0, s);
  }

  /** Thread 2 parks too, and thread 0 comes to post. */
  lemma ParkSecond(s0: State, k: u32) returns (s: State)
    requires k == 0xFFFF_FFFE && Leads(s0, OneParked(k))
    ensures Leads(s0, s) && Doomed(s) && s.parks == k + 2
  {
    hide Leads, Step, Enabled, PostEnd;
    var s1 := OneParked(k).(pc := Threads(Idle(Ok), Parked, PendWait(0)), waiters := 2);
    Pend(s0, OneParked(k), 2);
    assert OneParked(k).pc[2 := PendWait(0)] == s1.pc;
    Park(s0, s1, 2);
    var s2 := FutexWait(s1, 2, 0);
    Post(s0, s2, 0);
    s := s2.(pc := s2.pc[0 := PostWake], lock := Held(0), level := 1, posts := s2.posts + 1);
    assert 0 in s.pc && s.pc[0].PostWake?;
  }

  // ----- no state is stuck: every state settles

  predicate AtRest(pc: Pc) {
    pc.Idle? || pc.Parked?
  }

  predicate Posting(pc: Pc) {
    pc.PostLock? || pc.PostAdd? || pc.PostWake?
  }

  /** Threads in a post that has not raised the level yet. */
  function Adders(pc: map<Tid, Pc>): set<Tid> {
    set t | t in pc && (pc[t].PostLock? || pc[t].PostAdd?)
  }

  function Posters(pc: map<Tid, Pc>): set<Tid> {
    set t | t in pc && Posting(pc[t])
  }

  function Busy(pc: map<Tid, Pc>): set<Tid> {
    set t | t in pc && !AtRest(pc[t])
  }

  /** All posts under way fit below INT32_MAX. */
  ghost predicate Room(s: State) {
    s.level + |Adders(s.pc)| <= 0x7FFF_FFFF
  }

  /** The spinlock is free for thread t. */
  predicate Unopposed(s: State, t: Tid) {
    t in s.pc && (s.lock.Free? || s.lock == Held(t))
  }

  /** How far a thread is from the end of its call, or from parking, when it runs alone. */
  function Rank(s: State, t: Tid): nat
    requires t in s.pc
  {
    match s.pc[t]
    case Idle(_) => 0
    case Parked => 0
    case PendWait(val) => if val == s.level then 1 else 5
    case TryTest => 1
    case PostWake => 1
    case PendTest => 2
    case TryLock => 2
    case PostAdd => 2
    case PendLock => 3
    case Unwait => 3
    case PostLock => 3
    case Relock => 4
  }

  /** Other threads stay where they are, but a post may release one that is parked. */
  ghost predicate OthersKeep(s: State, t: Tid, s': State, posting: bool) {
    && s'.pc.Keys == s.pc.Keys
    && forall u :: u in s.pc && u != t ==> s'.pc[u] == s.pc[u] || (posting && s.pc[u].Parked? && s'.pc[u].Relock?)
  }

  /** The counter of the queue stands at 0 with several threads parked, so that the next wake panics. */
  predicate Wrapped(s: State) {
    s.entry.created && s.entry.size == 0 && |s.queue| >= 2
  }

  predicate Steady(s: State) {
    !s.entry.panicked && !Wrapped(s)
  }

  ghost predicate Waking(s: State) {
    exists t :: t in s.pc && s.pc[t].PostWake?
  }

  /** The posts under way will not panic: the next wake is harmless, or they all leave the level at 0 or below. */
  ghost predicate Quiet(s: State) {
    !s.entry.panicked && (Wrapped(s) ==> !Waking(s) && s.level + |Adders(s.pc)| <= 0)
  }

  ghost predicate Closer(s: State, t: Tid, s': State) {
    && t in s.pc && OthersKeep(s, t, s', Posting(s.pc[t])) && Unopposed(s', t)
    && Rank(s', t) < Rank(s, t) && |Busy(s'.pc)| <= |Busy(s.pc)|
    && (!s.pc[t].PendWait? && Steady(s) ==> Steady(s'))
    && (!s.pc[t].PostWake? && !s.entry.panicked ==> !s'.entry.panicked)
    && (Posting(s'.pc[t]) ==> Posting(s.pc[t]))
    && (Posting(s.pc[t]) ==> Posting(s'.pc[t]) || s'.pc[t].Idle?)
  }

  lemma AddersUpdate(pc: map<Tid, Pc>, t: Tid, x: Pc)
    requires t in pc
    ensures |Adders(pc[t := x])| == |Adders(pc)| - (if pc[t].PostLock? || pc[t].PostAdd? then 1 else 0)
                                                 + (if x.PostLock? || x.PostAdd? then 1 else 0)
  {
    SameElsewhere(Adders(pc), Adders(pc[t := x]), t);
  }

  lemma BusyUpdate(pc: map<Tid, Pc>, t: Tid, x: Pc)
    requires t in pc
    ensures |Busy(pc[t := x])| == |Busy(pc)| - (if AtRest(pc[t]) then 0 else 1) + (if AtRest(x) then 0 else 1)
  {
    SameElsewhere(Busy(pc), Busy(pc[t := x]), t);
  }

  lemma AloneRoom(s: State, t: Tid)
    requires InRange(s.level) && Room(s) && Enabled(s, Run(t)) && !s.pc[t].PostWake?
    ensures Room(RunStep(s, t))
  {
    AddersUpdate(s.pc, t, RunStep(s, t).pc[t]);
    hide Adders;
  }

  lemma AlonePlain(s: State, t: Tid)
    requires LockOk(s) && InRange(s.level) && Unopposed(s, t) && Enabled(s, Run(t)) && !s.pc[t].PostWake?
    ensures Closer(s, t, RunStep(s, t))
  {
    BusyUpdate(s.pc, t, RunStep(s, t).pc[t]);
    hide Busy;
  }

  lemma AloneWake(s: State, t: Tid)
    requires Inv(s) && Room(s) && t in s.pc && s.pc[t].PostWake?
    ensures InRange(s.level) && Closer(s, t, PostEnd(s, t)) && Room(PostEnd(s, t))
  {
    var s' := PostEnd(s, t);
    if s.queue == [] {
      WokenNone(s.queue, s.level, 1);
      hide Woken, Left;
      AddersUpdate(s.pc, t, s'.pc[t]);
      BusyUpdate(s.pc, t, s'.pc[t]);
    } else {
      PostHead(s, t);
      var w := s.queue[0].tid;
      assert s.pc[w].Parked?;
      AddersUpdate(s.pc, t, Idle(Ok));
      AddersUpdate(s.pc[t := Idle(Ok)], w, Relock);
      BusyUpdate(s.pc, t, Idle(Ok));
      BusyUpdate(s.pc[t := Idle(Ok)], w, Relock);
    }
    hide QueueOk, LockOk, CountOk, Adders, Busy, PostEnd;
  }

  /** A thread running alone always has a next step, and it brings the thread nearer to rest. */
  lemma AloneStep(s: State, t: Tid)
    requires Inv(s) && Room(s) && !s.entry.panicked && Unopposed(s, t) && !AtRest(s.pc[t])
    ensures InRange(s.level) && Enabled(s, Run(t))
    ensures Closer(s, t, Step(s, Run(t))) && Room(Step(s, Run(t))) && Inv(Step(s, Run(t)))
  {
    StepEnabled(s, t);
    StepInv(s, Run(t));
    hide QueueOk, CountOk, Room, Closer;
    if s.pc[t].PostWake? {
      AloneWake(s, t);
    } else {
      AlonePlain(s, t);
      AloneRoom(s, t);
    }
  }

  lemma StepEnabled(s: State, t: Tid)
    requires Inv(s) && Room(s) && !s.entry.panicked && Unopposed(s, t) && !AtRest(s.pc[t])
    ensures Enabled(s, Run(t))
  {
    assert s.pc[t].PostAdd? ==> t in Adders(s.pc);
    hide CountOk;
  }

  lemma RunFirst(s: State, e: Event, es: seq<Event>, s': State)
    requires InRange(s.level) && Enabled(s, e) && IsRun(Step(s, e), es, s')
    ensures IsRun(s, [e] + es, s')
  {
    hide Step, Enabled;
    assert ([e] + es)[1..] == es;
  }

  lemma {:induction false} RunConcat(s: State, es: seq<Event>, s1: State, es1: seq<Event>, s2: State)
    requires IsRun(s, es, s1) && IsRun(s1, es1, s2)
    ensures IsRun(s, es + es1, s2)
    decreases |es|
  {
    hide Step, Enabled;
    if es == [] {
      assert es + es1 == es1;
    } else {
      RunConcat(Step(s, es[0]), es[1..], s1, es1, s2);
      assert (es + es1)[1..] == es[1..] + es1;
    }
  }

  /** A schedule without any new call. */
  ghost predicate NoCalls(es: seq<Event>) {
    forall i :: 0 <= i < |es| ==> es[i].Run?
  }

  /** A run of no step at all. */
  lemma Nothing(s: State)
    ensures IsRun(s, [], s) && NoCalls([])
  {
  }

  lemma RunFirstAlone(s: State, t: Tid, es: seq<Event>, s': State)
    requires InRange(s.level) && Enabled(s, Run(t)) && IsRun(Step(s, Run(t)), es, s') && NoCalls(es)
    ensures IsRun(s, [Run(t)] + es, s') && NoCalls([Run(t)] + es)
  {
    RunFirst(s, Run(t), es, s');
    hide IsRun;
  }

  lemma OthersTrans(s: State, t: Tid, s1: State, s2: State)
    requires Closer(s, t, s1)
    requires t in s1.pc && OthersKeep(s1, t, s2, Posting(s1.pc[t]))
    ensures OthersKeep(s, t, s2, Posting(s.pc[t]))
  {
  }

  lemma QuietStep(s: State, t: Tid)
    requires Inv(s) && Quiet(s) && Enabled(s, Run(t)) && !s.pc[t].PendWait?
    requires Closer(s, t, Step(s, Run(t)))
    ensures Quiet(Step(s, Run(t)))
  {
    hide LockOk, QueueOk, CountOk, PostEnd, FutexWait, Closer;
    if Wrapped(s) {
      AddersUpdate(s.pc, t, Step(s, Run(t)).pc[t]);
      hide Adders;
    } else {
      CloserSteady(s, t, Step(s, Run(t)));
    }
  }

  lemma CloserSteady(s: State, t: Tid, s': State)
    requires Closer(s, t, s') && Steady(s) && !s.pc[t].PendWait?
    ensures Steady(s')
  {
  }

  /** Running the lock holder or a poster alone lets it give the spinlock back, or finish its post, without parking. */
  lemma {:induction false} ClearAlone(s: State, t: Tid) returns (es: seq<Event>, s': State)
    requires Inv(s) && Room(s) && Quiet(s) && Unopposed(s, t) && (Locked(s.pc[t]) || Posting(s.pc[t]))
    ensures IsRun(s, es, s') && NoCalls(es) && Inv(s') && Room(s') && Quiet(s') && s'.lock.Free?
    ensures OthersKeep(s, t, s', Posting(s.pc[t])) && t in s'.pc && !Posting(s'.pc[t])
    decreases Rank(s, t)
  {
    AloneStep(s, t);
    QuietStep(s, t);
    var s1 := Step(s, Run(t));
    InvLock(s1);
    hide Inv, Step, Enabled, Room, Busy, Steady, Quiet;
    if Locked(s1.pc[t]) || Posting(s1.pc[t]) {
      es, s' := ClearAlone(s1, t);
      OthersTrans(s, t, s1, s');
    } else {
      es, s' := [], s1;
      Nothing(s1);
    }
    RunFirstAlone(s, t, es, s');
    hide IsRun, NoCalls;
    es := [Run(t)] + es;
  }

  /** All posts under way can be finished before anybody parks. */
  lemma {:induction false} ClearPosters(s: State) returns (es: seq<Event>, s': State)
    requires Inv(s) && Room(s) && Quiet(s)
    ensures IsRun(s, es, s') && NoCalls(es) && Inv(s') && !s'.entry.panicked && Posters(s'.pc) == {}
    decreases |Posters(s.pc)| + if s.lock.Held? then 1 else 0
  {
    InvLock(s);
    hide Inv, Room, Posters;
    if s.lock.Free? && Posters(s.pc) == {} {
      es, s' := [], s;
    } else {
      var t := PickPoster(s);
      var es1, s1 := ClearAlone(s, t);
      FewerPosters(s, t, s1);
      var es2;
      es2, s' := ClearPosters(s1);
      RunConcat(s, es1, s1, es2, s');
      es := es1 + es2;
    }
  }

  lemma PickPoster(s: State) returns (t: Tid)
    requires LockOk(s) && (s.lock.Held? || Posters(s.pc) != {})
    ensures Unopposed(s, t) && (Locked(s.pc[t]) || Posting(s.pc[t])) && (s.lock.Free? ==> Posting(s.pc[t]))
  {
    if s.lock.Held? {
      t := s.lock.t;
    } else {
      t :| t in Posters(s.pc);
    }
  }

  lemma FewerPosters(s: State, t: Tid, s': State)
    requires t in s.pc && t in s'.pc && OthersKeep(s, t, s', Posting(s.pc[t])) && !Posting(s'.pc[t])
    ensures |Posters(s'.pc)| == |Posters(s.pc)| - if Posting(s.pc[t]) then 1 else 0
  {
    assert Posters(s'.pc) == Posters(s.pc) - {t};
    CardWithout(Posters(s.pc), t);
  }

  lemma NoPosters(s: State)
    requires LevelOk(s) && Posters(s.pc) == {}
    ensures Room(s) && forall t :: t in s.pc ==> !Posting(s.pc[t])
  {
    assert forall t :: t in s.pc && Posting(s.pc[t]) ==> t in Posters(s.pc);
    assert Adders(s.pc) <= Posters(s.pc);
  }

  /** Without posts under way a thread running alone comes to rest, and every other one stays where it is. */
  lemma {:induction false} FinishAlone(s: State, t: Tid) returns (es: seq<Event>, s': State)
    requires Inv(s) && Room(s) && !s.entry.panicked && Unopposed(s, t) && !Posting(s.pc[t])
    ensures IsRun(s, es, s') && NoCalls(es) && Inv(s') && !s'.entry.panicked
    ensures OthersKeep(s, t, s', false) && t in s'.pc && AtRest(s'.pc[t])
    decreases Rank(s, t)
  {
    hide Inv, Step, Enabled, Room, Busy, Steady;
    if AtRest(s.pc[t]) {
      es, s' := [], s;
    } else {
      AloneStep(s, t);
      var s1 := Step(s, Run(t));
      es, s' := FinishAlone(s1, t);
      OthersTrans(s, t, s1, s');
      RunFirst(s, Run(t), es, s');
      es := [Run(t)] + es;
    }
  }

  lemma FewerBusy(s: State, t: Tid, s': State)
    requires t in s.pc && !AtRest(s.pc[t]) && t in s'.pc && AtRest(s'.pc[t]) && OthersKeep(s, t, s', false)
    requires Posters(s.pc) == {}
    ensures Posters(s'.pc) == {} && |Busy(s'.pc)| < |Busy(s.pc)|
  {
    assert Busy(s'.pc) == Busy(s.pc) - {t};
    assert Posters(s'.pc) <= Posters(s.pc);
  }

  /** Once no post is under way every thread can come to rest. */
  lemma {:induction false} Settle(s: State) returns (es: seq<Event>, s': State)
    requires Inv(s) && !s.entry.panicked && Posters(s.pc) == {}
    ensures IsRun(s, es, s') && NoCalls(es) && Inv(s') && Busy(s'.pc) == {}
    decreases |Busy(s.pc)|
  {
    InvLock(s);
    NoPosters(s);
    hide Inv, Room, Posters, Busy, LockOk;
    if Busy(s.pc) == {} {
      es, s' := [], s;
    } else {
      var t := PickBusy(s);
      var es1, s1 := FinishAlone(s, t);
      FewerBusy(s, t, s1);
      var es2;
      es2, s' := Settle(s1);
      RunConcat(s, es1, s1, es2, s');
      es := es1 + es2;
    }
  }

  /** A busy thread that can run: the one that holds the spinlock if there is one. */
  lemma PickBusy(s: State) returns (t: Tid)
    requires LockOk(s) && Busy(s.pc) != {}
    ensures Unopposed(s, t) && !AtRest(s.pc[t])
  {
    if s.lock.Held? {
      t := s.lock.t;
    } else {
      t :| t in Busy(s.pc);
    }
  }

  lemma AllSettled(s: State)
    requires Inv(s) && Busy(s.pc) == {}
    ensures Settled(s)
  {
    forall t | t in s.pc
      ensures AtRest(s.pc[t])
    {
      assert t !in Busy(s.pc);
    }
    hide Inv;
    QuiescentHasNoPermit(s);
  }

  /** While the posts under way are harmless everybody can come to rest: posts first, then the others. */
  lemma SettleQuiet(s: State) returns (es: seq<Event>, s': State)
    requires Inv(s) && Room(s) && (Quiet(s) || (!s.entry.panicked && Posters(s.pc) == {}))
    ensures IsRun(s, es, s') && NoCalls(es) && Inv(s') && Busy(s'.pc) == {}
  {
    var s1 := s;
    es := [];
    assert IsRun(s, es, s);
    hide Inv, Room, IsRun, Quiet;
    if Posters(s.pc) != {} { es, s1 := ClearPosters(s); }
    var es1;
    es1, s' := Settle(s1);
    RunConcat(s, es, s1, es1, s');
    es := es + es1;
  }

  lemma InvLock(s: State)
    requires Inv(s)
    ensures LockOk(s)
  {
  }

  // ----- the wrapped counter: exactly which states settle

  /** Threads in a pend that have no permit yet and are awake. */
  predicate Pender(pc: Pc) {
    pc.PendLock? || pc.PendTest? || Awake(pc)
  }

  predicate Trier(pc: Pc) {
    pc.TryLock? || pc.TryTest?
  }

  function Penders(pc: map<Tid, Pc>): set<Tid> {
    set t | t in pc && Pender(pc[t])
  }

  function Triers(pc: map<Tid, Pc>): set<Tid> {
    set t | t in pc && Trier(pc[t])
  }

  /** The lock holder is about to post. */
  predicate Adding(s: State) {
    s.lock.Held? && s.lock.t in s.pc && s.pc[s.lock.t].PostAdd?
  }

  /** The lock holder is a pender, which will take a permit if there is one. */
  predicate Taking(s: State) {
    s.lock.Held? && s.lock.t in s.pc && Pender(s.pc[s.lock.t])
  }

  /** Some thread is about to park at level 0. */
  ghost predicate AtDoor(s: State) {
    exists t :: t in s.pc && s.pc[t] == PendWait(0)
  }

  /** The posts under way leave the level at 0 or below, so that none of them wakes. */
  ghost predicate Harmless(s: State) {
    Adders(s.pc) == {} || s.level + |Adders(s.pc)| <= 0
  }

  /** There is no permit, and a pender can park before the next post. */
  ghost predicate ParksNow(s: State) {
    s.level <= 0 && Penders(s.pc) != {} && (Adding(s) && s.level == 0 ==> AtDoor(s))
  }

  /** Awake threads can take all permits before the next post, and one more pender can park then. */
  ghost predicate ParksLater(s: State) {
    && s.level > 0 && !Adding(s) && |Penders(s.pc)| + |Triers(s.pc)| > s.level
    && |Penders(s.pc)| >= if Taking(s) then 2 else 1
  }

  /** The counter is wrapped, and nothing can prevent the next wake. */
  ghost predicate Doomed(s: State) {
    Wrapped(s) && (Waking(s) || (!Harmless(s) && !ParksNow(s) && !ParksLater(s)))
  }

  lemma PendersUpdate(pc: map<Tid, Pc>, t: Tid, x: Pc)
    requires t in pc
    ensures |Penders(pc[t := x])| == |Penders(pc)| - (if Pender(pc[t]) then 1 else 0) + (if Pender(x) then 1 else 0)
  {
    SameElsewhere(Penders(pc), Penders(pc[t := x]), t);
  }

  lemma TriersUpdate(pc: map<Tid, Pc>, t: Tid, x: Pc)
    requires t in pc
    ensures |Triers(pc[t := x])| == |Triers(pc)| - (if Trier(pc[t]) then 1 else 0) + (if Trier(x) then 1 else 0)
  {
    SameElsewhere(Triers(pc), Triers(pc[t := x]), t);
  }

  // One more thread parks, which takes the counter off 0.

  lemma NearerPark(s: State, t: Tid)
    requires Inv(s) && !s.entry.panicked && t in s.pc && Pender(s.pc[t]) && s.level <= 0
    requires Unopposed(s, t) || s.pc[t] == PendWait(s.level)
    ensures Enabled(s, Run(t)) && t in Step(s, Run(t)).pc
    ensures var s1 := Step(s, Run(t));
            && s1.pc == s.pc[t := s1.pc[t]] && s1.level == s.level
            && if s1.pc[t].Parked? then s1.entry == AfterWait(s.entry)
               else s1.entry == s.entry && Pender(s1.pc[t]) && Unopposed(s1, t) && Rank(s1, t) < Rank(s, t)
  {
    hide QueueOk, CountOk;
  }

  lemma {:induction false} ParkAlone(s: State, t: Tid) returns (es: seq<Event>, s': State)
    requires Inv(s) && !s.entry.panicked && t in s.pc && Pender(s.pc[t]) && s.level <= 0
    requires Unopposed(s, t) || s.pc[t] == PendWait(s.level)
    ensures IsRun(s, es, s') && NoCalls(es) && Inv(s') && s'.entry == AfterWait(s.entry)
    ensures s'.level == s.level && s'.pc == s.pc[t := Parked]
    decreases Rank(s, t)
  {
    hide *;
    NearerPark(s, t);
    StepInv(s, Run(t));
    var s1 := Step(s, Run(t));
    if s1.pc[t].Parked? {
      es, s' := [], s1;
      Nothing(s1);
    } else {
      es, s' := ParkAlone(s1, t);
    }
    RunFirstAlone(s, t, es, s');
    es := [Run(t)] + es;
  }

  /** The lock holder gives the spinlock back, without a wake. */
  lemma StepAside(s: State)
    requires Inv(s) && Room(s) && !s.entry.panicked && s.level <= 0 && s.lock.Held?
    requires s.lock.t in s.pc && (s.pc[s.lock.t].TryTest? || (s.pc[s.lock.t].PostAdd? && s.level < 0))
    ensures Enabled(s, Run(s.lock.t))
    ensures var s1 := Step(s, Run(s.lock.t));
            && Inv(s1) && Room(s1) && s1.level <= 0 && s1.lock.Free? && s1.entry == s.entry
            && exists x :: !Pender(x) && s1.pc == s.pc[s.lock.t := x]
  {
    StepEnabled(s, s.lock.t);
    StepInv(s, Run(s.lock.t));
    AloneRoom(s, s.lock.t);
    hide QueueOk, CountOk, Room, Inv;
    var x := Step(s, Run(s.lock.t)).pc[s.lock.t];
    assert !Pender(x);
  }

  /** Without a permit and with an awake pender, one more thread parks before the next post. */
  lemma RescueNow(s: State) returns (es: seq<Event>, s': State)
    requires Inv(s) && Room(s) && !s.entry.panicked && !Waking(s) && ParksNow(s)
    ensures IsRun(s, es, s') && NoCalls(es) && Inv(s') && Room(s') && s'.entry == AfterWait(s.entry)
  {
    InvLock(s);
    if s.lock.Held? && !Taking(s) && !(Adding(s) && s.level == 0) {
      es, s' := RescueAside(s);
    } else {
      var t :| t in Penders(s.pc);
      if Adding(s) && s.level == 0 {
        t :| t in s.pc && s.pc[t] == PendWait(0);
      } else if s.lock.Held? {
        t := s.lock.t;
      }
      hide Inv, Room;
      es, s' := ParkRoom(s, t);
    }
  }

  /** The lock holder is in the way, but can leave without a wake. */
  lemma RescueAside(s: State) returns (es: seq<Event>, s': State)
    requires Inv(s) && Room(s) && !s.entry.panicked && !Waking(s) && ParksNow(s)
    requires s.lock.Held? && !Taking(s) && !(Adding(s) && s.level == 0)
    ensures IsRun(s, es, s') && NoCalls(es) && Inv(s') && Room(s') && s'.entry == AfterWait(s.entry)
  {
    InvLock(s);
    var h := s.lock.t;
    assert Locked(s.pc[h]);
    StepAside(s);
    var s1 := Step(s, Run(h));
    var t := PickPender(s, s1, h);
    InvLevel(s);
    hide *;
    es, s' := ParkRoom(s1, t);
    RunFirstAlone(s, h, es, s');
    es := [Run(h)] + es;
  }

  lemma InvLevel(s: State)
    requires Inv(s)
    ensures InRange(s.level)
  {
  }

  lemma PickPender(s: State, s1: State, h: Tid) returns (t: Tid)
    requires Penders(s.pc) != {} && h in s.pc && !Pender(s.pc[h])
    requires s1.pc.Keys == s.pc.Keys && forall u :: u in s.pc && u != h ==> s1.pc[u] == s.pc[u]
    ensures t in s1.pc && Pender(s1.pc[t])
  {
    t :| t in Penders(s.pc);
  }

  lemma ParkRoom(s: State, t: Tid) returns (es: seq<Event>, s': State)
    requires Inv(s) && Room(s) && !s.entry.panicked && t in s.pc && Pender(s.pc[t]) && s.level <= 0
    requires Unopposed(s, t) || s.pc[t] == PendWait(s.level)
    ensures IsRun(s, es, s') && NoCalls(es) && Inv(s') && Room(s') && s'.entry == AfterWait(s.entry)
  {
    es, s' := ParkAlone(s, t);
    AddersUpdate(s.pc, t, Parked);
    hide Adders, Inv;
  }

  // Awake threads take the permits that are there.

  lemma NearerTake(s: State, t: Tid)
    requires Inv(s) && !s.entry.panicked && Unopposed(s, t) && (Pender(s.pc[t]) || Trier(s.pc[t])) && s.level > 0
    ensures Enabled(s, Run(t)) && t in Step(s, Run(t)).pc
    ensures var s1 := Step(s, Run(t));
            && s1.pc == s.pc[t := s1.pc[t]] && s1.entry == s.entry && s1.queue == s.queue
            && if s1.pc[t].Idle? then s1.level == s.level - 1 && s1.lock.Free? && s1.pc[t] == Idle(Ok)
               else && s1.level == s.level && (Pender(s1.pc[t]) || Trier(s1.pc[t]))
                    && Unopposed(s1, t) && Rank(s1, t) < Rank(s, t)
  {
    hide QueueOk, CountOk;
  }

  lemma {:induction false} TakeAlone(s: State, t: Tid) returns (es: seq<Event>, s': State)
    requires Inv(s) && !s.entry.panicked && Unopposed(s, t) && (Pender(s.pc[t]) || Trier(s.pc[t])) && s.level > 0
    ensures IsRun(s, es, s') && NoCalls(es) && Inv(s') && s'.entry == s.entry
    ensures s'.level == s.level - 1 && s'.lock.Free? && s'.pc == s.pc[t := Idle(Ok)]
    decreases Rank(s, t)
  {
    hide *;
    NearerTake(s, t);
    StepInv(s, Run(t));
    var s1 := Step(s, Run(t));
    if s1.pc[t].Idle? {
      es, s' := [], s1;
      Nothing(s1);
    } else {
      es, s' := TakeAlone(s1, t);
    }
    RunFirstAlone(s, t, es, s');
    es := [Run(t)] + es;
  }

  /** A thread that can take a permit and leaves enough others: the lock holder, a trier, or one of many penders. */
  lemma PickTaker(s: State) returns (t: Tid)
    requires LockOk(s) && !Waking(s) && ParksLater(s)
    ensures Unopposed(s, t) && (Pender(s.pc[t]) || Trier(s.pc[t]))
    ensures |Penders(s.pc)| > if Pender(s.pc[t]) then 1 else 0
  {
    if s.lock.Held? {
      t := s.lock.t;
      assert Locked(s.pc[t]);
    } else if Triers(s.pc) != {} {
      t :| t in Triers(s.pc);
    } else {
      t :| t in Penders(s.pc);
    }
  }

  lemma {:induction false} RescueLater(s: State) returns (es: seq<Event>, s': State)
    requires Inv(s) && Room(s) && !s.entry.panicked && !Waking(s) && ParksLater(s)
    ensures IsRun(s, es, s') && NoCalls(es) && Inv(s') && Room(s') && s'.entry == AfterWait(s.entry)
    decreases s.level
  {
    InvLock(s);
    var t := PickTaker(s);
    var es1, s1 := TakeAlone(s, t);
    AfterTake(s, t, s1);
    hide Inv, Room, Waking, ParksLater, ParksNow;
    var es2;
    if s1.level > 0 {
      es2, s' := RescueLater(s1);
    } else {
      es2, s' := RescueNow(s1);
    }
    RunConcat(s, es1, s1, es2, s');
    es := es1 + es2;
  }

  lemma AfterTake(s: State, t: Tid, s1: State)
    requires !Waking(s) && Room(s) && ParksLater(s) && t in s.pc && (Pender(s.pc[t]) || Trier(s.pc[t]))
    requires |Penders(s.pc)| > if Pender(s.pc[t]) then 1 else 0
    requires s1.level == s.level - 1 && s1.lock.Free? && s1.pc == s.pc[t := Idle(Ok)]
    ensures !Waking(s1) && Room(s1) && if s1.level > 0 then ParksLater(s1) else ParksNow(s1)
  {
    AddersUpdate(s.pc, t, Idle(Ok));
    PendersUpdate(s.pc, t, Idle(Ok));
    TriersUpdate(s.pc, t, Idle(Ok));
    hide Adders, Penders, Triers;
  }

  /** A state that is not doomed settles. */
  lemma Settles(s: State) returns (es: seq<Event>, s': State)
    requires Inv(s) && Room(s) && !s.entry.panicked && !Doomed(s)
    ensures IsRun(s, es, s') && NoCalls(es) && Inv(s') && Busy(s'.pc) == {}
  {
    hide Inv, Room, IsRun, Waking, ParksNow, ParksLater, Posters, Busy, Harmless;
    if Wrapped(s) && !Harmless(s) {
      var s1, es1;
      if ParksNow(s) { es, s1 := RescueNow(s); } else { es, s1 := RescueLater(s); }
      es1, s' := SettleQuiet(s1);
      RunConcat(s, es, s1, es1, s');
      es := es + es1;
    } else {
      if Wrapped(s) { HarmlessQuiet(s); }
      es, s' := SettleQuiet(s);
    }
  }

  lemma HarmlessQuiet(s: State)
    requires !s.entry.panicked && !Waking(s) && Harmless(s)
    ensures Quiet(s) || Posters(s.pc) == {}
  {
    if Adders(s.pc) == {} {
      forall t | t in s.pc
        ensures !Posting(s.pc[t])
      {
        assert t !in Adders(s.pc);
      }
    }
  }

  // A doomed state stays doomed until the panic.

  ghost predicate Lost(s: State) {
    s.entry.panicked || Doomed(s)
  }

  lemma LostBusy(s: State)
    requires HaltOk(s) && Lost(s)
    ensures exists t :: t in s.pc && !AtRest(s.pc[t])
  {
    if !s.entry.panicked && !Waking(s) {
      var t :| t in Adders(s.pc);
      assert !AtRest(s.pc[t]);
    }
  }

  lemma SomeWaiter(s: State)
    requires QueueOk(s) && CountOk(s) && s.queue != []
    ensures s.waiters > 0
  {
    assert s.queue[0].tid in ParkedSet(s.pc);
    hide AwakeSet;
  }

  /** While a post is about to wake, nobody parks. */
  lemma WakingStep(s: State, u: Tid)
    requires Inv(s) && Wrapped(s) && Waking(s) && Enabled(s, Run(u))
    ensures Lost(Step(s, Run(u)))
  {
    var t :| t in s.pc && s.pc[t].PostWake?;
    var s' := Step(s, Run(u));
    hide CountOk, PostEnd, Harmless, ParksNow, ParksLater;
    if u == t {
      PostHead(s, t);
      assert |s.queue[1..]| == |s.queue| - 1;
    } else {
      assert s.pc[u].PendWait?;
      assert s'.pc[t].PostWake?;
    }
  }

  /** Before that, in a doomed state, nobody can park either. */
  lemma NoPark(s: State, u: Tid)
    requires Inv(s) && !Waking(s) && !ParksNow(s) && u in s.pc && s.pc[u].PendWait?
    ensures s.level != s.pc[u].val
  {
    assert s.pc[u].val == 0 ==> s.pc[u] == PendWait(0);
    assert u in Penders(s.pc);
    hide LockOk, QueueOk, CountOk, HaltOk;
  }

  lemma NumbersStep(s: State, u: Tid)
    requires LockOk(s) && LevelOk(s) && !Waking(s) && Enabled(s, Run(u)) && s.waiters > 0
    requires !Harmless(s) && !ParksNow(s) && !ParksLater(s)
    requires s.pc[u].PendWait? ==> s.level != s.pc[u].val
    ensures var s' := Step(s, Run(u));
            && s'.entry == s.entry && s'.queue == s.queue
            && (Waking(s') || (!Harmless(s') && !ParksNow(s') && !ParksLater(s')))
  {
    if s.pc[u].PostLock? || s.pc[u].PostAdd? { NumbersPost(s, u); } else { NumbersPend(s, u); }
    hide *;
  }

  lemma NumbersPost(s: State, u: Tid)
    requires LockOk(s) && LevelOk(s) && !Waking(s) && Enabled(s, Run(u)) && s.waiters > 0
    requires !Harmless(s) && !ParksNow(s) && !ParksLater(s) && (s.pc[u].PostLock? || s.pc[u].PostAdd?)
    ensures var s' := Step(s, Run(u));
            && s'.entry == s.entry && s'.queue == s.queue
            && (Waking(s') || (!Harmless(s') && !ParksNow(s') && !ParksLater(s')))
  {
    var s' := Step(s, Run(u));
    var x := s'.pc[u];
    assert s'.pc == s.pc[u := x];
    AddersUpdate(s.pc, u, x);
    PendersUpdate(s.pc, u, x);
    TriersUpdate(s.pc, u, x);
    hide Adders, Penders, Triers;
  }

  lemma NumbersPend(s: State, u: Tid)
    requires LockOk(s) && LevelOk(s) && !Waking(s) && Enabled(s, Run(u))
    requires !Harmless(s) && !ParksNow(s) && !ParksLater(s) && !s.pc[u].PostLock? && !s.pc[u].PostAdd?
    requires s.pc[u].PendWait? ==> s.level != s.pc[u].val
    ensures var s' := Step(s, Run(u));
            && s'.entry == s.entry && s'.queue == s.queue
            && !Harmless(s') && !ParksNow(s') && !ParksLater(s')
  {
    var s' := Step(s, Run(u));
    var x := s'.pc[u];
    assert s'.pc == s.pc[u := x];
    AddersUpdate(s.pc, u, x);
    PendersUpdate(s.pc, u, x);
    TriersUpdate(s.pc, u, x);
    hide Adders, Penders, Triers;
  }

  lemma DoomedStep(s: State, u: Tid)
    requires Inv(s) && Doomed(s) && Enabled(s, Run(u))
    ensures Lost(Step(s, Run(u)))
  {
    if Waking(s) {
      WakingStep(s, u);
    } else {
      if s.pc[u].PendWait? { NoPark(s, u); }
      SomeWaiter(s);
      NumbersStep(s, u);
    }
    hide *;
  }

  lemma {:induction false} LostRun(s: State, es: seq<Event>, s': State)
    requires Inv(s) && IsRun(s, es, s') && NoCalls(es)
    ensures Lost(s) ==> Lost(s')
    decreases |es|
  {
    hide Inv, Step, Doomed;
    if es != [] && Lost(s) {
      StepInv(s, es[0]);
      DoomedStep(s, es[0].t);
      assert forall i :: 0 <= i < |es[1..]| ==> es[1..][i] == es[i + 1];
      LostRun(Step(s, es[0]), es[1..], s');
    }
  }

  /** Some schedule without new calls brings every thread back or to its parking place. */
  ghost predicate Settleable(s: State) {
    exists es, s' :: IsRun(s, es, s') && NoCalls(es) && Settled(s')
  }

  ghost predicate Settled(s: State) {
    (forall t :: t in s.pc ==> AtRest(s.pc[t])) && (ParkedSet(s.pc) != {} ==> s.level <= 0)
  }

  lemma NeverLost(s: State, es: seq<Event>, s': State)
    requires Inv(s) && IsRun(s, es, s') && NoCalls(es) && Settled(s')
    ensures !Lost(s)
  {
    RunInv(s, es, s');
    LostRun(s, es, s');
    if Lost(s') { LostBusy(s'); }
    hide IsRun, Doomed;
  }

  /**
    No deadlock and no stranded permit but for the wrapped counter: a reachable
    state whose posts under way fit the level settles exactly when the system has
    not panicked and is not doomed to.
  */
  lemma CanSettle(s: State)
    requires Inv(s) && Room(s)
    ensures Settleable(s) <==> !s.entry.panicked && !Doomed(s)
  {
    hide Inv, Room, IsRun, Doomed, Settled, Busy;
    if Settleable(s) {
      var es, s' :| IsRun(s, es, s') && NoCalls(es) && Settled(s');
      NeverLost(s, es, s');
    }
    if !s.entry.panicked && !Doomed(s) {
      var es, s' := Settles(s);
      AllSettled(s');
    }
  }
}
