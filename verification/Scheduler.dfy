/**
  The thread scheduler: 64 ready queues, a sleep queue sorted by the low 32 bits
  of the wake time, election of the next thread, and the transitions of a
  thread between them.  Threads are numbered in the order of their creation,
  the idle thread first; a queue is the sequence of its threads from head to
  tail, with the operations that KQueue proves for the linked list.
*/
module Scheduler {
  import opened Digits
  import KQueue

  const LEVELS: int := 64
  const IDLE: nat := 0
  const PAGE_SIZE: int := 4096

  datatype State = Running | Ready | Sleeping | Waiting

  datatype WaitType = Resource | Io

  datatype Thread = Thread(state: State, priority: nat, wakeup: u64, block: WaitType)

  datatype Error = NoErr | Unauthorized | NoSuchId | IncorrectValue | ForbiddenPriority | MallocFailed | StackFailed

  /** Everything the scheduler keeps. */
  datatype Sched = Sched(threads: seq<Thread>, ready: seq<seq<nat>>, sleeping: seq<nat>, active: nat)

  // ----- well-formedness

  ghost predicate NoDup(q: seq<nat>) {
    forall i, j :: 0 <= i < j < |q| ==> q[i] != q[j]
  }

  ghost predicate Within(q: seq<nat>, n: nat) {
    forall i :: 0 <= i < |q| ==> q[i] < n
  }

  /** Thread numbers and priorities are in range. */
  ghost predicate Shape(s: Sched) {
    && |s.ready| == LEVELS && IDLE < |s.threads| && s.active < |s.threads|
    && (forall t :: 0 <= t < |s.threads| ==> s.threads[t].priority < LEVELS)
    && (forall p :: 0 <= p < LEVELS ==> Within(s.ready[p], |s.threads|))
    && Within(s.sleeping, |s.threads|)
  }

  /** A thread stands in ready queue p, once, exactly when it is ready with priority p. */
  ghost predicate ReadyOk(s: Sched)
    requires |s.ready| == LEVELS
  {
    && (forall p :: 0 <= p < LEVELS ==> NoDup(s.ready[p]))
    && (forall p: int, t: nat :: 0 <= p < LEVELS ==>
          (t in s.ready[p] <==> t < |s.threads| && s.threads[t].state == Ready && s.threads[t].priority == p))
  }

  /** A thread stands in the sleep queue, once, exactly when it is asleep and switched out. */
  ghost predicate SleepOk(s: Sched, out: nat) {
    && NoDup(s.sleeping)
    && (forall t: nat :: t in s.sleeping <==> t < |s.threads| && s.threads[t].state == Sleeping && t != out)
  }

  /** The sort key of the sleep queue: the wake time cut to 32 bits. */
  function Key(th: Thread): u32 {
    U32(th.wakeup)
  }

  function Keys(threads: seq<Thread>, q: seq<nat>): (keys: seq<u32>)
    requires Within(q, |threads|)
    ensures |keys| == |q| && forall i :: 0 <= i < |q| ==> keys[i] == Key(threads[q[i]])
  {
    if q == [] then [] else [Key(threads[q[0]])] + Keys(threads, q[1..])
  }

  /** The location invariant between steps. */
  ghost predicate Ok(s: Sched) {
    && Shape(s) && ReadyOk(s) && SleepOk(s, s.active)
    && (forall t :: 0 <= t < |s.threads| && s.threads[t].state == Running ==> t == s.active)
    && (s.threads[IDLE].state == Running || s.threads[IDLE].state == Ready)
    && KQueue.Falling(Keys(s.threads, s.sleeping))
  }

  /** The same inside a select: no thread runs, and every sleeper is in the queue. */
  ghost predicate Switching(s: Sched) {
    && Shape(s) && ReadyOk(s) && SleepOk(s, |s.threads|)
    && (forall t :: 0 <= t < |s.threads| ==> s.threads[t].state != Running)
    && s.threads[IDLE].state == Ready
    && KQueue.Falling(Keys(s.threads, s.sleeping))
  }

  // ----- the steps of select_thread

  /** A thread becomes ready and goes to the head of its queue. */
  function MakeReady(s: Sched, t: nat): Sched
    requires Shape(s) && t < |s.threads|
  {
    var p := s.threads[t].priority;
    s.(threads := s.threads[t := s.threads[t].(state := Ready)], ready := s.ready[p := [t] + s.ready[p]])
  }

  /** A thread goes to its place in the sleep queue. */
  function Enqueue(s: Sched, t: nat): Sched
    requires Shape(s) && t < |s.threads|
  {
    s.(sleeping := KQueue.Insert(s.sleeping, KQueue.Position(Keys(s.threads, s.sleeping), Key(s.threads[t])), t))
  }

  function Requeue(s: Sched): Sched
    requires Shape(s)
  {
    match s.threads[s.active].state
    case Running => MakeReady(s, s.active)
    case Sleeping => Enqueue(s, s.active)
    case _ => s
  }

  lemma {:induction false} KeysTake(threads: seq<Thread>, q: seq<nat>, k: int)
    requires Within(q, |threads|) && 0 <= k <= |q|
    ensures Within(q[..k], |threads|) && Keys(threads, q[..k]) == Keys(threads, q)[..k]
  {
  }

  /** The wake-up loop: sleepers are popped at the tail while they are due. */
  function WakeAll(s: Sched, now: u64): Sched
    requires Shape(s)
    decreases |s.sleeping|
  {
    if s.sleeping == [] then s else
      var n := |s.sleeping| - 1;
      var t, rest := s.sleeping[n], s.(sleeping := s.sleeping[..n]);
      if s.threads[t].wakeup < now then WakeAll(MakeReady(rest, t), now) else Enqueue(rest, t)
  }

  /** The lowest-numbered queue that is not empty, or LEVELS. */
  function Level(ready: seq<seq<nat>>, from: int): (p: int)
    requires 0 <= from <= |ready|
    ensures from <= p <= |ready|
    ensures forall i :: from <= i < p ==> ready[i] == []
    ensures p < |ready| ==> ready[p] != []
    decreases |ready| - from
  {
    if from == |ready| || ready[from] != [] then from else Level(ready, from + 1)
  }

  function Elect(s: Sched): Sched
    requires Shape(s)
  {
    var p := Level(s.ready, 0);
    if p == LEVELS then s else
      var n := |s.ready[p]| - 1;
      var t := s.ready[p][n];
      Sched(s.threads[t := s.threads[t].(state := Running)], s.ready[p := s.ready[p][..n]], s.sleeping, t)
  }

  // ----- the invariant inside a select

  lemma PushHead(q: seq<nat>, t: nat)
    requires NoDup(q) && t !in q
    ensures NoDup([t] + q) && forall x: nat :: x in [t] + q <==> x == t || x in q
  {
  }

  lemma PushWithin(q: seq<nat>, t: nat, n: nat)
    requires Within(q, n) && t < n
    ensures Within([t] + q, n)
  {
  }

  lemma MakeReadyShape(s: Sched, t: nat)
    requires Shape(s) && t < |s.threads|
    ensures Shape(MakeReady(s, t))
  {
    PushWithin(s.ready[s.threads[t].priority], t, |s.threads|);
    hide Within;
  }

  lemma MakeReadyQueues(s: Sched, t: nat)
    requires Shape(s) && ReadyOk(s) && t < |s.threads| && s.threads[t].state != Ready
    ensures Shape(MakeReady(s, t)) && ReadyOk(MakeReady(s, t))
  {
    var s', p := MakeReady(s, t), s.threads[t].priority;
    MakeReadyShape(s, t);
    PushHead(s.ready[p], t);
    hide NoDup, Within, Shape;
    forall q: int, x: nat | 0 <= q < LEVELS
      ensures x in s'.ready[q] <==> x < |s'.threads| && s'.threads[x].state == Ready && s'.threads[x].priority == q
    {
      assert x in s.ready[q] <==> x < |s.threads| && s.threads[x].state == Ready && s.threads[x].priority == q;
    }
  }

  lemma KeysSame(threads: seq<Thread>, threads': seq<Thread>, q: seq<nat>)
    requires Within(q, |threads|) && |threads'| >= |threads|
    requires forall t :: 0 <= t < |threads| ==> threads'[t].wakeup == threads[t].wakeup
    ensures Within(q, |threads'|) && Keys(threads', q) == Keys(threads, q)
  {
  }

  lemma InsertMembers(q: seq<nat>, k: int, t: nat, x: nat)
    requires 0 <= k <= |q|
    ensures x in KQueue.Insert(q, k, t) <==> x == t || x in q
  {
    assert q == q[..k] + q[k..];
  }

  lemma InsertNoDup(q: seq<nat>, k: int, t: nat)
    requires 0 <= k <= |q| && NoDup(q) && t !in q
    ensures NoDup(KQueue.Insert(q, k, t))
  {
    var q' := KQueue.Insert(q, k, t);
    forall i, j | 0 <= i < j < |q'|
      ensures q'[i] != q'[j]
    {
      KQueue.InsertIndex(q, k, t, i);
      KQueue.InsertIndex(q, k, t, j);
    }
  }

  lemma InsertKeys(threads: seq<Thread>, q: seq<nat>, k: int, t: nat)
    requires Within(q, |threads|) && t < |threads| && 0 <= k <= |q|
    ensures Within(KQueue.Insert(q, k, t), |threads|)
    ensures Keys(threads, KQueue.Insert(q, k, t)) == KQueue.Insert(Keys(threads, q), k, Key(threads[t]))
  {
    var q' := KQueue.Insert(q, k, t);
    KQueue.InsertIndex(q, k, t, k);
    forall i | 0 <= i < |q'|
      ensures q'[i] < |threads| && Key(threads[q'[i]]) == KQueue.Insert(Keys(threads, q), k, Key(threads[t]))[i]
    {
      KQueue.InsertIndex(q, k, t, i);
      KQueue.InsertIndex(Keys(threads, q), k, Key(threads[t]), i);
    }
  }

  lemma EnqueueSorted(s: Sched, t: nat)
    requires Shape(s) && t < |s.threads| && KQueue.Falling(Keys(s.threads, s.sleeping))
    ensures Shape(Enqueue(s, t)) && KQueue.Falling(Keys(s.threads, Enqueue(s, t).sleeping))
  {
    var keys := Keys(s.threads, s.sleeping);
    var k := KQueue.Position(keys, Key(s.threads[t]));
    KQueue.InsertFalling(keys, Key(s.threads[t]));
    InsertKeys(s.threads, s.sleeping, k, t);
    hide Within, Keys, Key, KQueue.Insert, KQueue.Falling;
  }

  lemma EnqueueSleep(s: Sched, t: nat, out: nat)
    requires Shape(s) && SleepOk(s, t) && t < |s.threads| && s.threads[t].state == Sleeping && out >= |s.threads|
    requires KQueue.Falling(Keys(s.threads, s.sleeping))
    ensures Shape(Enqueue(s, t)) && SleepOk(Enqueue(s, t), out)
    ensures KQueue.Falling(Keys(s.threads, Enqueue(s, t).sleeping))
  {
    EnqueueSorted(s, t);
    var k := KQueue.Position(Keys(s.threads, s.sleeping), Key(s.threads[t]));
    hide Shape, Within, Keys, Key, KQueue.Insert, KQueue.Falling;
    InsertNoDup(s.sleeping, k, t);
    hide NoDup;
    forall x: nat
      ensures x in Enqueue(s, t).sleeping <==> x < |s.threads| && s.threads[x].state == Sleeping && x != out
    {
      InsertMembers(s.sleeping, k, t, x);
    }
  }

  lemma MakeReadySleep(s: Sched, t: nat, out: nat)
    requires Shape(s) && t < |s.threads| && SleepOk(s, out) && (s.threads[t].state != Sleeping || t == out)
    ensures SleepOk(MakeReady(s, t), out)
    ensures Shape(MakeReady(s, t)) && Keys(MakeReady(s, t).threads, s.sleeping) == Keys(s.threads, s.sleeping)
  {
    MakeReadyShape(s, t);
    var s' := MakeReady(s, t);
    KeysSame(s.threads, s'.threads, s.sleeping);
    hide NoDup, Within, Keys;
    assert forall x: nat :: x in s.sleeping <==> x < |s.threads| && s.threads[x].state == Sleeping && x != out;
  }

  lemma RequeueSwitching(s: Sched)
    requires Ok(s)
    ensures Switching(Requeue(s))
  {
    hide Keys, KQueue.Falling, NoDup, Within;
    match s.threads[s.active].state
    case Running =>
      MakeReadyQueues(s, s.active);
      MakeReadySleep(s, s.active, s.active);
      SleepNone(MakeReady(s, s.active), s.active);
    case Sleeping =>
      EnqueueSleep(s, s.active, |s.threads|);
      SameReady(s, Enqueue(s, s.active));
    case _ =>
      SleepNone(s, s.active);
  }

  lemma SleepNone(s: Sched, out: nat)
    requires SleepOk(s, out) && out < |s.threads| && s.threads[out].state != Sleeping
    ensures SleepOk(s, |s.threads|)
  {
    hide NoDup;
    assert forall x: nat :: x in s.sleeping <==> x < |s.threads| && s.threads[x].state == Sleeping && x != out;
  }

  lemma SameReady(s: Sched, s': Sched)
    requires |s.ready| == LEVELS && ReadyOk(s) && s'.threads == s.threads && s'.ready == s.ready
    ensures ReadyOk(s')
  {
  }

  // ----- the tail of the sleep queue

  /** The sleep queue without its tail, and the thread that was there. */
  function Popped(s: Sched): Sched
    requires s.sleeping != []
  {
    s.(sleeping := s.sleeping[..|s.sleeping| - 1])
  }

  function Tail(s: Sched): nat
    requires s.sleeping != []
  {
    s.sleeping[|s.sleeping| - 1]
  }

  lemma TailMembers(q: seq<nat>, x: nat)
    requires q != [] && NoDup(q)
    ensures var n := |q| - 1; x in q[..n] <==> x in q && x != q[n]
    ensures NoDup(q[..|q| - 1])
  {
    var n := |q| - 1;
    assert q == q[..n] + [q[n]];
  }

  /** Popping the tail leaves a sleep queue that misses exactly that thread. */
  lemma PoppedSleep(s: Sched)
    requires Switching(s) && s.sleeping != []
    ensures var s1, t := Popped(s), Tail(s);
            && t < |s.threads| && s.threads[t].state == Sleeping && t in s.sleeping
            && Shape(s1) && ReadyOk(s1) && SleepOk(s1, t) && KQueue.Falling(Keys(s1.threads, s1.sleeping))
  {
    var s1 := Popped(s);
    PoppedMembers(s, |s.threads|);
    hide NoDup, SleepOk;
    SameReady(s, s1);
    PoppedShape(s);
    KeysTake(s.threads, s.sleeping, |s1.sleeping|);
    hide ReadyOk, Keys, Within;
    FallingTake(Keys(s.threads, s.sleeping), |s1.sleeping|);
  }

  lemma PoppedShape(s: Sched)
    requires Shape(s) && s.sleeping != []
    ensures Shape(Popped(s)) && Tail(s) < |s.threads|
  {
  }

  lemma FallingTake(keys: seq<u32>, k: int)
    requires KQueue.Falling(keys) && 0 <= k <= |keys|
    ensures KQueue.Falling(keys[..k])
  {
  }

  lemma PoppedMembers(s: Sched, out: nat)
    requires SleepOk(s, out) && out >= |s.threads| && s.sleeping != []
    ensures var t := Tail(s);
            t < |s.threads| && s.threads[t].state == Sleeping && t in s.sleeping && SleepOk(Popped(s), t)
  {
    var s1, t := Popped(s), Tail(s);
    assert t in s.sleeping;
    TailMembers(s.sleeping, 0);
    hide NoDup;
    forall x: nat
      ensures x in s1.sleeping <==> x < |s.threads| && s.threads[x].state == Sleeping && x != t
    {
      TailMembers(s.sleeping, x);
    }
  }

  /** A woken thread moves to its ready queue. */
  lemma WakeSwitching(s: Sched)
    requires Switching(s) && s.sleeping != []
    ensures Tail(s) < |s.threads| && Shape(Popped(s)) && Switching(MakeReady(Popped(s), Tail(s)))
  {
    PoppedSleep(s);
    var s1, t := Popped(s), Tail(s);
    hide Keys, KQueue.Falling, NoDup, Within;
    MakeReadyQueues(s1, t);
    var s2 := MakeReady(s1, t);
    KeysSame(s1.threads, s2.threads, s1.sleeping);
    WakeSleep(s1, t);
  }

  lemma WakeSleep(s: Sched, t: nat)
    requires Shape(s) && t < |s.threads| && SleepOk(s, t)
    ensures SleepOk(MakeReady(s, t), |s.threads|)
  {
    hide NoDup, Within;
    var s' := MakeReady(s, t);
    forall x: nat
      ensures x in s'.sleeping <==> x < |s'.threads| && s'.threads[x].state == Sleeping && x != |s.threads|
    {
      assert x in s.sleeping <==> x < |s.threads| && s.threads[x].state == Sleeping && x != t;
    }
  }

  /** A sleeper that is not due goes back. */
  lemma BackSwitching(s: Sched)
    requires Switching(s) && s.sleeping != []
    ensures Tail(s) < |s.threads| && Shape(Popped(s)) && Switching(Enqueue(Popped(s), Tail(s)))
  {
    PoppedSleep(s);
    var s1, t := Popped(s), Tail(s);
    EnqueueSleep(s1, t, |s.threads|);
    hide Keys, KQueue.Falling, NoDup, Within;
    SameReady(s1, Enqueue(s1, t));
  }

  lemma {:induction false} WakeAllSwitching(s: Sched, now: u64)
    requires Switching(s)
    ensures Switching(WakeAll(s, now))
    decreases |s.sleeping|
  {
    if s.sleeping != [] {
      hide Switching;
      SwitchingShape(s);
      if s.threads[Tail(s)].wakeup < now {
        WakeSwitching(s);
        WakeAllSwitching(MakeReady(Popped(s), Tail(s)), now);
      } else {
        BackSwitching(s);
      }
    }
  }

  lemma SwitchingShape(s: Sched)
    requires Switching(s)
    ensures Shape(s) && (s.sleeping != [] ==> Tail(s) < |s.threads| && Shape(Popped(s)))
  {
  }

  // ----- election

  lemma ElectOk(s: Sched)
    requires Switching(s)
    ensures Level(s.ready, 0) < LEVELS && Ok(Elect(s))
  {
    var p := Level(s.ready, 0);
    var idle := s.threads[IDLE].priority;
    assert IDLE in s.ready[idle];
    assert p < LEVELS;
    var t := s.ready[p][|s.ready[p]| - 1];
    assert t in s.ready[p];
    var s' := Elect(s);
    ElectReady(s);
    KeysSame(s.threads, s'.threads, s.sleeping);
    hide Keys, KQueue.Falling, NoDup, Within, ReadyOk, Level;
    forall x: nat
      ensures x in s'.sleeping <==> x < |s'.threads| && s'.threads[x].state == Sleeping && x != t
    {
      assert x in s.sleeping <==> x < |s.threads| && s.threads[x].state == Sleeping && x != |s.threads|;
    }
  }

  lemma ElectReady(s: Sched)
    requires Shape(s) && ReadyOk(s) && Level(s.ready, 0) < LEVELS
    ensures Shape(Elect(s)) && ReadyOk(Elect(s))
  {
    var p := Level(s.ready, 0);
    var q, s' := s.ready[p], Elect(s);
    var t := q[|q| - 1];
    TailMembers(q, 0);
    assert t in q;
    assert Within(q[..|q| - 1], |s.threads|);
    hide NoDup, Within, Level;
    forall r: int, x: nat | 0 <= r < LEVELS
      ensures x in s'.ready[r] <==> x < |s'.threads| && s'.threads[x].state == Ready && s'.threads[x].priority == r
    {
      TailMembers(q, x);
      assert x in s.ready[r] <==> x < |s.threads| && s.threads[x].state == Ready && s.threads[x].priority == r;
    }
  }

  ghost function Selected(s: Sched, now: u64): Sched
    requires Shape(s)
  {
    var s1 := Requeue(s);
    if Shape(s1) then var s2 := WakeAll(s1, now); if Shape(s2) then Elect(s2) else s2 else s1
  }

  /** A select keeps every thread where it belongs, and always finds a thread to run. */
  lemma SelectOk(s: Sched, now: u64)
    requires Ok(s)
    ensures Switching(Requeue(s)) && Switching(WakeAll(Requeue(s), now))
    ensures Selected(s, now) == Elect(WakeAll(Requeue(s), now)) && Ok(Selected(s, now))
    ensures Level(WakeAll(Requeue(s), now).ready, 0) < LEVELS
  {
    RequeueSwitching(s);
    WakeAllSwitching(Requeue(s), now);
    ElectOk(WakeAll(Requeue(s), now));
  }

  // ----- all steps

  function U64(x: int): u64 {
    x % 0x1_0000_0000_0000_0000
  }

  datatype Op =
    | Create(priority: u32)
    | Select(now: u64)
    | Sleep(ms: u32, curr: u64)
    | Lock(block: WaitType)
    | Unlock(thread: nat, block: WaitType)
    | SetPriority(priority: u32)

  /** A new priority would leave a thread that is active and still queued in the wrong queue. */
  predicate SafePriority(s: Sched, p: u32)
    requires s.active < |s.threads|
  {
    p >= LEVELS || s.threads[s.active].state != Ready || s.threads[s.active].priority == p
  }

  /** Sleep and lock are made by the running thread about itself. */
  predicate Enabled(s: Sched, op: Op)
    requires s.active < |s.threads|
  {
    match op
    case Create(_) => true
    case Select(_) => true
    case Sleep(_, _) => s.active == IDLE || s.threads[s.active].state == Running
    case Lock(_) => s.active == IDLE || s.threads[s.active].state == Running
    case Unlock(t, _) => t < |s.threads|
    case SetPriority(p) => SafePriority(s, p)
  }

  function SetActive(s: Sched, th: Thread): Sched
    requires s.active < |s.threads|
  {
    s.(threads := s.threads[s.active := th])
  }

  ghost function Apply(s: Sched, op: Op): Sched
    requires Shape(s) && (op.Unlock? ==> op.thread < |s.threads|)
  {
    match op
    case Create(p) =>
      if p >= LEVELS then s
      else s.(threads := s.threads + [Thread(Ready, p, 0, Resource)], ready := s.ready[p := [|s.threads|] + s.ready[p]])
    case Select(now) => Selected(s, now)
    case Sleep(ms, curr) =>
      if s.active == IDLE then s
      else SetActive(s, s.threads[s.active].(wakeup := U64(curr + ms * 1_000_000), state := Sleeping))
    case Lock(block) =>
      if s.active == IDLE then s else SetActive(s, s.threads[s.active].(state := Waiting, block := block))
    case Unlock(t, block) =>
      if t == IDLE || s.threads[t].state != Waiting || s.threads[t].block != block then s else MakeReady(s, t)
    case SetPriority(p) =>
      if p < LEVELS then SetActive(s, s.threads[s.active].(priority := p)) else s
  }

  /** The active thread, not being queued, changes its own record and stays out of every queue. */
  lemma SetActiveOk(s: Sched, th: Thread)
    requires Ok(s) && s.threads[s.active].state != Ready && th.priority < LEVELS && th.state != Ready
    requires s.active == IDLE ==> th.state == Running
    ensures Ok(SetActive(s, th))
  {
    var s' := SetActive(s, th);
    assert s.active !in s.sleeping;
    SetActiveKeys(s, th);
    hide Keys, KQueue.Falling, NoDup, Within;
    forall x: nat
      ensures x in s'.sleeping <==> x < |s'.threads| && s'.threads[x].state == Sleeping && x != s'.active
    {
      assert x in s.sleeping <==> x < |s.threads| && s.threads[x].state == Sleeping && x != s.active;
    }
    forall q: int, x: nat | 0 <= q < LEVELS
      ensures x in s'.ready[q] <==> x < |s'.threads| && s'.threads[x].state == Ready && s'.threads[x].priority == q
    {
      assert x in s.ready[q] <==> x < |s.threads| && s.threads[x].state == Ready && s.threads[x].priority == q;
    }
  }

  lemma OutOfPlace(s: Sched, t: nat, q: int)
    requires 0 <= q < LEVELS == |s.ready| && t in s.ready[q] && t < |s.threads| && s.threads[t].priority != q
    ensures !ReadyOk(s)
  {
  }

  lemma SetActiveKeys(s: Sched, th: Thread)
    requires Shape(s) && s.active !in s.sleeping
    ensures Keys(SetActive(s, th).threads, s.sleeping) == Keys(s.threads, s.sleeping)
  {
    assert forall i :: 0 <= i < |s.sleeping| ==> s.sleeping[i] in s.sleeping;
  }

  lemma CreateOk(s: Sched, p: u32)
    requires Ok(s) && p < LEVELS
    ensures Ok(Apply(s, Create(p)))
  {
    var s', n := Apply(s, Create(p)), |s.threads|;
    assert n !in s.ready[p];
    PushHead(s.ready[p], n);
    KeysSame(s.threads, s'.threads, s.sleeping);
    CreateShape(s, p);
    hide Keys, KQueue.Falling, NoDup, Within;
    forall x: nat
      ensures x in s'.sleeping <==> x < |s'.threads| && s'.threads[x].state == Sleeping && x != s'.active
    {
      assert x in s.sleeping <==> x < |s.threads| && s.threads[x].state == Sleeping && x != s.active;
    }
    forall q: int, x: nat | 0 <= q < LEVELS
      ensures x in s'.ready[q] <==> x < |s'.threads| && s'.threads[x].state == Ready && s'.threads[x].priority == q
    {
      assert x in s.ready[q] <==> x < |s.threads| && s.threads[x].state == Ready && s.threads[x].priority == q;
    }
  }

  lemma CreateShape(s: Sched, p: u32)
    requires Shape(s) && p < LEVELS
    ensures Shape(Apply(s, Create(p)))
  {
  }

  /** The thread stands in a ready queue or in the sleep queue. */
  predicate Enlisted(s: Sched, t: nat)
    requires t < |s.threads|
  {
    s.threads[t].state == Ready || (s.threads[t].state == Sleeping && t != s.active)
  }

  lemma UnlockOk(s: Sched, t: nat)
    requires Ok(s) && 0 != t < |s.threads| && !Enlisted(s, t)
    ensures Ok(MakeReady(s, t))
  {
    MakeReadyQueues(s, t);
    MakeReadySleep(s, t, s.active);
    hide Keys, KQueue.Falling, NoDup, Within, SleepOk, ReadyOk, Shape;
  }

  /** The push of an unlock, whenever it comes after the test, is right exactly if the thread is in no queue. */
  lemma LateUnlock(s: Sched, t: nat)
    requires Ok(s) && 0 != t < |s.threads|
    ensures Shape(s) && (Ok(MakeReady(s, t)) <==> !Enlisted(s, t))
  {
    if !Enlisted(s, t) {
      UnlockOk(s, t);
    } else if s.threads[t].state == Ready {
      TwiceReady(s, t);
    } else {
      StillAsleep(s, t);
    }
  }

  lemma TwiceReady(s: Sched, t: nat)
    requires Shape(s) && ReadyOk(s) && t < |s.threads| && s.threads[t].state == Ready
    ensures !Ok(MakeReady(s, t))
  {
    var s', p := MakeReady(s, t), s.threads[t].priority;
    hide Keys, KQueue.Falling, Within, SleepOk;
    assert t in s.ready[p];
    var i :| 0 <= i < |s.ready[p]| && s.ready[p][i] == t;
    assert s'.ready[p][0] == s'.ready[p][i + 1] == t;
    assert !NoDup(s'.ready[p]);
  }

  lemma StillAsleep(s: Sched, t: nat)
    requires Shape(s) && SleepOk(s, s.active) && t < |s.threads| && s.threads[t].state == Sleeping && t != s.active
    ensures !Ok(MakeReady(s, t))
  {
    hide Keys, KQueue.Falling, Within, ReadyOk, NoDup;
    assert t in s.sleeping;
    assert !SleepOk(MakeReady(s, t), s.active);
  }

  /** Every step keeps every thread where it belongs. */
  lemma StepOk(s: Sched, op: Op)
    requires Ok(s) && Enabled(s, op)
    ensures Ok(Apply(s, op))
  {
    hide Keys, KQueue.Falling, NoDup, Within, SleepOk, ReadyOk, Selected;
    match op
    case Create(p) => if p < LEVELS { CreateOk(s, p); }
    case Select(now) => SelectOk(s, now);
    case Sleep(ms, curr) =>
      if s.active != IDLE {
        SetActiveOk(s, s.threads[s.active].(wakeup := U64(curr + ms * 1_000_000), state := Sleeping));
      }
    case Lock(block) =>
      if s.active != IDLE { SetActiveOk(s, s.threads[s.active].(state := Waiting, block := block)); }
    case Unlock(t, block) =>
      if t != IDLE && s.threads[t].state == Waiting && s.threads[t].block == block { UnlockOk(s, t); }
    case SetPriority(p) =>
      if p < LEVELS { SetPriorityOk(s, p); }
  }

  /** A priority change keeps the invariant exactly when it is safe. */
  lemma SetPriorityOk(s: Sched, p: u32)
    requires Ok(s) && p < LEVELS
    ensures Ok(SetActive(s, s.threads[s.active].(priority := p))) <==> SafePriority(s, p)
  {
    var th := s.threads[s.active].(priority := p);
    if s.threads[s.active].state != Ready {
      SetActiveOk(s, th);
    } else if s.threads[s.active].priority == p {
      assert SetActive(s, th) == s;
    } else {
      var s', q := SetActive(s, th), s.threads[s.active].priority;
      assert s.active in s.ready[q];
      assert s'.ready[q] == s.ready[q] && s'.threads[s.active].priority == p;
      OutOfPlace(s', s.active, q);
    }
  }

  // ----- what the steps do to the tables

  /** A created thread is ready with the priority asked for, at the head of that queue, and nothing else changes. */
  lemma CreateMeans(s: Sched, p: u32)
    requires Shape(s) && p < LEVELS
    ensures var s', n := Apply(s, Create(p)), |s.threads|;
            && |s'.threads| == n + 1 && s'.threads[..n] == s.threads
            && s'.threads[n].state == Ready && s'.threads[n].priority == p
            && |s'.ready| == LEVELS && s'.ready[p] == [n] + s.ready[p]
            && (forall q :: 0 <= q < LEVELS && q != p ==> s'.ready[q] == s.ready[q])
            && s'.sleeping == s.sleeping && s'.active == s.active
    ensures Waits(Apply(s, Create(p)).ready[p], |s.threads|, |s.ready[p]|)
  {
  }

  /**
    An accepted unlock makes exactly that thread ready and pushes it at the head of
    the queue of its own priority, where it has all others of the queue in front of it.
  */
  lemma UnlockMeans(s: Sched, t: nat, block: WaitType)
    requires Shape(s) && IDLE != t < |s.threads| && s.threads[t].state == Waiting && s.threads[t].block == block
    ensures var s', p := Apply(s, Unlock(t, block)), s.threads[t].priority;
            && |s'.threads| == |s.threads| && s'.threads[t] == s.threads[t].(state := Ready)
            && (forall u :: 0 <= u < |s.threads| && u != t ==> s'.threads[u] == s.threads[u])
            && |s'.ready| == LEVELS && s'.ready[p] == [t] + s.ready[p]
            && (forall q :: 0 <= q < LEVELS && q != p ==> s'.ready[q] == s.ready[q])
            && s'.sleeping == s.sleeping && s'.active == s.active
            && Waits(s'.ready[p], t, |s.ready[p]|)
  {
  }

  /** A refused unlock does nothing. */
  lemma UnlockRefused(s: Sched, t: nat, block: WaitType)
    requires Shape(s) && t < |s.threads|
    requires t == IDLE || s.threads[t].state != Waiting || s.threads[t].block != block
    ensures Apply(s, Unlock(t, block)) == s
  {
  }

  // ----- runs

  ghost predicate Run(states: seq<Sched>, ops: seq<Op>) {
    && |states| == |ops| + 1
    && forall i :: 0 <= i < |ops| ==>
         Shape(states[i]) && Enabled(states[i], ops[i]) && states[i + 1] == Apply(states[i], ops[i])
  }

  /** The first select has not happened yet: the idle thread is active and still in its ready queue. */
  ghost predicate Initial(s: Sched, priority: nat) {
    && priority < LEVELS && |s.ready| == LEVELS && s.active == IDLE && s.sleeping == []
    && s.threads == [Thread(Ready, priority, 0, Resource)]
    && forall p :: 0 <= p < LEVELS ==> s.ready[p] == if p == priority then [IDLE] else []
  }

  lemma InitialOk(s: Sched, priority: nat)
    requires Initial(s, priority)
    ensures Ok(s)
  {
    assert forall p: int, t: nat :: 0 <= p < LEVELS ==>
      (t in s.ready[p] <==> t < |s.threads| && s.threads[t].state == Ready && s.threads[t].priority == p);
  }

  lemma {:induction false} RunOk(states: seq<Sched>, ops: seq<Op>, n: nat)
    requires Run(states, ops) && n < |states| && Ok(states[0])
    ensures Ok(states[n])
  {
    if n > 0 {
      RunOk(states, ops, n - 1);
      hide Ok, Shape, Apply;
      StepOk(states[n - 1], ops[n - 1]);
    }
  }

  // ----- which thread is elected

  /** s' is s with a thread running that came from the tail of its queue, none of the others more urgent. */
  ghost predicate Elected(s: Sched, s': Sched) {
    && s'.active < |s'.threads| && s'.threads[s'.active].state == Running
    && (var p, t := s'.threads[s'.active].priority, s'.active;
        p < |s'.ready| && s.ready == s'.ready[p := s'.ready[p] + [t]])
    && (forall t: nat :: t < |s'.threads| && s'.threads[t].state == Ready ==>
          s'.threads[s'.active].priority <= s'.threads[t].priority)
  }

  /** The elected thread is at least as urgent as every thread that is ready, and was next in its queue. */
  lemma ElectedMostUrgent(s: Sched, now: u64)
    requires Ok(s)
    ensures Shape(Requeue(s)) && Elected(WakeAll(Requeue(s), now), Selected(s, now))
  {
    hide Ok, Switching, Elected, Selected, WakeAll, Requeue;
    OkShape(s);
    SelectOk(s, now);
    SwitchingShape(Requeue(s));
    SwitchingShape(WakeAll(Requeue(s), now));
    ElectFirst(WakeAll(Requeue(s), now));
  }

  lemma ElectFirst(s: Sched)
    requires Switching(s)
    ensures Shape(s) && Elected(s, Elect(s))
  {
    ElectOk(s);
    var s', p := Elect(s), Level(s.ready, 0);
    var q := s.ready[p];
    assert q[|q| - 1] in q;
    assert s'.threads[s'.active].priority == p;
    assert q == q[..|q| - 1] + [q[|q| - 1]];
    assert s.ready == s'.ready[p := q];
    hide Keys, KQueue.Falling, NoDup, Within, SleepOk, Level;
    forall t: nat | 0 <= t < |s'.threads| && s'.threads[t].state == Ready
      ensures p <= s'.threads[t].priority
    {
      assert t in s'.ready[s'.threads[t].priority];
    }
  }

  // ----- round robin

  /** Thread t stands in ready queue p with k threads nearer to the tail. */
  ghost predicate Waits(q: seq<nat>, t: nat, k: nat) {
    k < |q| && q[|q| - 1 - k] == t
  }

  lemma PushWaits(q: seq<nat>, x: nat, t: nat, k: nat)
    requires Waits(q, t, k)
    ensures Waits([x] + q, t, k)
  {
  }

  lemma RequeueWaits(s: Sched, p: int, t: nat, k: nat)
    requires Shape(s) && 0 <= p < LEVELS && Waits(s.ready[p], t, k) && Shape(Requeue(s))
    ensures Waits(Requeue(s).ready[p], t, k)
  {
    PushWaits(s.ready[p], s.active, t, k);
    hide Waits;
  }

  lemma {:induction false} WakeAllWaits(s: Sched, now: u64, p: int, t: nat, k: nat)
    requires Switching(s) && 0 <= p < LEVELS && Waits(s.ready[p], t, k) && Shape(WakeAll(s, now))
    ensures Waits(WakeAll(s, now).ready[p], t, k)
    decreases |s.sleeping|
  {
    if s.sleeping != [] {
      SwitchingShape(s);
      PushWaits(s.ready[p], Tail(s), t, k);
      hide Switching, Waits;
      if s.threads[Tail(s)].wakeup < now {
        WakeSwitching(s);
        WakeAllWaits(MakeReady(Popped(s), Tail(s)), now, p, t, k);
      }
    }
  }

  /** The level a step serves: for a select, the lowest-numbered queue that is not empty after the wake-ups. */
  ghost function Served(s: Sched, op: Op): int {
    if op.Select? && Ok(s) then ServedBy(s, op.now) else LEVELS
  }

  ghost function ServedBy(s: Sched, now: u64): int
    requires Ok(s)
  {
    SelectOk(s, now);
    Level(WakeAll(Requeue(s), now).ready, 0)
  }

  lemma SelectWaits(s: Sched, now: u64, p: int, t: nat, k: nat)
    requires Ok(s) && 0 <= p < LEVELS && Waits(s.ready[p], t, k)
    ensures ServedBy(s, now) <= p && Ok(Selected(s, now))
    ensures ServedBy(s, now) < p ==> Waits(Selected(s, now).ready[p], t, k)
    ensures ServedBy(s, now) == p && k > 0 ==> Waits(Selected(s, now).ready[p], t, k - 1)
    ensures ServedBy(s, now) == p && k == 0 ==> Selected(s, now).active == t
  {
    SelectOk(s, now);
    hide Ok, Switching, Selected, Requeue, WakeAll, Elect, Waits;
    SwitchingShape(Requeue(s));
    OkShape(s);
    SwitchingShape(WakeAll(Requeue(s), now));
    RequeueWaits(s, p, t, k);
    WakeAllWaits(Requeue(s), now, p, t, k);
    ElectWaits(WakeAll(Requeue(s), now), p, t, k);
  }

  lemma ElectWaits(s: Sched, p: int, t: nat, k: nat)
    requires Shape(s) && 0 <= p < LEVELS && Waits(s.ready[p], t, k)
    ensures var l := Level(s.ready, 0);
            && l <= p
            && (l < p ==> Waits(Elect(s).ready[p], t, k))
            && (l == p && k > 0 ==> Waits(Elect(s).ready[p], t, k - 1))
            && (l == p && k == 0 ==> Elect(s).active == t)
  {
    hide Within;
  }

  lemma OkShape(s: Sched)
    requires Ok(s)
    ensures Shape(s)
  {
  }

  lemma OtherWaits(s: Sched, op: Op, p: int, t: nat, k: nat)
    requires Ok(s) && Enabled(s, op) && !op.Select? && 0 <= p < LEVELS && Waits(s.ready[p], t, k)
    ensures Ok(Apply(s, op)) && Waits(Apply(s, op).ready[p], t, k)
  {
    StepOk(s, op);
    PushWaits(s.ready[p], |s.threads|, t, k);
    if op.Unlock? { PushWaits(s.ready[p], op.thread, t, k); }
    hide Waits, Ok, KQueue.Falling, Keys;
    OkShape(s);
  }

  /** One step, for a thread that waits at level p. */
  lemma StepWaits(s: Sched, op: Op, p: int, t: nat, k: nat)
    requires Ok(s) && Enabled(s, op) && 0 <= p < LEVELS && Waits(s.ready[p], t, k)
    ensures Ok(Apply(s, op))
    ensures Served(s, op) != p ==> Waits(Apply(s, op).ready[p], t, k)
    ensures Served(s, op) == p && k > 0 ==> Waits(Apply(s, op).ready[p], t, k - 1)
    ensures Served(s, op) == p && k == 0 ==> Apply(s, op).active == t
  {
    hide Ok, Waits, ServedBy, Selected, Requeue, WakeAll, MakeReady, SetActive;
    OkShape(s);
    if op.Select? {
      SelectWaits(s, op.now, p, t, k);
    } else {
      OtherWaits(s, op, p, t, k);
    }
  }

  /** How many of the first n steps are selects that serve level p. */
  ghost function Turns(states: seq<Sched>, ops: seq<Op>, p: int, n: nat): (c: nat)
    requires n <= |ops| <= |states|
    ensures c <= n
  {
    if n == 0 then 0 else Turns(states, ops, p, n - 1) + if Served(states[n - 1], ops[n - 1]) == p then 1 else 0
  }

  lemma RunStep(states: seq<Sched>, ops: seq<Op>, i: nat)
    requires Run(states, ops) && i < |ops|
    ensures |states| == |ops| + 1 && Shape(states[i]) && Enabled(states[i], ops[i])
    ensures states[i + 1] == Apply(states[i], ops[i])
  {
  }

  /** A waiting thread moves up one place per turn of its level, whatever else happens meanwhile. */
  lemma {:induction false} MovesUp(states: seq<Sched>, ops: seq<Op>, p: int, t: nat, k: nat, n: nat)
    requires Run(states, ops) && n <= |ops| < |states| && Ok(states[0]) && 0 <= p < LEVELS
    requires p < |states[0].ready| && Waits(states[0].ready[p], t, k)
    requires Turns(states, ops, p, n) <= k
    ensures Ok(states[n]) && p < |states[n].ready| && Waits(states[n].ready[p], t, k - Turns(states, ops, p, n))
  {
    hide Ok, Shape, Waits, Served, Apply, Run, Enabled;
    if n > 0 {
      MovesUp(states, ops, p, t, k, n - 1);
      RunStep(states, ops, n - 1);
      StepWaits(states[n - 1], ops[n - 1], p, t, k - Turns(states, ops, p, n - 1));
      OkLevels(states[n]);
    }
  }

  lemma OkLevels(s: Sched)
    requires Ok(s)
    ensures |s.ready| == LEVELS
  {
  }

  /** A thread with k others nearer to the tail runs at exactly the (k+1)-th turn of its level. */
  lemma RoundRobin(states: seq<Sched>, ops: seq<Op>, p: int, t: nat, k: nat, n: nat)
    requires Run(states, ops) && n < |ops| < |states| && Ok(states[0]) && 0 <= p < LEVELS
    requires p < |states[0].ready| && Waits(states[0].ready[p], t, k)
    requires Turns(states, ops, p, n) == k && Turns(states, ops, p, n + 1) == k + 1
    ensures Ok(states[n + 1]) && states[n + 1].active == t
    ensures forall i :: 0 <= i <= n ==> p < |states[i].ready| && t in states[i].ready[p]
  {
    hide Ok, Shape, Waits, Served, Apply, Run, Enabled;
    MovesUp(states, ops, p, t, k, n);
    RunStep(states, ops, n);
    StepWaits(states[n], ops[n], p, t, 0);
    forall i | 0 <= i <= n
      ensures p < |states[i].ready| && t in states[i].ready[p]
    {
      TurnsMono(states, ops, p, i, n);
      MovesUp(states, ops, p, t, k, i);
      WaitsMember(states[i].ready[p], t, k - Turns(states, ops, p, i));
    }
  }

  lemma WaitsMember(q: seq<nat>, t: nat, k: nat)
    requires Waits(q, t, k)
    ensures t in q
  {
  }

  lemma {:induction false} TurnsMono(states: seq<Sched>, ops: seq<Op>, p: int, i: nat, n: nat)
    requires i <= n <= |ops| <= |states|
    ensures Turns(states, ops, p, i) <= Turns(states, ops, p, n)
    decreases n
  {
    hide Served;
    if i < n { TurnsMono(states, ops, p, i, n - 1); }
  }

  // ----- sleepers

  /** How many sleepers stay: those from the head up to the last one that is not due. */
  function Stay(threads: seq<Thread>, q: seq<nat>, now: u64): (k: nat)
    requires Within(q, |threads|)
    ensures k <= |q|
    ensures forall i :: k <= i < |q| ==> threads[q[i]].wakeup < now
    ensures k > 0 ==> threads[q[k - 1]].wakeup >= now
  {
    if q == [] || threads[q[|q| - 1]].wakeup >= now then |q| else Stay(threads, q[..|q| - 1], now)
  }

  /** What a select does to a sleeper that it wakes, and to every other thread. */
  ghost predicate Woken(s: Sched, s': Sched, k: nat) {
    && k <= |s.sleeping| && |s'.threads| == |s.threads|
    && (forall t: nat :: t in s'.sleeping <==> t in s.sleeping[..k])
    && (forall t: nat :: t < |s.threads| ==>
          s'.threads[t] == if t in s.sleeping[k..] then s.threads[t].(state := Ready) else s.threads[t])
  }

  /** The wake-up loop wakes exactly the due threads behind the last one that is not due, and loses none. */
  lemma {:induction false} WakesTail(s: Sched, now: u64)
    requires Switching(s)
    ensures Within(s.sleeping, |s.threads|)
    ensures Woken(s, WakeAll(s, now), Stay(s.threads, s.sleeping, now))
    decreases |s.sleeping|
  {
    SwitchingShape(s);
    ShapeWithin(s);
    SwitchingNoDup(s);
    WakeAllStep(s, now);
    StayStep(s.threads, s.sleeping, now);
    hide Switching, Shape, Woken, Enqueue, MakeReady, NoDup, WakeAll, Stay;
    if s.sleeping == [] {
      NoneWoken(s);
    } else {
      var t := Tail(s);
      if s.threads[t].wakeup < now {
        WakeSwitching(s);
        var s1 := MakeReady(Popped(s), t);
        SwitchingShape(s1);
        WakesTail(s1, now);
        MadeReady(Popped(s), t);
        StaySame(s.threads, s1.threads, s1.sleeping, now);
        WokenMore(s, s1, WakeAll(s1, now), Stay(s.threads, s.sleeping, now));
      } else {
        WokenNone(s, now);
      }
    }
  }

  lemma WakeAllStep(s: Sched, now: u64)
    requires Shape(s) && Within(s.sleeping, |s.threads|)
             && (s.sleeping != [] ==> Tail(s) < |s.threads| && Shape(Popped(s)))
    ensures WakeAll(s, now) ==
            if s.sleeping == [] then s
            else if s.threads[Tail(s)].wakeup >= now then Enqueue(Popped(s), Tail(s))
            else (MakeReadyShape(Popped(s), Tail(s)); WakeAll(MakeReady(Popped(s), Tail(s)), now))
  {
  }

  lemma StayStep(threads: seq<Thread>, q: seq<nat>, now: u64)
    requires Within(q, |threads|)
    ensures q != [] ==> Within(q[..|q| - 1], |threads|)
    ensures Stay(threads, q, now) ==
            if q == [] || threads[q[|q| - 1]].wakeup >= now then |q| else Stay(threads, q[..|q| - 1], now)
  {
  }

  lemma MadeReady(s: Sched, t: nat)
    requires Shape(s) && t < |s.threads|
    ensures var s' := MakeReady(s, t);
            && |s'.threads| == |s.threads| && s'.sleeping == s.sleeping
            && forall x :: 0 <= x < |s.threads| ==> s'.threads[x].wakeup == s.threads[x].wakeup
  {
  }

  lemma NoneWoken(s: Sched)
    requires s.sleeping == []
    ensures Woken(s, s, 0)
  {
  }

  lemma SwitchingNoDup(s: Sched)
    requires Switching(s)
    ensures NoDup(s.sleeping)
  {
  }

  lemma {:induction false} StaySame(threads: seq<Thread>, threads': seq<Thread>, q: seq<nat>, now: u64)
    requires Within(q, |threads|) && |threads'| == |threads|
    requires forall t :: 0 <= t < |threads| ==> threads'[t].wakeup == threads[t].wakeup
    ensures Stay(threads', q, now) == Stay(threads, q, now)
    decreases |q|
  {
    if q != [] { StaySame(threads, threads', q[..|q| - 1], now); }
  }

  lemma WokenNone(s: Sched, now: u64)
    requires Switching(s) && s.sleeping != [] && Shape(Popped(s)) && Tail(s) < |s.threads|
    requires s.threads[Tail(s)].wakeup >= now
    ensures Woken(s, Enqueue(Popped(s), Tail(s)), |s.sleeping|)
  {
    BackSwitching(s);
    var s' := Enqueue(Popped(s), Tail(s));
    assert s'.threads == s.threads;
    hide Shape, Enqueue, Switching;
    assert s.sleeping[..|s.sleeping|] == s.sleeping && s.sleeping[|s.sleeping|..] == [];
    forall t: nat
      ensures t in s'.sleeping <==> t in s.sleeping
    {
      SleepsIff(s, t);
      SleepsIff(s', t);
    }
  }

  lemma SleepsIff(s: Sched, t: nat)
    requires Switching(s)
    ensures t in s.sleeping <==> t < |s.threads| && s.threads[t].state == Sleeping
  {
    hide Keys, KQueue.Falling, NoDup, Within, ReadyOk;
    assert t in s.sleeping <==> t < |s.threads| && s.threads[t].state == Sleeping && t != |s.threads|;
  }

  lemma WokenMore(s: Sched, s1: Sched, s2: Sched, k: nat)
    requires Shape(s) && s.sleeping != [] && Tail(s) < |s.threads| && Shape(Popped(s))
             && s1 == MakeReady(Popped(s), Tail(s))
    requires NoDup(s.sleeping) && k < |s.sleeping| && Woken(s1, s2, k)
    ensures Woken(s, s2, k)
  {
    var n := |s.sleeping| - 1;
    assert s1.sleeping == s.sleeping[..n];
    assert s1.sleeping[..k] == s.sleeping[..k];
    assert s.sleeping[k..] == s1.sleeping[k..] + [s.sleeping[n]];
    hide Within, Shape, NoDup;
  }

  /** Whether the sleep queue lies in the order of the full wake times. */
  ghost predicate InOrder(s: Sched)
    requires Within(s.sleeping, |s.threads|)
  {
    forall i, j :: 0 <= i < j < |s.sleeping| ==>
      s.threads[s.sleeping[i]].wakeup >= s.threads[s.sleeping[j]].wakeup
  }

  /** No due thread is left asleep. */
  ghost predicate AllWoken(s: Sched, now: u64)
    requires Shape(s)
  {
    forall t: nat :: t in s.sleeping && s.threads[t].wakeup < now ==> t !in WakeAll(s, now).sleeping
  }

  /** A select never wakes a thread early, and at every time wakes all due ones exactly if the queue is in order. */
  lemma WakesAllIffInOrder(s: Sched)
    requires Switching(s)
    ensures Shape(s) && ((forall now: u64 :: AllWoken(s, now)) <==> InOrder(s))
  {
    SwitchingShape(s);
    ShapeWithin(s);
    hide *;
    if InOrder(s) {
      forall now: u64
        ensures AllWoken(s, now)
      {
        InOrderWakes(s, now);
      }
    } else {
      var now := Late(s);
    }
  }

  /** A time at which a queue out of order leaves a due thread asleep. */
  lemma Late(s: Sched) returns (now: u64)
    requires Switching(s) && Shape(s) && Within(s.sleeping, |s.threads|) && !InOrder(s)
    ensures !AllWoken(s, now)
  {
    ShapeWithin(s);
    hide Switching, Shape, AllWoken;
    var i, j :| 0 <= i < j < |s.sleeping|
                && s.threads[s.sleeping[i]].wakeup < s.threads[s.sleeping[j]].wakeup;
    DisorderLeaves(s, i, j);
    now := s.threads[s.sleeping[j]].wakeup;
  }

  lemma ShapeWithin(s: Sched)
    requires Shape(s)
    ensures Within(s.sleeping, |s.threads|)
  {
  }

  lemma InOrderWakes(s: Sched, now: u64)
    requires Switching(s) && Shape(s) && Within(s.sleeping, |s.threads|) && InOrder(s)
    ensures AllWoken(s, now)
  {
    WakesTail(s, now);
    StayersUndue(s, now);
    hide Switching, WakeAll, Stay, InOrder, Shape, Within;
  }

  /** In a queue in order no thread that stays is due. */
  lemma StayersUndue(s: Sched, now: u64)
    requires Within(s.sleeping, |s.threads|) && InOrder(s)
    ensures forall t: nat :: t in s.sleeping[..Stay(s.threads, s.sleeping, now)] ==>
              t < |s.threads| && s.threads[t].wakeup >= now
  {
    var k := Stay(s.threads, s.sleeping, now);
    hide Stay;
    forall i | 0 <= i < k
      ensures s.sleeping[i] < |s.threads| && s.threads[s.sleeping[i]].wakeup >= now
    {
      if i < k - 1 { assert s.threads[s.sleeping[i]].wakeup >= s.threads[s.sleeping[k - 1]].wakeup; }
    }
  }

  lemma DisorderLeaves(s: Sched, i: int, j: int)
    requires Switching(s) && Shape(s) && 0 <= i < j < |s.sleeping|
    requires s.threads[s.sleeping[i]].wakeup < s.threads[s.sleeping[j]].wakeup
    ensures !AllWoken(s, s.threads[s.sleeping[j]].wakeup)
    ensures s.sleeping[i] in s.sleeping && s.sleeping[i] in WakeAll(s, s.threads[s.sleeping[j]].wakeup).sleeping
  {
    var now := s.threads[s.sleeping[j]].wakeup;
    hide Switching, WakeAll, Stay, Shape, Woken;
    ShapeWithin(s);
    WakesTail(s, now);
    assert Stay(s.threads, s.sleeping, now) > j;
    WokenStays(s, WakeAll(s, now), Stay(s.threads, s.sleeping, now), i);
  }

  lemma WokenStays(s: Sched, s': Sched, k: nat, i: int)
    requires Woken(s, s', k) && 0 <= i < k
    ensures s.sleeping[i] in s'.sleeping && s.sleeping[i] in s.sleeping
  {
    assert s.sleeping[..k][i] == s.sleeping[i];
  }

  /** Wake times that agree above the low 32 bits, as while they all fit the key, put the queue in order. */
  lemma SameEpochInOrder(s: Sched, epoch: nat)
    requires Switching(s)
    requires forall i :: 0 <= i < |s.sleeping| && s.sleeping[i] < |s.threads| ==>
               0 <= s.threads[s.sleeping[i]].wakeup - epoch * 0x1_0000_0000 < 0x1_0000_0000
    ensures Within(s.sleeping, |s.threads|) && InOrder(s)
  {
    var keys := Keys(s.threads, s.sleeping);
    forall i | 0 <= i < |s.sleeping|
      ensures keys[i] == s.threads[s.sleeping[i]].wakeup - epoch * 0x1_0000_0000
    {
      CutKey(s.threads[s.sleeping[i]].wakeup, epoch);
    }
    hide Keys, Key, ReadyOk, SleepOk;
  }

  lemma CutKey(w: int, epoch: nat)
    requires 0 <= w - epoch * 0x1_0000_0000 < 0x1_0000_0000
    ensures U32(w) == w - epoch * 0x1_0000_0000
  {
  }

  // ----- what a select does to the tables

  /** A queue that keeps q at its tail end, in order: others may only have come in behind it. */
  predicate Ends(q': seq<nat>, q: seq<nat>) {
    |q| <= |q'| && q'[|q'| - |q|..] == q
  }

  lemma EndsPush(q': seq<nat>, q: seq<nat>, x: nat)
    requires Ends(q', [x] + q)
    ensures Ends(q', q)
  {
    assert q'[|q'| - |q|..] == q'[|q'| - |q| - 1..][1..] == q;
  }

  lemma {:induction false} WakeAllEnds(s: Sched, now: u64, p: int)
    requires Switching(s) && 0 <= p < LEVELS && Shape(WakeAll(s, now))
    ensures Ends(WakeAll(s, now).ready[p], s.ready[p])
    decreases |s.sleeping|
  {
    SwitchingShape(s);
    hide Switching, Ends;
    if s.sleeping == [] || s.threads[Tail(s)].wakeup >= now {
      EndsSelf(s.ready[p]);
    } else {
      var s1 := MakeReady(Popped(s), Tail(s));
      WakeSwitching(s);
      WakeAllEnds(s1, now, p);
      if s1.ready[p] != s.ready[p] { EndsPush(WakeAll(s, now).ready[p], s.ready[p], Tail(s)); }
    }
  }

  lemma EndsSelf(q: seq<nat>)
    ensures Ends(q, q)
  {
  }

  /** Priority, wake time and wait reason stay what they were. */
  predicate SameRecord(th: Thread, th': Thread) {
    th' == th.(state := th'.state)
  }

  /** What the wake-up loop may do to a thread. */
  predicate Roused(th: Thread, th': Thread, now: u64) {
    th' == th || (th.state == Sleeping && th.wakeup < now && th' == th.(state := Ready))
  }

  lemma WakeAllRouses(s: Sched, now: u64)
    requires Switching(s)
    ensures |WakeAll(s, now).threads| == |s.threads|
    ensures forall t :: 0 <= t < |s.threads| ==> Roused(s.threads[t], WakeAll(s, now).threads[t], now)
  {
    WakesTail(s, now);
    hide Switching, WakeAll, Stay, Within;
    var k := Stay(s.threads, s.sleeping, now);
    forall t: nat | t < |s.threads| && t in s.sleeping[k..]
      ensures s.threads[t].wakeup < now && s.threads[t].state == Sleeping
    {
      TailDue(s, now, t);
    }
  }

  lemma TailDue(s: Sched, now: u64, t: nat)
    requires Switching(s) && Within(s.sleeping, |s.threads|) && t < |s.threads|
    requires t in s.sleeping[Stay(s.threads, s.sleeping, now)..]
    ensures s.threads[t].wakeup < now && s.threads[t].state == Sleeping
  {
    hide Switching, Within, Stay;
    var k := Stay(s.threads, s.sleeping, now);
    var i := TailIndex(s.sleeping, k, t);
    SleepsIff(s, t);
  }

  lemma TailIndex(q: seq<nat>, k: nat, t: nat) returns (i: int)
    requires k <= |q| && t in q[k..]
    ensures k <= i < |q| && q[i] == t && t in q
  {
    var j :| 0 <= j < |q[k..]| && q[k..][j] == t;
    i := k + j;
  }

  /** What a select leaves of a thread's record, given the thread elected. */
  predicate Turned(s: Sched, s': Sched, now: u64, t: nat)
    requires t < |s.threads| == |s'.threads|
  {
    && SameRecord(s.threads[t], s'.threads[t])
    && (t == s'.active ==> s'.threads[t].state == Running)
    && (t != s'.active && s.threads[t].state == Running ==> s'.threads[t].state == Ready)
    && (t != s'.active && s.threads[t].state == Sleeping ==>
          s'.threads[t].state == Sleeping || (s'.threads[t].state == Ready && s.threads[t].wakeup < now))
    && (t != s'.active && (s.threads[t].state == Ready || s.threads[t].state == Waiting) ==>
          s'.threads[t].state == s.threads[t].state)
  }

  /** Who gives up the processor, if he is to be queued at level p. */
  function Yielded(s: Sched, p: int): seq<nat>
    requires s.active < |s.threads|
  {
    if s.threads[s.active].state == Running && s.threads[s.active].priority == p then [s.active] else []
  }

  /** The thread elected from level p. */
  function Taken(s': Sched, p: int): seq<nat>
    requires s'.active < |s'.threads|
  {
    if s'.threads[s'.active].priority == p then [s'.active] else []
  }

  /**
    A select changes nothing of a thread but its state: the elected one runs, the
    one that ran before is ready, due sleepers may be ready, all others are as
    before.  Every ready queue keeps its order, with the thread that ran behind
    those that waited, woken ones behind it, and the elected one taken from the
    tail of its level.
  */
  lemma SelectMeans(s: Sched, now: u64)
    requires Ok(s)
    ensures Shape(s) && Shape(Selected(s, now)) && |Selected(s, now).threads| == |s.threads|
    ensures var s' := Selected(s, now);
            && (forall t: nat :: t < |s.threads| ==> Turned(s, s', now, t))
            && (forall p :: 0 <= p < LEVELS ==> Ends(s'.ready[p] + Taken(s', p), Yielded(s, p) + s.ready[p]))
            && (forall t: nat :: t < |s.threads| && s'.threads[t].state == Ready ==>
                  s'.threads[s'.active].priority <= s'.threads[t].priority)
  {
    hide Ok, Selected, Switching, Requeue, WakeAll, Elect, Turned, Shape, Ends;
    SelectShapes(s, now);
    ElectedMostUrgent(s, now);
    SelectRecords(s, now);
    forall p | 0 <= p < LEVELS
      ensures Ends(Selected(s, now).ready[p] + Taken(Selected(s, now), p), Yielded(s, p) + s.ready[p])
    {
      SelectQueue(s, now, p);
    }
  }

  lemma SelectQueue(s: Sched, now: u64, p: int)
    requires Ok(s) && 0 <= p < LEVELS
    ensures Shape(s) && Shape(Selected(s, now))
    ensures Ends(Selected(s, now).ready[p] + Taken(Selected(s, now), p), Yielded(s, p) + s.ready[p])
  {
    hide *;
    SelectShapes(s, now);
    ElectedMostUrgent(s, now);
    WakeAllEnds(Requeue(s), now, p);
    RequeueQueue(s, p);
    ElectedQueue(WakeAll(Requeue(s), now), Selected(s, now), p);
  }

  lemma SelectShapes(s: Sched, now: u64)
    requires Ok(s)
    ensures Shape(s) && |s.ready| == LEVELS && s.active < |s.threads|
    ensures Switching(Requeue(s)) && Shape(Requeue(s)) && |Requeue(s).ready| == LEVELS
    ensures var s2 := WakeAll(Requeue(s), now); Switching(s2) && Shape(s2) && |s2.ready| == LEVELS
    ensures var s' := Selected(s, now); Ok(s') && Shape(s') && |s'.ready| == LEVELS && s'.active < |s'.threads|
    ensures Selected(s, now) == Elect(WakeAll(Requeue(s), now))
  {
    SelectOk(s, now);
    OkShape(s);
    OkShape(Selected(s, now));
    SwitchingShape(Requeue(s));
    SwitchingShape(WakeAll(Requeue(s), now));
    hide Ok, Selected, Switching, WakeAll, Elect, Requeue, Within;
  }

  lemma RequeueQueue(s: Sched, p: int)
    requires Shape(s) && 0 <= p < LEVELS && |Requeue(s).ready| == LEVELS
    ensures Requeue(s).ready[p] == Yielded(s, p) + s.ready[p]
  {
    hide Within;
  }

  lemma ElectedQueue(s2: Sched, s': Sched, p: int)
    requires Elected(s2, s') && 0 <= p < |s'.ready| == |s2.ready|
    ensures s2.ready[p] == s'.ready[p] + Taken(s', p)
  {
  }

  lemma SelectRecords(s: Sched, now: u64)
    requires Ok(s)
    ensures |Selected(s, now).threads| == |s.threads|
    ensures forall t: nat :: t < |s.threads| ==> Turned(s, Selected(s, now), now, t)
  {
    hide *;
    SelectShapes(s, now);
    var s1, s2, s' := Requeue(s), WakeAll(Requeue(s), now), Selected(s, now);
    RequeueRecords(s);
    WakeAllRouses(s1, now);
    ElectRecords(s2);
    NobodyRuns(s2);
    forall t: nat | t < |s.threads|
      ensures Turned(s, s', now, t)
    {
      RecordTurned(s, s1.threads[t], s2.threads[t], s', now, t);
    }
  }

  /** Requeued, roused and elected. */
  lemma RecordTurned(s: Sched, th1: Thread, th2: Thread, s': Sched, now: u64, t: nat)
    requires t < |s.threads| == |s'.threads|
    requires th1 == if s.threads[t].state == Running then s.threads[t].(state := Ready) else s.threads[t]
    requires Roused(th1, th2, now)
    requires s'.threads[t] == if t == s'.active then th2.(state := Running) else th2
    ensures Turned(s, s', now, t)
  {
  }

  lemma NobodyRuns(s: Sched)
    requires Switching(s)
    ensures forall t :: 0 <= t < |s.threads| ==> s.threads[t].state != Running
  {
  }

  lemma RequeueRecords(s: Sched)
    requires Ok(s)
    ensures Shape(s) && |Requeue(s).threads| == |s.threads|
    ensures forall t :: 0 <= t < |s.threads| ==>
              Requeue(s).threads[t]
              == if s.threads[t].state == Running then s.threads[t].(state := Ready) else s.threads[t]
  {
    hide Keys, KQueue.Falling, ReadyOk, SleepOk;
  }

  lemma ElectRecords(s: Sched)
    requires Switching(s)
    ensures Shape(s) && Elect(s).active < |s.threads| == |Elect(s).threads|
    ensures Elect(s).threads == s.threads[Elect(s).active := s.threads[Elect(s).active].(state := Running)]
  {
    ElectOk(s);
    SwitchingShape(s);
    hide Switching, Level;
    var p := Level(s.ready, 0);
    WithinAt(s.ready[p], |s.threads|, |s.ready[p]| - 1);
  }

  // ----- the more urgent thread runs first

  /** A ready thread that a select does not elect stays as it is. */
  lemma SelectKeepsReady(s: Sched, now: u64, t: nat)
    requires Ok(s) && t < |s.threads| && s.threads[t].state == Ready
    ensures t < |Selected(s, now).threads|
    ensures Selected(s, now).active != t ==> Selected(s, now).threads[t] == s.threads[t]
  {
    SelectRecords(s, now);
    hide Ok, Selected;
    assert Turned(s, Selected(s, now), now, t);
  }

  lemma OtherKeepsReady(s: Sched, op: Op, t: nat)
    requires Shape(s) && Enabled(s, op) && !op.Select?
    requires t < |s.threads| && s.threads[t].state == Ready && t != s.active
    ensures t < |Apply(s, op).threads| && Apply(s, op).threads[t] == s.threads[t] && Apply(s, op).active == s.active
  {
    hide Within;
  }

  /** Threads a and b are ready as given, a is the more urgent one, and neither is active. */
  predicate Rivals(s: Sched, a: nat, b: nat, x: Thread, y: Thread) {
    && a < |s.threads| && s.threads[a] == x && x.state == Ready && s.active != a
    && b < |s.threads| && s.threads[b] == y && y.state == Ready && s.active != b
    && x.priority < y.priority
  }

  lemma UrgentStep(s: Sched, op: Op, a: nat, b: nat, x: Thread, y: Thread)
    requires Ok(s) && Shape(s) && Enabled(s, op) && Rivals(s, a, b, x, y)
    ensures Apply(s, op).active != a ==> Rivals(Apply(s, op), a, b, x, y)
  {
    hide Ok, Shape, Selected, Ends;
    if op.Select? {
      ApplySelect(s, op.now);
      SelectMeans(s, op.now);
      SelectKeepsReady(s, op.now, a);
      SelectKeepsReady(s, op.now, b);
      assert Turned(s, Selected(s, op.now), op.now, b);
      hide Apply;
    } else {
      OtherKeepsReady(s, op, a);
      OtherKeepsReady(s, op, b);
      hide Apply;
    }
  }

  /** While a ready thread waits for its turn, no thread of lesser urgency that was ready with it is elected. */
  lemma {:induction false} UrgentFirst(states: seq<Sched>, ops: seq<Op>, a: nat, b: nat, x: Thread, y: Thread,
                                       i: nat, n: nat)
    requires Run(states, ops) && Ok(states[0]) && i <= n < |states| && Rivals(states[i], a, b, x, y)
    requires forall j :: i <= j <= n ==> states[j].active != a
    ensures Rivals(states[n], a, b, x, y)
    decreases n
  {
    hide *;
    if i < n {
      RunLength(states, ops);
      RunOk(states, ops, n - 1);
      RunStep(states, ops, n - 1);
      UrgentFirst(states, ops, a, b, x, y, i, n - 1);
      UrgentStep(states[n - 1], ops[n - 1], a, b, x, y);
    }
  }

  lemma RunLength(states: seq<Sched>, ops: seq<Op>)
    requires Run(states, ops)
    ensures |states| == |ops| + 1
  {
  }

  lemma ApplySelect(s: Sched, now: u64)
    requires Shape(s)
    ensures Apply(s, Select(now)) == Selected(s, now)
  {
  }

  /** Of two created threads the one with the smaller priority number is elected first, in whatever order they came. */
  lemma CreatedFirst(states: seq<Sched>, ops: seq<Op>, p: u32, q: u32, swapped: bool, n: nat)
    requires Run(states, ops) && Ok(states[0]) && 2 <= n <= |ops| && p < q < LEVELS
    requires if swapped then ops[0] == Create(q) && ops[1] == Create(p) else ops[0] == Create(p) && ops[1] == Create(q)
    ensures var k := |states[0].threads|;
            var a, b := if swapped then k + 1 else k, if swapped then k else k + 1;
            (forall j :: 2 <= j <= n ==> states[j].active != a) ==> states[n].active != b
  {
    var k := |states[0].threads|;
    var a, b := if swapped then k + 1 else k, if swapped then k else k + 1;
    hide Ok, Shape, Apply, Enabled;
    RunStep(states, ops, 0);
    RunStep(states, ops, 1);
    CreateMeans(states[0], if swapped then q else p);
    CreateMeans(states[1], if swapped then p else q);
    OkActive(states[0]);
    assert states[1].threads == states[0].threads + [states[1].threads[k]];
    assert states[2].threads == states[1].threads + [states[2].threads[k + 1]];
    if forall j :: 2 <= j <= n ==> states[j].active != a {
      UrgentFirst(states, ops, a, b, states[2].threads[a], states[2].threads[b], 2, n);
    }
  }

  lemma OkActive(s: Sched)
    requires Ok(s)
    ensures s.active < |s.threads|
  {
  }

  /** An unlocked thread runs at exactly the turn of its level after those of all threads that were queued there. */
  lemma UnlockedRuns(states: seq<Sched>, ops: seq<Op>, t: nat, block: WaitType, n: nat)
    requires Run(states, ops) && Ok(states[0]) && |ops| > 0 && ops[0] == Unlock(t, block)
    requires IDLE != t < |states[0].threads| && states[0].threads[t].state == Waiting
    requires states[0].threads[t].block == block
    requires n < |ops[1..]| && states[0].threads[t].priority < |states[0].ready|
    requires Turns(states[1..], ops[1..], states[0].threads[t].priority, n)
             == |states[0].ready[states[0].threads[t].priority]|
    requires Turns(states[1..], ops[1..], states[0].threads[t].priority, n + 1)
             == |states[0].ready[states[0].threads[t].priority]| + 1
    ensures states[n + 2].active == t
  {
    hide Ok, Shape, Apply, Enabled, Turns, Waits;
    var p := states[0].threads[t].priority;
    OkLevels(states[0]);
    RunStep(states, ops, 0);
    UnlockMeans(states[0], t, block);
    RunOk(states, ops, 1);
    RunTail(states, ops);
    RoundRobin(states[1..], ops[1..], p, t, |states[0].ready[p]|, n);
  }

  lemma RunTail(states: seq<Sched>, ops: seq<Op>)
    requires Run(states, ops) && |ops| > 0
    ensures Run(states[1..], ops[1..])
  {
    hide Ok, Apply, Within, SafePriority;
    assert forall i :: 0 <= i < |ops[1..]| ==> ops[1..][i] == ops[i + 1];
    assert forall i :: 0 <= i < |states[1..]| ==> states[1..][i] == states[i + 1];
  }

  // ----- a run across a wrap of the key

  lemma Extend(states: seq<Sched>, ops: seq<Op>, op: Op) returns (states': seq<Sched>)
    requires Run(states, ops) && |states| == |ops| + 1 && Ok(states[|ops|]) && Enabled(states[|ops|], op)
    ensures Shape(states[|ops|]) && states' == states + [Apply(states[|ops|], op)]
    ensures Run(states', ops + [op]) && Ok(states'[|ops| + 1])
  {
    hide Ok, Apply, Within, SafePriority;
    StepOk(states[|ops|], op);
    OkShape(states[|ops|]);
    states' := states + [Apply(states[|ops|], op)];
    var ops' := ops + [op];
    forall i | 0 <= i < |ops'|
      ensures Shape(states'[i]) && Enabled(states'[i], ops'[i]) && states'[i + 1] == Apply(states'[i], ops'[i])
    {
      if i < |ops| { assert states'[i] == states[i] && ops'[i] == ops[i] && states'[i + 1] == states[i + 1]; }
    }
  }

  /** A select with nobody due and no running thread elects the tail of level 0 if there is one. */
  lemma SelectTail(s: Sched, now: u64, q: seq<nat>, t: nat)
    requires Ok(s) && s.threads[s.active].state != Running && s.ready[0] == q + [t]
    requires Shape(Requeue(s)) && Undue(Requeue(s), now)
    ensures Selected(s, now).active == t < |s.threads| && Selected(s, now).ready[0] == q
    ensures Selected(s, now).threads == s.threads[t := s.threads[t].(state := Running)]
  {
    SelectOk(s, now);
    UndueWakes(Requeue(s), now);
    ElectTail(WakeAll(Requeue(s), now), q, t);
    hide WakeAll, Elect, Switching, Enqueue;
  }

  /** The tail of the sleep queue is not due. */
  ghost predicate Undue(s: Sched, now: u64)
    requires Shape(s)
  {
    s.sleeping != [] ==> Tail(s) < |s.threads| && s.threads[Tail(s)].wakeup >= now
  }

  lemma UndueWakes(s: Sched, now: u64)
    requires Shape(s) && Undue(s, now)
    ensures WakeAll(s, now).threads == s.threads && WakeAll(s, now).ready == s.ready
  {
    ShapeWithin(s);
    if s.sleeping != [] {
      PoppedShape(s);
      WakeAllStep(s, now);
    }
    hide Shape;
  }

  lemma ElectTail(s: Sched, q: seq<nat>, t: nat)
    requires Shape(s) && s.ready[0] == q + [t]
    ensures Elect(s).active == t < |s.threads| && Elect(s).ready[0] == q && Elect(s).sleeping == s.sleeping
    ensures Elect(s).threads == s.threads[t := s.threads[t].(state := Running)]
  {
    LevelStep(s.ready, 0);
    assert (q + [t])[..|q|] == q;
    WithinAt(s.ready[0], |s.threads|, |q|);
    hide Level, Within;
  }

  lemma ElectKeeps(s: Sched)
    requires Shape(s)
    ensures Elect(s).sleeping == s.sleeping && |Elect(s).threads| == |s.threads|
    ensures forall t :: 0 <= t < |s.threads| ==> Elect(s).threads[t].wakeup == s.threads[t].wakeup
  {
    hide Level;
    if Level(s.ready, 0) < LEVELS {
      WithinAt(s.ready[Level(s.ready, 0)], |s.threads|, |s.ready[Level(s.ready, 0)]| - 1);
    }
  }

  /** The stages of the run: what is known of threads 1 and 2, level 0 and the active thread. */
  ghost predicate Stage(s: Sched, one: State, two: State, w1: u64, w2: u64, q: seq<nat>, active: nat) {
    && |s.threads| == 3 && |s.ready| == LEVELS && s.threads[1].priority == 0 == s.threads[2].priority
    && s.threads[1].state == one && s.threads[2].state == two
    && s.threads[1].wakeup == w1 && s.threads[2].wakeup == w2
    && s.ready[0] == q && s.active == active
  }

  lemma CreateFacts(s: Sched)
    requires Ok(s)
    ensures Shape(s) && Enabled(s, Create(0))
    ensures var s' := Apply(s, Create(0));
            && s'.threads == s.threads + [Thread(Ready, 0, 0, Resource)] && s'.active == s.active
            && s'.ready[0] == [|s.threads|] + s.ready[0]
  {
    OkShape(s);
  }

  lemma SleepFacts(s: Sched, ms: u32, curr: u64)
    requires Ok(s) && s.active != IDLE && s.threads[s.active].state == Running
    ensures Shape(s) && Enabled(s, Op.Sleep(ms, curr))
    ensures var s' := Apply(s, Op.Sleep(ms, curr));
            && s'.threads ==
               s.threads[s.active := s.threads[s.active].(wakeup := U64(curr + ms * 1_000_000), state := Sleeping)]
            && s'.active == s.active && s'.ready == s.ready
  {
    OkShape(s);
  }

  /** Nobody but thread 1 sleeps. */
  lemma OneSleeper(s: Sched, out: nat)
    requires SleepOk(s, out) && |s.threads| == 3 && s.threads[0].state != Sleeping
    requires s.threads[1].state == Sleeping && out != 1 && (s.threads[2].state != Sleeping || out == 2)
    ensures s.sleeping == [1]
  {
    var q := s.sleeping;
    assert 1 in q;
    forall i | 0 <= i < |q|
      ensures q[i] == 1
    {
      assert q[i] in q;
    }
    assert q[0] == q[|q| - 1];
    assert q == [q[0]];
  }

  lemma NoSleeper(s: Sched, out: nat)
    requires SleepOk(s, out) && forall t :: 0 <= t < |s.threads| ==> s.threads[t].state != Sleeping || t == out
    ensures s.sleeping == []
  {
    HeadMember(s.sleeping);
  }

  lemma HeadMember(q: seq<nat>)
    ensures q == [] || q[0] in q
  {
  }

  /** The first select: thread 1 is at the tail of level 0. */
  lemma FirstSelect(s: Sched)
    requires Ok(s) && Stage(s, Ready, Ready, 0, 0, [2, 1], IDLE) && s.threads[0].state == Ready
    ensures Shape(s) && Stage(Selected(s, 0), Running, Ready, 0, 0, [2], 1)
  {
    OkShape(s);
    NoSleeper(s, s.active);
    SelectOk(s, 0);
    assert [2] + [1] == [2, 1];
    hide Ok, Shape, Switching, Selected;
    SelectTail(s, 0, [2], 1);
  }

  /** The second select: thread 1 goes to sleep, is not due yet, and thread 2 is elected. */
  lemma SecondSelect(s: Sched)
    requires Ok(s) && Stage(s, Sleeping, Ready, 5, 0, [2], 1)
    ensures Shape(s) && Stage(Selected(s, 5), Sleeping, Running, 5, 0, [], 2)
  {
    hide Switching, Selected, Enqueue, Requeue, SleepOk, ReadyOk;
    OkShape(s);
    AloneAsleep(s);
    assert [] + [2] == [2];
    SelectOk(s, 5);
    OkLevels(Selected(s, 5));
    hide Ok, Shape;
    SelectTail(s, 5, [], 2);
  }

  /** Thread 1 alone goes to the sleep queue, where it is not due. */
  lemma AloneAsleep(s: Sched)
    requires Ok(s) && Stage(s, Sleeping, Ready, 5, 0, [2], 1)
    ensures Shape(s) && Shape(Requeue(s)) && Requeue(s).threads == s.threads && Undue(Requeue(s), 5)
  {
    OkShape(s);
    RequeueSwitching(s);
    SwitchingShape(Requeue(s));
    OneSleeper(Requeue(s), 3);
    hide Ok, Shape, Enqueue, ReadyOk;
  }

  /** The third select: the key of thread 2 has wrapped to 0, so it stands at the tail and hides thread 1. */
  lemma ThirdSelect(s: Sched)
    requires Ok(s) && Stage(s, Sleeping, Sleeping, 5, 0x1_0000_0000, [], 2)
    ensures Shape(s) && 1 in Selected(s, 967296).sleeping
    ensures |Selected(s, 967296).threads| == 3 && Selected(s, 967296).threads[1].wakeup == 5
  {
    OkShape(s);
    OneSleeper(s, 2);
    SelectOk(s, 967296);
    WrappedOrder(s);
    hide Ok, Switching, Selected, Shape, Enqueue, WakeAll, Elect;
    assert Requeue(s) == s.(sleeping := [1, 2]);
    SwitchingShape(Requeue(s));
    WrappedWakes(Requeue(s));
    SwitchingShape(WakeAll(Requeue(s), 967296));
    ElectKeeps(WakeAll(Requeue(s), 967296));
  }

  lemma WrappedOrder(s: Sched)
    requires Shape(s) && s.sleeping == [1] && |s.threads| == 3
    requires s.threads[1].wakeup == 5 && s.threads[2].wakeup == 0x1_0000_0000
    ensures Enqueue(s, 2) == s.(sleeping := [1, 2])
  {
    ShapeWithin(s);
    var k := KQueue.Position(Keys(s.threads, s.sleeping), Key(s.threads[2]));
    assert k == 1;
    assert KQueue.Insert([1], 1, 2) == [1, 2];
    hide Shape, Keys, KQueue.Position;
  }

  lemma WrappedWakes(s: Sched)
    requires Switching(s) && Shape(s) && s.sleeping == [1, 2] && |s.threads| == 3
    requires s.threads[1].wakeup == 5 && s.threads[2].wakeup == 0x1_0000_0000
    ensures 1 in WakeAll(s, 967296).sleeping
    ensures |WakeAll(s, 967296).threads| == 3 && WakeAll(s, 967296).threads[1].wakeup == 5
  {
    ShapeWithin(s);
    StayStep(s.threads, s.sleeping, 967296);
    WakesTail(s, 967296);
    WokenStays(s, WakeAll(s, 967296), 2, 0);
    hide Switching, Shape, WakeAll, Stay;
  }

  /** The ready threads after the first two creations. */
  lemma Created() returns (states: seq<Sched>, ops: seq<Op>)
    ensures Run(states, ops) && |ops| == 2 && |states| == 3 && Initial(states[0], 63)
    ensures Ok(states[2]) && Stage(states[2], Ready, Ready, 0, 0, [2, 1], IDLE) && states[2].threads[0].state == Ready
  {
    var s := Sched([Thread(Ready, 63, 0, Resource)], seq(LEVELS, p => if p == 63 then [IDLE] else []), [], IDLE);
    InitialOk(s, 63);
    states, ops := [s], [];
    hide Ok, Apply, Initial, Enabled;
    CreateFacts(s);
    states := Extend(states, ops, Create(0));
    ops := ops + [Create(0)];
    CreateFacts(states[1]);
    states := Extend(states, ops, Create(0));
    ops := ops + [Create(0)];
    assert [2] + ([1] + []) == [2, 1];
  }

  /** Thread 1 has run and gone to sleep until time 5, and thread 2 runs. */
  lemma OneAsleep() returns (states: seq<Sched>, ops: seq<Op>)
    ensures Run(states, ops) && |ops| == 5 && |states| == 6 && Initial(states[0], 63)
    ensures Ok(states[5]) && Stage(states[5], Sleeping, Running, 5, 0, [], 2)
  {
    states, ops := Created();
    hide Run, Initial, Selected, Enabled;
    FirstSelect(states[2]);
    EnabledSelect(states[2], 0);
    states := Extend(states, ops, Select(0));
    ops := ops + [Select(0)];
    StageSleep(states[3], 1, 0, 5);
    states := Extend(states, ops, Op.Sleep(0, 5));
    ops := ops + [Op.Sleep(0, 5)];
    SecondSelect(states[4]);
    EnabledSelect(states[4], 5);
    states := Extend(states, ops, Select(5));
    ops := ops + [Select(5)];
  }

  /**
    A run from the first boot in which a thread that is due sleeps on: its wake
    time 5 lies before the time 967296 of the last select, which leaves it in
    the sleep queue behind a thread due at 2^32.
  */
  lemma SleepsOn() returns (states: seq<Sched>, ops: seq<Op>)
    ensures Run(states, ops) && |ops| == 7 && |states| == 8 && Initial(states[0], 63) && ops[6] == Select(967296)
    ensures |states[7].threads| == 3 && states[7].threads[1].wakeup == 5 && 1 in states[7].sleeping
  {
    states, ops := OneAsleep();
    hide Run, Initial, Selected, Enabled;
    StageSleep(states[5], 2, 4294, 967296);
    states := Extend(states, ops, Op.Sleep(4294, 967296));
    ops := ops + [Op.Sleep(4294, 967296)];
    ThirdSelect(states[6]);
    EnabledSelect(states[6], 967296);
    states := Extend(states, ops, Select(967296));
    ops := ops + [Select(967296)];
  }

  lemma EnabledSelect(s: Sched, now: u64)
    requires Ok(s)
    ensures Shape(s) && Enabled(s, Select(now)) && Apply(s, Select(now)) == Selected(s, now)
  {
    OkShape(s);
  }

  /** The running thread 1 or 2 goes to sleep. */
  lemma StageSleep(s: Sched, t: nat, ms: u32, curr: u64)
    requires t == 1 || t == 2
    requires |s.threads| == 3 && Ok(s) && s.active == t && s.threads[t].state == Running
    ensures Shape(s) && Enabled(s, Op.Sleep(ms, curr))
    ensures var s' := Apply(s, Op.Sleep(ms, curr));
            && |s'.threads| == 3 && s'.active == t && s'.ready == s.ready
            && s'.threads[3 - t] == s.threads[3 - t]
            && s'.threads[t] == s.threads[t].(wakeup := U64(curr + ms * 1_000_000), state := Sleeping)
  {
    SleepFacts(s, ms, curr);
  }

  // ----- the scheduler's own state

  lemma LevelStep(ready: seq<seq<nat>>, i: int)
    requires 0 <= i < |ready|
    ensures Level(ready, i) == if ready[i] != [] then i else Level(ready, i + 1)
  {
  }

  /** The tail t of queue p was taken. */
  ghost predicate TailTaken(q: seq<seq<nat>>, q': seq<seq<nat>>, p: int, t: nat) {
    && 0 <= p < |q| && q[p] != [] && t == q[p][|q[p]| - 1] && q' == q[p := q[p][..|q[p]| - 1]]
  }

  lemma SwitchingLevels(s: Sched)
    requires Switching(s)
    ensures |s.ready| == LEVELS
  {
  }

  lemma ElectTaken(s: Sched, ready: seq<seq<nat>>, t: nat)
    requires Shape(s) && TailTaken(s.ready, ready, Level(s.ready, 0), t)
    ensures t < |s.threads| && Elect(s) == Sched(s.threads[t := s.threads[t].(state := Running)], ready, s.sleeping, t)
  {
    hide Level;
    var p := Level(s.ready, 0);
    WithinAt(s.ready[p], |s.threads|, |s.ready[p]| - 1);
  }

  class Tables {
    var threads: seq<Thread>
    var ready: seq<seq<nat>>
    var sleeping: seq<nat>
    var active: nat

    ghost function Now(): Sched
      reads this
    {
      Sched(threads, ready, sleeping, active)
    }

    /** create_idle on empty tables */
    constructor (priority: nat)
      requires priority < LEVELS
      ensures Initial(Now(), priority) && Ok(Now())
    {
      threads := [Thread(Ready, priority, 0, Resource)];
      ready := seq(LEVELS, p => if p == priority then [IDLE] else []);
      sleeping := [];
      active := IDLE;
      new;
      InitialOk(Now(), priority);
    }

    /**
      sched_create_kernel_thread: its refusals, in order, and what it does to the
      tables.  The allocations' outcomes are parameters.
    */
    method CreateThread(priority: u32, stackSize: u32, mallocOk: bool, kernelStack: Error, stack: Error)
      returns (err: Error)
      requires Ok(Now())
      modifies this
      ensures Ok(Now())
      ensures err == if priority >= LEVELS then ForbiddenPriority
                     else if stackSize % PAGE_SIZE != 0 then Unauthorized
                     else if !mallocOk then MallocFailed
                     else if kernelStack != NoErr then kernelStack
                     else stack
      ensures err != NoErr ==> Now() == old(Now())
      ensures err == NoErr ==> Shape(old(Now())) && Now() == Apply(old(Now()), Create(priority))
      ensures err == NoErr ==>
                var n := |old(threads)|;
                && |threads| == n + 1 && threads[..n] == old(threads)
                && threads[n].state == Ready && threads[n].priority == priority
                && |ready| == LEVELS && ready[priority] == [n] + old(ready)[priority]
                && (forall q :: 0 <= q < LEVELS && q != priority ==> ready[q] == old(ready)[q])
                && sleeping == old(sleeping) && active == old(active)
    {
      hide Ok;
      OkShape(Now());
      if priority > 63 {
        return ForbiddenPriority;
      }
      StepOk(Now(), Create(priority));
      CreateMeans(Now(), priority);
      if stackSize % PAGE_SIZE != 0 {
        return Unauthorized;
      }
      if !mallocOk {
        return MallocFailed;
      }
      if kernelStack != NoErr {
        return kernelStack;
      }
      if stack != NoErr {
        return stack;
      }
      ready := ready[priority := [|threads|] + ready[priority]];
      threads := threads + [Thread(Ready, priority, 0, Resource)];
      err := NoErr;
    }

    /** The wake-up loop of select_thread. */
    method WakeSleepers(now: u64)
      requires Switching(Now())
      modifies this`threads, this`ready, this`sleeping
      ensures Shape(old(Now())) && Now() == WakeAll(old(Now()), now) && Switching(Now())
    {
      hide Switching, Shape, WakeAll, Keys;
      ghost var w := (SwitchingShape(Now()); WakeAll(Now(), now));
      SwitchingShape(Now());
      WakeAllSwitching(Now(), now);
      while true
        invariant Switching(Now()) && Shape(Now()) && WakeAll(Now(), now) == w && active == old(active)
        decreases |sleeping|
      {
        ghost var s := Now();
        SwitchingShape(s);
        ShapeWithin(s);
        WakeAllStep(s, now);
        if sleeping == [] {
          break;
        }
        var n := |sleeping| - 1;
        var t := sleeping[n];
        sleeping := sleeping[..n];
        if threads[t].wakeup < now {
          WakeSwitching(s);
          var p := (ShapePriority(s, t); threads[t].priority);
          threads := threads[t := threads[t].(state := Ready)];
          ready := ready[p := [t] + ready[p]];
          SwitchingShape(Now());
        } else {
          PushBack(t);
          break;
        }
      }
    }

    /** kqueue_push_prio on the sleep queue */
    method PushBack(t: nat)
      requires Shape(Now()) && t < |threads|
      modifies this`sleeping
      ensures Now() == Enqueue(old(Now()), t)
    {
      sleeping := KQueue.Insert(sleeping, KQueue.Position(Keys(threads, sleeping), Key(threads[t])), t);
    }

    /** The election loop of select_thread. */
    method ElectNext()
      requires Switching(Now())
      modifies this`threads, this`ready, this`active
      ensures Shape(old(Now())) && Now() == Elect(old(Now())) && Ok(Now())
    {
      hide Switching, Ok, Shape, Level, Within, Elect, TailTaken;
      ghost var s := Now();
      ElectOk(s);
      SwitchingShape(s);
      SwitchingLevels(s);
      var t := TakeNext();
      ElectTaken(s, ready, t);
      active := t;
      threads := threads[t := threads[t].(state := Running)];
    }

    /** The search for the first queue that is not empty, whose tail is popped. */
    method TakeNext() returns (t: nat)
      requires |ready| == LEVELS && Level(ready, 0) < LEVELS
      modifies this`ready
      ensures TailTaken(old(ready), ready, Level(old(ready), 0), t)
    {
      hide Level;
      ghost var q := ready;
      var found, i := false, 0;
      t := 0;
      while i <= 63 && !found
        invariant 0 <= i <= LEVELS
        invariant !found ==> ready == q && Level(q, 0) == Level(q, i)
        invariant found ==> TailTaken(q, ready, Level(q, 0), t)
      {
        LevelStep(q, i);
        if ready[i] != [] {
          t := ready[i][|ready[i]| - 1];
          ready := ready[i := ready[i][..|ready[i]| - 1]];
          found := true;
        }
        i := i + 1;
      }
    }

    /** select_thread */
    method SelectThread(now: u64)
      requires Ok(Now())
      modifies this
      ensures Ok(Now()) && Now() == Apply(old(Now()), Select(now))
      ensures |threads| == |old(threads)| && active < |threads| && |ready| == LEVELS
      ensures forall t: nat :: t < |threads| ==> Turned(old(Now()), Now(), now, t)
      ensures forall p :: 0 <= p < LEVELS ==>
                Ends(ready[p] + Taken(Now(), p), old(Yielded(Now(), p)) + old(ready)[p])
      ensures forall t: nat :: t < |threads| && threads[t].state == Ready ==>
                threads[active].priority <= threads[t].priority
    {
      hide Ok, Switching, Keys, Elect, WakeAll, Turned, Ends, Taken, Yielded;
      ghost var s := Now();
      SelectMeans(s, now);
      OkShape(s);
      SelectOk(s, now);
      if threads[active].state == Running {
        ready := ready[threads[active].priority := [active] + ready[threads[active].priority]];
        threads := threads[active := threads[active].(state := Ready)];
      } else if threads[active].state == Sleeping {
        PushBack(active);
      }
      WakeSleepers(now);
      ElectNext();
    }

    /** sched_sleep, up to the reschedule */
    method Sleep(ms: u32, curr: u64) returns (err: Error)
      requires Ok(Now()) && Enabled(Now(), Op.Sleep(ms, curr))
      modifies this`threads
      ensures Ok(Now()) && Now() == Apply(old(Now()), Op.Sleep(ms, curr))
      ensures err == if active == IDLE then Unauthorized else NoErr
      ensures err != NoErr ==> threads == old(threads)
      ensures err == NoErr ==>
                && threads[active].state == Sleeping
                && threads[active].wakeup == (curr + ms * 1_000_000) % 0x1_0000_0000_0000_0000
                && threads[active].priority == old(threads)[active].priority
                && forall t :: 0 <= t < |threads| && t != active ==> threads[t] == old(threads)[t]
      ensures |threads| == |old(threads)| && active < |threads|
    {
      hide Ok;
      OkShape(Now());
      StepOk(Now(), Op.Sleep(ms, curr));
      if active == IDLE {
        return Unauthorized;
      }
      threads := threads[active := threads[active].(wakeup := U64(curr + ms * 1_000_000), state := Sleeping)];
      err := NoErr;
    }

    /** sched_lock_thread: None for the idle thread. */
    method LockThread(block: WaitType) returns (locked: bool, thread: nat)
      requires Ok(Now()) && Enabled(Now(), Lock(block))
      modifies this`threads
      ensures Ok(Now()) && Now() == Apply(old(Now()), Lock(block))
      ensures locked == (active != IDLE) && |threads| == |old(threads)| && active < |threads|
      ensures !locked ==> threads == old(threads)
      ensures locked ==>
                && thread == active && threads[active].state == Waiting && threads[active].block == block
                && threads[active].priority == old(threads)[active].priority
                && forall t :: 0 <= t < |threads| && t != active ==> threads[t] == old(threads)[t]
    {
      hide Ok;
      OkShape(Now());
      StepOk(Now(), Lock(block));
      if active == IDLE {
        return false, 0;
      }
      threads := threads[active := threads[active].(state := Waiting, block := block)];
      return true, active;
    }

    /** sched_unlock_thread, up to the optional reschedule */
    method UnlockThread(thread: nat, block: WaitType) returns (err: Error)
      requires Ok(Now()) && thread < |threads|
      modifies this`threads, this`ready
      ensures Ok(Now()) && Now() == Apply(old(Now()), Unlock(thread, block))
      ensures err == if thread == IDLE then NoSuchId
                     else if old(threads[thread]).state != Waiting
                          || old(threads[thread]).block != block then IncorrectValue
                     else NoErr
      ensures err != NoErr ==> Now() == old(Now())
      ensures err == NoErr ==>
                var p := old(threads)[thread].priority;
                && |threads| == |old(threads)| && threads[thread] == old(threads)[thread].(state := Ready)
                && (forall u :: 0 <= u < |threads| && u != thread ==> threads[u] == old(threads)[u])
                && p < |ready| == |old(ready)| && ready[p] == [thread] + old(ready)[p]
                && (forall q :: 0 <= q < |ready| && q != p ==> ready[q] == old(ready)[q])
    {
      hide Ok;
      OkShape(Now());
      StepOk(Now(), Unlock(thread, block));
      err := UnlockTest(thread, block);
      if err == NoErr {
        UnlockPush(thread);
      }
    }

    /** The tests of sched_unlock_thread, which it makes in front of its critical section. */
    method UnlockTest(thread: nat, block: WaitType) returns (err: Error)
      requires thread < |threads|
      ensures err == if thread == IDLE then NoSuchId
                     else if threads[thread].state != Waiting || threads[thread].block != block then IncorrectValue
                     else NoErr
    {
      if thread == IDLE {
        return NoSuchId;
      }
      if threads[thread].state != Waiting || threads[thread].block != block {
        return IncorrectValue;
      }
      err := NoErr;
    }

    /** Its critical section, in whatever state the thread is by then. */
    method UnlockPush(thread: nat)
      requires Ok(Now()) && IDLE != thread < |threads|
      modifies this`threads, this`ready
      ensures Shape(old(Now())) && Now() == MakeReady(old(Now()), thread)
      ensures Ok(Now()) <==> !Enlisted(old(Now()), thread)
      ensures var p := old(threads)[thread].priority;
              && |threads| == |old(threads)| && threads[thread] == old(threads)[thread].(state := Ready)
              && (forall u :: 0 <= u < |threads| && u != thread ==> threads[u] == old(threads)[u])
              && p < |ready| == |old(ready)| && ready[p] == [thread] + old(ready)[p]
              && (forall q :: 0 <= q < |ready| && q != p ==> ready[q] == old(ready)[q])
    {
      hide Ok;
      LateUnlock(Now(), thread);
      ready := ready[threads[thread].priority := [thread] + ready[threads[thread].priority]];
      threads := threads[thread := threads[thread].(state := Ready)];
    }

    /** sched_set_thread_params, which does not ask whether the caller is still queued. */
    method SetThreadParams(priority: u32) returns (err: Error)
      requires Ok(Now())
      modifies this`threads
      ensures Shape(old(Now())) && Now() == Apply(old(Now()), SetPriority(priority))
      ensures Ok(Now()) <==> SafePriority(old(Now()), priority)
      ensures err == if priority < LEVELS then NoErr else ForbiddenPriority
      ensures active < |threads| == |old(threads)|
      ensures threads[active]
              == if err == NoErr then old(threads)[active].(priority := priority) else old(threads)[active]
      ensures forall t :: 0 <= t < |threads| && t != active ==> threads[t] == old(threads)[t]
    {
      hide Ok;
      OkShape(Now());
      err := NoErr;
      if priority <= 63 {
        SetPriorityOk(Now(), priority);
        threads := threads[active := threads[active].(priority := priority)];
      } else {
        err := ForbiddenPriority;
      }
    }
  }

  /** Before the first select the idle thread can be left in the wrong queue. */
  method Misplaced() returns (tables: Tables, err: Error)
    ensures fresh(tables) && err == NoErr && !Ok(tables.Now())
  {
    hide Ok;
    tables := new Tables(63);
    err := tables.SetThreadParams(0);
  }

  /**
    Two unlocks of one waiting thread that both make their test first: the second
    push puts the thread into its queue twice.
  */
  method UnlockedTwice() returns (tables: Tables, first: Error, second: Error)
    ensures fresh(tables) && first == NoErr == second && !Ok(tables.Now())
  {
    hide Ok, Turned, Ends, Taken, Yielded, Selected;
    tables := new Tables(63);
    var err := tables.CreateThread(0, 0, true, NoErr, NoErr);
    FirstElected(tables.Now());
    tables.SelectThread(0);
    var locked, thread := tables.LockThread(Resource);
    first := tables.UnlockTest(1, Resource);
    second := tables.UnlockTest(1, Resource);
    tables.UnlockPush(1);
    tables.UnlockPush(1);
  }

  /** The first select after one creation. */
  lemma FirstElected(s: Sched)
    requires Ok(s) && s.active == IDLE && s.ready[0] == [1]
    requires s.threads == [Thread(Ready, 63, 0, Resource), Thread(Ready, 0, 0, Resource)]
    ensures Shape(s) && Selected(s, 0).active == 1
    ensures Selected(s, 0).threads == [Thread(Ready, 63, 0, Resource), Thread(Running, 0, 0, Resource)]
  {
    OkShape(s);
    NoSleeper(s, s.active);
    assert [] + [1] == [1];
    hide Ok, Shape, Switching, Selected;
    SelectTail(s, 0, [], 1);
  }

  lemma ShapePriority(s: Sched, t: nat)
    requires Shape(s) && t < |s.threads|
    ensures s.threads[t].priority < LEVELS == |s.ready|
  {
  }

  lemma WithinAt(q: seq<nat>, n: nat, i: int)
    requires Within(q, n) && 0 <= i < |q|
    ensures q[i] < n
  {
  }

  /** A thread is in at most one queue, and idle can always be elected. */
  lemma OnePlace(s: Sched, t: nat, p: int, q: int)
    requires Ok(s) && 0 <= p < LEVELS && 0 <= q < LEVELS && t in s.ready[p]
    ensures t !in s.sleeping && (t in s.ready[q] <==> p == q) && s.threads[t].state == Ready
    ensures s.threads[IDLE].state == Ready ==> IDLE in s.ready[s.threads[IDLE].priority]
  {
    hide Keys, KQueue.Falling, NoDup, Within;
    assert t in s.ready[p] <==> t < |s.threads| && s.threads[t].state == Ready && s.threads[t].priority == p;
    assert t in s.ready[q] <==> t < |s.threads| && s.threads[t].state == Ready && s.threads[t].priority == q;
    assert t in s.sleeping <==> t < |s.threads| && s.threads[t].state == Sleeping && t != s.active;
  }
}
