/**
  The kernel side of a futex: the queue of threads parked on one memory word.
  Both calls run inside a critical section, so each is one atomic step.
*/
module Futex {
  import opened Digits

  type Tid = nat
  type Word = x: int | -0x8000_0000 <= x < 0x1_0000_0000

  /** A parked thread and the value it found in the word when it parked. */
  datatype Waiter = Waiter(tid: Tid, wait: Word)

  datatype Error = NoErr | NoSuchId | Panic

  /** The futex table's entry for one word: whether it has a queue, and that queue's size counter. */
  datatype Entry = Entry(created: bool, size: u32, panicked: bool)

  /** A thread parks: the queue is created if need be, and its counter goes up. */
  function AfterWait(e: Entry): Entry {
    e.(created := true, size := U32(e.size + 1))
  }

  /**
    A wake releases threads: removing them does not lower the counter, so it is
    0 after a release only if it had wrapped; then the queue is deleted, which
    panics unless it is empty.
  */
  function AfterWake(e: Entry, released: bool, emptied: bool): Entry {
    if !(e.created && released && e.size == 0) then e
    else if emptied then Entry(false, 0, e.panicked)
    else e.(panicked := true)
  }

  ghost predicate Queued(ws: seq<Waiter>, t: Tid) {
    exists i :: 0 <= i < |ws| && ws[i].tid == t
  }

  /** The threads that a wake of at most n releases, in the order they are released. */
  function Woken(ws: seq<Waiter>, word: Word, n: nat): seq<Tid> {
    if ws == [] || n == 0 then []
    else if ws[0].wait != word then [ws[0].tid] + Woken(ws[1..], word, n - 1)
    else Woken(ws[1..], word, n)
  }

  /** The waiters that a wake of at most n leaves parked. */
  function Left(ws: seq<Waiter>, word: Word, n: nat): seq<Waiter> {
    if ws == [] || n == 0 then ws
    else if ws[0].wait != word then Left(ws[1..], word, n - 1)
    else [ws[0]] + Left(ws[1..], word, n)
  }

  function Tids(ws: seq<Waiter>): (r: seq<Tid>)
    ensures |r| == |ws|
    ensures forall i :: 0 <= i < |ws| ==> r[i] == ws[i].tid
  {
    if ws == [] then [] else [ws[0].tid] + Tids(ws[1..])
  }

  /** The waiters a wake may release: those whose value is no longer in the word. */
  function Eligible(ws: seq<Waiter>, word: Word): seq<Waiter> {
    if ws == [] then []
    else if ws[0].wait != word then [ws[0]] + Eligible(ws[1..], word)
    else Eligible(ws[1..], word)
  }

  /** A wake releases the first n eligible waiters from the head, or all if there are fewer. */
  lemma {:induction false} WokenIsPrefix(ws: seq<Waiter>, word: Word, n: nat)
    ensures var es := Eligible(ws, word);
            Woken(ws, word, n) == Tids(if n < |es| then es[..n] else es)
  {
    if ws != [] && n != 0 {
      var es := Eligible(ws, word);
      if ws[0].wait != word {
        WokenIsPrefix(ws[1..], word, n - 1);
        var tail := Eligible(ws[1..], word);
        assert es[1..] == tail;
        if n < |es| { assert es[..n][1..] == tail[..n - 1]; }
      } else {
        WokenIsPrefix(ws[1..], word, n);
      }
    }
  }

  /** The waiters a wake passes over: those whose value is still in the word. */
  function Ineligible(ws: seq<Waiter>, word: Word): seq<Waiter> {
    if ws == [] then []
    else if ws[0].wait == word then [ws[0]] + Ineligible(ws[1..], word)
    else Ineligible(ws[1..], word)
  }

  /**
    A wake of n looks at the queue up to some place, where it has met n eligible
    waiters or the end: it releases those, and leaves the others before that place
    and all behind it as they are, in order.
  */
  lemma {:induction false} WakeSplits(ws: seq<Waiter>, word: Word, n: nat) returns (k: nat)
    ensures k <= |ws| && |Eligible(ws[..k], word)| <= n && (|Eligible(ws[..k], word)| == n || k == |ws|)
    ensures Woken(ws, word, n) == Tids(Eligible(ws[..k], word))
    ensures Left(ws, word, n) == Ineligible(ws[..k], word) + ws[k..]
  {
    if ws == [] || n == 0 {
      k := 0;
    } else {
      k := WakeSplits(ws[1..], word, if ws[0].wait != word then n - 1 else n);
      k := k + 1;
      assert ws[..k][0] == ws[0] && ws[..k][1..] == ws[1..][..k - 1];
      assert ws[1..][k - 1..] == ws[k..];
    }
  }

  lemma MultisetCons(x: Tid, s: seq<Tid>)
    ensures multiset([x] + s) == multiset{x} + multiset(s)
  {
  }

  lemma TidsCons(w: Waiter, ws: seq<Waiter>)
    ensures multiset(Tids([w] + ws)) == multiset{w.tid} + multiset(Tids(ws))
  {
    assert ([w] + ws)[1..] == ws;
    MultisetCons(w.tid, Tids(ws));
  }

  lemma WakeUnfold(ws: seq<Waiter>, word: Word, n: nat)
    requires ws != [] && n != 0
    ensures ws[0].wait != word ==> Woken(ws, word, n) == [ws[0].tid] + Woken(ws[1..], word, n - 1)
    ensures ws[0].wait != word ==> Left(ws, word, n) == Left(ws[1..], word, n - 1)
    ensures ws[0].wait == word ==> Woken(ws, word, n) == Woken(ws[1..], word, n)
    ensures ws[0].wait == word ==> Left(ws, word, n) == [ws[0]] + Left(ws[1..], word, n)
  {
  }

  lemma WakeNothing(ws: seq<Waiter>, word: Word, n: nat)
    requires ws == [] || n == 0
    ensures Woken(ws, word, n) == [] && Left(ws, word, n) == ws
  {
  }

  /** No thread is lost and none is invented: the parked are the woken and the left. */
  lemma {:induction false} WakeConserves(ws: seq<Waiter>, word: Word, n: nat)
    ensures multiset(Tids(ws)) == multiset(Woken(ws, word, n)) + multiset(Tids(Left(ws, word, n)))
  {
    hide *;
    if ws == [] || n == 0 {
      WakeNothing(ws, word, n);
    } else {
      assert ws == [ws[0]] + ws[1..];
      TidsCons(ws[0], ws[1..]);
      WakeUnfold(ws, word, n);
      if ws[0].wait != word {
        WakeConserves(ws[1..], word, n - 1);
        MultisetCons(ws[0].tid, Woken(ws[1..], word, n - 1));
      } else {
        WakeConserves(ws[1..], word, n);
        TidsCons(ws[0], Left(ws[1..], word, n));
      }
    }
  }

  /** The wake rule: nobody is released while its stored value is still in the word. */
  lemma {:induction false} WokenNone(ws: seq<Waiter>, word: Word, n: nat)
    requires forall w :: w in ws ==> w.wait == word
    ensures Woken(ws, word, n) == [] && Left(ws, word, n) == ws
  {
    if ws != [] && n != 0 {
      WokenNone(ws[1..], word, n);
    }
  }

  /** Waking one thread when every stored value has gone releases the head. */
  lemma WokenOne(ws: seq<Waiter>, word: Word)
    requires ws != [] && ws[0].wait != word
    ensures Woken(ws, word, 1) == [ws[0].tid] && Left(ws, word, 1) == ws[1..]
  {
    assert Woken(ws[1..], word, 0) == [] && Left(ws[1..], word, 0) == ws[1..];
  }

  /** A wake that has released woken so far, with its cursor in front of ws[c]. */
  ghost predicate Waking(ws0: seq<Waiter>, ws: seq<Waiter>, c: nat, woken: seq<Tid>, word: Word, left: nat, n: nat) {
    && c <= |ws|
    && woken + Woken(ws[c..], word, left) == Woken(ws0, word, n)
    && ws[..c] + Left(ws[c..], word, left) == Left(ws0, word, n)
  }

  lemma WakingSkip(ws0: seq<Waiter>, ws: seq<Waiter>, c: nat, woken: seq<Tid>, word: Word, left: nat, n: nat)
    requires Waking(ws0, ws, c, woken, word, left, n) && 0 < left && c < |ws| && ws[c].wait == word
    ensures Waking(ws0, ws, c + 1, woken, word, left, n)
  {
    assert ws[c..][1..] == ws[c + 1..];
    assert ws[..c + 1] + Left(ws[c + 1..], word, left) == ws[..c] + ([ws[c]] + Left(ws[c + 1..], word, left));
  }

  lemma WakingTake(ws0: seq<Waiter>, ws: seq<Waiter>, c: nat, woken: seq<Tid>, word: Word, left: nat, n: nat)
    requires Waking(ws0, ws, c, woken, word, left, n) && 0 < left && c < |ws| && ws[c].wait != word
    ensures Waking(ws0, ws[..c] + ws[c + 1..], c, woken + [ws[c].tid], word, left - 1, n)
  {
    var ws' := ws[..c] + ws[c + 1..];
    assert ws[c..][1..] == ws[c + 1..] == ws'[c..] && ws'[..c] == ws[..c];
    var rest := Woken(ws[c + 1..], word, left - 1);
    assert woken + ([ws[c].tid] + rest) == (woken + [ws[c].tid]) + rest;
  }

  lemma WakingDone(ws0: seq<Waiter>, ws: seq<Waiter>, c: nat, woken: seq<Tid>, word: Word, left: nat, n: nat)
    requires Waking(ws0, ws, c, woken, word, left, n) && (left == 0 || c == |ws|)
    ensures woken == Woken(ws0, word, n) && ws == Left(ws0, word, n)
  {
    assert ws[..c] + ws[c..] == ws;
  }

  lemma WakingSome(ws0: seq<Waiter>, ws: seq<Waiter>, c: nat, woken: seq<Tid>, word: Word, left: nat, n: nat)
    requires Waking(ws0, ws, c, woken, word, left, n) && woken != []
    ensures Woken(ws0, word, n) != []
  {
  }

  lemma WakingStart(ws: seq<Waiter>, word: Word, n: nat)
    ensures Waking(ws, ws, 0, [], word, n, n)
  {
    assert ws[0..] == ws;
  }

  /** The futex table entry of one word: its wait queue, head first, once it exists. */
  class WaitQueue {
    var created: bool
    var waiters: seq<Waiter>
    var size: u32

    /** How often a thread parked since the queue was created. */
    ghost var waits: nat

    ghost predicate Valid()
      reads this
    {
      && size == U32(waits) && |waiters| <= waits
      && (created <==> waits > 0)
    }

    ghost function Now(): Entry
      reads this
    {
      Entry(created, size, false)
    }

    constructor ()
      ensures Valid() && !created && waiters == [] && waits == 0
    {
      created, waiters, size, waits := false, [], 0, 0;
    }

    /** futex_wait up to the point where the caller is switched out. */
    method Wait(word: Word, val: Word, tid: Tid) returns (parked: bool)
      requires Valid()
      modifies this
      ensures Valid()
      ensures parked <==> word == val
      ensures parked ==> waiters == [Waiter(tid, val)] + old(waiters) && waits == old(waits) + 1
      ensures parked ==> Now() == AfterWait(old(Now()))
      ensures !parked ==> Now() == old(Now()) && waiters == old(waiters) && waits == old(waits)
    {
      if word != val {
        return false;
      }
      created := true;
      waiters := [Waiter(tid, val)] + waiters;
      size := U32(size + 1);
      waits := waits + 1;
      return true;
    }

    /**
      futex_wake: a cursor walks from the head and removes eligible waiters as it
      goes.  The branch that deletes the queue is taken exactly when a waiter is
      released and the number of waits is a multiple of 2^32; it ends the walk.
    */
    method Wake(word: Word, n: nat) returns (err: Error, woken: seq<Tid>, ghost deleting: bool)
      requires Valid()
      modifies this
      ensures err != Panic ==> Valid()
      ensures deleting <==> old(created) && Woken(old(waiters), word, n) != [] && old(waits) % 0x1_0000_0000 == 0
      ensures err == if !old(created) then NoSuchId else if deleting && waiters != [] then Panic else NoErr
      ensures !old(created) ==> waiters == old(waiters) == []
      ensures woken == Woken(old(waiters), word, if deleting then 1 else n)
      ensures waiters == Left(old(waiters), word, if deleting then 1 else n)
      ensures AfterWake(old(Now()), woken != [], waiters == []) == Now().(panicked := err == Panic)
    {
      hide Waking, Woken, Left;
      woken, deleting := [], false;
      if !created {
        WakingStart(waiters, word, n);
        WakingDone(waiters, waiters, 0, [], word, n, n);
        return NoSuchId, [], false;
      }
      err := NoErr;
      ghost var ws0 := waiters;
      var i, cursor: nat := 0, 0;
      WakingStart(ws0, word, n);
      WakingStart(ws0, word, 1);
      while i < n
        invariant 0 <= i <= n && Valid() && created && size == old(size) && waits == old(waits)
        invariant Waking(ws0, waiters, cursor, woken, word, n - i, n) && cursor <= |waiters|
        invariant if i == 0 then woken == [] && Waking(ws0, waiters, cursor, [], word, 1, 1)
                  else size != 0 && woken != []
      {
        while cursor < |waiters| && waiters[cursor].wait == word
          invariant Valid() && created && size == old(size) && waits == old(waits)
          invariant i == 0 ==> Waking(ws0, waiters, cursor, [], word, 1, 1)
          invariant Waking(ws0, waiters, cursor, woken, word, n - i, n) && cursor <= |waiters|
        {
          WakingSkip(ws0, waiters, cursor, woken, word, n - i, n);
          if i == 0 { WakingSkip(ws0, waiters, cursor, [], word, 1, 1); }
          cursor := cursor + 1;
        }
        if cursor == |waiters| {
          break;
        }
        WakingTake(ws0, waiters, cursor, woken, word, n - i, n);
        if i == 0 { WakingTake(ws0, waiters, cursor, [], word, 1, 1); }
        woken := woken + [waiters[cursor].tid];
        waiters := waiters[..cursor] + waiters[cursor + 1..];
        if size == 0 {
          deleting := true;
          WakingSome(ws0, waiters, cursor, woken, word, n - 1, n);
          WakingDone(ws0, waiters, cursor, woken, word, 0, 1);
          if waiters != [] {
            err := Panic;
            return;
          }
          created, size, waits := false, 0, 0;
          return;
        }
        i := i + 1;
      }
      if woken != [] { WakingSome(ws0, waiters, cursor, woken, word, n - i, n); }
      WakingDone(ws0, waiters, cursor, woken, word, n - i, n);
    }
  }
}
