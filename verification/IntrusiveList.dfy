/**
  Circular doubly linked lists threaded through memory, as the kernel heap
  keeps them: a node is two adjacent words, the address of the next node and
  the address of the previous one.
*/
module IntrusiveList {

  /** Memory as word contents by byte address. */
  type Mem = map<int, int>

  function Succ(n: int, i: int): (r: int)
    ensures 0 <= i < n ==> 0 <= r < n
  {
    if i + 1 < n then i + 1 else 0
  }

  function Pred(n: int, i: int): (r: int)
    ensures 0 <= i < n ==> 0 <= r < n
  {
    if i > 0 then i - 1 else n - 1
  }

  /** The node at offset off in s[i] points to its neighbours in the cyclic order of s. */
  ghost predicate Linked(m: Mem, s: seq<int>, off: int, i: int)
    requires 0 <= i < |s|
  {
    && s[i] + off in m && s[i] + off + 4 in m
    && m[s[i] + off] == s[Succ(|s|, i)] + off
    && m[s[i] + off + 4] == s[Pred(|s|, i)] + off
  }

  /** The objects s are linked, in this order, through the nodes at offset off. */
  ghost predicate Ring(m: Mem, s: seq<int>, off: int) {
    |s| > 0 && forall i :: 0 <= i < |s| ==> Linked(m, s, off, i)
  }

  /** The two-word nodes at a and b do not overlap. */
  ghost predicate Disjoint(a: int, b: int) {
    a + 8 <= b || b + 8 <= a
  }

  ghost predicate Apart(s: seq<int>) {
    forall i, j :: 0 <= i < j < |s| ==> Disjoint(s[i], s[j])
  }

  /** Word a belongs to one of the nodes of s. */
  ghost predicate Touches(s: seq<int>, off: int, a: int) {
    exists i :: 0 <= i < |s| && (a == s[i] + off || a == s[i] + off + 4)
  }

  /** m' differs from m only in words of the nodes of s. */
  ghost predicate SameBut(m: Mem, m': Mem, s: seq<int>, off: int) {
    && m'.Keys == m.Keys
    && forall a :: a in m ==> m'[a] == m[a] || Touches(s, off, a)
  }

  // ----- the primitives, as functions on memory

  /** list_init */
  function ListInit(m: Mem, node: int): Mem {
    m[node := node][node + 4 := node]
  }

  /** insert_before */
  function InsertBefore(m: Mem, current: int, node: int): Mem
    requires current + 4 in m && node + 4 in m
  {
    var currentPrev, nodePrev := m[current + 4], m[node + 4];
    m[currentPrev := node][node + 4 := currentPrev][nodePrev := current][current + 4 := nodePrev]
  }

  /** insert_after */
  function InsertAfter(m: Mem, current: int, node: int): Mem
    requires current in m && node + 4 in m
  {
    var currentNext, nodePrev := m[current], m[node + 4];
    m[current := node][node + 4 := current][nodePrev := currentNext][currentNext + 4 := nodePrev]
  }

  /** remove: the second pair of reads sees the first write. */
  function Remove(m: Mem, node: int): Mem
    requires node in m && node + 4 in m
  {
    var m1 := m[m[node + 4] := m[node]];
    var m2 := m1[m1[node] + 4 := m1[node + 4]];
    m2[node := node][node + 4 := node]
  }

  // ----- what they do to a ring

  lemma InitRing(m: Mem, x: int, off: int)
    ensures Ring(ListInit(m, x + off), [x], off)
  {
  }

  function Inserted(s: seq<int>, k: int, x: int): seq<int>
    requires 0 <= k <= |s|
  {
    s[..k] + [x] + s[k..]
  }

  function Without(s: seq<int>, k: int): seq<int>
    requires 0 <= k < |s|
  {
    s[..k] + s[k + 1..]
  }

  ghost predicate Clear(s: seq<int>, x: int) {
    forall i :: 0 <= i < |s| ==> Disjoint(s[i], x)
  }

  /** The neighbours in the cycle after x is put behind s[k]. */
  lemma InsertedCycle(s: seq<int>, k: int, x: int, i: int)
    requires 0 <= k < |s| && 0 <= i <= |s|
    ensures var s', o := Inserted(s, k + 1, x), if i <= k then i else i - 1;
            && |s'| == |s| + 1
            && (i == k + 1 ==> s'[i] == x && s'[Pred(|s'|, i)] == s[k] && s'[Succ(|s'|, i)] == s[Succ(|s|, k)])
            && (i != k + 1 ==> s'[i] == s[o])
            && (i != k + 1 ==> s'[Succ(|s'|, i)] == if o == k then x else s[Succ(|s|, o)])
            && (i != k + 1 ==> s'[Pred(|s'|, i)] == if o == Succ(|s|, k) then x else s[Pred(|s|, o)])
  {
  }

  lemma Distinct(s: seq<int>, i: int, j: int)
    requires Apart(s) && 0 <= i < |s| && 0 <= j < |s|
    ensures i == j || Disjoint(s[i], s[j])
  {
    if j < i { assert Disjoint(s[j], s[i]); }
  }

  /** Disjointness is a matter of the distance only. */
  lemma Shift(a: int, b: int, off: int)
    requires a == b || Disjoint(a, b)
    ensures a + off == b + off || Disjoint(a + off, b + off)
    ensures a != b ==> Disjoint(a + off, b + off)
  {
  }

  /** Memory after a lone node x is linked in between c and n. */
  function Spliced(m: Mem, c: int, n: int, x: int): Mem {
    m[c := x][x + 4 := c][x := n][n + 4 := x]
  }

  lemma SplicedReads(m: Mem, c: int, n: int, x: int, a: int)
    requires Disjoint(x, c) && Disjoint(x, n) && (c == n || Disjoint(c, n))
    requires a == x || Disjoint(a, x)
    requires a == c || Disjoint(a, c)
    requires a == n || Disjoint(a, n)
    requires a in m && a + 4 in m
    ensures a in Spliced(m, c, n, x) && a + 4 in Spliced(m, c, n, x)
    ensures Spliced(m, c, n, x)[a] == if a == x then n else if a == c then x else m[a]
    ensures Spliced(m, c, n, x)[a + 4] == if a == x then c else if a == n then x else m[a + 4]
  {
  }

  /** Distances between nodes of a list, as needed for reading around a write. */
  lemma Spread(s: seq<int>, i: int, k: int, off: int)
    requires Apart(s) && 0 <= i < |s| && 0 <= k < |s|
    ensures i != k ==> Disjoint(s[i] + off, s[k] + off)
    ensures i == k <==> s[i] == s[k]
  {
    Distinct(s, i, k);
    Shift(s[i], s[k], off);
  }

  lemma SpreadNew(s: seq<int>, i: int, x: int, off: int)
    requires Clear(s, x) && 0 <= i < |s|
    ensures Disjoint(x + off, s[i] + off) && Disjoint(s[i] + off, x + off)
  {
    assert Disjoint(s[i], x);
  }

  lemma RingAt(m: Mem, s: seq<int>, off: int, i: int)
    requires Ring(m, s, off) && 0 <= i < |s|
    ensures Linked(m, s, off, i)
  {
  }

  lemma LinkedReads(m: Mem, s: seq<int>, off: int, i: int)
    requires 0 <= i < |s| && Linked(m, s, off, i)
    ensures s[i] + off in m && s[i] + off + 4 in m
    ensures m[s[i] + off] == s[Succ(|s|, i)] + off && m[s[i] + off + 4] == s[Pred(|s|, i)] + off
  {
  }

  lemma LinkedFrom(m: Mem, s: seq<int>, off: int, i: int, x: int, next: int, prev: int)
    requires 0 <= i < |s| && s[i] == x && s[Succ(|s|, i)] == next && s[Pred(|s|, i)] == prev
    requires x + off in m && x + off + 4 in m && m[x + off] == next + off && m[x + off + 4] == prev + off
    ensures Linked(m, s, off, i)
  {
  }

  lemma SplicedNew(m: Mem, s: seq<int>, off: int, k: int, x: int)
    requires Apart(s) && 0 <= k < |s| && Clear(s, x) && x + off in m && x + off + 4 in m
    ensures Linked(Spliced(m, s[k] + off, s[Succ(|s|, k)] + off, x + off), Inserted(s, k + 1, x), off, k + 1)
  {
    InsertedCycle(s, k, x, k + 1);
    var k1 := Succ(|s|, k);
    Spread(s, k, k1, off);
    SpreadNew(s, k, x, off);
    SpreadNew(s, k1, x, off);
    hide Inserted, Apart, Clear, Spliced, Disjoint;
    SplicedReads(m, s[k] + off, s[k1] + off, x + off, x + off);
  }

  lemma SplicedOld(m: Mem, s: seq<int>, off: int, k: int, x: int, o: int)
    requires 0 <= o < |s| && 0 <= k < |s|
    requires Linked(m, s, off, o) && Apart(s) && Clear(s, x)
    ensures Linked(Spliced(m, s[k] + off, s[Succ(|s|, k)] + off, x + off), Inserted(s, k + 1, x), off,
                   if o <= k then o else o + 1)
  {
    hide *;
    InsertedCycle(s, k, x, if o <= k then o else o + 1);
    var k1 := Succ(|s|, k);
    Spread(s, o, k, off);
    Spread(s, o, k1, off);
    Spread(s, k, k1, off);
    SpreadNew(s, o, x, off);
    SpreadNew(s, k, x, off);
    SpreadNew(s, k1, x, off);
    LinkedReads(m, s, off, o);
    SplicedReads(m, s[k] + off, s[k1] + off, x + off, s[o] + off);
    LinkedFrom(Spliced(m, s[k] + off, s[k1] + off, x + off), Inserted(s, k + 1, x), off, if o <= k then o else o + 1,
               s[o], if o == k then x else s[Succ(|s|, o)], if o == k1 then x else s[Pred(|s|, o)]);
  }

  /** Linking x in behind s[k] makes the cycle with x behind s[k]. */
  lemma SplicedRing(m: Mem, s: seq<int>, off: int, k: int, x: int)
    requires Ring(m, s, off) && Apart(s) && 0 <= k < |s| && Clear(s, x)
    requires x + off in m && x + off + 4 in m
    ensures Ring(Spliced(m, s[k] + off, s[Succ(|s|, k)] + off, x + off), Inserted(s, k + 1, x), off)
  {
    hide Linked, Apart, Clear, Spliced, Succ;
    var m', s' := Spliced(m, s[k] + off, s[Succ(|s|, k)] + off, x + off), Inserted(s, k + 1, x);
    forall i | 0 <= i < |s'|
      ensures Linked(m', s', off, i)
    {
      if i == k + 1 {
        SplicedNew(m, s, off, k, x);
      } else {
        var o := if i <= k then i else i - 1;
        RingAt(m, s, off, o);
        SplicedOld(m, s, off, k, x, o);
      }
    }
  }

  lemma Lone(m: Mem, x: int, off: int)
    requires Ring(m, [x], off)
    ensures x + off in m && x + off + 4 in m && m[x + off] == m[x + off + 4] == x + off
  {
    RingAt(m, [x], off, 0);
  }

  /** insert_after puts a lone node behind s[k]. */
  lemma InsertAfterRing(m: Mem, s: seq<int>, off: int, k: int, x: int)
    requires Ring(m, s, off) && Apart(s) && 0 <= k < |s| && Ring(m, [x], off) && Clear(s, x)
    ensures s[k] + off in m && x + off + 4 in m
    ensures InsertAfter(m, s[k] + off, x + off) == Spliced(m, s[k] + off, s[Succ(|s|, k)] + off, x + off)
    ensures Ring(InsertAfter(m, s[k] + off, x + off), Inserted(s, k + 1, x), off)
  {
    Lone(m, x, off);
    RingAt(m, s, off, k);
    SplicedRing(m, s, off, k, x);
    hide Ring, Apart, Clear, Inserted, Succ;
  }

  /** insert_before puts a lone node at the tail end of a list, before its head. */
  lemma InsertBeforeRing(m: Mem, s: seq<int>, off: int, x: int)
    requires Ring(m, s, off) && Apart(s) && Ring(m, [x], off) && Clear(s, x)
    ensures s[0] + off + 4 in m && x + off + 4 in m
    ensures InsertBefore(m, s[0] + off, x + off) == Spliced(m, s[|s| - 1] + off, s[0] + off, x + off)
    ensures Ring(InsertBefore(m, s[0] + off, x + off), s + [x], off)
  {
    Lone(m, x, off);
    RingAt(m, s, off, 0);
    SplicedRing(m, s, off, |s| - 1, x);
    assert Inserted(s, |s|, x) == s + [x];
    hide Ring, Apart, Clear, Inserted;
  }

  /** The list can be entered at any node: moving the last object to the front is the same cycle. */
  lemma Rotate(m: Mem, s: seq<int>, off: int, x: int)
    requires Ring(m, s + [x], off)
    ensures Ring(m, [x] + s, off)
  {
    var t, t' := s + [x], [x] + s;
    forall i | 0 <= i < |t'|
      ensures Linked(m, t', off, i)
    {
      RotateAt(m, s, off, x, i);
    }
  }

  lemma RotateAt(m: Mem, s: seq<int>, off: int, x: int, i: int)
    requires Ring(m, s + [x], off) && 0 <= i <= |s|
    ensures Linked(m, [x] + s, off, i)
  {
    var t, t' := s + [x], [x] + s;
    RingAt(m, t, off, Pred(|t|, i));
    hide Ring;
    assert forall j :: 0 <= j < |t| ==> t'[j] == t[Pred(|t|, j)];
  }

  // ----- removal

  /** Memory after node x is cut out from between p and n and left alone. */
  function Cut(m: Mem, p: int, n: int, x: int): Mem {
    m[p := n][n + 4 := p][x := x][x + 4 := x]
  }

  lemma CutReads(m: Mem, p: int, n: int, x: int, a: int)
    requires Disjoint(x, p) && Disjoint(x, n) && (p == n || Disjoint(p, n))
    requires Disjoint(a, x) && (a == p || Disjoint(a, p)) && (a == n || Disjoint(a, n))
    requires a in m && a + 4 in m
    ensures a in Cut(m, p, n, x) && a + 4 in Cut(m, p, n, x)
    ensures Cut(m, p, n, x)[a] == if a == p then n else m[a]
    ensures Cut(m, p, n, x)[a + 4] == if a == n then p else m[a + 4]
  {
  }

  /** The neighbours in the cycle after s[k] is taken out. */
  lemma WithoutCycle(s: seq<int>, k: int, o: int)
    requires 0 <= k < |s| && 0 <= o < |s| && o != k
    ensures var s', i := Without(s, k), if o < k then o else o - 1;
            && |s'| == |s| - 1 && 0 <= i < |s'|
            && s'[i] == s[o]
            && s'[Succ(|s'|, i)] == s[if o == Pred(|s|, k) then Succ(|s|, k) else Succ(|s|, o)]
            && s'[Pred(|s'|, i)] == s[if o == Succ(|s|, k) then Pred(|s|, k) else Pred(|s|, o)]
  {
  }

  lemma NeighboursDiffer(n: int, k: int)
    requires 0 <= k < n && n > 1
    ensures Succ(n, k) != k && Pred(n, k) != k
  {
  }

  lemma CutAt(m: Mem, s: seq<int>, off: int, k: int, o: int)
    requires 0 <= o < |s| && 0 <= k < |s| && o != k && |Without(s, k)| == |s| - 1
    requires Linked(m, s, off, o) && Apart(s)
    ensures Linked(Cut(m, s[Pred(|s|, k)] + off, s[Succ(|s|, k)] + off, s[k] + off), Without(s, k), off,
                   if o < k then o else o - 1)
  {
    hide *;
    WithoutCycle(s, k, o);
    NeighboursDiffer(|s|, k);
    var p, n := Pred(|s|, k), Succ(|s|, k);
    Spread(s, p, n, off);
    Spread(s, k, p, off);
    Spread(s, k, n, off);
    Spread(s, o, k, off);
    Spread(s, o, p, off);
    Spread(s, o, n, off);
    LinkedReads(m, s, off, o);
    CutReads(m, s[p] + off, s[n] + off, s[k] + off, s[o] + off);
    LinkedFrom(Cut(m, s[p] + off, s[n] + off, s[k] + off), Without(s, k), off, if o < k then o else o - 1,
               s[o], s[if o == p then n else Succ(|s|, o)], s[if o == n then p else Pred(|s|, o)]);
  }

  lemma CutRing(m: Mem, s: seq<int>, off: int, k: int)
    requires Ring(m, s, off) && Apart(s) && 0 <= k < |s| && |s| > 1
    ensures Ring(Cut(m, s[Pred(|s|, k)] + off, s[Succ(|s|, k)] + off, s[k] + off), Without(s, k), off)
  {
    hide Linked, Apart, Cut, Succ, Pred;
    var m', s' := Cut(m, s[Pred(|s|, k)] + off, s[Succ(|s|, k)] + off, s[k] + off), Without(s, k);
    forall i | 0 <= i < |s'|
      ensures Linked(m', s', off, i)
    {
      var o := if i < k then i else i + 1;
      RingAt(m, s, off, o);
      CutAt(m, s, off, k, o);
    }
  }

  lemma CutLone(m: Mem, p: int, n: int, x: int, off: int)
    ensures Ring(Cut(m, p, n, x + off), [x], off)
  {
  }

  lemma RemoveWords(m: Mem, p: int, n: int, x: int)
    requires x in m && x + 4 in m && m[x] == n && m[x + 4] == p
    requires (p == x && n == x) || (Disjoint(p, x) && Disjoint(n, x))
    ensures Remove(m, x) == Cut(m, p, n, x)
  {
  }

  /** remove takes s[k] out of its ring and leaves it alone. */
  lemma RemoveRing(m: Mem, s: seq<int>, off: int, k: int)
    requires Ring(m, s, off) && Apart(s) && 0 <= k < |s|
    ensures s[k] + off in m && s[k] + off + 4 in m
    ensures Remove(m, s[k] + off) == Cut(m, s[Pred(|s|, k)] + off, s[Succ(|s|, k)] + off, s[k] + off)
    ensures |s| > 1 ==> Ring(Remove(m, s[k] + off), Without(s, k), off)
    ensures Ring(Remove(m, s[k] + off), [s[k]], off)
  {
    var p, n := Pred(|s|, k), Succ(|s|, k);
    RingAt(m, s, off, k);
    Spread(s, k, p, off);
    Spread(s, k, n, off);
    hide Ring, Apart, Remove, Cut, Without;
    RemoveWords(m, s[p] + off, s[n] + off, s[k] + off);
    CutLone(m, s[p] + off, s[n] + off, s[k], off);
    if |s| > 1 { CutRing(m, s, off, k); }
  }

  // ----- what they leave alone

  ghost predicate SameNode(m: Mem, m': Mem, a: int) {
    && a in m && a in m' && m'[a] == m[a]
    && a + 4 in m && a + 4 in m' && m'[a + 4] == m[a + 4]
  }

  lemma RingSame(m: Mem, m': Mem, s: seq<int>, off: int)
    requires Ring(m, s, off)
    requires forall i :: 0 <= i < |s| ==> SameNode(m, m', s[i] + off)
    ensures Ring(m', s, off)
  {
    forall i | 0 <= i < |s|
      ensures Linked(m', s, off, i)
    {
      assert Linked(m, s, off, i);
      assert SameNode(m, m', s[i] + off);
    }
  }

  /** Cutting and splicing write only into the nodes involved. */
  lemma CutSame(m: Mem, s: seq<int>, off: int, p: int, n: int, k: int)
    requires 0 <= p < |s| && 0 <= n < |s| && 0 <= k < |s|
    requires s[p] + off in m && s[n] + off + 4 in m && s[k] + off in m && s[k] + off + 4 in m
    ensures SameBut(m, Cut(m, s[p] + off, s[n] + off, s[k] + off), s, off)
  {
    var m' := Cut(m, s[p] + off, s[n] + off, s[k] + off);
    assert m'.Keys == m.Keys;
    forall a | a in m
      ensures m'[a] == m[a] || Touches(s, off, a)
    {
      if m'[a] != m[a] { assert a == s[p] + off || a == s[n] + off + 4 || a == s[k] + off || a == s[k] + off + 4; }
    }
  }

  lemma SplicedSame(m: Mem, s: seq<int>, off: int, p: int, n: int, x: int)
    requires 0 <= p < |s| && 0 <= n < |s|
    requires s[p] + off in m && s[n] + off + 4 in m && x + off in m && x + off + 4 in m
    ensures SameBut(m, Spliced(m, s[p] + off, s[n] + off, x + off), [x] + s, off)
  {
    var m', t := Spliced(m, s[p] + off, s[n] + off, x + off), [x] + s;
    assert t[0] == x && t[p + 1] == s[p] && t[n + 1] == s[n];
    CutSameAux(m, m', t, off, p + 1, n + 1);
  }

  lemma CutSameAux(m: Mem, m': Mem, t: seq<int>, off: int, p: int, n: int)
    requires 0 < p < |t| && 0 < n < |t|
    requires m'.Keys == m.Keys
    requires forall a :: a in m && m'[a] != m[a] ==> a in {t[p] + off, t[n] + off + 4, t[0] + off, t[0] + off + 4}
    ensures SameBut(m, m', t, off)
  {
  }
}
