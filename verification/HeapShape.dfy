/**
  The structure the kernel heap keeps in its memory: chunks tiling the heap in
  address order on one ring, and the free chunks on 32 rings by size.
*/
module HeapShape {
  import opened HeapLayout
  import opened IntrusiveList

  /** memory_chunk_slot: the position of the highest bit of size, or -1. */
  function Slot(size: int): (n: int)
    ensures n >= -1
    decreases if size > 0 then size else 0
  {
    if size <= 0 then -1 else 1 + Slot(size / 2)
  }

  /** memory_chunk_size: the payload of chunk c, from its neighbour on the ring of all chunks. */
  function Size(m: Mem, c: int): int
    requires c in m
  {
    m[c] - c - HEADER_SIZE
  }

  /** The chunks lie in increasing order, aligned, with room for a header and a free node each. */
  ghost predicate Tiled(all: seq<int>) {
    && |all| >= 2 && 0 < all[0] && all[|all| - 1] + CHUNK_SIZE <= 0x1_0000_0000
    && (forall i :: 0 <= i < |all| ==> all[i] % 4 == 0)
    && (forall i, j :: 0 <= i < j < |all| ==> all[i] + CHUNK_SIZE <= all[j])
  }

  /** Every word of the heap is backed by memory. */
  ghost predicate Backed(m: Mem, all: seq<int>)
    requires |all| >= 2
  {
    forall a :: all[0] <= a < all[|all| - 1] + CHUNK_SIZE && a % 4 == 0 ==> a in m
  }

  ghost predicate Flagged(m: Mem, all: seq<int>) {
    && |all| >= 2
    && (forall c :: c in all ==> c + USED in m && (m[c + USED] == 0 || m[c + USED] == 1))
    && all[0] + USED in m && m[all[0] + USED] == 1
    && all[|all| - 1] + USED in m && m[all[|all| - 1] + USED] == 1
  }

  /** The address-ordered ring of all chunks, with used sentinels at both ends. */
  ghost predicate Chunks(m: Mem, all: seq<int>) {
    Tiled(all) && Backed(m, all) && Flagged(m, all) && Ring(m, all, 0)
  }

  ghost predicate IsFree(m: Mem, all: seq<int>, c: int) {
    c in all && c + USED in m && m[c + USED] == 0
  }

  ghost predicate IsUsed(m: Mem, all: seq<int>, c: int) {
    c in all && c + USED in m && m[c + USED] == 1
  }

  ghost predicate NoDup(s: seq<int>) {
    forall i, j :: 0 <= i < j < |s| ==> s[i] != s[j]
  }

  /** Chunk c belongs in bin n; chunks in out are free but momentarily in no bin. */
  ghost predicate Belongs(m: Mem, all: seq<int>, out: set<int>, n: int, c: int) {
    IsFree(m, all, c) && c !in out && c in m && Slot(Size(m, c)) == n
  }

  ghost predicate BinOk(m: Mem, all: seq<int>, bin: seq<int>, out: set<int>, n: int) {
    && (bin != [] ==> Ring(m, bin, FREE))
    && NoDup(bin)
    && (forall c :: c in bin ==> Belongs(m, all, out, n, c))
    && (forall c :: Belongs(m, all, out, n, c) ==> c in bin)
  }

  ghost predicate Bins(m: Mem, all: seq<int>, bins: seq<seq<int>>, out: set<int>) {
    && |bins| == NUM_SIZES
    && forall n :: 0 <= n < NUM_SIZES ==> BinOk(m, all, bins[n], out, n)
  }

  /** A chunk whose free node is linked to itself. */
  ghost predicate Loose(m: Mem, c: int) {
    Ring(m, [c], FREE)
  }

  // ----- geometry

  lemma TiledApart(all: seq<int>)
    requires Tiled(all)
    ensures Apart(all)
  {
  }

  lemma ChunksApart(all: seq<int>, c: int, d: int)
    requires Tiled(all) && c in all && d in all
    ensures c == d || c + CHUNK_SIZE <= d || d + CHUNK_SIZE <= c
  {
    var i :| 0 <= i < |all| && all[i] == c;
    var j :| 0 <= j < |all| && all[j] == d;
    if i < j { assert all[i] + CHUNK_SIZE <= all[j]; } else if j < i { assert all[j] + CHUNK_SIZE <= all[i]; }
  }

  lemma ChunkBounds(all: seq<int>, c: int)
    requires Tiled(all) && c in all
    ensures all[0] <= c <= all[|all| - 1] && c % 4 == 0
  {
  }

  lemma ChunkBacked(m: Mem, all: seq<int>, c: int)
    requires Tiled(all) && Backed(m, all) && c in all
    ensures c in m && c + 4 in m && c + USED in m && c + FREE in m && c + FREE + 4 in m
  {
    ChunkBounds(all, c);
  }

  /** The neighbour of an inner chunk, as the ring gives it. */
  lemma NextOf(m: Mem, all: seq<int>, i: int)
    requires Chunks(m, all) && 0 <= i < |all| - 1
    ensures all[i] in m && m[all[i]] == all[i + 1]
    ensures Size(m, all[i]) == all[i + 1] - all[i] - HEADER_SIZE >= 8
  {
    RingAt(m, all, 0, i);
  }

  lemma PrevOf(m: Mem, all: seq<int>, i: int)
    requires Chunks(m, all) && 0 < i < |all|
    ensures all[i] + 4 in m && m[all[i] + 4] == all[i - 1]
  {
    RingAt(m, all, 0, i);
  }

  /** Sizes are multiples of four. */
  lemma SizeAligned(all: seq<int>, i: int)
    requires Tiled(all) && 0 <= i < |all| - 1
    ensures (all[i + 1] - all[i] - HEADER_SIZE) % 4 == 0 && 8 <= all[i + 1] - all[i] - HEADER_SIZE < 0x1_0000_0000
  {
  }

  // ----- frames

  /** m' differs from m only in the free nodes of chunks in s. */
  lemma FreeNodesOnly(m: Mem, m': Mem, all: seq<int>, s: seq<int>, c: int)
    requires SameBut(m, m', s, FREE) && Tiled(all) && c in all
    requires forall x :: x in s ==> x in all
    requires c in m && c + 4 in m && c + USED in m
    ensures c in m' && c + 4 in m' && c + USED in m'
    ensures m'[c] == m[c] && m'[c + 4] == m[c + 4] && m'[c + USED] == m[c + USED]
  {
    forall i | 0 <= i < |s|
      ensures s[i] == c || s[i] + CHUNK_SIZE <= c || c + CHUNK_SIZE <= s[i]
    {
      ChunksApart(all, s[i], c);
    }
  }

  lemma FreeWritesKeepRing(m: Mem, m': Mem, all: seq<int>, s: seq<int>)
    requires SameBut(m, m', s, FREE) && Tiled(all) && Backed(m, all) && Ring(m, all, 0)
    requires forall x :: x in s ==> x in all
    ensures Ring(m', all, 0)
  {
    hide *;
    forall i | 0 <= i < |all|
      ensures SameNode(m, m', all[i] + 0)
    {
      ChunkBacked(m, all, all[i]);
      FreeNodesOnly(m, m', all, s, all[i]);
      SameNodeFrom(m, m', all[i]);
    }
    RingSame(m, m', all, 0);
  }

  lemma SameNodeFrom(m: Mem, m': Mem, a: int)
    requires a in m && a + 4 in m && a in m' && a + 4 in m' && m'[a] == m[a] && m'[a + 4] == m[a + 4]
    ensures SameNode(m, m', a)
  {
  }

  lemma FreeWritesKeepFlags(m: Mem, m': Mem, all: seq<int>, s: seq<int>)
    requires SameBut(m, m', s, FREE) && Tiled(all) && Backed(m, all) && Flagged(m, all)
    requires forall x :: x in s ==> x in all
    ensures Flagged(m', all)
  {
    hide SameBut, Tiled, Backed;
    forall c | c in all
      ensures c + USED in m' && (m'[c + USED] == 0 || m'[c + USED] == 1) && m'[c + USED] == m[c + USED]
    {
      ChunkBacked(m, all, c);
      FreeNodesOnly(m, m', all, s, c);
    }
    assert all[0] in all && all[|all| - 1] in all;
  }

  /** Writing free nodes keeps the ring of all chunks. */
  lemma FreeWritesKeepChunks(m: Mem, m': Mem, all: seq<int>, s: seq<int>)
    requires SameBut(m, m', s, FREE) && Chunks(m, all)
    requires forall x :: x in s ==> x in all
    ensures Chunks(m', all)
  {
    FreeWritesKeepRing(m, m', all, s);
    FreeWritesKeepFlags(m, m', all, s);
    hide Ring, Flagged, Tiled;
  }

  /** ... and who belongs where. */
  lemma FreeWritesKeepBelongs(m: Mem, m': Mem, all: seq<int>, s: seq<int>, out: set<int>, n: int, c: int)
    requires SameBut(m, m', s, FREE) && Tiled(all) && Backed(m, all)
    requires forall x :: x in s ==> x in all
    ensures Belongs(m, all, out, n, c) <==> Belongs(m', all, out, n, c)
  {
    hide SameBut, Tiled, Backed, Slot;
    if c in all {
      ChunkBacked(m, all, c);
      FreeNodesOnly(m, m', all, s, c);
    }
  }

  /** ... and the free rings that share no chunk with the ones written. */
  lemma FreeWritesKeepOther(m: Mem, m': Mem, all: seq<int>, s: seq<int>, t: seq<int>)
    requires SameBut(m, m', s, FREE) && Tiled(all) && Backed(m, all)
    requires forall x :: x in s ==> x in all
    requires forall x :: x in t ==> x in all && x !in s
    requires Ring(m, t, FREE)
    ensures Ring(m', t, FREE)
  {
    hide *;
    forall i | 0 <= i < |t|
      ensures SameNode(m, m', t[i] + FREE)
    {
      ChunkBacked(m, all, t[i]);
      FreeNodeKept(m, m', all, s, t[i]);
    }
    RingSame(m, m', t, FREE);
  }

  lemma FreeNodeKept(m: Mem, m': Mem, all: seq<int>, s: seq<int>, c: int)
    requires SameBut(m, m', s, FREE) && Tiled(all) && c in all && c !in s
    requires forall x :: x in s ==> x in all
    requires c + FREE in m && c + FREE + 4 in m
    ensures SameNode(m, m', c + FREE)
  {
    forall i | 0 <= i < |s|
      ensures s[i] + CHUNK_SIZE <= c || c + CHUNK_SIZE <= s[i]
    {
      ChunksApart(all, s[i], c);
    }
  }

  // ----- taking a chunk out of its bin

  lemma BinMember(m: Mem, all: seq<int>, bin: seq<int>, out: set<int>, n: int, c: int)
    requires BinOk(m, all, bin, out, n) && c in bin
    ensures c in all && IsFree(m, all, c) && c !in out && c in m && Slot(Size(m, c)) == n
  {
    assert Belongs(m, all, out, n, c);
  }

  lemma BinInAll(m: Mem, all: seq<int>, bin: seq<int>, out: set<int>, n: int)
    requires BinOk(m, all, bin, out, n)
    ensures forall x :: x in bin ==> x in all
  {
    forall x | x in bin
      ensures x in all
    {
      BinMember(m, all, bin, out, n, x);
    }
  }

  lemma BinApart(m: Mem, all: seq<int>, bin: seq<int>, out: set<int>, n: int)
    requires Tiled(all) && BinOk(m, all, bin, out, n)
    ensures Apart(bin)
  {
    BinInAll(m, all, bin, out, n);
    assert NoDup(bin);
    hide Tiled, BinOk;
    forall i, j | 0 <= i < j < |bin|
      ensures Disjoint(bin[i], bin[j])
    {
      ChunksApart(all, bin[i], bin[j]);
    }
  }

  /** A bin that loses its k-th chunk holds exactly the chunks that still belong there. */
  lemma WithoutMembers(bin: seq<int>, k: int, x: int)
    requires NoDup(bin) && 0 <= k < |bin|
    ensures x in Without(bin, k) <==> x in bin && x != bin[k]
  {
    if x in bin && x != bin[k] {
      var i :| 0 <= i < |bin| && bin[i] == x;
      assert Without(bin, k)[if i < k then i else i - 1] == x;
    }
  }

  lemma WithoutNoDup(bin: seq<int>, k: int)
    requires NoDup(bin) && 0 <= k < |bin|
    ensures NoDup(Without(bin, k))
  {
  }

  lemma BelongsOut(m: Mem, all: seq<int>, out: set<int>, n: int, c: int, x: int)
    ensures Belongs(m, all, out + {c}, n, x) <==> Belongs(m, all, out, n, x) && x != c
  {
  }

  lemma BinOkFrom(m: Mem, all: seq<int>, bin: seq<int>, out: set<int>, n: int)
    requires bin != [] ==> Ring(m, bin, FREE)
    requires NoDup(bin)
    requires forall c :: c in bin <==> Belongs(m, all, out, n, c)
    ensures BinOk(m, all, bin, out, n)
  {
  }

  lemma BinOkParts(m: Mem, all: seq<int>, bin: seq<int>, out: set<int>, n: int)
    requires BinOk(m, all, bin, out, n)
    ensures bin != [] ==> Ring(m, bin, FREE)
    ensures NoDup(bin)
    ensures forall c :: c in bin <==> Belongs(m, all, out, n, c)
  {
  }

  /** The bin that loses the chunk. */
  lemma BinRemoveSame(m: Mem, m': Mem, all: seq<int>, bin: seq<int>, out: set<int>, n: int, k: int)
    requires Chunks(m, all) && BinOk(m, all, bin, out, n) && 0 <= k < |bin|
    requires SameBut(m, m', bin, FREE) && (|bin| > 1 ==> Ring(m', Without(bin, k), FREE))
    ensures BinOk(m', all, Without(bin, k), out + {bin[k]}, n)
  {
    hide Ring, SameBut, Without, NoDup, BinOk, Belongs, Tiled, Backed, Flagged;
    BinOkParts(m, all, bin, out, n);
    BinInAll(m, all, bin, out, n);
    WithoutNoDup(bin, k);
    WithoutLength(bin, k);
    forall x
      ensures x in Without(bin, k) <==> Belongs(m', all, out + {bin[k]}, n, x)
    {
      WithoutMembers(bin, k, x);
      FreeWritesKeepBelongs(m, m', all, bin, out + {bin[k]}, n, x);
      BelongsOut(m, all, out, n, bin[k], x);
    }
    BinOkFrom(m', all, Without(bin, k), out + {bin[k]}, n);
  }

  lemma WithoutLength(bin: seq<int>, k: int)
    requires 0 <= k < |bin|
    ensures |Without(bin, k)| == |bin| - 1
  {
  }

  /** A bin that does not change while another bin's chunk c goes out or comes in. */
  lemma BinOther(m: Mem, m': Mem, all: seq<int>, s: seq<int>, bin: seq<int>, out: set<int>, out': set<int>, n: int)
    requires Chunks(m, all) && BinOk(m, all, bin, out, n) && SameBut(m, m', s, FREE)
    requires forall x :: x in s ==> x in all && x !in bin
    requires forall x :: Belongs(m, all, out, n, x) <==> Belongs(m, all, out', n, x)
    ensures BinOk(m', all, bin, out', n)
  {
    hide Ring, SameBut, NoDup, BinOk, Belongs, Tiled, Backed, Flagged;
    BinOkParts(m, all, bin, out, n);
    BinInAll(m, all, bin, out, n);
    if bin != [] { FreeWritesKeepOther(m, m', all, s, bin); }
    forall x
      ensures x in bin <==> Belongs(m', all, out', n, x)
    {
      FreeWritesKeepBelongs(m, m', all, s, out', n, x);
    }
    BinOkFrom(m', all, bin, out', n);
  }

  lemma BinsAt(m: Mem, all: seq<int>, bins: seq<seq<int>>, out: set<int>, n: int)
    requires Bins(m, all, bins, out) && 0 <= n < NUM_SIZES
    ensures |bins| == NUM_SIZES && BinOk(m, all, bins[n], out, n)
  {
  }

  lemma BinRemoveMem(m: Mem, all: seq<int>, bin: seq<int>, out: set<int>, n: int, k: int)
    requires Chunks(m, all) && BinOk(m, all, bin, out, n) && 0 <= k < |bin|
    ensures bin[k] + FREE in m && bin[k] + FREE + 4 in m
    ensures var m' := Remove(m, bin[k] + FREE);
            && SameBut(m, m', bin, FREE) && Loose(m', bin[k])
            && (|bin| > 1 ==> Ring(m', Without(bin, k), FREE))
  {
    hide Ring, SameBut, Without, NoDup, BinOk, Belongs, Tiled, Backed, Flagged, Remove;
    BinOkParts(m, all, bin, out, n);
    BinApart(m, all, bin, out, n);
    RemoveRing(m, bin, FREE, k);
    RingAt(m, bin, FREE, Pred(|bin|, k));
    RingAt(m, bin, FREE, Succ(|bin|, k));
    CutSame(m, bin, FREE, Pred(|bin|, k), Succ(|bin|, k), k);
  }

  /** remove_free: the chunk leaves its bin, and its free node is left alone. */
  lemma BinRemove(m: Mem, all: seq<int>, bins: seq<seq<int>>, out: set<int>, n: int, k: int)
    requires Chunks(m, all) && Bins(m, all, bins, out) && 0 <= n < NUM_SIZES && 0 <= k < |bins[n]|
    ensures bins[n][k] + FREE in m && bins[n][k] + FREE + 4 in m
    ensures var m', c := Remove(m, bins[n][k] + FREE), bins[n][k];
            && Chunks(m', all) && Bins(m', all, bins[n := Without(bins[n], k)], out + {c})
            && SameBut(m, m', bins[n], FREE) && Loose(m', c) && IsFree(m, all, c) && c !in out
  {
    hide Chunks, BinOk, Belongs, Ring, SameBut, Remove, Without, IsFree;
    var bin, c := bins[n], bins[n][k];
    BinsAt(m, all, bins, out, n);
    BinRemoveMem(m, all, bin, out, n, k);
    var m', bins', out' := Remove(m, c + FREE), bins[n := Without(bin, k)], out + {c};
    BinInAll(m, all, bin, out, n);
    BinMember(m, all, bin, out, n, c);
    ChunksParts(m, all);
    FreeWritesKeepChunks(m, m', all, bin);
    BinRemoveSame(m, m', all, bin, out, n, k);
    forall n' | 0 <= n' < NUM_SIZES && n' != n
      ensures BinOk(m', all, bins'[n'], out', n')
    {
      BinsAt(m, all, bins, out, n');
      BinsDisjoint(m, all, bins, out, n, n');
      OutsideOther(m, all, out, n, n', c, bin);
      BinOther(m, m', all, bin, bins[n'], out, out', n');
    }
  }

  lemma ChunksParts(m: Mem, all: seq<int>)
    requires Chunks(m, all)
    ensures Tiled(all) && Backed(m, all) && Flagged(m, all) && Ring(m, all, 0)
  {
  }

  lemma BinsDisjoint(m: Mem, all: seq<int>, bins: seq<seq<int>>, out: set<int>, n: int, n': int)
    requires Bins(m, all, bins, out) && 0 <= n < NUM_SIZES && 0 <= n' < NUM_SIZES && n != n'
    ensures forall x :: x in bins[n] ==> x !in bins[n']
  {
    hide BinOk;
    forall x | x in bins[n]
      ensures x !in bins[n']
    {
      BinMember(m, all, bins[n], out, n, x);
      if x in bins[n'] {
        BinMember(m, all, bins[n'], out, n', x);
        assert false;
      }
    }
  }

  /** Whether c is out of the bins matters only to its own bin. */
  lemma OutsideOther(m: Mem, all: seq<int>, out: set<int>, n: int, n': int, c: int, bin: seq<int>)
    requires BinOk(m, all, bin, out, n) && c in bin && n != n'
    ensures forall x :: Belongs(m, all, out, n', x) <==> Belongs(m, all, out + {c}, n', x)
  {
    BinMember(m, all, bin, out, n, c);
    hide BinOk, IsFree, Slot;
  }

  // ----- putting a chunk into its bin

  /** push_free on memory: a lone free node goes in front of the bin's head. */
  function PushMem(m: Mem, bin: seq<int>, c: int): Mem
    requires bin != [] ==> bin[0] + FREE + 4 in m && c + FREE + 4 in m
  {
    if bin == [] then m else InsertBefore(m, bin[0] + FREE, c + FREE)
  }

  lemma BinClear(m: Mem, all: seq<int>, bin: seq<int>, out: set<int>, n: int, c: int)
    requires Tiled(all) && BinOk(m, all, bin, out, n) && c in all && c !in bin
    ensures Clear(bin, c)
  {
    BinInAll(m, all, bin, out, n);
    hide Tiled, BinOk;
    forall i | 0 <= i < |bin|
      ensures Disjoint(bin[i], c)
    {
      ChunksApart(all, bin[i], c);
    }
  }

  lemma SameItself(m: Mem, s: seq<int>, off: int)
    ensures SameBut(m, m, s, off)
  {
  }

  lemma PushRing(m: Mem, bin: seq<int>, c: int)
    requires bin != [] ==> Ring(m, bin, FREE) && Apart(bin) && Clear(bin, c)
    requires Loose(m, c)
    ensures bin != [] ==> bin[0] + FREE + 4 in m && c + FREE + 4 in m
    ensures Ring(PushMem(m, bin, c), [c] + bin, FREE) && SameBut(m, PushMem(m, bin, c), [c] + bin, FREE)
  {
    hide Ring, Apart, Clear, SameBut, InsertBefore, Spliced;
    if bin == [] {
      assert [c] + bin == [c];
      SameItself(m, [c], FREE);
    } else {
      InsertBeforeRing(m, bin, FREE, c);
      Rotate(InsertBefore(m, bin[0] + FREE, c + FREE), bin, FREE, c);
      RingAt(m, bin, FREE, 0);
      RingAt(m, bin, FREE, |bin| - 1);
      Lone(m, c, FREE);
      SplicedSame(m, bin, FREE, |bin| - 1, 0, c);
    }
  }

  lemma PushMembers(bin: seq<int>, c: int, x: int)
    ensures x in [c] + bin <==> x == c || x in bin
  {
  }

  lemma PushNoDup(bin: seq<int>, c: int)
    requires NoDup(bin) && c !in bin
    ensures NoDup([c] + bin)
  {
  }

  lemma BinPushSame(m: Mem, m': Mem, all: seq<int>, bin: seq<int>, out: set<int>, n: int, c: int)
    requires Chunks(m, all) && BinOk(m, all, bin, out, n)
    requires SameBut(m, m', [c] + bin, FREE) && Ring(m', [c] + bin, FREE)
    requires c in out && Belongs(m, all, out - {c}, n, c)
    ensures BinOk(m', all, [c] + bin, out - {c}, n)
  {
    hide Ring, SameBut, NoDup, BinOk, Belongs, Tiled, Backed, Flagged;
    BinOkParts(m, all, bin, out, n);
    BinInAll(m, all, bin, out, n);
    BelongsInAll(m, all, out - {c}, n, c);
    OutNotIn(m, all, bin, out, n, c);
    PushNoDup(bin, c);
    assert (out - {c}) + {c} == out;
    forall x
      ensures x in [c] + bin <==> Belongs(m', all, out - {c}, n, x)
    {
      PushMembers(bin, c, x);
      FreeWritesKeepBelongs(m, m', all, [c] + bin, out - {c}, n, x);
      BelongsOut(m, all, out - {c}, n, c, x);
    }
    BinOkFrom(m', all, [c] + bin, out - {c}, n);
  }

  lemma BelongsInAll(m: Mem, all: seq<int>, out: set<int>, n: int, c: int)
    requires Belongs(m, all, out, n, c)
    ensures c in all
  {
  }

  lemma OutNotIn(m: Mem, all: seq<int>, bin: seq<int>, out: set<int>, n: int, c: int)
    requires BinOk(m, all, bin, out, n) && c in out
    ensures c !in bin
  {
    if c in bin { BinMember(m, all, bin, out, n, c); assert false; }
  }

  lemma InsideOther(m: Mem, all: seq<int>, out: set<int>, n: int, n': int, c: int)
    requires Belongs(m, all, out - {c}, n, c) && n != n'
    ensures forall x :: Belongs(m, all, out, n', x) <==> Belongs(m, all, out - {c}, n', x)
  {
    hide IsFree, Slot;
  }

  /** push_free: the chunk becomes the head of its bin. */
  lemma BinPush(m: Mem, all: seq<int>, bins: seq<seq<int>>, out: set<int>, n: int, c: int)
    requires Chunks(m, all) && Bins(m, all, bins, out) && 0 <= n < NUM_SIZES
    requires c in out && Loose(m, c) && Belongs(m, all, out - {c}, n, c)
    ensures bins[n] != [] ==> bins[n][0] + FREE + 4 in m && c + FREE + 4 in m
    ensures var m' := PushMem(m, bins[n], c);
            && Chunks(m', all) && Bins(m', all, bins[n := [c] + bins[n]], out - {c})
            && SameBut(m, m', [c] + bins[n], FREE)
  {
    hide Chunks, BinOk, Belongs, Ring, SameBut, PushMem, IsFree;
    var bin := bins[n];
    BinsAt(m, all, bins, out, n);
    ChunksParts(m, all);
    BinOkParts(m, all, bin, out, n);
    BinInAll(m, all, bin, out, n);
    BelongsInAll(m, all, out - {c}, n, c);
    OutNotIn(m, all, bin, out, n, c);
    BinApart(m, all, bin, out, n);
    BinClear(m, all, bin, out, n, c);
    PushRing(m, bin, c);
    var m', bins', out' := PushMem(m, bin, c), bins[n := [c] + bin], out - {c};
    FreeWritesKeepChunks(m, m', all, [c] + bin);
    BinPushSame(m, m', all, bin, out, n, c);
    forall n' | 0 <= n' < NUM_SIZES && n' != n
      ensures BinOk(m', all, bins'[n'], out', n')
    {
      BinsAt(m, all, bins, out, n');
      BinsDisjoint(m, all, bins, out, n, n');
      OutNotIn(m, all, bins[n'], out, n', c);
      InsideOther(m, all, out, n, n', c);
      BinOther(m, m', all, [c] + bin, bins[n'], out, out', n');
    }
  }

  // ----- writes that leave every free node alone

  ghost predicate FreeNodesSame(m: Mem, m': Mem, all: seq<int>, out: set<int>) {
    forall x :: IsFree(m, all, x) && x !in out ==> SameNode(m, m', x + FREE)
  }

  ghost predicate SameMembers(m: Mem, all: seq<int>, out: set<int>, m': Mem, all': seq<int>, out': set<int>) {
    forall n, x :: Belongs(m, all, out, n, x) <==> Belongs(m', all', out', n, x)
  }

  lemma KeepBin(m: Mem, all: seq<int>, bin: seq<int>, out: set<int>, m': Mem, all': seq<int>, out': set<int>, n: int)
    requires BinOk(m, all, bin, out, n)
    requires FreeNodesSame(m, m', all, out) && SameMembers(m, all, out, m', all', out')
    ensures BinOk(m', all', bin, out', n)
  {
    hide Ring, NoDup, BinOk, Belongs, IsFree, SameNode;
    BinOkParts(m, all, bin, out, n);
    if bin != [] {
      forall i | 0 <= i < |bin|
        ensures SameNode(m, m', bin[i] + FREE)
      {
        BinMember(m, all, bin, out, n, bin[i]);
      }
      RingSame(m, m', bin, FREE);
    }
    BinOkFrom(m', all', bin, out', n);
  }

  lemma KeepBins(m: Mem, all: seq<int>, bins: seq<seq<int>>, out: set<int>, m': Mem, all': seq<int>, out': set<int>)
    requires Bins(m, all, bins, out)
    requires FreeNodesSame(m, m', all, out) && SameMembers(m, all, out, m', all', out')
    ensures Bins(m', all', bins, out')
  {
    hide BinOk, FreeNodesSame, SameMembers;
    forall n | 0 <= n < NUM_SIZES
      ensures BinOk(m', all', bins[n], out', n)
    {
      BinsAt(m, all, bins, out, n);
      KeepBin(m, all, bins[n], out, m', all', out', n);
    }
  }

  // ----- the used flag

  lemma FlagRing(m: Mem, all: seq<int>, c: int, v: int)
    requires Tiled(all) && Ring(m, all, 0) && c in all
    ensures Ring(m[c + USED := v], all, 0)
  {
    hide Ring, Linked;
    forall i | 0 <= i < |all|
      ensures SameNode(m, m[c + USED := v], all[i] + 0)
    {
      RingAt(m, all, 0, i);
      LinkedReads(m, all, 0, i);
      ChunksApart(all, all[i], c);
    }
    RingSame(m, m[c + USED := v], all, 0);
  }

  lemma FlagChunks(m: Mem, all: seq<int>, c: int, v: int)
    requires Chunks(m, all) && c in all && (v == 0 || v == 1)
    requires v == 0 ==> c != all[0] && c != all[|all| - 1]
    ensures Chunks(m[c + USED := v], all)
  {
    FlagRing(m, all, c, v);
    hide Ring;
    var m' := m[c + USED := v];
    forall d | d in all
      ensures d + USED in m' && (m'[d + USED] == 0 || m'[d + USED] == 1)
    {
      assert d + USED in m;
    }
    assert Flagged(m', all);
  }

  lemma FlagFree(m: Mem, all: seq<int>, out: set<int>, c: int, v: int)
    requires Chunks(m, all) && c in all
    ensures FreeNodesSame(m, m[c + USED := v], all, out)
  {
    hide Backed, Flagged, Ring;
    forall x | IsFree(m, all, x) && x !in out
      ensures SameNode(m, m[c + USED := v], x + FREE)
    {
      ChunkBacked(m, all, x);
      ChunksApart(all, x, c);
    }
  }

  lemma FlagMembers(m: Mem, all: seq<int>, out: set<int>, c: int, v: int, out': set<int>)
    requires Chunks(m, all) && c in all && (v == 0 || v == 1)
    requires if v == 1 then c in out && out' == out - {c} else IsUsed(m, all, c) && out' == out + {c}
    ensures SameMembers(m, all, out, m[c + USED := v], all, out')
  {
    hide Backed, Flagged, Ring, Slot;
    var m' := m[c + USED := v];
    forall n, x
      ensures Belongs(m, all, out, n, x) <==> Belongs(m', all, out', n, x)
    {
      if x in all {
        ChunkBacked(m, all, x);
        ChunksApart(all, x, c);
      }
    }
  }

  /** Marking a chunk used takes it out of consideration; marking it free leaves it to be binned. */
  lemma SetFlag(m: Mem, all: seq<int>, bins: seq<seq<int>>, out: set<int>, c: int, v: int, out': set<int>)
    requires Chunks(m, all) && Bins(m, all, bins, out) && c in all && (v == 0 || v == 1)
    requires v == 0 ==> c != all[0] && c != all[|all| - 1]
    requires if v == 1 then c in out && out' == out - {c} else IsUsed(m, all, c) && out' == out + {c}
    ensures Chunks(m[c + USED := v], all) && Bins(m[c + USED := v], all, bins, out')
  {
    hide Chunks, Bins, FreeNodesSame, SameMembers, IsUsed;
    FlagChunks(m, all, c, v);
    FlagFree(m, all, out, c, v);
    FlagMembers(m, all, out, c, v, out');
    KeepBins(m, all, bins, out, m[c + USED := v], all, out');
  }

  // ----- a lone free node

  /** list_init on the free node of a chunk that is in no bin. */
  lemma InitFree(m: Mem, all: seq<int>, bins: seq<seq<int>>, out: set<int>, c: int)
    requires Chunks(m, all) && Bins(m, all, bins, out) && c in all && c in out
    ensures var m' := ListInit(m, c + FREE);
            Chunks(m', all) && Bins(m', all, bins, out) && Loose(m', c) && SameBut(m, m', [c], FREE)
  {
    hide Chunks, BinOk, Belongs, Ring, SameBut, ListInit;
    var m' := ListInit(m, c + FREE);
    ChunksParts(m, all);
    ChunkBacked(m, all, c);
    InitSame(m, c);
    InitRing(m, c, FREE);
    FreeWritesKeepChunks(m, m', all, [c]);
    forall n | 0 <= n < NUM_SIZES
      ensures BinOk(m', all, bins[n], out, n)
    {
      BinsAt(m, all, bins, out, n);
      OutNotIn(m, all, bins[n], out, n, c);
      BinOther(m, m', all, [c], bins[n], out, out, n);
    }
  }

  lemma InitSame(m: Mem, c: int)
    requires c + FREE in m && c + FREE + 4 in m
    ensures SameBut(m, ListInit(m, c + FREE), [c], FREE)
  {
    assert [c][0] == c;
  }

  // ----- writes to the ring of all chunks

  /** Words behind a chunk's ring node are not written by operations on the ring of all chunks. */
  lemma HeaderWrites(m: Mem, m': Mem, tiles: seq<int>, c: int, a: int)
    requires SameBut(m, m', tiles, 0) && Tiled(tiles) && c in tiles && c + 8 <= a < c + CHUNK_SIZE && a in m
    ensures a in m' && m'[a] == m[a]
  {
    forall i | 0 <= i < |tiles|
      ensures tiles[i] == c || tiles[i] + CHUNK_SIZE <= c || c + CHUNK_SIZE <= tiles[i]
    {
      ChunksApart(tiles, tiles[i], c);
    }
  }

  lemma HeaderWritesFree(m: Mem, m': Mem, all: seq<int>, tiles: seq<int>, out: set<int>)
    requires SameBut(m, m', tiles, 0) && Tiled(tiles) && Tiled(all) && Backed(m, all)
    requires forall x :: x in all ==> x in tiles
    ensures FreeNodesSame(m, m', all, out)
  {
    hide SameBut, Tiled, Backed;
    forall x | IsFree(m, all, x) && x !in out
      ensures SameNode(m, m', x + FREE)
    {
      ChunkBacked(m, all, x);
      HeaderWrites(m, m', tiles, x, x + FREE);
      HeaderWrites(m, m', tiles, x, x + FREE + 4);
      SameNodeFrom(m, m', x + FREE);
    }
  }

  lemma HeaderWritesFlag(m: Mem, m': Mem, tiles: seq<int>, c: int)
    requires SameBut(m, m', tiles, 0) && Tiled(tiles) && c in tiles && c + USED in m
    ensures c + USED in m' && m'[c + USED] == m[c + USED]
  {
    HeaderWrites(m, m', tiles, c, c + USED);
  }

  lemma FlaggedSame(m: Mem, m': Mem, all: seq<int>, all': seq<int>)
    requires Flagged(m, all) && |all'| >= 2 && all'[0] == all[0] && all'[|all'| - 1] == all[|all| - 1]
    requires forall c :: c in all' ==> c in all && c + USED in m' && (c + USED in m ==> m'[c + USED] == m[c + USED])
    ensures Flagged(m', all')
  {
    assert all'[0] in all' && all'[|all'| - 1] in all';
  }

  // ----- merging: a chunk leaves the ring of all chunks

  lemma TiledWithout(all: seq<int>, k: int)
    requires Tiled(all) && 0 < k < |all| - 1
    ensures Tiled(Without(all, k)) && |Without(all, k)| == |all| - 1
    ensures Without(all, k)[0] == all[0] && Without(all, k)[|all| - 2] == all[|all| - 1]
    ensures forall x :: x in Without(all, k) <==> x in all && x != all[k]
  {
    forall x
      ensures x in Without(all, k) <==> x in all && x != all[k]
    {
      TiledNoDup(all);
      WithoutMembers(all, k, x);
    }
  }

  lemma TiledNoDup(all: seq<int>)
    requires Tiled(all)
    ensures NoDup(all)
  {
  }

  lemma MergeMem(m: Mem, all: seq<int>, k: int)
    requires Chunks(m, all) && 0 < k < |all| - 1
    ensures all[k] in m && all[k] + 4 in m
    ensures var m' := Remove(m, all[k]); Ring(m', Without(all, k), 0) && SameBut(m, m', all, 0)
  {
    hide Ring, SameBut, Without, Tiled, Backed, Flagged, Remove;
    ChunksParts(m, all);
    TiledApart(all);
    RemoveRing(m, all, 0, k);
    RingAt(m, all, 0, k - 1);
    RingAt(m, all, 0, k + 1);
    CutSame(m, all, 0, k - 1, k + 1, k);
    assert all[k] + 0 == all[k] && Pred(|all|, k) == k - 1 && Succ(|all|, k) == k + 1;
  }

  lemma MergeChunks(m: Mem, m': Mem, all: seq<int>, k: int)
    requires Chunks(m, all) && 0 < k < |all| - 1
    requires Ring(m', Without(all, k), 0) && SameBut(m, m', all, 0)
    ensures Chunks(m', Without(all, k))
  {
    hide Ring, Without, Tiled, Flagged;
    TiledWithout(all, k);
    forall c | c in Without(all, k)
      ensures c in all && c + USED in m' && (c + USED in m ==> m'[c + USED] == m[c + USED])
    {
      ChunkBacked(m, all, c);
      HeaderWritesFlag(m, m', all, c);
    }
    FlaggedSame(m, m', all, Without(all, k));
  }

  /** Only the chunk in front of the removed one changes its size. */
  lemma MergeSizes(m: Mem, m': Mem, all: seq<int>, k: int, j: int)
    requires 0 < k < |all| - 1 && Chunks(m, all) && Chunks(m', Without(all, k))
    requires 0 <= j < |all| && j != k && j != k - 1
    ensures all[j] in m && all[j] in m' && m'[all[j]] == m[all[j]]
  {
    hide Tiled, Backed, Flagged;
    var all' := Without(all, k);
    var j' := if j < k then j else j - 1;
    RingAt(m, all, 0, j);
    RingAt(m', all', 0, j');
    WithoutCycle(all, k, j);
  }

  lemma MergeMembers(m: Mem, m': Mem, all: seq<int>, out: set<int>, k: int)
    requires 0 < k < |all| - 1 && Chunks(m, all) && Chunks(m', Without(all, k)) && SameBut(m, m', all, 0)
    requires IsUsed(m, all, all[k]) || all[k] in out
    requires IsUsed(m, all, all[k - 1]) || all[k - 1] in out
    ensures SameMembers(m, all, out, m', Without(all, k), out - {all[k]})
  {
    hide Chunks, Without, Slot, SameBut;
    ChunksParts(m, all);
    TiledWithout(all, k);
    hide Tiled, Backed, Flagged;
    forall n, x
      ensures Belongs(m, all, out, n, x) <==> Belongs(m', Without(all, k), out - {all[k]}, n, x)
    {
      if x in all {
        ChunkBacked(m, all, x);
        HeaderWritesFlag(m, m', all, x);
        var j :| 0 <= j < |all| && all[j] == x;
        if j != k && j != k - 1 { MergeSizes(m, m', all, k, j); }
      }
    }
  }

  /** remove on the ring of all chunks: the chunk in front swallows the removed one. */
  lemma Merge(m: Mem, all: seq<int>, bins: seq<seq<int>>, out: set<int>, k: int)
    requires Chunks(m, all) && Bins(m, all, bins, out) && 0 < k < |all| - 1
    requires IsUsed(m, all, all[k]) || all[k] in out
    requires IsUsed(m, all, all[k - 1]) || all[k - 1] in out
    ensures all[k] in m && all[k] + 4 in m
    ensures var m', all' := Remove(m, all[k]), Without(all, k);
            && Chunks(m', all') && Bins(m', all', bins, out - {all[k]}) && SameBut(m, m', all, 0)
  {
    hide Bins, IsUsed, FreeNodesSame, SameMembers, Remove, Without, SameBut, Ring;
    MergeMem(m, all, k);
    var m', all' := Remove(m, all[k]), Without(all, k);
    MergeChunks(m, m', all, k);
    hide Tiled, Backed, Flagged;
    HeaderWritesFree(m, m', all, all, out);
    MergeMembers(m, m', all, out, k);
    KeepBins(m, all, bins, out, m', all', out - {all[k]});
  }

  // ----- splitting: a new chunk inside the payload of an old one

  /** memory_chunk_init */
  function ChunkInit(m: Mem, c: int): Mem {
    ListInit(ListInit(m, c)[c + USED := 0], c + FREE)
  }

  /** There is room for a chunk at c behind chunk all[k], which is in no bin. */
  ghost predicate Room(all: seq<int>, k: int, c: int) {
    && 0 <= k < |all| - 1 && c % 4 == 0
    && all[k] + CHUNK_SIZE <= c && c + CHUNK_SIZE <= all[k + 1]
  }

  ghost predicate SameOutside(m: Mem, m': Mem, lo: int, hi: int) {
    m'.Keys == m.Keys && forall a :: a in m && !(lo <= a < hi) ==> m'[a] == m[a]
  }

  lemma RoomDistance(all: seq<int>, k: int, c: int, x: int)
    requires Tiled(all) && Room(all, k, c) && x in all
    ensures x + CHUNK_SIZE <= c || c + CHUNK_SIZE <= x
  {
    var i :| 0 <= i < |all| && all[i] == x;
    if i < k { assert all[i] + CHUNK_SIZE <= all[k]; }
    if i > k + 1 { assert all[k + 1] + CHUNK_SIZE <= all[i]; }
  }

  lemma RoomBacked(m: Mem, all: seq<int>, k: int, c: int)
    requires Tiled(all) && Backed(m, all) && Room(all, k, c)
    ensures c in m && c + 4 in m && c + USED in m && c + FREE in m && c + FREE + 4 in m
  {
    ChunkBounds(all, all[k]);
    ChunkBounds(all, all[k + 1]);
  }

  lemma ChunkInitWords(m: Mem, c: int)
    requires c in m && c + 4 in m && c + USED in m && c + FREE in m && c + FREE + 4 in m
    ensures var m' := ChunkInit(m, c);
            && SameOutside(m, m', c, c + CHUNK_SIZE)
            && Ring(m', [c], 0) && Loose(m', c) && m'[c + USED] == 0
  {
    var m' := ChunkInit(m, c);
    assert m'[c] == c && m'[c + 4] == c && m'[c + FREE] == c + FREE && m'[c + FREE + 4] == c + FREE;
    assert Linked(m', [c], 0, 0) && Linked(m', [c], FREE, 0);
  }

  lemma OutsideHeader(m: Mem, m': Mem, all: seq<int>, k: int, c: int, x: int)
    requires Tiled(all) && Backed(m, all) && Room(all, k, c) && SameOutside(m, m', c, c + CHUNK_SIZE) && x in all
    ensures SameNode(m, m', x) && SameNode(m, m', x + FREE)
    ensures x + USED in m && x + USED in m' && m'[x + USED] == m[x + USED]
  {
    RoomDistance(all, k, c, x);
    ChunkBacked(m, all, x);
    hide Tiled, Backed, Room;
  }

  lemma InnerChunks(m: Mem, m': Mem, all: seq<int>, k: int, c: int)
    requires Chunks(m, all) && Room(all, k, c) && SameOutside(m, m', c, c + CHUNK_SIZE)
    ensures Chunks(m', all)
  {
    hide Ring, Room, SameOutside, Tiled, SameNode;
    forall i | 0 <= i < |all|
      ensures SameNode(m, m', all[i] + 0)
    {
      OutsideHeader(m, m', all, k, c, all[i]);
    }
    RingSame(m, m', all, 0);
    forall x | x in all
      ensures x in all && x + USED in m' && (x + USED in m ==> m'[x + USED] == m[x + USED])
    {
      OutsideHeader(m, m', all, k, c, x);
    }
    TiledLength(all);
    FlaggedSame(m, m', all, all);
    BackedSame(m, m', all, c, c + CHUNK_SIZE);
  }

  lemma TiledLength(all: seq<int>)
    requires Tiled(all)
    ensures |all| >= 2
  {
  }

  lemma BackedSame(m: Mem, m': Mem, all: seq<int>, lo: int, hi: int)
    requires |all| >= 2 && Backed(m, all) && SameOutside(m, m', lo, hi)
    ensures Backed(m', all)
  {
  }

  /** Writing a new chunk's words into payload that is in no bin changes nothing yet. */
  lemma Inner(m: Mem, m': Mem, all: seq<int>, bins: seq<seq<int>>, out: set<int>, k: int, c: int)
    requires Chunks(m, all) && Bins(m, all, bins, out) && Room(all, k, c) && SameOutside(m, m', c, c + CHUNK_SIZE)
    ensures Chunks(m', all) && Bins(m', all, bins, out)
  {
    hide Chunks, Bins, Room, SameOutside, Slot;
    InnerChunks(m, m', all, k, c);
    ChunksParts(m, all);
    hide Tiled, Backed, Flagged, Ring;
    forall x | IsFree(m, all, x) && x !in out
      ensures SameNode(m, m', x + FREE)
    {
      OutsideHeader(m, m', all, k, c, x);
    }
    forall n, x
      ensures Belongs(m, all, out, n, x) <==> Belongs(m', all, out, n, x)
    {
      if x in all { OutsideHeader(m, m', all, k, c, x); }
    }
    assert FreeNodesSame(m, m', all, out) && SameMembers(m, all, out, m', all, out);
    KeepBins(m, all, bins, out, m', all, out);
  }

  lemma InsertedMembers(all: seq<int>, k: int, c: int, x: int)
    requires 0 <= k <= |all|
    ensures x in Inserted(all, k, c) <==> x == c || x in all
  {
    if x in all {
      var i :| 0 <= i < |all| && all[i] == x;
      assert Inserted(all, k, c)[if i < k then i else i + 1] == x;
    }
    assert Inserted(all, k, c)[k] == c;
  }

  lemma InsertedPair(all: seq<int>, k: int, c: int, i: int, j: int)
    requires Tiled(all) && Room(all, k, c) && 0 <= i < j <= |all| && |Inserted(all, k + 1, c)| == |all| + 1
    ensures Inserted(all, k + 1, c)[i] + CHUNK_SIZE <= Inserted(all, k + 1, c)[j]
  {
    hide Inserted;
    InsertedAt(all, k + 1, c, i);
    InsertedAt(all, k + 1, c, j);
    if i != k + 1 { InsertedOrder(all, k, c, if i <= k then i else i - 1); }
    if j != k + 1 { InsertedOrder(all, k, c, if j <= k then j else j - 1); }
  }

  lemma TiledInserted(all: seq<int>, k: int, c: int)
    requires Tiled(all) && Room(all, k, c)
    ensures var all' := Inserted(all, k + 1, c);
            Tiled(all') && |all'| == |all| + 1 && all'[0] == all[0] && all'[|all|] == all[|all| - 1]
  {
    var all' := Inserted(all, k + 1, c);
    assert |all'| == |all| + 1 && all'[0] == all[0] && all'[|all|] == all[|all| - 1];
    forall i | 0 <= i < |all'|
      ensures all'[i] % 4 == 0
    {
      InsertedAt(all, k + 1, c, i);
    }
    hide Inserted;
    forall i, j | 0 <= i < j < |all'|
      ensures all'[i] + CHUNK_SIZE <= all'[j]
    {
      InsertedPair(all, k, c, i, j);
    }
  }

  lemma InsertedAt(all: seq<int>, k: int, c: int, i: int)
    requires 0 <= k <= |all| && 0 <= i <= |all|
    ensures Inserted(all, k, c)[i] == if i < k then all[i] else if i == k then c else all[i - 1]
  {
  }

  lemma InsertedOrder(all: seq<int>, k: int, c: int, o: int)
    requires Tiled(all) && Room(all, k, c) && 0 <= o < |all|
    ensures o <= k ==> all[o] + CHUNK_SIZE <= c
    ensures o > k ==> c + CHUNK_SIZE <= all[o]
  {
    if o < k { assert all[o] + CHUNK_SIZE <= all[k]; }
    if o > k + 1 { assert all[k + 1] + CHUNK_SIZE <= all[o]; }
  }

  lemma SameButMono(m: Mem, m': Mem, s: seq<int>, t: seq<int>, off: int)
    requires SameBut(m, m', s, off) && forall x :: x in s ==> x in t
    ensures SameBut(m, m', t, off)
  {
    forall a | a in m && m'[a] != m[a]
      ensures Touches(t, off, a)
    {
      assert Touches(s, off, a);
      var i :| 0 <= i < |s| && (a == s[i] + off || a == s[i] + off + 4);
      assert s[i] in s;
      var j :| 0 <= j < |t| && t[j] == s[i];
    }
  }

  lemma RoomClear(all: seq<int>, k: int, c: int)
    requires Tiled(all) && Room(all, k, c)
    ensures Clear(all, c)
  {
    forall i | 0 <= i < |all|
      ensures Disjoint(all[i], c)
    {
      RoomDistance(all, k, c, all[i]);
    }
  }

  lemma SplitMem(m: Mem, all: seq<int>, k: int, c: int)
    requires Chunks(m, all) && Room(all, k, c) && Ring(m, [c], 0)
    ensures all[k] in m && c + 4 in m
    ensures var m', all' := InsertAfter(m, all[k], c), Inserted(all, k + 1, c);
            Ring(m', all', 0) && SameBut(m, m', all', 0)
  {
    hide Ring, SameBut, Inserted, Tiled, Backed, Flagged, InsertAfter, Spliced, Clear, Apart;
    ChunksParts(m, all);
    TiledApart(all);
    RoomClear(all, k, c);
    InsertAfterRing(m, all, 0, k, c);
    RingAt(m, all, 0, k);
    RingAt(m, all, 0, k + 1);
    Lone(m, c, 0);
    assert all[k] + 0 == all[k] && c + 0 == c && all[k + 1] + 0 == all[k + 1] && Succ(|all|, k) == k + 1;
    SplicedSame(m, all, 0, k, k + 1, c);
    forall x | x in [c] + all
      ensures x in Inserted(all, k + 1, c)
    {
      InsertedMembers(all, k + 1, c, x);
    }
    SameButMono(m, InsertAfter(m, all[k], c), [c] + all, Inserted(all, k + 1, c), 0);
  }

  lemma SplitChunks(m: Mem, m': Mem, all: seq<int>, k: int, c: int)
    requires Chunks(m, all) && Room(all, k, c) && c + USED in m && m[c + USED] == 0
    requires Ring(m', Inserted(all, k + 1, c), 0) && SameBut(m, m', Inserted(all, k + 1, c), 0)
    ensures Chunks(m', Inserted(all, k + 1, c))
  {
    var all' := Inserted(all, k + 1, c);
    TiledInserted(all, k, c);
    hide Ring, Inserted, Room, Tiled;
    SplitFlagged(m, m', all, k, c);
    hide Flagged;
  }

  lemma SplitFlagged(m: Mem, m': Mem, all: seq<int>, k: int, c: int)
    requires Tiled(all) && Backed(m, all) && Flagged(m, all) && Room(all, k, c) && c + USED in m && m[c + USED] == 0
    requires SameBut(m, m', Inserted(all, k + 1, c), 0)
    ensures Flagged(m', Inserted(all, k + 1, c))
  {
    var all' := Inserted(all, k + 1, c);
    TiledInserted(all, k, c);
    hide *;
    forall x | x in all'
      ensures SameFlag(m, m', all, c, x)
    {
      SplitFlag(m, m', all, k, c, x);
    }
    FlagsFrom(m, m', all, all', c);
  }

  /** The used flag of x is unchanged, and x is one of the old chunks or c. */
  ghost predicate SameFlag(m: Mem, m': Mem, all: seq<int>, c: int, x: int) {
    x + USED in m && x + USED in m' && m'[x + USED] == m[x + USED] && (x in all || x == c)
  }

  lemma SplitFlag(m: Mem, m': Mem, all: seq<int>, k: int, c: int, x: int)
    requires Tiled(all) && Backed(m, all) && Room(all, k, c) && c + USED in m && x in Inserted(all, k + 1, c)
    requires SameBut(m, m', Inserted(all, k + 1, c), 0)
    ensures SameFlag(m, m', all, c, x)
  {
    var all' := Inserted(all, k + 1, c);
    TiledInserted(all, k, c);
    InsertedMembers(all, k + 1, c, x);
    hide Inserted, Room, Tiled, SameBut, Backed;
    if x in all { ChunkBacked(m, all, x); }
    HeaderWritesFlag(m, m', all', x);
  }

  lemma FlagsFrom(m: Mem, m': Mem, all: seq<int>, all': seq<int>, c: int)
    requires Flagged(m, all) && c + USED in m && m[c + USED] == 0 && |all'| >= 2
    requires all'[0] == all[0] && all'[|all'| - 1] == all[|all| - 1]
    requires forall x :: x in all' ==> SameFlag(m, m', all, c, x)
    ensures Flagged(m', all')
  {
    assert all'[0] in all' && all'[|all'| - 1] in all';
  }

  /** Only the chunk that was split changes its size. */
  lemma SplitSizes(m: Mem, m': Mem, all: seq<int>, k: int, c: int, j: int)
    requires Chunks(m, all) && Room(all, k, c) && Chunks(m', Inserted(all, k + 1, c))
    requires 0 <= j < |all| && j != k
    ensures all[j] in m && all[j] in m' && m'[all[j]] == m[all[j]]
  {
    hide Tiled, Backed, Flagged;
    var all' := Inserted(all, k + 1, c);
    var j' := if j <= k then j else j + 1;
    RingAt(m, all, 0, j);
    RingAt(m', all', 0, j');
    InsertedCycle(all, k, c, j');
  }

  lemma SplitMembers(m: Mem, m': Mem, all: seq<int>, out: set<int>, k: int, c: int)
    requires Chunks(m, all) && Room(all, k, c) && Chunks(m', Inserted(all, k + 1, c))
    requires SameBut(m, m', Inserted(all, k + 1, c), 0) && all[k] in out
    ensures SameMembers(m, all, out, m', Inserted(all, k + 1, c), out + {c})
  {
    hide Chunks, Inserted, Slot, SameBut;
    ChunksParts(m, all);
    TiledInserted(all, k, c);
    hide Tiled, Backed, Flagged;
    forall n, x
      ensures Belongs(m, all, out, n, x) <==> Belongs(m', Inserted(all, k + 1, c), out + {c}, n, x)
    {
      InsertedMembers(all, k + 1, c, x);
      if x in all {
        RoomDistance(all, k, c, x);
        ChunkBacked(m, all, x);
        HeaderWritesFlag(m, m', Inserted(all, k + 1, c), x);
        var j :| 0 <= j < |all| && all[j] == x;
        if j != k { SplitSizes(m, m', all, k, c, j); }
      }
    }
  }

  /** insert_after on the ring of all chunks: a free chunk appears behind all[k]. */
  lemma Split(m: Mem, all: seq<int>, bins: seq<seq<int>>, out: set<int>, k: int, c: int)
    requires Chunks(m, all) && Bins(m, all, bins, out) && Room(all, k, c) && all[k] in out
    requires Ring(m, [c], 0) && c + USED in m && m[c + USED] == 0
    ensures all[k] in m && c + 4 in m
    ensures var m', all' := InsertAfter(m, all[k], c), Inserted(all, k + 1, c);
            && Chunks(m', all') && Bins(m', all', bins, out + {c}) && SameBut(m, m', all', 0)
  {
    hide Bins, FreeNodesSame, SameMembers, InsertAfter, Inserted, SameBut, Ring;
    SplitMem(m, all, k, c);
    var m', all' := InsertAfter(m, all[k], c), Inserted(all, k + 1, c);
    SplitChunks(m, m', all, k, c);
    hide Tiled, Backed, Flagged, Room;
    forall x | x in all
      ensures x in all'
    {
      InsertedMembers(all, k + 1, c, x);
    }
    HeaderWritesFree(m, m', all, all', out);
    SplitMembers(m, m', all, out, k, c);
    KeepBins(m, all, bins, out, m', all', out + {c});
  }

  // ----- what the owners of live payloads see

  /** Chunk c keeps its extent and every word of its payload. */
  ghost predicate SamePayload(m: Mem, m': Mem, c: int) {
    && c in m && c in m' && m'[c] == m[c]
    && forall a :: c + FREE <= a < m[c] && a in m ==> a in m' && m'[a] == m[a]
  }

  /** Every used chunk but ex stays used and keeps its payload. */
  ghost predicate KeepsLive(m: Mem, all: seq<int>, m': Mem, all': seq<int>, ex: int) {
    forall c :: IsUsed(m, all, c) && c != ex ==> IsUsed(m', all', c) && SamePayload(m, m', c)
  }

  lemma KeepsLiveTrans(m: Mem, all: seq<int>, m1: Mem, all1: seq<int>, m2: Mem, all2: seq<int>, ex: int)
    requires KeepsLive(m, all, m1, all1, ex) && KeepsLive(m1, all1, m2, all2, ex)
    ensures KeepsLive(m, all, m2, all2, ex)
  {
    forall c | IsUsed(m, all, c) && c != ex
      ensures IsUsed(m2, all2, c) && SamePayload(m, m2, c)
    {
      assert IsUsed(m1, all1, c) && SamePayload(m, m1, c) && SamePayload(m1, m2, c);
    }
  }

  lemma KeepsLiveSelf(m: Mem, all: seq<int>, ex: int)
    requires forall c :: c in all ==> c in m
    ensures KeepsLive(m, all, m, all, ex)
  {
  }

  /** The tile behind c, as the ring gives it, has no tile between it and c. */
  lemma NoTileBetween(m: Mem, all: seq<int>, c: int, d: int)
    requires Chunks(m, all) && c in all && d in all
    ensures c in m && (d <= c || m[c] <= d || m[c] <= c)
  {
    hide Backed, Flagged, Ring;
    var i :| 0 <= i < |all| && all[i] == c;
    var j :| 0 <= j < |all| && all[j] == d;
    RingAt(m, all, 0, i);
    if i + 1 < j { assert all[i + 1] + CHUNK_SIZE <= all[j]; }
    if j < i { assert all[j] + CHUNK_SIZE <= all[i]; }
  }

  lemma FreeWritesPayload(m: Mem, m': Mem, all: seq<int>, s: seq<int>, c: int)
    requires Chunks(m, all) && SameBut(m, m', s, FREE) && IsUsed(m, all, c)
    requires forall x :: x in s ==> IsFree(m, all, x)
    ensures SamePayload(m, m', c)
  {
    hide Chunks, Touches;
    ChunksParts(m, all);
    ChunkBacked(m, all, c);
    FreeNodesOnly(m, m', all, s, c);
    hide Tiled, Backed, Flagged, Ring;
    forall a | c + FREE <= a < m[c] && a in m
      ensures m'[a] == m[a]
    {
      FreeWriteMisses(m, all, s, c, a);
    }
  }

  lemma FreeWriteMisses(m: Mem, all: seq<int>, s: seq<int>, c: int, a: int)
    requires Chunks(m, all) && IsUsed(m, all, c) && forall x :: x in s ==> IsFree(m, all, x)
    requires c in m && c + FREE <= a < m[c]
    ensures !Touches(s, FREE, a)
  {
    hide Chunks;
    ChunksParts(m, all);
    hide Backed, Flagged, Ring;
    forall i | 0 <= i < |s|
      ensures a != s[i] + FREE && a != s[i] + FREE + 4
    {
      assert IsFree(m, all, s[i]);
      ChunksApart(all, s[i], c);
      NoTileBetween(m, all, c, s[i]);
    }
  }

  /** Operations on free nodes disturb no live payload. */
  lemma FreeWritesLive(m: Mem, m': Mem, all: seq<int>, s: seq<int>, ex: int)
    requires Chunks(m, all) && SameBut(m, m', s, FREE)
    requires forall x :: x in s ==> IsFree(m, all, x)
    ensures KeepsLive(m, all, m', all, ex)
  {
    hide Chunks, SameBut, SamePayload;
    forall c | IsUsed(m, all, c) && c != ex
      ensures IsUsed(m', all, c) && SamePayload(m, m', c)
    {
      FreeWritesPayload(m, m', all, s, c);
      ChunksParts(m, all);
      ChunkBacked(m, all, c);
      FreeNodesOnly(m, m', all, s, c);
    }
  }

  lemma HeaderWriteMisses(m: Mem, all: seq<int>, tiles: seq<int>, c: int, a: int)
    requires Chunks(m, all) && c in all && c in m && c + FREE <= a < m[c]
    requires forall x :: x in tiles && x !in all ==> x + 8 <= a || a < x
    ensures !Touches(tiles, 0, a)
  {
    hide Chunks, Touches;
    ChunksParts(m, all);
    hide Backed, Flagged, Ring;
    forall i | 0 <= i < |tiles|
      ensures a != tiles[i] && a != tiles[i] + 4
    {
      if tiles[i] in all {
        ChunksApart(all, tiles[i], c);
        NoTileBetween(m, all, c, tiles[i]);
      }
    }
    assert !Touches(tiles, 0, a) by { TouchesNot(tiles, 0, a); }
  }

  lemma TouchesNot(s: seq<int>, off: int, a: int)
    requires forall i :: 0 <= i < |s| ==> a != s[i] + off && a != s[i] + off + 4
    ensures !Touches(s, off, a)
  {
  }

  lemma HeaderWritesPayload(m: Mem, m': Mem, all: seq<int>, tiles: seq<int>, c: int)
    requires Chunks(m, all) && c in all && c in m && c in m' && m'[c] == m[c] && SameBut(m, m', tiles, 0)
    requires forall x :: x in tiles && x !in all ==> m[c] <= x || x + 8 <= c
    ensures SamePayload(m, m', c)
  {
    hide Chunks, Touches;
    forall a | c + FREE <= a < m[c] && a in m
      ensures m'[a] == m[a]
    {
      HeaderWriteMisses(m, all, tiles, c, a);
    }
  }

  /** Merging disturbs no payload but that of the chunk being freed. */
  lemma MergeLive(m: Mem, m': Mem, all: seq<int>, k: int, ex: int)
    requires Chunks(m, all) && 0 < k < |all| - 1 && SameBut(m, m', all, 0) && Chunks(m', Without(all, k))
    requires IsUsed(m, all, all[k]) ==> all[k] == ex
    requires IsUsed(m, all, all[k - 1]) ==> all[k - 1] == ex
    ensures KeepsLive(m, all, m', Without(all, k), ex)
  {
    hide Chunks, SameBut, SamePayload, Without;
    ChunksParts(m, all);
    TiledWithout(all, k);
    forall c | IsUsed(m, all, c) && c != ex
      ensures IsUsed(m', Without(all, k), c) && SamePayload(m, m', c)
    {
      var j :| 0 <= j < |all| && all[j] == c;
      MergeSizes(m, m', all, k, j);
      HeaderWritesPayload(m, m', all, all, c);
      HeaderWritesFlag(m, m', all, c);
    }
  }

  /** Splitting a free chunk disturbs no live payload. */
  lemma SplitLive(m: Mem, m': Mem, all: seq<int>, k: int, c: int, ex: int)
    requires Chunks(m, all) && Room(all, k, c) && Chunks(m', Inserted(all, k + 1, c))
    requires SameBut(m, m', Inserted(all, k + 1, c), 0) && IsFree(m, all, all[k])
    ensures KeepsLive(m, all, m', Inserted(all, k + 1, c), ex)
  {
    hide Chunks, SameBut, SamePayload, Inserted;
    var all' := Inserted(all, k + 1, c);
    ChunksParts(m, all);
    ChunksParts(m', all');
    forall d | IsUsed(m, all, d) && d != ex
      ensures IsUsed(m', all', d) && SamePayload(m, m', d)
    {
      var j :| 0 <= j < |all| && all[j] == d;
      SplitSizes(m, m', all, k, c, j);
      SplitOutside(m, all, k, c, j);
      forall x
        ensures x in all' <==> x == c || x in all
      {
        InsertedMembers(all, k + 1, c, x);
      }
      HeaderWritesPayload(m, m', all, all', d);
      HeaderWritesFlag(m, m', all', d);
    }
  }

  lemma SplitOutside(m: Mem, all: seq<int>, k: int, c: int, j: int)
    requires Chunks(m, all) && Room(all, k, c) && 0 <= j < |all| && j != k
    ensures all[j] in m && (m[all[j]] <= c || c + CHUNK_SIZE <= all[j])
  {
    hide Backed, Flagged, Ring;
    RingAt(m, all, 0, j);
    if j < k { assert all[j + 1] <= all[k] by { if j + 1 < k { assert all[j + 1] + CHUNK_SIZE <= all[k]; } } }
    if j > k + 1 { assert all[k + 1] + CHUNK_SIZE <= all[j]; }
  }

  /** Initialising a chunk inside a free payload disturbs no live payload. */
  lemma InnerLive(m: Mem, m': Mem, all: seq<int>, k: int, c: int, ex: int)
    requires Chunks(m, all) && Room(all, k, c) && SameOutside(m, m', c, c + CHUNK_SIZE) && IsFree(m, all, all[k])
    ensures KeepsLive(m, all, m', all, ex)
  {
    hide Chunks, Room;
    ChunksParts(m, all);
    hide Tiled, Backed, Flagged, Ring;
    forall d | IsUsed(m, all, d) && d != ex
      ensures IsUsed(m', all, d) && SamePayload(m, m', d)
    {
      var j :| 0 <= j < |all| && all[j] == d;
      SplitOutside(m, all, k, c, j);
      OutsideHeader(m, m', all, k, c, d);
    }
  }

  /** Setting a chunk's flag disturbs no other live payload. */
  lemma FlagLive(m: Mem, all: seq<int>, c: int, v: int, ex: int)
    requires Chunks(m, all) && c in all && (v == 1 || c == ex)
    ensures KeepsLive(m, all, m[c + USED := v], all, ex)
  {
    hide Chunks;
    ChunksParts(m, all);
    hide Backed, Flagged, Ring;
    forall d | IsUsed(m, all, d) && d != ex
      ensures IsUsed(m[c + USED := v], all, d) && SamePayload(m, m[c + USED := v], d)
    {
      ChunksApart(all, c, d);
      NoTileBetween(m, all, d, c);
    }
  }
}
