/**
  Facts that tie the heap's linked structure to its bins, its flags and the
  tiling it represents: what each list operation means for all of them.
*/
module HeapFacts {
  import opened Digits
  import opened HeapLayout
  import opened IntrusiveList
  import opened HeapShape
  import opened HeapSpec

  // ----- bins by size

  /** Bin n holds the sizes from 2^n to 2^(n+1) - 1. */
  lemma {:induction false} SlotBounds(size: int)
    requires 0 < size
    ensures Slot(size) >= 0 && Pow2(Slot(size)) <= size < Pow2(Slot(size) + 1)
    decreases size
  {
    if size == 1 {
      assert Slot(1) == 1 + Slot(0);
    } else {
      SlotBounds(size / 2);
    }
  }

  lemma {:induction false} Pow2Mono(a: nat, b: nat)
    requires a <= b
    ensures Pow2(a) <= Pow2(b)
    decreases b
  {
    if a < b { Pow2Mono(a, b - 1); }
  }

  lemma Pow2Word()
    ensures Pow2(32) == 0x1_0000_0000 && Pow2(31) == 0x8000_0000
  {
    assert Pow2(8) == 256;
    assert Pow2(16) == 0x1_0000;
    assert Pow2(24) == 0x100_0000;
  }

  lemma SlotRange(size: int)
    requires 0 < size < 0x1_0000_0000
    ensures 0 <= Slot(size) < NUM_SIZES
  {
    SlotBounds(size);
    Pow2Word();
    if Slot(size) >= 32 { Pow2Mono(32, Slot(size)); }
  }

  /** Any chunk from bin slot(size - 1) + 1 or above is large enough. */
  lemma GoodFit(size: int, chunk: int)
    requires 1 < size && 0 < chunk && Slot(chunk) >= Slot(size - 1) + 1
    ensures size <= chunk
  {
    SlotBounds(size - 1);
    SlotBounds(chunk);
    Pow2Mono(Slot(size - 1) + 1, Slot(chunk));
  }

  /** A chunk in a lower bin may be too small; it is below twice the request. */
  lemma NoFit(size: int, chunk: int)
    requires 1 < size && 0 < chunk && Slot(chunk) < Slot(size - 1) + 1
    ensures chunk < Pow2(Slot(size - 1) + 1) < 2 * size
  {
    SlotBounds(size - 1);
    SlotBounds(chunk);
    Pow2Mono(Slot(chunk) + 1, Slot(size - 1) + 1);
    assert Pow2(Slot(size - 1) + 1) == 2 * Pow2(Slot(size - 1));
  }

  // ----- the heads of the bins

  function HeadOf(bin: seq<int>): int {
    if bin == [] then 0 else bin[0]
  }

  /** The free_chunk table points at the head of every bin, with NULL for an empty one. */
  ghost predicate HeadsOk(heads: seq<int>, bins: seq<seq<int>>) {
    && |heads| == |bins| == NUM_SIZES
    && forall n :: 0 <= n < NUM_SIZES ==> heads[n] == HeadOf(bins[n])
  }

  lemma HeadsUpdate(heads: seq<int>, bins: seq<seq<int>>, n: int, head: int, bin: seq<int>)
    requires HeadsOk(heads, bins) && 0 <= n < NUM_SIZES && head == HeadOf(bin)
    ensures HeadsOk(heads[n := head], bins[n := bin])
  {
  }

  ghost predicate ShapeOk(m: Mem, all: seq<int>, bins: seq<seq<int>>, heads: seq<int>, out: set<int>) {
    Chunks(m, all) && Bins(m, all, bins, out) && HeadsOk(heads, bins)
  }

  lemma ShapeParts(m: Mem, all: seq<int>, bins: seq<seq<int>>, heads: seq<int>, out: set<int>)
    requires ShapeOk(m, all, bins, heads, out)
    ensures Chunks(m, all) && Bins(m, all, bins, out) && HeadsOk(heads, bins)
  {
  }

  lemma ShapeFrom(m: Mem, all: seq<int>, bins: seq<seq<int>>, heads: seq<int>, out: set<int>)
    requires Chunks(m, all) && Bins(m, all, bins, out) && HeadsOk(heads, bins)
    ensures ShapeOk(m, all, bins, heads, out)
  {
  }

  lemma HeadAt(m: Mem, all: seq<int>, bins: seq<seq<int>>, heads: seq<int>, out: set<int>, n: int)
    requires ShapeOk(m, all, bins, heads, out) && 0 <= n < NUM_SIZES
    ensures |heads| == |bins| == NUM_SIZES && heads[n] == HeadOf(bins[n]) && (heads[n] == 0 <==> bins[n] == [])
    ensures forall c :: c in bins[n] ==> IsFree(m, all, c)
  {
    BinsAt(m, all, bins, out, n);
    hide BinOk, IsFree, Bins;
    forall c | c in bins[n]
      ensures c in all && IsFree(m, all, c)
    {
      BinMember(m, all, bins[n], out, n, c);
    }
    if bins[n] != [] {
      assert bins[n][0] in bins[n];
      ChunkBounds(all, bins[n][0]);
    }
  }

  /** What the memory says about the k-th chunk of a bin, and what the head becomes without it. */
  lemma RemoveHead(m: Mem, all: seq<int>, bin: seq<int>, out: set<int>, n: int, k: int)
    requires BinOk(m, all, bin, out, n) && 0 <= k < |bin|
    ensures bin[k] + FREE in m && bin[0] + FREE in m
    ensures bin[0] == bin[k] ==> k == 0
    ensures m[bin[0] + FREE] == bin[0] + FREE <==> |bin| == 1
    ensures k == 0 ==> HeadOf(Without(bin, k)) == if |bin| == 1 then 0 else m[bin[0] + FREE] - FREE
    ensures k != 0 ==> HeadOf(Without(bin, k)) == bin[0]
  {
    assert NoDup(bin);
    RingAt(m, bin, FREE, 0);
    RingAt(m, bin, FREE, k);
    hide BinOk, Ring;
    if |bin| > 1 { assert bin[0] != bin[1]; }
    if k > 0 { assert bin[0] != bin[k]; }
  }

  lemma LooseKept(m: Mem, m': Mem, all: seq<int>, s: seq<int>, c: int)
    requires Chunks(m, all) && SameBut(m, m', s, FREE) && Loose(m, c) && c in all && c !in s
    requires forall x :: x in s ==> IsFree(m, all, x)
    ensures Loose(m', c)
  {
    ChunksParts(m, all);
    hide Chunks, SameBut, Tiled, Backed, Flagged;
    forall x | x in s
      ensures x in all
    {
      assert IsFree(m, all, x);
    }
    Lone(m, c, FREE);
    FreeNodeKept(m, m', all, s, c);
    LooseSame(m, m', c);
  }

  lemma SplitRoom(m: Mem, all: seq<int>, i: int, size: int)
    requires Chunks(m, all) && 0 <= i < |all| - 1 && 8 <= size && size % 4 == 0
    requires all[i] in m && size + CHUNK_SIZE <= Size(m, all[i])
    ensures Room(all, i, all[i] + HEADER_SIZE + size)
  {
    NextOf(m, all, i);
    hide Backed, Flagged, Ring;
  }

  lemma SplitBacked(m: Mem, all: seq<int>, i: int, c2: int)
    requires Chunks(m, all) && Room(all, i, c2)
    ensures all[i] in m && c2 + 4 in m
  {
    ChunksParts(m, all);
    hide Chunks, Tiled, Backed, Flagged, Room;
    RoomBacked(m, all, i, c2);
    RoomIndex(all, i, c2);
    ChunkBacked(m, all, all[i]);
  }

  lemma RoomIndex(all: seq<int>, i: int, c2: int)
    requires Room(all, i, c2)
    ensures 0 <= i < |all| - 1 && all[i] in all && all[i] != c2
  {
  }

  lemma InsertedNext(all: seq<int>, i: int, c2: int)
    requires 0 <= i < |all| - 1
    ensures var all' := Inserted(all, i + 1, c2); i + 1 < |all'| - 1 && all'[i + 1] == c2 && all'[i + 2] == all[i + 1]
  {
  }

  /** The new chunk takes what the request and one header leave of the old one. */
  lemma SplitSize(m: Mem, all: seq<int>, m': Mem, all': seq<int>, i: int, size: int)
    requires 0 <= i < |all| - 1 && Chunks(m, all) && all' == Inserted(all, i + 1, all[i] + HEADER_SIZE + size)
             && Chunks(m', all')
    ensures var c := all[i]; c in m && c + HEADER_SIZE + size in m'
    ensures Size(m', all[i] + HEADER_SIZE + size) == Size(m, all[i]) - size - HEADER_SIZE
  {
    hide Tiled, Backed, Flagged, Ring;
    InsertedNext(all, i, all[i] + HEADER_SIZE + size);
    NextOf(m, all, i);
    NextOf(m', all', i + 1);
  }

  lemma SameFlagsWithin(m: Mem, m': Mem, all: seq<int>, all0: seq<int>, i: int, c: int)
    requires 0 <= i < |all0| && all == Inserted(all0, i + 1, c) && SameFlags(m, m', all)
    ensures SameFlags(m, m', all0)
  {
    hide Inserted;
    forall x | x in all0
      ensures x + USED in m && x + USED in m' && m'[x + USED] == m[x + USED]
    {
      InsertedMembers(all0, i + 1, c, x);
    }
  }

  lemma SameFlagsTrans(m: Mem, m1: Mem, m2: Mem, all: seq<int>)
    requires SameFlags(m, m1, all)
    requires SameFlags(m1, m2, all)
    ensures SameFlags(m, m2, all)
  {
  }

  lemma EmptySets(x: int)
    ensures {} + {x} == {x} && {x} - {x} == {} && x !in {}
  {
  }

  lemma UsedKept(m: Mem, m': Mem, all: seq<int>, c: int)
    requires IsUsed(m, all, c) && SameFlags(m, m', all)
    ensures IsUsed(m', all, c)
  {
  }

  lemma FreeNotUsed(m: Mem, all: seq<int>, c: int)
    requires IsFree(m, all, c)
    ensures !IsUsed(m, all, c)
  {
  }

  lemma MergeFlags(m: Mem, m': Mem, all: seq<int>, k: int)
    requires Chunks(m, all) && 0 < k < |all| - 1 && SameBut(m, m', all, 0)
    ensures SameFlags(m, m', Without(all, k))
  {
    ChunksParts(m, all);
    TiledWithout(all, k);
    hide Chunks, Tiled, Backed, Flagged, Ring, SameBut, Without;
    forall x | x in Without(all, k)
      ensures x + USED in m && x + USED in m' && m'[x + USED] == m[x + USED]
    {
      ChunkBacked(m, all, x);
      HeaderWritesFlag(m, m', all, x);
    }
  }

  lemma SameFlagsLess(m: Mem, m': Mem, all: seq<int>, k: int)
    requires 0 <= k < |all| && SameFlags(m, m', all)
    ensures SameFlags(m, m', Without(all, k))
  {
    forall x | x in Without(all, k)
      ensures x in all
    {
    }
  }

  lemma MergeApart(all: seq<int>, i: int)
    requires 0 < i < |all|
    ensures {all[i - 1]} - {all[i]} == {all[i - 1]} || all[i - 1] == all[i]
  {
  }

  /** The chunk in front keeps its flag and its lone free node while the freed chunk goes off the ring. */
  lemma MergeKeeps(m: Mem, m': Mem, all: seq<int>, i: int)
    requires Chunks(m, all) && 0 < i < |all| - 1 && SameBut(m, m', all, 0) && Chunks(m', Without(all, i))
    requires IsFree(m, all, all[i - 1]) && Loose(m, all[i - 1])
    ensures i <= |Without(all, i)| - 1 && Without(all, i)[i - 1] == all[i - 1] && all[i - 1] in m'
    ensures IsFree(m', Without(all, i), all[i - 1]) && Loose(m', all[i - 1])
  {
    ChunksParts(m, all);
    ChunksParts(m', Without(all, i));
    TiledWithout(all, i);
    TiledNoDup(all);
    MergeFlags(m, m', all, i);
    hide Chunks, Tiled, Backed, Flagged, Ring, SameBut;
    HeaderWritesLoose(m, m', all, all[i - 1]);
    ChunkBacked(m', Without(all, i), all[i - 1]);
  }

  lemma MergeSize(m: Mem, all: seq<int>, m': Mem, all': seq<int>, i: int)
    requires 0 < i < |all| - 1 && all' == Without(all, i) && Chunks(m, all) && Chunks(m', all')
    ensures all[i - 1] in m && all[i] in m && all[i - 1] in m'
    ensures Size(m', all[i - 1]) == Size(m, all[i - 1]) + HEADER_SIZE + Size(m, all[i])
  {
    hide Tiled, Backed, Flagged, Ring;
    NextOf(m, all, i - 1);
    NextOf(m, all, i);
    NextOf(m', all', i - 1);
  }

  lemma InnerChunk(m: Mem, all: seq<int>, i: int)
    requires Chunks(m, all) && 0 < i < |all| - 1
    ensures all[i] in all && all[i] != all[0] && all[i] != all[|all| - 1]
  {
    ChunksParts(m, all);
    TiledNoDup(all);
  }

  lemma FlagSteps(m: Mem, m1: Mem, m2: Mem, all: seq<int>, c: int)
    requires Chunks(m, all) && c in all && m1 == m[c + USED := 0] && Chunks(m1, all) && SameBut(m1, m2, [c], FREE)
    ensures FlagsBut(m, m2, all, c) && IsFree(m1, all, c) && IsFree(m2, all, c) && c in m2
    ensures c in m && Size(m2, c) == Size(m, c)
    ensures forall x :: x in [c] ==> IsFree(m1, all, x)
  {
    ChunksParts(m, all);
    ChunksParts(m1, all);
    hide Chunks, Tiled, Backed, Flagged, Ring, SameBut;
    forall x | x in all
      ensures x + USED in m && x + USED in m2 && m2[x + USED] == m1[x + USED]
    {
      ChunkBacked(m, all, x);
      ChunkBacked(m1, all, x);
      FreeNodesOnly(m1, m2, all, [c], x);
    }
    ChunkBacked(m1, all, c);
    FreeNodesOnly(m1, m2, all, [c], c);
  }

  lemma FlagsButTrans(m: Mem, m1: Mem, m2: Mem, all: seq<int>, c: int)
    requires FlagsBut(m, m1, all, c)
    requires SameFlags(m1, m2, all)
    ensures FlagsBut(m, m2, all, c)
  {
  }

  lemma ChunkInitSteps(m: Mem, c: int)
    ensures ChunkInit(m, c) == ListInit(ListInit(m, c)[c + USED := 0], c + FREE)
  {
  }

  lemma InnerFlags(m: Mem, m': Mem, all: seq<int>, k: int, c: int)
    requires Tiled(all) && Backed(m, all) && Room(all, k, c) && SameOutside(m, m', c, c + CHUNK_SIZE)
    ensures SameFlags(m, m', all)
  {
    hide Tiled, Room, SameOutside, SameNode;
    forall x | x in all
      ensures x + USED in m && x + USED in m' && m'[x + USED] == m[x + USED]
    {
      OutsideHeader(m, m', all, k, c, x);
    }
  }

  lemma SplitFlags(m: Mem, m': Mem, all: seq<int>, k: int, c: int)
    requires Chunks(m, all) && 0 <= k < |all| && Tiled(Inserted(all, k + 1, c))
             && SameBut(m, m', Inserted(all, k + 1, c), 0)
    ensures SameFlags(m, m', all)
  {
    ChunksParts(m, all);
    hide Chunks, Tiled, Inserted, SameBut, Flagged, Ring;
    forall x | x in all
      ensures x + USED in m && x + USED in m' && m'[x + USED] == m[x + USED]
    {
      ChunkBacked(m, all, x);
      InsertedMembers(all, k + 1, c, x);
      HeaderWritesFlag(m, m', Inserted(all, k + 1, c), x);
    }
  }

  lemma SameFree(m: Mem, m': Mem, all: seq<int>, c: int)
    requires IsFree(m, all, c) && SameFlags(m, m', all)
    ensures IsFree(m', all, c)
  {
  }

  lemma FreeIn(m: Mem, all: seq<int>, all': seq<int>, c: int)
    requires IsFree(m, all, c) && c in all'
    ensures IsFree(m, all', c)
  {
  }

  lemma FreeFrom(m: Mem, all: seq<int>, c: int)
    requires c in all && c + USED in m && m[c + USED] == 0
    ensures IsFree(m, all, c)
  {
  }

  lemma FreeInside(m: Mem, all: seq<int>, c: int) returns (i: int)
    requires Chunks(m, all) && IsFree(m, all, c)
    ensures 0 < i < |all| - 1 && all[i] == c
  {
    i :| 0 <= i < |all| && all[i] == c;
    hide Tiled, Backed, Ring;
  }

  lemma PopFacts(m: Mem, all: seq<int>, bins: seq<seq<int>>, n: int) returns (i: int)
    requires Chunks(m, all) && Bins(m, all, bins, {}) && 0 <= n < NUM_SIZES && n < |bins| && bins[n] != []
    ensures var c := bins[n][0];
            0 < i < |all| - 1 && all[i] == c && c in m && IsFree(m, all, c) && Slot(Size(m, c)) == n
  {
    BinsAt(m, all, bins, {}, n);
    hide BinOk, IsFree, Chunks, Bins, Slot, Size;
    assert bins[n][0] in bins[n];
    BinMember(m, all, bins[n], {}, n, bins[n][0]);
    i := FreeInside(m, all, bins[n][0]);
  }

  lemma FreeWritesExtent(m: Mem, m': Mem, all: seq<int>, s: seq<int>, c: int)
    requires Chunks(m, all) && SameBut(m, m', s, FREE) && c in all
    requires forall x :: x in s ==> IsFree(m, all, x)
    ensures c in m && c in m' && m'[c] == m[c]
  {
    hide SameBut;
    ChunksParts(m, all);
    hide Chunks, Tiled, Backed, Flagged, Ring;
    forall x | x in s
      ensures x in all
    {
      assert IsFree(m, all, x);
    }
    ChunkBacked(m, all, c);
    FreeNodesOnly(m, m', all, s, c);
  }

  lemma HeadOfPush(bin: seq<int>, c: int)
    ensures HeadOf([c] + bin) == c
  {
  }

  lemma PushMemCases(m: Mem, bin: seq<int>, c: int)
    requires bin != [] ==> bin[0] + FREE + 4 in m && c + FREE + 4 in m
    ensures bin == [] ==> PushMem(m, bin, c) == m
    ensures bin != [] ==> PushMem(m, bin, c) == InsertBefore(m, bin[0] + FREE, c + FREE)
  {
  }

  /** Every flag is as before. */
  ghost predicate SameFlags(m: Mem, m': Mem, all: seq<int>) {
    forall c :: c in all ==> c + USED in m && c + USED in m' && m'[c + USED] == m[c + USED]
  }

  lemma FreeWritesFlags(m: Mem, m': Mem, all: seq<int>, s: seq<int>)
    requires Chunks(m, all) && SameBut(m, m', s, FREE)
    requires forall x :: x in s ==> IsFree(m, all, x)
    ensures SameFlags(m, m', all)
  {
    hide SameBut;
    ChunksParts(m, all);
    hide Chunks, Tiled, Backed, Flagged;
    forall x | x in s
      ensures x in all
    {
      assert IsFree(m, all, x);
    }
    forall c | c in all
      ensures c + USED in m && c + USED in m' && m'[c + USED] == m[c + USED]
    {
      ChunkBacked(m, all, c);
      FreeNodesOnly(m, m', all, s, c);
    }
  }

  lemma PushFrees(m: Mem, all: seq<int>, bin: seq<int>, c: int)
    requires IsFree(m, all, c) && forall x :: x in bin ==> IsFree(m, all, x)
    ensures forall x :: x in [c] + bin ==> IsFree(m, all, x)
  {
    hide IsFree;
    forall x | x in [c] + bin
      ensures IsFree(m, all, x)
    {
      PushMembers(bin, c, x);
    }
  }

  lemma BelongsFrom(m: Mem, all: seq<int>, out: set<int>, n: int, c: int)
    requires IsFree(m, all, c) && c !in out && c in m && Slot(Size(m, c)) == n
    ensures Belongs(m, all, out, n, c)
  {
  }

  /** An inner chunk's size, as the code computes it. */
  lemma ChunkSized(m: Mem, all: seq<int>, i: int)
    requires Chunks(m, all) && 0 <= i < |all| - 1
    ensures all[i] in m && Size(m, all[i]) == all[i + 1] - all[i] - HEADER_SIZE
    ensures 8 <= Size(m, all[i]) < 0x1_0000_0000 && U32(Size(m, all[i])) == Size(m, all[i])
  {
    NextOf(m, all, i);
    ChunksParts(m, all);
    SizeAligned(all, i);
    hide *;
    U32Small(Size(m, all[i]));
  }

  lemma U32Small(x: int)
    requires 0 <= x < 0x1_0000_0000
    ensures U32(x) == x
  {
  }

  lemma FindInBin(m: Mem, all: seq<int>, bins: seq<seq<int>>, out: set<int>, n: int, c: int) returns (k: int)
    requires Bins(m, all, bins, out) && 0 <= n < NUM_SIZES
    requires IsFree(m, all, c) && c !in out && c in m && Slot(Size(m, c)) == n
    ensures n < |bins| && 0 <= k < |bins[n]| && bins[n][k] == c
  {
    BinsAt(m, all, bins, out, n);
    assert Belongs(m, all, out, n, c);
    assert c in bins[n];
    k :| 0 <= k < |bins[n]| && bins[n][k] == c;
  }

  lemma HeadOfSome(bin: seq<int>)
    requires bin != []
    ensures HeadOf(bin) == bin[0]
  {
  }

  lemma BinOutside(m: Mem, all: seq<int>, bin: seq<int>, out: set<int>, n: int, c: int)
    requires BinOk(m, all, bin, out, n) && c in bin
    ensures c in all && c !in out && IsFree(m, all, c)
  {
    BinMember(m, all, bin, out, n, c);
  }

  lemma FreeKept(m: Mem, m': Mem, all: seq<int>, bin: seq<int>, out: set<int>, n: int, c: int)
    requires Chunks(m, all) && BinOk(m, all, bin, out, n) && SameBut(m, m', bin, FREE) && IsFree(m, all, c)
    ensures IsFree(m', all, c)
  {
    hide BinOk, SameBut;
    BinInAll(m, all, bin, out, n);
    ChunkBacked(m, all, c);
    FreeNodesOnly(m, m', all, bin, c);
  }

  // ----- the tiling the memory represents

  ghost function BlockAt(m: Mem, all: seq<int>, i: int): Block
    requires 0 <= i < |all|
  {
    Block(all[i], if i + 1 < |all| then all[i + 1] - all[i] - HEADER_SIZE else 8,
          all[i] + USED in m && m[all[i] + USED] == 1)
  }

  ghost function Blocks(m: Mem, all: seq<int>): (t: Tiling)
    ensures |t| == |all| && forall i :: 0 <= i < |t| ==> t[i] == BlockAt(m, all, i)
  {
    seq(|all|, i requires 0 <= i < |all| => BlockAt(m, all, i))
  }

  lemma BlockUsed(m: Mem, all: seq<int>, i: int)
    requires Flagged(m, all) && 0 <= i < |all|
    ensures Blocks(m, all)[i].addr == all[i]
    ensures Blocks(m, all)[i].used <==> IsUsed(m, all, all[i])
    ensures !Blocks(m, all)[i].used <==> IsFree(m, all, all[i])
  {
    assert all[i] in all;
  }

  lemma BlockSize(m: Mem, all: seq<int>, i: int)
    requires Chunks(m, all) && 0 <= i < |all| - 1
    ensures all[i] in m && Blocks(m, all)[i].size == Size(m, all[i])
  {
    NextOf(m, all, i);
  }

  /** Flags are as before but for one chunk. */
  ghost predicate FlagsBut(m: Mem, m': Mem, all: seq<int>, c: int) {
    forall x :: x in all && x != c ==> x + USED in m && x + USED in m' && m'[x + USED] == m[x + USED]
  }

  lemma AllocBlocksWhole(m: Mem, all: seq<int>, m': Mem, i: int, size: int)
    requires 0 <= i < |all| && FlagsBut(m, m', all, all[i]) && Tiled(all)
    requires all[i] + USED in m' && m'[all[i] + USED] == 1
    requires Blocks(m, all)[i].size < size + CHUNK_SIZE
    ensures Blocks(m', all) == Alloc(Blocks(m, all), i, size)
  {
    var t, t' := Blocks(m, all), Blocks(m', all);
    forall j | 0 <= j < |all|
      ensures t'[j] == if j == i then t[i].(used := true) else t[j]
    {
      if j != i { assert all[j] in all && all[j] != all[i]; }
    }
    hide Blocks, BlockAt, Tiled, FlagsBut;
    assert t' == t[..i] + [t[i].(used := true)] + t[i + 1..];
  }

  lemma AllocBlocksSplit(m: Mem, all: seq<int>, m': Mem, i: int, size: int)
    requires Chunks(m, all) && 0 <= i < |all| - 1 && 8 <= size && size + CHUNK_SIZE <= Blocks(m, all)[i].size
    requires var all' := Inserted(all, i + 1, all[i] + HEADER_SIZE + size);
             && FlagsBut(m, m', all, all[i]) && Tiled(all')
             && all[i] + USED in m' && m'[all[i] + USED] == 1
             && all[i] + HEADER_SIZE + size + USED in m' && m'[all[i] + HEADER_SIZE + size + USED] == 0
    ensures Blocks(m', Inserted(all, i + 1, all[i] + HEADER_SIZE + size)) == Alloc(Blocks(m, all), i, size)
  {
    var c := all[i] + HEADER_SIZE + size;
    var all' := Inserted(all, i + 1, c);
    var t, t' := Blocks(m, all), Blocks(m', all');
    forall j | 0 <= j < |all'|
      ensures t'[j] == Alloc(t, i, size)[j] && |t'| == |Alloc(t, i, size)|
    {
      AllocBlockAt(m, all, m', i, size, j);
    }
  }

  lemma OtherFlag(m: Mem, all: seq<int>, m': Mem, i: int, o: int)
    requires Tiled(all) && 0 <= i < |all| && 0 <= o < |all| && o != i && FlagsBut(m, m', all, all[i])
    ensures all[o] + USED in m && all[o] + USED in m' && m'[all[o] + USED] == m[all[o] + USED]
  {
    assert all[o] in all;
    if o < i { assert all[o] + CHUNK_SIZE <= all[i]; } else { assert all[i] + CHUNK_SIZE <= all[o]; }
  }

  lemma AllocBlockAt(m: Mem, all: seq<int>, m': Mem, i: int, size: int, j: int)
    requires Tiled(all) && 0 <= i < |all| - 1 && 8 <= size && size + CHUNK_SIZE <= Blocks(m, all)[i].size
    requires FlagsBut(m, m', all, all[i])
    requires all[i] + USED in m' && m'[all[i] + USED] == 1
    requires all[i] + HEADER_SIZE + size + USED in m' && m'[all[i] + HEADER_SIZE + size + USED] == 0
    requires 0 <= j <= |all|
    ensures |Alloc(Blocks(m, all), i, size)| == |all| + 1 == |Inserted(all, i + 1, all[i] + HEADER_SIZE + size)|
    ensures BlockAt(m', Inserted(all, i + 1, all[i] + HEADER_SIZE + size), j) == Alloc(Blocks(m, all), i, size)[j]
  {
    hide Alloc, Inserted, Tiled, FlagsBut, Blocks;
    var c, t := all[i] + HEADER_SIZE + size, Blocks(m, all);
    AllocLength(t, i, size);
    AllocAt(t, i, size, j);
    InsertedLength(all, i + 1, c);
    InsertedAt(all, i + 1, c, j);
    if j < |all| { InsertedAt(all, i + 1, c, j + 1); }
    if j < i { OtherFlag(m, all, m', i, j); }
    if j > i + 1 { OtherFlag(m, all, m', i, j - 1); }
    hide Carve;
    if i <= j <= i + 1 { CarveTwo(t[i], size); }
  }

  lemma CarveTwo(b: Block, size: int)
    requires size + CHUNK_SIZE <= b.size
    ensures Carve(b, size) ==
            [Block(b.addr, size, true), Block(b.addr + HEADER_SIZE + size, b.size - size - HEADER_SIZE, false)]
  {
  }

  lemma InsertedLength(all: seq<int>, k: int, c: int)
    requires 0 <= k <= |all|
    ensures |Inserted(all, k, c)| == |all| + 1
  {
  }

  lemma AllocLength(t: Tiling, i: int, size: int)
    requires 0 <= i < |t|
    ensures |Alloc(t, i, size)| == |t| - 1 + |Carve(t[i], size)|
  {
  }

  /** What the ring and the flags look like once a freed block has swallowed its free neighbours. */
  ghost predicate FreedShape(all: seq<int>, all': seq<int>, lo: int, hi: int) {
    && 0 <= lo < hi < |all| && |all'| == |all| - (hi - lo) + 1
    && forall j :: 0 <= j < |all'| ==> all'[j] == if j <= lo then all[j] else all[j - 1 - lo + hi]
  }

  lemma FreedAt(all: seq<int>, all': seq<int>, lo: int, hi: int, j: int)
    requires FreedShape(all, all', lo, hi) && 0 <= j < |all'|
    ensures all'[j] == if j <= lo then all[j] else all[j - 1 - lo + hi]
  {
  }

  lemma FreeBlockAt(m: Mem, all: seq<int>, m': Mem, all': seq<int>, i: int, lo: int, hi: int, j: int)
    requires 0 < i < |all| - 1 && Tiled(all')
    requires lo == From(Blocks(m, all), i) && hi == To(Blocks(m, all), i) && lo <= i < hi
             && FreedShape(all, all', lo, hi)
    requires FlagsBut(m, m', all', all[lo]) && all[lo] + USED in m' && m'[all[lo] + USED] == 0
    requires 0 <= j < |all'|
    ensures |Free(Blocks(m, all), i)| == |all'|
    ensures BlockAt(m', all', j) == Free(Blocks(m, all), i)[j]
  {
    var t := Blocks(m, all);
    FreeLength(t, i);
    FreeAt(t, i, j);
    FreedBlock(m, all, m', all', lo, hi, j);
    hide *;
  }

  /** A block of the freed ring: the joined one, or an old one. */
  lemma FreedBlock(m: Mem, all: seq<int>, m': Mem, all': seq<int>, lo: int, hi: int, j: int)
    requires Tiled(all') && FreedShape(all, all', lo, hi) && 0 <= j < |all'|
    requires FlagsBut(m, m', all', all[lo]) && all[lo] + USED in m' && m'[all[lo] + USED] == 0
    ensures 0 <= lo < hi < |all| && |all'| == |all| - (hi - lo) + 1
    ensures BlockAt(m', all', j)
            == if j < lo then Blocks(m, all)[j] else if j == lo then Joined(Blocks(m, all), lo, hi)
              else Blocks(m, all)[j - 1 - lo + hi]
  {
    FreedAt(all, all', lo, hi, lo);
    FreedAt(all, all', lo, hi, j);
    if j + 1 < |all'| { FreedAt(all, all', lo, hi, j + 1); }
    if j != lo { OtherFlag(m, all', m', lo, j); }
    hide Tiled, FlagsBut, Blocks, FreedShape;
  }

  lemma FreeLength(t: Tiling, i: int)
    requires 0 < i < |t| - 1 && From(t, i) <= i < To(t, i) < |t|
    ensures |Free(t, i)| == |t| - (To(t, i) - From(t, i)) + 1
  {
  }

  lemma FreeBlocks(m: Mem, all: seq<int>, m': Mem, all': seq<int>, i: int, lo: int, hi: int)
    requires 0 < i < |all| - 1 && Tiled(all')
    requires lo == From(Blocks(m, all), i) && hi == To(Blocks(m, all), i) && lo <= i < hi
             && FreedShape(all, all', lo, hi)
    requires FlagsBut(m, m', all', all[lo]) && all[lo] + USED in m' && m'[all[lo] + USED] == 0
    ensures Blocks(m', all') == Free(Blocks(m, all), i)
  {
    var t, t' := Blocks(m, all), Blocks(m', all');
    FreeBlockAt(m, all, m', all', i, lo, hi, 0);
    forall j | 0 <= j < |all'|
      ensures t'[j] == Free(t, i)[j]
    {
      FreeBlockAt(m, all, m', all', i, lo, hi, j);
    }
  }

  // ----- requests

  /** The size a request is rounded to, in 32-bit arithmetic. */
  function Rounded(size: u32): u32 {
    var r := U32(size + ALIGN - 1) / ALIGN * ALIGN;
    if r < MIN_SIZE then MIN_SIZE else r
  }

  /** Rounding serves the request in full exactly when adding ALIGN - 1 does not wrap. */
  lemma RoundedCovers(size: u32)
    ensures size <= Rounded(size) <==> size <= 0xFFFF_FFFC
    ensures Rounded(size) % 4 == 0 && 8 <= Rounded(size)
    ensures size <= 0xFFFF_FFFC ==> Rounded(size) <= size + 8
    ensures size > 0xFFFF_FFFC ==> Rounded(size) == 8
    ensures size <= 0xFFFF_FFFC ==> forall r :: r % 4 == 0 && 8 <= r && size <= r ==> Rounded(size) <= r
  {
  }

  lemma HeaderWritesLoose(m: Mem, m': Mem, tiles: seq<int>, c: int)
    requires SameBut(m, m', tiles, 0) && Tiled(tiles) && c in tiles && Loose(m, c)
    ensures Loose(m', c)
  {
    Lone(m, c, FREE);
    HeaderWrites(m, m', tiles, c, c + FREE);
    HeaderWrites(m, m', tiles, c, c + FREE + 4);
    hide SameBut, Tiled;
    LooseFrom(m', c);
  }

  lemma LooseFrom(m: Mem, c: int)
    requires c + FREE in m && c + FREE + 4 in m && m[c + FREE] == c + FREE == m[c + FREE + 4]
    ensures Loose(m, c)
  {
    assert Linked(m, [c], FREE, 0);
  }

  lemma LooseSame(m: Mem, m': Mem, c: int)
    requires Loose(m, c) && SameNode(m, m', c + FREE)
    ensures Loose(m', c)
  {
    Lone(m, c, FREE);
    LooseFrom(m', c);
  }

  // ----- the whole state between calls

  /** The accounting counters: free bytes drift by one header for every join made so far. */
  ghost predicate Accounts(t: Tiling, memFree: u32, memMeta: u32, merges: nat) {
    && memFree == U32(FreeBytes(t) + HEADER_SIZE * merges)
    && memMeta == U32(2 * CHUNK_SIZE + HEADER_SIZE * (|t| - 2))
  }

  ghost predicate HeapOk(m: Mem, all: seq<int>, bins: seq<seq<int>>, heads: seq<int>,
                         memFree: u32, memMeta: u32, merges: nat)
  {
    && ShapeOk(m, all, bins, heads, {})
    && WellTiled(Blocks(m, all))
    && Accounts(Blocks(m, all), memFree, memMeta, merges)
  }

  lemma HeapParts(m: Mem, all: seq<int>, bins: seq<seq<int>>, heads: seq<int>,
                  memFree: u32, memMeta: u32, merges: nat)
    requires HeapOk(m, all, bins, heads, memFree, memMeta, merges)
    ensures ShapeOk(m, all, bins, heads, {}) && WellTiled(Blocks(m, all))
    ensures Accounts(Blocks(m, all), memFree, memMeta, merges)
    ensures |Blocks(m, all)| == |all| >= 3
  {
  }

  lemma HeapFrom(m: Mem, all: seq<int>, bins: seq<seq<int>>, heads: seq<int>,
                 memFree: u32, memMeta: u32, merges: nat)
    requires ShapeOk(m, all, bins, heads, {}) && WellTiled(Blocks(m, all))
    requires Accounts(Blocks(m, all), memFree, memMeta, merges)
    ensures HeapOk(m, all, bins, heads, memFree, memMeta, merges)
  {
  }

  // ----- why an allocation fails

  /** With every bin from n0 upwards empty, every free block is too small for the request, and below 2^n0. */
  lemma NothingFits(m: Mem, all: seq<int>, bins: seq<seq<int>>, heads: seq<int>, size: int, j: int)
    requires ShapeOk(m, all, bins, heads, {}) && 1 < size
    requires forall n :: Slot(size - 1) + 1 <= n < NUM_SIZES && n < |heads| ==> heads[n] == 0
    requires 0 <= j < |all| && !Blocks(m, all)[j].used
    ensures Blocks(m, all)[j].size < Pow2(Slot(size - 1) + 1) < 2 * size
  {
    hide ShapeOk, Blocks, Slot;
    InSomeBin(m, all, bins, heads, j);
    NoFit(size, Blocks(m, all)[j].size);
  }

  /** The bin of a free block's size class is not empty. */
  lemma InSomeBin(m: Mem, all: seq<int>, bins: seq<seq<int>>, heads: seq<int>, j: int)
    requires ShapeOk(m, all, bins, heads, {}) && 0 <= j < |all| && !Blocks(m, all)[j].used
    ensures var chunk := Blocks(m, all)[j].size;
            0 < chunk && 0 <= Slot(chunk) < NUM_SIZES == |heads| && heads[Slot(chunk)] != 0
  {
    hide ShapeOk, Blocks, Chunks, Bins, HeadsOk, IsFree, Slot, Size;
    ShapeParts(m, all, bins, heads, {});
    ChunksParts(m, all);
    BlockUsed(m, all, j);
    FreeIndex(m, all, j);
    BlockSize(m, all, j);
    ChunkSized(m, all, j);
    var chunk := Size(m, all[j]);
    SlotRange(chunk);
    var k := FindInBin(m, all, bins, {}, Slot(chunk), all[j]);
    HeadAt(m, all, bins, heads, {}, Slot(chunk));
  }

  lemma FreeIndex(m: Mem, all: seq<int>, j: int)
    requires Chunks(m, all) && 0 <= j < |all| && IsFree(m, all, all[j])
    ensures 0 < j < |all| - 1
  {
    ChunksParts(m, all);
    hide Tiled, Backed, Ring;
  }

  /** A bin index below NUM_SIZES bounds the request by 2^31, so adding a chunk to it does not wrap. */
  lemma RequestBound(size: int)
    requires 1 < size && Slot(size - 1) + 1 < NUM_SIZES
    ensures size <= 0x8000_0000
  {
    SlotBounds(size - 1);
    Pow2Word();
    Pow2Mono(Slot(size - 1) + 1, 31);
  }

  // ----- putting allocation together

  lemma AccountsWhole(t: Tiling, i: int, size: int, memFree: u32, memMeta: u32, merges: nat)
    requires 0 <= i < |t| && !t[i].used && Accounts(t, memFree, memMeta, merges)
    requires t[i].size < size + CHUNK_SIZE
    ensures Accounts(Alloc(t, i, size), U32(memFree - t[i].size), memMeta, merges)
  {
    AllocBytes(t, i, size);
    AllocLength(t, i, size);
    hide Alloc, FreeBytes;
    U32Sum(FreeBytes(t) + HEADER_SIZE * merges, -t[i].size);
  }

  lemma AccountsSplit(t: Tiling, i: int, size: int, memFree: u32, memMeta: u32, merges: nat)
    requires 0 <= i < |t| && !t[i].used && Accounts(t, memFree, memMeta, merges)
    requires size + CHUNK_SIZE <= t[i].size
    ensures Accounts(Alloc(t, i, size), U32(U32(memFree + (t[i].size - size - HEADER_SIZE)) - t[i].size),
                     U32(memMeta + HEADER_SIZE), merges)
  {
    AllocBytes(t, i, size);
    AllocLength(t, i, size);
    hide Alloc, FreeBytes;
    var rest := t[i].size - size - HEADER_SIZE;
    U32Sum(FreeBytes(t) + HEADER_SIZE * merges, rest);
    U32Sum(FreeBytes(t) + HEADER_SIZE * merges + rest, -t[i].size);
    U32Sum(2 * CHUNK_SIZE + HEADER_SIZE * (|t| - 2), HEADER_SIZE);
  }

  lemma U32Sum(x: int, y: int)
    ensures U32(U32(x) + y) == U32(x + y)
  {
  }

  /** The popped block, marked used, without splitting. */
  lemma FinishWhole(m0: Mem, all: seq<int>, m1: Mem, bins: seq<seq<int>>, heads: seq<int>, i: int, size: int,
                    memFree: u32, memMeta: u32, merges: nat)
    requires Chunks(m0, all) && WellTiled(Blocks(m0, all)) && 0 < i < |all| - 1 && !Blocks(m0, all)[i].used
    requires 8 <= size <= Blocks(m0, all)[i].size < size + CHUNK_SIZE && size % 4 == 0
    requires Accounts(Blocks(m0, all), memFree, memMeta, merges)
    requires SameFlags(m0, m1, all) && ShapeOk(m1[all[i] + USED := 1], all, bins, heads, {})
    ensures var m2 := m1[all[i] + USED := 1];
            && Blocks(m2, all) == Alloc(Blocks(m0, all), i, size)
            && HeapOk(m2, all, bins, heads, U32(memFree - Blocks(m0, all)[i].size), memMeta, merges)
  {
    hide Blocks, WellTiled, Accounts, ShapeOk, Alloc, Ring;
    ChunksParts(m0, all);
    var m2 := m1[all[i] + USED := 1];
    FlagSet(m0, m1, all, i);
    AllocBlocksWhole(m0, all, m2, i, size);
    AllocTiled(Blocks(m0, all), i, size);
    AccountsWhole(Blocks(m0, all), i, size, memFree, memMeta, merges);
    HeapFrom(m2, all, bins, heads, U32(memFree - Blocks(m0, all)[i].size), memMeta, merges);
  }

  lemma FlagSet(m0: Mem, m1: Mem, all: seq<int>, i: int)
    requires Tiled(all) && 0 <= i < |all| && SameFlags(m0, m1, all)
    ensures FlagsBut(m0, m1[all[i] + USED := 1], all, all[i])
  {
    forall x | x in all && x != all[i]
      ensures x + USED != all[i] + USED
    {
      ChunksApart(all, x, all[i]);
    }
  }

  /** The popped block, split and marked used. */
  lemma FinishSplit(m0: Mem, all: seq<int>, m1: Mem, all': seq<int>, bins: seq<seq<int>>, heads: seq<int>,
                    i: int, size: int, memFree: u32, memMeta: u32, merges: nat)
    requires Chunks(m0, all) && WellTiled(Blocks(m0, all)) && 0 < i < |all| - 1 && !Blocks(m0, all)[i].used
    requires 8 <= size && size + CHUNK_SIZE <= Blocks(m0, all)[i].size && size % 4 == 0
    requires Accounts(Blocks(m0, all), memFree, memMeta, merges)
    requires all' == Inserted(all, i + 1, all[i] + HEADER_SIZE + size)
    requires SameFlags(m0, m1, all) && IsFree(m1, all', all[i] + HEADER_SIZE + size)
    requires ShapeOk(m1[all[i] + USED := 1], all', bins, heads, {})
    ensures var m2, s := m1[all[i] + USED := 1], Blocks(m0, all)[i].size;
            && Blocks(m2, all') == Alloc(Blocks(m0, all), i, size)
            && HeapOk(m2, all', bins, heads, U32(U32(memFree + (s - size - HEADER_SIZE)) - s),
               U32(memMeta + HEADER_SIZE), merges)
  {
    hide Blocks, WellTiled, Accounts, ShapeOk, Alloc, Ring, Inserted;
    ChunksParts(m0, all);
    var m2 := m1[all[i] + USED := 1];
    ShapeParts(m2, all', bins, heads, {});
    ChunksParts(m2, all');
    FlagSet(m0, m1, all, i);
    AllocBlocksSplit(m0, all, m2, i, size);
    AllocTiled(Blocks(m0, all), i, size);
    AccountsSplit(Blocks(m0, all), i, size, memFree, memMeta, merges);
    var s := Blocks(m0, all)[i].size;
    HeapFrom(m2, all', bins, heads, U32(U32(memFree + (s - size - HEADER_SIZE)) - s), U32(memMeta + HEADER_SIZE),
      merges);
  }

  // ----- putting freeing together

  /** The ring of all chunks without the next chunk, without the freed one, or without both. */
  function RingAfter(all: seq<int>, i: int, next: bool, prev: bool): seq<int>
    requires 0 < i < |all| - 1
  {
    var all1 := if next then Without(all, i + 1) else all;
    if prev then Without(all1, i) else all1
  }

  lemma RingAfterShape(all: seq<int>, i: int, next: bool, prev: bool)
    requires 0 < i < |all| - 1 && (next ==> i + 1 < |all| - 1)
    ensures FreedShape(all, RingAfter(all, i, next, prev), if prev then i - 1 else i, if next then i + 2 else i + 1)
  {
    if next && prev {
      assert RingAfter(all, i, next, prev) == Without(Without(all, i + 1), i);
    } else if next {
      assert RingAfter(all, i, next, prev) == Without(all, i + 1);
    } else if prev {
      assert RingAfter(all, i, next, prev) == Without(all, i);
    }
  }

  /** The counter after a free, as the code adds it up, from the sizes of the freed chunk and its neighbours. */
  function FreeAfter(f: u32, size: int, nextSize: int, prevSize: int, next: bool, prev: bool): u32 {
    var f1 := if next then U32(U32(f - nextSize) + HEADER_SIZE) else f;
    var size1 := if next then size + HEADER_SIZE + nextSize else size;
    if prev then U32(U32(U32(f1 - prevSize) + (prevSize + HEADER_SIZE + size1)) + HEADER_SIZE) else U32(f1 + size1)
  }

  lemma FreeAfterSum(f: u32, size: int, nextSize: int, prevSize: int, next: bool, prev: bool)
    ensures FreeAfter(f, size, nextSize, prevSize, next, prev)
            == U32(f + size + 2 * HEADER_SIZE * ((if next then 1 else 0) + (if prev then 1 else 0)))
  {
    if next {
      U32Sum(f - nextSize, HEADER_SIZE);
    }
    var g := if next then f - nextSize + HEADER_SIZE else f;
    var size1 := if next then size + HEADER_SIZE + nextSize else size;
    if prev {
      U32Sum(g, -prevSize);
      U32Sum(g - prevSize, prevSize + HEADER_SIZE + size1);
      U32Sum(g + HEADER_SIZE + size1, HEADER_SIZE);
    } else {
      U32Sum(g, size1);
    }
  }

  function MetaAfter(meta: u32, next: bool, prev: bool): u32 {
    var meta1 := if next then U32(meta - HEADER_SIZE) else meta;
    if prev then U32(meta1 - HEADER_SIZE) else meta1
  }

  lemma MetaAfterSum(meta: u32, next: bool, prev: bool)
    ensures MetaAfter(meta, next, prev) == U32(meta - HEADER_SIZE * ((if next then 1 else 0) + (if prev then 1 else 0)))
  {
    if next && prev { U32Sum(meta - HEADER_SIZE, -HEADER_SIZE); }
  }

  lemma AccountsFree(t: Tiling, i: int, memFree: u32, memMeta: u32, merges: nat)
    requires WellTiled(t) && 0 < i < |t| - 1 && t[i].used && Accounts(t, memFree, memMeta, merges)
    ensures To(t, i) < |t|
    ensures var next, prev := !t[i + 1].used, !t[i - 1].used;
            Accounts(Free(t, i), FreeAfter(memFree, t[i].size, t[i + 1].size, t[i - 1].size, next, prev),
                     MetaAfter(memMeta, next, prev), merges + Merges(t, i))
  {
    ToInside(t, i);
    FreeBytesFreed(t, i);
    FreeLength(t, i);
    var next, prev, k := !t[i + 1].used, !t[i - 1].used, Merges(t, i);
    FreeAfterSum(memFree, t[i].size, t[i + 1].size, t[i - 1].size, next, prev);
    MetaAfterSum(memMeta, next, prev);
    hide Free, FreeBytes, WellTiled, FreeAfter, MetaAfter;
    U32Sum(FreeBytes(t) + HEADER_SIZE * merges, t[i].size + 2 * HEADER_SIZE * k);
    U32Sum(2 * CHUNK_SIZE + HEADER_SIZE * (|t| - 2), -HEADER_SIZE * k);
    hide U32;
    assert FreeBytes(t) + HEADER_SIZE * merges + (t[i].size + 2 * HEADER_SIZE * k)
        == FreeBytes(Free(t, i)) + HEADER_SIZE * (merges + k);
  }

  lemma SameFlagsBut(m: Mem, m': Mem, all: seq<int>, c: int)
    requires SameFlags(m, m', all)
    ensures FlagsBut(m, m', all, c)
  {
  }

  lemma FlagsButAfter(m: Mem, m1: Mem, m2: Mem, all: seq<int>, c: int)
    requires SameFlags(m, m1, all)
    requires FlagsBut(m1, m2, all, c)
    ensures FlagsBut(m, m2, all, c)
  {
  }

  /** The chunk that a freed run becomes. */
  function RunHead(all: seq<int>, i: int, prev: bool): int
    requires 0 < i < |all|
  {
    if prev then all[i - 1] else all[i]
  }

  /** The chunk that becomes free is the first block of the run. */
  lemma RunHeadTile(m: Mem, all: seq<int>, i: int, t: Tiling, prev: bool)
    requires t == Blocks(m, all) && 0 < i < |all| - 1 && prev == !t[i - 1].used
    ensures 0 <= From(t, i) < |t| && t[From(t, i)].addr == RunHead(all, i, prev)
  {
  }

  lemma FinishBlocks(m0: Mem, all: seq<int>, m1: Mem, all': seq<int>, i: int, t: Tiling, next: bool, prev: bool)
    requires t == Blocks(m0, all) && WellTiled(t) && 0 < i < |all| - 1 && t[i].used && Tiled(all')
    requires next == !t[i + 1].used && prev == !t[i - 1].used && all' == RingAfter(all, i, next, prev)
    requires FlagsBut(m0, m1, all', RunHead(all, i, prev)) && IsFree(m1, all', RunHead(all, i, prev))
    ensures To(t, i) < |t| && Blocks(m1, all') == Free(t, i)
  {
    hide Blocks, WellTiled, Free, From, To, RingAfter, Tiled, FlagsBut, FreedShape;
    ToInside(t, i);
    FromToCases(t, i);
    RingAfterShape(all, i, next, prev);
    FreeBlocks(m0, all, m1, all', i, From(t, i), To(t, i));
  }

  /** A finished free represents exactly the freed tiling. */
  lemma FinishFree(m0: Mem, all: seq<int>, m1: Mem, all': seq<int>, bins: seq<seq<int>>, heads: seq<int>, i: int,
                   memFree: u32, memMeta: u32, merges: nat, t: Tiling, next: bool, prev: bool)
    requires t == Blocks(m0, all) && WellTiled(t) && 0 < i < |all| - 1 && t[i].used
    requires Accounts(t, memFree, memMeta, merges) && ShapeOk(m1, all', bins, heads, {})
    requires next == !t[i + 1].used && prev == !t[i - 1].used && all' == RingAfter(all, i, next, prev)
    requires FlagsBut(m0, m1, all', RunHead(all, i, prev)) && IsFree(m1, all', RunHead(all, i, prev))
    ensures To(t, i) < |t| && Blocks(m1, all') == Free(t, i)
    ensures HeapOk(m1, all', bins, heads, FreeAfter(memFree, t[i].size, t[i + 1].size, t[i - 1].size, next, prev),
                   MetaAfter(memMeta, next, prev), merges + Merges(t, i))
  {
    hide *;
    BlocksLength(m0, all);
    ShapeParts(m1, all', bins, heads, {});
    ChunksParts(m1, all');
    FinishBlocks(m0, all, m1, all', i, t, next, prev);
    FreeTiled(t, i);
    AccountsFree(t, i, memFree, memMeta, merges);
    HeapFrom(m1, all', bins, heads, FreeAfter(memFree, t[i].size, t[i + 1].size, t[i - 1].size, next, prev),
             MetaAfter(memMeta, next, prev), merges + Merges(t, i));
  }

  lemma BlocksLength(m: Mem, all: seq<int>)
    ensures |Blocks(m, all)| == |all|
  {
  }

  lemma FromToCases(t: Tiling, i: int)
    requires 0 < i < |t| - 1
    ensures From(t, i) == if t[i - 1].used then i else i - 1
    ensures To(t, i) == if t[i + 1].used then i + 1 else i + 2
  {
  }

  // ----- what an owner does to its allocation

  /** A word of the payload of chunk c. */
  ghost predicate InPayload(m: Mem, c: int, a: int) {
    c in m && c + FREE <= a < m[c] && a in m
  }

  /** A payload word belongs to no other chunk, and to the header of none. */
  lemma PayloadApart(m: Mem, all: seq<int>, c: int, a: int, x: int)
    requires Chunks(m, all) && c in all && x in all && InPayload(m, c, a)
    ensures x in m && a != x && a != x + 4 && a != x + USED
    ensures x != c ==> a != x + FREE && a != x + FREE + 4 && (a < x || m[x] <= a || m[x] <= x)
  {
    ChunksParts(m, all);
    ChunkBacked(m, all, x);
    NoTileBetween(m, all, c, x);
    NoTileBetween(m, all, x, c);
    if x != c { ChunksApart(all, x, c); }
    hide Chunks, Tiled, Backed, Flagged, Ring;
  }

  lemma OwnerRing(m: Mem, all: seq<int>, c: int, a: int, v: int)
    requires Chunks(m, all) && c in all && InPayload(m, c, a)
    ensures Ring(m[a := v], all, 0)
  {
    ChunksParts(m, all);
    hide Chunks, Tiled, Backed, Flagged, Ring, InPayload;
    forall i | 0 <= i < |all|
      ensures SameNode(m, m[a := v], all[i] + 0)
    {
      ChunkBacked(m, all, all[i]);
      PayloadApart(m, all, c, a, all[i]);
    }
    RingSame(m, m[a := v], all, 0);
  }

  lemma OwnerChunks(m: Mem, all: seq<int>, c: int, a: int, v: int)
    requires Chunks(m, all) && c in all && InPayload(m, c, a)
    ensures Chunks(m[a := v], all) && SameFlags(m, m[a := v], all)
  {
    ChunksParts(m, all);
    OwnerRing(m, all, c, a, v);
    hide Tiled, Ring, InPayload;
    forall x | x in all
      ensures x + USED in m && x + USED in m[a := v] && m[a := v][x + USED] == m[x + USED]
    {
      ChunkBacked(m, all, x);
      PayloadApart(m, all, c, a, x);
    }
    OwnerFlagged(m, m[a := v], all);
  }

  lemma OwnerFlagged(m: Mem, m': Mem, all: seq<int>)
    requires Flagged(m, all) && SameFlags(m, m', all)
    ensures Flagged(m', all)
  {
    assert all[0] in all && all[|all| - 1] in all;
  }

  lemma OwnerBins(m: Mem, all: seq<int>, bins: seq<seq<int>>, c: int, a: int, v: int)
    requires Chunks(m, all) && Bins(m, all, bins, {}) && IsUsed(m, all, c) && InPayload(m, c, a)
    ensures Bins(m[a := v], all, bins, {})
  {
    var m' := m[a := v];
    ChunksParts(m, all);
    hide Chunks, Tiled, Backed, Flagged, Ring, Bins, InPayload, Slot;
    forall x | IsFree(m, all, x) && x !in {}
      ensures SameNode(m, m', x + FREE)
    {
      ChunkBacked(m, all, x);
      PayloadApart(m, all, c, a, x);
    }
    assert FreeNodesSame(m, m', all, {});
    forall n, x
      ensures Belongs(m, all, {}, n, x) <==> Belongs(m', all, {}, n, x)
    {
      if x in all {
        ChunkBacked(m, all, x);
        PayloadApart(m, all, c, a, x);
      }
    }
    KeepBins(m, all, bins, {}, m', all, {});
  }

  /** A live payload lies outside the whole structure: writing to it keeps the heap and its tiling. */
  lemma OwnerWrite(m: Mem, all: seq<int>, bins: seq<seq<int>>, heads: seq<int>, memFree: u32, memMeta: u32, merges: nat,
                   c: int, a: int, v: int)
    requires HeapOk(m, all, bins, heads, memFree, memMeta, merges) && IsUsed(m, all, c) && InPayload(m, c, a)
    ensures HeapOk(m[a := v], all, bins, heads, memFree, memMeta, merges)
    ensures Blocks(m[a := v], all) == Blocks(m, all)
    ensures KeepsLive(m, all, m[a := v], all, c) && IsUsed(m[a := v], all, c) && m[a := v][c] == m[c]
  {
    HeapParts(m, all, bins, heads, memFree, memMeta, merges);
    ShapeParts(m, all, bins, heads, {});
    hide *;
    UsedIn(m, all, c);
    OwnerChunks(m, all, c, a, v);
    OwnerBins(m, all, bins, c, a, v);
    ShapeFrom(m[a := v], all, bins, heads, {});
    SameBlocks(m, m[a := v], all);
    HeapFrom(m[a := v], all, bins, heads, memFree, memMeta, merges);
    OwnerLive(m, all, c, a, v);
    UsedKept(m, m[a := v], all, c);
  }

  lemma UsedIn(m: Mem, all: seq<int>, c: int)
    requires IsUsed(m, all, c)
    ensures c in all
  {
  }

  lemma OwnerLive(m: Mem, all: seq<int>, c: int, a: int, v: int)
    requires Chunks(m, all) && c in all && InPayload(m, c, a)
    ensures KeepsLive(m, all, m[a := v], all, c) && m[a := v][c] == m[c]
  {
    PayloadApart(m, all, c, a, c);
    OwnerChunks(m, all, c, a, v);
    hide Chunks, InPayload;
    forall d | IsUsed(m, all, d) && d != c
      ensures IsUsed(m[a := v], all, d) && SamePayload(m, m[a := v], d)
    {
      PayloadApart(m, all, c, a, d);
    }
  }

  lemma SameBlocks(m: Mem, m': Mem, all: seq<int>)
    requires SameFlags(m, m', all)
    ensures Blocks(m', all) == Blocks(m, all)
  {
    forall i | 0 <= i < |all|
      ensures BlockAt(m', all, i) == BlockAt(m, all, i)
    {
      assert all[i] in all;
    }
    hide BlockAt;
  }
}
