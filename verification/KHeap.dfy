/**
  The kernel heap allocator: good-fit allocation from 32 size bins, splitting
  on allocation, joining with both neighbours on free, all on lists threaded
  through the memory it manages.  Memory is word-addressed by byte address; the
  one-byte used flag has a word of its own.
*/
module KHeap {
  import opened Digits
  import opened HeapLayout
  import opened IntrusiveList
  import opened HeapShape
  import opened HeapSpec
  import opened HeapFacts

  class Heap {
    var mem: Mem
    const freeChunk: array<int>
    var firstChunk: int
    var lastChunk: int
    var memFree: u32
    var memMeta: u32
    var init: bool

    ghost var all: seq<int>
    ghost var bins: seq<seq<int>>
    ghost var merges: nat

    // list primitives, statement by statement

    method ListInitNode(node: int)
      modifies this`mem
      ensures mem == ListInit(old(mem), node)
    {
      mem := mem[node := node];
      mem := mem[node + 4 := node];
    }

    method InsertBeforeNode(current: int, node: int)
      requires current + 4 in mem && node + 4 in mem
      modifies this`mem
      ensures mem == InsertBefore(old(mem), current, node)
    {
      var currentPrev, nodePrev := mem[current + 4], mem[node + 4];
      mem := mem[currentPrev := node];
      mem := mem[node + 4 := currentPrev];
      mem := mem[nodePrev := current];
      mem := mem[current + 4 := nodePrev];
    }

    method InsertAfterNode(current: int, node: int)
      requires current in mem && node + 4 in mem
      modifies this`mem
      ensures mem == InsertAfter(old(mem), current, node)
    {
      var currentNext, nodePrev := mem[current], mem[node + 4];
      mem := mem[current := node];
      mem := mem[node + 4 := current];
      mem := mem[nodePrev := currentNext];
      mem := mem[currentNext + 4 := nodePrev];
    }

    method RemoveNode(node: int)
      requires node in mem && node + 4 in mem
      modifies this`mem
      ensures mem == Remove(old(mem), node)
    {
      mem := mem[mem[node + 4] := mem[node]];
      mem := mem[mem[node] + 4 := mem[node + 4]];
      mem := mem[node := node];
      mem := mem[node + 4 := node];
    }

    method MemoryChunkSlot(size: u32) returns (n: int)
      ensures n == Slot(size)
    {
      n := -1;
      var rest: int := size;
      while rest > 0
        invariant 0 <= rest && -1 <= n && Slot(size) == n + 1 + Slot(rest)
      {
        n := n + 1;
        rest := rest / 2;
      }
    }

    /** LIST_REMOVE_FROM: unlink a chunk from a bin, moving the bin's head if it was the head. */
    method RemoveFrom(n: int, c: int, ghost out: set<int>, ghost k: int)
      requires freeChunk.Length == NUM_SIZES && ShapeOk(mem, all, bins, freeChunk[..], out)
      requires 0 <= n < NUM_SIZES && n < |bins| && 0 <= k < |bins[n]| && bins[n][k] == c
      modifies this`mem, this`bins, freeChunk
      ensures ShapeOk(mem, all, bins, freeChunk[..], out + {c})
      ensures SameBut(old(mem), mem, old(bins)[n], FREE) && Loose(mem, c)
      ensures c !in out && IsFree(mem, all, c)
    {
      hide *;
      ghost var m0, heads, bin := mem, freeChunk[..], bins[n];
      ShapeParts(mem, all, bins, heads, out);
      HeadAt(mem, all, bins, heads, out, n);
      BinsAt(mem, all, bins, out, n);
      BinRemove(mem, all, bins, out, n, k);
      RemoveHead(mem, all, bin, out, n, k);
      HeadOfSome(bin);
      var node := c + FREE;
      if freeChunk[n] == c {
        var nextTop := mem[node];
        RemoveNode(node);
        freeChunk[n] := if node == nextTop then 0 else nextTop - FREE;
      } else {
        RemoveNode(node);
      }
      bins := bins[n := Without(bin, k)];
      HeadsUpdate(heads, old(bins), n, freeChunk[n], Without(bin, k));
      assert freeChunk[..] == heads[n := freeChunk[n]];
      ShapeFrom(mem, all, bins, freeChunk[..], out + {c});
      BinOutside(m0, all, bin, out, n, c);
      FreeKept(m0, mem, all, bin, out, n, c);
    }

    /** LIST_PUSH: a lone free chunk becomes the head of its bin. */
    method PushTo(n: int, c: int, ghost out: set<int>)
      requires freeChunk.Length == NUM_SIZES && ShapeOk(mem, all, bins, freeChunk[..], out)
      requires 0 <= n < NUM_SIZES && c in out && Loose(mem, c) && Belongs(mem, all, out - {c}, n, c)
      modifies this`mem, this`bins, freeChunk
      ensures ShapeOk(mem, all, bins, freeChunk[..], out - {c}) && IsHead(freeChunk[..], c)
      ensures n < |old(bins)| && SameBut(old(mem), mem, [c] + old(bins)[n], FREE)
    {
      hide *;
      ghost var m0, heads := mem, freeChunk[..];
      ShapeParts(mem, all, bins, heads, out);
      HeadAt(mem, all, bins, heads, out, n);
      ghost var bin := bins[n];
      BinPush(mem, all, bins, out, n, c);
      PushMemCases(mem, bin, c);
      if freeChunk[n] != 0 {
        HeadOfSome(bin);
        InsertBeforeNode(freeChunk[n] + FREE, c + FREE);
      }
      freeChunk[n] := c;
      bins := bins[n := [c] + bin];
      HeadOfPush(bin, c);
      HeadsUpdate(heads, old(bins), n, c, [c] + bin);
      assert freeChunk[..] == heads[n := c];
      ShapeFrom(mem, all, bins, freeChunk[..], out - {c});
      HeadNow(freeChunk[..], n);
    }

    method MemoryChunkSize(c: int) returns (len: u32)
      requires c in mem
      ensures len == U32(Size(mem, c))
    {
      len := U32(mem[c] - c - HEADER_SIZE);
    }

    /** remove_free */
    method RemoveFree(c: int, ghost out: set<int>, ghost i: int, ghost ex: int)
      requires freeChunk.Length == NUM_SIZES && ShapeOk(mem, all, bins, freeChunk[..], out)
      requires 0 <= i < |all| - 1 && all[i] == c && IsFree(mem, all, c) && c !in out && c in mem
      modifies this`mem, this`bins, this`memFree, freeChunk
      ensures ShapeOk(mem, all, bins, freeChunk[..], out + {c})
      ensures Loose(mem, c) && IsFree(mem, all, c)
      ensures KeepsLive(old(mem), all, mem, all, ex) && SameFlags(old(mem), mem, all)
      ensures memFree == U32(old(memFree) - Size(old(mem), c))
    {
      hide *;
      ghost var m0, heads := mem, freeChunk[..];
      ShapeParts(mem, all, bins, heads, out);
      ChunkSized(mem, all, i);
      var len := MemoryChunkSize(c);
      var n := MemoryChunkSlot(len);
      SlotRange(len);
      ghost var k := FindInBin(mem, all, bins, out, n, c);
      RemoveFrom(n, c, out, k);
      ghost var bin := old(bins)[n];
      HeadAt(m0, all, old(bins), heads, out, n);
      FreeWritesLive(m0, mem, all, bin, ex);
      FreeWritesFlags(m0, mem, all, bin);
      memFree := U32(memFree - len);
    }

    /** push_free */
    method PushFree(c: int, ghost out: set<int>, ghost i: int, ghost ex: int)
      requires freeChunk.Length == NUM_SIZES && ShapeOk(mem, all, bins, freeChunk[..], out)
      requires 0 <= i < |all| - 1 && all[i] == c && IsFree(mem, all, c) && c in out && Loose(mem, c) && c in mem
      modifies this`mem, this`bins, this`memFree, freeChunk
      ensures ShapeOk(mem, all, bins, freeChunk[..], out - {c}) && IsHead(freeChunk[..], c)
      ensures KeepsLive(old(mem), all, mem, all, ex) && SameFlags(old(mem), mem, all)
      ensures memFree == U32(old(memFree) + Size(old(mem), c))
    {
      hide *;
      ghost var m0, heads := mem, freeChunk[..];
      ShapeParts(mem, all, bins, heads, out);
      ChunkSized(mem, all, i);
      var len := MemoryChunkSize(c);
      var n := MemoryChunkSlot(len);
      SlotRange(len);
      BelongsFrom(mem, all, out - {c}, n, c);
      PushTo(n, c, out);
      ghost var bin := old(bins)[n];
      HeadAt(m0, all, old(bins), heads, out, n);
      PushFrees(m0, all, bin, c);
      FreeWritesLive(m0, mem, all, [c] + bin, ex);
      FreeWritesFlags(m0, mem, all, [c] + bin);
      memFree := U32(memFree + len);
    }

    /** LIST_POP: unlink the head of a bin. */
    method PopFrom(n: int, ghost ex: int) returns (c: int, ghost i: int)
      requires freeChunk.Length == NUM_SIZES && ShapeOk(mem, all, bins, freeChunk[..], {})
      requires 0 <= n < NUM_SIZES && freeChunk[n] != 0
      modifies this`mem, this`bins, freeChunk
      ensures ShapeOk(mem, all, bins, freeChunk[..], {c})
      ensures 0 < i < |all| - 1 && all[i] == c && c in old(mem) && c in mem && mem[c] == old(mem)[c]
      ensures Loose(mem, c) && IsFree(old(mem), all, c) && IsFree(mem, all, c) && Slot(Size(old(mem), c)) == n
      ensures c == old(freeChunk[n])
      ensures KeepsLive(old(mem), all, mem, all, ex) && SameFlags(old(mem), mem, all)
    {
      hide *;
      ghost var m0, heads := mem, freeChunk[..];
      ShapeParts(mem, all, bins, heads, {});
      HeadAt(mem, all, bins, heads, {}, n);
      ghost var bin := bins[n];
      HeadOfSome(bin);
      c := freeChunk[n];
      i := PopFacts(mem, all, bins, n);
      BinsAt(mem, all, bins, {}, n);
      BinRemove(mem, all, bins, {}, n, 0);
      RemoveHead(mem, all, bin, {}, n, 0);
      var top := c + FREE;
      var nextTop := mem[top];
      RemoveNode(top);
      freeChunk[n] := if top == nextTop then 0 else nextTop - FREE;
      bins := bins[n := Without(bin, 0)];
      HeadsUpdate(heads, old(bins), n, freeChunk[n], Without(bin, 0));
      assert freeChunk[..] == heads[n := freeChunk[n]];
      assert {} + {c} == {c};
      ShapeFrom(mem, all, bins, freeChunk[..], {c});
      FreeKept(m0, mem, all, bin, {}, n, c);
      FreeWritesLive(m0, mem, all, bin, ex);
      FreeWritesFlags(m0, mem, all, bin);
      FreeWritesExtent(m0, mem, all, bin, c);
    }

    /** memory_chunk_init inside the payload of a chunk that is in no bin. */
    method InitChunk(c2: int, ghost i: int, ghost ex: int)
      requires freeChunk.Length == NUM_SIZES && 0 <= i < |all| && ShapeOk(mem, all, bins, freeChunk[..], {all[i]})
      requires Room(all, i, c2) && IsFree(mem, all, all[i]) && Loose(mem, all[i])
      modifies this`mem
      ensures ShapeOk(mem, all, bins, freeChunk[..], {all[i]})
      ensures IsFree(mem, all, all[i]) && Loose(mem, all[i])
      ensures Ring(mem, [c2], 0) && Loose(mem, c2) && c2 + USED in mem && mem[c2 + USED] == 0
      ensures KeepsLive(old(mem), all, mem, all, ex) && SameFlags(old(mem), mem, all)
    {
      hide *;
      ghost var m0, heads := mem, freeChunk[..];
      ShapeParts(mem, all, bins, heads, {all[i]});
      ChunksParts(mem, all);
      RoomBacked(mem, all, i, c2);
      ChunkInitWords(mem, c2);
      ChunkInitSteps(mem, c2);
      ListInitNode(c2);
      mem := mem[c2 + USED := 0];
      ListInitNode(c2 + FREE);
      Inner(m0, mem, all, bins, {all[i]}, i, c2);
      InnerLive(m0, mem, all, i, c2, ex);
      InnerFlags(m0, mem, all, i, c2);
      OutsideHeader(m0, mem, all, i, c2, all[i]);
      LooseSame(m0, mem, all[i]);
      SameFree(m0, mem, all, all[i]);
      ShapeFrom(mem, all, bins, heads, {all[i]});
    }

    /** Linking the new chunk behind the one it was carved from. */
    method LinkChunk(c: int, c2: int, ghost i: int, ghost ex: int)
      requires freeChunk.Length == NUM_SIZES && 0 <= i < |all| && all[i] == c
      requires ShapeOk(mem, all, bins, freeChunk[..], {c}) && Room(all, i, c2) && IsFree(mem, all, c) && Loose(mem, c)
      requires Ring(mem, [c2], 0) && Loose(mem, c2) && c2 + USED in mem && mem[c2 + USED] == 0
      requires c in mem && c2 + 4 in mem
      modifies this`mem, this`all
      ensures all == Inserted(old(all), i + 1, c2)
      ensures ShapeOk(mem, all, bins, freeChunk[..], {c, c2})
      ensures IsFree(mem, all, c) && Loose(mem, c) && IsFree(mem, all, c2) && Loose(mem, c2)
      ensures KeepsLive(old(mem), old(all), mem, all, ex) && SameFlags(old(mem), mem, old(all))
    {
      hide *;
      ghost var m0, all0, heads := mem, all, freeChunk[..];
      ShapeParts(mem, all, bins, heads, {c});
      Split(mem, all, bins, {c}, i, c2);
      InsertAfterNode(c, c2);
      all := Inserted(all0, i + 1, c2);
      assert {c} + {c2} == {c, c2};
      ChunksParts(mem, all);
      ChunksParts(m0, all0);
      SplitLive(m0, mem, all0, i, c2, ex);
      InsertedMembers(all0, i + 1, c2, c);
      InsertedMembers(all0, i + 1, c2, c2);
      HeaderWritesLoose(m0, mem, all, c);
      HeaderWritesLoose(m0, mem, all, c2);
      SplitFlags(m0, mem, all0, i, c2);
      HeaderWritesFlag(m0, mem, all, c2);
      SameFree(m0, mem, all0, c);
      FreeIn(mem, all0, all, c);
      FreeFrom(mem, all, c2);
      ShapeFrom(mem, all, bins, heads, {c, c2});
    }

    /** The new chunk goes into the bin of its size; c stays out. */
    method BinSplit(c: int, c2: int, ghost i: int, ghost ex: int) returns (len: u32)
      requires freeChunk.Length == NUM_SIZES && ShapeOk(mem, all, bins, freeChunk[..], {c, c2}) && c != c2
      requires IsFree(mem, all, c) && Loose(mem, c) && IsFree(mem, all, c2) && Loose(mem, c2)
      requires 0 <= i < |all| - 1 && all[i] == c2
      modifies this`mem, this`bins, freeChunk
      ensures ShapeOk(mem, all, bins, freeChunk[..], {c})
      ensures IsFree(mem, all, c) && Loose(mem, c)
      ensures KeepsLive(old(mem), all, mem, all, ex) && SameFlags(old(mem), mem, all)
      ensures c2 in old(mem) && len == Size(old(mem), c2)
    {
      hide *;
      ghost var m0, heads := mem, freeChunk[..];
      ShapeParts(mem, all, bins, heads, {c, c2});
      ChunkSized(mem, all, i);
      len := MemoryChunkSize(c2);
      var n := MemoryChunkSlot(len);
      SlotRange(len);
      assert {c, c2} - {c2} == {c};
      BelongsFrom(mem, all, {c}, n, c2);
      PushTo(n, c2, {c, c2});
      ghost var bin := old(bins)[n];
      HeadAt(m0, all, old(bins), heads, {c, c2}, n);
      BinsAt(m0, all, old(bins), {c, c2}, n);
      OutNotIn(m0, all, bin, {c, c2}, n, c);
      PushFrees(m0, all, bin, c2);
      FreeWritesLive(m0, mem, all, [c2] + bin, ex);
      FreeWritesFlags(m0, mem, all, [c2] + bin);
      SameFree(m0, mem, all, c);
      LooseKept(m0, mem, all, [c2] + bin, c);
    }

    /** The splitting branch of kmalloc: what is left behind the request becomes a free chunk. */
    method SplitChunk(c: int, size: int, ghost i: int, ghost ex: int)
      requires freeChunk.Length == NUM_SIZES && ShapeOk(mem, all, bins, freeChunk[..], {c})
      requires 0 <= i < |all| - 1 && all[i] == c && IsFree(mem, all, c) && Loose(mem, c) && c in mem
      requires 8 <= size && size % 4 == 0 && size + CHUNK_SIZE <= Size(mem, c)
      modifies this`mem, this`all, this`bins, freeChunk, this`memFree, this`memMeta
      ensures all == Inserted(old(all), i + 1, c + HEADER_SIZE + size)
      ensures ShapeOk(mem, all, bins, freeChunk[..], {c})
      ensures IsFree(mem, all, c) && Loose(mem, c) && IsFree(mem, all, c + HEADER_SIZE + size)
      ensures KeepsLive(old(mem), old(all), mem, all, ex) && SameFlags(old(mem), mem, old(all))
      ensures memMeta == U32(old(memMeta) + HEADER_SIZE)
      ensures memFree == U32(old(memFree) + (Size(old(mem), c) - size - HEADER_SIZE))
    {
      hide *;
      ghost var m0, all0 := mem, all;
      var c2 := c + HEADER_SIZE + size;
      ShapeParts(mem, all, bins, freeChunk[..], {c});
      SplitRoom(mem, all, i, size);
      InitChunk(c2, i, ex);
      ghost var m1 := mem;
      ShapeParts(mem, all, bins, freeChunk[..], {c});
      SplitBacked(mem, all, i, c2);
      LinkChunk(c, c2, i, ex);
      ghost var m2 := mem;
      RoomIndex(all0, i, c2);
      InsertedNext(all0, i, c2);
      ShapeParts(mem, all, bins, freeChunk[..], {c, c2});
      var len := BinSplit(c, c2, i + 1, ex);
      SplitSize(m0, all0, m2, all, i, size);
      memMeta := U32(memMeta + HEADER_SIZE);
      memFree := U32(memFree + len);
      KeepsLiveTrans(m0, all0, m1, all0, m2, all, ex);
      KeepsLiveTrans(m0, all0, m2, all, mem, all, ex);
      SameFlagsTrans(m0, m1, m2, all0);
      SameFlagsWithin(m2, mem, all, all0, i, c2);
      SameFlagsTrans(m0, m2, mem, all0);
      SameFree(m2, mem, all, c2);
    }

    /** kfree, first part: the free chunk behind is taken out of its bin and off the ring. */
    method JoinNext(c: int, next: int, ghost i: int)
      requires freeChunk.Length == NUM_SIZES && ShapeOk(mem, all, bins, freeChunk[..], {})
      requires 0 < i && i + 1 < |all| - 1 && all[i] == c && all[i + 1] == next
      requires IsUsed(mem, all, c) && IsFree(mem, all, next) && next in mem && c in mem
      modifies this`mem, this`all, this`bins, freeChunk, this`memFree, this`memMeta
      ensures all == Without(old(all), i + 1)
      ensures ShapeOk(mem, all, bins, freeChunk[..], {})
      ensures KeepsLive(old(mem), old(all), mem, all, c) && SameFlags(old(mem), mem, all)
      ensures memMeta == U32(old(memMeta) - HEADER_SIZE)
      ensures memFree == U32(U32(old(memFree) - Size(old(mem), next)) + HEADER_SIZE)
    {
      hide *;
      ghost var m0, all0 := mem, all;
      EmptySets(next);
      RemoveFree(next, {}, i + 1, c);
      ghost var m1, heads := mem, freeChunk[..];
      ShapeParts(mem, all, bins, heads, {next});
      UsedKept(m0, mem, all, c);
      Merge(mem, all, bins, {next}, i + 1);
      RemoveNode(next);
      all := Without(all0, i + 1);
      FreeNotUsed(m1, all0, next);
      MergeLive(m1, mem, all0, i + 1, c);
      MergeFlags(m1, mem, all0, i + 1);
      ShapeFrom(mem, all, bins, heads, {});
      KeepsLiveTrans(m0, all0, m1, all0, mem, all, c);
      SameFlagsLess(m0, m1, all0, i + 1);
      SameFlagsTrans(m0, m1, mem, all);
      memMeta := U32(memMeta - HEADER_SIZE);
      memFree := U32(memFree + HEADER_SIZE);
    }

    /** kfree, second part, when the chunk in front is free: it swallows the freed one. */
    method JoinPrev(c: int, prev: int, ghost i: int)
      requires freeChunk.Length == NUM_SIZES && ShapeOk(mem, all, bins, freeChunk[..], {})
      requires 0 < i - 1 && i < |all| - 1 && all[i] == c && all[i - 1] == prev
      requires IsUsed(mem, all, c) && IsFree(mem, all, prev) && prev in mem && c in mem && c + 4 in mem
      modifies this`mem, this`all, this`bins, freeChunk, this`memFree, this`memMeta
      ensures all == Without(old(all), i)
      ensures ShapeOk(mem, all, bins, freeChunk[..], {}) && IsFree(mem, all, prev) && IsHead(freeChunk[..], prev)
      ensures KeepsLive(old(mem), old(all), mem, all, c) && SameFlags(old(mem), mem, all)
      ensures memMeta == U32(old(memMeta) - HEADER_SIZE)
      ensures var joined := Size(old(mem), prev) + HEADER_SIZE + Size(old(mem), c);
              memFree == U32(U32(U32(old(memFree) - Size(old(mem), prev)) + joined) + HEADER_SIZE)
    {
      hide *;
      ghost var m0, all0 := mem, all;
      ShapeParts(mem, all, bins, freeChunk[..], {});
      EmptySets(prev);
      RemoveFree(prev, {}, i - 1, c);
      ghost var m1, heads := mem, freeChunk[..];
      ShapeParts(mem, all, bins, heads, {prev});
      UsedKept(m0, mem, all, c);
      MergeApart(all0, i);
      Merge(mem, all, bins, {prev}, i);
      RemoveNode(c);
      all := Without(all0, i);
      FreeNotUsed(m1, all0, prev);
      MergeLive(m1, mem, all0, i, c);
      MergeFlags(m1, mem, all0, i);
      ShapeFrom(mem, all, bins, heads, {prev});
      ghost var m2 := mem;
      MergeKeeps(m1, m2, all0, i);
      PushFree(prev, {prev}, i - 1, c);
      MergeSize(m0, all0, m2, all, i);
      KeepsLiveTrans(m0, all0, m1, all0, m2, all, c);
      KeepsLiveTrans(m0, all0, m2, all, mem, all, c);
      SameFlagsLess(m0, m1, all0, i);
      SameFlagsTrans(m0, m1, m2, all);
      SameFlagsTrans(m0, m2, mem, all);
      SameFree(m2, mem, all, prev);
      memMeta := U32(memMeta - HEADER_SIZE);
      memFree := U32(memFree + HEADER_SIZE);
    }

    /** kfree, second part, otherwise: the chunk itself becomes free. */
    method Release(c: int, ghost i: int)
      requires freeChunk.Length == NUM_SIZES && ShapeOk(mem, all, bins, freeChunk[..], {})
      requires 0 < i < |all| - 1 && all[i] == c && IsUsed(mem, all, c) && c in mem
      modifies this`mem, this`bins, freeChunk, this`memFree
      ensures ShapeOk(mem, all, bins, freeChunk[..], {}) && IsFree(mem, all, c) && IsHead(freeChunk[..], c)
      ensures KeepsLive(old(mem), all, mem, all, c) && FlagsBut(old(mem), mem, all, c)
      ensures memFree == U32(old(memFree) + Size(old(mem), c))
    {
      hide *;
      ghost var m0, heads := mem, freeChunk[..];
      ShapeParts(mem, all, bins, heads, {});
      InnerChunk(mem, all, i);
      SetFlag(mem, all, bins, {}, c, 0, {c});
      FlagLive(mem, all, c, 0, c);
      mem := mem[c + USED := 0];
      ghost var m1 := mem;
      InitFree(mem, all, bins, {c}, c);
      ListInitNode(c + FREE);
      ghost var m2 := mem;
      FlagSteps(m0, m1, m2, all, c);
      FreeWritesLive(m1, m2, all, [c], c);
      ShapeFrom(mem, all, bins, heads, {c});
      PushFree(c, {c}, i, c);
      KeepsLiveTrans(m0, all, m1, all, m2, all, c);
      KeepsLiveTrans(m0, all, m2, all, mem, all, c);
      FlagsButTrans(m0, m2, mem, all, c);
      SameFree(m2, mem, all, c);
    }

    // the interface

    ghost predicate Valid()
      reads this, freeChunk
    {
      && freeChunk.Length == NUM_SIZES
      && (!init ==> forall n :: 0 <= n < NUM_SIZES ==> freeChunk[n] == 0)
      && (init ==>
            && HeapOk(mem, all, bins, freeChunk[..], memFree, memMeta, merges)
            && |all| > 0 && firstChunk == all[0] && lastChunk == all[|all| - 1])
    }

    /** The blocks the heap is divided into. */
    ghost function Tiles(): Tiling
      reads this
    {
      Blocks(mem, all)
    }

    constructor (memory: Mem)
      ensures Valid() && !init && mem == memory && fresh(freeChunk)
    {
      mem := memory;
      freeChunk := new int[NUM_SIZES](_ => 0);
      firstChunk, lastChunk, memFree, memMeta, init := 0, 0, 0, 0, false;
    }

    method MemoryChunkInit(c: int)
      modifies this`mem
      ensures mem == ChunkInit(old(mem), c)
    {
      hide *;
      ChunkInitSteps(mem, c);
      ListInitNode(c);
      mem := mem[c + USED := 0];
      ListInitNode(c + FREE);
    }

    /** The part of kheap_init that lays out two sentinels around one chunk. */
    method LayOut()
      requires freeChunk.Length == NUM_SIZES && forall n :: 0 <= n < NUM_SIZES ==> freeChunk[n] == 0
      requires LayoutRoom(mem, firstChunk, lastChunk)
      modifies this`mem, this`all, this`bins
      ensures all == [firstChunk, firstChunk + CHUNK_SIZE, lastChunk]
      ensures ShapeOk(mem, all, bins, freeChunk[..], {firstChunk + CHUNK_SIZE})
      ensures IsFree(mem, all, firstChunk + CHUNK_SIZE) && Loose(mem, firstChunk + CHUNK_SIZE)
      ensures Blocks(mem, all) == FirstTiling(firstChunk, lastChunk)
    {
      hide ChunkInit, InsertAfter, ShapeOk, Blocks, IsFree, Loose, FirstTiling;
      var second := firstChunk + CHUNK_SIZE;
      LayoutLinks(mem, firstChunk, lastChunk);
      MemoryChunkInit(firstChunk);
      MemoryChunkInit(second);
      MemoryChunkInit(lastChunk);
      InsertAfterNode(firstChunk, second);
      InsertAfterNode(second, lastChunk);
      mem := mem[firstChunk + USED := 1];
      mem := mem[lastChunk + USED := 1];
      all := [firstChunk, second, lastChunk];
      bins := seq(NUM_SIZES, _ => []);
      LayoutShape(old(mem), firstChunk, lastChunk, bins, freeChunk[..]);
    }

    /** kheap_init, over the memory from base on. */
    method KheapInit(base: u32, size: u32)
      requires Valid() && !init && base > 0 && base + size < 0x1_0000_0000
      requires LayoutRoom(mem, AlignUp(base), AlignDown(base + size) - CHUNK_SIZE)
      modifies this, freeChunk
      ensures Valid() && init && merges == 0
      ensures firstChunk == AlignUp(base) && lastChunk == AlignDown(base + size) - CHUNK_SIZE
      ensures Tiles() == FirstTiling(firstChunk, lastChunk)
      ensures memFree == Tiles()[1].size && memMeta == 2 * CHUNK_SIZE + HEADER_SIZE
    {
      hide ShapeOk, Blocks, IsFree, Loose, LayoutRoom, HeapOk, Chunks;
      firstChunk := AlignUp(base);
      lastChunk := AlignDown(base + size) - CHUNK_SIZE;
      LayOut();
      memFree := PushFirst(firstChunk + CHUNK_SIZE);
      memMeta := 2 * CHUNK_SIZE + HEADER_SIZE;
      merges := 0;
      init := true;
      FirstOk(mem, all, bins, freeChunk[..], firstChunk, lastChunk);
    }

    /** The chunk between the sentinels goes to its bin. */
    method PushFirst(second: int) returns (len: u32)
      requires freeChunk.Length == NUM_SIZES && all == [firstChunk, second, lastChunk]
      requires second == firstChunk + CHUNK_SIZE && ShapeOk(mem, all, bins, freeChunk[..], {second})
      requires IsFree(mem, all, second) && Loose(mem, second)
      modifies this`mem, this`bins, freeChunk
      ensures ShapeOk(mem, all, bins, freeChunk[..], {}) && Blocks(mem, all) == old(Blocks(mem, all))
      ensures len == lastChunk - second - HEADER_SIZE
    {
      hide ShapeOk, Blocks, IsFree, Loose, Chunks;
      ghost var m0 := mem;
      ShapeParts(mem, all, bins, freeChunk[..], {second});
      FirstSize(mem, firstChunk, lastChunk);
      len := MemoryChunkSize(second);
      var n := MemoryChunkSlot(len);
      SlotRange(len);
      EmptySets(second);
      BelongsFrom(mem, all, {}, n, second);
      ghost var bin := bins[n];
      HeadAt(m0, all, bins, freeChunk[..], {second}, n);
      PushTo(n, second, {second});
      PushFrees(m0, all, bin, second);
      FreeWritesFlags(m0, mem, all, [second] + bin);
      SameBlocks(m0, mem, all);
    }

    /** The search of kmalloc for a non-empty bin. */
    method FindBin(size: u32) returns (found: bool, n: int)
      requires freeChunk.Length == NUM_SIZES && 1 < size
      ensures found ==> Slot(size - 1) + 1 <= n < NUM_SIZES && freeChunk[n] != 0
      ensures found ==> forall k :: 0 <= k < n && Slot(size - 1) + 1 <= k ==> freeChunk[k] == 0
      ensures !found ==> forall k :: 0 <= k < NUM_SIZES && Slot(size - 1) + 1 <= k ==> freeChunk[k] == 0
    {
      n := MemoryChunkSlot(size - 1);
      n := n + 1;
      if n >= NUM_SIZES {
        return false, n;
      }
      while freeChunk[n] == 0
        invariant Slot(size - 1) + 1 <= n < NUM_SIZES
        invariant forall k :: 0 <= k < n && Slot(size - 1) + 1 <= k ==> freeChunk[k] == 0
        decreases NUM_SIZES - n
      {
        n := n + 1;
        if n >= NUM_SIZES {
          return false, n;
        }
      }
      found := true;
    }

    /** The end of kmalloc: the chunk is marked used, and its data pointer is read through the union. */
    method HandOut(c: int, ghost i: int) returns (ptr: int)
      requires freeChunk.Length == NUM_SIZES && ShapeOk(mem, all, bins, freeChunk[..], {c})
      requires 0 <= i < |all| && all[i] == c && Loose(mem, c)
      modifies this`mem
      ensures mem == old(mem)[c + USED := 1]
      ensures ShapeOk(mem, all, bins, freeChunk[..], {})
      ensures KeepsLive(old(mem), all, mem, all, 0)
      ensures ptr == c + FREE
    {
      hide *;
      ghost var m0, heads := mem, freeChunk[..];
      ShapeParts(mem, all, bins, heads, {c});
      EmptySets(c);
      SetFlag(mem, all, bins, {c}, c, 1, {});
      FlagLive(mem, all, c, 1, 0);
      DataPointer(mem, c);
      mem := mem[c + USED := 1];
      ShapeFrom(mem, all, bins, heads, {});
      ptr := mem[c + FREE];
    }

    /** kmalloc after the search: pop a chunk, split it if worth while, hand it out. */
    method Take(size: u32, n: int) returns (ptr: int, ghost i: int)
      requires Valid() && init && 8 <= size && size % 4 == 0
      requires Slot(size - 1) + 1 <= n < NUM_SIZES && freeChunk[n] != 0
      modifies this`mem, this`all, this`bins, freeChunk, this`memFree, this`memMeta
      ensures Valid() && ptr != 0
      ensures 0 < i < |old(Tiles())| - 1 && !old(Tiles())[i].used && size <= old(Tiles())[i].size
      ensures ptr == old(Tiles())[i].addr + HEADER_SIZE && Tiles() == Alloc(old(Tiles()), i, size)
      ensures Slot(old(Tiles())[i].size) == n && ptr == old(freeChunk[n]) + HEADER_SIZE
      ensures KeepsLive(old(mem), old(all), mem, all, 0)
    {
      hide HeapOk, ShapeOk, Blocks, Alloc, Chunks, WellTiled, Accounts, Loose, IsFree, KeepsLive, SameFlags, Slot, Size;
      hide Inserted, Bins, HeadsOk, FlagsBut, U32;
      ghost var m0, all0, f0, u0 := mem, all, memFree, memMeta;
      HeapParts(mem, all, bins, freeChunk[..], memFree, memMeta, merges);
      ShapeParts(mem, all, bins, freeChunk[..], {});
      var c;
      c, i := PopFrom(n, 0);
      ghost var m1 := mem;
      PoppedBlock(m0, all, m1, i, size, n);
      var size2 := MemoryChunkSize(c);
      var split := U32(size + CHUNK_SIZE) <= size2;
      if split {
        SplitChunk(c, size, i, 0);
        KeepsLiveTrans(m0, all0, m1, all0, mem, all, 0);
        SameFlagsTrans(m0, m1, mem, all0);
        InsertedKeeps(all0, i, c + HEADER_SIZE + size);
      }
      ghost var m2 := mem;
      ptr := HandOut(c, i);
      memFree := U32(memFree - size2);
      KeepsLiveTrans(m0, all0, m2, all, mem, all, 0);
      if split {
        FinishSplit(m0, all0, m2, all, bins, freeChunk[..], i, size, f0, u0, merges);
      } else {
        FinishWhole(m0, all0, m2, bins, freeChunk[..], i, size, f0, u0, merges);
      }
    }

    /**
      kmalloc.  A null result changes nothing; otherwise one free block was
      carved for the rounded request, and every live payload is untouched.
    */
    method Kmalloc(size: u32) returns (ptr: int, ghost i: int)
      requires Valid()
      modifies this`mem, this`all, this`bins, freeChunk, this`memFree, this`memMeta
      ensures Valid()
      ensures !init || size == 0 ==> ptr == 0
      ensures ptr == 0 ==>
                mem == old(mem) && all == old(all) && bins == old(bins) && freeChunk[..] == old(freeChunk[..])
      ensures ptr == 0 ==> memFree == old(memFree) && memMeta == old(memMeta)
      ensures ptr == 0 && init && size != 0 ==>
                forall j :: 0 <= j < |Tiles()| && !Tiles()[j].used ==>
                  Tiles()[j].size < Pow2(Slot(Rounded(size) - 1) + 1) < 2 * Rounded(size)
      ensures ptr != 0 ==>
                && 0 < i < |old(Tiles())| - 1 && !old(Tiles())[i].used && Rounded(size) <= old(Tiles())[i].size
                && ptr == old(Tiles())[i].addr + HEADER_SIZE && Tiles() == Alloc(old(Tiles()), i, Rounded(size))
      ensures ptr != 0 ==>
                forall j :: 0 <= j < |old(Tiles())| && !old(Tiles())[j].used ==>
                  InLowerBins(old(Tiles())[j].size, Rounded(size))
                    || Slot(old(Tiles())[i].size) <= Slot(old(Tiles())[j].size)
      ensures ptr != 0 ==>
                exists n :: Slot(Rounded(size) - 1) + 1 <= n < NUM_SIZES && ptr == old(freeChunk[n]) + HEADER_SIZE
                  && forall k :: Slot(Rounded(size) - 1) + 1 <= k < n ==> k >= 0 && old(freeChunk[k]) == 0
      ensures ptr != 0 ==> init && KeepsLive(old(mem), old(all), mem, all, 0)
    {
      hide HeapOk, ShapeOk, Blocks, Alloc, Slot, KeepsLive, Pow2, U32, Rounded;
      i := 0;
      if !init || size == 0 {
        return 0, i;
      }
      var rounded := U32(size + ALIGN - 1) / ALIGN * ALIGN;
      if rounded < MIN_SIZE {
        rounded := MIN_SIZE;
      }
      RoundedSteps(size);
      RoundedCovers(size);
      var found, n := FindBin(rounded);
      if !found {
        NullReason(mem, all, bins, freeChunk[..], rounded, memFree, memMeta, merges);
        return 0, i;
      }
      LowestBin(mem, all, bins, freeChunk[..], rounded, n, memFree, memMeta, merges);
      ptr, i := Take(rounded, n);
    }

    /** kfree, first part: the next chunk is joined if it is free. */
    method JoinNextIfFree(c: int, next: int, ghost i: int) returns (joined: bool)
      requires freeChunk.Length == NUM_SIZES && ShapeOk(mem, all, bins, freeChunk[..], {})
      requires 0 < i < |all| - 1 && all[i] == c && all[i + 1] == next && IsUsed(mem, all, c)
      requires next + USED in mem && c in mem && next in mem
      modifies this`mem, this`all, this`bins, freeChunk, this`memFree, this`memMeta
      ensures joined == (old(mem)[next + USED] == 0)
      ensures all == RingAfter(old(all), i, joined, false)
      ensures ShapeOk(mem, all, bins, freeChunk[..], {})
      ensures KeepsLive(old(mem), old(all), mem, all, c) && SameFlags(old(mem), mem, all)
      ensures memMeta == MetaAfter(old(memMeta), joined, false)
      ensures memFree == if joined then U32(U32(old(memFree) - Size(old(mem), next)) + HEADER_SIZE) else old(memFree)
    {
      hide ShapeOk, KeepsLive, SameFlags, IsUsed, IsFree, U32, Without, Size;
      ShapeParts(mem, all, bins, freeChunk[..], {});
      joined := mem[next + USED] == 0;
      if joined {
        NextFree(mem, all, i);
        JoinNext(c, next, i);
      } else {
        SameFlagsSelf(mem, all);
        KeepsLiveSelf(mem, all, c);
      }
    }

    /** kfree, second part: the chunk goes into the one in front if that is free, and becomes free itself otherwise. */
    method JoinPrevOrRelease(c: int, prev: int, ghost i: int) returns (joined: bool)
      requires freeChunk.Length == NUM_SIZES && ShapeOk(mem, all, bins, freeChunk[..], {})
      requires 0 < i < |all| - 1 && all[i] == c && all[i - 1] == prev && IsUsed(mem, all, c)
      requires prev + USED in mem && c in mem && c + 4 in mem && prev in mem
      modifies this`mem, this`all, this`bins, freeChunk, this`memFree, this`memMeta
      ensures joined == (old(mem)[prev + USED] == 0)
      ensures all == if joined then Without(old(all), i) else old(all)
      ensures ShapeOk(mem, all, bins, freeChunk[..], {})
      ensures var head := if joined then prev else c;
              IsFree(mem, all, head) && FlagsBut(old(mem), mem, all, head) && IsHead(freeChunk[..], head)
      ensures KeepsLive(old(mem), old(all), mem, all, c)
      ensures memMeta == if joined then U32(old(memMeta) - HEADER_SIZE) else old(memMeta)
      ensures var size, prevSize := Size(old(mem), c), Size(old(mem), prev);
              memFree == if joined
                         then U32(U32(U32(old(memFree) - prevSize) + (prevSize + HEADER_SIZE + size)) + HEADER_SIZE)
                         else U32(old(memFree) + size)
    {
      hide ShapeOk, KeepsLive, SameFlags, IsUsed, IsFree, U32, Without, Size, FlagsBut;
      ShapeParts(mem, all, bins, freeChunk[..], {});
      ghost var m0 := mem;
      joined := mem[prev + USED] == 0;
      if joined {
        PrevFree(mem, all, i);
        JoinPrev(c, prev, i);
        SameFlagsBut(m0, mem, all, prev);
      } else {
        Release(c, i);
      }
    }

    /**
      kfree.  A live allocation becomes one free block together with its free
      neighbours, and every other live payload is untouched.
    */
    method Kfree(ptr: int, ghost i: int)
      requires Valid()
      requires init && ptr != 0 ==> 0 < i < |Tiles()| - 1 && Tiles()[i].used && ptr == Tiles()[i].addr + HEADER_SIZE
      modifies this`mem, this`all, this`bins, freeChunk, this`memFree, this`memMeta, this`merges
      ensures Valid()
      ensures !init || ptr == 0 ==>
                && mem == old(mem) && all == old(all) && bins == old(bins) && freeChunk[..] == old(freeChunk[..])
                && memFree == old(memFree) && memMeta == old(memMeta) && merges == old(merges)
      ensures init && ptr != 0 ==>
                && To(old(Tiles()), i) < |old(Tiles())| && Tiles() == Free(old(Tiles()), i)
                && merges == old(merges) + Merges(old(Tiles()), i)
                && IsHead(freeChunk[..], old(Tiles())[From(old(Tiles()), i)].addr)
      ensures init && ptr != 0 ==> KeepsLive(old(mem), old(all), mem, all, ptr - HEADER_SIZE)
    {
      hide HeapOk, ShapeOk, Blocks, Free, To, From, WellTiled, Accounts, KeepsLive, SameFlags, IsUsed, IsFree, U32,
           Size, FlagsBut, Chunks, Without, Merges, FreeAfter, MetaAfter, RingAfter;
      if !init || ptr == 0 {
        return;
      }
      ghost var m0, all0, t, f0, u0 := mem, all, Tiles(), memFree, memMeta;
      HeapParts(mem, all, bins, freeChunk[..], memFree, memMeta, merges);
      ShapeParts(mem, all, bins, freeChunk[..], {});
      var chunk := ptr - HEADER_SIZE;
      FreedChunk(mem, all, i);
      var next, prev := mem[chunk], mem[chunk + 4];
      var joinedNext := JoinNextIfFree(chunk, next, i);
      ghost var m1, all1 := mem, all;
      ShapeParts(mem, all, bins, freeChunk[..], {});
      BetweenJoins(m0, all0, m1, all1, i, joinedNext);
      var joinedPrev := JoinPrevOrRelease(chunk, prev, i);
      ShapeParts(mem, all, bins, freeChunk[..], {});
      KeepsLiveTrans(m0, all0, m1, all1, mem, all, chunk);
      RingAfterEnds(all0, i, joinedNext, joinedPrev);
      JoinedFlags(m0, all1, m1, all, mem, i, RunHead(all0, i, joinedPrev), joinedPrev);
      JoinedCounts(f0, u0, t[i].size, t[i + 1].size, t[i - 1].size, joinedNext, joinedPrev);
      merges := merges + Merges(t, i);
      RunHeadTile(m0, all0, i, t, joinedPrev);
      FinishFree(m0, all0, mem, all, bins, freeChunk[..], i, f0, u0, old(merges), t, joinedNext, joinedPrev);
    }

    /** An owner writes a word of its allocation. */
    method WriteWord(ptr: int, offset: int, value: int, ghost i: int)
      requires Valid() && init && 0 < i < |Tiles()| - 1 && Tiles()[i].used && ptr == Tiles()[i].addr + HEADER_SIZE
      requires 0 <= offset < Tiles()[i].size && offset % 4 == 0
      modifies this`mem
      ensures Valid() && Tiles() == old(Tiles()) && mem == old(mem)[ptr + offset := value]
      ensures KeepsLive(old(mem), all, mem, all, ptr - HEADER_SIZE)
    {
      hide HeapOk, ShapeOk, Chunks, Blocks, KeepsLive, IsUsed, InPayload;
      HeapParts(mem, all, bins, freeChunk[..], memFree, memMeta, merges);
      ShapeParts(mem, all, bins, freeChunk[..], {});
      PayloadWord(mem, all, i, offset);
      OwnerWrite(mem, all, bins, freeChunk[..], memFree, memMeta, merges, ptr - HEADER_SIZE, ptr + offset, value);
      mem := mem[ptr + offset := value];
    }
  }

  /**
    Allocating, writing to the allocation and freeing it again restores the
    exact tiling, hence the set of free chunks; only the free counter moves, by
    one header per join.  Each write names a word of the payload and a value.
  */
  method AllocateUseFree(heap: Heap, size: u32, writes: seq<(nat, int)>) returns (ptr: int)
    requires heap.Valid()
    modifies heap, heap.freeChunk
    ensures heap.Valid() && heap.Tiles() == old(heap.Tiles())
    ensures ptr != 0 ==> forall c :: c in old(heap.all) && IsUsed(old(heap.mem), old(heap.all), c) ==>
              IsUsed(heap.mem, heap.all, c) && SamePayload(old(heap.mem), heap.mem, c)
  {
    hide HeapOk, ShapeOk, Chunks, Blocks, Alloc, Free, To, WellTiled, SamePayload, IsUsed, Merges, KeepsLive, Rounded;
    hide Slot, Pow2, InLowerBins, IsHead, From;
    ghost var m0, all0, t := heap.mem, heap.all, heap.Tiles();
    if heap.init {
      HeapParts(heap.mem, heap.all, heap.bins, heap.freeChunk[..], heap.memFree, heap.memMeta, heap.merges);
      ShapeParts(heap.mem, heap.all, heap.bins, heap.freeChunk[..], {});
    }
    ghost var i;
    ptr, i := heap.Kmalloc(size);
    if ptr != 0 {
      RoundedCovers(size);
      RoundTrip(t, i, Rounded(size));
      AllocServes(t, i, Rounded(size));
      ghost var m1, all1, t1 := heap.mem, heap.all, heap.Tiles();
      KeepsSelf(heap);
      for k := 0 to |writes|
        invariant heap.Valid() && heap.init && heap.all == all1 && heap.Tiles() == t1
        invariant KeepsLive(m1, all1, heap.mem, all1, ptr - HEADER_SIZE)
      {
        if 4 * writes[k].0 < Rounded(size) {
          ghost var m := heap.mem;
          heap.WriteWord(ptr, 4 * writes[k].0, writes[k].1, i);
          KeepsLiveTrans(m1, all1, m, all1, heap.mem, all1, ptr - HEADER_SIZE);
        }
      }
      ghost var m2 := heap.mem;
      heap.Kfree(ptr, i);
      KeepsLiveTrans(m1, all1, m2, all1, heap.mem, heap.all, ptr - HEADER_SIZE);
      LiveAcross(m0, all0, m1, all1, heap.mem, heap.all, i, ptr - HEADER_SIZE);
    }
  }

  lemma KeepsSelf(heap: Heap)
    requires heap.Valid() && heap.init
    ensures forall c :: KeepsLive(heap.mem, heap.all, heap.mem, heap.all, c)
  {
    HeapParts(heap.mem, heap.all, heap.bins, heap.freeChunk[..], heap.memFree, heap.memMeta, heap.merges);
    ShapeParts(heap.mem, heap.all, heap.bins, heap.freeChunk[..], {});
    ChunksParts(heap.mem, heap.all);
    hide HeapOk, ShapeOk, Chunks, Tiled, Backed, Flagged, Ring, KeepsLive;
    forall c | c in heap.all
      ensures c in heap.mem
    {
      ChunkBacked(heap.mem, heap.all, c);
    }
    forall c
      ensures KeepsLive(heap.mem, heap.all, heap.mem, heap.all, c)
    {
      KeepsLiveSelf(heap.mem, heap.all, c);
    }
  }

  lemma LiveAcross(m0: Mem, all0: seq<int>, m1: Mem, all1: seq<int>, m2: Mem, all2: seq<int>, i: int, c: int)
    requires Chunks(m0, all0) && 0 <= i < |all0| && all0[i] == c && !Blocks(m0, all0)[i].used
    requires KeepsLive(m0, all0, m1, all1, 0)
    requires KeepsLive(m1, all1, m2, all2, c)
    ensures forall x :: x in all0 && IsUsed(m0, all0, x) ==> IsUsed(m2, all2, x) && SamePayload(m0, m2, x)
  {
    ChunksParts(m0, all0);
    BlockUsed(m0, all0, i);
    FreeNotUsed(m0, all0, c);
    forall x | x in all0 && IsUsed(m0, all0, x)
      ensures x != 0 && x != c
    {
      ChunkBounds(all0, x);
    }
    hide Chunks, Tiled, Backed, Flagged, Ring, Blocks, IsUsed;
    forall x | x in all0 && IsUsed(m0, all0, x)
      ensures IsUsed(m2, all2, x) && SamePayload(m0, m2, x)
    {
      assert IsUsed(m1, all1, x) && SamePayload(m0, m1, x) && SamePayload(m1, m2, x);
    }
  }

  /** The block handed out is in use, starts where the free one started and holds the rounded request. */
  lemma AllocServes(t: Tiling, i: int, size: int)
    requires 0 <= i < |t| && size <= t[i].size
    ensures var t' := Alloc(t, i, size);
            |t'| >= |t| && t'[i].used && t'[i].addr == t[i].addr && size <= t'[i].size < size + CHUNK_SIZE
  {
  }

  lemma RoundedSteps(size: u32)
    ensures var r := U32(size + ALIGN - 1) / ALIGN * ALIGN;
            Rounded(size) == if r < MIN_SIZE then MIN_SIZE else r
  {
  }

  /** The free block is in a bin below those that a request searches. */
  predicate InLowerBins(block: int, request: int) {
    Slot(block) <= Slot(request - 1)
  }

  /** With every searched bin below n empty, no free block lies in those bins. */
  lemma LowestBin(m: Mem, all: seq<int>, bins: seq<seq<int>>, heads: seq<int>, size: int, n: int,
                  memFree: u32, memMeta: u32, merges: nat)
    requires HeapOk(m, all, bins, heads, memFree, memMeta, merges) && |heads| == NUM_SIZES && n <= NUM_SIZES
    requires forall k :: 0 <= k < n && Slot(size - 1) + 1 <= k ==> heads[k] == 0
    ensures forall j :: 0 <= j < |Blocks(m, all)| && !Blocks(m, all)[j].used ==>
              InLowerBins(Blocks(m, all)[j].size, size) || n <= Slot(Blocks(m, all)[j].size)
  {
    HeapParts(m, all, bins, heads, memFree, memMeta, merges);
    hide Blocks, HeapOk, ShapeOk, Slot;
    forall j | 0 <= j < |Blocks(m, all)| && !Blocks(m, all)[j].used
      ensures InLowerBins(Blocks(m, all)[j].size, size) || n <= Slot(Blocks(m, all)[j].size)
    {
      InSomeBin(m, all, bins, heads, j);
    }
  }

  lemma NullReason(m: Mem, all: seq<int>, bins: seq<seq<int>>, heads: seq<int>, size: int,
                   memFree: u32, memMeta: u32, merges: nat)
    requires HeapOk(m, all, bins, heads, memFree, memMeta, merges) && 1 < size
    requires forall n :: Slot(size - 1) + 1 <= n < NUM_SIZES && n < |heads| ==> heads[n] == 0
    ensures forall j :: 0 <= j < |Blocks(m, all)| && !Blocks(m, all)[j].used ==>
              Blocks(m, all)[j].size < Pow2(Slot(size - 1) + 1) < 2 * size
  {
    HeapParts(m, all, bins, heads, memFree, memMeta, merges);
    hide Blocks, HeapOk, ShapeOk, Slot;
    forall j | 0 <= j < |Blocks(m, all)| && !Blocks(m, all)[j].used
      ensures Blocks(m, all)[j].size < Pow2(Slot(size - 1) + 1) < 2 * size
    {
      NothingFits(m, all, bins, heads, size, j);
    }
  }

  /** The word read through chunk->data is the overlaid free.next, which the pop left pointing at itself. */
  lemma DataPointer(m: Mem, c: int)
    requires Loose(m, c)
    ensures c + FREE in m && m[c + FREE] == c + FREE && c + USED != c + FREE
  {
    Lone(m, c, FREE);
  }

  lemma PoppedBlock(m: Mem, all: seq<int>, m': Mem, i: int, size: int, n: int)
    requires Chunks(m, all) && 0 < i < |all| - 1 && IsFree(m, all, all[i])
    requires all[i] in m && all[i] in m' && m'[all[i]] == m[all[i]]
    requires 8 <= size && Slot(size - 1) + 1 <= n == Slot(Size(m, all[i])) < NUM_SIZES
    ensures var b := Blocks(m, all)[i];
            !b.used && b.addr == all[i]
              && size <= b.size == Size(m, all[i]) == Size(m', all[i]) == U32(Size(m', all[i]))
            && Slot(b.size) == n
    ensures U32(size + CHUNK_SIZE) == size + CHUNK_SIZE
    ensures all[i] > 0
  {
    ChunksParts(m, all);
    BlockUsed(m, all, i);
    BlockSize(m, all, i);
    ChunkSized(m, all, i);
    GoodFit(size, Size(m, all[i]));
    RequestBound(size);
    ChunkBounds(all, all[i]);
    hide *;
    U32Small(size + CHUNK_SIZE);
  }

  lemma InsertedKeeps(all: seq<int>, i: int, c: int)
    requires 0 <= i < |all| - 1
    ensures var all' := Inserted(all, i + 1, c);
            |all'| == |all| + 1 && all'[0] == all[0] && all'[i] == all[i] && all'[|all|] == all[|all| - 1]
  {
  }

  lemma SameFlagsSelf(m: Mem, all: seq<int>)
    requires Chunks(m, all)
    ensures SameFlags(m, m, all)
  {
    ChunksParts(m, all);
    hide Chunks, Tiled, Backed, Flagged, Ring;
    forall c | c in all
      ensures c + USED in m
    {
      ChunkBacked(m, all, c);
    }
  }

  /** A free neighbour is not a sentinel. */
  lemma NextFree(m: Mem, all: seq<int>, i: int)
    requires Chunks(m, all) && 0 < i < |all| - 1 && all[i + 1] + USED in m && m[all[i + 1] + USED] == 0
    ensures i + 1 < |all| - 1 && IsFree(m, all, all[i + 1])
  {
    FreeFrom(m, all, all[i + 1]);
    hide IsFree;
    FreeIndex(m, all, i + 1);
  }

  lemma PrevFree(m: Mem, all: seq<int>, i: int)
    requires Chunks(m, all) && 0 < i < |all| - 1 && all[i - 1] + USED in m && m[all[i - 1] + USED] == 0
    ensures 0 < i - 1 && IsFree(m, all, all[i - 1])
  {
    FreeFrom(m, all, all[i - 1]);
    hide IsFree;
    FreeIndex(m, all, i - 1);
  }

  lemma FlagOf(m: Mem, all: seq<int>, i: int)
    requires Chunks(m, all) && 0 <= i < |all|
    ensures all[i] in m && all[i] + 4 in m && all[i] + USED in m
    ensures m[all[i] + USED] == 0 <==> !Blocks(m, all)[i].used
    ensures Blocks(m, all)[i].used ==> IsUsed(m, all, all[i])
  {
    ChunksParts(m, all);
    BlockUsed(m, all, i);
    hide Chunks, Tiled, Backed, Flagged, Ring, Blocks;
    ChunkBacked(m, all, all[i]);
  }

  lemma PayloadWord(m: Mem, all: seq<int>, i: int, offset: int)
    requires Chunks(m, all) && 0 < i < |all| - 1 && Blocks(m, all)[i].used
    requires 0 <= offset < Blocks(m, all)[i].size && offset % 4 == 0
    ensures Blocks(m, all)[i].addr == all[i] && IsUsed(m, all, all[i])
    ensures InPayload(m, all[i], all[i] + HEADER_SIZE + offset)
  {
    ChunksParts(m, all);
    BlockUsed(m, all, i);
    BlockSize(m, all, i);
    NextOf(m, all, i);
    ChunkBounds(all, all[i]);
    ChunkBounds(all, all[i + 1]);
    hide Chunks, Tiled, Flagged, Ring, Blocks, IsUsed;
  }

  /** What kfree reads from the chunk: its neighbours, their flags and sizes. */
  lemma FreedChunk(m: Mem, all: seq<int>, i: int)
    requires Chunks(m, all) && 0 < i < |all| - 1 && Blocks(m, all)[i].used
    ensures all[i] in m && all[i] + 4 in m && m[all[i]] == all[i + 1] && m[all[i] + 4] == all[i - 1]
    ensures IsUsed(m, all, all[i]) && Blocks(m, all)[i].addr == all[i] && all[i] > 0
    ensures all[i + 1] in m && all[i + 1] + USED in m && all[i - 1] in m && all[i - 1] + USED in m
    ensures m[all[i + 1] + USED] == 0 <==> !Blocks(m, all)[i + 1].used
    ensures m[all[i - 1] + USED] == 0 <==> !Blocks(m, all)[i - 1].used
    ensures Blocks(m, all)[i].size == Size(m, all[i]) && Blocks(m, all)[i - 1].size == Size(m, all[i - 1])
    ensures !Blocks(m, all)[i + 1].used ==> i + 1 < |all| - 1 && Blocks(m, all)[i + 1].size == Size(m, all[i + 1])
  {
    ChunksParts(m, all);
    BlockUsed(m, all, i);
    FlagOf(m, all, i);
    FlagOf(m, all, i + 1);
    FlagOf(m, all, i - 1);
    NextOf(m, all, i);
    PrevOf(m, all, i);
    BlockSize(m, all, i);
    BlockSize(m, all, i - 1);
    ChunkBounds(all, all[i]);
    hide Blocks, Chunks, Tiled, Backed, Flagged, Ring, IsUsed, IsFree;
    if !Blocks(m, all)[i + 1].used {
      NextFree(m, all, i);
      BlockSize(m, all, i + 1);
    }
  }

  /** What the second part of kfree still finds after the first. */
  lemma BetweenJoins(m0: Mem, all0: seq<int>, m1: Mem, all1: seq<int>, i: int, joined: bool)
    requires Chunks(m0, all0) && 0 < i < |all0| - 1 && IsUsed(m0, all0, all0[i])
    requires joined ==> i + 1 < |all0| - 1
    requires all1 == RingAfter(all0, i, joined, false) && Chunks(m1, all1) && SameFlags(m0, m1, all1)
    ensures 0 < i < |all1| - 1 && all1[i] == all0[i] && all1[i - 1] == all0[i - 1] && IsUsed(m1, all1, all0[i])
    ensures var c, prev := all0[i], all0[i - 1];
            && c in m0 && c in m1 && c + 4 in m1 && prev in m0 && prev in m1 && prev + USED in m0 && prev + USED in m1
            && m1[prev + USED] == m0[prev + USED] && Size(m1, prev) == Size(m0, prev)
    ensures joined ==> all0[i + 1] in m0 && Size(m1, all0[i]) == Size(m0, all0[i]) + HEADER_SIZE + Size(m0, all0[i + 1])
    ensures !joined ==> Size(m1, all0[i]) == Size(m0, all0[i])
  {
    hide *;
    RingBetween(all0, i, joined);
    PrevBetween(m0, all0, m1, all1, i);
    UsedBetween(m0, all0, m1, all1, i);
    SizeBetween(m0, all0, m1, all1, i, joined);
  }

  lemma RingBetween(all: seq<int>, i: int, joined: bool)
    requires 0 < i < |all| - 1 && (joined ==> i + 1 < |all| - 1)
    ensures var all1 := RingAfter(all, i, joined, false);
            0 < i < |all1| - 1 && all1[i] == all[i] && all1[i - 1] == all[i - 1]
  {
  }

  lemma PrevBetween(m0: Mem, all0: seq<int>, m1: Mem, all1: seq<int>, i: int)
    requires Chunks(m0, all0) && Chunks(m1, all1) && SameFlags(m0, m1, all1)
    requires 0 < i < |all0| && i < |all1| && all1[i - 1] == all0[i - 1]
    ensures var prev := all0[i - 1];
            && prev in m0 && prev in m1 && prev + USED in m0 && prev + USED in m1 && m1[prev + USED] == m0[prev + USED]
  {
    FlagOf(m0, all0, i - 1);
    FlagOf(m1, all1, i - 1);
    hide Chunks, Blocks;
    assert all1[i - 1] in all1;
  }

  lemma UsedBetween(m0: Mem, all0: seq<int>, m1: Mem, all1: seq<int>, i: int)
    requires Chunks(m0, all0) && Chunks(m1, all1) && SameFlags(m0, m1, all1)
    requires 0 < i < |all0| && i < |all1| && all1[i] == all0[i] && IsUsed(m0, all0, all0[i])
    ensures IsUsed(m1, all1, all0[i]) && all0[i] in m0 && all0[i] in m1 && all0[i] + 4 in m1
  {
    FlagOf(m0, all0, i);
    FlagOf(m1, all1, i);
    hide Chunks, Blocks;
    assert all1[i] in all1;
  }

  lemma SizeBetween(m0: Mem, all0: seq<int>, m1: Mem, all1: seq<int>, i: int, joined: bool)
    requires Chunks(m0, all0) && 0 < i < |all0| - 1 && (joined ==> i + 1 < |all0| - 1)
    requires all1 == RingAfter(all0, i, joined, false) && Chunks(m1, all1)
    ensures all0[i] in m0 && all0[i] in m1 && all0[i - 1] in m0 && all0[i - 1] in m1
    ensures Size(m1, all0[i - 1]) == Size(m0, all0[i - 1])
    ensures joined ==> all0[i + 1] in m0 && Size(m1, all0[i]) == Size(m0, all0[i]) + HEADER_SIZE + Size(m0, all0[i + 1])
    ensures !joined ==> Size(m1, all0[i]) == Size(m0, all0[i])
  {
    NextOf(m0, all0, i - 1);
    NextOf(m1, all1, i - 1);
    NextOf(m0, all0, i);
    NextOf(m1, all1, i);
    hide Chunks, Ring;
    if joined { MergeSize(m0, all0, m1, all1, i + 1); }
  }

  lemma RingAfterEnds(all: seq<int>, i: int, next: bool, prev: bool)
    requires 0 < i < |all| - 1 && (next ==> i + 1 < |all| - 1)
    ensures var all' := RingAfter(all, i, next, prev);
            |all'| > 0 && all'[0] == all[0] && all'[|all'| - 1] == all[|all| - 1]
    ensures var all1 := RingAfter(all, i, next, false);
            i < |all1| && RingAfter(all, i, next, prev) == if prev then Without(all1, i) else all1
  {
  }

  lemma JoinedFlags(m0: Mem, all1: seq<int>, m1: Mem, all2: seq<int>, m2: Mem, i: int, head: int, joined: bool)
    requires 0 <= i < |all1| && all2 == if joined then Without(all1, i) else all1
    requires SameFlags(m0, m1, all1)
    requires FlagsBut(m1, m2, all2, head)
    ensures FlagsBut(m0, m2, all2, head)
  {
    hide *;
    if joined { SameFlagsLess(m0, m1, all1, i); }
    FlagsButAfter(m0, m1, m2, all2, head);
  }

  lemma JoinedCounts(f: u32, meta: u32, size: int, nextSize: int, prevSize: int, next: bool, prev: bool)
    ensures var f1 := if next then U32(U32(f - nextSize) + HEADER_SIZE) else f;
            var size1 := if next then size + HEADER_SIZE + nextSize else size;
            FreeAfter(f, size, nextSize, prevSize, next, prev)
            == if prev then U32(U32(U32(f1 - prevSize) + (prevSize + HEADER_SIZE + size1)) + HEADER_SIZE)
              else U32(f1 + size1)
    ensures MetaAfter(meta, next, prev) == if prev then U32(MetaAfter(meta, next, false) - HEADER_SIZE)
            else MetaAfter(meta, next, false)
  {
    hide U32;
  }

  /** A chunk is at the head of a bin. */
  ghost predicate IsHead(heads: seq<int>, c: int) {
    exists n :: 0 <= n < |heads| && heads[n] == c
  }

  lemma HeadNow(heads: seq<int>, n: int)
    requires 0 <= n < |heads|
    ensures IsHead(heads, heads[n])
  {
  }

  // ----- kheap_init

  /** The aligned addresses next to x, above and below. */
  lemma AlignExact(x: u32)
    ensures AlignUp(x) % 4 == 0 && x <= AlignUp(x) < x + 4
    ensures AlignDown(x) % 4 == 0 && AlignDown(x) <= x < AlignDown(x) + 4
  {
  }

  function AlignUp(x: u32): int {
    (x + ALIGN - 1) / ALIGN * ALIGN
  }

  function AlignDown(x: u32): int {
    x / ALIGN * ALIGN
  }

  /** Memory from the first sentinel to the end of the last one, with room for a chunk between them. */
  ghost predicate LayoutRoom(m: Mem, first: int, last: int) {
    && 0 < first && first % 4 == 0 && last % 4 == 0
    && first + 2 * CHUNK_SIZE <= last && last + CHUNK_SIZE <= 0x1_0000_0000
    && forall a :: first <= a < last + CHUNK_SIZE && a % 4 == 0 ==> a in m
  }

  /** One free block between the sentinels. */
  function FirstTiling(first: int, last: int): Tiling {
    [Block(first, 8, true), Block(first + CHUNK_SIZE, last - first - CHUNK_SIZE - HEADER_SIZE, false),
      Block(last, 8, true)]
  }

  /** The memory after kheap_init has linked its three chunks. */
  function FirstMem(m: Mem, first: int, last: int): Mem
    requires LayoutRoom(m, first, last)
  {
    LayoutLinks(m, first, last);
    var second := first + CHUNK_SIZE;
    var linked := InsertAfter(InsertAfter(ThreeChunks(m, first, last), first, second), second, last);
    linked[first + USED := 1][last + USED := 1]
  }

  function ThreeChunks(m: Mem, first: int, last: int): Mem {
    ChunkInit(ChunkInit(ChunkInit(m, first), first + CHUNK_SIZE), last)
  }

  ghost predicate LoneChunk(m: Mem, c: int) {
    && c in m && c + 4 in m && c + USED in m && c + FREE in m && c + FREE + 4 in m
    && m[c] == m[c + 4] == c && m[c + USED] == 0 && m[c + FREE] == m[c + FREE + 4] == c + FREE
  }

  lemma LoneChunkKept(m: Mem, c: int, d: int)
    requires LoneChunk(m, d) && (c + CHUNK_SIZE <= d || d + CHUNK_SIZE <= c)
    ensures LoneChunk(ChunkInit(m, c), d)
  {
  }

  lemma LoneChunkInit(m: Mem, c: int)
    ensures LoneChunk(ChunkInit(m, c), c)
  {
  }

  lemma ThreeChunksWords(m: Mem, first: int, last: int)
    requires LayoutRoom(m, first, last)
    ensures var m1 := ThreeChunks(m, first, last);
            LoneChunk(m1, first) && LoneChunk(m1, first + CHUNK_SIZE) && LoneChunk(m1, last)
  {
    hide LoneChunk, ChunkInit;
    var second := first + CHUNK_SIZE;
    var a := ChunkInit(m, first);
    var b := ChunkInit(a, second);
    LoneChunkInit(m, first);
    LoneChunkKept(a, second, first);
    LoneChunkInit(a, second);
    LoneChunkKept(b, last, first);
    LoneChunkKept(b, last, second);
    LoneChunkInit(b, last);
  }

  lemma ChunkInitKeys(m: Mem, c: int, a: int)
    requires a in m
    ensures a in ChunkInit(m, c)
  {
  }

  lemma LayoutLinks(m: Mem, first: int, last: int)
    requires LayoutRoom(m, first, last)
    ensures var second, m1 := first + CHUNK_SIZE, ThreeChunks(m, first, last);
            && first in m1 && second + 4 in m1
            && second in InsertAfter(m1, first, second) && last + 4 in InsertAfter(m1, first, second)
  {
    ThreeChunksWords(m, first, last);
    hide LayoutRoom, ThreeChunks;
  }

  /** Every link and flag that kheap_init leaves. */
  lemma FirstMemWords(m: Mem, first: int, last: int)
    requires LayoutRoom(m, first, last)
    ensures var m', second := FirstMem(m, first, last), first + CHUNK_SIZE;
            && first in m' && m'[first] == second && first + 4 in m' && m'[first + 4] == last
            && second in m' && m'[second] == last && second + 4 in m' && m'[second + 4] == first
            && last in m' && m'[last] == first && last + 4 in m' && m'[last + 4] == second
            && first + USED in m' && m'[first + USED] == 1 && last + USED in m' && m'[last + USED] == 1
            && second + USED in m' && m'[second + USED] == 0
            && second + FREE in m' && second + FREE + 4 in m'
               && m'[second + FREE] == second + FREE == m'[second + FREE + 4]
    ensures forall a :: a in m ==> a in FirstMem(m, first, last)
  {
    var second, m1 := first + CHUNK_SIZE, ThreeChunks(m, first, last);
    ThreeChunksWords(m, first, last);
    ThreeChunksKeys(m, first, last);
    hide ThreeChunks, LayoutRoom;
    var m2 := InsertAfter(m1, first, second);
    FirstLink(m1, first, second, last);
    hide LoneChunk;
    SecondLink(m2, first, second, last);
    hide InsertAfter;
    assert FirstMem(m, first, last) == InsertAfter(m2, second, last)[first + USED := 1][last + USED := 1];
    hide FirstMem;
  }

  /** The first two chunks in a ring of two, the last one alone. */
  ghost predicate TwoLinked(m: Mem, first: int, second: int, last: int) {
    && first in m && m[first] == second && first + 4 in m && m[first + 4] == second
    && second in m && m[second] == first && second + 4 in m && m[second + 4] == first
    && second + USED in m && m[second + USED] == 0 && second + FREE in m && second + FREE + 4 in m
    && m[second + FREE] == second + FREE == m[second + FREE + 4]
    && LoneChunk(m, last)
  }

  lemma FirstLink(m: Mem, first: int, second: int, last: int)
    requires LoneChunk(m, first) && LoneChunk(m, second) && LoneChunk(m, last)
    requires second == first + CHUNK_SIZE && second + CHUNK_SIZE <= last
    ensures TwoLinked(InsertAfter(m, first, second), first, second, last)
    ensures forall a :: a in m ==> a in InsertAfter(m, first, second)
  {
  }

  lemma SecondLink(m: Mem, first: int, second: int, last: int)
    requires TwoLinked(m, first, second, last) && second == first + CHUNK_SIZE && second + CHUNK_SIZE <= last
    ensures last + 4 in m
    ensures var m' := InsertAfter(m, second, last);
            && first in m' && m'[first] == second && first + 4 in m' && m'[first + 4] == last
            && second in m' && m'[second] == last && second + 4 in m' && m'[second + 4] == first
            && last in m' && m'[last] == first && last + 4 in m' && m'[last + 4] == second
            && second + USED in m' && m'[second + USED] == 0
            && second + FREE in m' && second + FREE + 4 in m'
            && m'[second + FREE] == second + FREE == m'[second + FREE + 4]
    ensures forall a :: a in m ==> a in InsertAfter(m, second, last)
  {
  }

  lemma ThreeChunksKeys(m: Mem, first: int, last: int)
    ensures forall a :: a in m ==> a in ThreeChunks(m, first, last)
  {
    var second := first + CHUNK_SIZE;
    hide ChunkInit;
    forall a | a in m
      ensures a in ThreeChunks(m, first, last)
    {
      ChunkInitKeys(m, first, a);
      ChunkInitKeys(ChunkInit(m, first), second, a);
      ChunkInitKeys(ChunkInit(ChunkInit(m, first), second), last, a);
    }
  }

  lemma FirstChunks(m: Mem, first: int, last: int)
    requires LayoutRoom(m, first, last)
    ensures Chunks(FirstMem(m, first, last), [first, first + CHUNK_SIZE, last])
  {
    FirstMemWords(m, first, last);
    hide FirstMem, Ring;
    var m', all := FirstMem(m, first, last), [first, first + CHUNK_SIZE, last];
    FirstRing(m', first, last);
    FirstTiled(m, m', first, last);
    hide *;
    ChunksFrom(m', all);
  }

  lemma ChunksFrom(m: Mem, all: seq<int>)
    requires Tiled(all) && Backed(m, all) && Flagged(m, all) && Ring(m, all, 0)
    ensures Chunks(m, all)
  {
  }

  lemma FirstTiled(m: Mem, m': Mem, first: int, last: int)
    requires LayoutRoom(m, first, last) && forall a :: a in m ==> a in m'
    requires first + USED in m' && m'[first + USED] == 1 && last + USED in m' && m'[last + USED] == 1
    requires first + CHUNK_SIZE + USED in m' && m'[first + CHUNK_SIZE + USED] == 0
    ensures var all := [first, first + CHUNK_SIZE, last]; Tiled(all) && Backed(m', all) && Flagged(m', all)
  {
  }

  lemma FirstRing(m: Mem, first: int, last: int)
    requires first + 2 * CHUNK_SIZE <= last
    requires var second := first + CHUNK_SIZE;
             && first in m && m[first] == second && first + 4 in m && m[first + 4] == last
             && second in m && m[second] == last && second + 4 in m && m[second + 4] == first
             && last in m && m[last] == first && last + 4 in m && m[last + 4] == second
    ensures Ring(m, [first, first + CHUNK_SIZE, last], 0)
  {
    var all := [first, first + CHUNK_SIZE, last];
    assert Linked(m, all, 0, 0) && Linked(m, all, 0, 1) && Linked(m, all, 0, 2);
  }

  lemma LayoutShape(m: Mem, first: int, last: int, bins: seq<seq<int>>, heads: seq<int>)
    requires LayoutRoom(m, first, last)
    requires |bins| == |heads| == NUM_SIZES && forall n :: 0 <= n < NUM_SIZES ==> bins[n] == [] && heads[n] == 0
    ensures var m', second, all := FirstMem(m, first, last), first + CHUNK_SIZE, [first, first + CHUNK_SIZE, last];
            && ShapeOk(m', all, bins, heads, {second}) && IsFree(m', all, second) && Loose(m', second)
            && Blocks(m', all) == FirstTiling(first, last)
  {
    FirstChunks(m, first, last);
    FirstMemWords(m, first, last);
    hide FirstMem, Chunks;
    var m', second, all := FirstMem(m, first, last), first + CHUNK_SIZE, [first, first + CHUNK_SIZE, last];
    FirstBins(m', first, last, bins);
    LooseFrom(m', second);
    assert second in all;
    assert Blocks(m', all) == FirstTiling(first, last);
    hide Bins, Blocks, Loose;
    ShapeFrom(m', all, bins, heads, {second});
  }

  lemma FirstBins(m: Mem, first: int, last: int, bins: seq<seq<int>>)
    requires |bins| == NUM_SIZES && forall n :: 0 <= n < NUM_SIZES ==> bins[n] == []
    requires first + USED in m && m[first + USED] == 1 && last + USED in m && m[last + USED] == 1
    ensures Bins(m, [first, first + CHUNK_SIZE, last], bins, {first + CHUNK_SIZE})
  {
    hide Slot, Size;
  }

  lemma FirstSize(m: Mem, first: int, last: int)
    requires Chunks(m, [first, first + CHUNK_SIZE, last])
    ensures first + CHUNK_SIZE in m
    ensures var size := Size(m, first + CHUNK_SIZE);
            size == last - first - CHUNK_SIZE - HEADER_SIZE && 0 < size < 0x1_0000_0000 && U32(size) == size
  {
    ChunkSized(m, [first, first + CHUNK_SIZE, last], 1);
  }

  lemma FirstOk(m: Mem, all: seq<int>, bins: seq<seq<int>>, heads: seq<int>, first: int, last: int)
    requires all == [first, first + CHUNK_SIZE, last] && ShapeOk(m, all, bins, heads, {})
    requires Blocks(m, all) == FirstTiling(first, last)
    ensures 0 <= FirstTiling(first, last)[1].size < 0x1_0000_0000
    ensures HeapOk(m, all, bins, heads, FirstTiling(first, last)[1].size, 2 * CHUNK_SIZE + HEADER_SIZE, 0)
  {
    ShapeParts(m, all, bins, heads, {});
    FirstSize(m, first, last);
    ChunksParts(m, all);
    SizeAligned(all, 1);
    hide ShapeOk, Blocks, Chunks;
    var t := FirstTiling(first, last);
    assert Adjoin(t[0], t[1]) && Adjoin(t[1], t[2]) && Sized(t[0]) && Sized(t[1]) && Sized(t[2]);
    assert WellTiled(t);
    FreeBytesRun(t);
    hide FreeBytes, WellTiled;
    U32Small(t[1].size);
    HeapFrom(m, all, bins, heads, t[1].size, 2 * CHUNK_SIZE + HEADER_SIZE, 0);
  }

  // ----- what the invariant says to a caller

  /** The free counter is right exactly when no join was made, up to a wrap of the counter. */
  lemma FreeCounterDrifts(t: Tiling, memFree: u32, memMeta: u32, merges: nat)
    requires Accounts(t, memFree, memMeta, merges)
    ensures memFree == U32(FreeBytes(t)) <==> merges % 0x4000_0000 == 0
  {
    hide FreeBytes;
    var b := FreeBytes(t);
    Wraps(b, merges);
  }

  lemma Wraps(b: int, k: nat)
    ensures (b + 12 * k) % 0x1_0000_0000 == b % 0x1_0000_0000 <==> k % 0x4000_0000 == 0
  {
  }

  /** Two live payloads share no byte, and both lie between the sentinels. */
  lemma LiveApart(t: Tiling, i: int, j: int)
    requires WellTiled(t) && 0 < i < j < |t| - 1 && t[i].used && t[j].used
    ensures t[0].addr + CHUNK_SIZE <= t[i].addr + HEADER_SIZE
    ensures t[i].addr + HEADER_SIZE + t[i].size <= t[j].addr
    ensures t[j].addr + HEADER_SIZE + t[j].size <= t[|t| - 1].addr
  {
    Ordered(t, 0, i);
    Ordered(t, i, j);
    Ordered(t, j, |t| - 1);
  }

  /** A chunk is on the ring of bin n exactly when it is free and of that size class, so used chunks are in no bin. */
  lemma BinnedExactly(m: Mem, all: seq<int>, bins: seq<seq<int>>, heads: seq<int>, n: int, c: int)
    requires ShapeOk(m, all, bins, heads, {}) && 0 <= n < NUM_SIZES
    ensures |bins| == |heads| == NUM_SIZES && NoDup(bins[n])
            && (bins[n] != [] ==> Ring(m, bins[n], FREE) && heads[n] == bins[n][0])
    ensures c in bins[n] <==> IsFree(m, all, c) && c in m && Slot(Size(m, c)) == n
  {
    HeadAt(m, all, bins, heads, {}, n);
    ShapeParts(m, all, bins, heads, {});
    hide ShapeOk, Chunks, Ring, Slot, Size, HeadsOk;
    BinsAt(m, all, bins, {}, n);
    assert c in bins[n] <==> Belongs(m, all, {}, n, c);
  }

  // ----- runs that show where the promises end

  /** A heap of 1024 bytes after kheap_init: one free block of 972 bytes. */
  method Booted() returns (heap: Heap)
    ensures fresh(heap) && fresh(heap.freeChunk) && heap.Valid() && heap.init && heap.merges == 0
    ensures heap.Tiles() == FirstTiling(4096, 5100)
  {
    hide HeapOk, Blocks, FirstTiling;
    var memory: Mem := map[];
    for a := 4096 to 5120
      invariant forall x :: 4096 <= x < a ==> x in memory
    {
      memory := memory[a := 0];
    }
    heap := new Heap(memory);
    heap.KheapInit(4096, 1024);
  }

  lemma FirstFits(t: Tiling, size: int)
    requires t == FirstTiling(4096, 5100) && size == 8
    ensures |t| == 3 && !t[1].used && t[1].size == 972 && t[0].used && t[2].used
            && !(t[1].size < Pow2(Slot(size - 1) + 1))
    ensures Alloc(t, 1, 8) == [t[0], Block(4116, 8, true), Block(4136, 952, false), t[2]]
  {
    assert Slot(7) == 2;
  }

  /** A small request is served from the one free block. */
  method ServedFirst(heap: Heap, size: u32) returns (ptr: int)
    requires heap.Valid() && heap.init && heap.Tiles() == FirstTiling(4096, 5100) && size != 0 && Rounded(size) == 8
    modifies heap, heap.freeChunk
    ensures heap.Valid() && heap.init && heap.merges == old(heap.merges) && ptr == 4128
    ensures heap.Tiles() == [Block(4096, 8, true), Block(4116, 8, true), Block(4136, 952, false), Block(5100, 8, true)]
  {
    hide HeapOk, Blocks, Slot, Pow2, Rounded, Alloc, KeepsLive;
    ghost var t := heap.Tiles();
    FirstFits(t, 8);
    ghost var i;
    ptr, i := heap.Kmalloc(size);
    assert ptr == 0 ==> heap.Tiles() == t;
  }

  /** A request just below 2^32 succeeds with a block of 8 bytes. */
  method ShortBlock() returns (heap: Heap, ptr: int)
    ensures fresh(heap) && heap.Valid() && ptr != 0 && |heap.Tiles()| > 1
    ensures heap.Tiles()[1].used && ptr == heap.Tiles()[1].addr + HEADER_SIZE && heap.Tiles()[1].size == 8 < 0xFFFF_FFFD
  {
    hide HeapOk, Blocks;
    RoundedCovers(0xFFFF_FFFD);
    heap := Booted();
    ptr := ServedFirst(heap, 0xFFFF_FFFD);
  }

  /** After one allocation and its free the counter reports 984 free bytes of the 972 there are. */
  method Drifted() returns (heap: Heap)
    ensures fresh(heap) && heap.Valid() && heap.Tiles() == FirstTiling(4096, 5100)
    ensures heap.merges == 1 && FreeBytes(heap.Tiles()) == 972 && heap.memFree == 984
  {
    hide HeapOk, Blocks, FreeBytes, KeepsLive;
    heap := Booted();
    var ptr := ServedFirst(heap, 8);
    ghost var t := heap.Tiles();
    heap.Kfree(ptr, 1);
    assert heap.Tiles() == FirstTiling(4096, 5100);
    HeapParts(heap.mem, heap.all, heap.bins, heap.freeChunk[..], heap.memFree, heap.memMeta, heap.merges);
    FirstBytes(heap.Tiles());
  }

  lemma FirstBytes(t: Tiling)
    requires t == FirstTiling(4096, 5100)
    ensures FreeBytes(t) == 972
  {
    FreeBytesRun(t);
  }
}
