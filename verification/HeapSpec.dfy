/**
  What the kernel heap does, on its tiling alone: a sequence of adjacent blocks,
  each used or free.  Allocation carves a block, freeing joins it with its free
  neighbours.
*/
module HeapSpec {
  import opened HeapLayout

  datatype Block = Block(addr: int, size: int, used: bool)

  type Tiling = seq<Block>

  ghost predicate Sized(b: Block) {
    b.size >= 8 && b.size % 4 == 0
  }

  /** b is followed by c without a gap, and they are not both free. */
  ghost predicate Adjoin(b: Block, c: Block) {
    c.addr == b.addr + HEADER_SIZE + b.size && (b.used || c.used)
  }

  /** The blocks adjoin, and the sentinels at both ends are used. */
  ghost predicate WellTiled(t: Tiling) {
    && |t| >= 3
    && t[0].used && t[|t| - 1].used
    && (forall i :: 0 <= i < |t| ==> Sized(t[i]))
    && (forall i :: 0 <= i < |t| - 1 ==> Adjoin(t[i], t[i + 1]))
  }

  /** What becomes of a free block that serves a request: the rest is split off if it can hold a chunk. */
  function Carve(b: Block, size: int): Tiling {
    if size + CHUNK_SIZE <= b.size
    then [Block(b.addr, size, true), Block(b.addr + HEADER_SIZE + size, b.size - size - HEADER_SIZE, false)]
    else [b.(used := true)]
  }

  function Alloc(t: Tiling, i: int, size: int): Tiling
    requires 0 <= i < |t|
  {
    t[..i] + Carve(t[i], size) + t[i + 1..]
  }

  /** First and one-past-last block of the run that becomes one free block. */
  function From(t: Tiling, i: int): int
    requires 0 < i < |t| - 1
  {
    if t[i - 1].used then i else i - 1
  }

  function To(t: Tiling, i: int): int
    requires 0 < i < |t| - 1
  {
    if t[i + 1].used then i + 1 else i + 2
  }

  function Joined(t: Tiling, lo: int, hi: int): Block
    requires 0 <= lo < hi < |t|
  {
    Block(t[lo].addr, t[hi].addr - t[lo].addr - HEADER_SIZE, false)
  }

  function Free(t: Tiling, i: int): Tiling
    requires 0 < i < |t| - 1 && To(t, i) < |t|
  {
    t[..From(t, i)] + [Joined(t, From(t, i), To(t, i))] + t[To(t, i)..]
  }

  lemma ToInside(t: Tiling, i: int)
    requires WellTiled(t) && 0 < i < |t| - 1
    ensures 0 < From(t, i) <= i < To(t, i) < |t|
  {
  }

  lemma AllocAt(t: Tiling, i: int, size: int, j: int)
    requires 0 <= i < |t| && 0 <= j < |Alloc(t, i, size)|
    ensures var t', n := Alloc(t, i, size), |Carve(t[i], size)|;
            && |t'| == |t| - 1 + n
            && t'[j] == if j < i then t[j] else if j < i + n then Carve(t[i], size)[j - i] else t[j + 1 - n]
  {
  }

  lemma CarveJoins(b: Block, size: int, before: Block, after: Block)
    requires Adjoin(before, b) && Adjoin(b, after) && !b.used && Sized(b)
    requires 8 <= size <= b.size && size % 4 == 0
    ensures var c := Carve(b, size);
            && 1 <= |c| <= 2 && Sized(c[0]) && Adjoin(before, c[0])
            && (|c| == 1 ==> Adjoin(c[0], after))
            && (|c| == 2 ==> Sized(c[1]) && Adjoin(c[0], c[1]) && Adjoin(c[1], after))
  {
  }

  /** Allocation keeps the tiling well formed. */
  lemma AllocTiled(t: Tiling, i: int, size: int)
    requires WellTiled(t) && 0 < i < |t| - 1 && !t[i].used && 8 <= size <= t[i].size && size % 4 == 0
    ensures WellTiled(Alloc(t, i, size))
  {
    var t', n := Alloc(t, i, size), |Carve(t[i], size)|;
    assert Adjoin(t[i - 1], t[i]) && Adjoin(t[i], t[i + 1]);
    CarveJoins(t[i], size, t[i - 1], t[i + 1]);
    AllocAt(t, i, size, 0);
    AllocAt(t, i, size, |t'| - 1);
    hide Alloc, Carve, Adjoin, Sized;
    forall j | 0 <= j < |t'|
      ensures Sized(t'[j])
    {
      AllocAt(t, i, size, j);
    }
    forall j | 0 <= j < |t'| - 1
      ensures Adjoin(t'[j], t'[j + 1])
    {
      AllocAt(t, i, size, j);
      AllocAt(t, i, size, j + 1);
      var o := if j < i then j else j + 1 - n;
      if 0 <= o < |t| - 1 { assert Adjoin(t[o], t[o + 1]); }
    }
  }

  lemma FreeAt(t: Tiling, i: int, j: int)
    requires 0 < i < |t| - 1 && From(t, i) <= i < To(t, i) < |t| && 0 <= j < |Free(t, i)|
    ensures var lo, hi := From(t, i), To(t, i);
            && |Free(t, i)| == |t| - (hi - lo) + 1
            && Free(t, i)[j] == if j < lo then t[j] else if j == lo then Joined(t, lo, hi) else t[j - 1 - lo + hi]
  {
  }

  /** The joined block fits exactly between the used blocks around the run. */
  lemma JoinedFits(t: Tiling, i: int)
    requires WellTiled(t) && 0 < i < |t| - 1 && t[i].used
    ensures 0 < From(t, i) <= i < To(t, i) < |t|
    ensures var b := Joined(t, From(t, i), To(t, i));
            Sized(b) && Adjoin(t[From(t, i) - 1], b) && Adjoin(b, t[To(t, i)])
  {
    ToInside(t, i);
    assert Sized(t[i - 1]) && Sized(t[i]) && Sized(t[i + 1]);
    assert Adjoin(t[i - 1], t[i]) && Adjoin(t[i], t[i + 1]);
    if From(t, i) < i { assert Adjoin(t[i - 2], t[i - 1]); }
    if To(t, i) > i + 1 { assert Adjoin(t[i + 1], t[i + 2]); }
  }

  /** Freeing keeps the tiling well formed: in particular it leaves no two free neighbours. */
  lemma FreeTiled(t: Tiling, i: int)
    requires WellTiled(t) && 0 < i < |t| - 1 && t[i].used
    ensures To(t, i) < |t| && WellTiled(Free(t, i))
  {
    JoinedFits(t, i);
    var t', lo, hi := Free(t, i), From(t, i), To(t, i);
    FreeAt(t, i, 0);
    FreeAt(t, i, |t'| - 1);
    hide Free, From, To, Joined, Adjoin, Sized;
    forall j | 0 <= j < |t'|
      ensures Sized(t'[j])
    {
      FreeAt(t, i, j);
    }
    forall j | 0 <= j < |t'| - 1
      ensures Adjoin(t'[j], t'[j + 1])
    {
      FreeAt(t, i, j);
      FreeAt(t, i, j + 1);
      var o := if j < lo then j else j - 1 - lo + hi;
      if 0 <= o < |t| - 1 { assert Adjoin(t[o], t[o + 1]); }
    }
  }

  /** Freeing what was just allocated restores the tiling exactly. */
  lemma RoundTrip(t: Tiling, i: int, size: int)
    requires WellTiled(t) && 0 < i < |t| - 1 && !t[i].used && 8 <= size <= t[i].size && size % 4 == 0
    ensures var t' := Alloc(t, i, size);
            0 < i < |t'| - 1 && To(t', i) < |t'| && Free(t', i) == t
  {
    var t' := Alloc(t, i, size);
    assert t[i - 1].used && t[i + 1].used;
    if size + CHUNK_SIZE <= t[i].size {
      assert t'[i - 1] == t[i - 1] && t'[i + 1] == Carve(t[i], size)[1] && t'[i + 2] == t[i + 1];
      assert t'[..i] == t[..i] && t'[i + 2..] == t[i + 1..];
      assert Joined(t', i, i + 2) == t[i];
    } else {
      assert t'[i - 1] == t[i - 1] && t'[i + 1] == t[i + 1];
      assert t'[..i] == t[..i] && t'[i + 1..] == t[i + 1..];
      assert Joined(t', i, i + 1) == t[i];
    }
    assert t == t[..i] + [t[i]] + t[i + 1..];
  }

  // ----- accounting

  /** The bytes in free payloads. */
  function FreeBytes(t: Tiling): int {
    if t == [] then 0 else (if t[0].used then 0 else t[0].size) + FreeBytes(t[1..])
  }

  lemma {:induction false} FreeBytesConcat(a: Tiling, b: Tiling)
    ensures FreeBytes(a + b) == FreeBytes(a) + FreeBytes(b)
  {
    if a == [] {
      assert a + b == b;
    } else {
      assert (a + b)[1..] == a[1..] + b;
      FreeBytesConcat(a[1..], b);
    }
  }

  lemma FreeBytesParts(a: Tiling, b: Tiling, c: Tiling)
    ensures FreeBytes(a + b + c) == FreeBytes(a) + FreeBytes(b) + FreeBytes(c)
  {
    FreeBytesConcat(a + b, c);
    FreeBytesConcat(a, b);
  }

  lemma FreeBytesOne(b: Block)
    ensures FreeBytes([b]) == if b.used then 0 else b.size
  {
    assert [b][1..] == [];
  }

  lemma FreeBytesTwo(a: Block, b: Block)
    ensures FreeBytes([a, b]) == FreeBytes([a]) + FreeBytes([b])
  {
    FreeBytesConcat([a], [b]);
    assert [a] + [b] == [a, b];
  }

  lemma CarveBytes(b: Block, size: int)
    ensures FreeBytes(Carve(b, size)) == if size + CHUNK_SIZE <= b.size then b.size - size - HEADER_SIZE else 0
  {
    if size + CHUNK_SIZE <= b.size {
      var x, y := Block(b.addr, size, true), Block(b.addr + HEADER_SIZE + size, b.size - size - HEADER_SIZE, false);
      FreeBytesTwo(x, y);
      FreeBytesOne(x);
      FreeBytesOne(y);
    } else {
      FreeBytesOne(b.(used := true));
    }
  }

  /** Allocation takes out the whole free block and returns what was split off. */
  lemma AllocBytes(t: Tiling, i: int, size: int)
    requires 0 <= i < |t| && !t[i].used
    ensures FreeBytes(Alloc(t, i, size))
            == FreeBytes(t) - t[i].size + (if size + CHUNK_SIZE <= t[i].size then t[i].size - size - HEADER_SIZE else 0)
  {
    assert t == t[..i] + [t[i]] + t[i + 1..];
    CarveBytes(t[i], size);
    FreeBytesOne(t[i]);
    hide FreeBytes, Carve;
    FreeBytesParts(t[..i], [t[i]], t[i + 1..]);
    FreeBytesParts(t[..i], Carve(t[i], size), t[i + 1..]);
  }

  /** How many neighbours a freed block is joined with. */
  function Merges(t: Tiling, i: int): nat
    requires 0 < i < |t| - 1
  {
    (if t[i - 1].used then 0 else 1) + (if t[i + 1].used then 0 else 1)
  }

  lemma FreeBytesRun(b: Tiling)
    requires 1 <= |b| <= 3
    ensures FreeBytes(b) == (if b[0].used then 0 else b[0].size)
                          + (if |b| > 1 && !b[1].used then b[1].size else 0)
                          + (if |b| > 2 && !b[2].used then b[2].size else 0)
  {
    FreeBytesOne(b[0]);
    assert b == [b[0]] + b[1..];
    FreeBytesConcat([b[0]], b[1..]);
    if |b| > 1 {
      FreeBytesOne(b[1]);
      assert b[1..] == [b[1]] + b[2..];
      FreeBytesConcat([b[1]], b[2..]);
      if |b| > 2 {
        FreeBytesOne(b[2]);
        assert b[2..] == [b[2]];
      }
    }
  }

  /** The run that is joined: its free bytes before, and the joined size. */
  lemma RunBytes(t: Tiling, i: int)
    requires WellTiled(t) && 0 < i < |t| - 1 && t[i].used
    ensures To(t, i) < |t|
    ensures Joined(t, From(t, i), To(t, i)).size
            == FreeBytes(t[From(t, i)..To(t, i)]) + t[i].size + HEADER_SIZE * Merges(t, i)
  {
    ToInside(t, i);
    var lo, hi := From(t, i), To(t, i);
    FreeBytesRun(t[lo..hi]);
    hide FreeBytes;
    assert Adjoin(t[i - 1], t[i]) && Adjoin(t[i], t[i + 1]);
    if hi > i + 1 { assert Adjoin(t[i + 1], t[i + 2]); }
  }

  /** Freeing returns the payload and one header per neighbour joined. */
  lemma FreeBytesFreed(t: Tiling, i: int)
    requires WellTiled(t) && 0 < i < |t| - 1 && t[i].used
    ensures To(t, i) < |t|
    ensures FreeBytes(Free(t, i)) == FreeBytes(t) + t[i].size + HEADER_SIZE * Merges(t, i)
  {
    ToInside(t, i);
    RunBytes(t, i);
    var lo, hi := From(t, i), To(t, i);
    FreeBytesOne(Joined(t, lo, hi));
    assert t == t[..lo] + t[lo..hi] + t[hi..];
    hide FreeBytes, WellTiled, Joined, From, To, Merges;
    FreeBytesParts(t[..lo], t[lo..hi], t[hi..]);
    FreeBytesParts(t[..lo], [Joined(t, lo, hi)], t[hi..]);
  }

  // ----- live allocations

  /** The payload of block i does not meet that of block j. */
  lemma {:induction false} Ordered(t: Tiling, i: int, j: int)
    requires WellTiled(t) && 0 <= i < j < |t|
    ensures t[i].addr + HEADER_SIZE + t[i].size <= t[j].addr
    decreases j - i
  {
    if i + 1 < j { Ordered(t, i, j - 1); }
  }
}
