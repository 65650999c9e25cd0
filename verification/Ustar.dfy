/**
  Writing to a file of a USTAR partition in place: the block addresses on the
  device, the octal fields of the header, and the three phases of a write.
*/
module Ustar {
  import opened Digits

  type byte = x: int | 0 <= x < 256

  const BLOCK_SIZE: int := 512
  const SIZE_AT: int := 124
  const TYPE_AT: int := 156
  const MAGIC_AT: int := 257
  const MAGIC: seq<byte> := [117, 115, 116, 97, 114, 32]
  const SIZE_LENGTH: int := 12
  const ZERO: byte := 48

  // ----- addresses

  /** The block sizes that mount accepts. */
  predicate Mountable(bs: u32) {
    && bs > 0
    && !(bs > BLOCK_SIZE && bs % BLOCK_SIZE != 0)
    && !(bs < BLOCK_SIZE && BLOCK_SIZE % bs != 0)
  }

  function PhysBlock(first: u64, inode: u32, bs: u32): u32
    requires bs > 0
  {
    U32(first + Quotient(U32(inode * BLOCK_SIZE), bs))
  }

  function PhysOffset(inode: u32, bs: u32): u32 {
    U32((if bs > BLOCK_SIZE then Remainder(inode, bs / BLOCK_SIZE) else 0) * BLOCK_SIZE)
  }

  function Quotient(a: int, b: int): int
    requires b > 0
  {
    a / b
  }

  function Remainder(a: int, b: int): int
    requires b > 0
  {
    a % b
  }

  lemma Division(a: int, b: int)
    requires b > 0
    ensures a == Quotient(a, b) * b + Remainder(a, b) && 0 <= Remainder(a, b) < b
  {
  }

  lemma MulAtLeast(x: int, y: int)
    requires x >= 1 && y >= 1
    ensures x * y >= x && x * y >= y
  {
  }

  lemma Distribute(x: int, y: int, z: int)
    ensures (x + y) * z == x * z + y * z && (x - y) * z == x * z - y * z
  {
  }

  lemma QuotientBound(a: int, b: int)
    requires b > 0 && a >= 0
    ensures 0 <= Quotient(a, b) <= a
  {
    Division(a, b);
    hide Quotient, Remainder;
    var q := Quotient(a, b);
    if q >= 1 { MulAtLeast(q, b); }
    if q <= -1 {
      MulAtLeast(-q, b);
      Distribute(0, q, b);
    }
  }

  lemma QuotientUnique(a: int, b: int, q: int, r: int)
    requires b > 0 && a == q * b + r && 0 <= r < b
    ensures Quotient(a, b) == q && Remainder(a, b) == r
  {
    Division(a, b);
    hide Quotient, Remainder;
    Apart(Quotient(a, b), q, b, Remainder(a, b), r);
  }

  lemma Apart(p: int, q: int, b: int, s: int, r: int)
    requires b > 0 && p * b + s == q * b + r && 0 <= s < b && 0 <= r < b
    ensures p == q && s == r
  {
    Distribute(p, q, b);
    Distribute(q, p, b);
    if p > q { MulAtLeast(p - q, b); }
    if p < q { MulAtLeast(q - p, b); }
  }

  /** The byte on the device where block inode of the partition starts. */
  function Address(first: u64, inode: u32, bs: u32): int
    requires bs > 0
  {
    PhysBlock(first, inode, bs) * bs + PhysOffset(inode, bs)
  }

  /** Neither the byte number nor the device block of a partition's block wraps. */
  predicate InReach(first: u64, inode: int, bs: u32)
    requires bs > 0
  {
    0 <= inode < 0x80_0000 && first + Quotient(inode * BLOCK_SIZE, bs) < 0x1_0000_0000
  }

  /**
    For every mountable block size the address is that of the partition plus 512
    bytes per block, exactly when neither step of its computation wraps.
  */
  lemma AddressExact(first: u64, inode: u32, bs: u32)
    requires Mountable(bs)
    ensures Address(first, inode, bs) == first * bs + inode * BLOCK_SIZE <==> InReach(first, inode, bs)
  {
    hide Address, Quotient;
    if InReach(first, inode, bs) {
      AddressRight(first, inode, bs);
    } else if inode >= 0x80_0000 {
      AddressWraps(first, inode, bs);
    } else {
      BlockWraps(first, inode, bs);
    }
  }

  lemma AddressRight(first: u64, inode: u32, bs: u32)
    requires Mountable(bs) && InReach(first, inode, bs)
    ensures Address(first, inode, bs) == first * bs + inode * BLOCK_SIZE
  {
    var a := inode * BLOCK_SIZE;
    QuotientBound(a, bs);
    Distribute(first, Quotient(a, bs), bs);
    hide Quotient, Remainder;
    assert U32(a) == a && PhysBlock(first, inode, bs) == first + Quotient(a, bs);
    AddressParts(inode, bs);
  }

  /** Whole device blocks and the offset in the last one add up to the byte number. */
  lemma AddressParts(inode: u32, bs: u32)
    requires Mountable(bs) && inode < 0x80_0000
    ensures Quotient(inode * BLOCK_SIZE, bs) * bs + PhysOffset(inode, bs) == inode * BLOCK_SIZE
  {
    hide Quotient, Remainder, U32;
    OffsetParts(inode, bs);
    if bs > BLOCK_SIZE { LargeBlocks(inode, bs / BLOCK_SIZE, bs); } else { SmallBlocks(inode, bs); }
  }

  lemma OffsetParts(inode: u32, bs: u32)
    requires bs > 0 && inode < 0x80_0000
    ensures PhysOffset(inode, bs) == if bs > BLOCK_SIZE then Remainder(inode, bs / BLOCK_SIZE) * BLOCK_SIZE else 0
  {
    hide Quotient, Remainder;
    if bs > BLOCK_SIZE { OffsetSmall(inode, bs / BLOCK_SIZE); }
  }

  /** A device block number past 2^32 wraps, and the address is one in front of the block. */
  lemma BlockWraps(first: u64, inode: u32, bs: u32)
    requires Mountable(bs) && inode < 0x80_0000 && first + Quotient(inode * BLOCK_SIZE, bs) >= 0x1_0000_0000
    ensures Address(first, inode, bs) < first * bs + inode * BLOCK_SIZE
  {
    var a := inode * BLOCK_SIZE;
    var q := Quotient(a, bs);
    QuotientBound(a, bs);
    AddressParts(inode, bs);
    hide Quotient, Remainder, PhysOffset;
    var x := first + q - PhysBlock(first, inode, bs);
    assert U32(a) == a && x >= 0x1_0000_0000;
    Distribute(first, q, bs);
    Distribute(first + q, x, bs);
    Distribute(x - 0x1_0000_0000, 0x1_0000_0000, bs);
    MulNonNegative(x - 0x1_0000_0000, bs);
  }

  lemma OffsetSmall(inode: int, r: int)
    requires 0 <= inode < 0x80_0000 && r > 0
    ensures 0 <= Remainder(inode, r) * BLOCK_SIZE < 0x1_0000_0000
  {
    Division(inode, r);
    QuotientBound(inode, r);
    hide Quotient, Remainder;
    if Quotient(inode, r) >= 1 { MulAtLeast(Quotient(inode, r), r); }
  }

  lemma LargeBlocks(inode: int, r: int, bs: int)
    requires r > 0 && bs == r * BLOCK_SIZE && inode >= 0
    ensures Quotient(inode * BLOCK_SIZE, bs) * bs + Remainder(inode, r) * BLOCK_SIZE == inode * BLOCK_SIZE
  {
    Division(inode, r);
    var q, s := Quotient(inode, r), Remainder(inode, r);
    assert inode * BLOCK_SIZE == q * bs + s * BLOCK_SIZE;
    QuotientUnique(inode * BLOCK_SIZE, bs, q, s * BLOCK_SIZE);
  }

  lemma SmallBlocks(inode: int, bs: int)
    requires 0 < bs <= BLOCK_SIZE && BLOCK_SIZE % bs == 0 && inode >= 0
    ensures Quotient(inode * BLOCK_SIZE, bs) * bs == inode * BLOCK_SIZE
  {
    var f := BLOCK_SIZE / bs;
    assert BLOCK_SIZE == f * bs;
    assert inode * BLOCK_SIZE == (inode * f) * bs;
    QuotientUnique(inode * BLOCK_SIZE, bs, inode * f, 0);
  }

  /** The mount check is exact: with any other block size some block is looked for in the wrong place. */
  lemma MountCheckExact(bs: u32)
    requires bs > 0
    ensures Mountable(bs) <==> forall inode: u32 :: inode < 0x80_0000 ==> Address(0, inode, bs) == inode * BLOCK_SIZE
  {
    if Mountable(bs) {
      forall inode: u32 | inode < 0x80_0000
        ensures Address(0, inode, bs) == inode * BLOCK_SIZE
      {
        QuotientBound(inode * BLOCK_SIZE, bs);
        AddressRight(0, inode, bs);
      }
    } else {
      var inode: u32 := if bs < BLOCK_SIZE then 1 else bs / BLOCK_SIZE;
      if bs < BLOCK_SIZE { WrongSmall(bs); } else { WrongLarge(bs); }
      assert Address(0, inode, bs) != inode * BLOCK_SIZE;
    }
  }

  lemma WrongSmall(bs: u32)
    requires 0 < bs < BLOCK_SIZE && BLOCK_SIZE % bs != 0
    ensures Address(0, 1, bs) != BLOCK_SIZE
  {
    Division(BLOCK_SIZE, bs);
    assert Remainder(BLOCK_SIZE, bs) == BLOCK_SIZE % bs;
    QuotientBound(BLOCK_SIZE, bs);
    hide Quotient, Remainder;
  }

  lemma WrongLarge(bs: u32)
    requires bs > BLOCK_SIZE && bs % BLOCK_SIZE != 0
    ensures 0 < bs / BLOCK_SIZE < 0x80_0000 && Address(0, bs / BLOCK_SIZE, bs) != bs / BLOCK_SIZE * BLOCK_SIZE
  {
    hide Address;
    NothingAt(bs, bs / BLOCK_SIZE);
  }

  lemma NothingAt(bs: u32, r: u32)
    requires r == bs / BLOCK_SIZE && bs > BLOCK_SIZE && 0 <= r * BLOCK_SIZE < bs
    ensures Address(0, r, bs) == 0
  {
    QuotientUnique(r * BLOCK_SIZE, bs, 0, r * BLOCK_SIZE);
    QuotientUnique(r, r, 1, 0);
    hide Quotient, Remainder;
    assert U32(r * BLOCK_SIZE) == r * BLOCK_SIZE;
    assert PhysBlock(0, r, bs) == 0 && PhysOffset(r, bs) == 0;
    hide PhysBlock, PhysOffset;
  }

  // ----- the RAM disk driver

  /** The RAM disk starts with a block of its own, in front of the data. */
  const MASTER_SIZE: int := 512

  /** A RAM disk with so many bytes of data lies in the address space. */
  predicate InMemory(start: u32, length: nat) {
    start + MASTER_SIZE + length < 0x1_0000_0000
  }

  /** The bounds test of the driver for size bytes at byte a of the data, made on 32-bit memory addresses. */
  predicate Accepts(start: u32, length: nat, a: int, size: u32) {
    var addr, limit := U32(start + MASTER_SIZE + a), start + MASTER_SIZE + length;
    addr <= limit && U32(addr + size) <= limit
  }

  /**
    From an address on the disk the test is right exactly when the end address
    does not wrap, and then what it accepts leaves the disk.  It never refuses
    what fits, and refuses what starts behind the disk unless that address wraps.
  */
  lemma DriverExact(start: u32, length: nat, a: nat, size: u32)
    requires InMemory(start, length)
    ensures a <= length ==>
              ((Accepts(start, length, a, size) <==> a + size <= length)
               <==> start + MASTER_SIZE + a + size < 0x1_0000_0000)
    ensures a + size <= length ==> Accepts(start, length, a, size)
    ensures a > length && start + MASTER_SIZE + a < 0x1_0000_0000 ==> !Accepts(start, length, a, size)
  {
  }

  /** The driver adds the number of the device block as a byte number: right for device blocks of one byte only. */
  lemma UnitBlocks(bs: u32)
    requires Mountable(bs)
    ensures bs == 1 <==>
            forall first: u64, inode: u32 :: InReach(first, inode, bs) ==>
              PhysBlock(first, inode, bs) + PhysOffset(inode, bs) == first * bs + inode * BLOCK_SIZE
  {
    hide PhysBlock, PhysOffset, InReach;
    if bs == 1 {
      forall first: u64, inode: u32 | InReach(first, inode, bs)
        ensures PhysBlock(first, inode, bs) + PhysOffset(inode, bs) == first * bs + inode * BLOCK_SIZE
      {
        AddressRight(first, inode, bs);
      }
    } else {
      FirstBlock(bs);
      assert PhysBlock(1, 0, bs) + PhysOffset(0, bs) != 1 * bs + 0 * BLOCK_SIZE;
    }
  }

  lemma FirstBlock(bs: u32)
    requires bs > 0
    ensures InReach(1, 0, bs) && PhysBlock(1, 0, bs) == 1 && PhysOffset(0, bs) == 0
  {
    QuotientUnique(0, bs, 0, 0);
    if bs > BLOCK_SIZE { QuotientUnique(0, bs / BLOCK_SIZE, 0, 0); }
    hide Quotient, Remainder;
  }

  // ----- octal fields

  /** A byte as the plain char it is on i386, which is signed. */
  function Char(c: byte): int {
    if c < 128 then c else c - 256
  }

  /** The bitwise or of the k lowest bits. */
  function Or(a: nat, b: nat, k: nat): (r: nat)
    ensures r < Pow2(k)
  {
    if k == 0 then 0 else 2 * Or(a / 2, b / 2, k - 1) + if a % 2 == 1 || b % 2 == 1 then 1 else 0
  }

  function OrWord(a: u32, b: u32): u32 {
    WordBits();
    Or(a, b, 32)
  }

  lemma WordBits()
    ensures Pow2(29) == 0x2000_0000 && Pow2(32) == 0x1_0000_0000
  {
    assert Pow2(8) == 0x100;
    assert Pow2(16) == 0x1_0000;
    assert Pow2(24) == 0x100_0000;
  }

  /** One character of oct2uint: shift in three bits, whatever the character is. */
  function Shifted(out: u32, c: byte): u32 {
    OrWord(U32(out * 8), U32(Char(c) - ZERO))
  }

  lemma {:induction false} OrAtLeast(a: nat, b: nat, k: nat)
    requires a < Pow2(k) && b < Pow2(k)
    ensures a <= Or(a, b, k) && b <= Or(a, b, k)
  {
    if k > 0 { OrAtLeast(a / 2, b / 2, k - 1); }
  }

  lemma {:induction false} OrZero(a: nat, k: nat)
    requires a < Pow2(k)
    ensures Or(a, 0, k) == a
  {
    if k > 0 { OrZero(a / 2, k - 1); }
  }

  /** Disjoint bits add up. */
  lemma OrDigit(q: nat, d: nat, k: nat)
    requires d < 8 && q < Pow2(k)
    ensures Or(8 * q, d, k + 3) == 8 * q + d
  {
    hide Or, Pow2;
    OrZero(q, k);
    OrBit(q, d / 4, k);
    OrBit(2 * q, d / 2, k + 1);
    OrBit(4 * q, d, k + 2);
    assert d / 2 / 2 == d / 4 && d / 4 / 2 == 0;
  }

  lemma OrBit(q: nat, d: nat, k: nat)
    ensures Or(2 * q, d, k + 1) == 2 * Or(q, d / 2, k) + d % 2
  {
    assert 2 * q / 2 == q && 2 * q % 2 == 0;
    OrUnfold(2 * q, d, k + 1);
    hide Or, Pow2;
  }

  lemma OrUnfold(a: nat, b: nat, k: nat)
    requires k > 0
    ensures Or(a, b, k) == 2 * Or(a / 2, b / 2, k - 1) + if a % 2 == 1 || b % 2 == 1 then 1 else 0
  {
  }

  /** An octal digit appends its three bits. */
  lemma ShiftedDigit(out: u32, c: byte)
    requires ZERO <= c < ZERO + 8
    ensures Shifted(out, c) == U32(out * 8) + (c - ZERO)
  {
    hide Or, Pow2;
    WordBits();
    var q := out % 0x2000_0000;
    assert U32(out * 8) == 8 * q && U32(Char(c) - ZERO) == c - ZERO;
    OrDigit(q, c - ZERO, 29);
  }

  /** Any other byte below '0', or above 127 and so negative, turns the value into one of the last 176 of its range. */
  lemma ShiftedOther(out: u32, c: byte)
    requires c < ZERO || c >= 128
    ensures Shifted(out, c) >= 0x1_0000_0000 - 176
  {
    hide Or, Pow2;
    WordBits();
    OrAtLeast(U32(out * 8), U32(Char(c) - ZERO), 32);
  }

  /** Reading a field from left to right, up to a NUL or its end. */
  function Octal(s: seq<byte>, out: u32): u32
    decreases |s|
  {
    if s == [] || s[0] == 0 then out else Octal(s[1..], Shifted(out, s[0]))
  }

  /** The k lowest octal digits of a value, most significant first. */
  function OctalDigits(v: nat, k: nat): (s: seq<byte>)
    ensures |s| == k
  {
    if k == 0 then [] else OctalDigits(v / 8, k - 1) + [ZERO + v % 8]
  }

  /** The value has at most k octal digits. */
  predicate Fits(v: nat, k: nat) {
    if k == 0 then v == 0 else Fits(v / 8, k - 1)
  }

  /** What uint2oct leaves in a field: digits and a final NUL, but only zeros for zero. */
  function OctalField(v: u32, n: nat): (s: seq<byte>)
    requires n > 0
    ensures |s| == n
  {
    if v == 0 then OctalDigits(0, n) else OctalDigits(v, n - 1) + [0]
  }

  lemma {:induction false} OctalConcat(s: seq<byte>, t: seq<byte>, out: u32)
    requires 0 !in s
    ensures Octal(s + t, out) == Octal(t, Octal(s, out))
    decreases |s|
  {
    hide Shifted;
    if s == [] {
      assert s + t == t;
    } else {
      assert (s + t)[1..] == s[1..] + t;
      OctalConcat(s[1..], t, Shifted(out, s[0]));
    }
  }

  lemma {:induction false} DigitsNonNul(v: nat, k: nat)
    ensures 0 !in OctalDigits(v, k)
  {
    if k > 0 { DigitsNonNul(v / 8, k - 1); }
  }

  lemma {:induction false} DigitsValue(v: nat, k: nat)
    requires Fits(v, k) && v < 0x1_0000_0000
    ensures Octal(OctalDigits(v, k), 0) == v
  {
    if k > 0 {
      DigitsValue(v / 8, k - 1);
      DigitsNonNul(v / 8, k - 1);
      OctalConcat(OctalDigits(v / 8, k - 1), [ZERO + v % 8], 0);
      OctalOne(v);
    }
  }

  lemma OctalOne(v: nat)
    requires v < 0x1_0000_0000
    ensures Octal([ZERO + v % 8], v / 8) == v
  {
    hide Shifted;
    assert [ZERO + v % 8][1..] == [];
    ShiftedDigit(v / 8, ZERO + v % 8);
    assert v / 8 * 8 + v % 8 == v && U32(v / 8 * 8) == v / 8 * 8;
  }

  lemma FitsZero(k: nat)
    ensures Fits(0, k)
  {
  }

  function Pow8(k: nat): nat {
    if k == 0 then 1 else 8 * Pow8(k - 1)
  }

  lemma {:induction false} FitsBelow(v: nat, k: nat)
    requires v < Pow8(k)
    ensures Fits(v, k)
  {
    if k > 0 { FitsBelow(v / 8, k - 1); }
  }

  lemma WordFits(v: u32)
    ensures Fits(v, 11)
  {
    assert Pow8(4) == 0x1000;
    assert Pow8(8) == 0x100_0000;
    assert Pow8(11) == 0x2_0000_0000;
    FitsBelow(v, 11);
  }

  /** A 12-byte field written for any 32-bit value reads back as that value. */
  lemma OctalRoundTrip(v: u32)
    ensures Octal(OctalField(v, SIZE_LENGTH), 0) == v
  {
    if v == 0 {
      FitsZero(SIZE_LENGTH);
      DigitsValue(0, SIZE_LENGTH);
    } else {
      WordFits(v);
      DigitsValue(v, SIZE_LENGTH - 1);
      DigitsNonNul(v, SIZE_LENGTH - 1);
      OctalConcat(OctalDigits(v, SIZE_LENGTH - 1), [0], 0);
    }
  }

  /** oct2uint */
  method Oct2Uint(oct: seq<byte>) returns (out: u32)
    ensures out == Octal(oct, 0)
  {
    hide Shifted;
    out := 0;
    var i := 0;
    while i < |oct| && oct[i] != 0
      invariant 0 <= i <= |oct| && Octal(oct, 0) == Octal(oct[i..], out)
    {
      assert oct[i..][1..] == oct[i + 1..];
      out := Shifted(out, oct[i]);
      i := i + 1;
    }
  }

  /** The value without its k lowest octal digits. */
  function Shift(v: nat, k: nat): nat {
    if k == 0 then v else Shift(v / 8, k - 1)
  }

  lemma {:induction false} ShiftNext(v: nat, k: nat)
    ensures Shift(v, k + 1) == Shift(v, k) / 8
  {
    if k > 0 { ShiftNext(v / 8, k - 1); }
  }

  lemma {:induction false} ShiftZero(v: nat, k: nat, j: nat)
    requires Shift(v, k) == 0 && k <= j
    ensures Shift(v, j) == 0
    decreases j
  {
    if k < j {
      ShiftZero(v, k, j - 1);
      ShiftNext(v, j - 1);
    }
  }

  lemma {:induction false} DigitsIndex(v: nat, k: nat, i: nat)
    requires i < k
    ensures OctalDigits(v, k)[i] == ZERO + Shift(v, k - 1 - i) % 8
  {
    if i < k - 1 { DigitsIndex(v / 8, k - 1, i); }
  }

  /** uint2oct, for a field with room for the digits and the NUL. */
  method Uint2Oct(oct: array<byte>, value: u32)
    requires oct.Length > 0 && Fits(value, oct.Length - 1)
    modifies oct
    ensures oct[..] == OctalField(value, oct.Length)
  {
    hide Octal, Shifted, OctalDigits;
    var size := oct.Length;
    var tmp := new byte[32];
    forall i | 0 <= i < size {
      oct[i] := ZERO;
    }
    if value == 0 {
      forall i | 0 <= i < size
        ensures OctalDigits(0, size)[i] == ZERO
      {
        DigitsIndex(0, size, i);
        ShiftZero(0, 0, size - 1 - i);
      }
      return;
    }
    WordFits(value);
    var pos: nat, v: nat := 0, value;
    while v != 0
      invariant 0 <= pos <= 11 && pos <= size - 1 && Fits(v, 11 - pos) && Fits(v, size - 1 - pos)
      invariant v == Shift(value, pos)
      invariant forall j: nat :: j < pos ==> tmp[j] == ZERO + Shift(value, j) % 8
      invariant forall i :: 0 <= i < size ==> oct[i] == ZERO
      decreases v
    {
      ShiftNext(value, pos);
      tmp[pos] := ZERO + v % 8;
      pos := pos + 1;
      v := v / 8;
    }
    ghost var n := pos;
    while pos != 0
      invariant 0 <= pos <= n
      invariant forall j: nat :: j < n ==> tmp[j] == ZERO + Shift(value, j) % 8
      invariant forall i :: 0 <= i < size ==>
                  oct[i] == if size - 1 - n <= i < size - 1 - pos then tmp[size - 2 - i] else ZERO
    {
      oct[size - pos - 1] := tmp[pos - 1];
      pos := pos - 1;
    }
    oct[size - 1] := 0;
    forall i | 0 <= i < size - 1
      ensures OctalDigits(value, size - 1)[i] == oct[i]
    {
      DigitsIndex(value, size - 1, i);
      if i < size - 1 - n { ShiftZero(value, n, size - 2 - i); }
    }
  }

  // ----- splicing

  /** d with the bytes b in place from position p on. */
  function Spliced(d: seq<byte>, p: int, b: seq<byte>): (r: seq<byte>)
    requires 0 <= p && p + |b| <= |d|
    ensures |r| == |d|
  {
    d[..p] + b + d[p + |b|..]
  }

  /** Two splices that meet are one. */
  lemma SplicedTwice(d: seq<byte>, p: int, b: seq<byte>, i: int, j: int)
    requires 0 <= p && 0 <= i <= j <= |b| && p + j <= |d|
    ensures Spliced(Spliced(d, p, b[..i]), p + i, b[i..j]) == Spliced(d, p, b[..j])
  {
    var x, y := Spliced(Spliced(d, p, b[..i]), p + i, b[i..j]), Spliced(d, p, b[..j]);
    assert b[..j] == b[..i] + b[i..j];
    assert Spliced(d, p, b[..i])[..p + i] == d[..p] + b[..i];
    assert Spliced(d, p, b[..i])[p + j..] == d[p + j..];
  }

  /** Reading a block, patching the copy and writing it back patches the device. */
  lemma SplicedBlock(d: seq<byte>, a: int, o: int, b: seq<byte>)
    requires 0 <= a && a + BLOCK_SIZE <= |d| && 0 <= o && o + |b| <= BLOCK_SIZE
    ensures Spliced(d, a, Spliced(d[a..a + BLOCK_SIZE], o, b)) == Spliced(d, a + o, b)
  {
    var e := d[a..a + BLOCK_SIZE];
    assert d[..a] + e[..o] == d[..a + o];
    assert e[o + |b|..] + d[a + BLOCK_SIZE..] == d[a + o + |b|..];
  }

  // ----- the file

  /** Overrun is no error of the program: the driver lets a copy through that leaves the disk, and the model stops. */
  datatype Error = NoErr | OutOfBound | WrongPartition | FileNotFound | Overrun

  /** What becomes of an access to size bytes at byte a of the data. */
  function Access(start: u32, length: nat, a: int, size: u32): Error {
    if !Accepts(start, length, a, size) then OutOfBound
    else if a + size > length then Overrun
    else NoErr
  }

  function FileSize(header: seq<byte>): u32
    requires |header| == BLOCK_SIZE
  {
    Octal(header[SIZE_AT..SIZE_AT + SIZE_LENGTH], 0)
  }

  /** How much of a request is written: the end test is made in 32-bit arithmetic. */
  function Clamped(cursor: u32, size: u32, fileSize: u32): u32 {
    if U32(cursor + size) > fileSize && cursor <= fileSize then fileSize - cursor else size
  }

  /** The request is cut at the end of the file exactly when cursor plus size does not wrap. */
  lemma ClampExact(cursor: u32, size: u32, fileSize: u32)
    requires cursor < fileSize
    ensures Clamped(cursor, size, fileSize) == (if size < fileSize - cursor then size else fileSize - cursor)
            <==> cursor + size < 0x1_0000_0000
  {
  }

  /** How many bytes ustar_write_file sets out to write. */
  function Amount(cursor: u32, size: u32, fileSize: u32): u32 {
    if cursor >= fileSize || size == 0 then 0 else Clamped(cursor, size, fileSize)
  }

  /** Nothing from the end of the file on; otherwise up to that end, unless cursor plus size wraps. */
  lemma AmountMeans(cursor: u32, size: u32, fileSize: u32)
    ensures cursor >= fileSize || size == 0 ==> Amount(cursor, size, fileSize) == 0
    ensures cursor < fileSize && cursor + size < 0x1_0000_0000 ==>
              Amount(cursor, size, fileSize) == if size < fileSize - cursor then size else fileSize - cursor
    ensures cursor < fileSize && cursor + size >= 0x1_0000_0000 ==> Amount(cursor, size, fileSize) == size
  {
  }

  /** What the first phase writes: the rest of a block the cursor stands inside of. */
  function Head(cursor: u32, size: u32): int {
    if cursor % BLOCK_SIZE == 0 then 0
    else if BLOCK_SIZE - cursor % BLOCK_SIZE < size then BLOCK_SIZE - cursor % BLOCK_SIZE
    else size
  }

  /** What the second phase writes of the rest: whole blocks, if there is more than one. */
  function Middle(rest: int): (m: int)
    ensures rest >= 0 ==> 0 <= m <= rest
  {
    if rest > BLOCK_SIZE then rest / BLOCK_SIZE * BLOCK_SIZE else 0
  }

  /** How far a write gets whose last block does not fit, with room bytes of the device behind the header. */
  function Progress(cursor: u32, size: u32, room: int): int {
    var head := Head(cursor, size);
    if head > 0 && (cursor / BLOCK_SIZE + 1) * BLOCK_SIZE > room then 0
    else head + (if cursor + head + Middle(size - head) <= room then Middle(size - head) else 0)
  }

  lemma HeadCases(cursor: u32, size: u32)
    ensures Head(cursor, size) == if cursor % BLOCK_SIZE == 0 then 0
              else if BLOCK_SIZE - cursor % BLOCK_SIZE < size then BLOCK_SIZE - cursor % BLOCK_SIZE else size
  {
  }

  lemma ProgressCases(cursor: u32, size: u32, room: int)
    ensures Head(cursor, size) == if cursor % BLOCK_SIZE == 0 then 0
              else if BLOCK_SIZE - cursor % BLOCK_SIZE < size then BLOCK_SIZE - cursor % BLOCK_SIZE else size
    ensures Head(cursor, size) > 0 && (cursor / BLOCK_SIZE + 1) * BLOCK_SIZE > room ==>
            Progress(cursor, size, room) == 0
    ensures Head(cursor, size) == 0 || (cursor / BLOCK_SIZE + 1) * BLOCK_SIZE <= room ==>
              var head := Head(cursor, size);
              Progress(cursor, size, room) ==
                head + if cursor + head + Middle(size - head) <= room then Middle(size - head) else 0
    ensures Head(cursor, size) > 0 && (cursor / BLOCK_SIZE + 1) * BLOCK_SIZE > room ==>
              && FailAt(cursor, size, room) == cursor / BLOCK_SIZE * BLOCK_SIZE
              && FailSize(cursor, size, room) == BLOCK_SIZE
    ensures Head(cursor, size) == 0 || (cursor / BLOCK_SIZE + 1) * BLOCK_SIZE <= room ==>
              var head := Head(cursor, size);
              var m := Middle(size - head);
              if cursor + head + m > room && m > 0
              then FailAt(cursor, size, room) == cursor + head && FailSize(cursor, size, room) == m
              else FailAt(cursor, size, room) == cursor + head + m && FailSize(cursor, size, room) == BLOCK_SIZE
  {
  }

  /** Where behind the header the access starts at which a write ends whose last block does not fit. */
  function FailAt(cursor: u32, size: u32, room: int): int {
    var head := Head(cursor, size);
    if head > 0 && (cursor / BLOCK_SIZE + 1) * BLOCK_SIZE > room then cursor / BLOCK_SIZE * BLOCK_SIZE
    else if cursor + head + Middle(size - head) > room then cursor + head
    else cursor + head + Middle(size - head)
  }

  /** How many bytes that access has. */
  function FailSize(cursor: u32, size: u32, room: int): u32 {
    var head := Head(cursor, size);
    if !(head > 0 && (cursor / BLOCK_SIZE + 1) * BLOCK_SIZE > room)
       && cursor + head + Middle(size - head) > room && Middle(size - head) > 0
    then Middle(size - head)
    else BLOCK_SIZE
  }

  /**
    A request that wraps with the cursor is not cut.  If the cursor stands on the
    disk, the rest of its block is written, past the end of a file that ends in
    this block.  Then the end of what follows wraps too, the driver accepts it,
    and the copy leaves the disk.
  */
  lemma WrapRunsPast(cursor: u32, size: u32, fileSize: u32, start: u32, length: nat, a: nat)
    requires cursor < fileSize && cursor + size >= 0x1_0000_0000 && InMemory(start, length)
    requires a >= BLOCK_SIZE && a + Head(cursor, size) + cursor <= length
    ensures Amount(cursor, size, fileSize) == size > fileSize - cursor
    ensures a + BlocksEnd(cursor + size) > length
    ensures var end := (cursor / BLOCK_SIZE + 1) * BLOCK_SIZE;
            Progress(cursor, size, length - a) == if cursor % BLOCK_SIZE != 0 then end - cursor else 0
    ensures var room := length - a;
            Access(start, length, a + FailAt(cursor, size, room), FailSize(cursor, size, room)) == Overrun
  {
    var room, m := length - a, Middle(size - Head(cursor, size));
    ProgressCases(cursor, size, room);
    assert cursor + Head(cursor, size) + m >= 0x1_0000_0000 - BLOCK_SIZE && m > 0;
    DriverExact(start, length, a + cursor + Head(cursor, size), m);
    hide Progress, FailAt, FailSize, Accepts, Middle;
  }

  /** The end of the last block that holds one of the first x bytes. */
  function BlocksEnd(x: int): int {
    (x + BLOCK_SIZE - 1) / BLOCK_SIZE * BLOCK_SIZE
  }

  /** The first phase needs one block, and that is all if the request ends in it. */
  lemma HeadEnd(cursor: u32, size: u32, write: int)
    requires size > 0 && cursor % BLOCK_SIZE != 0 && write == Head(cursor, size)
    ensures (cursor / BLOCK_SIZE + 1) * BLOCK_SIZE <= BlocksEnd(cursor + size)
    ensures write == size ==> (cursor / BLOCK_SIZE + 1) * BLOCK_SIZE == BlocksEnd(cursor + size)
    ensures write < size ==>
              (cursor + write) % BLOCK_SIZE == 0 && cursor + write == (cursor / BLOCK_SIZE + 1) * BLOCK_SIZE
  {
  }

  lemma RestEnd(cursor: u32, size: u32, write: int)
    requires size > 0 && 0 <= write <= size && (write < size ==> (cursor + write) % BLOCK_SIZE == 0)
    ensures write < size ==> cursor + write + BlocksEnd(size - write) == BlocksEnd(cursor + size)
  {
    if write < size { AlignedEnd((cursor + write) / BLOCK_SIZE, size - write); }
  }

  lemma AlignedEnd(q: int, r: int)
    ensures BlocksEnd(q * BLOCK_SIZE + r) == q * BLOCK_SIZE + BlocksEnd(r)
  {
  }

  /**
    A partition on a RAM disk.  The device scales a block number by its block size
    and then tests the bounds as the driver does; with blocks of one byte, the only
    use there is, this is the driver.
  */
  class Volume {
    const data: array<byte>
    const blockSize: u32
    const first: u64
    const start: u32

    constructor (data: array<byte>, blockSize: u32, first: u64, start: u32)
      ensures this.data == data && this.blockSize == blockSize && this.first == first && this.start == start
    {
      this.data, this.blockSize, this.first, this.start := data, blockSize, first, start;
    }

    /** Where block inode of the partition starts on the device. */
    function BlockAt(inode: int): int {
      first * blockSize + inode * BLOCK_SIZE
    }

    /** The block can be addressed in 32 bits. */
    predicate Reaches(inode: int) {
      Mountable(blockSize) && InReach(first, inode, blockSize)
    }

    /** The partition is mounted, and the disk lies in the 32-bit address space. */
    predicate Mounted() {
      Mountable(blockSize) && InMemory(start, data.Length)
    }

    /** What becomes of an access to size bytes of the disk from a on. */
    function Reached(a: int, size: u32): Error {
      Access(start, data.Length, a, size)
    }

    lemma ReachedCases(a: nat, size: u32)
      requires Mounted()
      ensures Reached(a, size) == NoErr <==> a + size <= data.Length
      ensures Reached(a, size) != NoErr ==> Reached(a, size) == OutOfBound || Reached(a, size) == Overrun
    {
      DriverExact(start, data.Length, a, size);
      hide Accepts, Mountable;
    }

    lemma AddressOf(inode: u32)
      requires Reaches(inode)
      ensures blockSize > 0 && Address(first, inode, blockSize) == BlockAt(inode) >= 0
    {
      AddressRight(first, inode, blockSize);
      hide Address;
      if first > 0 { MulAtLeast(first, blockSize); }
    }

    /** Every block that starts on the device or at its end can be addressed. */
    lemma ReachInside(inode: int)
      requires Mounted() && 0 <= inode && BlockAt(inode) <= data.Length
      ensures Reaches(inode)
    {
      var a := inode * BLOCK_SIZE;
      var q := Quotient(a, blockSize);
      MulNonNegative(first, blockSize);
      Division(a, blockSize);
      QuotientBound(a, blockSize);
      Distribute(first, q, blockSize);
      hide Quotient, Remainder;
      if first + q >= 1 { MulAtLeast(first + q, blockSize); }
    }

    /** The bounds test of initrd_read_blocks and initrd_write_blocks. */
    method TestBounds(a: nat, size: u32) returns (err: Error)
      requires Mounted()
      ensures err == Reached(a, size) && (err == NoErr <==> a + size <= data.Length)
      ensures err != NoErr ==> err == OutOfBound || err == Overrun
    {
      ReachedCases(a, size);
      var addr := U32(start + MASTER_SIZE + a);
      var end, limit := U32(addr + size), start + MASTER_SIZE + data.Length;
      if addr > limit || end > limit {
        return OutOfBound;
      }
      err := if a + size > data.Length then Overrun else NoErr;
    }

    /** ustar_access_blocks_from_device, reading one block. */
    method ReadBlock(inode: u32, block: array<byte>) returns (err: Error)
      requires Mounted() && Reaches(inode) && block.Length == BLOCK_SIZE && block != data
      modifies block
      ensures err == Reached(BlockAt(inode), BLOCK_SIZE) && BlockAt(inode) >= 0
      ensures err == NoErr <==> BlockAt(inode) + BLOCK_SIZE <= data.Length
      ensures err != NoErr ==> err == OutOfBound || err == Overrun
      ensures err == NoErr ==> block[..] == data[BlockAt(inode)..BlockAt(inode) + BLOCK_SIZE]
    {
      AddressOf(inode);
      hide PhysBlock, PhysOffset, Mountable;
      var a := PhysBlock(first, inode, blockSize) * blockSize + PhysOffset(inode, blockSize);
      assert a == BlockAt(inode);
      hide BlockAt;
      err := TestBounds(a, BLOCK_SIZE);
      if err != NoErr {
        return;
      }
      forall i | 0 <= i < BLOCK_SIZE {
        block[i] := data[a + i];
      }
    }

    /** ustar_access_blocks_from_device, writing count blocks. */
    method WriteBlocks(inode: u32, bytes: seq<byte>, count: nat) returns (err: Error)
      requires Mounted() && Reaches(inode) && count * BLOCK_SIZE <= |bytes| && count * BLOCK_SIZE < 0x1_0000_0000
      modifies data
      ensures err == Reached(BlockAt(inode), count * BLOCK_SIZE) && BlockAt(inode) >= 0
      ensures err == NoErr <==> BlockAt(inode) + count * BLOCK_SIZE <= data.Length
      ensures err != NoErr ==> err == OutOfBound || err == Overrun
      ensures err == NoErr ==> data[..] == Spliced(old(data[..]), BlockAt(inode), bytes[..count * BLOCK_SIZE])
      ensures err != NoErr ==> data[..] == old(data[..])
    {
      AddressOf(inode);
      hide PhysBlock, PhysOffset, Mountable;
      var a := PhysBlock(first, inode, blockSize) * blockSize + PhysOffset(inode, blockSize);
      assert a == BlockAt(inode);
      hide BlockAt;
      var size := count * BLOCK_SIZE;
      err := TestBounds(a, size);
      if err != NoErr {
        return;
      }
      hide Reached, Mounted;
      forall i | 0 <= i < size {
        data[a + i] := bytes[i];
      }
    }

    /** Read a block, copy bytes over part of it, write it back. */
    method PatchBlock(inode: u32, block: array<byte>, offset: int, bytes: seq<byte>) returns (err: Error)
      requires Mounted() && Reaches(inode) && block.Length == BLOCK_SIZE && block != data
      requires 0 <= offset && offset + |bytes| <= BLOCK_SIZE
      modifies block, data
      ensures err == Reached(BlockAt(inode), BLOCK_SIZE) && BlockAt(inode) >= 0
      ensures err == NoErr <==> BlockAt(inode) + BLOCK_SIZE <= data.Length
      ensures err != NoErr ==> err == OutOfBound || err == Overrun
      ensures err == NoErr ==> data[..] == Spliced(old(data[..]), BlockAt(inode) + offset, bytes)
      ensures err != NoErr ==> data[..] == old(data[..])
    {
      hide Reaches, BlockAt, Spliced, Mounted, Reached;
      err := ReadBlock(inode, block);
      if err != NoErr {
        return;
      }
      Overwrite(block, offset, bytes);
      err := WriteBlocks(inode, block[..], 1);
      SplicedBlock(old(data[..]), BlockAt(inode), offset, bytes);
      assert block[..BLOCK_SIZE] == block[..];
    }

    /** memcpy into a block */
    method Overwrite(block: array<byte>, offset: int, bytes: seq<byte>)
      requires block.Length == BLOCK_SIZE && block != data && 0 <= offset && offset + |bytes| <= BLOCK_SIZE
      modifies block
      ensures block[..] == Spliced(old(block[..]), offset, bytes)
    {
      forall i | 0 <= i < |bytes| {
        block[offset + i] := bytes[i];
      }
    }

    lemma BlockStep(inode: int, k: int)
      ensures BlockAt(inode + k) == BlockAt(inode) + k * BLOCK_SIZE
    {
    }

    lemma ReachesWord(inode: int)
      requires Reaches(inode)
      ensures 0 <= inode < 0x80_0000
    {
    }

    /** The second and third phase of ustar_write_file, at a block boundary: whole blocks, then the rest. */
    method WriteRest(inode: u32, ghost d0: seq<byte>, ghost pos: int,
                     buffer: seq<byte>, from: u32, size: u32, block: array<byte>)
      returns (err: Error, actual: u32, ghost done: int)
      requires Mounted() && Reaches(inode) && BlockAt(inode) == pos + from && pos >= 0
      requires from + size <= |buffer| && from + size < 0x1_0000_0000 && block.Length == BLOCK_SIZE && block != data
      requires Written(d0, data[..], pos, buffer, from)
      modifies block, data
      ensures Written(d0, data[..], pos, buffer, done)
      ensures err == NoErr <==> size == 0 || pos + from + BlocksEnd(size) <= data.Length
      ensures done == if err == NoErr then from + size
                      else from + (if pos + from + Middle(size) <= data.Length then Middle(size) else 0)
      ensures err != NoErr && pos + from + Middle(size) > data.Length && Middle(size) > 0 ==>
                err == Reached(pos + from, Middle(size))
      ensures err != NoErr && (pos + from + Middle(size) <= data.Length || Middle(size) == 0) ==>
                err == Reached(pos + from + Middle(size), BLOCK_SIZE)
      ensures actual == done && (err != NoErr ==> err == OutOfBound || err == Overrun)
    {
      hide Reaches, BlockAt, Written, Spliced, Mounted, Reached;
      var rest: int, write: int := size, from;
      var target: int := inode;
      ghost var d1 := data[..];
      if rest > BLOCK_SIZE {
        var blocks := rest / BLOCK_SIZE;
        err := WriteBlocks(target, buffer[write..], blocks);
        if err != NoErr {
          return err, write, write;
        }
        assert buffer[write..][..blocks * BLOCK_SIZE] == buffer[write..write + blocks * BLOCK_SIZE];
        WrittenMore(d0, d1, pos, buffer, write, blocks * BLOCK_SIZE, data[..]);
        write := write + blocks * BLOCK_SIZE;
        rest := rest - blocks * BLOCK_SIZE;
        target := target + blocks;
        BlockStep(inode, blocks);
        ReachInside(target);
        ReachesWord(target);
      }
      ghost var d2 := data[..];
      if rest != 0 {
        err := PatchBlock(target, block, 0, buffer[write..write + rest]);
        if err != NoErr {
          return err, write, write;
        }
        WrittenMore(d0, d2, pos, buffer, write, rest, data[..]);
        write := write + rest;
      }
      return NoErr, write, write;
    }

    /** What becomes of the access at which a write ends that does not fit. */
    function Failure(inode: u32, cursor: u32, size: u32): Error {
      var room := data.Length - BlockAt(inode + 1);
      Reached(BlockAt(inode + 1) + FailAt(cursor, size, room), FailSize(cursor, size, room))
    }

    lemma HeadFails(inode: u32, cursor: u32, size: u32)
      requires Head(cursor, size) > 0 && BlockAt(inode + 1) + (cursor / BLOCK_SIZE + 1) * BLOCK_SIZE > data.Length
      ensures Failure(inode, cursor, size) == Reached(BlockAt(inode + 1) + cursor / BLOCK_SIZE * BLOCK_SIZE, BLOCK_SIZE)
      ensures Progress(cursor, size, data.Length - BlockAt(inode + 1)) == 0
    {
      ProgressCases(cursor, size, data.Length - BlockAt(inode + 1));
      hide BlockAt, Head, Middle, FailAt, FailSize, Reached, Progress;
    }

    lemma RestFails(inode: u32, cursor: u32, size: u32, write: int)
      requires write == Head(cursor, size)
      requires write == 0 || BlockAt(inode + 1) + (cursor / BLOCK_SIZE + 1) * BLOCK_SIZE <= data.Length
      ensures 0 <= Middle(size - write) < 0x1_0000_0000
      ensures var b, m := BlockAt(inode + 1) + cursor + write, Middle(size - write);
              && (b + m > data.Length && m > 0 ==> Failure(inode, cursor, size) == Reached(b, m))
              && (b + m <= data.Length || m == 0 ==> Failure(inode, cursor, size) == Reached(b + m, BLOCK_SIZE))
              && Progress(cursor, size, data.Length - BlockAt(inode + 1))
                 == write + if b + m <= data.Length then m else 0
    {
      ProgressCases(cursor, size, data.Length - BlockAt(inode + 1));
      hide BlockAt, Head, Middle, FailAt, FailSize, Reached, Progress;
    }

    /** ustar_write_file, from the file size on: the bytes go to the data blocks behind the header. */
    method WriteData(inode: u32, cursor: u32, buffer: seq<byte>, size: u32, block: array<byte>, actual0: u32)
      returns (err: Error, actual: u32, ghost done: int)
      requires 0 < size <= |buffer| && block.Length == BLOCK_SIZE && block != data
      requires Mounted() && Reaches(inode + 1 + cursor / BLOCK_SIZE)
      modifies block, data
      ensures done <= size && Written(old(data[..]), data[..], BlockAt(inode + 1) + cursor, buffer, done)
      ensures err == NoErr <==> BlockAt(inode + 1) + BlocksEnd(cursor + size) <= data.Length
      ensures err == NoErr ==> done == size == actual
      ensures err != NoErr ==> done == Progress(cursor, size, data.Length - BlockAt(inode + 1))
      ensures err != NoErr ==> err == Failure(inode, cursor, size)
      ensures err != NoErr ==> actual == done || (done == 0 && actual == actual0)
    {
      hide Reaches, BlockAt, Written, Spliced, BlocksEnd, Mounted, Middle, Head, Progress, Failure, Reached;
      HeadCases(cursor, size);
      ghost var d0, pos := data[..], BlockAt(inode + 1) + cursor;
      WrittenNone(d0, pos, buffer);
      var target: int := inode + 1 + cursor / BLOCK_SIZE;
      var offset := cursor % BLOCK_SIZE;
      BlockStep(inode + 1, cursor / BLOCK_SIZE);
      BlockStep(inode + 1, cursor / BLOCK_SIZE + 1);
      ReachesWord(target);
      AddressOf(target);
      var write := 0;
      if offset != 0 {
        write := if BLOCK_SIZE - offset < size then BLOCK_SIZE - offset else size;
        HeadEnd(cursor, size, write);
        err := PatchBlock(target, block, offset, buffer[..write]);
        if err != NoErr {
          HeadFails(inode, cursor, size);
          return err, actual0, 0;
        }
        assert buffer[0..write] == buffer[..write];
        WrittenMore(d0, d0, pos, buffer, 0, write, data[..]);
        target := target + 1;
        ReachInside(target);
        ReachesWord(target);
      }
      RestEnd(cursor, size, write);
      if size == write {
        return NoErr, write, write;
      }
      RestFails(inode, cursor, size, write);
      err, actual, done := WriteRest(target, d0, pos, buffer, write, size - write, block);
    }

    /** The header block of the file, if the device has it. */
    ghost function Header(d: seq<byte>, inode: u32): (h: seq<byte>)
      ensures |h| == BLOCK_SIZE
    {
      if 0 <= BlockAt(inode) && BlockAt(inode) + BLOCK_SIZE <= |d|
      then d[BlockAt(inode)..BlockAt(inode) + BLOCK_SIZE]
      else seq(BLOCK_SIZE, _ => 0)
    }

    /** What ustar_write_file refuses to write to, and with which error. */
    ghost function Refusal(d: seq<byte>, inode: u32): Error {
      var h := Header(d, inode);
      if Reached(BlockAt(inode), BLOCK_SIZE) != NoErr then Reached(BlockAt(inode), BLOCK_SIZE)
      else if h[MAGIC_AT..MAGIC_AT + 6] != MAGIC then WrongPartition
      else if h[TYPE_AT] != ZERO then FileNotFound
      else NoErr
    }

    /** The number of bytes to write, as the header on the device determines it. */
    ghost function Request(d: seq<byte>, inode: u32, cursor: u32, size: u32): u32 {
      if Refusal(d, inode) != NoErr then 0 else Amount(cursor, size, FileSize(Header(d, inode)))
    }

    /** The header block of inode lies on the disk. */
    ghost predicate OnDisk(d: seq<byte>, inode: u32) {
      0 <= BlockAt(inode) && BlockAt(inode) + 512 <= |d|
    }

    /** Its bytes 257 to 262 say "ustar ". */
    ghost predicate HasMagic(d: seq<byte>, inode: u32)
      requires OnDisk(d, inode)
    {
      d[BlockAt(inode) + 257..BlockAt(inode) + 263] == [117, 115, 116, 97, 114, 32]
    }

    /** The header says "ustar " and, in byte 156, '0' for a regular file. */
    ghost predicate RegularFile(d: seq<byte>, inode: u32) {
      OnDisk(d, inode) && HasMagic(d, inode) && d[BlockAt(inode) + 156] == 48
    }

    /** The size field of its header, in bytes 124 to 135. */
    ghost function SizeField(d: seq<byte>, inode: u32): u32
      requires RegularFile(d, inode)
    {
      Octal(d[BlockAt(inode) + 124..BlockAt(inode) + 136], 0)
    }

    /** What is refused, on the bytes of the device. */
    lemma RefusalMeans(d: seq<byte>, inode: u32)
      requires Mounted() && Reaches(inode) && |d| == data.Length
      ensures 0 <= BlockAt(inode)
      ensures !OnDisk(d, inode) ==> Refusal(d, inode) == OutOfBound || Refusal(d, inode) == Overrun
      ensures OnDisk(d, inode) && !HasMagic(d, inode) ==> Refusal(d, inode) == WrongPartition
      ensures OnDisk(d, inode) && HasMagic(d, inode) && !RegularFile(d, inode) ==> Refusal(d, inode) == FileNotFound
      ensures Refusal(d, inode) == NoErr <==> RegularFile(d, inode)
    {
      AddressOf(inode);
      ReachedCases(BlockAt(inode), BLOCK_SIZE);
      hide Reaches, Mounted, Reached, BlockAt, Header;
      if OnDisk(d, inode) { HeaderBytes(d, inode); }
      hide HasMagic;
    }

    lemma HeaderBytes(d: seq<byte>, inode: u32)
      requires OnDisk(d, inode)
      ensures Header(d, inode)[MAGIC_AT..MAGIC_AT + 6] == MAGIC <==> HasMagic(d, inode)
      ensures Header(d, inode)[TYPE_AT] == d[BlockAt(inode) + 156]
    {
      hide BlockAt;
      var h := BlockAt(inode);
      assert Header(d, inode)[257..263] == d[h + 257..h + 263];
    }

    /** How much is written, on the bytes of the device. */
    lemma RequestMeans(d: seq<byte>, inode: u32, cursor: u32, size: u32)
      requires Mounted() && Reaches(inode) && |d| == data.Length
      ensures !RegularFile(d, inode) ==> Request(d, inode, cursor, size) == 0
      ensures RegularFile(d, inode) && (cursor >= SizeField(d, inode) || size == 0) ==>
                Request(d, inode, cursor, size) == 0
      ensures RegularFile(d, inode) && cursor < SizeField(d, inode) && cursor + size < 0x1_0000_0000 ==>
                Request(d, inode, cursor, size)
                == if size < SizeField(d, inode) - cursor then size else SizeField(d, inode) - cursor
      ensures RegularFile(d, inode) && cursor < SizeField(d, inode) && cursor + size >= 0x1_0000_0000 ==>
                Request(d, inode, cursor, size) == size
    {
      hide Reaches, Mounted, BlockAt, Octal, Refusal, RegularFile, SizeField, Amount, FileSize, Header;
      RefusalMeans(d, inode);
      if RegularFile(d, inode) {
        HeaderSize(d, inode);
        AmountMeans(cursor, size, SizeField(d, inode));
      }
    }

    lemma HeaderSize(d: seq<byte>, inode: u32)
      requires RegularFile(d, inode)
      ensures FileSize(Header(d, inode)) == SizeField(d, inode)
    {
      hide BlockAt, Octal;
      var h := BlockAt(inode);
      assert Header(d, inode)[124..136] == d[h + 124..h + 136];
    }

    /**
      ustar_write_file: success puts exactly the requested bytes inside the file
      at the cursor and changes nothing else on the device; a failure leaves
      those of the phases that fitted.
    */
    method WriteFile(inode: u32, cursor: u32, buffer: seq<byte>, size: u32, actual0: u32)
      returns (err: Error, actual: u32, ghost done: int)
      requires Mounted() && Reaches(inode) && Request(data[..], inode, cursor, size) <= |buffer|
      requires Request(data[..], inode, cursor, size) > 0 ==> Reaches(inode + 1 + cursor / BLOCK_SIZE)
      modifies data
      ensures Refusal(old(data[..]), inode) != NoErr ==>
                err == Refusal(old(data[..]), inode) && data[..] == old(data[..]) && actual == actual0
      ensures Refusal(old(data[..]), inode) == NoErr ==>
                var n := Request(old(data[..]), inode, cursor, size);
                && done <= n && Written(old(data[..]), data[..], BlockAt(inode + 1) + cursor, buffer, done)
                && (err == NoErr <==> n == 0 || BlockAt(inode + 1) + BlocksEnd(cursor + n) <= data.Length)
                && (err == NoErr ==> done == n == actual)
                && (err != NoErr ==> err == Failure(inode, cursor, n))
                && (err != NoErr ==> done == Progress(cursor, n, data.Length - BlockAt(inode + 1)))
                && (err != NoErr ==> actual == done || (done == 0 && actual == actual0))
      ensures var d := old(data[..]);
              && (OnDisk(d, inode) && !HasMagic(d, inode) ==>
                    err == WrongPartition && data[..] == d && actual == actual0)
              && (OnDisk(d, inode) && HasMagic(d, inode) && !RegularFile(d, inode) ==>
                    err == FileNotFound && data[..] == d && actual == actual0)
              && (err == NoErr ==> RegularFile(d, inode))
              && (RegularFile(d, inode) && (cursor >= SizeField(d, inode) || size == 0) ==>
                    err == NoErr && data[..] == d && actual == 0)
              && (err == NoErr && cursor < SizeField(d, inode) && cursor + size < 0x1_0000_0000 ==>
                    done == actual
                    == if size < SizeField(d, inode) - cursor then size else SizeField(d, inode) - cursor)
    {
      hide RegularFile, OnDisk, HasMagic, SizeField;
      hide Reaches, BlockAt, Written, Spliced, BlocksEnd, Octal, Mounted, Progress, Reached, Failure;
      RefusalMeans(data[..], inode);
      RequestMeans(data[..], inode, cursor, size);
      ReachesWord(inode);
      WrittenNone(data[..], BlockAt(inode + 1) + cursor, buffer);
      actual, done := actual0, 0;
      var block := new byte[BLOCK_SIZE];
      err := ReadBlock(inode, block);
      if err != NoErr {
        return;
      }
      assert block[..] == Header(old(data[..]), inode);
      if block[MAGIC_AT..MAGIC_AT + 6] != MAGIC {
        err := WrongPartition;
        return;
      }
      if block[TYPE_AT] != ZERO {
        err := FileNotFound;
        return;
      }
      var fileSize := Oct2Uint(block[SIZE_AT..SIZE_AT + SIZE_LENGTH]);
      assert block[SIZE_AT..SIZE_AT + SIZE_LENGTH] == block[..][SIZE_AT..SIZE_AT + SIZE_LENGTH];
      if cursor >= fileSize || size == 0 {
        return NoErr, 0, 0;
      }
      var rest := size;
      if U32(cursor + size) > fileSize {
        rest := fileSize - cursor;
      }
      err, actual, done := WriteData(inode, cursor, buffer, rest, block, actual0);
    }
  }

  /** A header of a regular file of the given size, with everything else zero. */
  function HeaderFor(size: u32): (h: seq<byte>)
    ensures |h| == BLOCK_SIZE
  {
    Zeros(SIZE_AT) + OctalField(size, SIZE_LENGTH) + Zeros(20) + [ZERO] + Zeros(100) + MAGIC + Zeros(249)
  }

  function Zeros(n: nat): (z: seq<byte>)
    ensures |z| == n
  {
    seq(n, _ => 0)
  }

  lemma HeaderFields(size: u32)
    ensures var h := HeaderFor(size);
            FileSize(h) == size && h[TYPE_AT] == ZERO && h[MAGIC_AT..MAGIC_AT + 6] == MAGIC
  {
    var h := HeaderFor(size);
    OctalRoundTrip(size);
    hide Octal, OctalField;
    assert h[SIZE_AT..SIZE_AT + SIZE_LENGTH] == OctalField(size, SIZE_LENGTH);
  }

  /** A write to a file of 10 bytes that changes a byte behind its end: byte 20 of the block. */
  method RunPast() returns (volume: Volume, err: Error)
    ensures fresh(volume) && volume.data.Length == 1024
            && volume.Request(HeaderFor(10) + Zeros(512), 0, 1, 0xFFFF_FFFF) == 0xFFFF_FFFF
    ensures err == Overrun && volume.data[BLOCK_SIZE + 20] == 7
  {
    hide OctalField, Octal, Written, Spliced, HeaderFor;
    HeaderFields(10);
    var content := HeaderFor(10) + Zeros(512);
    var data := new byte[1024](i requires 0 <= i < 1024 => content[i]);
    assert data[..] == content;
    volume := new Volume(data, 1, 0, 0xE0E2_8000);
    var buffer: seq<byte> := seq(0xFFFF_FFFF, _ => 7);
    assert volume.BlockAt(0) == 0 && volume.BlockAt(1) == 512;
    volume.ReachInside(0);
    volume.ReachInside(1);
    assert content[0..512] == HeaderFor(10);
    WrapRunsPast(1, 0xFFFF_FFFF, 10, volume.start, 1024, 512);
    ghost var done;
    var actual;
    err, actual, done := volume.WriteFile(0, 1, buffer, 0xFFFF_FFFF, 0);
    WrittenOutside(content, data[..], 513, buffer, done, 532);
  }

  /** The first done bytes of the buffer are on the device from pos on, and nothing else changed. */
  ghost predicate Written(d0: seq<byte>, d: seq<byte>, pos: int, buffer: seq<byte>, done: int) {
    && 0 <= done <= |buffer| && |d| == |d0|
    && if done == 0 then d == d0 else 0 <= pos && pos + done <= |d0| && d == Spliced(d0, pos, buffer[..done])
  }

  lemma WrittenNone(d: seq<byte>, pos: int, buffer: seq<byte>)
    ensures Written(d, d, pos, buffer, 0)
  {
  }

  lemma WrittenMore(d0: seq<byte>, d: seq<byte>, pos: int, buffer: seq<byte>, done: int, k: int, d': seq<byte>)
    requires Written(d0, d, pos, buffer, done) && 0 < k && done + k <= |buffer|
    requires 0 <= pos && pos + done + k <= |d| && d' == Spliced(d, pos + done, buffer[done..done + k])
    ensures Written(d0, d', pos, buffer, done + k)
  {
    if done == 0 {
      assert buffer[0..k] == buffer[..k];
    } else {
      SplicedTwice(d0, pos, buffer, done, done + k);
    }
  }

  /** Every byte outside the written range is as before, in particular the header in front of it. */
  lemma WrittenOutside(d0: seq<byte>, d: seq<byte>, pos: int, buffer: seq<byte>, done: int, i: int)
    requires Written(d0, d, pos, buffer, done) && 0 <= i < |d|
    ensures d[i] == if pos <= i < pos + done then buffer[i - pos] else d0[i]
  {
  }

  /** Past block 2^23 the byte number wraps, and the address is one in front of the block. */
  lemma AddressWraps(first: u64, inode: u32, bs: u32)
    requires Mountable(bs) && inode >= 0x80_0000
    ensures Address(first, inode, bs) < first * bs + inode * BLOCK_SIZE
  {
    var a := U32(inode * BLOCK_SIZE);
    var q := Quotient(a, bs);
    Division(a, bs);
    QuotientBound(a, bs);
    hide Quotient, Remainder;
    assert a + 0x1_0000_0000 <= inode * BLOCK_SIZE;
    WrapBlock(first, q, bs);
    WrapOffset(inode, bs);
    hide PhysBlock, PhysOffset;
  }

  lemma WrapBlock(first: u64, q: int, bs: u32)
    requires q >= 0
    ensures U32(first + q) * bs <= first * bs + q * bs
  {
    Distribute(first, q, bs);
    var x := first + q - U32(first + q);
    Distribute(first + q, x, bs);
    assert x >= 0;
    hide U32;
    MulNonNegative(x, bs);
  }

  lemma MulNonNegative(x: int, y: int)
    requires x >= 0 && y >= 0
    ensures x * y >= 0
  {
  }

  lemma WrapOffset(inode: u32, bs: u32)
    requires Mountable(bs)
    ensures PhysOffset(inode, bs) < bs
  {
    if bs > BLOCK_SIZE {
      Division(inode, bs / BLOCK_SIZE);
      hide Quotient, Remainder;
    }
  }
}
