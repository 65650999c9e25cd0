/**
  Base-2^16 digit strings, most significant digit first: the representation
  on which the 64-bit division routine computes, together with the 32-bit and
  16-bit word operations that its C macros denote.
*/
module Digits {

  /** Digit base: 2 to the power HALF_BITS. */
  const B: int := 0x1_0000

  type digit = x: int | 0 <= x < 0x1_0000
  type u32 = x: int | 0 <= x < 0x1_0000_0000
  type u64 = x: int | 0 <= x < 0x1_0000_0000_0000_0000

  /** The value a C expression of type uint32_t takes: arithmetic modulo 2^32. */
  function U32(x: int): u32 { x % 0x1_0000_0000 }

  /** The HHALF macro: upper sixteen bits. */
  function HHalf(x: u32): digit { x / 0x1_0000 }

  /** The LHALF macro: lower sixteen bits. */
  function LHalf(x: u32): digit { x % 0x1_0000 }

  /** The COMBINE macro. */
  function Combine(hi: digit, lo: digit): u32 { hi * 0x1_0000 + lo }

  function Pow(k: nat): (p: nat)
    ensures p >= 1
  {
    if k == 0 then 1 else 0x1_0000 * Pow(k - 1)
  }

  function Pow2(k: nat): (p: nat)
    ensures p >= 1
  {
    if k == 0 then 1 else 2 * Pow2(k - 1)
  }

  /** Value of the digits s[lo..hi] read in base B, most significant first. */
  ghost function Val(s: seq<digit>, lo: nat, hi: nat): nat
    requires lo <= hi <= |s|
    decreases hi - lo
  {
    if lo == hi then 0 else s[lo] * Pow(hi - lo - 1) + Val(s, lo + 1, hi)
  }

  lemma MulLe(a: int, b: int, p: int)
    requires a <= b && 0 <= p
    ensures a * p <= b * p
  {
  }

  lemma MulSplit(a: int, p: int, w: int, q: int)
    ensures (a * p + w) * q == a * (p * q) + w * q
  {
  }

  lemma {:induction false} PowAdd(a: nat, b: nat)
    ensures Pow(a + b) == Pow(a) * Pow(b)
  {
    if a == 0 {
    } else {
      PowAdd(a - 1, b);
      assert Pow(a + b) == B * Pow(a - 1 + b);
      assert B * (Pow(a - 1) * Pow(b)) == (B * Pow(a - 1)) * Pow(b);
    }
  }

  lemma {:induction false} ValBound(s: seq<digit>, lo: nat, hi: nat)
    requires lo <= hi <= |s|
    ensures Val(s, lo, hi) < Pow(hi - lo)
    decreases hi - lo
  {
    if lo < hi {
      ValBound(s, lo + 1, hi);
      MulLe(s[lo], B - 1, Pow(hi - lo - 1));
    }
  }

  /** Digit strings with the same digits have the same value. */
  lemma {:induction false} ValSame(s: seq<digit>, t: seq<digit>, lo: nat, hi: nat)
    requires lo <= hi <= |s| && hi <= |t|
    requires forall k :: lo <= k < hi ==> s[k] == t[k]
    ensures Val(s, lo, hi) == Val(t, lo, hi)
    decreases hi - lo
  {
    if lo < hi {
      ValSame(s, t, lo + 1, hi);
    }
  }

  lemma {:induction false} ValZero(s: seq<digit>, lo: nat, hi: nat)
    requires lo <= hi <= |s|
    requires forall k :: lo <= k < hi ==> s[k] == 0
    ensures Val(s, lo, hi) == 0
    decreases hi - lo
  {
    if lo < hi {
      ValZero(s, lo + 1, hi);
    }
  }

  lemma {:induction false} ValSplit(s: seq<digit>, lo: nat, mid: nat, hi: nat)
    requires lo <= mid <= hi <= |s|
    ensures Val(s, lo, hi) == Val(s, lo, mid) * Pow(hi - mid) + Val(s, mid, hi)
    decreases mid - lo
  {
    if lo < mid {
      ValSplit(s, lo + 1, mid, hi);
      PowAdd(mid - lo - 1, hi - mid);
      MulSplit(s[lo], Pow(mid - lo - 1), Val(s, lo + 1, mid), Pow(hi - mid));
    }
  }
}
