/**
  Unsigned 64-bit division in base 2^16: the schoolbook long division
  (Knuth's Algorithm D) that the kernel's C library uses where the machine has
  no 64-bit divide instruction.
*/
module Div64 {
  import opened Digits

  // ----- D3: the trial digit

  /**
    q is the quotient of the three leading dividend digits x by the two leading
    divisor digits v, capped at B - 1.
  */
  ghost predicate IsTrial(q: int, x: int, v: int) {
    && 0 <= q < 0x1_0000
    && q * v <= x
    && (q == 0xFFFF || x < (q + 1) * v)
  }

  /** The comparison that decides a correction, in 32-bit arithmetic. */
  predicate TooBig(qhat: u32, rhat: digit, uj2: digit, v2: digit) {
    U32(v2 * qhat) > Combine(rhat, uj2)
  }

  /** qhat and rhat balance against the two leading dividend digits x2. */
  ghost predicate Balance(q: int, r: int, x2: int, v1: int) {
    q * v1 + r == x2
  }

  ghost predicate AtMost(q: int, x: int, v: int) {
    q * v <= x
  }

  ghost function Pair(hi: int, lo: int): int {
    hi * 0x1_0000 + lo
  }

  lemma ProductFits(v: int, q: int)
    requires 0 <= v < 0x1_0000 && 0 <= q < 0x1_0000
    ensures 0 <= v * q <= 0xFFFE_0001
  {
    MulLe(0, v, q);
    MulLe(v, 0xFFFF, q);
  }

  /** The D3 comparison means exactly that q is too large; its product never wraps. */
  lemma TrialTest(q: u32, r: digit, x2: int, u2: digit, v1: digit, v2: digit)
    requires q < 0x1_0000 && Balance(q, r, x2, v1)
    ensures TooBig(q, r, u2, v2) <==> !AtMost(q, Pair(x2, u2), Pair(v1, v2))
  {
    ProductFits(v2, q);
    assert q * (v1 * 0x1_0000 + v2) == (q * v1) * 0x1_0000 + v2 * q;
  }

  lemma TrialFloor(q: int, r: int, x2: int, u2: digit, v1: digit, v2: digit)
    requires 0 <= q && r < v1 && Balance(q, r, x2, v1)
    ensures !AtMost(q + 1, Pair(x2, u2), Pair(v1, v2))
  {
    assert (q + 1) * (v1 * 0x1_0000 + v2) == (q * v1 + v1) * 0x1_0000 + (q + 1) * v2;
    MulLe(0, q + 1, v2);
  }

  /** Leaving the loop because the partial remainder reached B. */
  lemma TrialEnough(q: int, r: int, x2: int, u2: digit, v1: digit, v2: digit)
    requires 0 <= q < 0x1_0000 && r >= 0x1_0000 && Balance(q, r, x2, v1)
    ensures AtMost(q, Pair(x2, u2), Pair(v1, v2))
  {
    ProductFits(v2, q);
    assert q * (v1 * 0x1_0000 + v2) == (q * v1) * 0x1_0000 + v2 * q;
  }

  lemma BalanceStep(q: int, r: int, x2: int, v1: int)
    requires Balance(q, r, x2, v1)
    ensures Balance(q - 1, r + v1, x2, v1)
  {
    assert (q - 1) * v1 + v1 == q * v1;
  }

  lemma TrialPositive(q: int, x: int, v: int)
    requires 0 <= q && 0 <= x && !AtMost(q, x, v)
    ensures 0 < q
  {
  }

  lemma DivMod(x: int, v: int)
    requires v > 0
    ensures (x / v) * v + x % v == x && 0 <= x % v < v
  {
  }

  lemma QuotientBound(q: int, r: int, v: int, bound: int)
    requires 0 <= r < v && 0 <= q * v + r < bound * v
    ensures 0 <= q < bound
  {
    if q < 0 { MulLe(q, -1, v); } else if q >= bound { MulLe(bound, q, v); }
  }

  lemma FirstTrial(uj0: digit, uj1: digit, v1: digit) returns (q: int, r: int)
    requires uj0 < v1
    ensures q == Combine(uj0, uj1) / v1 && r == Combine(uj0, uj1) % v1
    ensures 0 <= q < 0x1_0000 && 0 <= r < v1 && Balance(q, r, Pair(uj0, uj1), v1)
  {
    var x := Combine(uj0, uj1);
    q, r := x / v1, x % v1;
    DivMod(x, v1);
    QuotientBound(q, r, v1, 0x1_0000);
  }

  lemma CapBalance(uj0: digit, uj1: digit)
    ensures Balance(0x1_0000, uj1, Pair(uj0, uj1), uj0)
  {
  }

  lemma TrialMade(q: int, x: int, v: int)
    requires 0 <= q < 0x1_0000 && AtMost(q, x, v) && (q == 0xFFFF || !AtMost(q + 1, x, v))
    ensures IsTrial(q, x, v)
  {
  }

  /**
    D3, with its jump into the middle of the correction loop.  No 32-bit
    expression wraps, and a normalised divisor is corrected at most twice.
  */
  method TrialDigit(uj0: digit, uj1: digit, uj2: digit, v1: digit, v2: digit)
    returns (qhat: u32, ghost corrections: nat)
    requires 0 < v1 && uj0 <= v1
    ensures IsTrial(qhat, Pair(Pair(uj0, uj1), uj2), Pair(v1, v2))
    ensures v1 >= 0x8000 ==> corrections <= 2
  {
    hide IsTrial, Balance, AtMost, Pair, TooBig, Combine;
    ghost var x2, vv := Pair(uj0, uj1), Pair(v1, v2);
    ghost var x3 := Pair(x2, uj2);
    corrections := 0;
    var rhat: u32;
    var correct: bool;
    if uj0 == v1 {
      qhat, rhat, correct := 0x1_0000, uj1, true;
      CapBalance(uj0, uj1);
    } else {
      var nn := Combine(uj0, uj1);
      ghost var q, r := FirstTrial(uj0, uj1, v1);
      qhat, rhat := nn / v1, nn % v1;
      TrialFloor(qhat, rhat, x2, uj2, v1, v2);
      TrialTest(qhat, rhat, x2, uj2, v1, v2);
      correct := TooBig(qhat, rhat, uj2, v2);
    }
    while correct
      invariant Balance(qhat, rhat, x2, v1)
      invariant qhat <= 0x1_0000
      invariant qhat >= 0xFFFF || !AtMost(qhat + 1, x3, vv)
      invariant correct ==> rhat < 0x1_0000 && (qhat == 0x1_0000 || !AtMost(qhat, x3, vv))
      invariant !correct ==> qhat < 0x1_0000 && AtMost(qhat, x3, vv)
      invariant v1 >= 0x8000 ==> corrections <= 2 && (correct ==> corrections * 0x8000 <= rhat)
      decreases qhat, correct
    {
      if qhat != 0x1_0000 {
        PairNonNegative(uj0, uj1, uj2);
        TrialPositive(qhat, x3, vv);
      }
      BalanceStep(qhat, rhat, x2, v1);
      qhat := qhat - 1;
      rhat := U32(rhat + v1);
      corrections := corrections + 1;
      if rhat >= 0x1_0000 {
        TrialEnough(qhat, rhat, x2, uj2, v1, v2);
        break;
      }
      TrialTest(qhat, rhat, x2, uj2, v1, v2);
      correct := TooBig(qhat, rhat, uj2, v2);
    }
    TrialMade(qhat, x3, vv);
  }

  lemma PairNonNegative(a: digit, b: digit, c: digit)
    ensures Pair(Pair(a, b), c) >= 0
  {
  }

  /**
    The trial digit is the true quotient digit or exactly one more.  x and v are
    the whole window and divisor; x3 and v12 their leading three and two digits.
  */
  lemma TrialTight(qhat: int, x: int, v: int, x3: int, xr: int, v12: int, vr: int, p: int)
    requires x == x3 * p + xr && 0 <= xr < p && 0 <= x3
    requires v == v12 * p + vr && 0 <= vr < p && 0x1_0000 <= v12
    requires x < 0x1_0000 * v
    requires IsTrial(qhat, x3, v12)
    ensures (qhat - 1) * v <= x < (qhat + 1) * v
  {
    TrialUpper(qhat, x, v, x3, xr, v12, vr, p);
    TrialLower(qhat, x, v, x3, xr, v12, vr, p);
  }

  lemma TrialUpper(qhat: int, x: int, v: int, x3: int, xr: int, v12: int, vr: int, p: int)
    requires x == x3 * p + xr && 0 <= xr < p && 0 <= x3
    requires v == v12 * p + vr && 0 <= vr < p && 0x1_0000 <= v12
    requires x < 0x1_0000 * v
    requires IsTrial(qhat, x3, v12)
    ensures x < (qhat + 1) * v
  {
    if qhat < 0xFFFF {
      MulLe(x3 + 1, (qhat + 1) * v12, p);
      MulLe(v12 * p, v, qhat + 1);
      Assoc(qhat + 1, v12, p);
      SuccTimes(x3, p);
    }
  }

  lemma TrialLower(qhat: int, x: int, v: int, x3: int, xr: int, v12: int, vr: int, p: int)
    requires x == x3 * p + xr && 0 <= xr < p && 0 <= x3
    requires v == v12 * p + vr && 0 <= vr < p && 0x1_0000 <= v12
    requires IsTrial(qhat, x3, v12)
    ensures (qhat - 1) * v <= x
  {
    if qhat == 0 {
      MulLe(0, v12, p);
    } else {
      SuccTimes(v12, p);
      MulLe(v, (v12 + 1) * p, qhat - 1);
      Assoc(qhat - 1, v12 + 1, p);
      Foil(qhat, v12);
      MulLe((qhat - 1) * (v12 + 1), x3, p);
    }
  }

  lemma Assoc(a: int, b: int, c: int)
    ensures (a * b) * c == a * (b * c) == (b * c) * a
  {
  }

  lemma SuccTimes(a: int, p: int)
    ensures (a + 1) * p == a * p + p
  {
  }

  lemma Foil(q: int, v: int)
    ensures (q - 1) * (v + 1) == q * v + q - v - 1
  {
  }

  // ----- D4 and D6: multiply and subtract, add back

  /** D4 on one digit: 32-bit wrap-around arithmetic yields the digit and the borrow. */
  function SubDigit(u: digit, v: digit, qhat: digit, t: digit): u32 {
    U32(U32(u - U32(v * qhat)) - t)
  }

  function Borrow(t: u32): digit {
    (0x1_0000 - HHalf(t)) % 0x1_0000
  }

  lemma SubDigitMeaning(u: digit, v: digit, qhat: digit, t: digit)
    ensures var x := SubDigit(u, v, qhat, t);
            u - v * qhat - t == LHalf(x) - Borrow(x) * 0x1_0000
  {
    ProductFits(v, qhat);
    Wrapped(u, v * qhat, t);
  }

  lemma Wrapped(u: digit, p: int, t: digit)
    requires 0 <= p <= 0xFFFE_0001
    ensures var x := U32(U32(u - U32(p)) - t); u - p - t == LHalf(x) - Borrow(x) * 0x1_0000
  {
  }

  /** Digits i+1..n of the window have been processed, t is the borrow out of them. */
  ghost predicate SubDone(u0: seq<digit>, s: seq<digit>, v: seq<digit>, uj: nat, v0: nat, n: nat, i: nat,
                          qhat: int, t: int)
  {
    && i <= n && uj + n < |u0| == |s| && v0 + n < |v|
    && (forall k :: 0 <= k <= uj + i || uj + n < k < |s| ==> s[k] == u0[k])
    && Val(s, uj + i + 1, uj + n + 1) - t * Pow(n - i)
       == Val(u0, uj + i + 1, uj + n + 1) - qhat * Val(v, v0 + i + 1, v0 + n + 1)
  }

  lemma SubStart(u0: seq<digit>, v: seq<digit>, uj: nat, v0: nat, n: nat, qhat: int)
    requires uj + n < |u0| && v0 + n < |v|
    ensures SubDone(u0, u0, v, uj, v0, n, n, qhat, 0)
  {
  }

  lemma SubRing(d: int, t: int, t': int, u: int, v: int, q: int, p: int, sTail: int, uTail: int, vTail: int)
    requires u - v * q - t == d - t' * 0x1_0000
    requires sTail - t * p == uTail - q * vTail
    ensures (d * p + sTail) - t' * (0x1_0000 * p) == (u * p + uTail) - q * (v * p + vTail)
  {
    assert (u - v * q - t) * p == (d - t' * 0x1_0000) * p;
  }

  lemma SubStep(u0: seq<digit>, s: seq<digit>, v: seq<digit>, uj: nat, v0: nat, n: nat, i: nat,
                qhat: int, t: int, d: digit, t': int)
    requires 0 < i && SubDone(u0, s, v, uj, v0, n, i, qhat, t)
    requires u0[uj + i] - v[v0 + i] * qhat - t == d - t' * 0x1_0000
    ensures SubDone(u0, s[uj + i := d], v, uj, v0, n, i - 1, qhat, t')
  {
    var s' := s[uj + i := d];
    ValSame(s, s', uj + i + 1, uj + n + 1);
    SubRing(d, t, t', u0[uj + i], v[v0 + i], qhat, Pow(n - i),
            Val(s, uj + i + 1, uj + n + 1), Val(u0, uj + i + 1, uj + n + 1), Val(v, v0 + i + 1, v0 + n + 1));
  }

  /**
    D4: subtract qhat times the divisor from the window u[j..j+n], in place.
    A final borrow is left in the window as a surplus of B^(n+1).
  */
  method MulSub(us: array<digit>, vs: array<digit>, uj: nat, v0: nat, n: nat, qhat: digit) returns (borrow: bool)
    requires us != vs && uj + n < us.Length && v0 + n < vs.Length
    modifies us
    ensures forall k :: 0 <= k < us.Length && !(uj <= k <= uj + n) ==> us[k] == old(us[k])
    ensures Val(us[..], uj, uj + n + 1)
            == Val(old(us[..]), uj, uj + n + 1)
              - qhat * Val(vs[..], v0 + 1, v0 + n + 1) + (if borrow then Pow(n + 1) else 0)
  {
    hide *;
    ghost var u0, v := us[..], vs[..];
    var t: u32, i := 0, n;
    SubStart(u0, v, uj, v0, n, qhat);
    while i > 0
      invariant vs[..] == v
      invariant 0 <= i <= n && t < 0x1_0000
      invariant forall k :: 0 <= k <= uj + i || uj + n < k < us.Length ==> us[k] == u0[k]
      invariant SubDone(u0, us[..], v, uj, v0, n, i, qhat, t)
    {
      ghost var s := us[..];
      SubDigitMeaning(us[uj + i], vs[v0 + i], qhat, t);
      ghost var t' := t;
      t := SubDigit(us[uj + i], vs[v0 + i], qhat, t);
      SubStep(u0, s, v, uj, v0, n, i, qhat, t', LHalf(t), Borrow(t));
      us[uj + i] := LHalf(t);
      assert us[..] == s[uj + i := LHalf(t)];
      t := Borrow(t);
      i := i - 1;
    }
    ghost var s, t' := us[..], t;
    t := U32(us[uj] - t);
    us[uj] := LHalf(t);
    borrow := HHalf(t) != 0;
    assert us[..] == s[uj := LHalf(t)];
    SubEnd(u0, s, v, uj, v0, n, qhat, t', t);
  }

  lemma SubEnd(u0: seq<digit>, s: seq<digit>, v: seq<digit>, uj: nat, v0: nat, n: nat,
               qhat: int, t: digit, tt: u32)
    requires SubDone(u0, s, v, uj, v0, n, 0, qhat, t)
    requires tt == U32(s[uj] - t)
    ensures Val(s[uj := LHalf(tt)], uj, uj + n + 1)
            == Val(u0, uj, uj + n + 1) - qhat * Val(v, v0 + 1, v0 + n + 1) + (if HHalf(tt) != 0 then Pow(n + 1) else 0)
  {
    var d, s' := LHalf(tt), s[uj := LHalf(tt)];
    ValSame(s, s', uj + 1, uj + n + 1);
    LastDigit(s[uj], t);
    var b := if HHalf(tt) != 0 then 1 else 0;
    LastRing(u0[uj], t, d, b, Pow(n), Pow(n + 1));
  }

  lemma LastDigit(u: digit, t: digit)
    ensures var tt := U32(u - t); u - t == LHalf(tt) - (if HHalf(tt) != 0 then 0x1_0000 else 0)
  {
  }

  lemma LastRing(u: int, t: int, d: int, b: int, p: int, p1: int)
    requires u - t == d - b * 0x1_0000 && p1 == 0x1_0000 * p && (b == 0 || b == 1)
    ensures d * p == u * p - t * p + (if b == 1 then p1 else 0)
  {
    assert (u - t) * p == (d - b * 0x1_0000) * p;
  }

  /** Digits i+1..n of the window have been added to, t is the carry out of them. */
  ghost predicate AddDone(u0: seq<digit>, s: seq<digit>, v: seq<digit>, uj: nat, v0: nat, n: nat, i: nat, t: int) {
    && i <= n && uj + n < |u0| == |s| && v0 + n < |v|
    && (forall k :: 0 <= k <= uj + i || uj + n < k < |s| ==> s[k] == u0[k])
    && Val(s, uj + i + 1, uj + n + 1) + t * Pow(n - i)
       == Val(u0, uj + i + 1, uj + n + 1) + Val(v, v0 + i + 1, v0 + n + 1)
  }

  lemma AddStart(u0: seq<digit>, v: seq<digit>, uj: nat, v0: nat, n: nat)
    requires uj + n < |u0| && v0 + n < |v|
    ensures AddDone(u0, u0, v, uj, v0, n, n, 0)
  {
  }

  lemma AddRing(d: int, t: int, t': int, u: int, v: int, p: int, sTail: int, uTail: int, vTail: int)
    requires u + v + t == d + t' * 0x1_0000
    requires sTail + t * p == uTail + vTail
    ensures (d * p + sTail) + t' * (0x1_0000 * p) == (u * p + uTail) + (v * p + vTail)
  {
    assert (u + v + t) * p == (d + t' * 0x1_0000) * p;
  }

  lemma AddStep(u0: seq<digit>, s: seq<digit>, v: seq<digit>, uj: nat, v0: nat, n: nat, i: nat,
                t: int, d: digit, t': int)
    requires 0 < i && AddDone(u0, s, v, uj, v0, n, i, t)
    requires u0[uj + i] + v[v0 + i] + t == d + t' * 0x1_0000
    ensures AddDone(u0, s[uj + i := d], v, uj, v0, n, i - 1, t')
  {
    var s' := s[uj + i := d];
    ValSame(s, s', uj + i + 1, uj + n + 1);
    AddRing(d, t, t', u0[uj + i], v[v0 + i], Pow(n - i),
            Val(s, uj + i + 1, uj + n + 1), Val(u0, uj + i + 1, uj + n + 1), Val(v, v0 + i + 1, v0 + n + 1));
  }

  lemma HalvesMeaning(x: u32)
    ensures x == HHalf(x) * 0x1_0000 + LHalf(x)
    ensures x < 0x2_0000 ==> HHalf(x) <= 1
  {
  }

  lemma AddEnd(u0: seq<digit>, s: seq<digit>, v: seq<digit>, uj: nat, v0: nat, n: nat, t: int, tt: u32)
    requires AddDone(u0, s, v, uj, v0, n, 0, t) && 0 <= t <= 1
    requires tt == s[uj] + t
    ensures Val(s[uj := LHalf(tt)], uj, uj + n + 1)
            == Val(u0, uj, uj + n + 1) + Val(v, v0 + 1, v0 + n + 1) - HHalf(tt) * Pow(n + 1)
    ensures HHalf(tt) <= 1
  {
    var d, s' := LHalf(tt), s[uj := LHalf(tt)];
    ValSame(s, s', uj + 1, uj + n + 1);
    HalvesMeaning(tt);
    LastAddRing(u0[uj], t, d, HHalf(tt), Pow(n));
  }

  lemma LastAddRing(u: int, t: int, d: int, b: int, p: int)
    requires u + t == d + b * 0x1_0000
    ensures d * p + b * (0x1_0000 * p) == u * p + t * p
  {
    assert (u + t) * p == (d + b * 0x1_0000) * p;
  }

  /** D6: add the divisor back into the window, dropping the carry out of its top digit. */
  method AddBack(us: array<digit>, vs: array<digit>, uj: nat, v0: nat, n: nat)
    requires us != vs && uj + n < us.Length && v0 + n < vs.Length
    modifies us
    ensures forall k :: 0 <= k < us.Length && !(uj <= k <= uj + n) ==> us[k] == old(us[k])
    ensures var w := Val(old(us[..]), uj, uj + n + 1) + Val(vs[..], v0 + 1, v0 + n + 1);
            Val(us[..], uj, uj + n + 1) == w || Val(us[..], uj, uj + n + 1) == w - Pow(n + 1)
  {
    hide *;
    ghost var u0, v := us[..], vs[..];
    var t: u32, i := 0, n;
    AddStart(u0, v, uj, v0, n);
    while i > 0
      invariant vs[..] == v
      invariant 0 <= i <= n && t <= 1
      invariant forall k :: 0 <= k <= uj + i || uj + n < k < us.Length ==> us[k] == u0[k]
      invariant AddDone(u0, us[..], v, uj, v0, n, i, t)
    {
      ghost var s := us[..];
      ghost var t' := t;
      t := t + us[uj + i] + vs[v0 + i];
      HalvesMeaning(t);
      AddStep(u0, s, v, uj, v0, n, i, t', LHalf(t), HHalf(t));
      us[uj + i] := LHalf(t);
      assert us[..] == s[uj + i := LHalf(t)];
      t := HHalf(t);
      i := i - 1;
    }
    ghost var s := us[..];
    AddEnd(u0, s, v, uj, v0, n, t, us[uj] + t);
    us[uj] := LHalf(us[uj] + t);
    assert us[..] == s[uj := us[uj]];
  }

  // ----- one quotient digit: D3 to D6

  /** The window holds fewer than B divisors when its n leading digits hold less than one. */
  lemma WindowBelow(s: seq<digit>, lo: nat, n: nat, v: int)
    requires lo + n < |s| && Val(s, lo, lo + n) < v
    ensures Val(s, lo, lo + n + 1) < 0x1_0000 * v
  {
    ValSplit(s, lo, lo + n, lo + n + 1);
    assert Pow(1) == 0x1_0000 && Val(s, lo + n, lo + n + 1) == s[lo + n];
  }

  lemma LeadingDigit(s: seq<digit>, lo: nat, n: nat)
    requires 0 < n && lo + n <= |s|
    ensures s[lo] * Pow(n - 1) <= Val(s, lo, lo + n) < (s[lo] + 1) * Pow(n - 1)
  {
    ValBound(s, lo + 1, lo + n);
    SuccTimes(s[lo], Pow(n - 1));
  }

  lemma LeadingOrder(s: seq<digit>, lo: nat, v: seq<digit>, v0: nat, n: nat)
    requires 0 < n && lo + n <= |s| && v0 + n <= |v|
    requires Val(s, lo, lo + n) < Val(v, v0, v0 + n)
    ensures s[lo] <= v[v0]
  {
    LeadingDigit(s, lo, n);
    LeadingDigit(v, v0, n);
    if s[lo] > v[v0] { MulLe(v[v0] + 1, s[lo], Pow(n - 1)); }
  }

  lemma LeadingTwo(v: seq<digit>, v0: nat, n: nat)
    requires 2 <= n && v0 + n <= |v|
    ensures Val(v, v0, v0 + n) == Pair(v[v0], v[v0 + 1]) * Pow(n - 2) + Val(v, v0 + 2, v0 + n)
    ensures Val(v, v0 + 2, v0 + n) < Pow(n - 2)
  {
    ValBound(v, v0 + 2, v0 + n);
    MulSplit(v[v0], 0x1_0000, v[v0 + 1], Pow(n - 2));
  }

  lemma LeadingThree(s: seq<digit>, lo: nat, n: nat)
    requires 2 <= n && lo + n < |s|
    ensures Val(s, lo, lo + n + 1)
            == Pair(Pair(s[lo], s[lo + 1]), s[lo + 2]) * Pow(n - 2) + Val(s, lo + 3, lo + n + 1)
    ensures Val(s, lo + 3, lo + n + 1) < Pow(n - 2)
  {
    LeadingTwo(s, lo, n + 1);
    ValBound(s, lo + 3, lo + n + 1);
    MulSplit(Pair(s[lo], s[lo + 1]), 0x1_0000, s[lo + 2], Pow(n - 2));
  }

  lemma PairLarge(v1: digit, v2: digit)
    requires 0 < v1
    ensures Pair(v1, v2) >= 0x1_0000
  {
  }

  /** What D3 establishes for a whole window, ready for D4. */
  lemma WindowTrial(s: seq<digit>, lo: nat, v: seq<digit>, v0: nat, n: nat, qhat: int)
    requires 2 <= n && lo + n < |s| && v0 + n < |v| && 0 < v[v0 + 1]
    requires Val(s, lo, lo + n) < Val(v, v0 + 1, v0 + n + 1)
    requires IsTrial(qhat, Pair(Pair(s[lo], s[lo + 1]), s[lo + 2]), Pair(v[v0 + 1], v[v0 + 2]))
    ensures 0 <= qhat < 0x1_0000
    ensures (qhat - 1) * Val(v, v0 + 1, v0 + n + 1) <= Val(s, lo, lo + n + 1) < (qhat + 1) * Val(v, v0 + 1, v0 + n + 1)
  {
    hide Val, Pow, Pair;
    WindowBelow(s, lo, n, Val(v, v0 + 1, v0 + n + 1));
    LeadingThree(s, lo, n);
    LeadingTwo(v, v0 + 1, n);
    PairLarge(v[v0 + 1], v[v0 + 2]);
    PairNonNegative(s[lo], s[lo + 1], s[lo + 2]);
    TrialTight(qhat, Val(s, lo, lo + n + 1), Val(v, v0 + 1, v0 + n + 1),
               Pair(Pair(s[lo], s[lo + 1]), s[lo + 2]), Val(s, lo + 3, lo + n + 1),
               Pair(v[v0 + 1], v[v0 + 2]), Val(v, v0 + 3, v0 + n + 1), Pow(n - 2));
  }

  /** D5: the borrow appears exactly when the trial digit was one too large. */
  lemma BorrowMeaning(qhat: int, x: int, v: int, w: int, p: int, borrow: bool)
    requires (qhat - 1) * v <= x < (qhat + 1) * v
    requires w == x - qhat * v + (if borrow then p else 0)
    requires 0 <= w < p && 0 <= v < p
    ensures borrow <==> x < qhat * v
    ensures !borrow ==> x == qhat * v + w && w < v
    ensures borrow ==> x == (qhat - 1) * v + (w + v - p) && 0 <= w + v - p < v
    ensures borrow && 0 <= x ==> 0 < qhat
  {
    SuccTimes(qhat, v);
    SuccTimes(qhat - 1, v);
  }

  /** D3 to D6: one quotient digit, exact, leaving a window smaller than the divisor. */
  method DivideStep(us: array<digit>, vs: array<digit>, uj: nat, v0: nat, n: nat) returns (q: digit)
    requires us != vs && 2 <= n && uj + n < us.Length && v0 + n < vs.Length && 0x8000 <= vs[v0 + 1]
    requires Val(us[..], uj, uj + n) < Val(vs[..], v0 + 1, v0 + n + 1)
    modifies us
    ensures forall k :: 0 <= k < us.Length && !(uj <= k <= uj + n) ==> us[k] == old(us[k])
    ensures Val(old(us[..]), uj, uj + n + 1)
            == q * Val(vs[..], v0 + 1, v0 + n + 1) + Val(us[..], uj, uj + n + 1)
    ensures Val(us[..], uj, uj + n + 1) < Val(vs[..], v0 + 1, v0 + n + 1)
  {
    hide *;
    ghost var v, x, p := Val(vs[..], v0 + 1, v0 + n + 1), Val(us[..], uj, uj + n + 1), Pow(n + 1);
    LeadingOrder(us[..], uj, vs[..], v0 + 1, n);
    var qhat, corrections := TrialDigit(us[uj], us[uj + 1], us[uj + 2], vs[v0 + 1], vs[v0 + 2]);
    WindowTrial(us[..], uj, vs[..], v0, n, qhat);
    var borrow := MulSub(us, vs, uj, v0, n, qhat);
    ValBound(us[..], uj, uj + n + 1);
    DivisorBelow(vs[..], v0, n);
    BorrowMeaning(qhat, x, v, Val(us[..], uj, uj + n + 1), p, borrow);
    if borrow {
      qhat := qhat - 1;
      AddBack(us, vs, uj, v0, n);
      ValBound(us[..], uj, uj + n + 1);
    }
    q := qhat;
  }

  lemma DivisorBelow(v: seq<digit>, v0: nat, n: nat)
    requires v0 + n < |v|
    ensures Val(v, v0 + 1, v0 + n + 1) < Pow(n) <= Pow(n + 1)
  {
    ValBound(v, v0 + 1, v0 + n + 1);
  }

  // ----- D1 and D8: shifting a digit string

  lemma DivShrinks(x: int, p: int)
    requires 0 <= x && 1 <= p
    ensures 0 <= x / p <= x
  {
    DivMod(x, p);
    MulLe(1, p, x + 1);
    QuotientBound(x / p, x % p, p, x + 1);
  }

  /** The bits that leave a digit when it is shifted left by sh. */
  function Carry(x: digit, sh: nat): digit
    requires sh <= 16
  {
    DivShrinks(x, Pow2(16 - sh));
    x / Pow2(16 - sh)
  }

  /** The bits that stay in a digit when it is shifted left by sh. */
  function Kept(x: digit, sh: nat): digit
    requires sh < 16
  {
    LHalf(U32(x * Pow2(sh)))
  }

  lemma {:induction false} Pow2Add(a: nat, b: nat)
    ensures Pow2(a + b) == Pow2(a) * Pow2(b)
  {
    if a != 0 {
      Pow2Add(a - 1, b);
      Assoc(2, Pow2(a - 1), Pow2(b));
    }
  }

  lemma Pow2Sixteen()
    ensures Pow2(16) == 0x1_0000
  {
    assert Pow2(4) == 16;
    Pow2Add(4, 4);
    Pow2Add(8, 8);
  }

  lemma Pow2Split(sh: nat)
    requires sh <= 16
    ensures Pow2(sh) * Pow2(16 - sh) == 0x1_0000
  {
    Pow2Add(sh, 16 - sh);
    Pow2Sixteen();
  }

  lemma ShiftArithmetic(x: int, c: int, r: int, a: int, b: int)
    requires a * b == 0x1_0000 && x == c * b + r && 0 <= r < b && 0 < a
    ensures x * a == c * 0x1_0000 + r * a && 0 <= r * a <= 0x1_0000 - a
  {
    Assoc(c, b, a);
    MulLe(r, b - 1, a);
    MulLe(0, r, a);
    SuccTimes(b - 1, a);
    assert (c * b + r) * a == (c * b) * a + r * a;
  }

  lemma LowHalf(y: int, c: int, l: int)
    requires y == c * 0x1_0000 + l && 0 <= l < 0x1_0000 && 0 <= c < 0x1_0000
    ensures U32(y) == y && LHalf(U32(y)) == l && HHalf(U32(y)) == c
  {
  }

  /**
    Shifting a digit splits it into a carry and a kept part, and the kept part
    and a carry from the right never overlap: their OR is their sum.
  */
  lemma ShiftDigit(x: digit, sh: nat)
    requires sh < 16
    ensures x * Pow2(sh) == Carry(x, sh) * 0x1_0000 + Kept(x, sh)
    ensures Carry(x, sh) < Pow2(sh) && Kept(x, sh) <= 0x1_0000 - Pow2(sh)
  {
    hide U32, LHalf, Pow2;
    var a, b := Pow2(sh), Pow2(16 - sh);
    Pow2Split(sh);
    DivMod(x, b);
    QuotientBound(x / b, x % b, b, a);
    ShiftArithmetic(x, x / b, x % b, a, b);
    LowHalf(x * a, x / b, (x % b) * a);
  }

  ghost function CarryInto(s: seq<digit>, k: nat, hi: nat, sh: nat): digit
    requires k < hi <= |s| && sh < 16
  {
    if k + 1 < hi then Carry(s[k + 1], sh) else 0
  }

  /** What the loop of shl leaves at digit k. */
  ghost predicate Shifted(s: seq<digit>, t: seq<digit>, k: nat, hi: nat, sh: nat)
    requires k < hi <= |s| && hi <= |t| && sh < 16
  {
    t[k] == Kept(s[k], sh) + CarryInto(s, k, hi, sh)
  }

  lemma ShiftRing(x: int, a: int, c: int, kept: int, carryIn: int, t: int, p: int, tTail: int, sTail: int)
    requires x * a == c * 0x1_0000 + kept && t == kept + carryIn
    requires tTail + carryIn * p == a * sTail
    ensures (t * p + tTail) + c * (0x1_0000 * p) == a * (x * p + sTail)
  {
    assert (x * a) * p == (c * 0x1_0000 + kept) * p;
    assert (kept + carryIn) * p == kept * p + carryIn * p;
  }

  lemma ShiftTailRing(x: int, a: int, c: int, kept: int, t: int)
    requires x * a == c * 0x1_0000 + kept && t == kept
    ensures t + c * 0x1_0000 == a * x
  {
  }

  /** A digit-by-digit left shift multiplies the value, up to the carry out of the top. */
  lemma {:induction false} ShiftValue(s: seq<digit>, t: seq<digit>, lo: nat, hi: nat, sh: nat)
    requires lo < hi <= |s| && hi <= |t| && sh < 16
    requires forall k :: lo <= k < hi ==> Shifted(s, t, k, hi, sh)
    ensures Val(t, lo, hi) + Carry(s[lo], sh) * Pow(hi - lo) == Pow2(sh) * Val(s, lo, hi)
    decreases hi - lo
  {
    hide Carry, Kept, Pow2;
    ShiftDigit(s[lo], sh);
    assert Shifted(s, t, lo, hi, sh);
    if lo + 1 < hi {
      ShiftValue(s, t, lo + 1, hi, sh);
      ShiftRing(s[lo], Pow2(sh), Carry(s[lo], sh), Kept(s[lo], sh), Carry(s[lo + 1], sh), t[lo],
                Pow(hi - lo - 1), Val(t, lo + 1, hi), Val(s, lo + 1, hi));
    } else {
      ShiftTailRing(s[lo], Pow2(sh), Carry(s[lo], sh), Kept(s[lo], sh), t[lo]);
      ValOne(s, lo);
      ValOne(t, lo);
    }
  }

  lemma ValOne(s: seq<digit>, lo: nat)
    requires lo < |s|
    ensures Val(s, lo, lo + 1) == s[lo] && Pow(1) == 0x1_0000
  {
  }

  /** Digits lo..mid of t are those the shift of s[lo..hi] leaves there. */
  ghost predicate ShiftedUpTo(s: seq<digit>, t: seq<digit>, lo: nat, mid: nat, hi: nat, sh: nat) {
    && mid <= hi <= |s| && hi <= |t| && sh < 16
    && forall k :: lo <= k < mid ==> Shifted(s, t, k, hi, sh)
  }

  lemma ShiftedExtend(s: seq<digit>, t: seq<digit>, lo: nat, mid: nat, hi: nat, sh: nat, d: digit)
    requires ShiftedUpTo(s, t, lo, mid, hi, sh) && lo <= mid < hi
    requires d == Kept(s[mid], sh) + (if mid + 1 < hi then Carry(s[mid + 1], sh) else 0)
    ensures ShiftedUpTo(s, t[mid := d], lo, mid + 1, hi, sh)
  {
    hide Kept, Carry;
    var t' := t[mid := d];
    forall k | lo <= k < mid + 1
      ensures Shifted(s, t', k, hi, sh)
    {
      if k < mid {
        assert Shifted(s, t, k, hi, sh) && t'[k] == t[k];
      }
    }
  }

  lemma ShiftedNone(s: seq<digit>, t: seq<digit>, lo: nat, hi: nat, sh: nat)
    requires lo <= hi <= |s| && hi <= |t| && sh < 16
    ensures ShiftedUpTo(s, t, lo, lo, hi, sh)
  {
  }

  lemma ShiftedAll(s: seq<digit>, t: seq<digit>, lo: nat, hi: nat, sh: nat)
    requires lo < hi && ShiftedUpTo(s, t, lo, hi, hi, sh)
    requires s[lo] * Pow2(sh) < 0x1_0000
    ensures Val(t, lo, hi) == Pow2(sh) * Val(s, lo, hi)
  {
    hide Carry, Kept, Val, Shifted;
    ShiftValue(s, t, lo, hi, sh);
    NoCarry(s[lo], sh);
  }

  lemma NoCarry(x: digit, sh: nat)
    requires sh < 16 && x * Pow2(sh) < 0x1_0000
    ensures Carry(x, sh) == 0
  {
    hide Carry, Kept, Pow2;
    ShiftDigit(x, sh);
  }

  /** The shl function: shift digits p[0..len] left in place. */
  method Shl(p: array<digit>, base: nat, len: nat, sh: nat)
    requires base + len < p.Length && 0 < sh < 16
    requires p[base] * Pow2(sh) < 0x1_0000
    modifies p
    ensures forall k :: 0 <= k < p.Length && !(base <= k <= base + len) ==> p[k] == old(p[k])
    ensures Val(p[..], base, base + len + 1) == Pow2(sh) * Val(old(p[..]), base, base + len + 1)
  {
    hide *;
    ghost var s, hi := p[..], base + len + 1;
    var i: nat := 0;
    ShiftedNone(s, s, base, hi, sh);
    while i < len
      invariant i <= len
      invariant forall k :: 0 <= k < p.Length && !(base <= k < base + i) ==> p[k] == s[k]
      invariant ShiftedUpTo(s, p[..], base, base + i, hi, sh)
    {
      ghost var t := p[..];
      ShiftDigit(p[base + i], sh);
      ShiftDigit(p[base + i + 1], sh);
      p[base + i] := Kept(p[base + i], sh) + Carry(p[base + i + 1], sh);
      ShiftedExtend(s, t, base, base + i, hi, sh, p[base + i]);
      assert p[..] == t[base + i := p[base + i]];
      i := i + 1;
    }
    ghost var t := p[..];
    p[base + i] := Kept(p[base + i], sh);
    ShiftedExtend(s, t, base, base + i, hi, sh, p[base + i]);
    assert p[..] == t[base + i := p[base + i]];
    ShiftedAll(s, p[..], base, hi, sh);
  }

  // ----- D8: un-normalising the remainder

  /** The bits that leave a digit when it is shifted right by d. */
  ghost function Low(x: digit, d: nat): int
    requires 0 < d < 16
  {
    x - Pow2(d) * Carry(x, 16 - d)
  }

  lemma LowBound(x: digit, d: nat)
    requires 0 < d < 16
    ensures 0 <= Low(x, d) < Pow2(d)
  {
    DivMod(x, Pow2(d));
  }

  lemma UnshiftArithmetic(y: int, a: int, b: int, c: int, kept: int)
    requires a * b == 0x1_0000 && y * b == c * 0x1_0000 + kept
    ensures a * kept == 0x1_0000 * (y - a * c)
  {
    Assoc(y, b, a);
    assert a * (y * b) == a * (c * 0x1_0000 + kept);
    Assoc(a, c, 0x1_0000);
  }

  lemma UnshiftDigit(x: digit, y: digit, d: nat)
    requires 0 < d < 16
    ensures Carry(x, 16 - d) + Kept(y, 16 - d) < 0x1_0000
    ensures Pow2(d) * (Carry(x, 16 - d) + Kept(y, 16 - d)) == x - Low(x, d) + 0x1_0000 * Low(y, d)
  {
    hide Carry, Kept, Pow2;
    ShiftDigit(x, 16 - d);
    ShiftDigit(y, 16 - d);
    Pow2Split(d);
    UnshiftArithmetic(y, Pow2(d), Pow2(16 - d), Carry(y, 16 - d), Kept(y, 16 - d));
  }

  lemma UnshiftRing(a: int, t: int, x: int, lx: int, ly: int, p: int, tTail: int, sTail: int, e: int)
    requires a * t == x - lx + 0x1_0000 * ly
    requires a * tTail == sTail + lx * p - e
    ensures a * (t * p + tTail) == (x * p + sTail) + ly * (0x1_0000 * p) - e
  {
    Assoc(a, t, p);
    assert (a * t) * p == (x - lx + 0x1_0000 * ly) * p;
    assert a * (t * p + tTail) == (a * t) * p + a * tTail;
  }

  lemma {:induction false} UnshiftValue(s: seq<digit>, t: seq<digit>, lo: nat, hi: nat, d: nat)
    requires 0 < lo && lo <= hi <= |s| && hi <= |t| && 0 < d < 16
    requires forall k :: lo <= k < hi ==> t[k] == Carry(s[k], 16 - d) + Kept(s[k - 1], 16 - d)
    ensures Pow2(d) * Val(t, lo, hi)
            == Val(s, lo, hi) + Low(s[lo - 1], d) * Pow(hi - lo) - Low(s[hi - 1], d)
    decreases hi - lo
  {
    hide Carry, Kept, Pow2, Low;
    if lo < hi {
      UnshiftValue(s, t, lo + 1, hi, d);
      UnshiftDigit(s[lo], s[lo - 1], d);
      UnshiftRing(Pow2(d), t[lo], s[lo], Low(s[lo], d), Low(s[lo - 1], d), Pow(hi - lo - 1),
                  Val(t, lo + 1, hi), Val(s, lo + 1, hi), Low(s[hi - 1], d));
    }
  }

  /** A multiple of 2^d that is shifted right by d is divided exactly. */
  lemma UnshiftExact(s: seq<digit>, t: seq<digit>, lo: nat, hi: nat, d: nat, r: int)
    requires 0 < lo <= hi <= |s| && hi <= |t| && 0 < d < 16 && s[lo - 1] == 0
    requires forall k :: lo <= k < hi ==> t[k] == Carry(s[k], 16 - d) + Kept(s[k - 1], 16 - d)
    requires Val(s, lo, hi) == Pow2(d) * r
    ensures Val(t, lo, hi) == r
  {
    hide Carry, Kept, Pow2, Val;
    UnshiftValue(s, t, lo, hi, d);
    LowBound(s[lo - 1], d);
    LowBound(s[hi - 1], d);
    LowZero(d);
    SmallMultiple(Pow2(d), r, Val(t, lo, hi), Low(s[hi - 1], d));
  }

  lemma LowZero(d: nat)
    requires 0 < d < 16
    ensures Low(0, d) == 0
  {
    LowBound(0, d);
    assert Carry(0, 16 - d) >= 0;
    MulLe(0, Carry(0, 16 - d), Pow2(d));
  }

  lemma SmallMultiple(a: int, r: int, x: int, e: int)
    requires a * x == a * r - e && 0 <= e < a
    ensures x == r
  {
    if x > r { MulLe(r + 1, x, a); } else if x < r { MulLe(x + 1, r, a); SuccTimes(x, a); }
    SuccTimes(r, a);
  }

  /** D8: shift the remainder back and clear the digit above it. */
  method Unshift(us: array<digit>, top: nat, d: nat, ghost r: int)
    requires top + 1 < us.Length && 0 < d < 16 && us[top] == 0
    requires Val(us[..], top + 1, us.Length) == Pow2(d) * r
    modifies us
    ensures forall k :: 0 <= k <= top ==> us[k] == old(us[k])
    ensures Val(us[..], top + 1, us.Length) == r
  {
    hide *;
    ghost var s := us[..];
    var i := us.Length - 1;
    while i > top
      invariant top <= i < us.Length
      invariant forall k :: 0 <= k <= i ==> us[k] == s[k]
      invariant forall k :: i < k < us.Length ==> us[k] == Carry(s[k], 16 - d) + Kept(s[k - 1], 16 - d)
    {
      UnshiftDigit(us[i], us[i - 1], d);
      us[i] := Carry(us[i], 16 - d) + Kept(us[i - 1], 16 - d);
      i := i - 1;
    }
    us[i] := 0;
    UnshiftExact(s, us[..], top + 1, us.Length, d, r);
  }

  // ----- D2 to D7: the loop over quotient digits

  /** The quotient digits found so far, times the divisor, plus what is left of the dividend. */
  ghost predicate Dividing(u0: int, s: seq<digit>, q: seq<digit>, v: int, n: nat, m: nat, j: nat) {
    && m + n <= 4 && j <= m + 1 && |s| == 5 && |q| == 5
    && (forall k :: 0 <= k < 4 - m - n + j ==> s[k] == 0)
    && Val(s, 4 - m - n + j, 4 - m + j) < v
    && u0 == (Val(q, 0, 4 - m + j) * v) * Pow(m + 1 - j) + Val(s, 4 - m - n + j, 5)
  }

  lemma TopZero(s: seq<digit>, lo: nat, n: nat, v: int)
    requires lo + n < |s| && Val(s, lo, lo + n + 1) < v <= Pow(n)
    ensures s[lo] == 0 && Val(s, lo, lo + n + 1) == Val(s, lo + 1, lo + n + 1)
  {
    if s[lo] >= 1 { MulLe(1, s[lo], Pow(n)); }
  }

  lemma AppendDigit(q: seq<digit>, i: nat, d: digit)
    requires i < |q|
    ensures Val(q[i := d], 0, i + 1) == Val(q, 0, i) * 0x1_0000 + d
  {
    var q' := q[i := d];
    ValSplit(q', 0, i, i + 1);
    ValSame(q, q', 0, i);
    ValOne(q', i);
  }

  lemma StepRing(u0: int, qv: int, v: int, p: int, x: int, q: int, x': int, tail: int)
    requires u0 == (qv * v) * (0x1_0000 * p) + (x * p + tail)
    requires x == q * v + x'
    ensures u0 == ((qv * 0x1_0000 + q) * v) * p + (x' * p + tail)
  {
    assert (qv * 0x1_0000 + q) * v == (qv * v) * 0x1_0000 + q * v;
    Assoc(qv * v, 0x1_0000, p);
    assert ((qv * v) * 0x1_0000 + q * v) * p == ((qv * v) * 0x1_0000) * p + (q * v) * p;
    assert (q * v + x') * p == (q * v) * p + x' * p;
  }

  lemma DividingStep(u0: int, s: seq<digit>, s': seq<digit>, q: seq<digit>, v: int, n: nat, m: nat, j: nat, d: digit)
    requires Dividing(u0, s, q, v, n, m, j) && j <= m && |s'| == 5 && v < Pow(n)
    requires forall k :: 0 <= k < 4 - m - n + j || 4 - m + j < k < 5 ==> s'[k] == s[k]
    requires Val(s, 4 - m - n + j, 4 - m + j + 1) == d * v + Val(s', 4 - m - n + j, 4 - m + j + 1)
    requires Val(s', 4 - m - n + j, 4 - m + j + 1) < v
    ensures Dividing(u0, s', q[4 - m + j := d], v, n, m, j + 1)
  {
    hide Val, Pow;
    var lo, top := 4 - m - n + j, 4 - m + j;
    TopZero(s', lo, n, v);
    AppendDigit(q, top, d);
    ValSplit(s, lo, top + 1, 5);
    ValSplit(s', lo, top + 1, 5);
    ValSame(s, s', top + 1, 5);
    ValSkip(s', lo, 5);
    PowStep(m - j);
    StepRing(u0, Val(q, 0, top), v, Pow(m - j), Val(s, lo, top + 1), d, Val(s', lo, top + 1), Val(s, top + 1, 5));
  }

  lemma ValSkip(s: seq<digit>, lo: nat, hi: nat)
    requires lo < hi <= |s| && s[lo] == 0
    ensures Val(s, lo, hi) == Val(s, lo + 1, hi)
  {
    assert 0 * Pow(hi - lo - 1) == 0;
  }

  lemma PowStep(k: nat)
    ensures Pow(k + 1) == 0x1_0000 * Pow(k)
  {
  }

  method DivideDigits(us: array<digit>, vs: array<digit>, qs: array<digit>, n: nat, m: nat, ghost u0: int)
    requires us != vs && us != qs && vs != qs && us.Length == vs.Length == qs.Length == 5
    requires 2 <= n && m + n <= 4 && 0x8000 <= vs[4 - n + 1]
    requires Dividing(u0, us[..], qs[..], Val(vs[..], 4 - n + 1, 5), n, m, 0)
    modifies us, qs
    ensures Dividing(u0, us[..], qs[..], Val(vs[..], 4 - n + 1, 5), n, m, m + 1)
    ensures forall k :: 0 <= k < 4 - m ==> qs[k] == old(qs[k])
  {
    hide Val, Pow;
    ghost var v := Val(vs[..], 4 - n + 1, 5);
    ValBound(vs[..], 4 - n + 1, 5);
    var j: nat := 0;
    while j <= m
      invariant j <= m + 1
      invariant forall k :: 0 <= k < 4 - m ==> qs[k] == old(qs[k])
      invariant Dividing(u0, us[..], qs[..], v, n, m, j)
    {
      ghost var s, q := us[..], qs[..];
      var qhat := DivideStep(us, vs, 4 - m - n + j, 4 - n, n);
      DividingStep(u0, s, us[..], q, v, n, m, j, qhat);
      qs[4 - m + j] := qhat;
      assert qs[..] == q[4 - m + j := qhat];
      j := j + 1;
    }
  }

  // ----- D1 and the whole division

  lemma SkipZeros(s: seq<digit>, lo: nat)
    requires lo <= 5 == |s| && forall k :: 0 <= k < lo ==> s[k] == 0
    ensures Val(s, 0, 5) == Val(s, lo, 5) < Pow(5 - lo)
  {
    hide Val, Pow;
    ValSplit(s, 0, lo, 5);
    ValZero(s, 0, lo);
    ValBound(s, lo, 5);
  }

  lemma DivisorAtLeast(v: seq<digit>, v0: nat, n: nat)
    requires 0 < n && v0 + n < |v| && 0 < v[v0 + 1]
    ensures Pow(n - 1) <= Val(v, v0 + 1, v0 + n + 1)
  {
    MulLe(1, v[v0 + 1], Pow(n - 1));
  }

  lemma PowMono(a: nat, b: nat)
    requires a <= b
    ensures Pow(a) <= Pow(b)
  {
    PowAdd(a, b - a);
    MulLe(1, Pow(b - a), Pow(a));
  }

  /** Skipping leading zeros of the dividend cannot go past the divisor's length. */
  lemma DividendLong(s: seq<digit>, z: nat, v: seq<digit>, n: nat)
    requires |s| == |v| == 5 && z < 5 && 2 <= n <= 4 && forall k :: 0 <= k <= z ==> s[k] == 0
    requires 0 < v[4 - n + 1] && Val(v, 4 - n + 1, 5) <= Val(s, 0, 5)
    ensures z + n <= 4
  {
    hide Val, Pow;
    SkipZeros(s, z + 1);
    DivisorAtLeast(v, 4 - n, n);
    if z + n > 4 { PowMono(4 - z, n - 1); }
  }

  /** D1: the shift that brings the leading divisor digit up to B/2. */
  method Normaliser(v1: digit) returns (d: nat)
    requires 0 < v1
    ensures d < 16 && 0x8000 <= v1 * Pow2(d) < 0x1_0000
  {
    hide Pow2;
    d := 0;
    var t := v1;
    Pow2Zero(v1);
    while t < 0x8000
      invariant t == v1 * Pow2(d) && 0 < t
      decreases 0x1_0000 - t
    {
      Pow2Step(v1, d);
      t := 2 * t;
      d := d + 1;
    }
    ShiftBound(v1, d);
  }

  lemma Pow2Zero(x: int)
    ensures x * Pow2(0) == x
  {
  }

  lemma Pow2Step(x: int, d: nat)
    ensures x * Pow2(d + 1) == 2 * (x * Pow2(d))
  {
    Assoc(x, 2, Pow2(d));
  }

  lemma {:induction false} Pow2AtLeast(d: nat)
    requires d >= 16
    ensures Pow2(d) >= 0x1_0000
  {
    if d == 16 { Pow2Sixteen(); } else { Pow2AtLeast(d - 1); }
  }

  lemma ShiftBound(v1: int, d: nat)
    requires 0 < v1 && v1 * Pow2(d) < 0x1_0000
    ensures d < 16
  {
    if d >= 16 {
      Pow2AtLeast(d);
      MulLe(1, v1, Pow2(d));
    }
  }

  /** After normalisation the first window holds less than one divisor. */
  lemma FirstWindow(s0: seq<digit>, s: seq<digit>, v0: seq<digit>, v: seq<digit>, n: nat, m: nat, a: int)
    requires |s0| == |s| == |v0| == |v| == 5 && 2 <= n && m + n <= 4 && 0 < a
    requires s0[4 - m - n] == 0 && 0 < v0[4 - n + 1]
    requires Val(s, 4 - m - n, 5) == a * Val(s0, 4 - m - n, 5)
    requires Val(v, 4 - n + 1, 5) == a * Val(v0, 4 - n + 1, 5)
    ensures Val(s, 4 - m - n, 4 - m) < Val(v, 4 - n + 1, 5)
  {
    hide Val, Pow;
    var lo := 4 - m - n;
    ValSkip(s0, lo, 5);
    ValBound(s0, lo + 1, 5);
    DivisorAtLeast(v0, 4 - n, n);
    ValSplit(s, lo, 4 - m, 5);
    PowAdd(n - 1, m + 1);
    WindowRing(Val(s, lo, 4 - m), Val(s, 4 - m, 5), a, Val(s0, lo, 5), Pow(n - 1), Pow(m + 1),
               Val(v0, 4 - n + 1, 5));
  }

  lemma WindowRing(w: int, tail: int, a: int, u: int, pn: int, pm: int, v: int)
    requires w * pm + tail == a * u && 0 <= tail && u < pn * pm && 0 < pm && 0 < a && pn <= v
    ensures w < a * v
  {
    MulLe(u + 1, pn * pm, a);
    SuccTimes(u, a);
    Assoc(a, pn, pm);
    MulLe(pn, v, a);
    if w >= a * pn { MulLe(a * pn, w, pm); }
  }

  lemma QuotientUnique(u: int, v: int, q: int, r: int)
    requires 0 < v && u == q * v + r && 0 <= r < v
    ensures q == u / v && r == u % v
  {
    DivMod(u, v);
    var q', r' := u / v, u % v;
    if q' < q { MulLe(q' + 1, q, v); SuccTimes(q', v); }
    else if q < q' { MulLe(q + 1, q', v); SuccTimes(q, v); }
  }

  /** Both digit strings shifted by d digits' worth of bits, and the first window in place. */
  method Normalise(us: array<digit>, vs: array<digit>, n: nat, m: nat) returns (d: nat)
    requires us != vs && us.Length == vs.Length == 5 && 2 <= n && m + n <= 4
    requires us[4 - m - n] == 0 && 0 < vs[4 - n + 1]
    modifies us, vs
    ensures d < 16 && 0x8000 <= vs[4 - n + 1]
    ensures forall k :: 0 <= k < 4 - m - n ==> us[k] == old(us[k])
    ensures Val(us[..], 4 - m - n, 5) == Pow2(d) * Val(old(us[..]), 4 - m - n, 5)
    ensures Val(vs[..], 4 - n + 1, 5) == Pow2(d) * Val(old(vs[..]), 4 - n + 1, 5)
    ensures Val(us[..], 4 - m - n, 4 - m) < Val(vs[..], 4 - n + 1, 5)
  {
    hide Val, Pow, Pow2;
    ghost var s0, v0 := us[..], vs[..];
    var lo, v1 := 4 - m - n, 4 - n + 1;
    d := Normaliser(vs[v1]);
    if d > 0 {
      ZeroTimes(Pow2(d));
      Shl(us, lo, m + n, d);
      Shl(vs, v1, n - 1, d);
      ValTop(vs[..], v0, v1, 5, d);
    } else {
      Pow2Unit();
    }
    FirstWindow(s0, us[..], v0, vs[..], n, m, Pow2(d));
  }

  lemma ZeroTimes(x: int)
    ensures 0 * x == 0
  {
  }

  lemma Pow2Unit()
    ensures Pow2(0) == 1
  {
  }

  /** Multiplying a digit string by 2^d without overflow leaves at least that multiple of its top digit. */
  lemma ValTop(t: seq<digit>, s: seq<digit>, lo: nat, hi: nat, d: nat)
    requires lo < hi <= |s| && hi <= |t|
    requires Val(t, lo, hi) == Pow2(d) * Val(s, lo, hi) && 0x8000 <= s[lo] * Pow2(d)
    ensures 0x8000 <= t[lo]
  {
    hide Val, Pow, Pow2;
    LeadingDigit(t, lo, hi - lo);
    LeadingDigit(s, lo, hi - lo);
    TopRing(t[lo], s[lo], Pow2(d), Pow(hi - lo - 1), Val(t, lo, hi), Val(s, lo, hi));
  }

  lemma TopRing(t: int, x: int, a: int, p: int, tv: int, sv: int)
    requires tv == a * sv && x * p <= sv && tv < (t + 1) * p && 0 < p && 0 < a && 0x8000 <= x * a
    ensures 0x8000 <= t
  {
    MulLe(x * p, sv, a);
    Assoc(x, p, a);
    Assoc(x, a, p);
    if t + 1 <= x * a { MulLe(t + 1, x * a, p); }
  }

  lemma Denormal(u: int, v: int, a: int, q: int, r: int)
    requires a * u == (q * (a * v)) * 1 + r && 0 <= r < a * v && 0 < a && 0 < v
    ensures r == a * (u - q * v) && 0 <= u - q * v < v
  {
    Assoc(q, v, a);
    var w := u - q * v;
    assert a * u - a * (q * v) == a * w;
    if w < 0 { MulLe(w, -1, a); } else if w >= v { MulLe(v, w, a); }
  }

  /** The number whose base-B digits are s[1..5]: two COMBINEd halves. */
  function Assemble(s: seq<digit>): u64
    requires |s| == 5
  {
    Combine(s[1], s[2]) * 0x1_0000_0000 + Combine(s[3], s[4])
  }

  lemma AssembleValue(s: seq<digit>)
    requires |s| == 5
    ensures Assemble(s) == Val(s, 1, 5)
    ensures s[0] == 0 ==> Assemble(s) == Val(s, 0, 5)
  {
    assert Pow(0) == 1 && Pow(1) == 0x1_0000 && Pow(2) == 0x1_0000_0000;
    assert Pow(3) == 0x1_0000_0000_0000;
    var a: int, b: int, c: int, d: int := s[1], s[2], s[3], s[4];
    assert Val(s, 4, 5) == d;
    assert Val(s, 3, 5) == c * 0x1_0000 + d;
    assert Val(s, 2, 5) == b * 0x1_0000_0000 + Val(s, 3, 5);
    assert Val(s, 1, 5) == a * 0x1_0000_0000_0000 + Val(s, 2, 5);
    if s[0] == 0 { ValSkip(s, 0, 5); }
  }

  /** Breaking a 64-bit number into digits 1 to 4; digit 0 is left alone. */
  method Digits64(x: u64, s: array<digit>)
    requires s.Length == 5
    modifies s
    ensures Assemble(s[..]) == x && s[0] == old(s[0])
  {
    var hi: u32, lo: u32 := x / 0x1_0000_0000, x % 0x1_0000_0000;
    s[1], s[2], s[3], s[4] := HHalf(hi), LHalf(hi), HHalf(lo), LHalf(lo);
    HalvesMeaning(hi);
    HalvesMeaning(lo);
  }

  /** Algorithm D on a divisor of n >= 2 digits. */
  method DivideLong(us: array<digit>, vs: array<digit>, n: nat) returns (q: u64, r: u64)
    requires us != vs && us.Length == vs.Length == 5 && 2 <= n <= 4
    requires us[0] == 0 && 0 < vs[4 - n + 1]
    requires Val(vs[..], 4 - n + 1, 5) <= Val(us[..], 0, 5)
    modifies us, vs
    ensures var u, v := Val(old(us[..]), 0, 5), Val(old(vs[..]), 4 - n + 1, 5);
            u == q * v + r && r < v
  {
    hide *;
    ghost var s0, v0 := us[..], vs[..];
    ghost var u, v := Val(s0, 0, 5), Val(v0, 4 - n + 1, 5);
    var qs := new digit[5];
    var z: nat := 0;
    while us[z + 1] == 0
      invariant z + n <= 4 && us[..] == s0 && vs[..] == v0
      invariant forall k :: 0 <= k <= z ==> us[k] == 0
      decreases 4 - z
    {
      z := z + 1;
      DividendLong(us[..], z, vs[..], n);
    }
    var m := 4 - n - z;
    SkipZeros(us[..], z);
    var i := 4 - m;
    while i > 0
      invariant 0 <= i <= 4 - m && us[..] == s0 && vs[..] == v0
      invariant forall k :: i <= k < 4 - m ==> qs[k] == 0
    {
      i := i - 1;
      qs[i] := 0;
    }
    var d := Normalise(us, vs, n, m);
    ghost var a := Pow2(d);
    StartDividing(a * u, us[..], qs[..], Val(vs[..], 4 - n + 1, 5), n, m);
    DivideDigits(us, vs, qs, n, m, a * u);
    FinishDividing(u, v, a, us[..], qs[..], n, m);
    if d != 0 {
      ghost var t := us[..];
      Unshift(us, 4 - n, d, u - Val(qs[..], 0, 5) * v);
    } else {
      UnitShift(d, u - Val(qs[..], 0, 5) * v);
    }
    AssembleValue(us[..]);
    AssembleValue(qs[..]);
    SkipZeros(us[..], 4 - n + 1);
    r := Assemble(us[..]);
    q := Assemble(qs[..]);
  }

  lemma UnitShift(d: nat, x: int)
    requires d == 0
    ensures Pow2(d) * x == x
  {
  }

  lemma StartDividing(u0: int, s: seq<digit>, q: seq<digit>, v: int, n: nat, m: nat)
    requires m + n <= 4 && |s| == |q| == 5
    requires forall k :: 0 <= k < 4 - m - n ==> s[k] == 0
    requires forall k :: 0 <= k < 4 - m ==> q[k] == 0
    requires Val(s, 4 - m - n, 4 - m) < v && u0 == Val(s, 4 - m - n, 5)
    ensures Dividing(u0, s, q, v, n, m, 0)
  {
    hide Val, Pow;
    ValZero(q, 0, 4 - m);
    ZeroTimes(v);
    ZeroTimes(Pow(m + 1));
  }

  lemma FinishDividing(u: int, v: int, a: int, s: seq<digit>, q: seq<digit>, n: nat, m: nat)
    requires Dividing(a * u, s, q, a * v, n, m, m + 1) && 0 < a && 0 < v && 2 <= n
    ensures Val(s, 4 - n + 1, 5) == a * (u - Val(q, 0, 5) * v) && 0 <= u - Val(q, 0, 5) * v < v
    ensures forall k :: 0 <= k < 4 - n + 1 ==> s[k] == 0
  {
    hide Val;
    Denormal(u, v, a, Val(q, 0, 5), Val(s, 4 - n + 1, 5));
  }

  // ----- the entry points

  /** One step of the single-digit division of Knuth's exercise 16. */
  method ShortStep(rem: digit, u: digit, t: digit) returns (q: digit, r: digit)
    requires rem < t
    ensures rem * 0x1_0000 + u == q * t + r && r < t
  {
    var rbj := Combine(rem, u);
    DivMod(rbj, t);
    QuotientBound(rbj / t, rbj % t, t, 0x1_0000);
    q, r := rbj / t, rbj % t;
  }

  lemma ShortSum(u1: int, u2: int, u3: int, u4: int, q1: int, q2: int, q3: int, q4: int,
                 r1: int, r2: int, r3: int, r4: int, t: int)
    requires u1 == q1 * t + r1 && r1 * 0x1_0000 + u2 == q2 * t + r2
    requires r2 * 0x1_0000 + u3 == q3 * t + r3 && r3 * 0x1_0000 + u4 == q4 * t + r4
    ensures ((u1 * 0x1_0000 + u2) * 0x1_0000 + u3) * 0x1_0000 + u4
            == (((q1 * 0x1_0000 + q2) * 0x1_0000 + q3) * 0x1_0000 + q4) * t + r4
  {
    assert (q1 * 0x1_0000 + q2) * t == (q1 * t) * 0x1_0000 + q2 * t;
    var q12 := q1 * 0x1_0000 + q2;
    assert (q12 * 0x1_0000 + q3) * t == (q12 * t) * 0x1_0000 + q3 * t;
    var q123 := q12 * 0x1_0000 + q3;
    assert (q123 * 0x1_0000 + q4) * t == (q123 * t) * 0x1_0000 + q4 * t;
  }

  /** The path for a divisor of a single digit. */
  method DivideShort(us: array<digit>, t: digit) returns (q: u64, r: u64)
    requires us.Length == 5 && 0 < t
    ensures Assemble(us[..]) == q * t + r && r < t
  {
    hide Val, Pow;
    var q1, r1 := ShortStep(0, us[1], t);
    var q2, r2 := ShortStep(r1, us[2], t);
    var q3, r3 := ShortStep(r2, us[3], t);
    var q4, r4 := ShortStep(r3, us[4], t);
    ShortSum(us[1], us[2], us[3], us[4], q1, q2, q3, q4, r1, r2, r3, r4, t);
    q := Combine(q1, q2) * 0x1_0000_0000 + Combine(q3, q4);
    r := r4;
  }

  /**
    __qdivrem: quotient and remainder of two 64-bit numbers.  Division by zero
    yields the quotient 0 and the dividend as the remainder.
  */
  method QDivRem(uq: u64, vq: u64) returns (q: u64, r: u64)
    ensures vq == 0 ==> q == 0 && r == uq
    ensures vq != 0 ==> q == uq / vq && r == uq % vq
  {
    if vq == 0 {
      return 0, uq;
    }
    if uq < vq {
      QuotientUnique(uq, vq, 0, uq);
      return 0, uq;
    }
    var us, vs := new digit[5], new digit[5];
    us[0] := 0;
    Digits64(uq, us);
    Digits64(vq, vs);
    q, r := DivideDigitStrings(us, vs, uq, vq);
    QuotientUnique(uq, vq, q, r);
  }

  /** Dropping the divisor's leading zeros leaves its value in the remaining digits. */
  lemma DivisorSkip(v: seq<digit>, z: nat)
    requires |v| == 5 && z <= 4 && forall k :: 1 <= k <= z ==> v[k] == 0
    ensures Val(v, z + 1, 5) == Assemble(v)
  {
    hide Val, Pow, Assemble;
    AssembleValue(v);
    ValSplit(v, 1, z + 1, 5);
    ValZero(v, 1, z + 1);
    ZeroTimes(Pow(4 - z));
  }

  /** Counting the divisor's digits chooses between the two algorithms. */
  method DivideDigitStrings(us: array<digit>, vs: array<digit>, ghost uq: u64, ghost vq: u64) returns (q: u64, r: u64)
    requires us != vs && us.Length == vs.Length == 5 && us[0] == 0
    requires Assemble(us[..]) == uq && Assemble(vs[..]) == vq && 0 < vq <= uq
    modifies us, vs
    ensures uq == q * vq + r && r < vq
  {
    hide *;
    ghost var v := vs[..];
    var n, z: nat := 4, 0;
    while vs[z + 1] == 0
      invariant 2 <= n <= 4 && z + n == 4
      invariant us[..] == old(us[..]) && vs[..] == v
      invariant forall k :: 1 <= k <= z ==> v[k] == 0
      decreases n
    {
      n := n - 1;
      if n == 1 {
        DivisorSkip(v, 3);
        ValOne(v, 4);
        q, r := DivideShort(us, vs[4]);
        return;
      }
      z := z + 1;
    }
    DivisorSkip(v, z);
    AssembleValue(us[..]);
    q, r := DivideLong(us, vs, n);
  }

  /** __udivdi3 and __umoddi3. */
  method UDivDi3(a: u64, b: u64) returns (q: u64)
    ensures q == if b == 0 then 0 else a / b
  {
    var r;
    q, r := QDivRem(a, b);
  }

  method UModDi3(a: u64, b: u64) returns (r: u64)
    ensures r == if b == 0 then a else a % b
  {
    var q;
    q, r := QDivRem(a, b);
  }

  // ----- the shift-and-subtract division

  /** The shifted divisor and the quotient bit that goes with it. */
  ghost predicate Justified(d0: int, den: int, qbit: int, e: nat) {
    qbit == Pow2(e) && den == d0 * Pow2(e)
  }

  lemma JustifyStep(d0: int, den: int, qbit: int, e: nat)
    requires Justified(d0, den, qbit, e)
    ensures Justified(d0, 2 * den, 2 * qbit, e + 1)
  {
    Pow2Step(d0, e);
  }

  lemma JustifyBack(d0: int, den: int, qbit: int, e: nat)
    requires Justified(d0, den, qbit, e + 1)
    ensures den / 2 * 2 == den && qbit / 2 * 2 == qbit && Justified(d0, den / 2, qbit / 2, e)
  {
    Pow2Step(d0, e);
  }

  lemma JustifiedBound(d0: int, den: int, qbit: int, e: nat)
    requires Justified(d0, den, qbit, e) && 1 <= d0
    ensures 1 <= qbit <= den
    ensures e == 0 ==> qbit == 1 && den == d0
  {
    MulLe(1, d0, Pow2(e));
  }

  /** quot divisors have been taken out of num0, num is left. */
  ghost predicate Taken(num0: int, quot: int, d0: int, num: int) {
    num0 == quot * d0 + num
  }

  lemma TakeMore(num0: int, quot: int, d0: int, num: int, den: int, qbit: int, e: nat)
    requires Taken(num0, quot, d0, num) && Justified(d0, den, qbit, e)
    ensures Taken(num0, quot + qbit, d0, num - den)
  {
    assert (quot + qbit) * d0 == quot * d0 + d0 * qbit;
  }

  lemma TakenBound(num0: int, quot: int, d0: int, num: int)
    requires Taken(num0, quot, d0, num) && 1 <= d0 && 0 <= num && 0 <= quot
    ensures quot <= num0
  {
    MulLe(1, d0, quot);
  }

  lemma TakenStart(num0: int, d0: int)
    ensures Taken(num0, 0, d0, num0)
  {
  }

  /** Left-justifying the divisor: shift it until its top bit is set. */
  method LeftJustify(den0: u64) returns (den: u64, qbit: u64, ghost e: nat)
    requires den0 != 0
    ensures 0x8000_0000_0000_0000 <= den && Justified(den0, den, qbit, e)
  {
    hide *;
    den, qbit, e := den0, 1, 0;
    JustifiedStart(den0);
    while den < 0x8000_0000_0000_0000
      invariant 1 <= den && Justified(den0, den, qbit, e)
      decreases 0x1_0000_0000_0000_0000 - den
    {
      JustifyStep(den0, den, qbit, e);
      JustifiedBound(den0, 2 * den, 2 * qbit, e + 1);
      den, qbit, e := 2 * den, 2 * qbit, e + 1;
    }
  }

  /** Either the quotient bit is still live, or all of the quotient has been found. */
  ghost predicate Subtracting(num0: int, den0: int, num: int, den: int, quot: int, qbit: int, e: nat) {
    && Taken(num0, quot, den0, num) && 0 <= num && 0 <= quot
    && if qbit != 0 then Justified(den0, den, qbit, e) && num < 2 * den else num < den0
  }

  /** One round of the loop, whether or not the divisor fits. */
  lemma SubtractRound(num0: int, den0: int, num: int, den: int, quot: int, qbit: int, e: nat) returns (e': nat)
    requires 1 <= den0 && qbit != 0 && Subtracting(num0, den0, num, den, quot, qbit, e)
    ensures 1 <= qbit
    ensures den <= num ==> quot + qbit <= num0
    ensures den <= num ==> Subtracting(num0, den0, num - den, den / 2, quot + qbit, qbit / 2, e')
    ensures num < den ==> Subtracting(num0, den0, num, den / 2, quot, qbit / 2, e')
  {
    hide Justified, Taken;
    JustifiedBound(den0, den, qbit, e);
    if den <= num {
      TakeMore(num0, quot, den0, num, den, qbit, e);
      TakenBound(num0, quot + qbit, den0, num - den);
    }
    e' := 0;
    if e != 0 {
      e' := e - 1;
      JustifyBack(den0, den, qbit, e');
    }
  }

  /** __udivmoddi4; a zero divisor is a deliberate division fault in the source. */
  method UDivModDi4(num0: u64, den0: u64) returns (quot: u64, rem: u64)
    requires den0 != 0
    ensures quot == num0 / den0 && rem == num0 % den0
  {
    hide Taken, Justified, Subtracting;
    var num := num0;
    quot := 0;
    var den, qbit, e := LeftJustify(den0);
    SubtractStart(num0, den0, den, qbit, e);
    while qbit != 0
      invariant Subtracting(num0, den0, num, den, quot, qbit, e)
      decreases qbit
    {
      e := SubtractRound(num0, den0, num, den, quot, qbit, e);
      if den <= num {
        num := num - den;
        quot := quot + qbit;
      }
      den := den / 2;
      qbit := qbit / 2;
    }
    SubtractEnd(num0, den0, num, den, quot, e);
    rem := num;
  }

  lemma SubtractStart(num0: u64, den0: int, den: int, qbit: int, e: nat)
    requires 1 <= den0 && Justified(den0, den, qbit, e) && 0x8000_0000_0000_0000 <= den
    ensures Subtracting(num0, den0, num0, den, 0, qbit, e)
  {
    JustifiedBound(den0, den, qbit, e);
    TakenStart(num0, den0);
  }

  lemma SubtractEnd(num0: int, den0: int, num: int, den: int, quot: int, e: nat)
    requires Subtracting(num0, den0, num, den, quot, 0, e)
    ensures quot == num0 / den0 && num == num0 % den0
  {
    QuotientUnique(num0, den0, quot, num);
  }

  lemma JustifiedStart(d0: int)
    ensures Justified(d0, d0, 1, 0)
  {
  }
}
