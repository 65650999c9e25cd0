/**
  Substring search that looks at the second character first and skips one or
  two positions on a mismatch.
*/
module Memmem {

  /** The needle occurs in the haystack at position i. */
  ghost predicate OccursAt<T>(haystack: seq<T>, needle: seq<T>, i: int) {
    0 <= i && i + |needle| <= |haystack| && haystack[i..i + |needle|] == needle
  }

  lemma OccurrenceAt<T>(haystack: seq<T>, needle: seq<T>, i: int, k: int)
    requires OccursAt(haystack, needle, i) && 0 <= k < |needle|
    ensures haystack[i + k] == needle[k]
  {
    assert haystack[i..i + |needle|][k] == needle[k];
  }

  /** memcmp on the rest of the needle, as the search calls it. */
  predicate SameRest<T(==)>(haystack: seq<T>, needle: seq<T>, j: int)
    requires 2 <= |needle| && 0 <= j && j + |needle| <= |haystack|
  {
    needle[2..] == haystack[j + 2..j + |needle|]
  }

  /** A mismatch of the second character rules out one position, and the next one if the needle starts with a pair. */
  lemma MismatchSkips<T>(haystack: seq<T>, needle: seq<T>, j: int)
    requires 2 <= |needle| && 0 <= j && j + 1 < |haystack| && haystack[j + 1] != needle[1]
    ensures !OccursAt(haystack, needle, j)
    ensures needle[0] == needle[1] ==> !OccursAt(haystack, needle, j + 1)
  {
    if OccursAt(haystack, needle, j) { OccurrenceAt(haystack, needle, j, 1); }
    if OccursAt(haystack, needle, j + 1) { OccurrenceAt(haystack, needle, j + 1, 0); }
  }

  /**
    A match of the second character without an occurrence rules out the next position if
    the needle starts with two different characters.
  */
  lemma MatchSkips<T>(haystack: seq<T>, needle: seq<T>, j: int)
    requires 2 <= |needle| && 0 <= j && j + 1 < |haystack| && haystack[j + 1] == needle[1] && needle[0] != needle[1]
    ensures !OccursAt(haystack, needle, j + 1)
  {
    if OccursAt(haystack, needle, j + 1) { OccurrenceAt(haystack, needle, j + 1, 0); }
  }

  lemma MatchIff<T>(haystack: seq<T>, needle: seq<T>, j: int)
    requires 2 <= |needle| && 0 <= j && j + |needle| <= |haystack| && haystack[j + 1] == needle[1]
    ensures OccursAt(haystack, needle, j) <==> SameRest(haystack, needle, j) && needle[0] == haystack[j]
  {
    var h := haystack[j..j + |needle|];
    assert h == [haystack[j], haystack[j + 1]] + haystack[j + 2..j + |needle|];
    assert needle == [needle[0], needle[1]] + needle[2..];
  }

  /** memmem: the first occurrence of a non-empty needle, and none exactly when there is none. */
  method Find<T(==)>(haystack: seq<T>, needle: seq<T>) returns (found: bool, at: int)
    ensures found ==> OccursAt(haystack, needle, at) && forall i :: 0 <= i < at ==> !OccursAt(haystack, needle, i)
    ensures needle != [] ==> (found <==> exists i :: OccursAt(haystack, needle, i))
    ensures needle == [] ==> !found
  {
    hide OccursAt;
    found, at := false, 0;
    var n, m := |haystack|, |needle|;
    if m > n || m == 0 || n == 0 {
      TooLong(haystack, needle);
      return;
    }
    if m != 1 {
      var k, l := 1, 2;
      if needle[0] == needle[1] {
        k, l := 2, 1;
      }
      var j := 0;
      while j <= n - m
        invariant 0 <= j
        invariant forall i :: 0 <= i < j ==> !OccursAt(haystack, needle, i)
      {
        if needle[1] != haystack[j + 1] {
          MismatchSkips(haystack, needle, j);
          j := j + k;
        } else {
          MatchIff(haystack, needle, j);
          if SameRest(haystack, needle, j) && needle[0] == haystack[j] {
            return true, j;
          }
          if needle[0] != needle[1] { MatchSkips(haystack, needle, j); }
          j := j + l;
        }
      }
      NoneBeyond(haystack, needle, j);
    } else {
      var y := 0;
      while y < n
        invariant 0 <= y <= n
        invariant forall i :: 0 <= i < y ==> !OccursAt(haystack, needle, i)
      {
        SingleIff(haystack, needle, y);
        if haystack[y] == needle[0] {
          return true, y;
        }
        y := y + 1;
      }
      NoneBeyond(haystack, needle, y);
    }
  }

  lemma SingleIff<T>(haystack: seq<T>, needle: seq<T>, y: int)
    requires |needle| == 1 && 0 <= y < |haystack|
    ensures OccursAt(haystack, needle, y) <==> haystack[y] == needle[0]
  {
  }

  lemma TooLong<T>(haystack: seq<T>, needle: seq<T>)
    ensures |needle| > |haystack| ==> forall i :: !OccursAt(haystack, needle, i)
  {
  }

  lemma NoneBeyond<T>(haystack: seq<T>, needle: seq<T>, j: int)
    requires j > |haystack| - |needle| && forall i :: 0 <= i < j ==> !OccursAt(haystack, needle, i)
    ensures forall i :: !OccursAt(haystack, needle, i)
  {
  }
}
