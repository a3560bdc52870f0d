/** The similarity the matcher uses: rapidfuzz's `fuzz.ratio` divided by 100,
    that is the Indel-normalised similarity 2·LCS(a, b) / (|a| + |b|), where
    LCS is the length of a longest common subsequence; two empty strings are
    identical (1.0). Scores are exact reals, not doubles. */
module Similarity {

  function Max(x: nat, y: nat): nat { if x >= y then x else y }

  /** Length of a longest common subsequence of `a` and `b`. */
  function Lcs(a: string, b: string): (n: nat)
    ensures n <= |a| && n <= |b|
    decreases |a| + |b|
  {
    if a == [] || b == [] then 0
    else if a[0] == b[0] then 1 + Lcs(a[1..], b[1..])
    else Max(Lcs(a[1..], b), Lcs(a, b[1..]))
  }

  /** `fuzz.ratio(a, b) / 100.0`. */
  function Ratio(a: string, b: string): (r: real)
    ensures 0.0 <= r <= 1.0
  {
    if |a| + |b| == 0 then 1.0
    else
      var n := Lcs(a, b);
      UnitFraction((2 * n) as real, (|a| + |b|) as real);
      (2 * n) as real / (|a| + |b|) as real
  }

  lemma UnitFraction(x: real, y: real)
    requires 0.0 <= x <= y && 0.0 < y
    ensures 0.0 <= x / y <= 1.0
  {
    assert x / y * y == x;
  }

  lemma {:induction false} LcsSelf(a: string)
    ensures Lcs(a, a) == |a|
    decreases |a|
  {
    if a != [] {
      LcsSelf(a[1..]);
    }
  }

  lemma {:induction false} LcsSymmetric(a: string, b: string)
    ensures Lcs(a, b) == Lcs(b, a)
    decreases |a| + |b|
  {
    if a != [] && b != [] {
      if a[0] == b[0] {
        LcsSymmetric(a[1..], b[1..]);
      } else {
        LcsSymmetric(a[1..], b);
        LcsSymmetric(a, b[1..]);
      }
    }
  }

  /** A common subsequence as long as both strings forces them to be equal. */
  lemma {:induction false} LcsFullMeansEqual(a: string, b: string)
    requires |a| == |b| == Lcs(a, b)
    ensures a == b
    decreases |a|
  {
    if a != [] {
      if a[0] == b[0] {
        LcsFullMeansEqual(a[1..], b[1..]);
        assert a == [a[0]] + a[1..] && b == [b[0]] + b[1..];
      } else {
        assert Lcs(a[1..], b) <= |a| - 1 && Lcs(a, b[1..]) <= |b| - 1;
        assert false;
      }
    }
  }

  /** Identity: a string is fully similar to itself. */
  lemma RatioSelf(a: string)
    ensures Ratio(a, a) == 1.0
  {
    LcsSelf(a);
  }

  /** Symmetry: the order of the two strings does not matter. */
  lemma RatioSymmetric(a: string, b: string)
    ensures Ratio(a, b) == Ratio(b, a)
  {
    LcsSymmetric(a, b);
  }

  /** The score is 1.0 exactly when the strings are equal. */
  lemma RatioOneIffEqual(a: string, b: string)
    ensures Ratio(a, b) == 1.0 <==> a == b
  {
    if a == b {
      RatioSelf(a);
    } else if Ratio(a, b) == 1.0 {
      var n := Lcs(a, b);
      assert |a| + |b| > 0;
      assert (2 * n) as real == (|a| + |b|) as real;
      LcsFullMeansEqual(a, b);
    }
  }
}
