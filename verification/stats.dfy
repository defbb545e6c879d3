/** Arithmetic shared by the analysis engine: sums and means over `real`,
    the JavaScript `Math.round`, `Math.max` and `Math.min`, and the byte
    type of the analyser's magnitude arrays. */
module Stats {

  /** One slot of a `Uint8Array` filled by the analyser. */
  type Byte = x: int | 0 <= x <= 255

  /** Left-to-right sum, the order in which the source's loops accumulate. */
  function Sum(s: seq<real>): real
  {
    if |s| == 0 then 0.0 else Sum(s[..|s| - 1]) + s[|s| - 1]
  }

  /** Arithmetic mean: the sum divided by the element count. */
  function Mean(s: seq<real>): real
    requires |s| > 0
  {
    Sum(s) / |s| as real
  }

  /** The magnitude array read as numbers. */
  function ToReals(m: seq<Byte>): (r: seq<real>)
    ensures |r| == |m|
  {
    seq(|m|, i requires 0 <= i < |m| => m[i] as real)
  }

  function Max(a: real, b: real): real
  {
    if a >= b then a else b
  }

  function MinInt(a: int, b: int): int
  {
    if a <= b then a else b
  }

  function MaxInt(a: int, b: int): int
  {
    if a >= b then a else b
  }

  function Abs(x: real): real
  {
    if x < 0.0 then -x else x
  }

  /** JavaScript `Math.round`: the nearest integer, halves rounded up. */
  function Round(x: real): (r: int)
    ensures x - 0.5 < r as real <= x + 0.5
  {
    (x + 0.5).Floor
  }

  ghost predicate AllWithin(s: seq<real>, lo: real, hi: real)
  {
    forall i :: 0 <= i < |s| ==> lo <= s[i] <= hi
  }

  ghost predicate AllNonNegative(s: seq<real>)
  {
    forall i :: 0 <= i < |s| ==> 0.0 <= s[i]
  }

  /** A sum of values in [lo, hi] lies between |s|*lo and |s|*hi. */
  lemma {:induction false} SumBounds(s: seq<real>, lo: real, hi: real)
    requires AllWithin(s, lo, hi)
    ensures |s| as real * lo <= Sum(s) <= |s| as real * hi
    decreases |s|
  {
    if |s| > 0 {
      var s' := s[..|s| - 1];
      assert AllWithin(s', lo, hi) by {
        forall i | 0 <= i < |s'| ensures lo <= s'[i] <= hi {
          assert s'[i] == s[i];
        }
      }
      SumBounds(s', lo, hi);
      assert lo <= s[|s| - 1] <= hi;
      assert |s| as real * lo == |s'| as real * lo + lo;
      assert |s| as real * hi == |s'| as real * hi + hi;
    }
  }

  /** A mean of values in [lo, hi] lies in [lo, hi]. */
  lemma MeanBounds(s: seq<real>, lo: real, hi: real)
    requires |s| > 0
    requires AllWithin(s, lo, hi)
    ensures lo <= Mean(s) <= hi
  {
    SumBounds(s, lo, hi);
    var n := |s| as real;
    assert n * lo <= Sum(s) <= n * hi;
    assert Mean(s) * n == Sum(s);
  }

  /** A sum of non-negative values is zero only when every value is zero. */
  lemma {:induction false} SumZeroOnlyIfAllZero(s: seq<real>)
    requires AllNonNegative(s)
    ensures Sum(s) >= 0.0
    ensures Sum(s) == 0.0 <==> forall i :: 0 <= i < |s| ==> s[i] == 0.0
    decreases |s|
  {
    if |s| > 0 {
      var s' := s[..|s| - 1];
      assert AllNonNegative(s') by {
        forall i | 0 <= i < |s'| ensures 0.0 <= s'[i] {
          assert s'[i] == s[i];
        }
      }
      SumZeroOnlyIfAllZero(s');
      if Sum(s) == 0.0 {
        forall i | 0 <= i < |s| ensures s[i] == 0.0 {
          if i < |s| - 1 {
            assert s[i] == s'[i];
          }
        }
      }
      if forall i :: 0 <= i < |s| ==> s[i] == 0.0 {
        assert forall i :: 0 <= i < |s'| ==> s'[i] == s[i];
      }
    }
  }

  /** A sum of |s| copies of c is |s|*c. */
  lemma {:induction false} SumConstant(s: seq<real>, c: real)
    requires forall i :: 0 <= i < |s| ==> s[i] == c
    ensures Sum(s) == |s| as real * c
    decreases |s|
  {
    if |s| > 0 {
      SumConstant(s[..|s| - 1], c);
    }
  }

  /** The mean of |s| copies of c is c. */
  lemma MeanConstant(s: seq<real>, c: real)
    requires |s| > 0
    requires forall i :: 0 <= i < |s| ==> s[i] == c
    ensures Mean(s) == c
  {
    SumConstant(s, c);
  }

  /** `xs.reduce((sum, x) => sum + x, 0)`. */
  method Reduce(xs: seq<real>) returns (total: real)
    ensures total == Sum(xs)
  {
    total := 0.0;
    var i := 0;
    while i < |xs|
      invariant 0 <= i <= |xs|
      invariant total == Sum(xs[..i])
    {
      assert xs[..i + 1][..i] == xs[..i];
      total := total + xs[i];
      i := i + 1;
    }
    assert xs[..|xs|] == xs;
  }
}
