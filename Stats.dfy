/**
 Reductions over a sequence of reals (the numpy/pandas reductions the analyses
 use, with `real` standing in for floating point) and the facts about them the
 analyses rely on.
 */
module Stats {

  predicate NonNegative(s: seq<real>)
  {
    forall k :: 0 <= k < |s| ==> s[k] >= 0.0
  }

  predicate AllPositive(s: seq<real>)
  {
    forall k :: 0 <= k < |s| ==> s[k] > 0.0
  }

  /** Sum of the entries, accumulated from the left. */
  function Sum(s: seq<real>): real
  {
    if |s| == 0 then 0.0 else Sum(s[..|s| - 1]) + s[|s| - 1]
  }

  /** Sum of the squared entries. */
  function SumOfSquares(s: seq<real>): real
  {
    if |s| == 0 then 0.0 else SumOfSquares(s[..|s| - 1]) + s[|s| - 1] * s[|s| - 1]
  }

  /** Sum of the squared distances of the entries from `c`. */
  function SquaredDeviation(s: seq<real>, c: real): real
  {
    if |s| == 0 then 0.0
    else
      var e := s[|s| - 1] - c;
      SquaredDeviation(s[..|s| - 1], c) + e * e
  }

  /** Arithmetic mean (`np.mean`, `DataFrame.mean`): `n` times it is the sum. */
  function Mean(s: seq<real>): (r: real)
    requires |s| > 0
    ensures r * (|s| as real) == Sum(s)
  {
    QuotientTimesDivisor(Sum(s), |s| as real);
    Sum(s) / (|s| as real)
  }

  /**
   Sample variance, with `n - 1` in the denominator (pandas' default `ddof=1`):
   never negative, and `n - 1` times it is the squared deviation from the mean.
   */
  function SampleVariance(s: seq<real>): (r: real)
    requires |s| >= 2
    ensures r >= 0.0
    ensures r * ((|s| - 1) as real) == SquaredDeviation(s, Mean(s))
  {
    var m := (|s| - 1) as real;
    SquaredDeviationNonNegative(s, Mean(s));
    NonNegativeQuotient(SquaredDeviation(s, Mean(s)), m);
    QuotientTimesDivisor(SquaredDeviation(s, Mean(s)), m);
    SquaredDeviation(s, Mean(s)) / m
  }

  /** Smallest entry (`DataFrame.min`, per column). */
  function Min(s: seq<real>): (m: real)
    requires |s| > 0
    ensures m in s
    ensures forall k :: 0 <= k < |s| ==> m <= s[k]
  {
    if |s| == 1 then s[0]
    else
      var m' := Min(s[..|s| - 1]);
      assert m' in s[..|s| - 1];
      if s[|s| - 1] < m' then s[|s| - 1] else m'
  }

  /** Largest entry (`DataFrame.max`, per column). */
  function Max(s: seq<real>): (m: real)
    requires |s| > 0
    ensures m in s
    ensures forall k :: 0 <= k < |s| ==> s[k] <= m
  {
    if |s| == 1 then s[0]
    else
      var m' := Max(s[..|s| - 1]);
      assert m' in s[..|s| - 1];
      if s[|s| - 1] > m' then s[|s| - 1] else m'
  }

  /**
   The strictly positive entries, in their original order (the boolean-mask
   filter `a[a > 0]`).
   */
  function Positives(s: seq<real>): (r: seq<real>)
    ensures |r| <= |s|
    ensures AllPositive(r)
  {
    if |s| == 0 then []
    else
      var n := |s| - 1;
      var p := Positives(s[..n]);
      if s[n] > 0.0 then p + [s[n]] else p
  }

  /** The positions of the strictly positive entries. */
  function PositiveIndices(s: seq<real>): set<nat>
  {
    set k: nat | k < |s| && s[k] > 0.0
  }

  /** Each entry `s[k]` divided by the total. */
  function Proportions(s: seq<real>): seq<real>
    requires Sum(s) != 0.0
  {
    seq(|s|, k requires 0 <= k < |s| => s[k] / Sum(s))
  }

  /** The filter keeps exactly as many entries as there are positive positions. */
  lemma {:induction false} PositivesCount(s: seq<real>)
    ensures |Positives(s)| == |PositiveIndices(s)|
  {
    if |s| == 0 {
      assert PositiveIndices(s) == {};
    } else {
      var n := |s| - 1;
      PositivesCount(s[..n]);
      assert PositiveIndices(s) == PositiveIndices(s[..n]) + (if s[n] > 0.0 then {n} else {});
    }
  }

  /** On a single entry the filter keeps it exactly when it is strictly positive. */
  lemma {:induction false} PositivesSingleton(x: real)
    ensures Positives([x]) == (if x > 0.0 then [x] else [])
  {
    assert [x][..0] == [];
  }

  /** The filter keeps exactly the strictly positive values of the input. */
  lemma {:induction false} PositivesMembers(s: seq<real>)
    ensures forall x :: x in Positives(s) <==> x in s && x > 0.0
  {
    if |s| > 0 {
      var n := |s| - 1;
      PositivesMembers(s[..n]);
      assert s == s[..n] + [s[n]];
      forall x
        ensures x in s <==> x in s[..n] || x == s[n]
      {
        assert x in s[..n] ==> x in s;
      }
    }
  }

  /** Filtering commutes with concatenation. */
  lemma {:induction false} PositivesAppend(a: seq<real>, b: seq<real>)
    ensures Positives(a + b) == Positives(a) + Positives(b)
  {
    if |b| == 0 {
      assert a + b == a;
    } else {
      var n := |b| - 1;
      var ab := a + b;
      PositivesAppend(a, b[..n]);
      assert ab[..|ab| - 1] == a + b[..n];
      PositivesLast(ab);
      PositivesLast(b);
    }
  }

  /** The filter of a non-empty sequence: that of all but the last entry, then the last entry if it is kept. */
  lemma {:induction false} PositivesLast(s: seq<real>)
    requires |s| > 0
    ensures Positives(s) == Positives(s[..|s| - 1]) + (if s[|s| - 1] > 0.0 then [s[|s| - 1]] else [])
  {
  }



  lemma {:induction false} SquaredDeviationNonNegative(s: seq<real>, c: real)
    ensures SquaredDeviation(s, c) >= 0.0
  {
    if |s| > 0 {
      var e := s[|s| - 1] - c;
      SquaredDeviationNonNegative(s[..|s| - 1], c);
      assert e * e >= 0.0;
    }
  }

  lemma {:induction false} SumOfSquaresNonNegative(s: seq<real>)
    ensures SumOfSquares(s) >= 0.0
  {
    if |s| > 0 {
      var x := s[|s| - 1];
      SumOfSquaresNonNegative(s[..|s| - 1]);
      assert x * x >= 0.0;
    }
  }

  /** A sequence whose entries all equal `c` sums to `n c`. */
  lemma {:induction false} SumConstant(s: seq<real>, c: real)
    requires forall k :: 0 <= k < |s| ==> s[k] == c
    ensures Sum(s) == (|s| as real) * c
  {
    if |s| > 0 {
      SumConstant(s[..|s| - 1], c);
    }
  }

  lemma {:induction false} SumNonNegative(s: seq<real>)
    requires NonNegative(s)
    ensures Sum(s) >= 0.0
  {
    if |s| > 0 {
      SumNonNegative(s[..|s| - 1]);
    }
  }

  /** No entry of a non-negative sequence exceeds its sum. */
  lemma {:induction false} ElementAtMostSum(s: seq<real>, k: nat)
    requires NonNegative(s) && k < |s|
    ensures s[k] <= Sum(s)
  {
    var n := |s| - 1;
    if k < n {
      ElementAtMostSum(s[..n], k);
    } else {
      SumNonNegative(s[..n]);
    }
  }

  lemma {:induction false} SumPositive(s: seq<real>)
    requires AllPositive(s) && |s| > 0
    ensures Sum(s) > 0.0
  {
    ElementAtMostSum(s, 0);
  }

  /** With two or more positive entries, each one is strictly below the sum. */
  lemma {:induction false} ElementBelowSum(s: seq<real>, k: nat)
    requires AllPositive(s) && |s| >= 2 && k < |s|
    ensures s[k] < Sum(s)
  {
    var n := |s| - 1;
    if k < n {
      ElementAtMostSum(s[..n], k);
    } else {
      SumPositive(s[..n]);
    }
  }

  /**
   Entries in [0, 1] are at least their squares, so the sum of squares is at most
   the sum; strictly so when every entry lies strictly between 0 and 1.
   */
  lemma {:induction false} SquaresAtMostSum(s: seq<real>)
    requires forall k :: 0 <= k < |s| ==> 0.0 <= s[k] <= 1.0
    ensures SumOfSquares(s) <= Sum(s)
    ensures |s| > 0 && (forall k :: 0 <= k < |s| ==> 0.0 < s[k] < 1.0) ==> SumOfSquares(s) < Sum(s)
  {
    if |s| > 0 {
      var n := |s| - 1;
      SquaresAtMostSum(s[..n]);
      SquareAtMostSelfStep(SumOfSquares(s), SumOfSquares(s[..n]), Sum(s), Sum(s[..n]), s[n]);
    }
  }

  /**
   Shifting every entry by `c` and scaling it by `1/d` (stated without division:
   `y[k] * d == x[k] - c`) shifts and scales the sum the same way.
   */
  lemma {:induction false} SumShiftScale(x: seq<real>, y: seq<real>, c: real, d: real)
    requires |x| == |y|
    requires forall k :: 0 <= k < |x| ==> y[k] * d == x[k] - c
    ensures Sum(y) * d == Sum(x) - (|x| as real) * c
  {
    if |x| > 0 {
      var n := |x| - 1;
      SumShiftScale(x[..n], y[..n], c, d);
      ShiftScaleStep(Sum(y), Sum(y[..n]), Sum(x), Sum(x[..n]), y[n], x[n], |x| as real, n as real, c, d);
    }
  }

  /** The same transformation scales the squared deviation from `c` by `d * d`. */
  lemma {:induction false} SquaresShiftScale(x: seq<real>, y: seq<real>, c: real, d: real)
    requires |x| == |y|
    requires forall k :: 0 <= k < |x| ==> y[k] * d == x[k] - c
    ensures SumOfSquares(y) * (d * d) == SquaredDeviation(x, c)
  {
    if |x| > 0 {
      var n := |x| - 1;
      ShiftScalePrefix(x, y, c, d, n);
      SquaresShiftScale(x[..n], y[..n], c, d);
      SquaresShiftScaleLast(x, y, c, d);
    } else {
      ZeroTimes(SumOfSquares(y), d * d);
    }
  }

  lemma {:induction false} SquaresShiftScaleLast(x: seq<real>, y: seq<real>, c: real, d: real)
    requires |x| == |y| > 0
    requires y[|x| - 1] * d == x[|x| - 1] - c
    requires SumOfSquares(y[..|x| - 1]) * (d * d) == SquaredDeviation(x[..|x| - 1], c)
    ensures SumOfSquares(y) * (d * d) == SquaredDeviation(x, c)
  {
    var n := |x| - 1;
    var e := x[n] - c;
    ScaledSquare(y[n], e, d);
    SquaresStep(SumOfSquares(y), SumOfSquares(y[..n]), SquaredDeviation(x, c),
                SquaredDeviation(x[..n], c), y[n] * y[n], e * e, d * d);
  }

  lemma {:induction false} ShiftScalePrefix(x: seq<real>, y: seq<real>, c: real, d: real, n: nat)
    requires |x| == |y| && n <= |x|
    requires forall k :: 0 <= k < |x| ==> y[k] * d == x[k] - c
    ensures forall k :: 0 <= k < n ==> y[..n][k] * d == x[..n][k] - c
  {
  }

  /** Each proportion times the total is the entry it came from. */
  lemma {:induction false} ProportionsScaled(s: seq<real>)
    requires Sum(s) != 0.0
    ensures forall k :: 0 <= k < |s| ==> Proportions(s)[k] * Sum(s) == s[k]
  {
    forall k | 0 <= k < |s|
      ensures Proportions(s)[k] * Sum(s) == s[k]
    {
      QuotientTimesDivisor(s[k], Sum(s));
    }
  }

  /** The proportions of a sequence with non-zero sum add up to 1. */
  lemma {:induction false} ProportionsSumToOne(s: seq<real>)
    requires Sum(s) != 0.0
    ensures Sum(Proportions(s)) == 1.0
  {
    var p := Proportions(s);
    ProportionsScaled(s);
    SumShiftScale(s, p, 0.0, Sum(s));
    Cancel(Sum(p), 1.0, Sum(s));
  }

  /** Expanding the square: the squared deviation from `c` in terms of sum and sum of squares. */
  lemma {:induction false} SquaredDeviationExpansion(s: seq<real>, c: real)
    ensures SquaredDeviation(s, c) == SumOfSquares(s) - 2.0 * c * Sum(s) + (|s| as real) * c * c
  {
    if |s| > 0 {
      var n := |s| - 1;
      var p, x := s[..n], s[n];
      SquaredDeviationExpansion(p, c);
      ExpansionStep(SquaredDeviation(s, c), SquaredDeviation(p, c), SumOfSquares(s), SumOfSquares(p),
                    Sum(s), Sum(p), |s| as real, n as real, x, c);
    }
  }

  /**
   Cauchy-Schwarz against the all-ones vector: `(Σx)² <= n Σx²`; it is the
   expansion of the squared deviation from the mean, which is never negative.
   */
  lemma {:induction false} SquareOfSumAtMost(s: seq<real>)
    ensures Sum(s) * Sum(s) <= (|s| as real) * SumOfSquares(s)
  {
    if |s| > 0 {
      var m := |s| as real;
      var c := Quotient(Sum(s), m);
      SquaredDeviationExpansion(s, c);
      SquaredDeviationNonNegative(s, c);
      CauchySchwarzStep(SquaredDeviation(s, c), SumOfSquares(s), Sum(s), m, c);
    } else {
      assert Sum(s) == 0.0 && SumOfSquares(s) == 0.0;
    }
  }

  /**
   Entries that add up to 1 have a sum of squares of at least `1/n`, in
   particular a positive one.
   */
  lemma {:induction false} UnitSumSquares(s: seq<real>)
    requires |s| > 0 && Sum(s) == 1.0
    ensures (|s| as real) * SumOfSquares(s) >= 1.0
    ensures SumOfSquares(s) > 0.0
  {
    SquareOfSumAtMost(s);
    PositiveFactor(|s| as real, SumOfSquares(s));
  }

  /**
   Every proportion of a positive sequence lies in (0, 1]; with two or more
   entries each one is strictly below 1.
   */
  lemma {:induction false} ProportionsInUnitInterval(s: seq<real>)
    requires AllPositive(s) && |s| > 0
    ensures Sum(s) > 0.0
    ensures forall k :: 0 <= k < |s| ==> 0.0 < Proportions(s)[k] <= 1.0
    ensures |s| >= 2 ==> forall k :: 0 <= k < |s| ==> Proportions(s)[k] < 1.0
  {
    SumPositive(s);
    forall k | 0 <= k < |s|
      ensures 0.0 < Proportions(s)[k] <= 1.0
      ensures |s| >= 2 ==> Proportions(s)[k] < 1.0
    {
      ElementAtMostSum(s, k);
      if |s| >= 2 {
        ElementBelowSum(s, k);
      }
      RatioBounds(s[k], Sum(s));
    }
  }

  lemma {:induction false} SumNonPositive(s: seq<real>)
    requires forall k :: 0 <= k < |s| ==> s[k] <= 0.0
    ensures Sum(s) <= 0.0
  {
    if |s| > 0 {
      SumNonPositive(s[..|s| - 1]);
    }
  }

  /** The squared deviation from 0 is the sum of squares. */
  lemma {:induction false} SquaredDeviationAtZero(s: seq<real>)
    ensures SquaredDeviation(s, 0.0) == SumOfSquares(s)
  {
    if |s| > 0 {
      SquaredDeviationAtZero(s[..|s| - 1]);
    }
  }

  /** Entries centred on the mean and scaled by a non-zero `d` sum, and so average, to 0. */
  lemma {:induction false} CenteredSumZero(x: seq<real>, y: seq<real>, d: real)
    requires |x| == |y| > 0 && d != 0.0
    requires forall k :: 0 <= k < |x| ==> y[k] * d == x[k] - Mean(x)
    ensures Sum(y) == 0.0 && Mean(y) == 0.0
  {
    SumShiftScale(x, y, Mean(x), d);
    Cancel(Sum(y), 0.0, d);
  }

  /** Entries between `lo` and `hi` sum to between `n lo` and `n hi`. */
  lemma {:induction false} SumBounds(s: seq<real>, lo: real, hi: real)
    requires forall k :: 0 <= k < |s| ==> lo <= s[k] <= hi
    ensures (|s| as real) * lo <= Sum(s) <= (|s| as real) * hi
  {
    if |s| > 0 {
      var n := |s| - 1;
      SumBounds(s[..n], lo, hi);
      BoundsStep(Sum(s), Sum(s[..n]), s[n], |s| as real, n as real, lo, hi);
    }
  }

  /** The mean lies between the smallest and the largest entry. */
  lemma {:induction false} MeanBetweenExtremes(s: seq<real>)
    requires |s| > 0
    ensures Min(s) <= Mean(s) <= Max(s)
  {
    var lo, hi, n, m := Min(s), Max(s), |s| as real, Mean(s);
    SumBounds(s, lo, hi);
    ScaledBounds(m, n, Sum(s), lo, hi);
  }

  /** A sequence whose entries all equal `c` has sum of squares `n c²`. */
  lemma {:induction false} SumOfSquaresConstant(s: seq<real>, c: real)
    requires forall k :: 0 <= k < |s| ==> s[k] == c
    ensures SumOfSquares(s) == (|s| as real) * c * c
  {
    if |s| > 0 {
      SumOfSquaresConstant(s[..|s| - 1], c);
    }
  }

  // Single inductive steps, stated over plain reals: the primed values describe the
  // prefix, the unprimed ones the prefix extended by one entry.

  lemma {:induction false} SquareAtMostSelfStep(Q: real, Q': real, S: real, S': real, x: real)
    requires Q == Q' + x * x && S == S' + x && Q' <= S' && 0.0 <= x <= 1.0
    ensures Q <= S
    ensures Q' < S' || (Q' == 0.0 && S' == 0.0) ==> 0.0 < x < 1.0 ==> Q < S
  {
    assert x * x <= x * 1.0;
  }

  lemma {:induction false} PositiveFactor(m: real, q: real)
    requires m > 0.0 && 1.0 <= m * q
    ensures q > 0.0
  {
  }

  lemma {:induction false} RatioBounds(a: real, b: real)
    requires 0.0 < a <= b
    ensures 0.0 < a / b <= 1.0
    ensures a < b ==> a / b < 1.0
  {
  }

  lemma {:induction false} ReciprocalAtMost(m: real, q: real)
    requires m > 0.0 && m * q >= 1.0
    ensures 1.0 / m <= q
  {
  }

  lemma {:induction false} EvenShare(q: real, S: real, c: real, m: real)
    requires c > 0.0 && m > 0.0 && S == m * c && q * S == c
    ensures q == 1.0 / m
  {
  }

  lemma {:induction false} EvenSquares(m: real)
    requires m > 0.0
    ensures m * (1.0 / m) * (1.0 / m) == 1.0 / m
  {
  }

  lemma {:induction false} ProductNonPositive(a: real, b: real)
    requires a > 0.0 && b <= 0.0
    ensures a * b <= 0.0
  {
  }

  lemma {:induction false} UnitRatio(a: real, b: real)
    requires 0.0 <= a <= b && b > 0.0
    ensures 0.0 <= a / b <= 1.0
    ensures a / b == 0.0 <==> a == 0.0
    ensures a / b == 1.0 <==> a == b
  {
  }

  lemma {:induction false} DivMonotone(a: real, a': real, b: real)
    requires b > 0.0
    ensures a <= a' <==> a / b <= a' / b
  {
  }

  lemma {:induction false} Reciprocal(a: real, b: real)
    requires a != 0.0 && b != 0.0
    ensures (b / a) * (a / b) == 1.0
    ensures 1.0 / (b / a) == a / b
  {
  }

  lemma {:induction false} ReciprocalPositive(a: real, b: real)
    requires a != 0.0 && b / a > 0.0
    ensures b != 0.0 && a / b > 0.0
  {
  }

  lemma {:induction false} UnitVarianceStep(Q: real, D: real, d: real, m: real)
    requires Q * (d * d) == D && (d * d) * m == D && d != 0.0 && m > 0.0
    ensures Q == m && Q / m == 1.0
  {
    Associate(Q, d);
    Associate(m, d);
    Cancel(Q * d, m * d, d);
    Cancel(Q, m, d);
  }

  lemma {:induction false} Associate(a: real, d: real)
    ensures a * (d * d) == (a * d) * d
  {
  }

  lemma {:induction false} NonNegativeQuotient(a: real, b: real)
    requires a >= 0.0 && b > 0.0
    ensures a / b >= 0.0
  {
  }

  lemma {:induction false} BoundsStep(S: real, S': real, x: real, m: real, m': real, lo: real, hi: real)
    requires S == S' + x && m == m' + 1.0 && m' * lo <= S' <= m' * hi && lo <= x <= hi
    ensures m * lo <= S <= m * hi
  {
  }

  lemma {:induction false} ScaledBounds(r: real, n: real, S: real, lo: real, hi: real)
    requires n > 0.0 && r * n == S && n * lo <= S <= n * hi
    ensures lo <= r <= hi
  {
  }

  lemma {:induction false} ShiftScaleStep(Y: real, Y': real, X: real, X': real, y: real, x: real, m: real, m': real, c: real, d: real)
    requires Y == Y' + y && X == X' + x && m == m' + 1.0
    requires Y' * d == X' - m' * c && y * d == x - c
    ensures Y * d == X - m * c
  {
  }

  lemma {:induction false} SquaresStep(Y: real, Y': real, D: real, D': real, yy: real, ee: real, d2: real)
    requires Y == Y' + yy && D == D' + ee
    requires Y' * d2 == D' && yy * d2 == ee
    ensures Y * d2 == D
  {
  }

  lemma {:induction false} ScaledSquare(y: real, e: real, d: real)
    requires y * d == e
    ensures (y * y) * (d * d) == e * e
  {
    calc {
      e * e;
      (y * d) * (y * d);
      (y * y) * (d * d);
    }
  }

  lemma {:induction false} QuotientTimesDivisor(a: real, b: real)
    requires b != 0.0
    ensures (a / b) * b == a
  {
  }

  lemma {:induction false} Quotient(a: real, b: real) returns (q: real)
    requires b != 0.0
    ensures q * b == a
  {
    q := a / b;
  }

  lemma {:induction false} ZeroTimes(a: real, b: real)
    requires a == 0.0
    ensures a * b == 0.0
  {
  }

  lemma {:induction false} Cancel(a: real, b: real, d: real)
    requires d != 0.0 && a * d == b * d
    ensures a == b
  {
    assert (a - b) * d == 0.0;
  }

  lemma {:induction false} ExpansionStep(D: real, D': real, Q: real, Q': real, S: real, S': real, m: real, m': real, x: real, c: real)
    requires D == D' + (x - c) * (x - c) && Q == Q' + x * x && S == S' + x && m == m' + 1.0
    requires D' == Q' - 2.0 * c * S' + m' * c * c
    ensures D == Q - 2.0 * c * S + m * c * c
  {
  }

  lemma {:induction false} CauchySchwarzStep(D: real, Q: real, S: real, m: real, c: real)
    requires D == Q - 2.0 * c * S + m * c * c && D >= 0.0
    requires c * m == S && m > 0.0
    ensures S * S <= m * Q
  {
    assert m * D == m * Q - S * S;
    assert m * D >= 0.0;
  }
}
