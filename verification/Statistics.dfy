/**
 Means and confidence intervals of the evaluation matrix (interval, src/application/patch-model-evaluation.ts).
 Arithmetic is over the reals, with the rounding to 12 decimals written out; the square root is a parameter.
 */
module Statistics {
  const Z_95 := 1.959963984540054

  function Sum(values: seq<real>): real {
    if values == [] then 0.0 else values[0] + Sum(values[1..])
  }

  function Mean(values: seq<real>): real
    requires values != []
  {
    Sum(values) / |values| as real
  }

  function Differences(a: seq<real>, b: seq<real>): (d: seq<real>)
    requires |a| == |b|
    ensures |d| == |a| && forall k :: 0 <= k < |a| ==> d[k] == a[k] - b[k]
  {
    seq(|a|, k requires 0 <= k < |a| => a[k] - b[k])
  }

  lemma {:induction false} SumOfDifferences(a: seq<real>, b: seq<real>)
    requires |a| == |b|
    ensures Sum(Differences(a, b)) == Sum(a) - Sum(b)
  {
    if a != [] {
      SumOfDifferences(a[1..], b[1..]);
      assert Differences(a, b)[1..] == Differences(a[1..], b[1..]);
    }
  }

  lemma QuotientOfDifference(a: real, b: real, n: real)
    requires n > 0.0
    ensures (a - b) / n == a / n - b / n
  {}

  /** The paired mean is the difference of the means. */
  lemma PairedMean(a: seq<real>, b: seq<real>)
    requires |a| == |b| > 0
    ensures Mean(Differences(a, b)) == Mean(a) - Mean(b)
  {
    SumOfDifferences(a, b);
    QuotientOfDifference(Sum(a), Sum(b), |a| as real);
  }

  function Square(v: real): real { v * v }

  function SquaredDeviations(values: seq<real>, center: real): real {
    if values == [] then 0.0 else Square(values[0] - center) + SquaredDeviations(values[1..], center)
  }

  function Variance(values: seq<real>): real
    requires values != []
  {
    if |values| == 1 then 0.0 else SquaredDeviations(values, Mean(values)) / (|values| - 1) as real
  }

  const SCALE := 1_000_000_000_000.0

  function Rounded(v: real): int { (v + 0.5).Floor }

  /** Rounding to 12 decimals, halves away from zero. */
  function Stable(v: real): real {
    (if v < 0.0 then -Rounded(-v * SCALE) else Rounded(v * SCALE)) as real / SCALE
  }

  lemma StableIsNear(v: real)
    ensures v * SCALE - 0.5 <= Stable(v) * SCALE <= v * SCALE + 0.5
    ensures Stable(v) >= 0.0 ==> v * SCALE > -0.5
  {
    var whole := (if v < 0.0 then -Rounded(-v * SCALE) else Rounded(v * SCALE)) as real;
    assert whole / SCALE * SCALE == whole;
  }

  datatype Interval = Interval(count: nat, mean: real, lower: real, upper: real)

  function Max(a: real, b: real): real { if a > b then a else b }
  function Min(a: real, b: real): real { if a < b then a else b }

  /** Half the width of the interval; `root` is the square root. */
  function Margin(values: seq<real>, root: real -> real): real
    requires values != []
  {
    Z_95 * root(Variance(values) / |values| as real)
  }

  function IntervalOf(values: seq<real>, least: real, most: real, root: real -> real): Interval
    requires values != []
  {
    var margin := Margin(values, root);
    Interval(|values|, Stable(Mean(values)), Stable(Max(least, Mean(values) - margin)), Stable(Min(most, Mean(values) + margin)))
  }

  // ----- What mean and variance are -----

  /** Adding `v` up `n` times. */
  function Times(n: nat, v: real): real { if n == 0 then 0.0 else v + Times(n - 1, v) }

  lemma {:induction false} TimesIs(n: nat, v: real)
    ensures Times(n, v) == n as real * v
  {
    if n > 0 {
      TimesIs(n - 1, v);
      assert n as real * v == (n - 1) as real * v + v;
    }
  }

  lemma QuotientTimes(n: nat, s: real)
    requires n > 0
    ensures Times(n, s / n as real) == s
  {
    TimesIs(n, s / n as real);
  }

  lemma {:induction false} TimesAdds(n: nat, a: real, b: real)
    ensures Times(n, a + b) == Times(n, a) + Times(n, b)
  {
    if n > 0 { TimesAdds(n - 1, a, b); }
  }

  lemma {:induction false} TimesScales(n: nat, a: real, v: real, w: real)
    requires w == a * v
    ensures Times(n, w) == a * Times(n, v)
  {
    if n > 0 {
      TimesScales(n - 1, a, v, w);
      Distributes(a, v, Times(n - 1, v));
    }
  }

  lemma Distributes(a: real, b: real, c: real)
    ensures a * (b + c) == a * b + a * c
  {}

  lemma {:induction false} TimesSubtracts(n: nat, a: real, b: real)
    ensures Times(n, a - b) == Times(n, a) - Times(n, b)
  {
    if n > 0 { TimesSubtracts(n - 1, a, b); }
  }

  lemma {:induction false} TimesGrows(n: nat, a: real, b: real)
    requires a <= b
    ensures Times(n, a) <= Times(n, b) && (n > 0 && a < b ==> Times(n, a) < Times(n, b))
  {
    if n > 0 { TimesGrows(n - 1, a, b); }
  }

  lemma {:induction false} TimesNothing(n: nat)
    ensures Times(n, 0.0) == 0.0
  {
    if n > 0 { TimesNothing(n - 1); }
  }

  function SumOfSquares(values: seq<real>): real {
    if values == [] then 0.0 else Square(values[0]) + SumOfSquares(values[1..])
  }

  /** The squared differences of all pairs. */
  function PairSquares(values: seq<real>): real {
    if values == [] then 0.0 else SquaredDeviations(values[1..], values[0]) + PairSquares(values[1..])
  }

  /** The squared deviations from c of values with the sum s and the sum of squares q, where t is c * c for each. */
  function Around(s: real, q: real, c: real, t: real): real { q - 2.0 * (c * s) + t }

  lemma AroundStep(s: real, q: real, c: real, t: real, v: real)
    ensures Square(v - c) + Around(s, q, c, t) == Around(v + s, Square(v) + q, c, Square(c) + t)
  {}

  lemma {:induction false} DeviationsAre(values: seq<real>, c: real)
    ensures SquaredDeviations(values, c) == Around(Sum(values), SumOfSquares(values), c, Times(|values|, Square(c)))
  {
    if values != [] {
      var rest := values[1..];
      DeviationsAre(rest, c);
      AroundStep(Sum(rest), SumOfSquares(rest), c, Times(|rest|, Square(c)), values[0]);
    }
  }

  lemma SquareOfSum(v: real, s: real)
    ensures Square(v + s) == Square(v) + 2.0 * (v * s) + Square(s)
  {}

  lemma PairStep(n: nat, v: real, s: real, q: real)
    ensures Around(s, q, v, Times(n, Square(v))) + (Times(n, q) - Square(s)) == Times(n + 1, Square(v) + q) - Square(v + s)
  {
    TimesAdds(n, Square(v), q);
    SquareOfSum(v, s);
  }

  lemma {:induction false} PairsAre(values: seq<real>)
    ensures PairSquares(values) == Times(|values|, SumOfSquares(values)) - Square(Sum(values))
  {
    if values != [] {
      var v, rest := values[0], values[1..];
      PairsAre(rest);
      DeviationsAre(rest, v);
      PairStep(|rest|, v, Sum(rest), SumOfSquares(rest));
    }
  }

  /** Around the mean m. */
  lemma AroundMean(n: nat, s: real, q: real, m: real)
    requires s == Times(n, m)
    ensures Around(s, q, m, Times(n, Square(m))) == q - s * m
    ensures Times(n, q - s * m) == Times(n, q) - Square(s)
  {
    TimesScales(n, m, m, Square(m));
    TimesScales(n, s, m, s * m);
    TimesSubtracts(n, q, s * m);
    Commutes(s, m);
  }

  lemma Commutes(a: real, b: real)
    ensures a * b == b * a
  {}

  lemma MeanOfSum(values: seq<real>)
    requires values != []
    ensures Sum(values) == Times(|values|, Mean(values))
  {
    QuotientTimes(|values|, Sum(values));
  }

  /** The variance is what the values differ pairwise. */
  lemma VarianceIsPairwise(values: seq<real>)
    requires values != []
    ensures Times(|values|, Times(|values| - 1, Variance(values))) == PairSquares(values)
  {
    if |values| > 1 {
      QuotientTimes(|values| - 1, SquaredDeviations(values, Mean(values)));
      DeviationsAre(values, Mean(values));
      MeanOfSum(values);
      AroundMean(|values|, Sum(values), SumOfSquares(values), Mean(values));
      PairsAre(values);
    } else {
      assert values[1..] == [];
    }
  }

  /** It is zero exactly when the values are all one value. */
  lemma VarianceVanishes(values: seq<real>)
    requires values != []
    ensures Variance(values) >= 0.0
    ensures Variance(values) == 0.0 <==> forall i, j :: 0 <= i < j < |values| ==> values[i] == values[j]
  {
    VarianceIsPairwise(values);
    PairsVanish(values);
    if |values| > 1 {
      TimesVanishes(|values| - 1, Variance(values));
      TimesVanishes(|values|, Times(|values| - 1, Variance(values)));
    }
  }

  lemma TimesVanishes(n: nat, v: real)
    requires n > 0
    ensures (Times(n, v) == 0.0 <==> v == 0.0) && (Times(n, v) >= 0.0 <==> v >= 0.0)
  {
    TimesNothing(n);
    if v >= 0.0 { TimesGrows(n, 0.0, v); }
    if v <= 0.0 { TimesGrows(n, v, 0.0); }
  }

  lemma {:induction false} SquaresVanish(values: seq<real>, c: real)
    ensures SquaredDeviations(values, c) >= 0.0
    ensures SquaredDeviations(values, c) == 0.0 <==> forall i :: 0 <= i < |values| ==> values[i] == c
  {
    if values != [] {
      SquaresVanish(values[1..], c);
      SquareVanishes(values[0] - c);
      assert values == [values[0]] + values[1..];
    }
  }

  lemma SquareIsNotNegative(v: real)
    ensures Square(v) >= 0.0
  {}

  lemma SquareIsNotZero(v: real)
    requires v > 0.0
    ensures Square(v) != 0.0
  {
    assert v * v / v == v;
  }

  lemma SquareOfNegative(v: real)
    ensures Square(-v) == Square(v)
  {}

  lemma SquareVanishes(v: real)
    ensures Square(v) >= 0.0 && (Square(v) == 0.0 <==> v == 0.0)
  {
    SquareIsNotNegative(v);
    if v > 0.0 {
      SquareIsNotZero(v);
    } else if v < 0.0 {
      SquareIsNotZero(-v);
      SquareOfNegative(v);
    } else {
      assert Square(0.0) == 0.0;
    }
  }

  lemma {:induction false} PairsVanish(values: seq<real>)
    ensures PairSquares(values) >= 0.0
    ensures PairSquares(values) == 0.0 <==> forall i, j :: 0 <= i < j < |values| ==> values[i] == values[j]
  {
    if values != [] {
      var rest := values[1..];
      PairsVanish(rest);
      SquaresVanish(rest, values[0]);
      assert values == [values[0]] + rest;
    }
  }

  // ----- What the lower bound is -----

  ghost predicate IsRoot(root: real -> real) {
    forall v: real :: v >= 0.0 ==> root(v) >= 0.0 && Square(root(v)) == v
  }

  /** n * n * (n - 1) times `v`. */
  function Weighted(n: nat, v: real): real
    requires n > 0
  {
    Times(n, Times(n - 1, Times(n, v)))
  }

  lemma PartIs(values: seq<real>)
    requires values != []
    ensures var part := Variance(values) / |values| as real; part >= 0.0 && Weighted(|values|, part) == PairSquares(values)
  {
    VarianceIsPairwise(values);
    VarianceVanishes(values);
    PartOf(|values|, Variance(values));
  }

  lemma MarginSquared(values: seq<real>, root: real -> real)
    requires values != [] && IsRoot(root) && Variance(values) / |values| as real >= 0.0
    ensures Margin(values, root) >= 0.0
    ensures Weighted(|values|, Square(Margin(values, root))) == Square(Z_95) * Weighted(|values|, Variance(values) / |values| as real)
  {
    var part := Variance(values) / |values| as real;
    RootIs(root, part);
    MarginOf(|values|, part, root(part), Z_95, Margin(values, root));
  }

  /** The square of the margin, in terms of the pairwise differences. */
  lemma MarginIs(values: seq<real>, root: real -> real)
    requires values != [] && IsRoot(root)
    ensures Margin(values, root) >= 0.0
    ensures Weighted(|values|, Square(Margin(values, root))) == Square(Z_95) * PairSquares(values)
  {
    PartIs(values);
    MarginSquared(values, root);
  }

  lemma PartOf(n: nat, v: real)
    requires n > 0 && v >= 0.0
    ensures Times(n, v / n as real) == v && v / n as real >= 0.0
  {
    QuotientTimes(n, v);
    TimesVanishes(n, v / n as real);
  }

  lemma RootIs(root: real -> real, v: real)
    requires IsRoot(root) && v >= 0.0
    ensures root(v) >= 0.0 && Square(root(v)) == v
  {}

  lemma MarginOf(n: nat, part: real, r: real, z: real, margin: real)
    requires n > 0 && Square(r) == part && r >= 0.0 && z >= 0.0 && margin == z * r
    ensures margin >= 0.0 && Weighted(n, Square(margin)) == Square(z) * Weighted(n, part)
  {
    ProductIsNotNegative(z, r);
    SquareOfProduct(z, r);
    WeightedScales(n, Square(z), part, Square(margin));
  }

  lemma SquareOfProduct(a: real, b: real)
    ensures Square(a * b) == Square(a) * Square(b)
  {
    assert a * b * (a * b) == a * a * (b * b);
  }

  lemma WeightedScales(n: nat, a: real, v: real, w: real)
    requires n > 0 && w == a * v
    ensures Weighted(n, w) == a * Weighted(n, v)
  {
    TimesScales(n, a, v, w);
    TimesScales(n - 1, a, Times(n, v), Times(n, w));
    TimesScales(n, a, Times(n - 1, Times(n, v)), Times(n - 1, Times(n, w)));
  }

  /** A lower bound reaches a minimum only if the mean does, up to half a unit of rounding. */
  lemma LowerBoundBoundsMean(values: seq<real>, least: real, most: real, root: real -> real, minimum: real)
    requires values != [] && IsRoot(root)
    requires IntervalOf(values, least, most, root).lower >= minimum
    ensures Max(least, Mean(values)) * SCALE >= minimum * SCALE - 0.5
  {
    MarginIs(values, root);
    BoundIsBelow(least, Mean(values), Margin(values, root), minimum);
  }

  lemma BoundIsBelow(least: real, mean: real, margin: real, minimum: real)
    requires margin >= 0.0 && Stable(Max(least, mean - margin)) >= minimum
    ensures Max(least, mean) * SCALE >= minimum * SCALE - 0.5
  {
    StableIsNear(Max(least, mean - margin));
  }

  /**
   The mean is above the minimum by a gap that covers the margin, and half a unit of rounding: of the spread of
   the values, only their pairwise differences count.
   */
  predicate Clears(values: seq<real>, minimum: real, gap: real)
    requires values != []
  {
    && gap >= 0.0 && (Mean(values) - gap) * SCALE >= minimum * SCALE + 0.5
    && Square(Z_95) * PairSquares(values) <= Weighted(|values|, Square(gap))
  }

  lemma ClearsBound(values: seq<real>, least: real, most: real, root: real -> real, minimum: real, gap: real)
    requires values != [] && IsRoot(root) && Clears(values, minimum, gap)
    ensures IntervalOf(values, least, most, root).lower >= minimum
  {
    MarginIs(values, root);
    MarginFits(values, gap, root);
    BoundReaches(least, Mean(values), Margin(values, root), gap, minimum);
  }

  lemma BoundReaches(least: real, mean: real, margin: real, gap: real, minimum: real)
    requires margin <= gap && (mean - gap) * SCALE >= minimum * SCALE + 0.5
    ensures Stable(Max(least, mean - margin)) >= minimum
  {
    StableIsNear(Max(least, mean - margin));
  }

  lemma MarginFits(values: seq<real>, gap: real, root: real -> real)
    requires values != [] && IsRoot(root) && gap >= 0.0
    requires Weighted(|values|, Square(Margin(values, root))) <= Weighted(|values|, Square(gap))
    ensures Margin(values, root) <= gap
  {
    if |values| == 1 {
      SquareVanishes(root(0.0));
    } else if Margin(values, root) > gap {
      SquareGrows(gap, Margin(values, root));
      WeightedGrows(|values|, Square(gap), Square(Margin(values, root)));
    }
  }

  lemma WeightedGrows(n: nat, a: real, b: real)
    requires n > 1 && a < b
    ensures Weighted(n, a) < Weighted(n, b)
  {
    TimesGrows(n, a, b);
    TimesGrows(n - 1, Times(n, a), Times(n, b));
    TimesGrows(n, Times(n - 1, Times(n, a)), Times(n - 1, Times(n, b)));
  }

  lemma ProductIsNotNegative(a: real, b: real)
    requires a >= 0.0 && b >= 0.0
    ensures a * b >= 0.0
  {}

  lemma SquareGrows(a: real, b: real)
    requires 0.0 <= a < b
    ensures Square(a) < Square(b)
  {
    var d := b - a;
    SquareVanishes(d);
    ProductIsNotNegative(a, d);
    SquareOfSum(a, d);
    assert Square(b) == Square(a + d);
  }
}
