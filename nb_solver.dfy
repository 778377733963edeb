// The Negative-Binomial parameter solver: turns a target mean and coefficient
// of variation of the demand size into numpy's NB(r, p) parameters, or into
// the "use Poisson" sentinel when the target variance does not exceed the mean.

module NbSolver {

  /** The clip bounds applied to the success probability: 1e-6 and 1 - 1e-6. */
  const MIN_P: real := 0.000001
  const MAX_P: real := 0.999999

  /** The size distribution of an item: the Poisson sentinel (the source's
      `(None, None)`), or numpy's Negative-Binomial with shape r and success
      probability p. */
  datatype SizeDist = Poisson | NB(r: real, p: real)

  /** The inputs on which the solver's arithmetic is defined. In exact
      arithmetic the only failing case is a negative mean with a zero CV: the variance is then 0,
      above the mean, and r + mean is 0, so computing p divides by zero. */
  predicate Solvable(mean: real, cv: real)
  {
    mean >= 0.0 || cv != 0.0
  }

  /** The target variance (cv * mean)^2. */
  function Variance(mean: real, cv: real): (v: real)
    ensures v >= 0.0
  {
    (cv * mean) * (cv * mean)
  }

  /** numpy's clip of x into [lo, hi]. */
  function Clip(x: real, lo: real, hi: real): (c: real)
    requires lo <= hi
    ensures lo <= c <= hi
    ensures lo <= x <= hi ==> c == x
    ensures x < lo ==> c == lo
    ensures x > hi ==> c == hi
  {
    if x < lo then lo else if x > hi then hi else x
  }

  /** The shape r = mean^2 / (variance - mean), defined on the NB branch. */
  function Shape(mean: real, cv: real): real
    requires Variance(mean, cv) > mean
  {
    mean * mean / (Variance(mean, cv) - mean)
  }

  /** On the NB branch the shape is positive, and r + mean has the sign of
      the mean, so it is never 0 for solvable inputs. */
  lemma ShapeSign(mean: real, cv: real)
    requires Solvable(mean, cv) && Variance(mean, cv) > mean
    ensures mean != 0.0 && Shape(mean, cv) > 0.0
    ensures mean > 0.0 ==> Shape(mean, cv) + mean > 0.0
    ensures mean < 0.0 ==> Shape(mean, cv) + mean < 0.0
  {
    var v := Variance(mean, cv);
    var r := Shape(mean, cv);
    var den := v - mean;
    assert mean != 0.0;
    SquarePositive(mean);
    PositiveQuotient(mean * mean, den);
    assert r * den == mean * mean;
    assert (r + mean) * den == mean * v;
    if mean < 0.0 {
      var x := cv * mean;
      NonzeroProduct(cv, mean);
      SquarePositive(x);
      assert v == x * x;
      assert mean * v < 0.0;
      NegativeFactor(r + mean, den);
    }
  }

  /** A product of non-zero numbers is non-zero. */
  lemma NonzeroProduct(a: real, b: real)
    requires a != 0.0 && b != 0.0
    ensures a * b != 0.0
  {
  }

  /** The square of a non-zero number is positive. */
  lemma SquarePositive(x: real)
    requires x != 0.0
    ensures x * x > 0.0
  {
    if x < 0.0 {
      assert x * x == (-x) * (-x);
    }
  }

  /** The quotient of two positive numbers is positive. */
  lemma PositiveQuotient(a: real, b: real)
    requires a > 0.0 && b > 0.0
    ensures a / b > 0.0
  {
  }

  /** A product that is negative with a positive right factor has a
      negative left factor. */
  lemma NegativeFactor(a: real, b: real)
    requires b > 0.0 && a * b < 0.0
    ensures a < 0.0
  {
  }

  /** The success probability r / (r + mean) before clipping. */
  function UnclippedP(mean: real, cv: real): real
    requires Solvable(mean, cv) && Variance(mean, cv) > mean
  {
    ShapeSign(mean, cv);
    Shape(mean, cv) / (Shape(mean, cv) + mean)
  }

  /** nb_params: Poisson exactly when the variance does not exceed the mean;
      otherwise a positive shape and a probability inside the clip bounds. */
  function NbParams(mean: real, cv: real): (d: SizeDist)
    requires Solvable(mean, cv)
    ensures d.Poisson? <==> Variance(mean, cv) <= mean
    ensures d.NB? ==> d.r > 0.0 && MIN_P <= d.p <= MAX_P
  {
    if Variance(mean, cv) <= mean then Poisson
    else
      ShapeSign(mean, cv);
      NB(Shape(mean, cv), Clip(UnclippedP(mean, cv), MIN_P, MAX_P))
  }

  /** For a positive mean the Poisson fallback is taken exactly when
      cv^2 * mean <= 1. */
  lemma PoissonIffUnitDispersion(mean: real, cv: real)
    requires mean > 0.0
    ensures NbParams(mean, cv).Poisson? <==> cv * cv * mean <= 1.0
  {
    var x := cv * cv * mean;
    assert Variance(mean, cv) == mean * x;
    if x <= 1.0 {
      assert mean * x <= mean * 1.0;
    } else {
      assert mean * x > mean * 1.0;
    }
  }

  /** For a positive mean, the unclipped pair lies in (0, 1) and reproduces
      the requested moments under numpy's parameterisation:
      mean = r(1-p)/p and variance = r(1-p)/p^2. The solver returns that
      shape, with p itself when p needs no clipping, 1e-6 when p is below
      that and 1 - 1e-6 when p is above it. */
  lemma NbMomentsMatch(mean: real, cv: real)
    requires mean > 0.0 && Variance(mean, cv) > mean
    ensures 0.0 < UnclippedP(mean, cv) < 1.0
    ensures Shape(mean, cv) * (1.0 - UnclippedP(mean, cv)) / UnclippedP(mean, cv) == mean
    ensures Shape(mean, cv) * (1.0 - UnclippedP(mean, cv)) / (UnclippedP(mean, cv) * UnclippedP(mean, cv))
            == Variance(mean, cv)
    ensures NbParams(mean, cv).NB? && NbParams(mean, cv).r == Shape(mean, cv)
    ensures MIN_P <= UnclippedP(mean, cv) <= MAX_P ==> NbParams(mean, cv) == NB(Shape(mean, cv), UnclippedP(mean, cv))
    ensures UnclippedP(mean, cv) > MAX_P ==> NbParams(mean, cv).p == MAX_P
    ensures UnclippedP(mean, cv) < MIN_P ==> NbParams(mean, cv).p == MIN_P
  {
    ShapeSign(mean, cv);
    var v := Variance(mean, cv);
    var r := Shape(mean, cv);
    var p := UnclippedP(mean, cv);
    var s := r + mean;
    assert r * (v - mean) == mean * mean;
    assert p * s == r;
    assert 0.0 < p < 1.0;
    var q := 1.0 - p;
    assert q * s == mean;
    assert r * q == mean * p by {
      calc {
        r * q;
        (p * s) * q;
        (q * s) * p;
        mean * p;
      }
    }
    assert r * q / p == mean;
    assert mean == v * p by {
      assert mean * s == v * r;
      calc {
        v * p * s;
        v * r;
        mean * s;
      }
    }
    assert r * q == v * (p * p);
  }

  /** A negative mean (which the sampled parameters never produce) always
      takes the NB branch and its probability is clipped to the floor 1e-6. */
  lemma NegativeMeanClipsToFloor(mean: real, cv: real)
    requires mean < 0.0 && cv != 0.0
    ensures NbParams(mean, cv).NB? && NbParams(mean, cv).p == MIN_P
  {
    ShapeSign(mean, cv);
    var r := Shape(mean, cv);
    assert r / (r + mean) < 0.0;
  }
}
