/** What the interpolator promises, proved about the model in CatmullRom. */
module CatmullRomProperties {
  import opened CatmullRom

  // ---------------------------------------------------------------------------
  // Splitting a query
  // ---------------------------------------------------------------------------

  /** The postconditions of Modf characterise it: any fraction and integral
      part that add up to t, lie in (-1, 1) and carry the sign of t are the
      ones modf returns. */
  lemma ModfUnique(t: real, f: real, w: int)
    requires f + w as real == t
    requires -1.0 < f < 1.0
    requires t >= 0.0 ==> f >= 0.0
    requires t < 0.0 ==> f <= 0.0
    ensures Modf(t) == Split(f, w)
  {
    var s := Modf(t);
    var d := s.whole - w;
    assert d as real == f - s.frac;
    assert -1 < d < 1;
  }

  /** An integer query has fraction 0 and is its own integral part. */
  lemma ModfOfInteger(j: int)
    ensures Modf(j as real) == Split(0.0, j)
  {
    assert (j as real).Floor == j;
    assert (-(j as real)).Floor == -j;
  }

  /** Truncation, not flooring: a negative non-integer query is split with an
      integral part one above its floor and a negative fraction. */
  lemma ModfOfNegative(t: real)
    requires t < 0.0 && t != t.Floor as real
    ensures Modf(t).whole == t.Floor + 1
    ensures Modf(t).frac == t - (t.Floor + 1) as real
  {
  }

  // ---------------------------------------------------------------------------
  // The regions
  // ---------------------------------------------------------------------------

  /** With at least three samples the three masks are disjoint and together
      cover every integral part. */
  lemma RegionsPartition(k: int, n: int)
    requires n >= 3
    ensures InLeft(k) || InMiddle(k, n) || InRight(k, n)
    ensures !(InLeft(k) && InMiddle(k, n))
    ensures !(InLeft(k) && InRight(k, n))
    ensures !(InMiddle(k, n) && InRight(k, n))
  {
  }

  /** The left and right masks select a common query exactly when there are
      fewer than three samples, the case in which the source fails. */
  lemma OuterMasksOverlapIffTooFew(n: nat)
    ensures (exists k :: InLeft(k) && InRight(k, n)) <==> n < 3
  {
    if n < 3 {
      assert InLeft(0) && InRight(0, n);
    }
  }

  /** A query reads only the samples ReadIndices names: two series that agree
      there give the same value. */
  lemma EvaluateReadsOnly(y: seq<real>, z: seq<real>, k: int, u: real)
    requires |y| == |z| >= 3
    requires forall i :: i in ReadIndices(k, |y|) ==> y[i] == z[i]
    ensures Evaluate(y, k, u) == Evaluate(z, k, u)
  {
  }

  /** Left and right queries depend on the fraction alone: two queries in the
      same outer region with the same fraction get the same value. */
  lemma OuterRegionsIgnoreWhole(y: seq<real>, t1: real, t2: real)
    requires |y| >= 3
    requires Modf(t1).frac == Modf(t2).frac
    requires (InLeft(Modf(t1).whole) && InLeft(Modf(t2).whole))
          || (InRight(Modf(t1).whole, |y|) && InRight(Modf(t2).whole, |y|))
    ensures Interpolate(y, t1) == Interpolate(y, t2)
  {
  }

  /** For instance -1.5 and -0.5 both evaluate the left cubic at u = -0.5. */
  lemma LeftRepeatsBelowMinusOne(y: seq<real>)
    requires |y| >= 3
    ensures Interpolate(y, -1.5) == Interpolate(y, -0.5) == LeftCubic(y[0], y[1], y[2]).Eval(-0.5)
  {
    ModfUnique(-1.5, -0.5, -1);
    ModfUnique(-0.5, -0.5, 0);
  }

  // ---------------------------------------------------------------------------
  // The cubics
  // ---------------------------------------------------------------------------

  /** The basis form the source writes and the monomial form agree everywhere. */
  lemma HermiteBasisIsCubic(p0: real, p1: real, m1: real, m2: real, u: real)
    ensures Hermite(p0, p1, m1, m2, u) == HermiteCubic(p0, p1, m1, m2).Eval(u)
  {
  }

  /** A cubic is fixed by its values and slopes at 0 and 1. */
  lemma CubicFromEnds(p: Cubic, p0: real, p1: real, m1: real, m2: real)
    requires p.Eval(0.0) == p0 && p.Eval(1.0) == p1
    requires p.Slope(0.0) == m1 && p.Slope(1.0) == m2
    ensures p == HermiteCubic(p0, p1, m1, m2)
  {
  }

  /** The left cubic is the Hermite cubic on [y0, y1] whose tangent at y1 is
      the centred difference (y2 - y0) / 2 and whose tangent at y0 is
      (-7 y0 + 10 y1 - 3 y2) / 4. */
  lemma LeftIsHermite(y0: real, y1: real, y2: real)
    ensures LeftCubic(y0, y1, y2) == HermiteCubic(y0, y1, (-7.0 * y0 + 10.0 * y1 - 3.0 * y2) / 4.0, (y2 - y0) / 2.0)
  {
  }

  /** The right cubic is the left cubic mirrored: built from the last three
      samples read backwards and evaluated at -u. */
  lemma RightMirrorsLeft(last: real, prev: real, prev2: real, u: real)
    ensures RightCubic(last, prev, prev2).Eval(u) == LeftCubic(last, prev, prev2).Eval(-u)
  {
  }

  // ---------------------------------------------------------------------------
  // Each interval as one cubic in its fraction
  // ---------------------------------------------------------------------------

  /** The cubic in u that a query with integral part k is evaluated on. */
  function Piece(y: seq<real>, k: int): Cubic
    requires |y| >= 3
  {
    var n := |y|;
    match Classify(k, n)
    case Left => LeftCubic(y[0], y[1], y[2])
    case Middle => HermiteCubic(y[k], y[k + 1], Tangent(y, k), Tangent(y, k + 1))
    case Right => RightCubic(y[n - 1], y[n - 2], y[n - 3])
  }

  /** Every query is the evaluation of its interval's cubic at its fraction;
      in the middle region that cubic is the centred-tangent Hermite cubic. */
  lemma InterpolateIsPiece(y: seq<real>, t: real)
    requires |y| >= 3
    ensures Interpolate(y, t) == Piece(y, Modf(t).whole).Eval(Modf(t).frac)
  {
  }

  /** Interpolation at the samples: every integer query 0 .. N-1 returns its
      own sample, except N-2, which the right cubic anchors at y[N-1]. */
  lemma AtSample(y: seq<real>, j: int)
    requires |y| >= 3 && 0 <= j < |y|
    ensures Interpolate(y, j as real) == if j == |y| - 2 then y[|y| - 1] else y[j]
  {
    ModfOfInteger(j);
  }

  /** Interpolation holds at N-2 only when the last two samples are equal. */
  lemma AtSecondLastSample(y: seq<real>)
    requires |y| >= 3
    ensures Interpolate(y, (|y| - 2) as real) == y[|y| - 2] <==> y[|y| - 2] == y[|y| - 1]
  {
    AtSample(y, |y| - 2);
  }

  /** Consecutive intervals from the left one up to the last middle one meet
      with equal values and equal slopes at each interior sample. */
  lemma JoinIsSmooth(y: seq<real>, k: int)
    requires |y| >= 4 && 0 <= k <= |y| - 4
    ensures Piece(y, k).Eval(1.0) == y[k + 1] == Piece(y, k + 1).Eval(0.0)
    ensures Piece(y, k).Slope(1.0) == Tangent(y, k + 1) == Piece(y, k + 1).Slope(0.0)
  {
  }

  /** Adjacent middle intervals agree at their shared sample. */
  lemma MiddleIntervalsAgree(y: seq<real>, k: int)
    requires 1 <= k && k + 1 <= |y| - 3
    ensures MiddleValue(y, k, 1.0) == y[k + 1] == Interpolate(y, (k + 1) as real)
  {
    AtSample(y, k + 1);
  }

  /** The left cubic at u = 1 meets the middle region at t = 1 (for N >= 4;
      with three samples t = 1 is already in the right region). */
  lemma LeftMeetsMiddle(y: seq<real>)
    requires |y| >= 4
    ensures LeftCubic(y[0], y[1], y[2]).Eval(1.0) == Interpolate(y, 1.0) == y[1]
  {
    AtSample(y, 1);
  }

  /** At t = N-2 the interval below closes at y[N-2] while the right cubic
      starts at y[N-1]: a jump unless those samples are equal. */
  lemma JumpAtSecondLast(y: seq<real>)
    requires |y| >= 3
    ensures Piece(y, |y| - 3).Eval(1.0) == y[|y| - 2]
    ensures Piece(y, |y| - 2).Eval(0.0) == y[|y| - 1]
  {
  }

  /** The right cubic would close the last interval smoothly if it were
      evaluated at u - 1: at -1 it has the value y[N-2] and the slope with
      which the interval below arrives there. */
  lemma RightFitsShiftedByOne(y: seq<real>)
    requires |y| >= 3
    ensures RightCubic(y[|y| - 1], y[|y| - 2], y[|y| - 3]).Eval(-1.0) == Piece(y, |y| - 3).Eval(1.0)
    ensures RightCubic(y[|y| - 1], y[|y| - 2], y[|y| - 3]).Slope(-1.0) == Piece(y, |y| - 3).Slope(1.0)
  {
  }

  // ---------------------------------------------------------------------------
  // Extrapolation
  // ---------------------------------------------------------------------------

  /** Because modf truncates, every query in (-1, 1) evaluates the left cubic
      at t itself, so the left cubic continues smoothly below 0. */
  lemma LeftExtrapolation(y: seq<real>, t: real)
    requires |y| >= 3 && -1.0 < t < 1.0
    ensures Interpolate(y, t) == LeftCubic(y[0], y[1], y[2]).Eval(t)
  {
    ModfUnique(t, t, 0);
  }

  /** Every query in [N-1, N) evaluates the right cubic at its distance past
      the last sample. */
  lemma RightExtrapolation(y: seq<real>, t: real)
    requires |y| >= 3 && (|y| - 1) as real <= t < |y| as real
    ensures Interpolate(y, t) == RightCubic(y[|y| - 1], y[|y| - 2], y[|y| - 3]).Eval(t - (|y| - 1) as real)
  {
    ModfUnique(t, t - (|y| - 1) as real, |y| - 1);
  }
}
