/** Catmull-Rom interpolation of a series sampled at the integers 0 .. N-1.
    Samples, queries and results are exact reals; the model has no rounding. */
module CatmullRom {

  /** The only failure of the interpolator: a read of a sample that does not
      exist. With fewer than three samples the first such read is y[N]. */
  datatype CatromError = IndexError(index: int)

  datatype Result<T> = Ok(value: T) | Err(error: CatromError)

  // ---------------------------------------------------------------------------
  // Splitting a query
  // ---------------------------------------------------------------------------

  /** What numpy's modf returns: a fractional and an integral part. */
  datatype Split = Split(frac: real, whole: int)

  /** modf truncates toward zero: both parts carry the sign of t, so the
      fraction lies strictly between -1 and 1. */
  function Modf(t: real): (s: Split)
    ensures s.frac + s.whole as real == t
    ensures -1.0 < s.frac < 1.0
    ensures t >= 0.0 ==> s.frac >= 0.0 && s.whole >= 0
    ensures t < 0.0 ==> s.frac <= 0.0 && s.whole <= 0
  {
    var k := if t >= 0.0 then t.Floor else -((-t).Floor);
    Split(t - k as real, k)
  }

  // ---------------------------------------------------------------------------
  // The three regions, as the three boolean masks of the source
  // ---------------------------------------------------------------------------

  datatype Region = Left | Middle | Right

  predicate InLeft(k: int) { k < 1 }

  predicate InMiddle(k: int, n: int) { 1 <= k <= n - 3 }

  predicate InRight(k: int, n: int) { k > n - 3 }

  /** The region whose masked write reaches a query with integral part k. */
  function Classify(k: int, n: int): (r: Region)
    requires n >= 3
    ensures r == Left <==> InLeft(k)
    ensures r == Middle <==> InMiddle(k, n)
    ensures r == Right <==> InRight(k, n)
  {
    if k < 1 then Left else if k <= n - 3 then Middle else Right
  }

  /** The sample positions the value of a query in region Classify(k, n)
      depends on. The source reads y[0], y[1], y[2] and y[-1], y[-2], y[-3]
      (the last three) once per call, and y[k-1] .. y[k+2] per middle query;
      this per-query set abstracts those reads. */
  function ReadIndices(k: int, n: int): (r: seq<int>)
    requires n >= 3
    ensures forall i :: i in r ==> 0 <= i < n
    ensures |r| == if InMiddle(k, n) then 4 else 3
  {
    match Classify(k, n)
    case Left => [0, 1, 2]
    case Middle => [k - 1, k, k + 1, k + 2]
    case Right => [n - 1, n - 2, n - 3]
  }

  // ---------------------------------------------------------------------------
  // Cubics
  // ---------------------------------------------------------------------------

  /** a*u^3 + b*u^2 + c*u + d, with its derivative. */
  datatype Cubic = Cubic(a: real, b: real, c: real, d: real)
  {
    function Eval(u: real): real
    {
      a * u * u * u + b * u * u + c * u + d
    }

    function Slope(u: real): real
    {
      3.0 * a * u * u + 2.0 * b * u + c
    }
  }

  /** The fixed cubic used left of sample 1, built from y[0], y[1], y[2]. */
  function LeftCubic(y0: real, y1: real, y2: real): (p: Cubic)
    ensures p.Eval(0.0) == y0
    ensures p.Eval(1.0) == y1
  {
    Cubic(-0.25 * y0 + 0.5 * y1 - 0.25 * y2,
          y0 - 2.0 * y1 + y2,
          -1.75 * y0 + 2.5 * y1 - 0.75 * y2,
          y0)
  }

  /** The fixed cubic used right of sample N-3, built from the last sample
      (last), the one before it (prev) and the one before that (prev2). It is
      anchored at `last` for u = 0 and passes through `prev` at u = -1. */
  function RightCubic(last: real, prev: real, prev2: real): (p: Cubic)
    ensures p.Eval(0.0) == last
    ensures p.Eval(-1.0) == prev
  {
    Cubic(0.25 * last - 0.5 * prev + 0.25 * prev2,
          last - 2.0 * prev + prev2,
          1.75 * last - 2.5 * prev + 0.75 * prev2,
          last)
  }

  /** The cubic Hermite combination on [p0, p1] with end tangents m1 and m2,
      written with the four Hermite basis polynomials. */
  function Hermite(p0: real, p1: real, m1: real, m2: real, u: real): (r: real)
    ensures u == 0.0 ==> r == p0
    ensures u == 1.0 ==> r == p1
  {
    (2.0 * u * u * u - 3.0 * u * u + 1.0) * p0
    + (u * u * u - 2.0 * u * u + u) * m1
    + (-2.0 * u * u * u + 3.0 * u * u) * p1
    + (u * u * u - u * u) * m2
  }

  /** The same Hermite cubic in monomial form: the unique cubic taking values
      p0, p1 and slopes m1, m2 at u = 0 and u = 1. */
  function HermiteCubic(p0: real, p1: real, m1: real, m2: real): (p: Cubic)
    ensures p.Eval(0.0) == p0 && p.Eval(1.0) == p1
    ensures p.Slope(0.0) == m1 && p.Slope(1.0) == m2
  {
    Cubic(2.0 * p0 - 2.0 * p1 + m1 + m2,
          -3.0 * p0 + 3.0 * p1 - 2.0 * m1 - m2,
          m1,
          p0)
  }

  // ---------------------------------------------------------------------------
  // Evaluating one query
  // ---------------------------------------------------------------------------

  /** Centred-difference tangent at sample j. */
  function Tangent(y: seq<real>, j: int): real
    requires 1 <= j < |y| - 1
  {
    (y[j + 1] - y[j - 1]) / 2.0
  }

  /** The middle-region value: Hermite on [y[k], y[k+1]] with centred tangents. */
  function MiddleValue(y: seq<real>, k: int, u: real): (r: real)
    requires 1 <= k <= |y| - 3
    ensures u == 0.0 ==> r == y[k]
    ensures u == 1.0 ==> r == y[k + 1]
  {
    Hermite(y[k], y[k + 1], Tangent(y, k), Tangent(y, k + 1), u)
  }

  /** The value written for a query with integral part k and fraction u.
      At u = 0 each region gives its anchor sample: y[0] on the left, y[k]
      in the middle and the last sample on the right. */
  function Evaluate(y: seq<real>, k: int, u: real): (r: real)
    requires |y| >= 3
    ensures u == 0.0 && InLeft(k) ==> r == y[0]
    ensures u == 0.0 && InMiddle(k, |y|) ==> r == y[k]
    ensures u == 0.0 && InRight(k, |y|) ==> r == y[|y| - 1]
  {
    var n := |y|;
    match Classify(k, n)
    case Left => LeftCubic(y[0], y[1], y[2]).Eval(u)
    case Middle => MiddleValue(y, k, u)
    case Right => RightCubic(y[n - 1], y[n - 2], y[n - 3]).Eval(u)
  }

  /** The value the interpolator gives for one query t. */
  function Interpolate(y: seq<real>, t: real): real
    requires |y| >= 3
  {
    var s := Modf(t);
    Evaluate(y, s.whole, s.frac)
  }

  // ---------------------------------------------------------------------------
  // The batch operation
  // ---------------------------------------------------------------------------

  /** Splits every query, builds the three region masks, allocates the output
      and fills it with one masked write per region. */
  method Catrom(t: seq<real>, y: seq<real>) returns (r: Result<array<real>>)
    ensures r.Err? <==> |y| < 3
    ensures r.Err? ==> r.error == IndexError(|y|)
    ensures r.Ok? ==> fresh(r.value) && r.value.Length == |t|
    ensures r.Ok? ==> forall i :: 0 <= i < |t| ==> r.value[i] == Interpolate(y, t[i])
  {
    if |y| < 3 {
      return Err(IndexError(|y|));
    }
    var n := |y|;
    var split := seq(|t|, i requires 0 <= i < |t| => Modf(t[i]));
    var left := seq(|t|, i requires 0 <= i < |t| => InLeft(split[i].whole));
    var middle := seq(|t|, i requires 0 <= i < |t| => InMiddle(split[i].whole, n));
    var right := seq(|t|, i requires 0 <= i < |t| => InRight(split[i].whole, n));

    var yinterp := new real[|t|];

    var lc := LeftCubic(y[0], y[1], y[2]);
    for i := 0 to |t|
      invariant forall j :: 0 <= j < i && left[j] ==> yinterp[j] == Interpolate(y, t[j])
    {
      if left[i] {
        yinterp[i] := lc.Eval(split[i].frac);
      }
    }

    for i := 0 to |t|
      invariant forall j :: 0 <= j < |t| && left[j] ==> yinterp[j] == Interpolate(y, t[j])
      invariant forall j :: 0 <= j < i && middle[j] ==> yinterp[j] == Interpolate(y, t[j])
    {
      if middle[i] {
        var km := split[i].whole;
        var m1 := (y[km + 1] - y[km - 1]) / 2.0;
        var m2 := (y[km + 2] - y[km]) / 2.0;
        yinterp[i] := Hermite(y[km], y[km + 1], m1, m2, split[i].frac);
      }
    }

    var rc := RightCubic(y[n - 1], y[n - 2], y[n - 3]);
    for i := 0 to |t|
      invariant forall j :: 0 <= j < |t| && (left[j] || middle[j]) ==> yinterp[j] == Interpolate(y, t[j])
      invariant forall j :: 0 <= j < i && right[j] ==> yinterp[j] == Interpolate(y, t[j])
    {
      if right[i] {
        yinterp[i] := rc.Eval(split[i].frac);
      }
    }
    return Ok(yinterp);
  }
}
