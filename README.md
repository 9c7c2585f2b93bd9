# Catmull-Rom interpolation over integer-spaced samples

This project models `catrom` from `catmull_rom.py`. The function takes
samples `y[0..N-1]` of a function at the integers 0 .. N-1 and a batch of
query points `t`. For every query it:

1. splits `t` with numpy's `modf` into an integral part `k` and a fraction
   `u` (truncation toward zero, so `u` has the sign of `t` and `-1 < u < 1`);
2. picks one of three regions by `k`: left (`k < 1`), middle
   (`1 <= k <= N-3`) or right (`k > N-3`);
3. evaluates a cubic in `u`. The left cubic is fixed and built from
   `y[0], y[1], y[2]`. The middle one is the Hermite cubic on
   `[y[k], y[k+1]]` with centred-difference tangents. The right cubic is
   fixed and built from `y[N-1], y[N-2], y[N-3]`.

The output array is allocated once and filled with one masked write per
region. Arithmetic is over Dafny's exact `real`.

Module `CatmullRom` (`catmull_rom.dfy`) holds the model:
- `Modf`, the region masks and `Classify`;
- the cubics and `Interpolate` for one query;
- the method `Catrom`, which fills a fresh array in three loops, one per mask.

Module `CatmullRomProperties` (`catmull_rom_properties.dfy`) proves what the
code promises and what it does at the edges.

Some points about what the code does, which the model keeps:
- The query is split by truncation toward zero, not by floor. Queries in
  `(-1, 0)` therefore use the left cubic at a negative fraction.
- There is no shortcut for integer queries: at `u = 0` each cubic gives its
  anchor sample by substitution.
- The boundary regions use the two fixed cubics above, not one-sided
  difference tangents. The left cubic turns out to be the Hermite cubic on
  `[y[0], y[1]]` with the centred tangent at `y[1]`. The right cubic is its
  mirror image.
- For `N >= 3` the three masks are disjoint, including at `N = 3`. They
  overlap only when `N < 3`, and then the source fails on the read of `y[N]`.
  The model returns `Err(IndexError(N))` in that case.
- The right cubic is anchored at `y[N-1]` for `u = 0`, but it is applied to
  the fraction of every query with `k > N-3`, including `k = N-2`. So the
  query `t = N-2` returns `y[N-1]`, not `y[N-2]`, and the curve jumps there
  unless the two samples are equal. The model keeps this behaviour as written.
  `AtSample`, `AtSecondLastSample` and `JumpAtSecondLast` state it.
  `RightFitsShiftedByOne` shows that the cubic would close the last interval
  smoothly if it were evaluated at `u - 1`.

## Model

| member | source | states |
|---|---|---|
| `CatmullRom.Modf` | catmull_rom.py:22-23 | the fraction and integral part add up to t; the fraction lies in (-1, 1); both parts carry the sign of t |
| `CatmullRomProperties.ModfUnique` | catmull_rom.py:22-23 | those properties determine the split uniquely, so Modf is truncation toward zero |
| `CatmullRomProperties.ModfOfInteger` | catmull_rom.py:22-23 | an integer query has fraction 0 and is its own integral part |
| `CatmullRomProperties.ModfOfNegative` | catmull_rom.py:22-23 | a negative non-integer query gets an integral part one above its floor and a negative fraction |
| `CatmullRom.Classify` | catmull_rom.py:28-30 | the region chosen is left, middle or right exactly when the corresponding mask holds; the masks are the predicates `InLeft` (k < 1), `InMiddle` (1 <= k <= N-3) and `InRight` (k > N-3) |
| `CatmullRomProperties.RegionsPartition` | catmull_rom.py:28-30 | for N >= 3 the three masks are disjoint and cover every integral part |
| `CatmullRomProperties.OuterMasksOverlapIffTooFew` | catmull_rom.py:28-30 | some integral part is in both the left and right masks exactly when N < 3 |
| `CatmullRom.ReadIndices` | catmull_rom.py:34-56 | every sample position a query's value depends on lies in [0, N-1]; there are three for an outer query and four for a middle one (a per-query abstraction of the source's per-call reads of the first and last three samples) |
| `CatmullRomProperties.EvaluateReadsOnly` | catmull_rom.py:34-63 | a query's value depends only on the samples ReadIndices names |
| `CatmullRom.LeftCubic` | catmull_rom.py:34-38 | the left cubic equals y[0] at u = 0 and y[1] at u = 1 |
| `CatmullRomProperties.LeftIsHermite` | catmull_rom.py:34-37 | the left cubic is the Hermite cubic on [y[0], y[1]] with tangent (y[2]-y[0])/2 at y[1] and (-7y[0]+10y[1]-3y[2])/4 at y[0] |
| `CatmullRom.RightCubic` | catmull_rom.py:52-63 | the right cubic equals y[N-1] at u = 0 and y[N-2] at u = -1 |
| `CatmullRomProperties.RightMirrorsLeft` | catmull_rom.py:52-63 | the right cubic at u is the left cubic of the reversed last three samples at -u |
| `CatmullRom.Hermite` | catmull_rom.py:45-50 | the Hermite combination equals p0 at u = 0 and p1 at u = 1 |
| `CatmullRom.HermiteCubic` | catmull_rom.py:45-50 | the monomial-form cubic has values p0, p1 and slopes m1, m2 at u = 0 and u = 1 |
| `CatmullRomProperties.HermiteBasisIsCubic` | catmull_rom.py:45-50 | the basis form written in the source equals the monomial-form Hermite cubic for every u |
| `CatmullRomProperties.CubicFromEnds` | catmull_rom.py:45-50 | a cubic with given values and slopes at 0 and 1 is that Hermite cubic, so the Hermite cubic is unique |
| `CatmullRom.MiddleValue` | catmull_rom.py:40-50 | the middle value is y[k] at u = 0 and y[k+1] at u = 1 |
| `CatmullRom.Tangent` | catmull_rom.py:42-43 | the centred difference (y[j+1]-y[j-1])/2; `JoinIsSmooth` proves it is the slope with which neighbouring pieces meet at sample j |
| `CatmullRom.Evaluate` | catmull_rom.py:28-63 | the region dispatch and the three cubic evaluations; at u = 0 it gives y[0] on the left, y[k] in the middle and y[N-1] on the right; `EvaluateReadsOnly` proves it depends only on the samples `ReadIndices` names |
| `CatmullRom.Interpolate` | catmull_rom.py:22-63 | the value for one query (split, dispatch, evaluate); `InterpolateIsPiece` proves it is its interval's cubic at its fraction and `AtSample` gives its values at the integer queries |
| `CatmullRomProperties.InterpolateIsPiece` | catmull_rom.py:22-63 | every query is its interval's cubic at its fraction; in the middle that cubic is Hermite with tangents (y[k+1]-y[k-1])/2 and (y[k+2]-y[k])/2 |
| `CatmullRomProperties.AtSample` | catmull_rom.py:22-63 | an integer query j in [0, N-1] returns y[j], except j = N-2, which returns y[N-1] |
| `CatmullRomProperties.AtSecondLastSample` | catmull_rom.py:52-63 | the query N-2 returns y[N-2] exactly when y[N-2] equals y[N-1] |
| `CatmullRomProperties.JoinIsSmooth` | catmull_rom.py:34-50 | from the left interval up to the last middle one, neighbouring cubics meet with equal value and equal slope at each interior sample |
| `CatmullRomProperties.MiddleIntervalsAgree` | catmull_rom.py:45-50 | a middle interval at u = 1 equals y[k+1], which is the value at the query k+1, when the next interval is also a middle one (k+1 <= N-3) |
| `CatmullRomProperties.LeftMeetsMiddle` | catmull_rom.py:34-50 | for N >= 4 the left cubic at u = 1 equals the value at t = 1, which is y[1] |
| `CatmullRomProperties.JumpAtSecondLast` | catmull_rom.py:52-63 | the interval below N-2 closes at y[N-2] while the right cubic starts at y[N-1] |
| `CatmullRomProperties.RightFitsShiftedByOne` | catmull_rom.py:52-63 | at u = -1 the right cubic matches the value and slope of the interval below N-2 |
| `CatmullRomProperties.OuterRegionsIgnoreWhole` | catmull_rom.py:34-63 | two queries in the same outer region with equal fractions get equal values |
| `CatmullRomProperties.LeftRepeatsBelowMinusOne` | catmull_rom.py:22-38 | the queries -1.5 and -0.5 both evaluate the left cubic at u = -0.5 |
| `CatmullRomProperties.LeftExtrapolation` | catmull_rom.py:22-38 | every query in (-1, 1) evaluates the left cubic at t itself |
| `CatmullRomProperties.RightExtrapolation` | catmull_rom.py:22-63 | every query in [N-1, N) evaluates the right cubic at t - (N-1) |
| `CatmullRom.Catrom` | catmull_rom.py:22-64 | fails with IndexError(N) exactly when N < 3; otherwise returns a fresh array as long as the queries, with position i holding the value for query t[i] |

## Left out

- Floating point: rounding, NaN and infinity propagation. Samples, queries and results are exact reals.
- The overflow of `astype(int)` for huge queries. The integral part is an unbounded integer.
- numpy array mechanics: `flatten`, multi-dimensional query shapes and boolean-mask fancy indexing. Queries are a flat sequence, and each masked write is a loop over all positions.
- Any particular initial contents of the output array. The model's array starts with unspecified contents, as `np.empty_like`'s does. `Catrom` proves that every position is written, so the initial contents never reach the result.
- The demonstration block under `__main__`, which only prints.
- `test_catmull_rom.py`. Its assertions are relative-tolerance accuracy claims against a particular polynomial, not exact properties of `catrom`.
