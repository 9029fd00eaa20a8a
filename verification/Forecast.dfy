/** The two weighted moving averages, before rounding: `compute_wma_forecast` of
    src/masova_agent/tools/ops_tools.py and the hourly average of
    src/masova_agent/agents/demand_forecasting_agent.py. Floats are modelled by reals. */
module Forecast {
  import opened Outcomes

  function SumTo(s: seq<real>, n: nat): real
    requires n <= |s|
  {
    if n == 0 then 0.0 else SumTo(s, n - 1) + s[n - 1]
  }

  function Sum(s: seq<real>): real {
    SumTo(s, |s|)
  }

  function Products(w: seq<real>, x: seq<real>): seq<real>
    requires |w| == |x|
  {
    seq(|w|, i requires 0 <= i < |w| => w[i] * x[i])
  }

  /** Weighted average, with the divisor used instead when the weights cancel out. */
  function Average(w: seq<real>, x: seq<real>): real
    requires |w| == |x|
  {
    Sum(Products(w, x)) / Divisor(w)
  }

  function Divisor(w: seq<real>): (d: real)
    ensures d != 0.0
  {
    if Sum(w) == 0.0 then 1.0 else Sum(w)
  }

  function LinearWeights(n: nat): seq<real> {
    seq(n, i requires 0 <= i < n => (i + 1) as real)
  }

  function RecencyWeights(n: nat): seq<real> {
    seq(n, i requires 0 <= i < n => 1.0 + i as real / n as real)
  }

  /** None is the error answer for an empty series; weights of the wrong length are replaced. */
  function WmaForecast(series: seq<real>, weights: Option<seq<real>>): Option<real> {
    if series == [] then None
    else if weights.Some? && |weights.value| == |series| then Some(Average(weights.value, series))
    else Some(Average(LinearWeights(|series|), series))
  }

  function HourlyForecast(quantities: seq<real>): real
    requires quantities != []
  {
    Average(RecencyWeights(|quantities|), quantities)
  }

  function Mean(x: seq<real>): real
    requires x != []
  {
    Sum(x) / |x| as real
  }

  ghost predicate Within(x: seq<real>, lo: real, hi: real) {
    forall i :: 0 <= i < |x| ==> lo <= x[i] <= hi
  }

  ghost predicate NonDecreasing(x: seq<real>) {
    forall i, j :: 0 <= i < j < |x| ==> x[i] <= x[j]
  }

  ghost predicate Positive(w: seq<real>) {
    forall i :: 0 <= i < |w| ==> w[i] > 0.0
  }

  // ---- arithmetic ----

  lemma ProductSign(a: real, b: real)
    requires a >= 0.0 && b >= 0.0
    ensures a * b >= 0.0
  {
  }

  lemma MulMono(a: real, b: real, k: real)
    requires a <= b && k >= 0.0
    ensures k * a <= k * b
  {
    ProductSign(k, b - a);
    assert k * (b - a) == k * b - k * a;
  }

  lemma Distribute(c: real, s: real, k: real)
    ensures c * (s + k) == c * s + c * k
  {
  }

  lemma DivMono(a: real, b: real, s: real)
    requires a <= b && s > 0.0
    ensures a / s <= b / s
  {
  }

  lemma DivCancel(c: real, s: real)
    requires s != 0.0
    ensures c * s / s == c
  {
  }

  lemma DivNegate(a: real, s: real)
    requires s != 0.0
    ensures -a / -s == a / s
  {
  }

  lemma DivSign(a: real, s: real)
    requires (s > 0.0 && a < 0.0) || (s < 0.0 && a > 0.0)
    ensures a / s < 0.0
  {
  }

  // ---- sums ----

  lemma {:induction false} SumMono(p: seq<real>, q: seq<real>, n: nat)
    requires n <= |p| && n <= |q|
    requires forall i :: 0 <= i < n ==> p[i] <= q[i]
    ensures SumTo(p, n) <= SumTo(q, n)
  {
    if n > 0 {
      SumMono(p, q, n - 1);
    }
  }

  lemma {:induction false} SumScaled(p: seq<real>, q: seq<real>, c: real, n: nat)
    requires n <= |p| && n <= |q|
    requires forall i :: 0 <= i < n ==> q[i] == c * p[i]
    ensures SumTo(q, n) == c * SumTo(p, n)
  {
    if n > 0 {
      SumScaled(p, q, c, n - 1);
      Distribute(c, SumTo(p, n - 1), p[n - 1]);
    }
  }

  function Scale(c: real, w: seq<real>): seq<real> {
    seq(|w|, i requires 0 <= i < |w| => c * w[i])
  }

  /** Only element `j` of the sum may be other than zero. */
  lemma {:induction false} SumSingle(p: seq<real>, j: nat, n: nat)
    requires n <= |p|
    requires forall i :: 0 <= i < n && i != j ==> p[i] == 0.0
    ensures SumTo(p, n) == if j < n then p[j] else 0.0
  {
    if n > 0 {
      SumSingle(p, j, n - 1);
    }
  }

  /** Two lists that differ only at two neighbouring places. */
  lemma {:induction false} SumDiffer(p: seq<real>, q: seq<real>, i: nat, n: nat)
    requires n <= |p| && n <= |q|
    requires forall j :: 0 <= j < n && j != i && j != i + 1 ==> p[j] == q[j]
    ensures i + 1 < n ==> SumTo(q, n) - SumTo(p, n) == q[i] + q[i + 1] - p[i] - p[i + 1]
    ensures i + 1 == n ==> SumTo(q, n) - SumTo(p, n) == q[i] - p[i]
    ensures n <= i ==> SumTo(q, n) == SumTo(p, n)
  {
    if n > 0 {
      SumDiffer(p, q, i, n - 1);
    }
  }

  // ---- range ----

  /** The weights under which a forecast can never leave the range of its series. */
  ghost predicate Sound(w: seq<real>) {
    || (Sum(w) > 0.0 && forall i :: 0 <= i < |w| ==> w[i] >= 0.0)
    || (Sum(w) < 0.0 && forall i :: 0 <= i < |w| ==> w[i] <= 0.0)
  }

  ghost predicate KeepsRange(w: seq<real>) {
    forall x: seq<real>, lo: real, hi: real ::
      |x| == |w| && Within(x, lo, hi) ==> lo <= Average(w, x) <= hi
  }

  lemma ScaleAt(lo: real, hi: real, w: seq<real>, x: seq<real>, i: nat)
    requires |x| == |w| && i < |w| && lo <= x[i] <= hi && w[i] >= 0.0
    ensures Scale(lo, w)[i] <= Products(w, x)[i] <= Scale(hi, w)[i]
  {
    MulMono(lo, x[i], w[i]);
    MulMono(x[i], hi, w[i]);
  }

  lemma SumOfScale(c: real, w: seq<real>)
    ensures Sum(Scale(c, w)) == c * Sum(w)
  {
    SumScaled(w, Scale(c, w), c, |w|);
  }

  lemma SumsOrdered(w: seq<real>, x: seq<real>, lo: real, hi: real)
    requires |x| == |w| && Within(x, lo, hi)
    requires forall i :: 0 <= i < |w| ==> w[i] >= 0.0
    ensures Sum(Scale(lo, w)) <= Sum(Products(w, x)) <= Sum(Scale(hi, w))
  {
    var a, p, b := Scale(lo, w), Products(w, x), Scale(hi, w);
    forall i | 0 <= i < |w| ensures a[i] <= p[i] && p[i] <= b[i] {
      ScaleAt(lo, hi, w, x, i);
    }
    SumMono(a, p, |w|);
    SumMono(p, b, |w|);
  }

  lemma ProductsWithin(w: seq<real>, x: seq<real>, lo: real, hi: real)
    requires |x| == |w| && Within(x, lo, hi)
    requires forall i :: 0 <= i < |w| ==> w[i] >= 0.0
    ensures lo * Sum(w) <= Sum(Products(w, x)) <= hi * Sum(w)
  {
    SumsOrdered(w, x, lo, hi);
    SumOfScale(lo, w);
    SumOfScale(hi, w);
  }

  lemma QuotientWithin(d: real, s: real, lo: real, hi: real)
    requires s > 0.0 && lo * s <= d <= hi * s
    ensures lo <= d / s <= hi
  {
    DivMono(lo * s, d, s);
    DivMono(d, hi * s, s);
    DivCancel(lo, s);
    DivCancel(hi, s);
  }

  lemma NonNegativeKeepsRange(w: seq<real>, x: seq<real>, lo: real, hi: real)
    requires Sum(w) > 0.0 && forall i :: 0 <= i < |w| ==> w[i] >= 0.0
    requires |x| == |w| && Within(x, lo, hi)
    ensures lo <= Average(w, x) <= hi
  {
    ProductsWithin(w, x, lo, hi);
    QuotientWithin(Sum(Products(w, x)), Sum(w), lo, hi);
  }

  lemma ProductsOfScale(c: real, w: seq<real>, x: seq<real>)
    requires |x| == |w|
    ensures Products(Scale(c, w), x) == Scale(c, Products(w, x))
  {
    forall i | 0 <= i < |w| ensures Products(Scale(c, w), x)[i] == Scale(c, Products(w, x))[i] {
      Associate(c, w[i], x[i]);
    }
  }

  lemma Associate(a: real, b: real, c: real)
    ensures a * b * c == a * (b * c)
  {
  }

  /** Changing the sign of every weight changes nothing. */
  lemma NegatedAverage(w: seq<real>, x: seq<real>)
    requires |x| == |w| && Sum(w) != 0.0
    ensures Sum(Scale(-1.0, w)) == -Sum(w)
    ensures Average(Scale(-1.0, w), x) == Average(w, x)
  {
    SumOfScale(-1.0, w);
    ProductsOfScale(-1.0, w, x);
    SumOfScale(-1.0, Products(w, x));
    DivNegate(Sum(Products(w, x)), Sum(w));
  }

  lemma SoundKeepsRange(w: seq<real>, x: seq<real>, lo: real, hi: real)
    requires Sound(w) && |x| == |w| && Within(x, lo, hi)
    ensures lo <= Average(w, x) <= hi
  {
    if Sum(w) > 0.0 {
      NonNegativeKeepsRange(w, x, lo, hi);
    } else {
      NegatedAverage(w, x);
      NonNegativeKeepsRange(Scale(-1.0, w), x, lo, hi);
    }
  }

  lemma UnsoundEscapes(w: seq<real>)
    requires w != [] && !Sound(w)
    ensures !KeepsRange(w)
  {
    if Sum(w) == 0.0 {
      var ones := seq(|w|, i => 1.0);
      assert Products(w, ones) == w;
      assert Within(ones, 1.0, 1.0) && Average(w, ones) == 0.0;
    } else {
      var j :| 0 <= j < |w| && if Sum(w) > 0.0 then w[j] < 0.0 else w[j] > 0.0;
      var unit := seq(|w|, i => if i == j then 1.0 else 0.0);
      SumSingle(Products(w, unit), j, |w|);
      DivSign(w[j], Sum(w));
      assert Within(unit, 0.0, 1.0) && Average(w, unit) < 0.0;
    }
  }

  /** Caller-supplied weights keep every forecast in range exactly when they do not
      cancel out and none has the sign opposite to their total. */
  lemma RangeKeptExactly(w: seq<real>)
    requires w != []
    ensures KeepsRange(w) <==> Sound(w)
  {
    if Sound(w) {
      forall x: seq<real>, lo: real, hi: real | |x| == |w| && Within(x, lo, hi)
        ensures lo <= Average(w, x) <= hi
      {
        SoundKeepsRange(w, x, lo, hi);
      }
    } else {
      UnsoundEscapes(w);
    }
  }

  lemma {:induction false} SumPositive(w: seq<real>, n: nat)
    requires n <= |w| && Positive(w)
    ensures SumTo(w, n) >= 0.0 && (n > 0 ==> SumTo(w, n) > 0.0)
  {
    if n > 0 {
      SumPositive(w, n - 1);
    }
  }

  lemma LinearWeightsOrdered(n: nat)
    ensures Positive(LinearWeights(n)) && NonDecreasing(LinearWeights(n))
    ensures n > 0 ==> Sum(LinearWeights(n)) > 0.0
  {
    SumPositive(LinearWeights(n), n);
  }

  lemma RecencyWeightsOrdered(n: nat)
    ensures Positive(RecencyWeights(n)) && NonDecreasing(RecencyWeights(n))
    ensures n > 0 ==> Sum(RecencyWeights(n)) > 0.0
  {
    var w := RecencyWeights(n);
    forall i | 0 <= i < n ensures w[i] >= 1.0 {
      DivMono(0.0, i as real, n as real);
    }
    forall i, j | 0 <= i < j < n ensures w[i] <= w[j] {
      DivMono(i as real, j as real, n as real);
    }
    SumPositive(w, n);
  }

  /** Both built-in forecasts lie between the least and the greatest observation. */
  lemma ForecastsStayInRange(series: seq<real>, lo: real, hi: real)
    requires series != [] && Within(series, lo, hi)
    ensures lo <= WmaForecast(series, None).value <= hi
    ensures lo <= HourlyForecast(series) <= hi
  {
    var n := |series|;
    LinearWeightsOrdered(n);
    SoundKeepsRange(LinearWeights(n), series, lo, hi);
    RecencyWeightsOrdered(n);
    SoundKeepsRange(RecencyWeights(n), series, lo, hi);
  }

  // ---- Chebyshev's sum inequality ----

  function Shift(x: seq<real>, c: real): seq<real> {
    seq(|x|, i requires 0 <= i < |x| => x[i] - c)
  }

  lemma {:induction false} SumShift(x: seq<real>, c: real, n: nat)
    requires n <= |x|
    ensures SumTo(Shift(x, c), n) == SumTo(x, n) - c * n as real
  {
    if n > 0 {
      SumShift(x, c, n - 1);
      Distribute(c, (n - 1) as real, 1.0);
    }
  }

  /** p is q less c times w, element by element; so are the sums. */
  lemma {:induction false} SumLess(p: seq<real>, q: seq<real>, r: seq<real>, n: nat)
    requires n <= |p| && n <= |q| && n <= |r|
    requires forall i :: 0 <= i < n ==> p[i] == q[i] - r[i]
    ensures SumTo(p, n) == SumTo(q, n) - SumTo(r, n)
  {
    if n > 0 {
      SumLess(p, q, r, n - 1);
    }
  }

  lemma ShiftedProducts(w: seq<real>, x: seq<real>, c: real)
    requires |w| == |x|
    ensures Sum(Products(w, Shift(x, c))) == Sum(Products(w, x)) - c * Sum(w)
  {
    var p, q, r := Products(w, Shift(x, c)), Products(w, x), Scale(c, w);
    forall i | 0 <= i < |w| ensures p[i] == q[i] - r[i] {
      ShiftedProduct(w[i], x[i], c);
    }
    SumLess(p, q, r, |w|);
    SumOfScale(c, w);
  }

  lemma ShiftedProduct(a: real, y: real, c: real)
    ensures a * (y - c) == a * y - c * a
  {
  }

  /** A weight above k on a nonnegative value, or below it on a nonpositive one. */
  lemma WeightGain(a: real, k: real, y: real)
    requires (a >= k && y >= 0.0) || (a <= k && y <= 0.0)
    ensures k * y <= a * y
  {
    if y > 0.0 {
      MulMono(k, a, y);
    } else if y < 0.0 {
      MulMono(a, k, -y);
    }
  }

  /** In a nondecreasing list of sum zero the nonpositive values come first. */
  lemma {:induction false} SignChange(y: seq<real>, n: nat) returns (k: nat)
    requires NonDecreasing(y) && n <= |y|
    ensures k <= n
    ensures forall i :: 0 <= i < k ==> y[i] <= 0.0
    ensures forall i :: k <= i < n ==> y[i] >= 0.0
  {
    k := n;
    if n > 0 && y[n - 1] > 0.0 {
      k := SignChange(y, n - 1);
    }
  }

  lemma GainAt(w: seq<real>, y: seq<real>, pivot: real, i: nat)
    requires |w| == |y| && i < |w|
    requires (w[i] >= pivot && y[i] >= 0.0) || (w[i] <= pivot && y[i] <= 0.0)
    ensures Scale(pivot, y)[i] <= Products(w, y)[i]
  {
    WeightGain(w[i], pivot, y[i]);
  }

  lemma AllGain(w: seq<real>, y: seq<real>, pivot: real)
    requires |w| == |y|
    requires forall i :: 0 <= i < |w| ==> (w[i] >= pivot && y[i] >= 0.0) || (w[i] <= pivot && y[i] <= 0.0)
    ensures pivot * Sum(y) <= Sum(Products(w, y))
  {
    var a, p := Scale(pivot, y), Products(w, y);
    forall i | 0 <= i < |w| ensures a[i] <= p[i] {
      GainAt(w, y, pivot, i);
    }
    SumMono(a, p, |w|);
    SumOfScale(pivot, y);
  }

  lemma WeightedSumNonNegative(w: seq<real>, y: seq<real>)
    requires |w| == |y| && w != [] && NonDecreasing(w) && NonDecreasing(y) && Sum(y) == 0.0
    ensures Sum(Products(w, y)) >= 0.0
  {
    var k := SignChange(y, |y|);
    AllGain(w, y, if k < |w| then w[k] else w[|w| - 1]);
  }

  lemma DeviationsCancel(x: seq<real>)
    requires x != []
    ensures Sum(Shift(x, Mean(x))) == 0.0
  {
    SumShift(x, Mean(x), |x|);
    MeanTimesCount(Sum(x), |x| as real);
  }

  lemma AtLeastMean(w: seq<real>, x: seq<real>)
    requires |w| == |x| && w != [] && NonDecreasing(w) && NonDecreasing(x) && Sum(w) > 0.0
    ensures Average(w, x) >= Mean(x)
  {
    var m := Mean(x);
    DeviationsCancel(x);
    WeightedSumNonNegative(w, Shift(x, m));
    ShiftedProducts(w, x, m);
    Quotient(Sum(Products(w, x)), Sum(w), m);
  }

  lemma Quotient(d: real, s: real, m: real)
    requires s > 0.0 && d - m * s >= 0.0
    ensures d / s >= m
  {
    DivMono(m * s, d, s);
    DivCancel(m, s);
  }

  lemma MeanTimesCount(t: real, n: real)
    requires n != 0.0
    ensures t / n * n == t
  {
  }

  /** On a nondecreasing series both forecasts are at least the plain mean. */
  lemma ForecastsFollowTrend(series: seq<real>)
    requires series != [] && NonDecreasing(series)
    ensures WmaForecast(series, None).value >= Mean(series)
    ensures HourlyForecast(series) >= Mean(series)
  {
    var n := |series|;
    LinearWeightsOrdered(n);
    AtLeastMean(LinearWeights(n), series);
    RecencyWeightsOrdered(n);
    AtLeastMean(RecencyWeights(n), series);
  }

  // ---- recency ----

  function Swap(x: seq<real>, i: nat): seq<real>
    requires i + 1 < |x|
  {
    x[i := x[i + 1]][i + 1 := x[i]]
  }

  lemma TwoProducts(a: real, b: real, x: real, y: real)
    requires a <= b && x >= y
    ensures a * y + b * x >= a * x + b * y
  {
    ProductSign(b - a, x - y);
    assert (b - a) * (x - y) == a * y + b * x - (a * x + b * y);
  }

  lemma SwapRaises(w: seq<real>, x: seq<real>, i: nat)
    requires |w| == |x| && i + 1 < |x| && Sum(w) > 0.0
    requires w[i] <= w[i + 1] && x[i] >= x[i + 1]
    ensures Average(w, Swap(x, i)) >= Average(w, x)
  {
    var p, q := Products(w, x), Products(w, Swap(x, i));
    SumDiffer(p, q, i, |w|);
    TwoProducts(w[i], w[i + 1], x[i], x[i + 1]);
    DivMono(Sum(p), Sum(q), Sum(w));
  }

  /** Moving a larger observation one step later never lowers either forecast. */
  lemma LaterCountsMore(series: seq<real>, i: nat)
    requires i + 1 < |series| && series[i] >= series[i + 1]
    ensures WmaForecast(Swap(series, i), None).value >= WmaForecast(series, None).value
    ensures HourlyForecast(Swap(series, i)) >= HourlyForecast(series)
  {
    var n := |series|;
    LinearWeightsOrdered(n);
    SwapRaises(LinearWeights(n), series, i);
    RecencyWeightsOrdered(n);
    SwapRaises(RecencyWeights(n), series, i);
  }

  // ---- the share of each observation ----

  /** A series that is one at place `i` and zero elsewhere. */
  function Unit(n: nat, i: nat): seq<real> {
    seq(n, j => if j == i then 1.0 else 0.0)
  }

  lemma {:induction false} LinearSum(n: nat, k: nat)
    requires k <= n
    ensures SumTo(LinearWeights(n), k) * 2.0 == k as real * (k as real + 1.0)
  {
    if k > 0 {
      LinearSum(n, k - 1);
      var r := k as real;
      assert LinearWeights(n)[k - 1] == r;
      assert (r - 1.0) * r + 2.0 * r == r * (r + 1.0);
    }
  }

  lemma {:induction false} RecencySum(n: nat, k: nat)
    requires 0 < n && k <= n
    ensures SumTo(RecencyWeights(n), k) * (2.0 * n as real) == k as real * (2.0 * n as real + k as real - 1.0)
  {
    if k > 0 {
      RecencySum(n, k - 1);
      RecencyStep(n as real, k as real, SumTo(RecencyWeights(n), k - 1), RecencyWeights(n)[k - 1]);
    }
  }

  lemma RecencyStep(n: real, k: real, before: real, last: real)
    requires n > 0.0 && before * (2.0 * n) == (k - 1.0) * (2.0 * n + k - 2.0) && last == 1.0 + (k - 1.0) / n
    ensures (before + last) * (2.0 * n) == k * (2.0 * n + k - 1.0)
  {
    MeanTimesCount(k - 1.0, n);
    assert last * n == n + (k - 1.0);
    assert (before + last) * (2.0 * n) == before * (2.0 * n) + 2.0 * (last * n);
  }

  lemma UnitAverage(w: seq<real>, i: nat)
    requires i < |w| && Sum(w) > 0.0
    ensures Average(w, Unit(|w|, i)) == w[i] / Sum(w)
  {
    var p := Products(w, Unit(|w|, i));
    SumSingle(p, i, |w|);
  }

  lemma RatioOf(a: real, s: real, b: real, t: real)
    requires s > 0.0 && t > 0.0 && a * t == b * s
    ensures a / s == b / t
  {
    MeanTimesCount(a, s);
    MeanTimesCount(b, t);
    var x, y := a / s, b / t;
    assert x * s * t == y * t * s;
    assert (x - y) * (s * t) == 0.0;
    PositiveTimes(s, t);
  }

  lemma PositiveTimes(s: real, t: real)
    requires s > 0.0 && t > 0.0
    ensures s * t > 0.0
  {
  }

  /** What one observation weighs. In the moving average observation `i` of `n` has the share
      2(i + 1) / n(n + 1); in the hourly one 2(n + i) / n(3n - 1). */
  lemma ShareOfObservation(n: nat, i: nat)
    requires i < n
    ensures WmaForecast(Unit(n, i), None) == Some(2.0 * (i as real + 1.0) / (n as real * (n as real + 1.0)))
    ensures HourlyForecast(Unit(n, i)) == 2.0 * (n as real + i as real) / (n as real * (3.0 * n as real - 1.0))
  {
    LinearShare(n, i);
    RecencyShare(n, i);
  }

  lemma LinearShare(n: nat, i: nat)
    requires i < n
    ensures Average(LinearWeights(n), Unit(n, i)) == 2.0 * (i as real + 1.0) / (n as real * (n as real + 1.0))
  {
    var w, r := LinearWeights(n), n as real;
    LinearWeightsOrdered(n);
    LinearSum(n, n);
    UnitAverage(w, i);
    PositiveTimes(r, r + 1.0);
    var total := r * (r + 1.0);
    assert w[i] * total == w[i] * (Sum(w) * 2.0) == 2.0 * w[i] * Sum(w);
    RatioOf(w[i], Sum(w), 2.0 * w[i], total);
  }

  lemma RecencyShare(n: nat, i: nat)
    requires i < n
    ensures Average(RecencyWeights(n), Unit(n, i)) == 2.0 * (n as real + i as real) / (n as real * (3.0 * n as real - 1.0))
  {
    var w, r := RecencyWeights(n), n as real;
    RecencyWeightsOrdered(n);
    RecencySum(n, n);
    UnitAverage(w, i);
    RecencyRatio(r, i as real, w[i], Sum(w));
  }

  lemma RecencyRatio(r: real, i: real, weight: real, sum: real)
    requires r > 0.0 && 3.0 * r - 1.0 > 0.0 && sum > 0.0
    requires weight == 1.0 + i / r && sum * (2.0 * r) == r * (2.0 * r + r - 1.0)
    ensures weight / sum == 2.0 * (r + i) / (r * (3.0 * r - 1.0))
  {
    MeanTimesCount(i, r);
    PositiveTimes(r, 3.0 * r - 1.0);
    var total := r * (3.0 * r - 1.0);
    assert total == sum * (2.0 * r);
    assert weight * r == r + i;
    assert weight * total == weight * (sum * (2.0 * r)) == 2.0 * (weight * r) * sum;
    RatioOf(weight, sum, 2.0 * (r + i), total);
  }

  /** Weights that fit the series are the ones used: with a single weight other than zero the
      forecast is the observation it stands at. Weights of another length are not. */
  lemma GivenWeightsCount(series: seq<real>, weights: seq<real>, i: nat)
    requires i < |series|
    ensures |weights| != |series| ==> WmaForecast(series, Some(weights)) == WmaForecast(series, None)
    ensures WmaForecast(series, Some(Unit(|series|, i))) == Some(series[i])
  {
    var u := Unit(|series|, i);
    SumSingle(u, i, |series|);
    SumSingle(Products(u, series), i, |series|);
  }
}
