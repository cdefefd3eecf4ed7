/** The pure decision rules of `CustomMetrics`: the clipped 0-100 rescale,
    the ordered threshold cascade that labels a value, the statistical
    summary of a series and the bullish/bearish shares of the deviation
    index. Series are sequences in index order; a missing entry (pandas NaN)
    is `None`. */
module CustomMetrics {
  import opened Wrappers

  /** A four-threshold tuple in the order callers pass it; the cascade reads
      it as (strong_bearish, bearish, bullish, strong_bullish). */
  datatype Thresholds = Thresholds(t1: real, t2: real, t3: real, t4: real)

  predicate Ordered(t: Thresholds) {
    t.t1 <= t.t2 <= t.t3 <= t.t4
  }

  /** Signal labels, plus the sentinel for a missing value. */
  datatype Signal = StrongBearish | Bearish | Bullish | StrongBullish | InsufficientData {

    function Name(): string {
      match this
      case StrongBearish => "Strong Bearish"
      case Bearish => "Bearish"
      case Bullish => "Bullish"
      case StrongBullish => "Strong Bullish"
      case InsufficientData => "Insufficient Data"
    }

    /** Position on the bearish-to-bullish scale; the sentinel sits below. */
    function Rank(): int {
      match this
      case InsufficientData => -1
      case StrongBearish => 0
      case Bearish => 1
      case Bullish => 2
      case StrongBullish => 3
    }
  }

  // ---------------------------------------------------------------------
  // Dropping missing values and simple reductions
  // ---------------------------------------------------------------------

  /** `series.dropna()`: the present values, in order. */
  function DropMissing(s: seq<Option<real>>): (r: seq<real>)
    ensures |r| <= |s|
    ensures forall x :: x in r <==> Some(x) in s
    ensures |r| == 0 <==> forall i :: 0 <= i < |s| ==> s[i].None?
    decreases |s|
  {
    if |s| == 0 then []
    else
      var rest := DropMissing(s[1..]);
      assert forall i :: 1 <= i < |s| ==> s[i] == s[1..][i - 1];
      if s[0].Some? then [s[0].value] + rest else rest
  }

  /** `dropna()` distributes over concatenation; with `DropMissingUnit` this
      fixes it completely, order and repetitions included. */
  lemma {:induction false} DropMissingAppend(a: seq<Option<real>>, b: seq<Option<real>>)
    ensures DropMissing(a + b) == DropMissing(a) + DropMissing(b)
    decreases |a|
  {
    if |a| == 0 {
      assert a + b == b;
    } else {
      assert (a + b)[0] == a[0];
      assert (a + b)[1..] == a[1..] + b;
      DropMissingAppend(a[1..], b);
    }
  }

  /** A present entry is kept, a missing one dropped. */
  lemma DropMissingUnit(x: Option<real>)
    ensures DropMissing([x]) == if x.Some? then [x.value] else []
  {
  }

  /** Counts and sums taken on the series itself, entry by entry. */
  function CountPresent(s: seq<Option<real>>): nat
    decreases |s|
  {
    if |s| == 0 then 0 else (if s[0].Some? then 1 else 0) + CountPresent(s[1..])
  }

  function SumPresent(s: seq<Option<real>>): real
    decreases |s|
  {
    if |s| == 0 then 0.0 else (if s[0].Some? then s[0].value else 0.0) + SumPresent(s[1..])
  }

  function CountPresentPositive(s: seq<Option<real>>): nat
    decreases |s|
  {
    if |s| == 0 then 0 else (if s[0].Some? && s[0].value > 0.0 then 1 else 0) + CountPresentPositive(s[1..])
  }

  function CountPresentNegative(s: seq<Option<real>>): nat
    decreases |s|
  {
    if |s| == 0 then 0 else (if s[0].Some? && s[0].value < 0.0 then 1 else 0) + CountPresentNegative(s[1..])
  }

  /** Reducing `dropna()` gives the same count and sum as reducing the
      series while skipping missing entries. */
  lemma {:induction false} PresentCountAndSum(s: seq<Option<real>>)
    ensures |DropMissing(s)| == CountPresent(s)
    ensures Sum(DropMissing(s)) == SumPresent(s)
    decreases |s|
  {
    if |s| > 0 {
      PresentCountAndSum(s[1..]);
      var r := DropMissing(s);
      if s[0].Some? {
        assert r == [s[0].value] + DropMissing(s[1..]);
        assert r[1..] == DropMissing(s[1..]);
      }
    }
  }

  /** ... and the same counts of positive and negative values. */
  lemma {:induction false} PresentSignCounts(s: seq<Option<real>>)
    ensures CountPositive(DropMissing(s)) == CountPresentPositive(s)
    ensures CountNegative(DropMissing(s)) == CountPresentNegative(s)
    decreases |s|
  {
    if |s| > 0 {
      PresentSignCounts(s[1..]);
      var r := DropMissing(s);
      if s[0].Some? {
        assert r == [s[0].value] + DropMissing(s[1..]);
        assert r[1..] == DropMissing(s[1..]);
      }
    }
  }

  function SeqMin(xs: seq<real>): (m: real)
    requires |xs| > 0
    ensures m in xs
    ensures forall i :: 0 <= i < |xs| ==> m <= xs[i]
  {
    if |xs| == 1 then xs[0]
    else
      var m := SeqMin(xs[1..]);
      assert forall i :: 1 <= i < |xs| ==> xs[i] == xs[1..][i - 1];
      if xs[0] <= m then xs[0] else m
  }

  function SeqMax(xs: seq<real>): (m: real)
    requires |xs| > 0
    ensures m in xs
    ensures forall i :: 0 <= i < |xs| ==> xs[i] <= m
  {
    if |xs| == 1 then xs[0]
    else
      var m := SeqMax(xs[1..]);
      assert forall i :: 1 <= i < |xs| ==> xs[i] == xs[1..][i - 1];
      if xs[0] >= m then xs[0] else m
  }

  function Sum(xs: seq<real>): real
    decreases |xs|
  {
    if |xs| == 0 then 0.0 else xs[0] + Sum(xs[1..])
  }

  /** Appending one value adds it to the sum. */
  lemma {:induction false} SumSnoc(xs: seq<real>, x: real)
    ensures Sum(xs + [x]) == Sum(xs) + x
    decreases |xs|
  {
    if |xs| == 0 {
      assert xs + [x] == [x];
    } else {
      assert (xs + [x])[1..] == xs[1..] + [x];
      SumSnoc(xs[1..], x);
    }
  }

  /** The sum of a concatenation is the sum of the sums. */
  lemma {:induction false} SumAppend(xs: seq<real>, ys: seq<real>)
    ensures Sum(xs + ys) == Sum(xs) + Sum(ys)
    decreases |xs|
  {
    if |xs| == 0 {
      assert xs + ys == ys;
    } else {
      assert (xs + ys)[1..] == xs[1..] + ys;
      SumAppend(xs[1..], ys);
    }
  }

  /** Every element between `lo` and `hi` bounds the sum by n*lo and n*hi. */
  lemma {:induction false} SumBetween(xs: seq<real>, lo: real, hi: real)
    requires forall i :: 0 <= i < |xs| ==> lo <= xs[i] <= hi
    ensures |xs| as real * lo <= Sum(xs) <= |xs| as real * hi
    decreases |xs|
  {
    if |xs| > 0 {
      assert forall i :: 0 <= i < |xs[1..]| ==> xs[1..][i] == xs[i + 1];
      SumBetween(xs[1..], lo, hi);
    }
  }

  /** Facts about dividing by a positive real, kept apart so that each
      proof sees only the arithmetic it needs. */
  lemma DivMonotone(a: real, b: real, d: real)
    requires d > 0.0 && a <= b
    ensures a / d <= b / d
  {
    assert b / d - a / d == (b - a) / d;
  }

  lemma DivSelf(d: real)
    requires d > 0.0
    ensures d / d == 1.0
  {
  }

  lemma DivAdd(a: real, b: real, d: real)
    requires d > 0.0
    ensures a / d + b / d == (a + b) / d
  {
  }

  lemma DivBetween(a: real, d: real, lo: real, hi: real)
    requires d > 0.0 && d * lo <= a <= d * hi
    ensures lo <= a / d <= hi
  {
    DivMonotone(d * lo, a, d);
    DivMonotone(a, d * hi, d);
    assert d * lo / d == lo;
    assert d * hi / d == hi;
  }

  // ---------------------------------------------------------------------
  // _normalize_to_scale
  // ---------------------------------------------------------------------

  datatype Bounds = Bounds(lower: real, upper: real)

  function Clip(x: real, lower: real, upper: real): (r: real)
    requires lower <= upper
    ensures lower <= r <= upper
    ensures lower <= x <= upper ==> r == x
  {
    if x < lower then lower else if x > upper then upper else x
  }

  /** One element of `(value - lower) / (upper - lower) * 100` clipped to
      [0, 100]. With coinciding bounds the float division yields +inf, -inf
      or NaN, which the clip turns into 100, 0 or leaves missing. */
  function Scale(v: real, b: Bounds): (r: Option<real>)
    ensures r.Some? ==> 0.0 <= r.value <= 100.0
    ensures r.None? <==> b.lower == b.upper && v == b.lower
  {
    if b.lower != b.upper then
      Some(Clip((v - b.lower) / (b.upper - b.lower) * 100.0, 0.0, 100.0))
    else if v > b.lower then Some(100.0)
    else if v < b.lower then Some(0.0)
    else None
  }

  /** Between proper bounds nothing is clipped, and the scaled value maps back
      to the input: lower + r * (upper - lower) / 100 == v. */
  lemma ScaleInverse(v: real, b: Bounds)
    requires b.lower < b.upper
    requires b.lower <= v <= b.upper
    ensures Scale(v, b) == Some((v - b.lower) / (b.upper - b.lower) * 100.0)
    ensures b.lower + Scale(v, b).value * (b.upper - b.lower) / 100.0 == v
  {
    var d := b.upper - b.lower;
    var q := (v - b.lower) / d;
    DivBetween(v - b.lower, d, 0.0, 1.0);
    assert Scale(v, b) == Some(q * 100.0);
    assert q * 100.0 * d / 100.0 == q * d;
  }

  /** The lower bound maps to 0, the upper bound to 100; values beyond them
      are clipped to the end they passed. */
  lemma ScaleEnds(v: real, b: Bounds)
    requires b.lower < b.upper
    ensures Scale(b.lower, b) == Some(0.0)
    ensures Scale(b.upper, b) == Some(100.0)
    ensures v <= b.lower ==> Scale(v, b) == Some(0.0)
    ensures v >= b.upper ==> Scale(v, b) == Some(100.0)
  {
    var d := b.upper - b.lower;
    ScaleInverse(b.lower, b);
    ScaleInverse(b.upper, b);
    DivSelf(d);
    if v <= b.lower {
      DivMonotone(v - b.lower, 0.0, d);
    }
    if v >= b.upper {
      DivMonotone(d, v - b.lower, d);
    }
  }

  /** For fixed proper bounds the rescale is non-decreasing. */
  lemma ScaleMonotone(v1: real, v2: real, b: Bounds)
    requires b.lower < b.upper
    requires v1 <= v2
    ensures Scale(v1, b).value <= Scale(v2, b).value
  {
    DivMonotone(v1 - b.lower, v2 - b.lower, b.upper - b.lower);
  }

  /** Rescaling an already rescaled value against (0, 100) changes nothing. */
  lemma ScaleIdempotent(v: real, b: Bounds)
    requires Scale(v, b).Some?
    ensures Scale(Scale(v, b).value, Bounds(0.0, 100.0)) == Scale(v, b)
  {
  }

  /** One element of the normalised series: missing stays missing, and
      missing (NaN) bounds make every element missing. */
  function NormalizeOne(value: Option<real>, bounds: Option<Bounds>): (r: Option<real>)
    ensures r.Some? ==> value.Some? && bounds.Some? && 0.0 <= r.value <= 100.0
  {
    match value
    case None => None
    case Some(v) => if bounds.None? then None else Scale(v, bounds.value)
  }

  /** The element-wise rescale of a whole series with fixed bounds. */
  function NormalizeValues(values: seq<Option<real>>, bounds: Option<Bounds>): (r: seq<Option<real>>)
    ensures |r| == |values|
    ensures forall i :: 0 <= i < |values| && values[i].None? ==> r[i].None?
    ensures forall i :: 0 <= i < |values| && r[i].Some? ==> 0.0 <= r[i].value <= 100.0
  {
    seq(|values|, i requires 0 <= i < |values| => NormalizeOne(values[i], bounds))
  }

  /** Normalisation is local: replacing one input element changes exactly
      that output element, and to what the element alone normalises to. */
  lemma NormalizeLocal(values: seq<Option<real>>, bounds: Option<Bounds>, i: nat, x: Option<real>)
    requires i < |values|
    ensures NormalizeValues(values[i := x], bounds)
         == NormalizeValues(values, bounds)[i := NormalizeOne(x, bounds)]
  {
  }

  /** Quantile estimator of the calibration values at a fraction in [0, 1]. */
  type Quantile = (seq<real>, real) -> real

  ghost predicate MonotoneQuantile(quantile: Quantile) {
    forall xs, p, q :: p <= q ==> quantile(xs, p) <= quantile(xs, q)
  }

  /** The bounds computed from the calibration series: quantiles or min/max
      of its present values; no present value gives NaN bounds (`None`). */
  function CalibrationBounds(calibration: seq<Option<real>>, lowerPercentile: real,
                             upperPercentile: real, usePercentiles: bool,
                             quantile: Quantile): (r: Option<Bounds>)
    ensures r.None? <==> forall i :: 0 <= i < |calibration| ==> calibration[i].None?
    ensures r.Some? && !usePercentiles ==>
      && r.value.lower <= r.value.upper
      && Some(r.value.lower) in calibration && Some(r.value.upper) in calibration
      && forall i :: 0 <= i < |calibration| && calibration[i].Some? ==>
           r.value.lower <= calibration[i].value <= r.value.upper
    ensures r.Some? && usePercentiles ==>
      r.value == Bounds(quantile(DropMissing(calibration), lowerPercentile / 100.0),
                        quantile(DropMissing(calibration), upperPercentile / 100.0))
  {
    var valid := DropMissing(calibration);
    if |valid| == 0 then None
    else if usePercentiles then
      Some(Bounds(quantile(valid, lowerPercentile / 100.0), quantile(valid, upperPercentile / 100.0)))
    else
      assert forall i :: 0 <= i < |calibration| && calibration[i].Some? ==> calibration[i].value in valid;
      Some(Bounds(SeqMin(valid), SeqMax(valid)))
  }

  /** With a monotone quantile and lower_percentile <= upper_percentile the
      percentile bounds are ordered too. */
  lemma PercentileBoundsOrdered(calibration: seq<Option<real>>, lowerPercentile: real,
                                upperPercentile: real, quantile: Quantile)
    requires MonotoneQuantile(quantile)
    requires lowerPercentile <= upperPercentile
    ensures var b := CalibrationBounds(calibration, lowerPercentile, upperPercentile, true, quantile);
            b.Some? ==> b.value.lower <= b.value.upper
  {
    var valid := DropMissing(calibration);
    if |valid| > 0 {
      assert quantile(valid, lowerPercentile / 100.0) <= quantile(valid, upperPercentile / 100.0);
    }
  }

  /** With min/max bounds every calibration value lies inside the scale
      unclipped: it normalises to exactly its relative position times 100,
      or, for a constant calibration series, to missing. */
  lemma CalibrationValuesUnclipped(calibration: seq<Option<real>>, lowerPercentile: real,
                                   upperPercentile: real, quantile: Quantile, j: nat)
    requires j < |calibration| && calibration[j].Some?
    ensures var b := CalibrationBounds(calibration, lowerPercentile, upperPercentile, false, quantile);
            var c := calibration[j].value;
            && b.Some?
            && (b.value.lower < b.value.upper ==>
                  NormalizeOne(calibration[j], b)
                  == Some((c - b.value.lower) / (b.value.upper - b.value.lower) * 100.0))
            && (b.value.lower == b.value.upper ==> NormalizeOne(calibration[j], b).None?)
  {
    var b := CalibrationBounds(calibration, lowerPercentile, upperPercentile, false, quantile);
    var c := calibration[j].value;
    if b.value.lower < b.value.upper {
      ScaleInverse(c, b.value);
    }
  }

  /** `_normalize_to_scale`: bounds from the calibration series, then the
      element-wise clipped rescale of `values`. */
  function NormalizeToScale(values: seq<Option<real>>, calibration: seq<Option<real>>,
                            lowerPercentile: real, upperPercentile: real,
                            usePercentiles: bool, quantile: Quantile): (r: seq<Option<real>>)
    ensures |r| == |values|
    ensures forall i :: 0 <= i < |values| && values[i].None? ==> r[i].None?
    ensures forall i :: 0 <= i < |values| && r[i].Some? ==> 0.0 <= r[i].value <= 100.0
    ensures (forall j :: 0 <= j < |calibration| ==> calibration[j].None?) ==>
              forall i :: 0 <= i < |r| ==> r[i].None?
    ensures !usePercentiles ==>
              forall i, j :: 0 <= i < |values| && 0 <= j < |calibration|
                && values[i].Some? && r[i].None? && calibration[j].Some?
                ==> calibration[j].value == values[i].value
    ensures forall i :: 0 <= i < |values| ==>
              r[i] == NormalizeOne(values[i], CalibrationBounds(calibration, lowerPercentile, upperPercentile,
                                                                usePercentiles, quantile))
  {
    NormalizeValues(values, CalibrationBounds(calibration, lowerPercentile, upperPercentile,
                                              usePercentiles, quantile))
  }

  // ---------------------------------------------------------------------
  // _generate_signal (ordered cascade)
  // ---------------------------------------------------------------------

  /** The label of one value: strong bullish at or above t4, else bullish at
      or above t3, else strong bearish at or below t1, else bearish. */
  function CascadeSignal(value: Option<real>, t: Thresholds): (s: Signal)
    ensures value.None? <==> s == InsufficientData
    ensures value.Some? ==> (s == StrongBullish <==> value.value >= t.t4)
    ensures value.Some? ==> (s == Bullish <==> t.t3 <= value.value < t.t4)
    ensures value.Some? ==> (s == StrongBearish <==> value.value < t.t3 && value.value < t.t4 && value.value <= t.t1)
    ensures value.Some? ==> (s == Bearish <==> t.t1 < value.value < t.t3 && value.value < t.t4)
  {
    var strongBearish, bullish, strongBullish := t.t1, t.t3, t.t4;
    match value
    case None => InsufficientData
    case Some(v) =>
      if v >= strongBullish then StrongBullish
      else if v >= bullish then Bullish
      else if v <= strongBearish then StrongBearish
      else Bearish
  }

  /** The cascade never consults the second ("bearish") threshold. */
  lemma CascadeIgnoresSecondThreshold(value: Option<real>, t: Thresholds, other: real)
    ensures CascadeSignal(value, t) == CascadeSignal(value, t.(t2 := other))
  {
  }

  /** For every threshold tuple, a larger value never gets a more bearish
      label. */
  lemma CascadeMonotone(v1: real, v2: real, t: Thresholds)
    requires v1 <= v2
    ensures CascadeSignal(Some(v1), t).Rank() <= CascadeSignal(Some(v2), t).Rank()
  {
  }

  /** The deviation index thresholds (-5%, 0%, 0%, 5%) at their edges. */
  lemma DeviationSignalExamples()
    ensures var t := Thresholds(-0.05, 0.0, 0.0, 0.05);
            && CascadeSignal(Some(0.0), t) == Bullish
            && CascadeSignal(Some(-0.05), t) == StrongBearish
            && CascadeSignal(Some(-0.01), t) == Bearish
            && CascadeSignal(Some(0.05), t) == StrongBullish
            && CascadeSignal(Some(-0.10), t) == StrongBearish
            && CascadeSignal(Some(0.02), t) == Bullish
            && CascadeSignal(None, t).Name() == "Insufficient Data"
  {
  }

  /** The normalised index thresholds (30, 50, 50, 70). */
  lemma NormalizedSignalExamples()
    ensures var t := Thresholds(30.0, 50.0, 50.0, 70.0);
            && CascadeSignal(Some(30.0), t) == StrongBearish
            && CascadeSignal(Some(40.0), t) == Bearish
            && CascadeSignal(Some(50.0), t) == Bullish
            && CascadeSignal(Some(70.0), t) == StrongBullish
  {
  }

  /** `values.apply(get_signal)`. */
  function GenerateSignals(values: seq<Option<real>>, t: Thresholds): (r: seq<Signal>)
    ensures |r| == |values|
    ensures forall i :: 0 <= i < |values| ==> (r[i] == InsufficientData <==> values[i].None?)
    ensures forall i, j :: 0 <= i < |values| && 0 <= j < |values|
              && values[i].Some? && values[j].Some? && values[i].value <= values[j].value
              ==> r[i].Rank() <= r[j].Rank()
    ensures forall i :: 0 <= i < |values| ==> r[i] == CascadeSignal(values[i], t)
  {
    seq(|values|, i requires 0 <= i < |values| => CascadeSignal(values[i], t))
  }

  // ---------------------------------------------------------------------
  // _calculate_stats
  // ---------------------------------------------------------------------

  /** The part of the summary that is fixed by the present values. */
  datatype Stats = Stats(mean: real, min: real, max: real, current: real)

  /** Position `i` holds `x` and nothing after it is present. */
  predicate IsLastPresent(data: seq<Option<real>>, i: int, x: real) {
    0 <= i < |data| && data[i] == Some(x) && forall j :: i < j < |data| ==> data[j].None?
  }

  /** The last present value is the last element of `dropna()`. */
  lemma {:induction false} LastPresent(data: seq<Option<real>>, x: real)
    requires |DropMissing(data)| > 0 && x == DropMissing(data)[|DropMissing(data)| - 1]
    ensures exists i :: IsLastPresent(data, i, x)
    decreases |data|
  {
    var valid := DropMissing(data);
    var rest := DropMissing(data[1..]);
    if |rest| > 0 {
      assert x == rest[|rest| - 1];
      LastPresent(data[1..], x);
      var i' :| IsLastPresent(data[1..], i', x);
      ShiftLastPresent(data, i', x);
    } else {
      assert valid == [data[0].value];
      ShiftLastPresent(data, -1, x);
    }
  }

  /** Prepending an element keeps the last present value in place. */
  lemma ShiftLastPresent(data: seq<Option<real>>, i: int, x: real)
    requires |data| > 0
    requires IsLastPresent(data[1..], i, x) || (i == -1 && data[0] == Some(x) && forall j :: 0 <= j < |data[1..]| ==> data[1..][j].None?)
    ensures IsLastPresent(data, i + 1, x)
  {
    assert forall j :: 1 <= j < |data| ==> data[j] == data[1..][j - 1];
  }

  /** `_calculate_stats` (mean, min, max, current): `None` stands for the
      all-None dictionary returned when no value is present. */
  function CalculateStats(data: seq<Option<real>>): (r: Option<Stats>)
    ensures r.None? <==> forall i :: 0 <= i < |data| ==> data[i].None?
    ensures r.Some? ==>
      && r.value.min <= r.value.mean <= r.value.max
      && r.value.min <= r.value.current <= r.value.max
      && Some(r.value.min) in data && Some(r.value.max) in data
      && (forall i :: 0 <= i < |data| && data[i].Some? ==>
            r.value.min <= data[i].value <= r.value.max)
      && exists i :: IsLastPresent(data, i, r.value.current)
    ensures r.Some? ==> CountPresent(data) > 0 && r.value.mean == SumPresent(data) / CountPresent(data) as real
  {
    var valid := DropMissing(data);
    if |valid| == 0 then None
    else
      StatsOfPresent(data);
      MeanOfPresent(data);
      Some(Stats(Mean(valid), SeqMin(valid), SeqMax(valid), valid[|valid| - 1]))
  }

  /** The mean of `dropna()` is the sum of the present entries over their
      number. */
  lemma MeanOfPresent(data: seq<Option<real>>)
    requires |DropMissing(data)| > 0
    ensures CountPresent(data) > 0
    ensures Mean(DropMissing(data)) == SumPresent(data) / CountPresent(data) as real
  {
    PresentCountAndSum(data);
  }

  /** The arithmetic mean: multiplied back by the count it gives the sum. */
  function Mean(xs: seq<real>): (m: real)
    requires |xs| > 0
    ensures m * |xs| as real == Sum(xs)
  {
    Sum(xs) / |xs| as real
  }

  lemma StatsOfPresent(data: seq<Option<real>>)
    requires |DropMissing(data)| > 0
    ensures var valid := DropMissing(data);
            var lo, hi, mean := SeqMin(valid), SeqMax(valid), Mean(valid);
            var current := valid[|valid| - 1];
            && lo <= mean <= hi
            && lo <= current <= hi
            && Some(lo) in data && Some(hi) in data
            && (forall i :: 0 <= i < |data| && data[i].Some? ==> lo <= data[i].value <= hi)
            && exists i :: IsLastPresent(data, i, current)
  {
    var valid := DropMissing(data);
    MeanBetween(valid, SeqMin(valid), SeqMax(valid));
    PresentWithin(data);
    LastPresent(data, valid[|valid| - 1]);
  }

  /** The mean lies between any lower and upper bound of the values. */
  lemma MeanBetween(xs: seq<real>, lo: real, hi: real)
    requires |xs| > 0
    requires forall i :: 0 <= i < |xs| ==> lo <= xs[i] <= hi
    ensures lo <= Mean(xs) <= hi
  {
    SumBetween(xs, lo, hi);
    DivBetween(Sum(xs), |xs| as real, lo, hi);
  }

  lemma PresentWithin(data: seq<Option<real>>)
    requires |DropMissing(data)| > 0
    ensures var valid := DropMissing(data);
            forall i :: 0 <= i < |data| && data[i].Some? ==> SeqMin(valid) <= data[i].value <= SeqMax(valid)
  {
    var valid := DropMissing(data);
    forall i | 0 <= i < |data| && data[i].Some?
      ensures SeqMin(valid) <= data[i].value <= SeqMax(valid)
    {
      assert Some(data[i].value) in data;
      var k :| 0 <= k < |valid| && valid[k] == data[i].value;
    }
  }

  // ---------------------------------------------------------------------
  // pct_bullish / pct_bearish of get_deviation_stats
  // ---------------------------------------------------------------------

  function CountPositive(xs: seq<real>): nat
    decreases |xs|
  {
    if |xs| == 0 then 0 else (if xs[0] > 0.0 then 1 else 0) + CountPositive(xs[1..])
  }

  function CountNegative(xs: seq<real>): nat
    decreases |xs|
  {
    if |xs| == 0 then 0 else (if xs[0] < 0.0 then 1 else 0) + CountNegative(xs[1..])
  }

  function CountZero(xs: seq<real>): nat
    decreases |xs|
  {
    if |xs| == 0 then 0 else (if xs[0] == 0.0 then 1 else 0) + CountZero(xs[1..])
  }

  /** Every deviation is positive, negative or zero, exactly one of them. */
  lemma {:induction false} CountsPartition(xs: seq<real>)
    ensures CountPositive(xs) + CountNegative(xs) + CountZero(xs) == |xs|
    ensures CountZero(xs) == 0 <==> 0.0 !in xs
    decreases |xs|
  {
    if |xs| > 0 {
      CountsPartition(xs[1..]);
      assert xs == [xs[0]] + xs[1..];
    }
  }

  datatype Percentages = Percentages(bullish: real, bearish: real)

  /** Two disjoint counts out of n, as percentages, stay within 100 and
      reach it together exactly when they cover all n. */
  lemma ShareBounds(pos: nat, neg: nat, n: nat)
    requires n > 0 && pos + neg <= n
    ensures var p, q := pos as real / n as real * 100.0, neg as real / n as real * 100.0;
            && 0.0 <= p <= 100.0 && 0.0 <= q <= 100.0 && p + q <= 100.0
            && (p + q == 100.0 <==> pos + neg == n)
  {
    var d := n as real;
    DivBetween(pos as real, d, 0.0, 1.0);
    DivBetween(neg as real, d, 0.0, 1.0);
    DivBetween((pos + neg) as real, d, 0.0, 1.0);
    DivAdd(pos as real, neg as real, d);
    if (pos + neg) as real / d == 1.0 {
      assert (pos + neg) as real == ((pos + neg) as real / d) * d;
    }
  }

  /** Shares (in percent) of present deviations above and below zero; both
      0 when none is present. Zero deviations count in neither share. */
  function DeviationPercentages(deviations: seq<Option<real>>): (p: Percentages)
    ensures 0.0 <= p.bullish <= 100.0 && 0.0 <= p.bearish <= 100.0
    ensures p.bullish + p.bearish <= 100.0
    ensures (forall i :: 0 <= i < |deviations| ==> deviations[i].None?) ==> p == Percentages(0.0, 0.0)
    ensures (exists i :: 0 <= i < |deviations| && deviations[i].Some?) ==>
              (p.bullish + p.bearish == 100.0 <==> Some(0.0) !in deviations)
    ensures CountPresent(deviations) > 0 ==>
              && p.bullish == CountPresentPositive(deviations) as real / CountPresent(deviations) as real * 100.0
              && p.bearish == CountPresentNegative(deviations) as real / CountPresent(deviations) as real * 100.0
  {
    var valid := DropMissing(deviations);
    PresentCountAndSum(deviations);
    PresentSignCounts(deviations);
    if |valid| == 0 then Percentages(0.0, 0.0)
    else
      var n := |valid|;
      var pos, neg := CountPositive(valid), CountNegative(valid);
      CountsPartition(valid);
      assert 0.0 !in valid <==> Some(0.0) !in deviations;
      ShareBounds(pos, neg, n);
      Percentages(pos as real / n as real * 100.0, neg as real / n as real * 100.0)
  }

  /** `get_deviation_stats` on an already computed deviation series. */
  datatype DeviationSummary = DeviationSummary(stats: Option<Stats>, shares: Percentages)

  function DeviationStats(deviations: seq<Option<real>>): (r: DeviationSummary)
    ensures r.stats.None? ==> r.shares == Percentages(0.0, 0.0)
    ensures r.stats.Some? && r.stats.value.min > 0.0 ==> r.shares == Percentages(100.0, 0.0)
    ensures r.stats.Some? && r.stats.value.max < 0.0 ==> r.shares == Percentages(0.0, 100.0)
    ensures r.stats == CalculateStats(deviations) && r.shares == DeviationPercentages(deviations)
  {
    var stats := CalculateStats(deviations);
    SharesOfSignedSeries(deviations);
    DeviationSummary(stats, DeviationPercentages(deviations))
  }

  /** A series whose present values are all positive (all negative) is
      100% bullish (bearish). */
  lemma SharesOfSignedSeries(deviations: seq<Option<real>>)
    ensures var valid := DropMissing(deviations);
            |valid| > 0 ==>
              && (SeqMin(valid) > 0.0 ==> DeviationPercentages(deviations) == Percentages(100.0, 0.0))
              && (SeqMax(valid) < 0.0 ==> DeviationPercentages(deviations) == Percentages(0.0, 100.0))
  {
    var valid := DropMissing(deviations);
    if |valid| > 0 {
      var n := |valid| as real;
      AllPositive(valid, SeqMin(valid));
      AllNegative(valid, SeqMax(valid));
      CountsPartition(valid);
      DivSelf(n);
    }
  }

  lemma {:induction false} AllPositive(xs: seq<real>, lo: real)
    ensures lo > 0.0 && (forall i :: 0 <= i < |xs| ==> lo <= xs[i]) ==> CountPositive(xs) == |xs|
    decreases |xs|
  {
    if |xs| > 0 { AllPositive(xs[1..], lo); }
  }

  lemma {:induction false} AllNegative(xs: seq<real>, hi: real)
    ensures hi < 0.0 && (forall i :: 0 <= i < |xs| ==> xs[i] <= hi) ==> CountNegative(xs) == |xs|
    decreases |xs|
  {
    if |xs| > 0 { AllNegative(xs[1..], hi); }
  }
}
