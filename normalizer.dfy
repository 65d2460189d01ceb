/**
  The per-meter normalizer, `read_remote_readings` in app.py.

  A meter's parsed samples are resampled onto a one-minute grid that runs from
  the first sample to the last.  At a sample's own minute the grid keeps the
  sample's values; every other minute is filled by time-weighted linear
  interpolation between the two samples that bound it.  Each row is then
  tagged with the meter's label and class, and the flow rate is the first
  difference of the cumulative reading.

  Timestamps are whole minutes counted from a midnight epoch; readings and
  amounts are exact reals.
*/
module Normalizer {

  /** One parsed CSV row: the minute it was taken at, the cumulative reading and the amount. */
  datatype Sample = Sample(minute: int, reading: real, amount: real)

  /** The two sampled quantities that are interpolated onto the grid. */
  datatype Measure = Reading | Amount

  function Value(x: Sample, m: Measure): real {
    match m
    case Reading => x.reading
    case Amount => x.amount
  }

  /** The meter class, written to the `Type` column. */
  datatype MeterType = Main | Secondary

  /** One row of the normalized series: the (Date, Meter, Type) key and the three numeric columns. */
  datatype Row = Row(minute: int, meter: string, kind: MeterType, reading: real, amount: real, flow: real)

  /** The label reserved for the meter that measures the whole site. */
  const AllBuildings: string := "All Buildings"

  /** The class of a meter depends on its label only, and is Main exactly for the whole-site label. */
  function TypeOf(meter: string): (t: MeterType)
    ensures t == Main <==> meter == AllBuildings
    ensures t == Secondary <==> meter != AllBuildings
  {
    if meter == AllBuildings then Main else Secondary
  }

  /** Sample minutes strictly increase: no duplicates and already in date order. */
  predicate Increasing(s: seq<Sample>) {
    forall i, j :: 0 <= i < j < |s| ==> s[i].minute < s[j].minute
  }

  /** What the normalizer demands of its input: at least one sample, sorted, no duplicate minute. */
  predicate ValidSamples(s: seq<Sample>) {
    |s| > 0 && Increasing(s)
  }

  function First(s: seq<Sample>): int
    requires |s| > 0
  {
    s[0].minute
  }

  function Last(s: seq<Sample>): int
    requires |s| > 0
  {
    s[|s| - 1].minute
  }

  /**
    Time-weighted linear interpolation between (t0, v0) and (t1, v1) at minute t:
    the point (t, v) lies on the line through the two samples, so v moves from v0
    in proportion to the time elapsed since t0.
  */
  function Interpolate(t0: int, v0: real, t1: int, v1: real, t: int): (v: real)
    requires t0 < t1
    ensures (v - v0) * (t1 - t0) as real == (v1 - v0) * (t - t0) as real
    ensures t == t0 ==> v == v0
    ensures t == t1 ==> v == v1
  {
    var d := (t1 - t0) as real;
    var w := (t - t0) as real / d;
    assert w * d == (t - t0) as real;
    v0 + (v1 - v0) * w
  }

  /**
    The value of measure m that the resampled, interpolated series holds at
    minute t: the sample's own value at a sample minute, otherwise the
    interpolation between the two consecutive samples around t.
  */
  function ValueAt(s: seq<Sample>, m: Measure, t: int): (v: real)
    requires ValidSamples(s) && First(s) <= t <= Last(s)
    ensures t == First(s) ==> v == Value(s[0], m)
    ensures t == Last(s) ==> v == Value(s[|s| - 1], m)
    decreases |s|
  {
    if t == s[0].minute then Value(s[0], m)
    else if t < s[1].minute then Interpolate(s[0].minute, Value(s[0], m), s[1].minute, Value(s[1], m), t)
    else ValueAt(s[1..], m, t)
  }

  /** The index k of the consecutive samples with s[k].minute <= t < s[k + 1].minute. */
  function SegmentOf(s: seq<Sample>, t: int): (k: nat)
    requires ValidSamples(s) && First(s) <= t < Last(s)
    ensures k < |s| - 1 && s[k].minute <= t < s[k + 1].minute
    decreases |s|
  {
    if t < s[1].minute then 0 else 1 + SegmentOf(s[1..], t)
  }

  /** Row r is the grid row of minute t for this meter. */
  predicate OnGrid(s: seq<Sample>, meter: string, r: Row, t: int)
    requires ValidSamples(s) && First(s) <= t <= Last(s)
  {
    && r.minute == t
    && r.meter == meter
    && r.kind == TypeOf(meter)
    && r.reading == ValueAt(s, Reading, t)
    && r.amount == ValueAt(s, Amount, t)
  }

  /** The flow column is the first difference of the reading column, with 0 in the first row. */
  predicate FlowIsDiff(rows: seq<Row>) {
    && (|rows| > 0 ==> rows[0].flow == 0.0)
    && forall i :: 0 < i < |rows| ==> rows[i].flow == rows[i].reading - rows[i - 1].reading
  }

  /** rows is the normalized series of the samples s read for the meter labelled `meter`. */
  predicate IsNormalized(s: seq<Sample>, meter: string, rows: seq<Row>) {
    && ValidSamples(s)
    && |rows| == Last(s) - First(s) + 1
    && (forall i :: 0 <= i < |rows| ==> OnGrid(s, meter, rows[i], First(s) + i))
    && FlowIsDiff(rows)
  }

  /**
    One grid minute t of the resampling: advances the sample cursor k to the
    last sample at or before t, then keeps that sample's values when t is its
    minute (asfreq) or interpolates towards the next sample (interpolate).
  */
  method ValuesAt(samples: seq<Sample>, k0: nat, t: int) returns (k: nat, reading: real, amount: real)
    requires ValidSamples(samples) && k0 < |samples| && samples[k0].minute <= t <= Last(samples)
    ensures k0 <= k < |samples| && samples[k].minute <= t
    ensures k + 1 == |samples| || t < samples[k + 1].minute
    ensures reading == ValueAt(samples, Reading, t) && amount == ValueAt(samples, Amount, t)
  {
    k := k0;
    while k + 1 < |samples| && samples[k + 1].minute <= t
      invariant k0 <= k < |samples| && samples[k].minute <= t
    {
      k := k + 1;
    }
    if t == samples[k].minute {
      ValueAtSample(samples, Reading, k);
      ValueAtSample(samples, Amount, k);
      reading, amount := samples[k].reading, samples[k].amount;
    } else {
      ValueAtSegment(samples, Reading, k, t);
      ValueAtSegment(samples, Amount, k, t);
      reading := Interpolate(samples[k].minute, samples[k].reading, samples[k + 1].minute, samples[k + 1].reading, t);
      amount := Interpolate(samples[k].minute, samples[k].amount, samples[k + 1].minute, samples[k + 1].amount, t);
    }
  }

  /**
    Normalizes one meter's samples: one row per minute from the first sample to
    the last, Reading and Amount interpolated in time, Type and Meter tagged,
    and FlowRateM3PerMinute filled as the first difference of Reading.
  */
  method Normalize(samples: seq<Sample>, meter: string) returns (rows: seq<Row>)
    requires ValidSamples(samples)
    ensures IsNormalized(samples, meter, rows)
  {
    var first := samples[0].minute;
    var n := samples[|samples| - 1].minute - first + 1;
    var kind := TypeOf(meter);
    var frame := new Row[n];

    // Resample to one row per minute: a sample minute keeps its values, a gap
    // is interpolated between the samples k and k + 1 that bound it.
    var k := 0;
    for i := 0 to n
      invariant 0 <= k < |samples| && samples[k].minute <= first + i
      invariant forall j :: 0 <= j < i ==> OnGrid(samples, meter, frame[j], first + j) && frame[j].flow == 0.0
    {
      var t := first + i;
      var reading, amount;
      k, reading, amount := ValuesAt(samples, k, t);
      frame[i] := Row(t, meter, kind, reading, amount, 0.0);
    }

    // FlowRateM3PerMinute: difference to the previous row's reading; the first
    // row has no predecessor and keeps 0.
    for i := 1 to n
      invariant forall j :: 0 <= j < n ==> OnGrid(samples, meter, frame[j], first + j)
      invariant frame[0].flow == 0.0
      invariant forall j :: 0 < j < i ==> frame[j].flow == frame[j].reading - frame[j - 1].reading
    {
      frame[i] := frame[i].(flow := frame[i].reading - frame[i - 1].reading);
    }
    rows := frame[..];
  }

  /** Between two consecutive samples the series is their time-weighted interpolation. */
  lemma {:induction false} ValueAtSegment(s: seq<Sample>, m: Measure, k: nat, t: int)
    requires ValidSamples(s) && k < |s| - 1 && s[k].minute <= t < s[k + 1].minute
    ensures ValueAt(s, m, t) == Interpolate(s[k].minute, Value(s[k], m), s[k + 1].minute, Value(s[k + 1], m), t)
  {
    if k > 0 {
      ValueAtSegment(s[1..], m, k - 1, t);
    }
  }

  /** At every sample minute the series holds that sample's value unchanged. */
  lemma {:induction false} ValueAtSample(s: seq<Sample>, m: Measure, j: nat)
    requires ValidSamples(s) && j < |s|
    ensures ValueAt(s, m, s[j].minute) == Value(s[j], m)
  {
    if j > 0 {
      ValueAtSample(s[1..], m, j - 1);
    }
  }

  /** An interpolated value lies between the two samples it is interpolated from. */
  lemma InterpolateBetween(t0: int, v0: real, t1: int, v1: real, t: int)
    requires t0 <= t <= t1 && t0 < t1
    ensures v0 <= v1 ==> v0 <= Interpolate(t0, v0, t1, v1, t) <= v1
    ensures v1 <= v0 ==> v1 <= Interpolate(t0, v0, t1, v1, t) <= v0
  {
    var d := (t1 - t0) as real;
    var w := (t - t0) as real / d;
    assert 0.0 <= w <= 1.0;
    var rise := v1 - v0;
    var step := rise * w;
    assert Interpolate(t0, v0, t1, v1, t) == v0 + step;
    ScaleByFraction(rise, w);
    if v0 <= v1 {
      assert 0.0 <= step <= rise;
    } else {
      assert rise <= step <= 0.0;
    }
  }

  /** A fraction in [0, 1] of an amount lies between 0 and the amount. */
  lemma ScaleByFraction(a: real, w: real)
    requires 0.0 <= w <= 1.0
    ensures 0.0 <= a ==> 0.0 <= a * w <= a
    ensures a <= 0.0 ==> a <= a * w <= 0.0
  {
    var rest := 1.0 - w;
    assert 0.0 <= rest;
    assert a * w + a * rest == a;
    if 0.0 <= a {
      assert 0.0 <= a * w;
      assert 0.0 <= a * rest;
    } else {
      var b := -a;
      assert 0.0 <= b * w && 0.0 <= b * rest;
      assert a * w == -(b * w) && a * rest == -(b * rest);
    }
  }

  /** Interpolation towards a larger sample grows with time. */
  lemma InterpolateGrows(t0: int, v0: real, t1: int, v1: real, t: int, u: int)
    requires t0 < t1 && t <= u && v0 <= v1
    ensures Interpolate(t0, v0, t1, v1, t) <= Interpolate(t0, v0, t1, v1, u)
  {
    var d := (t1 - t0) as real;
    var w, w' := (t - t0) as real / d, (u - t0) as real / d;
    assert w <= w';
    assert (v1 - v0) * w <= (v1 - v0) * w';
  }

  /** Every grid value lies between the two consecutive samples that bound its minute. */
  lemma ValueAtBetween(s: seq<Sample>, m: Measure, k: nat, t: int)
    requires ValidSamples(s) && k < |s| - 1 && s[k].minute <= t <= s[k + 1].minute
    ensures Value(s[k], m) <= Value(s[k + 1], m) ==> Value(s[k], m) <= ValueAt(s, m, t) <= Value(s[k + 1], m)
    ensures Value(s[k + 1], m) <= Value(s[k], m) ==> Value(s[k + 1], m) <= ValueAt(s, m, t) <= Value(s[k], m)
  {
    if t == s[k + 1].minute {
      ValueAtSample(s, m, k + 1);
    } else {
      ValueAtSegment(s, m, k, t);
      InterpolateBetween(s[k].minute, Value(s[k], m), s[k + 1].minute, Value(s[k + 1], m), t);
    }
  }

  /** The samples of measure m never decrease (a cumulative meter reading). */
  predicate NonDecreasing(s: seq<Sample>, m: Measure) {
    forall i, j :: 0 <= i < j < |s| ==> Value(s[i], m) <= Value(s[j], m)
  }

  /** Non-decreasing samples give a grid value that does not drop from one minute to the next. */
  lemma ValueAtStep(s: seq<Sample>, m: Measure, t: int)
    requires ValidSamples(s) && NonDecreasing(s, m) && First(s) <= t < Last(s)
    ensures ValueAt(s, m, t) <= ValueAt(s, m, t + 1)
  {
    var k := SegmentOf(s, t);
    ValueAtSegment(s, m, k, t);
    if t + 1 == s[k + 1].minute {
      ValueAtSample(s, m, k + 1);
      InterpolateBetween(s[k].minute, Value(s[k], m), s[k + 1].minute, Value(s[k + 1], m), t);
    } else {
      ValueAtSegment(s, m, k, t + 1);
      InterpolateGrows(s[k].minute, Value(s[k], m), s[k + 1].minute, Value(s[k + 1], m), t, t + 1);
    }
  }

  /** Non-decreasing samples give a non-decreasing grid series. */
  lemma {:induction false} ValueAtMonotone(s: seq<Sample>, m: Measure, t: int, u: int)
    requires ValidSamples(s) && NonDecreasing(s, m) && First(s) <= t <= u <= Last(s)
    ensures ValueAt(s, m, t) <= ValueAt(s, m, u)
    decreases u - t
  {
    if t < u {
      ValueAtStep(s, m, t);
      ValueAtMonotone(s, m, t + 1, u);
    }
  }

  /** Normalizing the same samples for the same meter can give only one series. */
  lemma NormalizedIsUnique(s: seq<Sample>, meter: string, rows: seq<Row>, rows': seq<Row>)
    requires IsNormalized(s, meter, rows) && IsNormalized(s, meter, rows')
    ensures rows == rows'
  {
    forall i | 0 <= i < |rows|
      ensures rows[i] == rows'[i]
    {
      assert OnGrid(s, meter, rows[i], First(s) + i) && OnGrid(s, meter, rows'[i], First(s) + i);
      if i > 0 {
        assert OnGrid(s, meter, rows[i - 1], First(s) + i - 1) && OnGrid(s, meter, rows'[i - 1], First(s) + i - 1);
      }
    }
  }

  /** The row of every sample minute holds that sample's Reading and Amount unchanged. */
  lemma NormalizedKeepsSamples(s: seq<Sample>, meter: string, rows: seq<Row>, j: nat)
    requires IsNormalized(s, meter, rows) && j < |s|
    ensures 0 <= s[j].minute - First(s) < |rows|
    ensures rows[s[j].minute - First(s)].reading == s[j].reading
    ensures rows[s[j].minute - First(s)].amount == s[j].amount
  {
    var i := s[j].minute - First(s);
    assert OnGrid(s, meter, rows[i], First(s) + i);
    ValueAtSample(s, Reading, j);
    ValueAtSample(s, Amount, j);
  }

  /** A meter whose samples never decrease has no negative flow. */
  lemma NormalizedFlowNonNegative(s: seq<Sample>, meter: string, rows: seq<Row>)
    requires IsNormalized(s, meter, rows) && NonDecreasing(s, Reading)
    ensures forall i :: 0 <= i < |rows| ==> rows[i].flow >= 0.0
  {
    forall i | 0 < i < |rows|
      ensures rows[i].flow >= 0.0
    {
      assert OnGrid(s, meter, rows[i - 1], First(s) + i - 1);
      assert OnGrid(s, meter, rows[i], First(s) + i);
      ValueAtStep(s, Reading, First(s) + i - 1);
    }
  }

  /** The sum of the flow column. */
  function FlowSum(rows: seq<Row>): real {
    if rows == [] then 0.0 else FlowSum(rows[..|rows| - 1]) + rows[|rows| - 1].flow
  }

  /** A first difference telescopes: its sum is the last reading minus the first. */
  lemma {:induction false} FlowTelescopes(rows: seq<Row>)
    requires |rows| > 0 && FlowIsDiff(rows)
    ensures FlowSum(rows) == rows[|rows| - 1].reading - rows[0].reading
  {
    if |rows| > 1 {
      var prefix := rows[..|rows| - 1];
      assert FlowIsDiff(prefix) by {
        forall i | 0 < i < |prefix|
          ensures prefix[i].flow == prefix[i].reading - prefix[i - 1].reading
        {
          assert prefix[i] == rows[i] && prefix[i - 1] == rows[i - 1];
        }
      }
      FlowTelescopes(prefix);
    }
  }

  /** Over a whole normalized series the flows add up to the last sample's reading minus the first's. */
  lemma NormalizedFlowTotal(s: seq<Sample>, meter: string, rows: seq<Row>)
    requires IsNormalized(s, meter, rows)
    ensures FlowSum(rows) == s[|s| - 1].reading - s[0].reading
  {
    FlowTelescopes(rows);
    NormalizedKeepsSamples(s, meter, rows, 0);
    NormalizedKeepsSamples(s, meter, rows, |s| - 1);
  }

  /** Readings 100 at 00:00 and 106 at 00:02 give readings 100, 103, 106 and flows 0, 3, 3. */
  lemma ThreeMinuteScenario(meter: string, rows: seq<Row>)
    requires IsNormalized([Sample(0, 100.0, 0.0), Sample(2, 106.0, 0.0)], meter, rows)
    ensures |rows| == 3
    ensures rows[0].reading == 100.0 && rows[1].reading == 103.0 && rows[2].reading == 106.0
    ensures rows[0].flow == 0.0 && rows[1].flow == 3.0 && rows[2].flow == 3.0
  {
    var s := [Sample(0, 100.0, 0.0), Sample(2, 106.0, 0.0)];
    assert OnGrid(s, meter, rows[0], 0) && OnGrid(s, meter, rows[1], 1) && OnGrid(s, meter, rows[2], 2);
  }

  /** 10 at minute 0 and 20 at minute 10 give 13 at minute 3: weighted by time, not by row count. */
  lemma TimeWeightedScenario(meter: string, rows: seq<Row>)
    requires IsNormalized([Sample(0, 10.0, 0.0), Sample(10, 20.0, 0.0)], meter, rows)
    ensures |rows| == 11 && rows[3].reading == 13.0
  {
    var s := [Sample(0, 10.0, 0.0), Sample(10, 20.0, 0.0)];
    assert OnGrid(s, meter, rows[3], 3);
  }
}
