/**
  The main-versus-secondary aggregation of `plot_all_days_histogram` in app.py,
  without the chart it draws.

  The five meters' normalized series are concatenated and every numeric column
  is summed per (minute, Type).  The Secondary totals are subtracted from the
  Main totals minute by minute; a minute that only one class has gives a
  missing value (NaN), which the daily sum then skips.  The differences are
  finally summed per calendar day.

  Each numeric column is summed on its own, so the sums are stated for one
  column `c` at a time.
*/
module Aggregation {
  import opened Wrappers
  import opened Normalizer

  /** The numeric columns that groupby(...).sum() adds up. */
  datatype Column = ReadingColumn | AmountColumn | FlowColumn

  function Cell(r: Row, c: Column): real {
    match c
    case ReadingColumn => r.reading
    case AmountColumn => r.amount
    case FlowColumn => r.flow
  }

  /** One row of the daily frame: the day's sum of each numeric column. */
  datatype Totals = Totals(reading: real, amount: real, flow: real)

  /** The keys of the five meters, in the order their series are concatenated. */
  const FileKeys: seq<string> := ["6", "8", "10", "12", "All"]

  const MinutesPerDay: int := 1440

  /** The KeyErrors the aggregation can raise: a meter key missing from the readings, or a class with no row. */
  datatype AggregationError = MissingKey(key: string) | MissingType(kind: MeterType)

  /**
    The series of the given keys, in order (the list comprehension over file_keys);
    the first key that has no series raises.
  */
  function Gather(readings: map<string, seq<Row>>, keys: seq<string>): (r: Result<seq<seq<Row>>, AggregationError>)
    ensures r.Success? <==> forall i :: 0 <= i < |keys| ==> keys[i] in readings
    ensures r.Success? ==> |r.value| == |keys| && forall i :: 0 <= i < |keys| ==> r.value[i] == readings[keys[i]]
    ensures r.Failure? ==> exists i :: 0 <= i < |keys| && r.error == MissingKey(keys[i]) && keys[i] !in readings
                                       && forall j :: 0 <= j < i ==> keys[j] in readings
  {
    if keys == [] then Success([])
    else if keys[0] !in readings then Failure(MissingKey(keys[0]))
    else
      match Gather(readings, keys[1..])
      case Success(rest) => Success([readings[keys[0]]] + rest)
      case Failure(e) => Failure(e)
  }

  /** pd.concat along the rows: the series one after the other. */
  function Concat(series: seq<seq<Row>>): (all: seq<Row>)
    ensures forall r :: r in all <==> exists i :: 0 <= i < |series| && r in series[i]
    ensures |all| == TotalRows(series)
  {
    if series == [] then [] else series[0] + Concat(series[1..])
  }

  /** The number of rows of all the series together. */
  function TotalRows(series: seq<seq<Row>>): nat {
    if series == [] then 0 else |series[0]| + TotalRows(series[1..])
  }

  /** The cell (t, kind) of column c in groupby(['Date', 'Type']).sum(): the sum over the rows with that key. */
  function GroupTotal(rows: seq<Row>, t: int, kind: MeterType, c: Column): (total: real)
    ensures !Present(rows, t, kind) ==> total == 0.0
  {
    if rows == [] then 0.0
    else (if rows[0].minute == t && rows[0].kind == kind then Cell(rows[0], c) else 0.0) + GroupTotal(rows[1..], t, kind, c)
  }

  /** Some row has the key (t, kind), so the grouped frame has that index entry. */
  predicate Present(rows: seq<Row>, t: int, kind: MeterType) {
    exists j :: 0 <= j < |rows| && rows[j].minute == t && rows[j].kind == kind
  }

  /** Both classes have minute t, so main - secondary is a number there rather than NaN. */
  predicate Both(rows: seq<Row>, t: int) {
    Present(rows, t, Main) && Present(rows, t, Secondary)
  }

  /** Some row is of the given class, so selecting that class with .loc succeeds. */
  predicate HasType(rows: seq<Row>, kind: MeterType) {
    exists j :: 0 <= j < |rows| && rows[j].kind == kind
  }

  /** main - secondary at minute t, aligned on the minute: missing unless both classes have it. */
  function MinuteDiff(rows: seq<Row>, t: int, c: Column): (d: Option<real>)
    ensures d.Some? <==> Both(rows, t)
  {
    if Both(rows, t) then Some(GroupTotal(rows, t, Main, c) - GroupTotal(rows, t, Secondary, c)) else None
  }

  /** The calendar day of minute t (its `.date`), counted from the epoch's midnight. */
  function Day(t: int): (d: int)
    ensures d * MinutesPerDay <= t < d * MinutesPerDay + MinutesPerDay
  {
    t / MinutesPerDay
  }

  function DayStart(d: int): int {
    d * MinutesPerDay
  }

  /** The sum of the minute differences over the n minutes from lo, a missing one adding nothing. */
  function DiffOver(rows: seq<Row>, lo: int, n: nat, c: Column): (total: real)
    ensures (forall t :: lo <= t < lo + n ==> !Both(rows, t)) ==> total == 0.0
    decreases n
  {
    if n == 0 then 0.0 else DiffOver(rows, lo, n - 1, c) + MinuteDiff(rows, lo + n - 1, c).GetOr(0.0)
  }

  /** The day's entry of groupby('Day').sum() for column c. */
  function DaySum(rows: seq<Row>, d: int, c: Column): (total: real)
    ensures (forall t :: DayStart(d) <= t < DayStart(d) + MinutesPerDay ==> !Both(rows, t)) ==> total == 0.0
  {
    DiffOver(rows, DayStart(d), MinutesPerDay, c)
  }

  /** The days that have at least one row: the index of the daily frame. */
  function Days(rows: seq<Row>): set<int> {
    set j | 0 <= j < |rows| :: Day(rows[j].minute)
  }

  /**
    From the concatenated rows to the daily frame: select the Main totals, then
    the Secondary totals (either selection raises when the class is absent),
    subtract them minute by minute and sum each day.
  */
  function DailyOf(all: seq<Row>): (r: Result<map<int, Totals>, AggregationError>)
    ensures r.Success? <==> HasType(all, Main) && HasType(all, Secondary)
    ensures !HasType(all, Main) ==> r == Failure(MissingType(Main))
    ensures HasType(all, Main) && !HasType(all, Secondary) ==> r == Failure(MissingType(Secondary))
    ensures r.Success? ==> forall d :: d in r.value <==> exists j :: 0 <= j < |all| && Day(all[j].minute) == d
  {
    if !HasType(all, Main) then Failure(MissingType(Main))
    else if !HasType(all, Secondary) then Failure(MissingType(Secondary))
    else Success(map d | d in Days(all) :: Totals(DaySum(all, d, ReadingColumn), DaySum(all, d, AmountColumn), DaySum(all, d, FlowColumn)))
  }

  /** The aggregation of plot_all_days_histogram, from the readings dictionary to the daily differences. */
  function DailyDifference(readings: map<string, seq<Row>>): (r: Result<map<int, Totals>, AggregationError>)
    ensures (forall i :: 0 <= i < |FileKeys| ==> FileKeys[i] in readings) <==> !(r.Failure? && r.error.MissingKey?)
    ensures r.Failure? && r.error.MissingKey? ==> r.error.key in FileKeys && r.error.key !in readings
  {
    match Gather(readings, FileKeys)
    case Failure(e) => Failure(e)
    case Success(series) => DailyOf(Concat(series))
  }

  /** A row's contribution to Main - Secondary: its cell for Main, the negated cell for Secondary. */
  function Signed(r: Row, c: Column): real {
    if r.kind == Main then Cell(r, c) else -Cell(r, c)
  }

  /**
    Row by row: the signed cells of the rows of `part` whose minute lies in the
    n minutes from lo and is one at which `all` has both classes.
  */
  function SignedOver(all: seq<Row>, part: seq<Row>, lo: int, n: nat, c: Column): real {
    if part == [] then 0.0
    else (if lo <= part[0].minute < lo + n && Both(all, part[0].minute) then Signed(part[0], c) else 0.0)
         + SignedOver(all, part[1..], lo, n, c)
  }

  /** Minute by minute, the Main minus Secondary totals of `part` at the minutes where `all` has both classes. */
  ghost function SplitDiff(all: seq<Row>, part: seq<Row>, lo: int, n: nat, c: Column): real
    decreases n
  {
    if n == 0 then 0.0
    else SplitDiff(all, part, lo, n - 1, c)
         + (if Both(all, lo + n - 1) then GroupTotal(part, lo + n - 1, Main, c) - GroupTotal(part, lo + n - 1, Secondary, c) else 0.0)
  }

  /** Grouping distributes over concatenation. */
  lemma {:induction false} GroupTotalAppend(a: seq<Row>, b: seq<Row>, t: int, kind: MeterType, c: Column)
    ensures GroupTotal(a + b, t, kind, c) == GroupTotal(a, t, kind, c) + GroupTotal(b, t, kind, c)
  {
    if a != [] {
      assert (a + b)[1..] == a[1..] + b;
      GroupTotalAppend(a[1..], b, t, kind, c);
    } else {
      assert a + b == b;
    }
  }

  /** The per-meter totals of one key, added over the meters. */
  function MeterSum(series: seq<seq<Row>>, t: int, kind: MeterType, c: Column): real {
    if series == [] then 0.0 else GroupTotal(series[0], t, kind, c) + MeterSum(series[1..], t, kind, c)
  }

  /** The grouped total over the concatenation is the sum over the meters of each meter's total. */
  lemma {:induction false} GroupTotalConcat(series: seq<seq<Row>>, t: int, kind: MeterType, c: Column)
    ensures GroupTotal(Concat(series), t, kind, c) == MeterSum(series, t, kind, c)
  {
    if series != [] {
      GroupTotalAppend(series[0], Concat(series[1..]), t, kind, c);
      GroupTotalConcat(series[1..], t, kind, c);
    }
  }

  /** A series with one row per minute from base, all of one class, totals to its row at t or to nothing. */
  lemma {:induction false} GridGroupTotal(rows: seq<Row>, base: int, k0: MeterType, t: int, kind: MeterType, c: Column)
    requires forall i :: 0 <= i < |rows| ==> rows[i].minute == base + i && rows[i].kind == k0
    ensures GroupTotal(rows, t, kind, c) == if kind == k0 && base <= t < base + |rows| then Cell(rows[t - base], c) else 0.0
  {
    if rows != [] {
      GridGroupTotal(rows[1..], base + 1, k0, t, kind, c);
      if kind == k0 && base < t < base + |rows| {
        assert rows[1..][t - (base + 1)] == rows[t - base];
      }
    }
  }

  /** A normalized meter contributes to (t, kind) exactly its own row at t, and only to its own class. */
  lemma NormalizedGroupTotal(s: seq<Sample>, meter: string, rows: seq<Row>, t: int, kind: MeterType, c: Column)
    requires IsNormalized(s, meter, rows)
    ensures GroupTotal(rows, t, kind, c) ==
              if kind == TypeOf(meter) && First(s) <= t <= Last(s) then Cell(rows[t - First(s)], c) else 0.0
  {
    forall i | 0 <= i < |rows|
      ensures rows[i].minute == First(s) + i && rows[i].kind == TypeOf(meter)
    {
      assert OnGrid(s, meter, rows[i], First(s) + i);
    }
    GridGroupTotal(rows, First(s), TypeOf(meter), t, kind, c);
  }

  /** The differences of a range of minutes, taken on `all` itself. */
  lemma {:induction false} DiffOverIsSplit(all: seq<Row>, lo: int, n: nat, c: Column)
    ensures DiffOver(all, lo, n, c) == SplitDiff(all, all, lo, n, c)
  {
    if n > 0 {
      DiffOverIsSplit(all, lo, n - 1, c);
    }
  }

  /** With no rows every total is 0, so the differences add up to 0. */
  lemma {:induction false} SplitDiffEmpty(all: seq<Row>, lo: int, n: nat, c: Column)
    ensures SplitDiff(all, [], lo, n, c) == 0.0
  {
    if n > 0 {
      SplitDiffEmpty(all, lo, n - 1, c);
    }
  }

  /** One more row in `part` adds its signed cell once, at its own minute, when that minute counts. */
  lemma {:induction false} SplitDiffCons(all: seq<Row>, p: Row, rest: seq<Row>, lo: int, n: nat, c: Column)
    ensures SplitDiff(all, [p] + rest, lo, n, c) ==
              SplitDiff(all, rest, lo, n, c) + (if lo <= p.minute < lo + n && Both(all, p.minute) then Signed(p, c) else 0.0)
  {
    if n > 0 {
      SplitDiffCons(all, p, rest, lo, n - 1, c);
      assert ([p] + rest)[1..] == rest;
    }
  }

  /** Summing minute by minute and summing row by row give the same difference. */
  lemma {:induction false} SplitIsSigned(all: seq<Row>, part: seq<Row>, lo: int, n: nat, c: Column)
    ensures SplitDiff(all, part, lo, n, c) == SignedOver(all, part, lo, n, c)
  {
    if part == [] {
      SplitDiffEmpty(all, lo, n, c);
    } else {
      assert part == [part[0]] + part[1..];
      SplitDiffCons(all, part[0], part[1..], lo, n, c);
      SplitIsSigned(all, part[1..], lo, n, c);
    }
  }

  /**
    A day's difference is the Main rows minus the Secondary rows of that day,
    counting only the minutes that both classes have.
  */
  lemma DaySumIsSigned(all: seq<Row>, d: int, c: Column)
    ensures DaySum(all, d, c) == SignedOver(all, all, DayStart(d), MinutesPerDay, c)
  {
    DiffOverIsSplit(all, DayStart(d), MinutesPerDay, c);
    SplitIsSigned(all, all, DayStart(d), MinutesPerDay, c);
  }

  /** Every entry of the daily frame is that signed sum, column by column. */
  lemma DailyOfMeaning(all: seq<Row>, d: int)
    requires HasType(all, Main) && HasType(all, Secondary)
    requires exists j :: 0 <= j < |all| && Day(all[j].minute) == d
    ensures DailyOf(all).Success? && d in DailyOf(all).value
    ensures DailyOf(all).value[d] == Totals(SignedOver(all, all, DayStart(d), MinutesPerDay, ReadingColumn),
                                            SignedOver(all, all, DayStart(d), MinutesPerDay, AmountColumn),
                                            SignedOver(all, all, DayStart(d), MinutesPerDay, FlowColumn))
  {
    DaySumIsSigned(all, d, ReadingColumn);
    DaySumIsSigned(all, d, AmountColumn);
    DaySumIsSigned(all, d, FlowColumn);
  }

  /** With the five keys present, the aggregation works on the five series concatenated in file_keys order. */
  lemma DailyDifferenceOfFiveMeters(readings: map<string, seq<Row>>)
    requires "6" in readings && "8" in readings && "10" in readings && "12" in readings && "All" in readings
    ensures DailyDifference(readings) ==
              DailyOf(readings["6"] + readings["8"] + readings["10"] + readings["12"] + readings["All"])
  {
    var series := [readings["6"], readings["8"], readings["10"], readings["12"], readings["All"]];
    var g := Gather(readings, FileKeys);
    assert FileKeys[0] == "6" && FileKeys[1] == "8" && FileKeys[2] == "10" && FileKeys[3] == "12" && FileKeys[4] == "All";
    assert g.Success?;
    assert g.value == series;
    ConcatFive(series);
  }

  /** Five series concatenated one after the other. */
  lemma ConcatFive(series: seq<seq<Row>>)
    requires |series| == 5
    ensures Concat(series) == series[0] + series[1] + series[2] + series[3] + series[4]
  {
    var a, b, c, d, e := series[0], series[1], series[2], series[3], series[4];
    assert series[4..][1..] == [];
    assert Concat(series[4..]) == e;
    assert series[3..][1..] == series[4..];
    assert Concat(series[3..]) == d + e;
    assert series[2..][1..] == series[3..];
    assert Concat(series[2..]) == c + (d + e);
    assert series[1..][1..] == series[2..];
    assert Concat(series[1..]) == b + (c + (d + e));
    assert Concat(series) == a + (b + (c + (d + e)));
    assert a + (b + (c + (d + e))) == a + b + c + d + e;
  }

  /** Each meter's series is the normalized series of its samples under its label. */
  predicate AllNormalized(samples: seq<seq<Sample>>, labels: seq<string>, series: seq<seq<Row>>) {
    && |samples| == |labels| == |series|
    && forall i :: 0 <= i < |series| ==> IsNormalized(samples[i], labels[i], series[i])
  }

  /** The sum, over the meters of the given class whose span covers minute t, of their row at t. */
  function ClassSum(samples: seq<seq<Sample>>, labels: seq<string>, series: seq<seq<Row>>, t: int, kind: MeterType, c: Column): real
    requires AllNormalized(samples, labels, series)
  {
    if series == [] then 0.0
    else
      (if TypeOf(labels[0]) == kind && First(samples[0]) <= t <= Last(samples[0]) then Cell(series[0][t - First(samples[0])], c) else 0.0)
      + ClassSum(samples[1..], labels[1..], series[1..], t, kind, c)
  }

  /**
    Over normalized meters, the (minute, Type) total is the sum of that column
    over the meters of that class that have the minute.
  */
  lemma {:induction false} ClassTotalOfNormalized(samples: seq<seq<Sample>>, labels: seq<string>, series: seq<seq<Row>>, t: int, kind: MeterType, c: Column)
    requires AllNormalized(samples, labels, series)
    ensures GroupTotal(Concat(series), t, kind, c) == ClassSum(samples, labels, series, t, kind, c)
  {
    if series != [] {
      assert AllNormalized(samples[1..], labels[1..], series[1..]) by {
        forall i | 0 <= i < |series| - 1
          ensures IsNormalized(samples[1..][i], labels[1..][i], series[1..][i])
        {
          assert IsNormalized(samples[i + 1], labels[i + 1], series[i + 1]);
        }
      }
      assert IsNormalized(samples[0], labels[0], series[0]);
      GroupTotalAppend(series[0], Concat(series[1..]), t, kind, c);
      NormalizedGroupTotal(samples[0], labels[0], series[0], t, kind, c);
      ClassTotalOfNormalized(samples[1..], labels[1..], series[1..], t, kind, c);
    }
  }

  /** Where both classes have minute t, main - secondary there is its Main rows minus its Secondary rows. */
  lemma MinuteDiffValue(all: seq<Row>, t: int, c: Column)
    requires Both(all, t)
    ensures MinuteDiff(all, t, c) == Some(SignedOver(all, all, t, 1, c))
  {
    DiffOverIsSplit(all, t, 1, c);
    SplitIsSigned(all, all, t, 1, c);
  }
}
