/** The derivations of the statistics page built on the usage-by-day data:
    hours per date (`usageByDate`), the usage KPIs (`usageKpi`), the peak
    day (`peakDayFromUsage`) and the occupation chart
    (`occupationGraphData`), all in src/pages/Stats.jsx. */
module StatsUsage {
  import opened Common
  import opened Calendar
  import opened Buckets
  import opened UsageData

  // ---------------------------------------------------------------------------
  // usageByDate

  /** A `Map` entry: a date and its occupied hours summed over all sensors. */
  type DateHours = (string, real)

  /** The entries of `usageByDate` in the `Map`'s insertion order: each
      date once, in order of first appearance, with the sum of its
      `occupied_hours` (a missing value counting as 0). */
  method UsageByDate(sensors: seq<SensorUsage>) returns (entries: seq<DateHours>)
    ensures var ps := UsageSamples(sensors, Hours);
      |entries| == |DistinctKeys(ps)|
      && forall i :: 0 <= i < |entries| ==>
           entries[i] == (DistinctKeys(ps)[i], Total(ps, DistinctKeys(ps)[i]))
  {
    var acc := BucketByDate(sensors, Hours);
    entries := seq(|acc.order|, i requires 0 <= i < |acc.order| => (acc.order[i], acc.totals[acc.order[i]]));
  }

  function Dates(entries: seq<DateHours>): (ds: seq<string>)
    ensures |ds| == |entries|
    ensures forall i :: 0 <= i < |entries| ==> ds[i] == entries[i].0
  {
    seq(|entries|, i requires 0 <= i < |entries| => entries[i].0)
  }

  function SumHours(entries: seq<DateHours>): real {
    if entries == [] then 0.0 else SumHours(entries[..|entries| - 1]) + entries[|entries| - 1].1
  }

  lemma {:induction false} SumHoursIsSumTotals(ps: seq<Sample>, ks: seq<string>, entries: seq<DateHours>)
    requires |entries| == |ks|
    requires forall i :: 0 <= i < |ks| ==> entries[i] == (ks[i], Total(ps, ks[i]))
    ensures SumHours(entries) == SumTotals(ps, ks)
  {
    if ks != [] {
      SumHoursIsSumTotals(ps, ks[..|ks| - 1], entries[..|entries| - 1]);
    }
  }

  /** The dates of `usageByDate` are distinct and are exactly the dates of
      the days, and its hours add up to all the hours of all the days. */
  lemma UsageByDateConserves(sensors: seq<SensorUsage>, entries: seq<DateHours>)
    requires var ps := UsageSamples(sensors, Hours);
      |entries| == |DistinctKeys(ps)|
      && forall i :: 0 <= i < |entries| ==>
           entries[i] == (DistinctKeys(ps)[i], Total(ps, DistinctKeys(ps)[i]))
    ensures Distinct(Dates(entries))
    ensures forall d :: d in Dates(entries) <==> d in KeysOf(UsageSamples(sensors, Hours))
    ensures SumHours(entries) == SumAmounts(UsageSamples(sensors, Hours))
  {
    var ps := UsageSamples(sensors, Hours);
    assert Dates(entries) == DistinctKeys(ps);
    SumHoursIsSumTotals(ps, DistinctKeys(ps), entries);
    TotalsSumToSamples(ps);
  }

  // ---------------------------------------------------------------------------
  // usageKpi

  /** The share of a day a number of occupied hours stands for, in percent,
      clamped to [0, 100]. */
  function DayPct(h: real): (p: real)
    ensures 0.0 <= p <= 100.0
    ensures 0.0 <= h <= 24.0 ==> p == h / 24.0 * 100.0
  {
    Clamp(0.0, 100.0, h / 24.0 * 100.0)
  }

  lemma DayPctMonotone(h: real, k: real)
    requires h <= k
    ensures DayPct(h) <= DayPct(k)
  {
  }

  function SumPct(entries: seq<DateHours>): real {
    if entries == [] then 0.0 else SumPct(entries[..|entries| - 1]) + DayPct(entries[|entries| - 1].1)
  }

  function SumMinutes(entries: seq<DateHours>): real {
    if entries == [] then 0.0 else SumMinutes(entries[..|entries| - 1]) + entries[|entries| - 1].1 * 60.0
  }

  datatype UsageKpi = UsageKpi(occupationRate: Option<int>, avgDurationMinutes: Option<int>)

  /** No dates give no KPIs; otherwise the rounded mean of the clamped daily
      percentages, which is itself a percentage, and the rounded mean of the
      daily minutes. */
  method ComputeUsageKpi(entries: seq<DateHours>) returns (kpi: UsageKpi)
    ensures entries == [] ==> kpi == UsageKpi(None, None)
    ensures entries != [] ==>
      var n := |entries| as real;
      kpi == UsageKpi(Some(Round(SumPct(entries) / n)), Some(Round(SumMinutes(entries) / n)))
    ensures kpi.occupationRate.Some? ==> 0 <= kpi.occupationRate.value <= 100
  {
    if |entries| == 0 {
      return UsageKpi(None, None);
    }
    var sumPct := 0.0;
    var sumMinutes := 0.0;
    var i := 0;
    while i < |entries|
      invariant 0 <= i <= |entries|
      invariant sumPct == SumPct(entries[..i])
      invariant sumMinutes == SumMinutes(entries[..i])
    {
      var h := entries[i].1;
      sumPct := sumPct + DayPct(h);
      sumMinutes := sumMinutes + h * 60.0;
      assert entries[..i + 1][..i] == entries[..i];
      i := i + 1;
    }
    assert entries[..i] == entries;
    var n := |entries| as real;
    SumPctWithin(entries);
    DivWithin(sumPct, n, 0.0, 100.0);
    RoundWithin(sumPct / n, 0, 100);
    kpi := UsageKpi(Some(Round(sumPct / n)), Some(Round(sumMinutes / n)));
  }

  lemma {:induction false} SumPctWithin(entries: seq<DateHours>)
    ensures 0.0 <= SumPct(entries) <= 100.0 * (|entries| as real)
  {
    if entries != [] { SumPctWithin(entries[..|entries| - 1]); }
  }

  lemma {:induction false} SumMinutesNonNegative(entries: seq<DateHours>)
    requires forall i :: 0 <= i < |entries| ==> entries[i].1 >= 0.0
    ensures SumMinutes(entries) >= 0.0
  {
    if entries != [] { SumMinutesNonNegative(entries[..|entries| - 1]); }
  }

  /** With no negative hours the average duration is not negative. */
  lemma UsageDurationNonNegative(entries: seq<DateHours>)
    requires entries != []
    requires forall i :: 0 <= i < |entries| ==> entries[i].1 >= 0.0
    ensures Round(SumMinutes(entries) / (|entries| as real)) >= 0
  {
    var n := |entries| as real;
    SumMinutesNonNegative(entries);
    var q := SumMinutes(entries) / n;
    assert q * n == SumMinutes(entries);
    NonNegativeFactor(q, n);
  }

  // ---------------------------------------------------------------------------
  // peakDayFromUsage

  /** Index of the first date with the most hours, when some date has more
      than the starting mark of -1 hours. */
  function PeakIndex(entries: seq<DateHours>): (r: Option<nat>)
    ensures r.None? <==> forall t :: 0 <= t < |entries| ==> entries[t].1 <= -1.0
    ensures r.Some? ==>
      && r.value < |entries|
      && (forall t :: 0 <= t < |entries| ==> entries[t].1 <= entries[r.value].1)
      && (forall t :: 0 <= t < r.value ==> entries[t].1 < entries[r.value].1)
  {
    if entries == [] then None
    else
      var init := entries[..|entries| - 1];
      assert forall t :: 0 <= t < |init| ==> init[t] == entries[t];
      var b := PeakIndex(init);
      var h := entries[|entries| - 1].1;
      if (b.None? && h > -1.0) || (b.Some? && h > entries[b.value].1) then Some(|entries| - 1)
      else b
  }

  /** The peak card: the date and its clamped, rounded percentage
      (the French long-date rendering of the date is not modelled). */
  datatype PeakDay = PeakDay(date: string, occupationPct: int)

  method PeakDayFromUsage(entries: seq<DateHours>) returns (peak: Option<PeakDay>)
    ensures PeakIndex(entries).None? ==> peak.None?
    ensures PeakIndex(entries).Some? ==>
      var e := entries[PeakIndex(entries).value];
      (e.0 == "" ==> peak.None?) && (e.0 != "" ==> peak == Some(PeakDay(e.0, Round(DayPct(e.1)))))
    ensures peak.Some? ==> 0 <= peak.value.occupationPct <= 100
  {
    if |entries| == 0 {
      return None;
    }
    var bestDate: Option<string> := None;
    var bestHours := -1.0;
    ghost var idx: Option<nat> := None;
    var i := 0;
    while i < |entries|
      invariant 0 <= i <= |entries|
      invariant idx == PeakIndex(entries[..i])
      invariant idx.None? ==> bestDate.None? && bestHours == -1.0
      invariant idx.Some? ==> idx.value < i && bestDate == Some(entries[idx.value].0) && bestHours == entries[idx.value].1
    {
      var h := entries[i].1;
      assert entries[..i + 1][..i] == entries[..i];
      if h > bestHours {
        bestHours := h;
        bestDate := Some(entries[i].0);
        idx := Some(i);
      }
      i := i + 1;
    }
    assert entries[..i] == entries;
    if bestDate.None? || bestDate.value == "" {
      return None;
    }
    RoundWithin(DayPct(bestHours), 0, 100);
    peak := Some(PeakDay(bestDate.value, Round(DayPct(bestHours))));
  }

  /** When every date has some non-negative number of hours there is always
      a peak date. */
  lemma PeakExists(entries: seq<DateHours>)
    requires entries != []
    requires forall i :: 0 <= i < |entries| ==> entries[i].1 >= 0.0
    ensures PeakIndex(entries).Some?
  {
    assert entries[0].1 > -1.0;
  }

  lemma {:induction false} SumPctAtMost(entries: seq<DateHours>, top: real)
    requires forall t :: 0 <= t < |entries| ==> DayPct(entries[t].1) <= top
    ensures SumPct(entries) <= top * (|entries| as real)
  {
    if entries != [] {
      var init := entries[..|entries| - 1];
      SumPctAtMost(init, top);
      assert SumPct(entries) == SumPct(init) + DayPct(entries[|entries| - 1].1);
      assert top * (|init| as real) + top == top * (|entries| as real);
    }
  }

  /** A mean of clamped percentages none above `top` rounds to at most
      `top` rounded. */
  lemma AverageAtMost(entries: seq<DateHours>, top: real)
    requires entries != []
    requires forall t :: 0 <= t < |entries| ==> DayPct(entries[t].1) <= top
    ensures Round(SumPct(entries) / (|entries| as real)) <= Round(top)
  {
    var n := |entries| as real;
    var sum := SumPct(entries);
    SumPctAtMost(entries, top);
    SumPctWithin(entries);
    DivWithin(sum, n, 0.0, top);
    RoundMonotone(sum / n, top);
  }

  /** The peak day's percentage is never below the average percentage. */
  lemma PeakAtLeastAverage(entries: seq<DateHours>)
    requires PeakIndex(entries).Some?
    ensures var top := DayPct(entries[PeakIndex(entries).value].1);
      Round(SumPct(entries) / (|entries| as real)) <= Round(top)
  {
    var p := PeakIndex(entries).value;
    var h := entries[p].1;
    assert forall t :: 0 <= t < |entries| ==> entries[t].1 <= h;
    forall t | 0 <= t < |entries| ensures DayPct(entries[t].1) <= DayPct(h) {
      DayPctMonotone(entries[t].1, h);
    }
    AverageAtMost(entries, DayPct(h));
  }

  // ---------------------------------------------------------------------------
  // occupationGraphData

  const Jours: seq<string> := ["Dim", "Lun", "Mar", "Mer", "Jeu", "Ven", "Sam"]

  /** "YYYY-MM-DD" with a year of at least 100 (below that `new Date` moves
      the year into the 1900s) and a day that exists in its month. */
  predicate IsoShape(s: string) {
    |s| == 10 && s[4] == '-' && s[7] == '-'
    && AllDigits(s[..4]) && AllDigits(s[5..7]) && AllDigits(s[8..])
  }

  function IsoDateOf(s: string): Date
    requires IsoShape(s)
  {
    Date(DigitsValue(s[..4]), DigitsValue(s[5..7]) - 1, DigitsValue(s[8..]))
  }

  predicate IsIsoDate(s: string) {
    IsoShape(s) && IsoDateOf(s).year >= 100 && ValidDate(IsoDateOf(s))
  }

  /** The chart label `${jours[dateObj.getDay()]} ${dd}/${mm}` of a date key. */
  function DateLabel(s: string): (caption: Option<string>)
    ensures caption.Some? <==> IsIsoDate(s)
    ensures caption.Some? ==>
      |caption.value| == 9 && caption.value[3] == ' ' && caption.value[6] == '/'
      && caption.value[4..6] == s[8..] && caption.value[7..] == s[5..7]
      && caption.value[..3] == Jours[WeekdayOf(DayNumber(IsoDateOf(s)))]
  {
    if IsIsoDate(s) then
      var name := Jours[WeekdayOf(DayNumber(IsoDateOf(s)))];
      assert |name| == 3;
      Some(name + " " + s[8..] + "/" + s[5..7])
    else None
  }

  /** 5 January 2025 was a Sunday. */
  lemma DateLabelExample()
    ensures DateLabel("2025-01-05") == Some("Dim 05/01")
  {
    var s := "2025-01-05";
    IsoDateOfExample();
    assert IsIsoDate(s);
    assert DayNumber(Date(2025, 0, 5)) == 739255;
    assert WeekdayOf(739255) == 0;
    assert Jours[0] == "Dim";
    assert "Dim" + " " + "05" + "/" + "01" == "Dim 05/01";
  }

  lemma IsoDateOfExample()
    ensures IsoShape("2025-01-05") && IsoDateOf("2025-01-05") == Date(2025, 0, 5)
    ensures "2025-01-05"[8..] == "05" && "2025-01-05"[5..7] == "01"
  {
    var s := "2025-01-05";
    assert s[..4] == "2025";
    assert s[5..7] == "01";
    assert s[8..] == "05";
    assert DigitsValue("2025") == 2025 by {
      assert "2025"[..3] == "202" && "202"[..2] == "20" && "20"[..1] == "2" && "2"[..0] == [];
    }
    assert DigitsValue("01") == 1 by { assert "01"[..1] == "0" && "0"[..0] == []; }
    assert DigitsValue("05") == 5 by { assert "05"[..1] == "0" && "0"[..0] == []; }
  }

  /** `Math.round(totalSeconds / (count * 86400) * 100)`: the bucket's
      occupied seconds as a share of one full day per reading. */
  function GraphPercentage(ps: seq<Sample>, k: string): int
    requires Count(ps, k) > 0
  {
    CapacityPercentage(Total(ps, k), Count(ps, k))
  }

  function CapacityPercentage(totalSeconds: real, count: nat): int {
    var capacity := (count * 86400) as real;
    if capacity != 0.0 then Round(totalSeconds / capacity * 100.0) else 0
  }

  datatype GraphPoint = GraphPoint(caption: Option<string>, occupation: int)

  /** One point per distinct date, in ascending string order of the dates;
      `dates` are the keys the points were made from. */
  method OccupationGraphData(sensors: seq<SensorUsage>) returns (points: seq<GraphPoint>, ghost dates: seq<string>)
    ensures var ps := UsageSamples(sensors, Seconds);
      && |points| == |dates|
      && multiset(dates) == multiset(DistinctKeys(ps))
      && StrictlyAscending(dates)
      && forall i :: 0 <= i < |points| ==>
           Count(ps, dates[i]) > 0
           && points[i] == GraphPoint(DateLabel(dates[i]), GraphPercentage(ps, dates[i]))
  {
    var acc := BucketByDate(sensors, Seconds);
    ghost var ps := UsageSamples(sensors, Seconds);
    var keys := SortKeys(acc.order);
    BucketsOfTracked(ps, acc, keys);
    points := seq(|keys|, j requires 0 <= j < |keys| =>
      GraphPoint(DateLabel(keys[j]), CapacityPercentage(acc.totals[keys[j]], acc.counts[keys[j]])));
    dates := keys;
  }

  /** With every `occupied_seconds` between 0 and one day, every point of the
      chart is a percentage. */
  lemma GraphPercentageWithin(sensors: seq<SensorUsage>, k: string)
    requires forall s, d :: s in sensors && d in Days(s) && d.occupiedSeconds.Some? ==>
      0.0 <= d.occupiedSeconds.value <= 86400.0
    requires Count(UsageSamples(sensors, Seconds), k) > 0
    ensures 0 <= GraphPercentage(UsageSamples(sensors, Seconds), k) <= 100
  {
    SamplesWithinDay(sensors);
    GraphPercentageOfSamples(UsageSamples(sensors, Seconds), k);
  }

  lemma GraphPercentageOfSamples(ps: seq<Sample>, k: string)
    requires Count(ps, k) > 0
    requires forall i :: 0 <= i < |ps| ==> 0.0 <= ps[i].1 <= 86400.0
    ensures 0 <= GraphPercentage(ps, k) <= 100
  {
    TotalWithin(ps, k, 0.0, 86400.0);
    CapacityPercentageWithin(Total(ps, k), Count(ps, k));
  }

  /** Seconds within one day per reading make a percentage of the capacity. */
  lemma CapacityPercentageWithin(totalSeconds: real, count: nat)
    requires count > 0
    requires 0.0 * (count as real) <= totalSeconds <= 86400.0 * (count as real)
    ensures 0 <= CapacityPercentage(totalSeconds, count) <= 100
  {
    var capacity := (count * 86400) as real;
    assert capacity == 86400.0 * (count as real);
    DivWithin(totalSeconds, capacity, 0.0, 1.0);
    var share := totalSeconds / capacity;
    assert 0.0 <= share * 100.0 <= 100.0;
    RoundWithin(share * 100.0, 0, 100);
  }

  lemma {:induction false} SamplesWithinDay(sensors: seq<SensorUsage>)
    requires forall s, d :: s in sensors && d in Days(s) && d.occupiedSeconds.Some? ==>
      0.0 <= d.occupiedSeconds.value <= 86400.0
    ensures forall i :: 0 <= i < |UsageSamples(sensors, Seconds)| ==>
      0.0 <= UsageSamples(sensors, Seconds)[i].1 <= 86400.0
  {
    if sensors != [] {
      var init := sensors[..|sensors| - 1];
      var last := sensors[|sensors| - 1];
      SamplesWithinDay(init);
      var ds := DaySamples(last, Seconds);
      forall j | 0 <= j < |ds| ensures 0.0 <= ds[j].1 <= 86400.0 {
        assert Days(last)[j] in Days(last);
      }
    }
  }
}
