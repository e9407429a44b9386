/** Time bucketing and session KPIs of the statistics page
    (`aggregateByTime` and `computeKpi` in src/pages/Stats.jsx). A session
    carries its start and end as JavaScript dates, an occupancy rate in
    percent and the optional place labels resolved for it. */
module StatsTime {
  import opened Common
  import opened Calendar
  import opened Buckets

  datatype Session = Session(
    startDate: JsDate,
    endDate: JsDate,
    occupancyRate: real,
    parking: Option<string>,
    ville: Option<string>,
    departement: Option<string>,
    region: Option<string>)

  // ---------------------------------------------------------------------------
  // Bucket keys

  /** `(n).toString().padStart(2, '0')`. */
  function Pad2(s: string): (r: string)
    ensures |s| < 2 ==> r == "0" + s
    ensures |s| >= 2 ==> r == s
  {
    if |s| < 2 then "0" + s else s
  }

  /** The bucket key of a session starting at `t` for the time grain `grain`;
      "année" and every grain not listed give the bare year. */
  function GrainKey(grain: string, t: JsDate): string {
    var y := IntToString(t.date.year);
    match grain
    case "jour" => y + "-" + NatToString(t.date.month0 + 1) + "-" + NatToString(t.date.day)
    case "semaine" => y + "-" + ("S" + NatToString(WeekNumber(t)))
    case "mois" => y + "-" + Pad2(NatToString(t.date.month0 + 1))
    case "trimestre" => y + "-" + ("T" + NatToString(t.date.month0 / 3 + 1))
    case "semestre" => y + "-" + ("S" + NatToString(if t.date.month0 < 6 then 1 else 2))
    case _ => y
  }

  /** The calendar bucket a grain is meant to group by: year and day, year
      and week, year and month, year and quarter (0..3), year and half-year
      (0..1), or the year alone. */
  function BucketOf(grain: string, t: JsDate): (int, int, int) {
    var d := t.date;
    match grain
    case "jour" => (d.year, d.month0, d.day)
    case "semaine" => (d.year, WeekNumber(t), 0)
    case "mois" => (d.year, d.month0, 0)
    case "trimestre" => (d.year, d.month0 / 3, 0)
    case "semestre" => (d.year, if d.month0 < 6 then 0 else 1, 0)
    case _ => (d.year, 0, 0)
  }

  /** The part of a string after its last '-'. */
  function AfterLastDash(s: string): (r: string)
    ensures '-' !in r
  {
    if s == [] || s[|s| - 1] == '-' then []
    else AfterLastDash(s[..|s| - 1]) + [s[|s| - 1]]
  }

  lemma {:induction false} AfterLastDashOf(a: string, b: string)
    requires '-' !in b
    ensures AfterLastDash(a + "-" + b) == b
    decreases |b|
  {
    var s := a + "-" + b;
    if b != [] {
      assert s[..|s| - 1] == a + "-" + b[..|b| - 1];
      AfterLastDashOf(a, b[..|b| - 1]);
    }
  }

  /** A key "a-b" splits uniquely at its last dash. */
  lemma SplitAtLastDash(a: string, b: string, a': string, b': string)
    requires '-' !in b && '-' !in b'
    requires a + "-" + b == a' + "-" + b'
    ensures a == a' && b == b'
  {
    AfterLastDashOf(a, b);
    AfterLastDashOf(a', b');
    var s := a + "-" + b;
    assert a == s[..|a|] && a' == s[..|a'|];
  }

  lemma DigitsHaveNoDash(s: string)
    requires AllDigits(s)
    ensures '-' !in s
  {
  }

  lemma TaggedNatInjective(tag: string, m: nat, n: nat)
    requires tag + NatToString(m) == tag + NatToString(n)
    ensures m == n
  {
    assert (tag + NatToString(m))[|tag|..] == NatToString(m);
    assert (tag + NatToString(n))[|tag|..] == NatToString(n);
    NatToStringInjective(m, n);
  }

  lemma Pad2FirstIsZero(a: nat)
    requires a < 100
    ensures |Pad2(NatToString(a))| == 2
    ensures Pad2(NatToString(a))[0] == '0' <==> a < 10
  {
    if a >= 10 {
      assert NatToString(a) == NatToString(a / 10) + [DigitChar(a % 10)];
      assert NatToString(a / 10) == [DigitChar(a / 10)];
    }
  }

  lemma Pad2Injective(a: nat, b: nat)
    requires a < 100 && b < 100
    requires Pad2(NatToString(a)) == Pad2(NatToString(b))
    ensures a == b
  {
    Pad2FirstIsZero(a);
    Pad2FirstIsZero(b);
    if a < 10 {
      TaggedNatInjective("0", a, b);
    } else {
      NatToStringInjective(a, b);
    }
  }

  /** Two sessions share a bucket key exactly when they fall in the same
      calendar bucket of the grain. */
  lemma GrainKeyIdentifiesBucket(grain: string, t1: JsDate, t2: JsDate)
    ensures GrainKey(grain, t1) == GrainKey(grain, t2) <==> BucketOf(grain, t1) == BucketOf(grain, t2)
  {
    if grain == "jour" {
      DayBucketIff(t1, t2);
    } else if grain == "semaine" {
      WeekBucketIff(t1, t2);
    } else if grain == "mois" {
      MonthBucketIff(t1, t2);
    } else if grain == "trimestre" {
      QuarterBucketIff(t1, t2);
    } else if grain == "semestre" {
      HalfBucketIff(t1, t2);
    } else {
      assert GrainKey(grain, t1) == IntToString(t1.date.year) && GrainKey(grain, t2) == IntToString(t2.date.year);
      if GrainKey(grain, t1) == GrainKey(grain, t2) {
        IntToStringInjective(t1.date.year, t2.date.year);
      }
    }
  }

  lemma DayBucketIff(t1: JsDate, t2: JsDate)
    ensures GrainKey("jour", t1) == GrainKey("jour", t2) <==> BucketOf("jour", t1) == BucketOf("jour", t2)
  {
    if GrainKey("jour", t1) == GrainKey("jour", t2) {
      DayKeysIdentify(t1, t2);
    }
  }

  lemma WeekBucketIff(t1: JsDate, t2: JsDate)
    ensures GrainKey("semaine", t1) == GrainKey("semaine", t2) <==> BucketOf("semaine", t1) == BucketOf("semaine", t2)
  {
    if GrainKey("semaine", t1) == GrainKey("semaine", t2) {
      TaggedKeysIdentify(t1, t2, "S", WeekNumber(t1), WeekNumber(t2));
    }
  }

  lemma MonthBucketIff(t1: JsDate, t2: JsDate)
    ensures GrainKey("mois", t1) == GrainKey("mois", t2) <==> BucketOf("mois", t1) == BucketOf("mois", t2)
  {
    if GrainKey("mois", t1) == GrainKey("mois", t2) {
      MonthKeysIdentify(t1, t2);
    }
  }

  lemma QuarterBucketIff(t1: JsDate, t2: JsDate)
    ensures GrainKey("trimestre", t1) == GrainKey("trimestre", t2) <==> BucketOf("trimestre", t1) == BucketOf("trimestre", t2)
  {
    if GrainKey("trimestre", t1) == GrainKey("trimestre", t2) {
      TaggedKeysIdentify(t1, t2, "T", t1.date.month0 / 3 + 1, t2.date.month0 / 3 + 1);
    }
  }

  lemma HalfBucketIff(t1: JsDate, t2: JsDate)
    ensures GrainKey("semestre", t1) == GrainKey("semestre", t2) <==> BucketOf("semestre", t1) == BucketOf("semestre", t2)
  {
    if GrainKey("semestre", t1) == GrainKey("semestre", t2) {
      TaggedKeysIdentify(t1, t2, "S", if t1.date.month0 < 6 then 1 else 2, if t2.date.month0 < 6 then 1 else 2);
    }
  }

  lemma DayKeysIdentify(t1: JsDate, t2: JsDate)
    requires GrainKey("jour", t1) == GrainKey("jour", t2)
    ensures t1.date == t2.date
  {
    var m1, m2 := NatToString(t1.date.month0 + 1), NatToString(t2.date.month0 + 1);
    var d1, d2 := NatToString(t1.date.day), NatToString(t2.date.day);
    ThreePartKeys(IntToString(t1.date.year), m1, d1, IntToString(t2.date.year), m2, d2);
    IntToStringInjective(t1.date.year, t2.date.year);
    NatToStringInjective(t1.date.month0 + 1, t2.date.month0 + 1);
    NatToStringInjective(t1.date.day, t2.date.day);
  }

  /** A key "y-m-d" whose last two parts are digits splits uniquely. */
  lemma ThreePartKeys(y1: string, m1: string, d1: string, y2: string, m2: string, d2: string)
    requires AllDigits(m1) && AllDigits(m2) && AllDigits(d1) && AllDigits(d2)
    requires y1 + "-" + m1 + "-" + d1 == y2 + "-" + m2 + "-" + d2
    ensures y1 == y2 && m1 == m2 && d1 == d2
  {
    DigitsHaveNoDash(m1); DigitsHaveNoDash(m2); DigitsHaveNoDash(d1); DigitsHaveNoDash(d2);
    SplitAtLastDash(y1 + "-" + m1, d1, y2 + "-" + m2, d2);
    SplitAtLastDash(y1, m1, y2, m2);
  }

  lemma MonthKeysIdentify(t1: JsDate, t2: JsDate)
    requires GrainKey("mois", t1) == GrainKey("mois", t2)
    ensures t1.date.year == t2.date.year && t1.date.month0 == t2.date.month0
  {
    var y1, y2 := IntToString(t1.date.year), IntToString(t2.date.year);
    var p1, p2 := Pad2(NatToString(t1.date.month0 + 1)), Pad2(NatToString(t2.date.month0 + 1));
    assert '-' !in p1 && '-' !in p2;
    SplitAtLastDash(y1, p1, y2, p2);
    IntToStringInjective(t1.date.year, t2.date.year);
    Pad2Injective(t1.date.month0 + 1, t2.date.month0 + 1);
  }

  /** Keys made of the year, a dash, a tag letter and a number. */
  lemma TaggedKeysIdentify(t1: JsDate, t2: JsDate, tag: string, n1: nat, n2: nat)
    requires tag == "S" || tag == "T"
    requires IntToString(t1.date.year) + "-" + (tag + NatToString(n1))
          == IntToString(t2.date.year) + "-" + (tag + NatToString(n2))
    ensures t1.date.year == t2.date.year && n1 == n2
  {
    var w1, w2 := tag + NatToString(n1), tag + NatToString(n2);
    assert '-' !in w1 && '-' !in w2;
    SplitAtLastDash(IntToString(t1.date.year), w1, IntToString(t2.date.year), w2);
    IntToStringInjective(t1.date.year, t2.date.year);
    TaggedNatInjective(tag, n1, n2);
  }

  /** The quarter of a "trimestre" key is always 1..4, and a "semestre" key
      ends in S1 exactly for January to June. */
  lemma QuarterAndSemesterKeys(t: JsDate)
    ensures 1 <= t.date.month0 / 3 + 1 <= 4
    ensures GrainKey("trimestre", t)
         == IntToString(t.date.year) + "-T" + NatToString(t.date.month0 / 3 + 1)
    ensures GrainKey("semestre", t) == IntToString(t.date.year) + "-S1" <==> t.date.month0 < 6
  {
    var y := IntToString(t.date.year);
    assert y + "-" + ("T" + NatToString(t.date.month0 / 3 + 1))
        == y + "-T" + NatToString(t.date.month0 / 3 + 1);
    if t.date.month0 >= 6 {
      assert GrainKey("semestre", t) == y + "-S2";
      assert (y + "-S2")[|y| + 2] != (y + "-S1")[|y| + 2];
    }
  }

  // ---------------------------------------------------------------------------
  // Order of the keys

  /** The value of a two-digit string. */
  lemma TwoDigitValue(s: string)
    requires |s| == 2 && AllDigits(s)
    ensures DigitsValue(s) == ((s[0] as int) - ('0' as int)) * 10 + ((s[1] as int) - ('0' as int))
  {
    var head := s[..1];
    assert s[..|s| - 1] == head && head[..|head| - 1] == [];
    assert DigitsValue(head) == (s[0] as int) - ('0' as int);
  }

  lemma TwoDigitOrder(s: string, t: string)
    requires |s| == 2 && |t| == 2 && AllDigits(s) && AllDigits(t)
    ensures LexLess(s, t) <==> DigitsValue(s) < DigitsValue(t)
  {
    TwoDigitValue(s);
    TwoDigitValue(t);
    assert LexLess(s, t) <==> (if s[0] != t[0] then s[0] < t[0] else LexLess(s[1..], t[1..]));
    assert LexLess(s[1..], t[1..]) <==> (if s[1] != t[1] then s[1] < t[1] else LexLess(s[2..], t[2..]));
  }

  lemma Pad2Value(a: nat)
    requires a < 100
    ensures AllDigits(Pad2(NatToString(a))) && DigitsValue(Pad2(NatToString(a))) == a
  {
    Pad2FirstIsZero(a);
    var p := Pad2(NatToString(a));
    if a < 10 {
      TwoDigitValue(p);
    } else {
      DigitsValueOfNatToString(a);
    }
  }

  /** Within one year the "mois" keys sort chronologically. */
  lemma MonthKeysChronological(t1: JsDate, t2: JsDate)
    requires t1.date.year == t2.date.year
    ensures LexLess(GrainKey("mois", t1), GrainKey("mois", t2)) <==> t1.date.month0 < t2.date.month0
  {
    var prefix := IntToString(t1.date.year) + "-";
    var p1, p2 := Pad2(NatToString(t1.date.month0 + 1)), Pad2(NatToString(t2.date.month0 + 1));
    LexLessCommonPrefix(prefix, p1, p2);
    Pad2Value(t1.date.month0 + 1);
    Pad2Value(t2.date.month0 + 1);
    Pad2FirstIsZero(t1.date.month0 + 1);
    Pad2FirstIsZero(t2.date.month0 + 1);
    TwoDigitOrder(p1, p2);
  }

  /** The "jour" keys are not zero-padded, so their string order is not the
      order of the days: 10 January 2025 sorts before 9 January 2025. */
  lemma DayKeysNotChronological()
    ensures GrainKey("jour", Timestamp(Date(2025, 0, 10), 0)) == "2025-1-10"
    ensures GrainKey("jour", Timestamp(Date(2025, 0, 9), 0)) == "2025-1-9"
    ensures LexLess("2025-1-10", "2025-1-9")
  {
    YearString2025();
    assert NatToString(10) == "10";
  }

  lemma YearString2025()
    ensures IntToString(2025) == "2025"
  {
    assert NatToString(2025) == "2025" by {
      assert NatToString(202) == "202" by {
        assert NatToString(20) == "20";
      }
    }
  }

  // ---------------------------------------------------------------------------
  // aggregateByTime

  /** What `aggregateByTime` adds to its buckets: per session, its key and rate. */
  function TimeSamples(sessions: seq<Session>, grain: string): (ps: seq<Sample>)
    ensures |ps| == |sessions|
    ensures forall i :: 0 <= i < |ps| ==>
      ps[i] == (GrainKey(grain, sessions[i].startDate), sessions[i].occupancyRate)
  {
    seq(|sessions|, i requires 0 <= i < |sessions| =>
      (GrainKey(grain, sessions[i].startDate), sessions[i].occupancyRate))
  }

  lemma TimeSamplesSnoc(sessions: seq<Session>, grain: string, i: nat)
    requires i < |sessions|
    ensures TimeSamples(sessions[..i + 1], grain)
         == TimeSamples(sessions[..i], grain)
            + [(GrainKey(grain, sessions[i].startDate), sessions[i].occupancyRate)]
  {
  }

  datatype TimePoint = TimePoint(key: string, occupation: int)

  function Labels(points: seq<TimePoint>): (ls: seq<string>)
    ensures |ls| == |points|
    ensures forall i :: 0 <= i < |points| ==> ls[i] == points[i].key
  {
    seq(|points|, i requires 0 <= i < |points| => points[i].key)
  }

  /** One point per distinct key, sorted by the keys' string order, each
      carrying the rounded mean rate of its bucket. */
  method AggregateByTime(sessions: seq<Session>, grain: string) returns (result: seq<TimePoint>)
    ensures multiset(Labels(result)) == multiset(DistinctKeys(TimeSamples(sessions, grain)))
    ensures StrictlyAscending(Labels(result))
    ensures forall i :: 0 <= i < |result| ==>
      var ps := TimeSamples(sessions, grain);
      Count(ps, result[i].key) > 0 && result[i].occupation == Round(Mean(ps, result[i].key))
  {
    var acc := BucketByTime(sessions, grain);
    ghost var ps := TimeSamples(sessions, grain);
    var keys := SortKeys(acc.order);
    MeansOfTracked(ps, acc, keys);
    result := seq(|keys|, j requires 0 <= j < |keys| =>
      TimePoint(keys[j], Round(acc.totals[keys[j]] / (acc.counts[keys[j]] as real))));
    assert Labels(result) == keys;
  }

  /** The bucketing pass of `aggregateByTime`: one bucket per key. */
  method BucketByTime(sessions: seq<Session>, grain: string) returns (acc: Acc)
    ensures Tracks(TimeSamples(sessions, grain), acc)
  {
    acc := EmptyAcc;
    EmptyTracks();
    var i := 0;
    while i < |sessions|
      invariant 0 <= i <= |sessions|
      invariant Tracks(TimeSamples(sessions[..i], grain), acc)
    {
      var key := GrainKey(grain, sessions[i].startDate);
      AddSampleTracks(TimeSamples(sessions[..i], grain), acc, key, sessions[i].occupancyRate);
      TimeSamplesSnoc(sessions, grain, i);
      acc := AddSample(acc, key, sessions[i].occupancyRate);
      i := i + 1;
    }
    assert sessions[..i] == sessions;
  }

  /** Every session lands in some bucket, and the bucket counts add up to
      the number of sessions. */
  lemma AggregateCountsSessions(sessions: seq<Session>, grain: string)
    ensures SumCounts(TimeSamples(sessions, grain), DistinctKeys(TimeSamples(sessions, grain))) == |sessions|
    ensures forall i :: 0 <= i < |sessions| ==>
      GrainKey(grain, sessions[i].startDate) in DistinctKeys(TimeSamples(sessions, grain))
  {
    var ps := TimeSamples(sessions, grain);
    CountsSumToSamples(ps);
    forall i | 0 <= i < |sessions|
      ensures GrainKey(grain, sessions[i].startDate) in DistinctKeys(ps)
    {
      assert KeysOf(ps)[i] == GrainKey(grain, sessions[i].startDate);
    }
  }

  /** Percentages in, percentages out: when every rate lies in [0, 100] so
      does every bucket's rounded mean. */
  lemma AggregateWithinPercent(sessions: seq<Session>, grain: string, k: string)
    requires forall i :: 0 <= i < |sessions| ==> 0.0 <= sessions[i].occupancyRate <= 100.0
    requires Count(TimeSamples(sessions, grain), k) > 0
    ensures 0 <= Round(Mean(TimeSamples(sessions, grain), k)) <= 100
  {
    var ps := TimeSamples(sessions, grain);
    MeanWithin(ps, k, 0.0, 100.0);
    RoundWithin(Mean(ps, k), 0, 100);
  }

  // ---------------------------------------------------------------------------
  // computeKpi

  datatype Kpi = Kpi(avgOccupation: int, avgDurationMinutes: int, totalSessions: int, occupationRate: int)

  function SumRates(sessions: seq<Session>): real {
    if sessions == [] then 0.0
    else SumRates(sessions[..|sessions| - 1]) + sessions[|sessions| - 1].occupancyRate
  }

  /** `(s.endDate - s.startDate) / 60000`. */
  function DurationMinutes(s: Session): real {
    (EpochMs(s.endDate) - EpochMs(s.startDate)) as real / 60000.0
  }

  function SumMinutes(sessions: seq<Session>): real {
    if sessions == [] then 0.0
    else SumMinutes(sessions[..|sessions| - 1]) + DurationMinutes(sessions[|sessions| - 1])
  }

  /** `r` is `Math.round(total / n)`: within half of the mean. */
  predicate IsRoundedMean(r: int, total: real, n: nat)
    requires n > 0
  {
    total / (n as real) - 0.5 < r as real <= total / (n as real) + 0.5
  }

  function ComputeKpi(sessions: seq<Session>): (k: Kpi)
    ensures |sessions| == 0 ==> k == Kpi(0, 0, 0, 0)
    ensures k.totalSessions == |sessions|
    ensures k.occupationRate == k.avgOccupation
    ensures |sessions| > 0 ==>
      IsRoundedMean(k.avgOccupation, SumRates(sessions), |sessions|)
      && IsRoundedMean(k.avgDurationMinutes, SumMinutes(sessions), |sessions|)
  {
    if |sessions| == 0 then Kpi(0, 0, 0, 0)
    else
      var n := |sessions| as real;
      var avgOccupation := Round(SumRates(sessions) / n);
      Kpi(avgOccupation, Round(SumMinutes(sessions) / n), |sessions|, avgOccupation)
  }

  lemma {:induction false} SumRatesWithin(sessions: seq<Session>)
    requires forall i :: 0 <= i < |sessions| ==> 0.0 <= sessions[i].occupancyRate <= 100.0
    ensures 0.0 <= SumRates(sessions) <= 100.0 * (|sessions| as real)
  {
    if sessions != [] { SumRatesWithin(sessions[..|sessions| - 1]); }
  }

  lemma {:induction false} SumMinutesNonNegative(sessions: seq<Session>)
    requires forall i :: 0 <= i < |sessions| ==> EpochMs(sessions[i].startDate) <= EpochMs(sessions[i].endDate)
    ensures SumMinutes(sessions) >= 0.0
  {
    if sessions != [] { SumMinutesNonNegative(sessions[..|sessions| - 1]); }
  }

  /** With rates in [0, 100] the average occupancy is a percentage, and with
      no session ending before it starts the average duration is not
      negative. */
  lemma KpiBounds(sessions: seq<Session>)
    requires forall i :: 0 <= i < |sessions| ==> 0.0 <= sessions[i].occupancyRate <= 100.0
    requires forall i :: 0 <= i < |sessions| ==> EpochMs(sessions[i].startDate) <= EpochMs(sessions[i].endDate)
    ensures 0 <= ComputeKpi(sessions).avgOccupation <= 100
    ensures ComputeKpi(sessions).avgDurationMinutes >= 0
  {
    if sessions != [] {
      KpiOccupationWithin(sessions);
      KpiDurationNonNegative(sessions);
    }
  }

  lemma KpiOccupationWithin(sessions: seq<Session>)
    requires sessions != []
    requires forall i :: 0 <= i < |sessions| ==> 0.0 <= sessions[i].occupancyRate <= 100.0
    ensures 0 <= ComputeKpi(sessions).avgOccupation <= 100
  {
    var n := |sessions| as real;
    var q := SumRates(sessions) / n;
    assert ComputeKpi(sessions).avgOccupation == Round(q);
    SumRatesWithin(sessions);
    DivWithin(SumRates(sessions), n, 0.0, 100.0);
    RoundWithin(q, 0, 100);
  }

  lemma KpiDurationNonNegative(sessions: seq<Session>)
    requires sessions != []
    requires forall i :: 0 <= i < |sessions| ==> EpochMs(sessions[i].startDate) <= EpochMs(sessions[i].endDate)
    ensures ComputeKpi(sessions).avgDurationMinutes >= 0
  {
    var n := |sessions| as real;
    var q := SumMinutes(sessions) / n;
    assert ComputeKpi(sessions).avgDurationMinutes == Round(q);
    SumMinutesNonNegative(sessions);
    QuotientNonNegative(SumMinutes(sessions), n);
  }

  lemma QuotientNonNegative(t: real, n: real)
    requires t >= 0.0 && n > 0.0
    ensures t / n >= 0.0
  {
    assert (t / n) * n == t;
    NonNegativeFactor(t / n, n);
  }

  /** Sessions of a single year: the one "année" bucket holds all of them,
      and its value is the KPI's average occupancy. */
  lemma {:induction false} OneYearBucketIsKpi(sessions: seq<Session>)
    requires |sessions| > 0
    requires forall i :: 0 <= i < |sessions| ==> sessions[i].startDate.date.year == sessions[0].startDate.date.year
    ensures var ps := TimeSamples(sessions, "année");
      var k := GrainKey("année", sessions[0].startDate);
      Count(ps, k) == |sessions| && Total(ps, k) == SumRates(sessions)
      && Round(Mean(ps, k)) == ComputeKpi(sessions).avgOccupation
  {
    var k := GrainKey("année", sessions[0].startDate);
    var n := |sessions|;
    if n > 1 {
      var init := sessions[..n - 1];
      OneYearBucketIsKpi(init);
      assert init[0] == sessions[0];
      TimeSamplesSnoc(sessions, "année", n - 1);
      assert sessions[..n] == sessions;
      assert TimeSamples(sessions, "année")[..n - 1] == TimeSamples(init, "année");
    } else {
      assert TimeSamples(sessions, "année")[..0] == [];
    }
  }
}
