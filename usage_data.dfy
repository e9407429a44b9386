/** The per-sensor daily usage the backend returns for a date range (the
    JSON array behind the statistics page and the usage export): each
    sensor carries its identifiers and an optional list of days, each day
    an occupied time in seconds and in hours, either of which may be
    missing. */
module UsageData {
  import opened Common
  import opened Buckets

  datatype DailyUsage = DailyUsage(date: string, occupiedSeconds: Option<real>, occupiedHours: Option<real>)

  datatype SensorUsage = SensorUsage(
    sensorId: string,
    sensorName: string,
    dockId: string,
    dailyUsage: Option<seq<DailyUsage>>)

  /** `sensor.daily_usage || []`. */
  function Days(s: SensorUsage): (days: seq<DailyUsage>)
    ensures s.dailyUsage.Some? ==> days == s.dailyUsage.value
    ensures s.dailyUsage.None? ==> days == []
  {
    if s.dailyUsage.Some? then s.dailyUsage.value else []
  }

  /** Which occupied time a pass over the days adds up. */
  datatype Measure = Hours | Seconds

  /** `day.occupied_hours || 0` or `day.occupied_seconds || 0`. */
  function Amount(d: DailyUsage, m: Measure): real {
    match m
    case Hours => OrZero(d.occupiedHours)
    case Seconds => OrZero(d.occupiedSeconds)
  }

  /** The (date, amount) pairs of one sensor's days, in order. */
  function DaySamples(s: SensorUsage, m: Measure): (ps: seq<Sample>)
    ensures |ps| == |Days(s)|
    ensures forall j :: 0 <= j < |ps| ==> ps[j] == (Days(s)[j].date, Amount(Days(s)[j], m))
  {
    var days := Days(s);
    seq(|days|, j requires 0 <= j < |days| => (days[j].date, Amount(days[j], m)))
  }

  /** The (date, amount) pairs of all sensors, sensor by sensor. */
  function UsageSamples(sensors: seq<SensorUsage>, m: Measure): seq<Sample> {
    if sensors == [] then []
    else UsageSamples(sensors[..|sensors| - 1], m) + DaySamples(sensors[|sensors| - 1], m)
  }

  /** The nested `forEach` of the page: every day of every sensor goes into
      the bucket of its date. */
  method BucketByDate(sensors: seq<SensorUsage>, m: Measure) returns (acc: Acc)
    ensures Tracks(UsageSamples(sensors, m), acc)
  {
    acc := EmptyAcc;
    EmptyTracks();
    var i := 0;
    while i < |sensors|
      invariant 0 <= i <= |sensors|
      invariant Tracks(UsageSamples(sensors[..i], m), acc)
    {
      acc := BucketDays(UsageSamples(sensors[..i], m), acc, sensors[i], m);
      assert sensors[..i + 1][..i] == sensors[..i];
      i := i + 1;
    }
    assert sensors[..i] == sensors;
  }

  /** The inner `forEach`: the days of one sensor. */
  method BucketDays(ghost before: seq<Sample>, acc0: Acc, s: SensorUsage, m: Measure) returns (acc: Acc)
    requires Tracks(before, acc0)
    ensures Tracks(before + DaySamples(s, m), acc)
  {
    acc := acc0;
    var days := Days(s);
    ghost var mine := DaySamples(s, m);
    var j := 0;
    assert before + mine[..0] == before;
    while j < |days|
      invariant 0 <= j <= |days|
      invariant Tracks(before + mine[..j], acc)
    {
      var amount := Amount(days[j], m);
      AddSampleTracks(before + mine[..j], acc, days[j].date, amount);
      PrefixSnoc(before, mine, j);
      acc := AddSample(acc, days[j].date, amount);
      j := j + 1;
    }
    assert mine[..j] == mine;
  }

  /** Every day of every sensor is one sample. */
  lemma {:induction false} UsageSamplesLength(sensors: seq<SensorUsage>, m: Measure)
    ensures |UsageSamples(sensors, m)| == SumDays(sensors)
  {
    if sensors != [] { UsageSamplesLength(sensors[..|sensors| - 1], m); }
  }

  /** Total number of days over all sensors. */
  function SumDays(sensors: seq<SensorUsage>): nat {
    if sensors == [] then 0 else SumDays(sensors[..|sensors| - 1]) + |Days(sensors[|sensors| - 1])|
  }
}
