/** The statistics export of the settings page (`handleExportStats` in
    src/pages/Settings.jsx): the per-sensor daily usage flattened into one
    spreadsheet row per day, the one-row sensors summary, and the guards
    that stop the export. */
module SettingsExport {
  import opened Common
  import opened UsageData

  /** One spreadsheet row of the usage export. */
  datatype UsageRow = UsageRow(
    sensorId: string,
    sensorName: string,
    dockId: string,
    date: string,
    occupiedSeconds: Option<real>,
    occupiedHours: Option<real>)

  /** A row of the workbook: a usage row, or the sensors summary object as
      the backend sent it. */
  datatype SheetRow<S> = Usage(row: UsageRow) | Summary(summary: S)

  /** A backend answer: the parsed body, or the HTTP status of a failure. */
  datatype Response<T> = Ok(body: T) | HttpError(status: int)

  /** How the export ends: the alert shown, or the workbook written. */
  datatype ExportOutcome<S> =
    | NotLoggedIn
    | Failed(status: int)
    | NothingToExport
    | Written(sheetName: string, fileName: string, rows: seq<SheetRow<S>>)

  /** `{ ...base, date, occupied_seconds, occupied_hours }`. */
  function RowOf(s: SensorUsage, d: DailyUsage): UsageRow {
    UsageRow(s.sensorId, s.sensorName, s.dockId, d.date, d.occupiedSeconds, d.occupiedHours)
  }

  function SensorRows(s: SensorUsage): (rows: seq<UsageRow>)
    ensures |rows| == |Days(s)|
    ensures forall j :: 0 <= j < |rows| ==> rows[j] == RowOf(s, Days(s)[j])
  {
    var days := Days(s);
    seq(|days|, j requires 0 <= j < |days| => RowOf(s, days[j]))
  }

  /** The rows of all sensors, sensor by sensor, each in day order. */
  function UsageRows(sensors: seq<SensorUsage>): seq<UsageRow> {
    if sensors == [] then []
    else UsageRows(sensors[..|sensors| - 1]) + SensorRows(sensors[|sensors| - 1])
  }

  /** `data || []`. */
  function SensorsOf(data: Option<seq<SensorUsage>>): seq<SensorUsage> {
    if data.Some? then data.value else []
  }

  /** The nested `forEach` of the usage export. */
  method FlattenUsage(data: Option<seq<SensorUsage>>) returns (rows: seq<UsageRow>)
    ensures rows == UsageRows(SensorsOf(data))
    ensures |rows| == SumDays(SensorsOf(data))
  {
    var sensors := SensorsOf(data);
    rows := [];
    var i := 0;
    while i < |sensors|
      invariant 0 <= i <= |sensors|
      invariant rows == UsageRows(sensors[..i])
    {
      var sensor := sensors[i];
      var days := Days(sensor);
      ghost var before := rows;
      var j := 0;
      while j < |days|
        invariant 0 <= j <= |days|
        invariant rows == before + SensorRows(sensor)[..j]
      {
        PrefixSnoc(before, SensorRows(sensor), j);
        rows := rows + [RowOf(sensor, days[j])];
        j := j + 1;
      }
      assert SensorRows(sensor)[..j] == SensorRows(sensor);
      assert sensors[..i + 1] == sensors[..i] + [sensor];
      UsageRowsSnoc(sensors[..i], sensor);
      i := i + 1;
    }
    assert sensors[..i] == sensors;
    UsageRowsLength(sensors);
  }

  /** One row per day of every sensor. */
  lemma {:induction false} UsageRowsLength(sensors: seq<SensorUsage>)
    ensures |UsageRows(sensors)| == SumDays(sensors)
  {
    if sensors != [] {
      UsageRowsLength(sensors[..|sensors| - 1]);
    }
  }

  /** The position of sensor `i`'s first row. */
  function Offset(sensors: seq<SensorUsage>, i: nat): nat
    requires i <= |sensors|
  {
    SumDays(sensors[..i])
  }

  /** Row `Offset(i) + j` is day `j` of sensor `i`: every row copies its
      sensor's identifiers and its day's date and occupied times, and rows
      come sensor by sensor in input order, days in input order. */
  lemma {:induction false} UsageRowAt(sensors: seq<SensorUsage>, i: nat, j: nat)
    requires i < |sensors| && j < |Days(sensors[i])|
    ensures Offset(sensors, i) + j < |UsageRows(sensors)|
    ensures UsageRows(sensors)[Offset(sensors, i) + j] == RowOf(sensors[i], Days(sensors[i])[j])
    decreases |sensors|
  {
    var init := sensors[..|sensors| - 1];
    UsageRowsLength(sensors);
    UsageRowsLength(init);
    if i == |sensors| - 1 {
      assert sensors[..i] == init;
    } else {
      assert init[i] == sensors[i];
      assert init[..i] == sensors[..i];
      UsageRowAt(init, i, j);
      assert Offset(init, i) == Offset(sensors, i);
    }
  }

  /** Rows of several batches of sensors are the batches' rows in turn. */
  lemma {:induction false} UsageRowsConcat(a: seq<SensorUsage>, b: seq<SensorUsage>)
    ensures UsageRows(a + b) == UsageRows(a) + UsageRows(b)
    decreases |b|
  {
    if b == [] {
      assert a + b == a;
    } else {
      UsageRowsConcat(a, b[..|b| - 1]);
      UsageRowsConcatStep(a, b);
    }
  }

  lemma UsageRowsConcatStep(a: seq<SensorUsage>, b: seq<SensorUsage>)
    requires b != [] && UsageRows(a + b[..|b| - 1]) == UsageRows(a) + UsageRows(b[..|b| - 1])
    ensures UsageRows(a + b) == UsageRows(a) + UsageRows(b)
  {
    var init, last := b[..|b| - 1], b[|b| - 1];
    SplitLast(a, b);
    UsageRowsSnoc(a + init, last);
    UsageRowsSnoc(init, last);
    ConcatAssociative(UsageRows(a), UsageRows(init), SensorRows(last));
  }

  lemma UsageRowsSnoc(sensors: seq<SensorUsage>, s: SensorUsage)
    ensures UsageRows(sensors + [s]) == UsageRows(sensors) + SensorRows(s)
  {
    assert (sensors + [s])[..|sensors|] == sensors;
  }

  /** `handleExportStats`. The token is what local storage holds; the
      responses stand for what the two endpoints answer. An export type other
      than the two known ones leaves no rows. */
  method HandleExportStats<S>(
    token: Option<string>,
    exportType: string,
    usage: Response<Option<seq<SensorUsage>>>,
    sensors: Response<S>)
    returns (outcome: ExportOutcome<S>)
    ensures token.None? || token.value == "" <==> outcome == NotLoggedIn
    ensures outcome.Failed? <==>
      && token.Some? && token.value != ""
      && ((exportType == "usage" && usage.HttpError?) || (exportType == "sensors" && sensors.HttpError?))
    ensures outcome.Written? ==> |outcome.rows| > 0
    ensures outcome.Written? && exportType == "usage" ==>
      && outcome.sheetName == "usage_by_day" && outcome.fileName == "wheelock_stats_usage_by_day.xlsx"
      && usage.Ok? && |outcome.rows| == |UsageRows(SensorsOf(usage.body))| == SumDays(SensorsOf(usage.body))
      && forall k :: 0 <= k < |outcome.rows| ==> outcome.rows[k] == Usage(UsageRows(SensorsOf(usage.body))[k])
    ensures outcome.Written? && exportType == "sensors" ==>
      && outcome.sheetName == "sensors_stats" && outcome.fileName == "wheelock_stats_sensors.xlsx"
      && sensors.Ok? && outcome.rows == [Summary(sensors.body)]
    ensures outcome == NothingToExport <==>
      && token.Some? && token.value != ""
      && (exportType == "usage" ==> usage.Ok? && SumDays(SensorsOf(usage.body)) == 0)
      && exportType != "sensors"
  {
    if token.None? || token.value == "" {
      return NotLoggedIn;
    }
    var rows: seq<SheetRow<S>> := [];
    var sheetName := "export";
    var fileName := "wheelock_export.xlsx";
    if exportType == "usage" {
      if usage.HttpError? {
        return Failed(usage.status);
      }
      var flat := FlattenUsage(usage.body);
      rows := seq(|flat|, k requires 0 <= k < |flat| => Usage(flat[k]));
      sheetName := "usage_by_day";
      fileName := "wheelock_stats_usage_by_day.xlsx";
    } else if exportType == "sensors" {
      if sensors.HttpError? {
        return Failed(sensors.status);
      }
      rows := [Summary(sensors.body)];
      sheetName := "sensors_stats";
      fileName := "wheelock_stats_sensors.xlsx";
    }
    if |rows| == 0 {
      return NothingToExport;
    }
    outcome := Written(sheetName, fileName, rows);
  }
}
