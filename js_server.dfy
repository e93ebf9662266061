/**
 * The Express back-end of the JavaScript dashboard (`js_website/server.js`):
 * a module-level history capped at 10000 entries that `POST /api/data`
 * appends to and `POST /api/clear` empties; the statistics and CSV export
 * computed from it; and the classification and row selection the page
 * script applies to it.
 *
 * The request clock (`new Date()`) is a parameter: `now` is the ISO time
 * stamp an accepted entry is given. JSON and HTTP framing are not modelled.
 */
module JsServer {
  import opened Dashboard

  const MAX_HISTORY: nat := 10000

  /** A field of the JSON request body as `typeof` sees it. */
  datatype JsValue = Num(v: real) | NotNum

  datatype Body = Body(temperature: JsValue, pressure: JsValue, humidity: JsValue)

  predicate Numeric(body: Body)
  {
    body.temperature.Num? && body.pressure.Num? && body.humidity.Num?
  }

  /** The history object: `let history = []` and the two handlers that change it. */
  class Server {
    var history: seq<Entry>

    predicate Valid()
      reads this
    {
      |history| <= MAX_HISTORY
    }

    constructor()
      ensures Valid() && history == []
    {
      history := [];
    }

    /** `POST /api/data`: 400 and no change unless all three fields are numbers. */
    method PostData(body: Body, now: string) returns (status: nat)
      requires Valid()
      modifies this
      ensures Valid()
      ensures !Numeric(body) ==> status == 400 && history == old(history)
      ensures Numeric(body) ==> status == 200
      ensures Numeric(body) ==>
        history == Capped(old(history), Entry(now, body.temperature.v, body.humidity.v, body.pressure.v), MAX_HISTORY)
    {
      if !body.temperature.Num? || !body.pressure.Num? || !body.humidity.Num? {
        return 400;
      }
      var entry := Entry(now, body.temperature.v, body.humidity.v, body.pressure.v);
      history := history + [entry];
      if |history| > MAX_HISTORY {
        history := history[1..];
      }
      return 200;
    }

    /** `POST /api/clear`. */
    method Clear()
      modifies this
      ensures Valid() && history == []
    {
      history := [];
    }
  }

  /** `getTrend`: the last value against the fifth from last, with a dead band of 1. */
  function GetTrend(data: seq<real>): (t: Trend)
    ensures t == Up <==> |data| >= 5 && data[|data| - 1] - data[|data| - 5] > 1.0
    ensures t == Down <==> |data| >= 5 && data[|data| - 1] - data[|data| - 5] < -1.0
  {
    if |data| < 5 then Stable
    else
      var recent := data[|data| - 5..];
      var first := recent[0];
      var last := recent[|recent| - 1];
      var diff := last - first;
      if diff > 1.0 then Up
      else if diff < -1.0 then Down
      else Stable
  }

  function Negated(data: seq<real>): (r: seq<real>)
    ensures |r| == |data| && forall i :: 0 <= i < |data| ==> r[i] == -data[i]
  {
    seq(|data|, i requires 0 <= i < |data| => -data[i])
  }

  /** Mirroring the readings mirrors the trend. */
  lemma TrendMirrors(data: seq<real>)
    ensures GetTrend(Negated(data)) == Flip(GetTrend(data))
  {
  }

  /** The response of `GET /api/stats`; `lastUpdate` is `now` when there is no data. */
  datatype Stats = Stats(temperature: Stat, humidity: Stat, pressure: Stat, count: nat, lastUpdate: string)

  function ColumnStat(h: seq<Entry>, q: Quantity): Stat
    requires |h| > 0
  {
    var col := Column(h, q);
    Summary(col, GetTrend(col))
  }

  /** `GET /api/stats`. */
  function StatsOf(h: seq<Entry>, now: string): (s: Stats)
    ensures |h| == 0 ==> s == Stats(ZERO_STAT, ZERO_STAT, ZERO_STAT, 0, now)
    ensures |h| > 0 ==> s.count == |h| && s.lastUpdate == h[|h| - 1].time
    ensures |h| > 0 ==>
      s.temperature.current == h[|h| - 1].temperature
      && s.humidity.current == h[|h| - 1].humidity
      && s.pressure.current == h[|h| - 1].pressure
    ensures forall st :: st in [s.temperature, s.humidity, s.pressure] ==>
      st.min <= st.current <= st.max && st.min <= st.average <= st.max
    ensures |h| > 0 ==> forall i :: 0 <= i < |h| ==>
      s.temperature.min <= h[i].temperature <= s.temperature.max
      && s.humidity.min <= h[i].humidity <= s.humidity.max
      && s.pressure.min <= h[i].pressure <= s.pressure.max
    ensures |h| > 0 ==> s.temperature.trend == GetTrend(Column(h, Temperature))
  {
    if |h| == 0 then Stats(ZERO_STAT, ZERO_STAT, ZERO_STAT, 0, now)
    else
      Stats(ColumnStat(h, Temperature), ColumnStat(h, Humidity), ColumnStat(h, Pressure), |h|, h[|h| - 1].time)
  }

  /** The lines of `GET /api/export` before they are joined with "\n". */
  datatype CsvLine = CsvHeader | CsvRow(e: Entry)

  const CSV_HEADER: string := "Time,Temperature (°C),Humidity (%),Pressure (hPa)"

  function CsvRows(h: seq<Entry>): (lines: seq<CsvLine>)
    ensures |lines| == |h|
    ensures forall i :: 0 <= i < |h| ==> lines[i] == CsvRow(h[i])
  {
    if h == [] then [] else CsvRows(h[..|h| - 1]) + [CsvRow(h[|h| - 1])]
  }

  /** `GET /api/export`: the header line, then one line per entry in history order. */
  function ExportLines(h: seq<Entry>): (lines: seq<CsvLine>)
    ensures |lines| == |h| + 1
    ensures lines[0] == CsvHeader
    ensures forall i :: 0 <= i < |h| ==> lines[i + 1] == CsvRow(h[i])
    ensures forall i :: 0 < i < |lines| ==> lines[i] != CsvHeader
  {
    [CsvHeader] + CsvRows(h)
  }

  datatype Level = Good | Warn | Bad

  /** A label and the CSS class (`status-good`, `status-warn`, `status-bad`) it is shown with. */
  datatype Status = Status(text: string, level: Level)

  /** `getStatus`. */
  function GetStatus(value: real, q: Quantity): (s: Status)
    ensures s.level == Bad <==> q == Temperature && value > 30.0
    ensures s.level == Warn <==>
      (q == Temperature && value < 15.0)
      || (q == Humidity && (value < 30.0 || value > 70.0))
      || (q == Pressure && (value < 990.0 || value > 1030.0))
    ensures s.level == Good ==> s.text == (if q == Humidity then "Optimal" else "Normal")
  {
    match q
    case Temperature =>
      if value < 15.0 then Status("Cold", Warn)
      else if value > 30.0 then Status("Hot", Bad)
      else Status("Normal", Good)
    case Humidity =>
      if value < 30.0 then Status("Dry", Warn)
      else if value > 70.0 then Status("Humid", Warn)
      else Status("Optimal", Good)
    case Pressure =>
      if value < 990.0 then Status("Low", Warn)
      else if value > 1030.0 then Status("High", Warn)
      else Status("Normal", Good)
  }

  /** The overall status of a table row: Alert over Warning over the temperature's own status. */
  function OverallStatus(e: Entry): (s: Status)
    ensures s.level == Bad <==> e.temperature > 30.0
    ensures s.level == Bad ==> s.text == "Alert"
    ensures s.level == Warn <==> s.text == "Warning"
    ensures s.level == Warn <==>
      e.temperature <= 30.0
      && (e.temperature < 15.0 || e.humidity < 30.0 || e.humidity > 70.0 || e.pressure < 990.0 || e.pressure > 1030.0)
    ensures s.level == Good ==> s == Status("Normal", Good)
  {
    var tempStatus := GetStatus(e.temperature, Temperature);
    var humStatus := GetStatus(e.humidity, Humidity);
    var pressStatus := GetStatus(e.pressure, Pressure);
    if tempStatus.level == Bad || humStatus.level == Bad || pressStatus.level == Bad then Status("Alert", Bad)
    else if tempStatus.level == Warn || humStatus.level == Warn || pressStatus.level == Warn then Status("Warning", Warn)
    else tempStatus
  }

  /** The trend arrow of a row against the row above it (the next newer entry). */
  function RowTrend(temperature: real, above: real): (t: Trend)
    ensures t == Up <==> temperature > above + 0.5
    ensures t == Down <==> temperature < above - 0.5
  {
    var tempDiff := temperature - above;
    if (if tempDiff < 0.0 then -tempDiff else tempDiff) > 0.5 then
      if tempDiff > 0.0 then Up else Down
    else Stable
  }

  /** A table row: the entry, its status and its trend arrow. */
  datatype Row = Row(entry: Entry, status: Status, trend: Trend)

  function Rows(display: seq<Entry>): (rows: seq<Row>)
    ensures |rows| == |display|
    ensures forall i :: 0 <= i < |display| ==>
      rows[i].entry == display[i] && rows[i].status == OverallStatus(display[i])
      && rows[i].trend == (if i == 0 then Stable else RowTrend(display[i].temperature, display[i - 1].temperature))
  {
    seq(|display|, i requires 0 <= i < |display| => RowAt(display, i))
  }

  function RowAt(display: seq<Entry>, i: nat): Row
    requires i < |display|
  {
    Row(display[i], OverallStatus(display[i]),
        if i == 0 then Stable else RowTrend(display[i].temperature, display[i - 1].temperature))
  }

  /** `updateTable`: the newest 10 entries (50 when expanded), newest first. */
  function UpdateTable(data: seq<Entry>, expanded: bool): (rows: seq<Row>)
    ensures var n := if expanded then 50 else 10;
      |rows| == (if |data| < n then |data| else n)
    ensures forall i :: 0 <= i < |rows| ==> rows[i].entry == data[|data| - 1 - i]
    ensures |rows| > 0 ==> rows[0].trend == Stable
  {
    Rows(Reverse(Last(data, if expanded then 50 else 10)))
  }
}
