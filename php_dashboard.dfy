/**
 * The PHP dashboard (`python_website/index.php`): readings posted as JSON are
 * appended to a history stored in `data.json`, capped at 10000 entries; the
 * page computes statistics and trends from it, serves its columns as JSON
 * for the charts and lists the newest ten entries in a table.
 *
 * The data file is the `history` field of a `Store`. `json_decode` is
 * modelled by its outcome (`Body`), `floatval` by the number it yields and
 * `date("H:i:s")` by the parameter `now`.
 */
module PhpDashboard {
  import opened Dashboard
  import JsServer

  const MAX_HISTORY: nat := 10000
  const DEFAULT_PRESSURE: real := 1013.25

  /**
   * The decoded request body: `Falsy` for anything `if ($data)` rejects
   * (undecodable JSON, an empty array, 0, ""), otherwise the three fields,
   * `None` where the key is missing or null.
   */
  datatype Body = Falsy | Fields(temperature: Option<real>, humidity: Option<real>, pressure: Option<real>)

  function OrElse(x: Option<real>, default: real): real
  {
    if x.Some? then x.value else default
  }

  class Store {
    var history: seq<Entry>

    predicate Valid()
      reads this
    {
      |history| <= MAX_HISTORY
    }

    constructor()
      ensures Valid() && history == []
    {
      history := [];
    }

    /** The POST branch: a truthy body appends one entry, a falsy one changes nothing. */
    method Post(body: Body, now: string) returns (accepted: bool)
      requires Valid()
      modifies this
      ensures Valid()
      ensures accepted <==> body.Fields?
      ensures !accepted ==> history == old(history)
      ensures accepted ==> history == Capped(old(history), EntryOf(body, now), MAX_HISTORY)
    {
      if body.Falsy? {
        return false;
      }
      history := history + [EntryOf(body, now)];
      if |history| > MAX_HISTORY {
        history := history[1..];
      }
      return true;
    }

    /** `?clear=1`: the data file is rewritten as an empty array. */
    method Clear()
      modifies this
      ensures Valid() && history == []
    {
      history := [];
    }
  }

  /** The entry a truthy body is stored as: missing readings default to 0, 0 and 1013.25. */
  function EntryOf(body: Body, now: string): (e: Entry)
    requires body.Fields?
    ensures e.time == now
    ensures body.temperature.None? ==> e.temperature == 0.0
    ensures body.humidity.None? ==> e.humidity == 0.0
    ensures body.pressure.None? ==> e.pressure == DEFAULT_PRESSURE
    ensures body.temperature.Some? ==> e.temperature == body.temperature.value
    ensures body.humidity.Some? ==> e.humidity == body.humidity.value
    ensures body.pressure.Some? ==> e.pressure == body.pressure.value
  {
    Entry(now, OrElse(body.temperature, 0.0), OrElse(body.humidity, 0.0), OrElse(body.pressure, DEFAULT_PRESSURE))
  }

  /** `calculateTrend`: the last value against the fifth from last, with a dead band of 0.5. */
  function CalculateTrend(data: seq<real>): (t: Trend)
    ensures t == Up <==> |data| >= 5 && data[|data| - 1] > data[|data| - 5] + 0.5
    ensures t == Down <==> |data| >= 5 && data[|data| - 1] < data[|data| - 5] - 0.5
  {
    if |data| < 5 then Stable
    else
      var lastValues := data[|data| - 5..];
      var first := lastValues[0];
      var last := lastValues[|lastValues| - 1];
      if last > first + 0.5 then Up
      else if last < first - 0.5 then Down
      else Stable
  }

  /**
   * The two back-ends agree on every trend the JavaScript one reports, and
   * the PHP one reports a change as soon as the JavaScript one does.
   */
  lemma TrendsAgree(data: seq<real>)
    ensures JsServer.GetTrend(data) == Up ==> CalculateTrend(data) == Up
    ensures JsServer.GetTrend(data) == Down ==> CalculateTrend(data) == Down
    ensures CalculateTrend(data) == Stable ==> JsServer.GetTrend(data) == Stable
  {
  }

  datatype Statistics = Statistics(temperature: Stat, humidity: Stat, pressure: Stat)

  function ColumnStat(data: seq<Entry>, q: Quantity): Stat
    requires |data| > 0
  {
    var col := Column(data, q);
    Summary(col, CalculateTrend(col))
  }

  /** `calculateStatistics`. */
  function CalculateStatistics(data: seq<Entry>): (s: Statistics)
    ensures |data| == 0 ==> s == Statistics(ZERO_STAT, ZERO_STAT, ZERO_STAT)
    ensures |data| > 0 ==>
      s.temperature.current == data[|data| - 1].temperature
      && s.humidity.current == data[|data| - 1].humidity
      && s.pressure.current == data[|data| - 1].pressure
    ensures forall st :: st in [s.temperature, s.humidity, s.pressure] ==>
      st.min <= st.current <= st.max && st.min <= st.average <= st.max
    ensures |data| > 0 ==> forall i :: 0 <= i < |data| ==>
      s.temperature.min <= data[i].temperature <= s.temperature.max
      && s.humidity.min <= data[i].humidity <= s.humidity.max
      && s.pressure.min <= data[i].pressure <= s.pressure.max
    ensures |data| > 0 ==> s.temperature.trend == CalculateTrend(Column(data, Temperature))
  {
    if |data| == 0 then Statistics(ZERO_STAT, ZERO_STAT, ZERO_STAT)
    else Statistics(ColumnStat(data, Temperature), ColumnStat(data, Humidity), ColumnStat(data, Pressure))
  }

  /** The `?json` response; `last_update` is `now`. */
  datatype ChartJson = ChartJson(charts: Charts, count: nat, lastUpdate: string)

  function Json(history: seq<Entry>, now: string): (j: ChartJson)
    ensures j.count == |history| == |j.charts.times| == |j.charts.temperatures|
    ensures |j.charts.humidities| == |j.charts.pressures| == j.count
    ensures forall i :: 0 <= i < |history| ==>
      j.charts.times[i] == history[i].time && j.charts.temperatures[i] == history[i].temperature
      && j.charts.humidities[i] == history[i].humidity && j.charts.pressures[i] == history[i].pressure
  {
    ChartJson(ChartsOf(history), |history|, now)
  }

  /** The colour bands are the same as the JavaScript page's, with temperature the default type. */
  lemma ColorBands(value: real)
    ensures ColorByValue(value, Temperature) == "#ff0000" <==> value >= 30.0
    ensures ColorByValue(value, Temperature) == "#4cc9f0" <==> value < 10.0
    ensures ColorByValue(value, Humidity) == "#ff922b" <==> value >= 80.0
    ensures ColorByValue(value, Pressure) == "#364fc7" <==> value >= 1020.0
  {
  }

  /** The status column of a row: temperature only, hot before cold. */
  function RowStatus(temp: real): (s: JsServer.Status)
    ensures s.level == JsServer.Bad <==> temp > 30.0
    ensures s.level == JsServer.Warn <==> temp < 15.0
  {
    if temp > 30.0 then JsServer.Status("Hot", JsServer.Bad)
    else if temp < 15.0 then JsServer.Status("Cold", JsServer.Warn)
    else JsServer.Status("Normal", JsServer.Good)
  }

  function RowTrend(temp: real, above: real): Trend
  {
    if temp > above + 0.5 then Up
    else if temp < above - 0.5 then Down
    else Stable
  }

  function RowAt(display: seq<Entry>, i: nat): JsServer.Row
    requires i < |display|
  {
    JsServer.Row(display[i], RowStatus(display[i].temperature),
                 if i > 0 then RowTrend(display[i].temperature, display[i - 1].temperature) else Stable)
  }

  /** The table: the first ten of the reversed history. */
  function TableRows(history: seq<Entry>): (rows: seq<JsServer.Row>)
    ensures |rows| == if |history| < 10 then |history| else 10
    ensures forall i :: 0 <= i < |rows| ==> rows[i].entry == history[|history| - 1 - i]
  {
    var reversedHistory := Reverse(history);
    var displayHistory := if |reversedHistory| < 10 then reversedHistory else reversedHistory[..10];
    seq(|displayHistory|, i requires 0 <= i < |displayHistory| => RowAt(displayHistory, i))
  }

  /**
   * The PHP table shows the same rows as the JavaScript one collapsed, with
   * the same trend arrows; its status is the JavaScript temperature status.
   */
  lemma TableMatchesJs(history: seq<Entry>, i: nat)
    requires i < |TableRows(history)|
    ensures |TableRows(history)| == |JsServer.UpdateTable(history, false)|
    ensures TableRows(history)[i].entry == JsServer.UpdateTable(history, false)[i].entry
    ensures TableRows(history)[i].trend == JsServer.UpdateTable(history, false)[i].trend
    ensures TableRows(history)[i].status == JsServer.GetStatus(history[|history| - 1 - i].temperature, Temperature)
  {
    var d := Reverse(Last(history, 10));
    SameDisplay(history, d);
    RowAgrees(d, i);
  }

  /** Both tables are built row by row from the same newest-first selection `d`. */
  lemma SameDisplay(history: seq<Entry>, d: seq<Entry>)
    requires d == Reverse(Last(history, 10))
    ensures |TableRows(history)| == |d| == |JsServer.UpdateTable(history, false)|
    ensures forall i :: 0 <= i < |d| ==> TableRows(history)[i] == RowAt(d, i)
    ensures forall i :: 0 <= i < |d| ==> JsServer.UpdateTable(history, false)[i] == JsServer.RowAt(d, i)
  {
    PhpDisplay(history, d);
    JsDisplay(history, d);
  }

  lemma PhpDisplay(history: seq<Entry>, d: seq<Entry>)
    requires d == Reverse(Last(history, 10))
    ensures TableRows(history) == seq(|d|, i requires 0 <= i < |d| => RowAt(d, i))
  {
    var r := Reverse(history);
    assert (if |r| < 10 then r else r[..10]) == d by {
      NewestFirst(history, 10);
    }
  }

  lemma JsDisplay(history: seq<Entry>, d: seq<Entry>)
    requires d == Reverse(Last(history, 10))
    ensures JsServer.UpdateTable(history, false) == seq(|d|, i requires 0 <= i < |d| => JsServer.RowAt(d, i))
  {
  }

  lemma RowAgrees(d: seq<Entry>, i: nat)
    requires i < |d|
    ensures RowAt(d, i).entry == JsServer.RowAt(d, i).entry
    ensures RowAt(d, i).trend == JsServer.RowAt(d, i).trend
    ensures RowAt(d, i).status == JsServer.GetStatus(d[i].temperature, Temperature)
  {
  }
}
