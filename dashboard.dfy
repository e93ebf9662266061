/**
 * What the three web dashboards (`js_website/server.js`,
 * `python_website/index.php`, `esp32_meteo/src/index.php`) have in common: a
 * history of readings that grows at the end and loses its oldest entry once
 * it passes a cap, the per-quantity columns charted from it, the newest-first
 * selection the tables show, the summary figures and the colour bands.
 *
 * Sensor values are `real`: only comparisons, sums and one division are
 * modelled, never the binary floating-point rounding of JavaScript or PHP.
 */
module Dashboard {

  datatype Option<T> = None | Some(value: T)

  /** One stored reading; `time` is the clock text the back-end stamped it with. */
  datatype Entry = Entry(time: string, temperature: real, humidity: real, pressure: real)

  datatype Quantity = Temperature | Humidity | Pressure

  function Reading(e: Entry, q: Quantity): real
  {
    match q
    case Temperature => e.temperature
    case Humidity => e.humidity
    case Pressure => e.pressure
  }

  datatype Trend = Up | Down | Stable

  function Flip(t: Trend): Trend
  {
    match t
    case Up => Down
    case Down => Up
    case Stable => Stable
  }

  /**
   * Appending `x` to a history capped at `cap` entries: the new entry goes
   * last and, when that makes the history longer than the cap, the single
   * oldest entry is dropped (`push` then `shift`, `[] =` then `array_shift`).
   */
  function Capped<T>(h: seq<T>, x: T, cap: nat): (r: seq<T>)
    requires 0 < cap
    ensures |h| <= cap ==> |r| <= cap
    ensures |r| > 0 && r[|r| - 1] == x
    ensures |h| < cap ==> r == h + [x]
    ensures |h| >= cap ==> r == h[1..] + [x]
  {
    var grown := h + [x];
    if |grown| > cap then grown[1..] else grown
  }

  /** The last `n` elements of `s` (all of them when there are fewer). */
  function Last<T>(s: seq<T>, n: nat): (r: seq<T>)
    ensures |r| == if |s| < n then |s| else n
    ensures forall i :: 0 <= i < |r| ==> r[i] == s[|s| - |r| + i]
  {
    if |s| < n then s else s[|s| - n..]
  }

  /** The history left by appending every element of `xs`, in order, through `Capped`. */
  function Replay<T>(h: seq<T>, xs: seq<T>, cap: nat): seq<T>
    requires 0 < cap
    decreases |xs|
  {
    if xs == [] then h else Replay(Capped(h, xs[0], cap), xs[1..], cap)
  }

  /**
   * Any run of appends to a history within the cap keeps exactly the newest
   * `cap` of all the readings, in arrival order.
   */
  lemma {:induction false} ReplayKeepsNewest<T>(h: seq<T>, xs: seq<T>, cap: nat)
    requires 0 < cap && |h| <= cap
    ensures Replay(h, xs, cap) == Last(h + xs, cap)
    decreases |xs|
  {
    if xs == [] {
      assert h + xs == h;
    } else {
      var h1 := Capped(h, xs[0], cap);
      assert Replay(h, xs, cap) == Replay(h1, xs[1..], cap);
      ReplayKeepsNewest(h1, xs[1..], cap);
      assert h + xs == (h + [xs[0]]) + xs[1..];
      CappedSuffix(h, xs[0], cap);
      LastOfSuffix(h + [xs[0]], h1, xs[1..], cap);
    }
  }

  /** A capped append is a suffix of the plain append that keeps all of it or at least `cap` entries. */
  lemma CappedSuffix<T>(h: seq<T>, x: T, cap: nat)
    requires 0 < cap && |h| <= cap
    ensures |Capped(h, x, cap)| <= |h + [x]|
    ensures Capped(h, x, cap) == (h + [x])[|h + [x]| - |Capped(h, x, cap)|..]
    ensures |Capped(h, x, cap)| >= cap || |Capped(h, x, cap)| == |h + [x]|
  {
  }

  /**
   * Taking the newest `n` of `t + rest` is the same as taking them of
   * `s + rest` when `t` is a suffix of `s` holding at least `n` of its
   * elements (or all of them).
   */
  lemma LastOfSuffix<T>(s: seq<T>, t: seq<T>, rest: seq<T>, n: nat)
    requires |t| <= |s| && t == s[|s| - |t|..]
    requires |t| >= n || |t| == |s|
    ensures Last(t + rest, n) == Last(s + rest, n)
  {
    var a, b := Last(t + rest, n), Last(s + rest, n);
    assert |a| == |b|;
    forall i | 0 <= i < |a|
      ensures a[i] == b[i]
    {
      var k := |t + rest| - |a| + i;
      if k < |t| {
        assert (t + rest)[k] == s[|s| - |t| + k];
      }
    }
  }

  /** `s` back to front. */
  function Reverse<T>(s: seq<T>): (r: seq<T>)
    ensures |r| == |s|
    ensures forall i :: 0 <= i < |s| ==> r[i] == s[|s| - 1 - i]
  {
    if s == [] then [] else [s[|s| - 1]] + Reverse(s[..|s| - 1])
  }

  /**
   * The two ways the tables pick their rows agree: the first `n` of the
   * reversed history (`array_slice(array_reverse(h), 0, n)`) are the last `n`
   * reversed (`h.slice(-n).reverse()`).
   */
  lemma NewestFirst<T>(s: seq<T>, n: nat)
    ensures (if |s| < n then Reverse(s) else Reverse(s)[..n]) == Reverse(Last(s, n))
  {
  }

  /** One quantity of every entry, in history order (`array_column`, `history.map`). */
  function Column(h: seq<Entry>, q: Quantity): (c: seq<real>)
    ensures |c| == |h|
    ensures forall i :: 0 <= i < |h| ==> c[i] == Reading(h[i], q)
  {
    if h == [] then [] else Column(h[..|h| - 1], q) + [Reading(h[|h| - 1], q)]
  }

  /** The time stamps of every entry, in history order. */
  function Times(h: seq<Entry>): (c: seq<string>)
    ensures |c| == |h|
    ensures forall i :: 0 <= i < |h| ==> c[i] == h[i].time
  {
    if h == [] then [] else Times(h[..|h| - 1]) + [h[|h| - 1].time]
  }

  /** A column of the capped history is the capped column. */
  lemma ColumnCapped(h: seq<Entry>, e: Entry, cap: nat, q: Quantity)
    requires 0 < cap
    ensures Column(Capped(h, e, cap), q) == Capped(Column(h, q), Reading(e, q), cap)
  {
    var a, b := Column(Capped(h, e, cap), q), Capped(Column(h, q), Reading(e, q), cap);
    assert |a| == |b|;
    forall i | 0 <= i < |a|
      ensures a[i] == b[i]
    {
    }
  }

  /** The four arrays a chart is drawn from. */
  datatype Charts = Charts(times: seq<string>, temperatures: seq<real>, humidities: seq<real>, pressures: seq<real>)

  function ChartsOf(h: seq<Entry>): (c: Charts)
    ensures |c.times| == |c.temperatures| == |c.humidities| == |c.pressures| == |h|
    ensures forall i :: 0 <= i < |h| ==>
      c.times[i] == h[i].time && c.temperatures[i] == h[i].temperature
      && c.humidities[i] == h[i].humidity && c.pressures[i] == h[i].pressure
  {
    Charts(Times(h), Column(h, Temperature), Column(h, Humidity), Column(h, Pressure))
  }

  function Min(s: seq<real>): (m: real)
    requires |s| > 0
    ensures m in s
    ensures forall i :: 0 <= i < |s| ==> m <= s[i]
  {
    if |s| == 1 then s[0]
    else
      var rest := Min(s[1..]);
      if s[0] <= rest then s[0] else rest
  }

  function Max(s: seq<real>): (m: real)
    requires |s| > 0
    ensures m in s
    ensures forall i :: 0 <= i < |s| ==> s[i] <= m
  {
    if |s| == 1 then s[0]
    else
      var rest := Max(s[1..]);
      if s[0] >= rest then s[0] else rest
  }

  function Sum(s: seq<real>): real
  {
    if s == [] then 0.0 else s[0] + Sum(s[1..])
  }

  function Average(s: seq<real>): real
    requires |s| > 0
  {
    Sum(s) / |s| as real
  }

  /** A sum of `|s|` values that all lie in `[lo, hi]` lies in `[|s|·lo, |s|·hi]`. */
  lemma {:induction false} SumBetween(s: seq<real>, lo: real, hi: real)
    requires forall i :: 0 <= i < |s| ==> lo <= s[i] <= hi
    ensures |s| as real * lo <= Sum(s) <= |s| as real * hi
  {
    if s != [] {
      SumBetween(s[1..], lo, hi);
      assert |s| as real * lo == (|s| - 1) as real * lo + lo;
      assert |s| as real * hi == (|s| - 1) as real * hi + hi;
    }
  }

  /** The average of values that all lie in `[lo, hi]` lies there too. */
  lemma AverageBetween(s: seq<real>, lo: real, hi: real)
    requires |s| > 0
    requires forall i :: 0 <= i < |s| ==> lo <= s[i] <= hi
    ensures lo <= Average(s) <= hi
  {
    SumBetween(s, lo, hi);
    QuotientBetween(Sum(s), |s| as real, lo, hi);
  }

  lemma QuotientBetween(x: real, n: real, lo: real, hi: real)
    requires 0.0 < n && n * lo <= x <= n * hi
    ensures lo <= x / n <= hi
  {
    assert (x / n) * n == x;
  }

  /** The figures shown for one quantity. */
  datatype Stat = Stat(current: real, average: real, min: real, max: real, trend: Trend)

  const ZERO_STAT := Stat(0.0, 0.0, 0.0, 0.0, Stable)

  /** The figures of a non-empty column: its newest value, average, extremes and the given trend. */
  function Summary(col: seq<real>, trend: Trend): (st: Stat)
    requires |col| > 0
    ensures st.current == col[|col| - 1] && st.trend == trend
    ensures st.min in col && st.max in col
    ensures forall i :: 0 <= i < |col| ==> st.min <= col[i] <= st.max
    ensures st.min <= st.average <= st.max
    ensures st.average == Sum(col) / |col| as real
  {
    AverageBetween(col, Min(col), Max(col));
    Stat(col[|col| - 1], Average(col), Min(col), Max(col), trend)
  }

  const TEMPERATURE_COLORS: seq<string> := ["#4cc9f0", "#4361ee", "#7209b7", "#f72585", "#ff0000"]
  const HUMIDITY_COLORS: seq<string> := ["#ff6b6b", "#51cf66", "#ffd43b", "#ff922b"]
  const PRESSURE_COLORS: seq<string> := ["#748ffc", "#5c7cfa", "#364fc7"]

  /** The colour a value is drawn in (`getColorByValue`). */
  function ColorByValue(value: real, q: Quantity): (c: string)
    ensures q == Temperature ==> c in TEMPERATURE_COLORS
    ensures q == Humidity ==> c in HUMIDITY_COLORS
    ensures q == Pressure ==> c in PRESSURE_COLORS
  {
    match q
    case Temperature =>
      if value < 10.0 then "#4cc9f0"
      else if value < 20.0 then "#4361ee"
      else if value < 25.0 then "#7209b7"
      else if value < 30.0 then "#f72585"
      else "#ff0000"
    case Humidity =>
      if value < 30.0 then "#ff6b6b"
      else if value < 60.0 then "#51cf66"
      else if value < 80.0 then "#ffd43b"
      else "#ff922b"
    case Pressure =>
      if value < 1000.0 then "#748ffc"
      else if value < 1020.0 then "#5c7cfa"
      else "#364fc7"
  }

  /** The band edges of each quantity's palette, ascending. */
  function Edges(q: Quantity): seq<real>
  {
    match q
    case Temperature => [10.0, 20.0, 25.0, 30.0]
    case Humidity => [30.0, 60.0, 80.0]
    case Pressure => [1000.0, 1020.0]
  }

  function Palette(q: Quantity): seq<string>
  {
    match q
    case Temperature => TEMPERATURE_COLORS
    case Humidity => HUMIDITY_COLORS
    case Pressure => PRESSURE_COLORS
  }

  /** How many band edges `value` has reached. */
  function Band(value: real, edges: seq<real>): (b: nat)
    ensures b <= |edges|
  {
    if edges == [] then 0 else (if edges[0] <= value then 1 else 0) + Band(value, edges[1..])
  }

  /** A larger value never falls in an earlier band. */
  lemma {:induction false} BandMonotone(v: real, w: real, edges: seq<real>)
    requires v <= w
    ensures Band(v, edges) <= Band(w, edges)
  {
    if edges != [] {
      BandMonotone(v, w, edges[1..]);
    }
  }

  /**
   * The colour is the palette entry of the value's band: the colour scale has
   * one more colour than edges and moves one step at each edge.
   */
  lemma ColorIsBand(value: real, q: Quantity)
    ensures |Palette(q)| == |Edges(q)| + 1
    ensures ColorByValue(value, q) == Palette(q)[Band(value, Edges(q))]
  {
    match q
    case Temperature =>
      BandOf4(value, 10.0, 20.0, 25.0, 30.0);
    case Humidity =>
      BandOf3(value, 30.0, 60.0, 80.0);
    case Pressure =>
      BandOf2(value, 1000.0, 1020.0);
  }

  lemma BandOf2(v: real, a: real, b: real)
    requires a < b
    ensures Band(v, [a, b]) == if v < a then 0 else if v < b then 1 else 2
  {
    assert [a, b][1..] == [b];
    assert [b][1..] == [];
  }

  lemma BandOf3(v: real, a: real, b: real, c: real)
    requires a < b < c
    ensures Band(v, [a, b, c]) == if v < a then 0 else if v < b then 1 else if v < c then 2 else 3
  {
    assert [a, b, c][1..] == [b, c];
    BandOf2(v, b, c);
  }

  lemma BandOf4(v: real, a: real, b: real, c: real, d: real)
    requires a < b < c < d
    ensures Band(v, [a, b, c, d]) == if v < a then 0 else if v < b then 1 else if v < c then 2 else if v < d then 3 else 4
  {
    assert [a, b, c, d][1..] == [b, c, d];
    BandOf3(v, b, c, d);
  }

  /** Colours change monotonically along each palette as the value grows. */
  lemma ColorMonotone(v: real, w: real, q: Quantity, i: nat, j: nat)
    requires v <= w
    requires i < |Palette(q)| && Palette(q)[i] == ColorByValue(v, q)
    requires j < |Palette(q)| && Palette(q)[j] == ColorByValue(w, q)
    ensures i <= j
  {
    ColorIsBand(v, q);
    ColorIsBand(w, q);
    BandMonotone(v, w, Edges(q));
    PaletteDistinct(q, i, Band(v, Edges(q)));
    PaletteDistinct(q, j, Band(w, Edges(q)));
  }

  lemma PaletteDistinct(q: Quantity, i: nat, j: nat)
    requires i < |Palette(q)| && j < |Palette(q)|
    requires Palette(q)[i] == Palette(q)[j]
    ensures i == j
  {
  }
}
