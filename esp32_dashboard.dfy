/**
 * The PHP page the ESP32 posts to (`esp32_meteo/src/index.php`): the history
 * lives in the session (`$_SESSION['data_history']`), is created empty on
 * first use, takes one entry per decodable POST and keeps at most 100.
 *
 * `session_start` and the session store are the `Session` object;
 * `json_decode` is modelled by its outcome, `floatval` by the number it
 * yields and `date('H:i:s')` by the parameter `now`.
 */
module Esp32Dashboard {
  import opened Dashboard

  const MAX_ENTRIES: nat := 100

  /** `Falsy` for a body `if ($input)` rejects; otherwise the fields, `None` where missing or null. */
  datatype Body = Falsy | Fields(temperature: Option<real>, humidity: Option<real>, pressure: Option<real>)

  /** The entry a decodable body is stored as: every missing reading is 0. */
  function EntryOf(body: Body, now: string): (e: Entry)
    requires body.Fields?
    ensures e.time == now
    ensures e.temperature == (if body.temperature.Some? then body.temperature.value else 0.0)
    ensures e.humidity == (if body.humidity.Some? then body.humidity.value else 0.0)
    ensures e.pressure == (if body.pressure.Some? then body.pressure.value else 0.0)
  {
    Entry(now,
          match body.temperature case Some(v) => v case None => 0.0,
          match body.humidity case Some(v) => v case None => 0.0,
          match body.pressure case Some(v) => v case None => 0.0)
  }

  class Session {
    /** Whether `data_history` is set in the session. */
    var isSet: bool
    var history: seq<Entry>

    predicate Valid()
      reads this
    {
      |history| <= MAX_ENTRIES
    }

    /** A session that has never held a history. */
    constructor()
      ensures Valid() && !isSet && history == []
    {
      isSet := false;
      history := [];
    }

    /** The top of the script: an absent history is initialised to empty, a present one is kept. */
    method Start()
      requires Valid()
      modifies this
      ensures Valid() && isSet
      ensures history == if old(isSet) then old(history) else []
    {
      if !isSet {
        history := [];
        isSet := true;
      }
    }

    /** The POST branch: a decodable body appends one entry, dropping the oldest past 100. */
    method Post(body: Body, now: string) returns (accepted: bool)
      requires Valid() && isSet
      modifies this`history
      ensures Valid()
      ensures accepted <==> body.Fields?
      ensures !accepted ==> history == old(history)
      ensures accepted ==> history == Capped(old(history), EntryOf(body, now), MAX_ENTRIES)
    {
      if body.Falsy? {
        return false;
      }
      var entry := EntryOf(body, now);
      history := history + [entry];
      if |history| > MAX_ENTRIES {
        history := history[1..];
      }
      return true;
    }

    /** The `?json` response: the four columns of the session history. */
    function Json(): (c: Charts)
      requires isSet
      reads this
      ensures |c.times| == |c.temperatures| == |c.humidities| == |c.pressures| == |history|
      ensures forall i :: 0 <= i < |history| ==>
        c.times[i] == history[i].time && c.temperatures[i] == history[i].temperature
        && c.humidities[i] == history[i].humidity && c.pressures[i] == history[i].pressure
    {
      ChartsOf(history)
    }
  }

  /**
   * However many readings have been posted into a session, it holds the
   * newest 100 of them (all of them if fewer), oldest first.
   */
  lemma SessionKeepsNewest(posted: seq<Entry>)
    ensures |Replay([], posted, MAX_ENTRIES)| == if |posted| < MAX_ENTRIES then |posted| else MAX_ENTRIES
    ensures forall i :: 0 <= i < |Replay([], posted, MAX_ENTRIES)| ==>
      Replay([], posted, MAX_ENTRIES)[i] == posted[|posted| - |Replay([], posted, MAX_ENTRIES)| + i]
  {
    ReplayKeepsNewest([], posted, MAX_ENTRIES);
    assert [] + posted == posted;
  }
}
