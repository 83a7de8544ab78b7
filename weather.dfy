/** The weather annotations (src/composables/useWeather.ts): the WMO weather
    code to icon table, the process-wide hourly cache filled from the
    forecast's parallel arrays, and the hour key an event is looked up by. */
module Weather {
  import opened Wrappers
  import opened Time
  import opened Text

  /** One hour of forecast. Precipitation and wind are only stored and read back. */
  datatype WeatherEntry = WeatherEntry(code: int, precip: real, wind: real)

  /** The thermometer shown for a code the table does not list. */
  const DEFAULT_ICON: string := "\U{1F321}\U{FE0F}"

  /** Icons for the weather interpretation codes of WMO code table 4677 that
      the forecast uses: clear to overcast, fog, drizzle, rain, snow, showers
      and thunderstorms. */
  const WMO_ICONS: map<int, string> := map[
    0 := "\U{2600}\U{FE0F}", 1 := "\U{1F324}\U{FE0F}", 2 := "\U{26C5}", 3 := "\U{2601}\U{FE0F}",
    45 := "\U{1F32B}\U{FE0F}", 48 := "\U{1F32B}\U{FE0F}",
    51 := "\U{1F326}\U{FE0F}", 53 := "\U{1F326}\U{FE0F}", 55 := "\U{1F327}\U{FE0F}",
    61 := "\U{2602}\U{FE0F}", 63 := "\U{1F327}\U{FE0F}", 65 := "\U{1F327}\U{FE0F}",
    71 := "\U{2744}\U{FE0F}", 73 := "\U{2744}\U{FE0F}", 75 := "\U{2744}\U{FE0F}",
    80 := "\U{1F326}\U{FE0F}", 81 := "\U{1F327}\U{FE0F}", 82 := "\U{26C8}\U{FE0F}",
    95 := "\U{26C8}\U{FE0F}", 96 := "\U{26C8}\U{FE0F}", 99 := "\U{26C8}\U{FE0F}"]

  /** `getWeatherIcon`: the table's icon, or the thermometer. */
  function GetWeatherIcon(code: int): (icon: string)
    ensures code in WMO_ICONS ==> icon == WMO_ICONS[code]
    ensures code !in WMO_ICONS ==> icon == DEFAULT_ICON
  {
    if code in WMO_ICONS then WMO_ICONS[code] else DEFAULT_ICON
  }

  /** The thermometer is shown exactly for the codes the table does not
      list, and every listed code is a two-digit WMO code. */
  lemma DefaultIconOnlyForUnlistedCodes(code: int)
    ensures GetWeatherIcon(code) == DEFAULT_ICON <==> code !in WMO_ICONS
    ensures code in WMO_ICONS ==> 0 <= code <= 99
  {
    if code in WMO_ICONS {
      assert WMO_ICONS[code][0] != DEFAULT_ICON[0];
    }
  }

  /** The `hourly` block of the forecast: parallel arrays indexed by hour. */
  datatype Hourly = Hourly(time: seq<string>, weatherCode: seq<int>, precipitation: seq<real>, windSpeed: seq<real>)

  /** Every timestamp has a code, a precipitation and a wind speed. */
  predicate Aligned(h: Hourly) {
    |h.weatherCode| >= |h.time| && |h.precipitation| >= |h.time| && |h.windSpeed| >= |h.time|
  }

  /** What fetching the forecast gives: a network error, or a response with its `ok` flag and status. */
  datatype WeatherFetch = WeatherNetworkError(message: string) | WeatherResponse(ok: bool, status: int, hourly: Hourly)

  /** The entry of hour `i`. */
  function EntryAt(h: Hourly, i: nat): WeatherEntry
    requires Aligned(h) && i < |h.time|
  {
    WeatherEntry(h.weatherCode[i], h.precipitation[i], h.windSpeed[i])
  }

  /** The map built from the first `n` hours, in index order. */
  function Zip(h: Hourly, n: nat): (m: map<string, WeatherEntry>)
    requires Aligned(h) && n <= |h.time|
    ensures n > 0 ==> h.time[n - 1] in m && m[h.time[n - 1]] == EntryAt(h, n - 1)
  {
    if n == 0 then map[] else Zip(h, n - 1)[h.time[n - 1] := EntryAt(h, n - 1)]
  }

  /** The zipped map holds exactly the timestamps seen so far. */
  lemma {:induction false} ZipKeys(h: Hourly, n: nat)
    requires Aligned(h) && n <= |h.time|
    ensures Zip(h, n).Keys == set i | 0 <= i < n :: h.time[i]
  {
    if n > 0 {
      ZipKeys(h, n - 1);
      assert (set i | 0 <= i < n :: h.time[i]) == (set i | 0 <= i < n - 1 :: h.time[i]) + {h.time[n - 1]};
    }
  }

  /** A timestamp maps to the entry of its last index: a later duplicate
      overwrites an earlier one, as in the source's `forEach`. */
  lemma {:induction false} ZipLastWins(h: Hourly, n: nat, i: nat)
    requires Aligned(h) && n <= |h.time| && i < n
    requires forall j :: i < j < n ==> h.time[j] != h.time[i]
    ensures h.time[i] in Zip(h, n) && Zip(h, n)[h.time[i]] == EntryAt(h, i)
  {
    if i < n - 1 {
      ZipLastWins(h, n - 1, i);
      assert h.time[n - 1] != h.time[i];
    }
  }

  /** The key of a local date and hour: the year unpadded, the other fields
      padded to two digits. */
  function HourKey(d: CivilDate, hour: int): (k: string)
    ensures |k| >= 13 && k[|k| - 3..] == ":00"
  {
    IntToString(d.year) + "-" + Pad2(d.month) + "-" + Pad2(d.day) + "T" + Pad2(hour) + ":00"
  }

  /** The cache key of the local hour of `t`: `YYYY-MM-DDTHH:00`. */
  function WeatherKey(z: Zone, t: Instant): (k: string)
    ensures |k| >= 13 && k[|k| - 3..] == ":00"
  {
    HourKey(LocalDate(z, t), LocalHour(z, t))
  }

  /** Every instant of one local hour is looked up under the same key. */
  lemma SameHourSameKey(z: Zone, t: Instant, u: Instant)
    requires LocalHourIndex(z, t) == LocalHourIndex(z, u)
    ensures WeatherKey(z, t) == WeatherKey(z, u)
  {
    SameLocalHour(z, t, u);
  }

  /** Four-digit years print as four digits. */
  lemma {:induction false} FourDigitYear(y: int)
    requires 1000 <= y <= 9999
    ensures |IntToString(y)| == 4
  {
    assert NatToString(y / 1000) == [DigitChar(y / 1000)];
    assert NatToString(y / 100) == NatToString(y / 1000) + [DigitChar(y / 100 % 10)];
    assert NatToString(y / 10) == NatToString(y / 100) + [DigitChar(y / 10 % 10)];
  }

  /** Where the fields sit in a key whose year has four characters. */
  lemma KeyFields(y: string, mo: string, da: string, hh: string)
    requires |y| == 4 && |mo| == 2 && |da| == 2 && |hh| == 2
    ensures var k := y + "-" + mo + "-" + da + "T" + hh + ":00";
      |k| == 16 && k[..4] == y && k[4] == '-' && k[5..7] == mo && k[7] == '-' &&
      k[8..10] == da && k[10] == 'T' && k[11..13] == hh && k[13..] == ":00"
  {
  }

  /** For a four-digit year and in-range fields, the key has the fixed
      layout `YYYY-MM-DDTHH:00` and its fields read back as the date and
      hour. */
  lemma HourKeyLayout(d: CivilDate, hour: int)
    requires 1000 <= d.year <= 9999 && 1 <= d.month <= 12 && 1 <= d.day <= 31 && 0 <= hour < 24
    ensures |HourKey(d, hour)| == 16
    ensures HourKey(d, hour)[4] == '-' && HourKey(d, hour)[7] == '-' && HourKey(d, hour)[10] == 'T'
    ensures HourKey(d, hour)[13..] == ":00"
    ensures ParseInt(HourKey(d, hour)[..4]) == Some(d.year)
    ensures ParseInt(HourKey(d, hour)[5..7]) == Some(d.month)
    ensures ParseInt(HourKey(d, hour)[8..10]) == Some(d.day)
    ensures ParseInt(HourKey(d, hour)[11..13]) == Some(hour)
  {
    FourDigitYear(d.year);
    ParseNatToString(d.year);
    ParsePad2(d.month);
    ParsePad2(d.day);
    ParsePad2(hour);
    KeyFields(IntToString(d.year), Pad2(d.month), Pad2(d.day), Pad2(hour));
  }

  /** Distinct local hours of four-digit years have distinct keys. */
  lemma HourKeyInjective(d: CivilDate, h: int, e: CivilDate, g: int)
    requires 1000 <= d.year <= 9999 && 1 <= d.month <= 12 && 1 <= d.day <= 31 && 0 <= h < 24
    requires 1000 <= e.year <= 9999 && 1 <= e.month <= 12 && 1 <= e.day <= 31 && 0 <= g < 24
    requires HourKey(d, h) == HourKey(e, g)
    ensures d == e && h == g
  {
    HourKeyLayout(d, h);
    HourKeyLayout(e, g);
  }

  /** The module-level cache, shared by the whole page. */
  class WeatherCache {
    var cache: map<string, WeatherEntry>

    constructor ()
      ensures cache == map[]
    {
      cache := map[];
    }

    /** `fetchWeather`: on an ok response the cache is replaced by the
        zipped hours, old keys included, so a key absent from the new data
        disappears; a failed request or a non-ok response throws and leaves
        the cache untouched. */
    method FetchWeather(f: WeatherFetch) returns (thrown: Option<string>)
      requires f.WeatherResponse? && f.ok ==> Aligned(f.hourly)
      modifies this
      ensures f.WeatherResponse? && f.ok ==> thrown == None && cache == Zip(f.hourly, |f.hourly.time|)
      ensures f.WeatherResponse? && !f.ok ==> thrown == Some("M\U{E9}t\U{E9}o HTTP " + IntToString(f.status)) && cache == old(cache)
      ensures f.WeatherNetworkError? ==> thrown == Some(f.message) && cache == old(cache)
    {
      if f.WeatherNetworkError? {
        return Some(f.message);
      }
      if !f.ok {
        return Some("M\U{E9}t\U{E9}o HTTP " + IntToString(f.status));
      }
      var h := f.hourly;
      var m: map<string, WeatherEntry> := map[];
      for i := 0 to |h.time|
        invariant m == Zip(h, i)
      {
        m := m[h.time[i] := WeatherEntry(h.weatherCode[i], h.precipitation[i], h.windSpeed[i])];
      }
      cache := m;
      thrown := None;
    }

    /** `getWeatherForEvent`: the entry of the event's local hour, or nothing. */
    function GetWeatherForEvent(z: Zone, t: Instant): (r: Option<WeatherEntry>)
      reads this
      ensures WeatherKey(z, t) !in cache <==> r.None?
      ensures r.Some? ==> r.value == cache[WeatherKey(z, t)]
    {
      var key := WeatherKey(z, t);
      if key in cache then Some(cache[key]) else None
    }
  }
}
