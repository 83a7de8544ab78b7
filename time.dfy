/** Instants and the local-time readings that JavaScript's `Date` takes from
    them. The platform's time-zone rules are not modelled: a `Zone` gives the
    offset of local time from UTC at each instant, whatever it is. */
module Time {

  /** An instant: milliseconds since the Unix epoch, what `Date.getTime()` returns.
      Two `Date` values with the same `toISOString()` are the same instant. */
  type Instant = int

  const MINUTE: int := 60000
  const HOUR: int := 3600000
  const DAY: int := 86400000

  /** The local time zone: the offset of local time from UTC, in milliseconds, at each instant. */
  datatype Zone = Zone(offset: Instant -> int)

  /** The local wall-clock reading of `t`, in milliseconds since the local epoch. */
  function Wall(z: Zone, t: Instant): int {
    t + z.offset(t)
  }

  /** `getHours()`. */
  function LocalHour(z: Zone, t: Instant): (h: int)
    ensures 0 <= h < 24
  {
    (Wall(z, t) / HOUR) % 24
  }

  /** `getMinutes()`. */
  function LocalMinute(z: Zone, t: Instant): (m: int)
    ensures 0 <= m < 60
  {
    (Wall(z, t) / MINUTE) % 60
  }

  /** `d.setHours(d.getHours(), d.getMinutes(), 0, 0)`: the seconds and
      milliseconds of the local reading are dropped. */
  function TruncateToMinute(z: Zone, t: Instant): (r: Instant)
    ensures r <= t < r + MINUTE
  {
    t - Wall(z, t) % MINUTE
  }

  /** Truncation goes back by less than a minute and lands on a whole local minute. */
  lemma TruncateToMinuteBounds(z: Zone, t: Instant)
    requires z.offset(TruncateToMinute(z, t)) == z.offset(t)
    ensures TruncateToMinute(z, t) <= t < TruncateToMinute(z, t) + MINUTE
    ensures Wall(z, TruncateToMinute(z, t)) % MINUTE == 0
  {
  }

  /** A proleptic Gregorian calendar date; `month` counts from 1. */
  datatype CivilDate = CivilDate(year: int, month: int, day: int)

  /** The calendar date of a day number counted from 1970-01-01 (the
      days-to-civil conversion of the proleptic Gregorian calendar). */
  function CivilFromDays(days: int): CivilDate {
    var z := days + 719468;
    var era := z / 146097;
    var doe := z - era * 146097;
    var yoe := (doe - doe / 1460 + doe / 36524 - doe / 146096) / 365;
    var doy := doe - (365 * yoe + yoe / 4 - yoe / 100);
    var mp := (5 * doy + 2) / 153;
    var day := doy - (153 * mp + 2) / 5 + 1;
    var month := if mp < 10 then mp + 3 else mp - 9;
    var year := yoe + era * 400;
    CivilDate(if month <= 2 then year + 1 else year, month, day)
  }

  /** The local calendar date of `t`: `getFullYear()`, `getMonth() + 1`, `getDate()`. */
  function LocalDate(z: Zone, t: Instant): CivilDate {
    CivilFromDays(Wall(z, t) / DAY)
  }

  /** The local hour that `t` falls in, counted from the local epoch. */
  function LocalHourIndex(z: Zone, t: Instant): int {
    Wall(z, t) / HOUR
  }

  /** Two instants in the same local hour share their local date and hour. */
  lemma SameLocalHour(z: Zone, t: Instant, u: Instant)
    requires LocalHourIndex(z, t) == LocalHourIndex(z, u)
    ensures LocalDate(z, t) == LocalDate(z, u)
    ensures LocalHour(z, t) == LocalHour(z, u)
  {
    var w, v := Wall(z, t), Wall(z, u);
    var h := w / HOUR;
    assert h == v / HOUR;
    DayOfHour(w);
    DayOfHour(v);
  }

  /** The local day is a function of the local hour. */
  lemma DayOfHour(w: int)
    ensures w / DAY == (w / HOUR) / 24
  {
    var h := w / HOUR;
    var r := w % HOUR;
    assert w == h * HOUR + r && 0 <= r < HOUR;
    var d := h / 24;
    var s := h % 24;
    assert h == d * 24 + s && 0 <= s < 24;
    assert w == d * DAY + (s * HOUR + r);
    assert 0 <= s * HOUR + r < DAY;
  }
}
