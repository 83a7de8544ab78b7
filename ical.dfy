/** The calendar components that the iCalendar parser hands to the core, the
    agendas they come from, and the outcome of fetching one agenda's feed. */
module Ical {
  import opened Wrappers
  import opened Time
  import Text

  /** One configured agenda. */
  datatype AgendaConfig = AgendaConfig(name: string, id: string, color: string)

  /** A DTSTART, DTEND or RECURRENCE-ID value: the instant of `toJSDate()` and
      whether it is a whole-day DATE value. */
  datatype DateValue = DateValue(instant: Instant, isDate: bool)

  /** The RECURRENCE-ID property (RFC 5545 section 3.8.4.4): absent, or
      present and then with or without a first value. */
  datatype RecurrenceId = NoRecurrenceId | HasRecurrenceId(value: Option<DateValue>)

  /** A VEVENT, through the parser's "first value of property" accessors. A
      missing property and a property without a value read the same. */
  datatype Component = Component(
    uid: Option<string>,
    summary: Option<string>,
    description: Option<string>,
    location: Option<string>,
    status: Option<string>,
    dtstart: Option<DateValue>,
    dtend: Option<DateValue>,
    recurrenceId: RecurrenceId)

  /** A component is an exception (an override of one occurrence) iff it
      carries a RECURRENCE-ID property, with or without a value. */
  predicate IsException(v: Component) {
    v.recurrenceId.HasRecurrenceId?
  }

  /** The STATUS of a component (RFC 5545 section 3.8.1.11): the raw value
      upper-cased, `CONFIRMED` when the property is absent. */
  function ResolveStatus(raw: Option<string>): (s: string)
    ensures raw.None? ==> s == "CONFIRMED"
    ensures raw.Some? ==> |s| == |raw.value| && forall i :: 0 <= i < |s| ==> s[i] == Text.UpperChar(raw.value[i])
  {
    match raw
    case None => "CONFIRMED"
    case Some(r) => Text.Upper(r)
  }

  function StartInstant(v: Component): Option<Instant> {
    match v.dtstart
    case None => None
    case Some(d) => Some(d.instant)
  }

  function EndInstant(v: Component): Option<Instant> {
    match v.dtend
    case None => None
    case Some(d) => Some(d.instant)
  }

  /** `startIcal?.isDate ?? false`. */
  function AllDay(v: Component): bool {
    v.dtstart.Some? && v.dtstart.value.isDate
  }

  /** What parsing a fetched body gives: the VEVENT subcomponents, or a parse error. */
  datatype Parse = Parsed(vevents: seq<Component>) | Malformed(message: string)

  /** What fetching a feed gives: a network error, or a response with its
      `ok` flag, its status code and the parse of its body. */
  datatype Fetch = NetworkError(message: string) | Response(ok: bool, status: int, body: Parse)

  /** The feed's VEVENTs, or the message of the error thrown on the way: a
      non-ok response throws `HTTP <status>` before the body is read. */
  function FeedComponents(f: Fetch): (r: Result<seq<Component>, string>)
    ensures r.Success? <==> (f.Response? && f.ok && f.body.Parsed?)
    ensures r.Success? ==> r.value == f.body.vevents
    ensures f.Response? && !f.ok ==> r == Failure("HTTP " + Text.IntToString(f.status))
  {
    match f
    case NetworkError(m) => Failure(m)
    case Response(ok, status, body) =>
      if !ok then Failure("HTTP " + Text.IntToString(status))
      else match body
        case Parsed(vs) => Success(vs)
        case Malformed(m) => Failure(m)
  }
}
