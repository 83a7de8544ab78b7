/** The older calendar event source (src/composables/useIcalSource.ts): every
    VEVENT with a start becomes an event, cancelled or not, in feed order. */
module LegacyCalendarSource {
  import opened Wrappers
  import opened Ical
  import opened Recurrence
  import Text
  import opened CalendarSource

  /** The `.map` callback: one event per component, classes from its STATUS. */
  function MapVevent(agenda: AgendaConfig, v: Component): (e: CalendarEvent)
    ensures e.id == Uid(v) && e.title == v.summary.GetOr(UNTITLED)
    ensures e.start == StartInstant(v) && e.end == EndInstant(v) && (e.allDay ==> e.start.Some?)
    ensures e.allDay == AllDay(v)
    ensures e.color == agenda.color && e.classNames == ClassNames(ResolveStatus(v.status))
    ensures e.extendedProps == ExtendedProps(ResolveStatus(v.status), v.description.GetOr(""), v.location.GetOr(""))
  {
    var status := ResolveStatus(v.status);
    CalendarEvent(Uid(v), v.summary.GetOr(UNTITLED), StartInstant(v), EndInstant(v), AllDay(v), agenda.color,
                  ClassNames(status), ExtendedProps(status, v.description.GetOr(""), v.location.GetOr("")))
  }

  /** `vevents.map(...).filter((e) => e.start !== null)`. */
  function FeedEvents(agenda: AgendaConfig, vs: seq<Component>): (r: seq<CalendarEvent>)
    ensures |r| <= |vs|
  {
    if vs == [] then []
    else (if StartInstant(vs[0]).Some? then [MapVevent(agenda, vs[0])] else []) + FeedEvents(agenda, vs[1..])
  }

  /** The components that have a DTSTART value, in feed order. */
  function Started(vs: seq<Component>): seq<Component> {
    if vs == [] then []
    else (if StartInstant(vs[0]).Some? then [vs[0]] else []) + Started(vs[1..])
  }

  /** The callback an invocation calls for the fetch outcome `f`. */
  function Deliver(agenda: AgendaConfig, f: Fetch): (d: Delivery)
    ensures d.SuccessCallback? <==> FeedComponents(f).Success?
    ensures f.Response? && !f.ok ==> d == FailureCallback("HTTP " + Text.IntToString(f.status))
  {
    match FeedComponents(f)
    case Failure(m) => FailureCallback(m)
    case Success(vs) => SuccessCallback(FeedEvents(agenda, vs))
  }

  /** The emitted list is exactly the components with a start, in feed order, each mapped. */
  lemma {:induction false} FeedEventsAreStartedComponents(agenda: AgendaConfig, vs: seq<Component>)
    ensures |FeedEvents(agenda, vs)| == |Started(vs)|
    ensures forall i :: 0 <= i < |Started(vs)| ==> FeedEvents(agenda, vs)[i] == MapVevent(agenda, Started(vs)[i])
    ensures forall v :: v in Started(vs) <==> v in vs && StartInstant(v).Some?
  {
    if vs != [] {
      FeedEventsAreStartedComponents(agenda, vs[1..]);
      assert vs == [vs[0]] + vs[1..];
    }
  }

  /** A cancelled component is kept and tagged `event-cancelled`, exception or not. */
  lemma CancelledKept(agenda: AgendaConfig, vs: seq<Component>, v: Component)
    requires v in vs && StartInstant(v).Some? && ResolveStatus(v.status) == "CANCELLED"
    ensures MapVevent(agenda, v) in FeedEvents(agenda, vs)
    ensures MapVevent(agenda, v).classNames == [CANCELLED_CLASS]
  {
    FeedEventsAreStartedComponents(agenda, vs);
    var i :| 0 <= i < |Started(vs)| && Started(vs)[i] == v;
    assert FeedEvents(agenda, vs)[i] == MapVevent(agenda, v);
  }
}
