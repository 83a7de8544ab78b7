/** The calendar's event source (src/features/calendar/composables/useIcalSource.ts):
    the same recurrence-exception reconciliation as the poll feed, with the
    STATUS turned into CSS classes, and no day filter and no sort. */
module CalendarSource {
  import opened Wrappers
  import opened Time
  import opened Ical
  import opened Recurrence
  import Text

  datatype ExtendedProps = ExtendedProps(status: string, description: string, location: string)

  /** The event object handed to the calendar widget. */
  datatype CalendarEvent = CalendarEvent(
    id: string,
    title: string,
    start: Option<Instant>,
    end: Option<Instant>,
    allDay: bool,
    color: string,
    classNames: seq<string>,
    extendedProps: ExtendedProps)

  const UNTITLED: string := "(sans titre)"
  const TENTATIVE_CLASS: string := "event-tentative"
  const CANCELLED_CLASS: string := "event-cancelled"

  /** The classes of an event of the given (upper-cased) status: at most one. */
  function ClassNames(status: string): (r: seq<string>)
    ensures |r| <= 1
    ensures r == [TENTATIVE_CLASS] <==> status == "TENTATIVE"
    ensures r == [CANCELLED_CLASS] <==> status == "CANCELLED"
    ensures r == [] <==> status != "TENTATIVE" && status != "CANCELLED"
  {
    if status == "TENTATIVE" then [TENTATIVE_CLASS]
    else if status == "CANCELLED" then [CANCELLED_CLASS]
    else []
  }

  /** `mapVevent`: a cancelled exception and a master overridden by an
      exception give nothing; every other component gives its event. */
  function MapVevent(agenda: AgendaConfig, keys: set<OccurrenceKey>, v: Component, isException: bool): (r: Option<CalendarEvent>)
    ensures r.None? <==>
              || (isException && ResolveStatus(v.status) == "CANCELLED")
              || (!isException && StartInstant(v).Some? && OccurrenceKey(Uid(v), StartInstant(v).value) in keys)
    ensures r.Some? ==> r.value.id == Uid(v) && r.value.title == v.summary.GetOr(UNTITLED)
    ensures r.Some? ==> r.value.start == StartInstant(v) && r.value.end == EndInstant(v) && (r.value.allDay ==> r.value.start.Some?)
    ensures r.Some? ==> r.value.allDay == AllDay(v)
    ensures r.Some? ==> r.value.color == agenda.color && r.value.classNames == ClassNames(ResolveStatus(v.status))
    ensures r.Some? ==>
              r.value.extendedProps == ExtendedProps(ResolveStatus(v.status), v.description.GetOr(""), v.location.GetOr(""))
  {
    var status := ResolveStatus(v.status);
    if isException && status == "CANCELLED" then None
    else
      var start := StartInstant(v);
      if !isException && start.Some? && OccurrenceKey(Uid(v), start.value) in keys then None
      else Some(CalendarEvent(Uid(v), v.summary.GetOr(UNTITLED), start, EndInstant(v), AllDay(v), agenda.color,
                              ClassNames(status), ExtendedProps(status, v.description.GetOr(""), v.location.GetOr(""))))
  }

  function MapAll(agenda: AgendaConfig, keys: set<OccurrenceKey>, vs: seq<Component>, isException: bool): (r: seq<Option<CalendarEvent>>)
    ensures |r| == |vs| && forall i :: 0 <= i < |vs| ==> r[i] == MapVevent(agenda, keys, vs[i], isException)
  {
    seq(|vs|, i requires 0 <= i < |vs| => MapVevent(agenda, keys, vs[i], isException))
  }

  /** `.filter((e) => e !== null && e.start !== null)`. */
  function KeepStarted(cands: seq<Option<CalendarEvent>>): (r: seq<CalendarEvent>)
    ensures |r| <= |cands|
    ensures forall i :: 0 <= i < |r| ==> r[i].start.Some?
  {
    if cands == [] then []
    else (if cands[0].Some? && cands[0].value.start.Some? then [cands[0].value] else []) + KeepStarted(cands[1..])
  }

  /** The list passed to `successCallback` for a parsed feed. */
  function FeedEvents(agenda: AgendaConfig, vs: seq<Component>): (r: seq<CalendarEvent>)
    ensures forall i :: 0 <= i < |r| ==> r[i].start.Some?
  {
    var keys := ExceptionKeys(Exceptions(vs));
    KeepStarted(MapAll(agenda, keys, Masters(vs), false) + MapAll(agenda, keys, Exceptions(vs), true))
  }

  /** Which callback an invocation calls, and with what. */
  datatype Delivery = SuccessCallback(events: seq<CalendarEvent>) | FailureCallback(error: string)

  /** The callback an invocation calls for the fetch outcome `f`. */
  function Deliver(agenda: AgendaConfig, f: Fetch): (d: Delivery)
    ensures d.SuccessCallback? <==> FeedComponents(f).Success?
    ensures f.Response? && !f.ok ==> d == FailureCallback("HTTP " + Text.IntToString(f.status))
  {
    match FeedComponents(f)
    case Failure(m) => FailureCallback(m)
    case Success(vs) => SuccessCallback(FeedEvents(agenda, vs))
  }

  /** The `events` function of `buildEventSource(agenda)`, with the network replaced by its outcome. */
  method Events(agenda: AgendaConfig, f: Fetch) returns (d: Delivery)
    ensures d == Deliver(agenda, f)
  {
    var comps := FeedComponents(f);
    if comps.Failure? {
      return FailureCallback(comps.error);
    }
    var masters, exceptions := Partition(comps.value);
    var exceptionKeys := CollectExceptionKeys(exceptions);
    var events := KeepStarted(MapAll(agenda, exceptionKeys, masters, false) + MapAll(agenda, exceptionKeys, exceptions, true));
    d := SuccessCallback(events);
  }

  lemma {:induction false} KeepStartedAppend(a: seq<Option<CalendarEvent>>, b: seq<Option<CalendarEvent>>)
    ensures KeepStarted(a + b) == KeepStarted(a) + KeepStarted(b)
  {
    if a == [] {
      assert a + b == b;
    } else {
      assert (a + b)[1..] == a[1..] + b;
      KeepStartedAppend(a[1..], b);
    }
  }

  lemma {:induction false} KeepStartedMembers(cands: seq<Option<CalendarEvent>>)
    ensures forall e :: e in KeepStarted(cands) <==> Some(e) in cands && e.start.Some?
  {
    if cands != [] {
      KeepStartedMembers(cands[1..]);
      assert cands == [cands[0]] + cands[1..];
    }
  }

  lemma MapAllMembers(agenda: AgendaConfig, keys: set<OccurrenceKey>, vs: seq<Component>, isException: bool, e: CalendarEvent)
    ensures Some(e) in MapAll(agenda, keys, vs, isException) <==>
      exists v :: v in vs && MapVevent(agenda, keys, v, isException) == Some(e)
  {
    var m := MapAll(agenda, keys, vs, isException);
    if exists v :: v in vs && MapVevent(agenda, keys, v, isException) == Some(e) {
      var v :| v in vs && MapVevent(agenda, keys, v, isException) == Some(e);
      var i :| 0 <= i < |vs| && vs[i] == v;
      assert m[i] == Some(e);
    }
  }

  /** The emitted list is the surviving masters, in feed order, followed by
      the surviving exceptions, in feed order; each has a start, and an event
      is emitted iff it is the survivor of a master or of an exception. */
  lemma FeedEventsShape(agenda: AgendaConfig, vs: seq<Component>, e: CalendarEvent)
    ensures FeedEvents(agenda, vs) ==
              KeepStarted(MapAll(agenda, ExceptionKeys(Exceptions(vs)), Masters(vs), false)) +
              KeepStarted(MapAll(agenda, ExceptionKeys(Exceptions(vs)), Exceptions(vs), true))
    ensures forall c :: c in FeedEvents(agenda, vs) ==> c.start.Some?
    ensures e in FeedEvents(agenda, vs) <==>
              && e.start.Some?
              && exists v :: v in vs && MapVevent(agenda, ExceptionKeys(Exceptions(vs)), v, IsException(v)) == Some(e)
  {
    var keys := ExceptionKeys(Exceptions(vs));
    var left, right := MapAll(agenda, keys, Masters(vs), false), MapAll(agenda, keys, Exceptions(vs), true);
    KeepStartedAppend(left, right);
    KeepStartedMembers(left + right);
    MapAllMembers(agenda, keys, Masters(vs), false, e);
    MapAllMembers(agenda, keys, Exceptions(vs), true, e);
    PartitionIsExact(vs);
    if exists v :: v in vs && MapVevent(agenda, keys, v, IsException(v)) == Some(e) {
      var v :| v in vs && MapVevent(agenda, keys, v, IsException(v)) == Some(e);
      if IsException(v) {
        assert v in Exceptions(vs);
      } else {
        assert v in Masters(vs);
      }
    }
  }

  /** Only a master can carry the `event-cancelled` class: a cancelled exception is never emitted. */
  lemma CancelledClassOnlyOnMasters(agenda: AgendaConfig, vs: seq<Component>, e: CalendarEvent)
    requires e in FeedEvents(agenda, vs) && CANCELLED_CLASS in e.classNames
    ensures exists m ::
              && m in vs && !IsException(m) && ResolveStatus(m.status) == "CANCELLED"
              && MapVevent(agenda, ExceptionKeys(Exceptions(vs)), m, false) == Some(e)
  {
    FeedEventsShape(agenda, vs, e);
    var keys := ExceptionKeys(Exceptions(vs));
    var v :| v in vs && MapVevent(agenda, keys, v, IsException(v)) == Some(e);
    assert ClassNames(ResolveStatus(v.status)) == [CANCELLED_CLASS];
  }
}
