/** The older poll feed (src/composables/usePollEvents.ts): every VEVENT is
    mapped, with no recurrence-exception handling, then kept by the same day
    test and sorted; its `load` merges the feeds as the newer one does. */
module LegacyPollEvents {
  import opened Wrappers
  import opened Time
  import opened Ical
  import opened Recurrence
  import opened PollEvents
  import StableSort

  /** The `.map` callback: one event per component, whatever its STATUS or RECURRENCE-ID. */
  function MapVevent(agenda: AgendaConfig, v: Component): (e: PollEvent)
    ensures e.id == Uid(v) && e.startDate == StartInstant(v) && e.endDate == EndInstant(v)
    ensures e.title == v.summary.GetOr(UNTITLED) && e.description == v.description.GetOr("")
    ensures e.allDay == AllDay(v) && (e.allDay ==> e.startDate.Some?)
    ensures e.color == agenda.color && e.agendaName == agenda.name && e.agendaId == agenda.id
  {
    PollEvent(Uid(v), v.summary.GetOr(UNTITLED), v.description.GetOr(""),
              StartInstant(v), EndInstant(v), AllDay(v), agenda.color, agenda.name, agenda.id)
  }

  /** The `.filter` step: the events that pass the day test, in order. */
  function KeepInDay(z: Zone, w: DayWindow, es: seq<PollEvent>): (r: seq<PollEvent>)
    ensures |r| <= |es|
  {
    if es == [] then []
    else (if InDay(z, w, es[0]) then [es[0]] else []) + KeepInDay(z, w, es[1..])
  }

  function MapAll(agenda: AgendaConfig, vs: seq<Component>): (r: seq<PollEvent>)
    ensures |r| == |vs| && forall i :: 0 <= i < |vs| ==> r[i] == MapVevent(agenda, vs[i])
  {
    seq(|vs|, i requires 0 <= i < |vs| => MapVevent(agenda, vs[i]))
  }

  /** One agenda's events for the day. */
  function DayEvents(z: Zone, agenda: AgendaConfig, w: DayWindow, vs: seq<Component>): (r: seq<PollEvent>)
    ensures StableSort.SortedBy(r, StartKey)
  {
    StableSort.SortBy(KeepInDay(z, w, MapAll(agenda, vs)), StartKey)
  }

  /** What `fetchAgendaEvents` resolves to, or the message it rejects with. */
  function AgendaEvents(z: Zone, agenda: AgendaConfig, w: DayWindow, f: Fetch): (r: Result<seq<PollEvent>, string>)
    ensures r.Failure? <==> FeedComponents(f).Failure?
    ensures r.Failure? ==> r.error == FeedComponents(f).error
    ensures r.Success? ==> StableSort.SortedBy(r.value, StartKey)
  {
    match FeedComponents(f)
    case Failure(m) => Failure(m)
    case Success(vs) => Success(DayEvents(z, agenda, w, vs))
  }

  lemma {:induction false} KeepInDayMembers(z: Zone, w: DayWindow, es: seq<PollEvent>)
    ensures forall e :: e in KeepInDay(z, w, es) <==> e in es && InDay(z, w, e)
  {
    if es != [] {
      KeepInDayMembers(z, w, es[1..]);
      assert es == [es[0]] + es[1..];
    }
  }

  /** The day's events are exactly the mapped components whose start passes
      the day test; they are sorted by start, stably, and no more than the
      components. */
  lemma DayEventsExact(z: Zone, agenda: AgendaConfig, w: DayWindow, vs: seq<Component>, e: PollEvent)
    ensures e in DayEvents(z, agenda, w, vs) <==>
      InDay(z, w, e) && exists v :: v in vs && MapVevent(agenda, v) == e
    ensures StableSort.SortedBy(DayEvents(z, agenda, w, vs), StartKey)
    ensures forall k ::
              StableSort.WithKey(DayEvents(z, agenda, w, vs), StartKey, k) ==
              StableSort.WithKey(KeepInDay(z, w, MapAll(agenda, vs)), StartKey, k)
    ensures |DayEvents(z, agenda, w, vs)| <= |vs|
  {
    var mapped := MapAll(agenda, vs);
    var kept := KeepInDay(z, w, mapped);
    StableSort.SortByIsStableSort(kept, StartKey);
    assert e in DayEvents(z, agenda, w, vs) <==> e in multiset(kept);
    KeepInDayMembers(z, w, mapped);
    if e in mapped {
      var i :| 0 <= i < |mapped| && mapped[i] == e;
      assert vs[i] in vs;
    }
    if exists v :: v in vs && MapVevent(agenda, v) == e {
      var v :| v in vs && MapVevent(agenda, v) == e;
      var i :| 0 <= i < |vs| && vs[i] == v;
      assert mapped[i] == e;
    }
  }

  /** Unlike the newer feed, a cancelled exception is shown like any other component. */
  lemma CancelledExceptionShown(z: Zone, agenda: AgendaConfig, w: DayWindow, vs: seq<Component>, x: Component)
    requires x in vs && IsException(x) && ResolveStatus(x.status) == "CANCELLED"
    requires InDay(z, w, MapVevent(agenda, x))
    ensures MapVevent(agenda, x) in DayEvents(z, agenda, w, vs)
    ensures PollEvents.MapVevent(agenda, ExceptionKeys(Exceptions(vs)), x, true).None?
  {
    DayEventsExact(z, agenda, w, vs, MapVevent(agenda, x));
  }

  function Settle(z: Zone, w: DayWindow, sources: seq<(AgendaConfig, Fetch)>): (r: seq<Result<seq<PollEvent>, string>>)
    ensures |r| == |sources| && forall i :: 0 <= i < |sources| ==> r[i] == AgendaEvents(z, sources[i].0, w, sources[i].1)
  {
    seq(|sources|, i requires 0 <= i < |sources| => AgendaEvents(z, sources[i].0, w, sources[i].1))
  }

  /** `load`: the same state, emptied before the fetches, and the same merge of the settled outcomes. */
  method Load(s: PollEventsState, z: Zone, w: DayWindow, sources: seq<(AgendaConfig, Fetch)>)
    modifies s
    ensures s.events == StableSort.SortBy(Fulfilled(Settle(z, w, sources)), StartKey)
    ensures !s.loading && s.error == None
  {
    s.BeginLoad();
    var results: seq<Result<seq<PollEvent>, string>> := [];
    for i := 0 to |sources|
      invariant results == Settle(z, w, sources[..i])
    {
      results := results + [AgendaEvents(z, sources[i].0, w, sources[i].1)];
    }
    assert sources[..|sources|] == sources;
    s.CompleteLoad(results);
  }

  /** After a load the page lists exactly the day's events of the agendas
      whose feed was fetched and parsed, sorted by start. */
  lemma MergedEvents(z: Zone, w: DayWindow, sources: seq<(AgendaConfig, Fetch)>, e: PollEvent)
    ensures StableSort.SortedBy(StableSort.SortBy(Fulfilled(Settle(z, w, sources)), StartKey), StartKey)
    ensures e in StableSort.SortBy(Fulfilled(Settle(z, w, sources)), StartKey) <==>
      exists i :: 0 <= i < |sources| && FeedComponents(sources[i].1).Success? &&
        e in DayEvents(z, sources[i].0, w, FeedComponents(sources[i].1).value)
  {
    var results := Settle(z, w, sources);
    StableSort.SortByIsStableSort(Fulfilled(results), StartKey);
    assert e in StableSort.SortBy(Fulfilled(results), StartKey) <==> e in multiset(Fulfilled(results));
    FulfilledMembers(results, e);
  }
}
