/** The events of the poll page (src/features/poll/composables/usePollEvents.ts):
    one agenda's reconciled occurrences that start on the chosen local day,
    sorted by start, and the `load` that merges all active agendas. */
module PollEvents {
  import opened Wrappers
  import opened Time
  import opened Ical
  import opened Recurrence
  import StableSort

  datatype PollEvent = PollEvent(
    id: string,
    title: string,
    description: string,
    startDate: Option<Instant>,
    endDate: Option<Instant>,
    allDay: bool,
    color: string,
    agendaName: string,
    agendaId: string)

  /** `[targetDay, nextDay)`: the local midnight of the chosen date and the
      local midnight of the next calendar day. */
  datatype DayWindow = DayWindow(targetDay: Instant, nextDay: Instant)

  const UNTITLED: string := "(sans titre)"

  /** The sort key of the comparator: `a.startDate?.getTime() ?? 0`. */
  function StartKey(e: PollEvent): int {
    e.startDate.GetOr(0)
  }

  /** `mapVevent`: a cancelled exception and a master overridden by an
      exception give nothing; every other component gives its event. */
  function MapVevent(agenda: AgendaConfig, keys: set<OccurrenceKey>, v: Component, isException: bool): (r: Option<PollEvent>)
    ensures isException && ResolveStatus(v.status) == "CANCELLED" ==> r.None?
    ensures !isException && StartInstant(v).Some? && OccurrenceKey(Uid(v), StartInstant(v).value) in keys ==> r.None?
    ensures r.None? ==>
              || (isException && ResolveStatus(v.status) == "CANCELLED")
              || (!isException && StartInstant(v).Some? && OccurrenceKey(Uid(v), StartInstant(v).value) in keys)
    ensures r.Some? ==> r.value.id == Uid(v) && r.value.startDate == StartInstant(v) && r.value.endDate == EndInstant(v)
    ensures r.Some? ==> r.value.title == v.summary.GetOr(UNTITLED) && r.value.description == v.description.GetOr("")
    ensures r.Some? ==> r.value.allDay == AllDay(v) && (r.value.allDay ==> r.value.startDate.Some?)
    ensures r.Some? ==> r.value.color == agenda.color && r.value.agendaName == agenda.name && r.value.agendaId == agenda.id
  {
    var status := ResolveStatus(v.status);
    if isException && status == "CANCELLED" then None
    else
      var start := StartInstant(v);
      if !isException && start.Some? && OccurrenceKey(Uid(v), start.value) in keys then None
      else Some(PollEvent(Uid(v), v.summary.GetOr(UNTITLED), v.description.GetOr(""),
                          start, EndInstant(v), AllDay(v), agenda.color, agenda.name, agenda.id))
  }

  /** `vs.map((v) => mapVevent(v, isException))`. */
  function MapAll(agenda: AgendaConfig, keys: set<OccurrenceKey>, vs: seq<Component>, isException: bool): (r: seq<Option<PollEvent>>)
    ensures |r| == |vs| && forall i :: 0 <= i < |vs| ==> r[i] == MapVevent(agenda, keys, vs[i], isException)
  {
    seq(|vs|, i requires 0 <= i < |vs| => MapVevent(agenda, keys, vs[i], isException))
  }

  /** `[...masters.map(mapVevent(·, false)), ...exceptions.map(mapVevent(·, true))]`. */
  function Reconciled(agenda: AgendaConfig, vs: seq<Component>): seq<Option<PollEvent>> {
    var keys := ExceptionKeys(Exceptions(vs));
    MapAll(agenda, keys, Masters(vs), false) + MapAll(agenda, keys, Exceptions(vs), true)
  }

  /** The day test of the filter: a start whose minute-truncated local reading
      falls in the window. */
  predicate InDay(z: Zone, w: DayWindow, e: PollEvent) {
    e.startDate.Some? && w.targetDay <= TruncateToMinute(z, e.startDate.value) < w.nextDay
  }

  /** `.filter(...)`: the present events that pass the day test, in order. */
  function KeepInDay(z: Zone, w: DayWindow, cands: seq<Option<PollEvent>>): (r: seq<PollEvent>)
    ensures |r| <= |cands|
  {
    if cands == [] then []
    else (if cands[0].Some? && InDay(z, w, cands[0].value) then [cands[0].value] else []) + KeepInDay(z, w, cands[1..])
  }

  /** One agenda's events for the day: reconciled, kept by the day test, stably sorted by start. */
  function DayEvents(z: Zone, agenda: AgendaConfig, w: DayWindow, vs: seq<Component>): (r: seq<PollEvent>)
    ensures StableSort.SortedBy(r, StartKey)
  {
    StableSort.SortBy(KeepInDay(z, w, Reconciled(agenda, vs)), StartKey)
  }

  /** What `fetchAgendaEvents` resolves to, or the message it rejects with. */
  function AgendaEvents(z: Zone, agenda: AgendaConfig, w: DayWindow, f: Fetch): (r: Result<seq<PollEvent>, string>)
    ensures r.Failure? <==> FeedComponents(f).Failure?
    ensures r.Failure? ==> r.error == FeedComponents(f).error
    ensures r.Success? ==> StableSort.SortedBy(r.value, StartKey)
  {
    match FeedComponents(f)
    case Failure(m) => Failure(m)
    case Success(vs) => Success(DayEvents(z, agenda, w, vs))
  }

  /** `fetchAgendaEvents`, with the network replaced by its outcome `f`. */
  method FetchAgendaEvents(z: Zone, agenda: AgendaConfig, w: DayWindow, f: Fetch) returns (r: Result<seq<PollEvent>, string>)
    ensures r == AgendaEvents(z, agenda, w, f)
  {
    var comps := FeedComponents(f);
    if comps.Failure? {
      return Failure(comps.error);
    }
    var vevents := comps.value;
    var masters, exceptions := Partition(vevents);
    var exceptionKeys := CollectExceptionKeys(exceptions);
    var candidates := MapAll(agenda, exceptionKeys, masters, false) + MapAll(agenda, exceptionKeys, exceptions, true);
    r := Success(StableSort.SortBy(KeepInDay(z, w, candidates), StartKey));
  }

  lemma {:induction false} KeepInDayMembers(z: Zone, w: DayWindow, cands: seq<Option<PollEvent>>)
    ensures forall e :: e in KeepInDay(z, w, cands) <==> Some(e) in cands && InDay(z, w, e)
  {
    if cands != [] {
      KeepInDayMembers(z, w, cands[1..]);
      assert cands == [cands[0]] + cands[1..];
    }
  }

  lemma MapAllMembers(agenda: AgendaConfig, keys: set<OccurrenceKey>, vs: seq<Component>, isException: bool, e: PollEvent)
    ensures Some(e) in MapAll(agenda, keys, vs, isException) <==>
      exists v :: v in vs && MapVevent(agenda, keys, v, isException) == Some(e)
  {
    var m := MapAll(agenda, keys, vs, isException);
    if exists v :: v in vs && MapVevent(agenda, keys, v, isException) == Some(e) {
      var v :| v in vs && MapVevent(agenda, keys, v, isException) == Some(e);
      var i :| 0 <= i < |vs| && vs[i] == v;
      assert m[i] == Some(e);
    }
  }

  lemma ReconciledMembers(agenda: AgendaConfig, vs: seq<Component>, e: PollEvent)
    ensures Some(e) in Reconciled(agenda, vs) <==>
      exists v :: v in vs && MapVevent(agenda, ExceptionKeys(Exceptions(vs)), v, IsException(v)) == Some(e)
  {
    var keys := ExceptionKeys(Exceptions(vs));
    var ms, xs := Masters(vs), Exceptions(vs);
    MapAllMembers(agenda, keys, ms, false, e);
    MapAllMembers(agenda, keys, xs, true, e);
    PartitionIsExact(vs);
    if exists v :: v in vs && MapVevent(agenda, keys, v, IsException(v)) == Some(e) {
      var v :| v in vs && MapVevent(agenda, keys, v, IsException(v)) == Some(e);
      if IsException(v) {
        assert v in xs;
      } else {
        assert v in ms;
      }
    }
  }

  /** The day's events are exactly the events of the feed's components that
      survive reconciliation and start on the day: nothing lost, nothing added. */
  lemma DayEventsExact(z: Zone, agenda: AgendaConfig, w: DayWindow, vs: seq<Component>, e: PollEvent)
    ensures e in DayEvents(z, agenda, w, vs) <==>
      InDay(z, w, e) && exists v :: v in vs && MapVevent(agenda, ExceptionKeys(Exceptions(vs)), v, IsException(v)) == Some(e)
  {
    var kept := KeepInDay(z, w, Reconciled(agenda, vs));
    StableSort.SortByIsStableSort(kept, StartKey);
    assert e in DayEvents(z, agenda, w, vs) <==> e in multiset(kept);
    KeepInDayMembers(z, w, Reconciled(agenda, vs));
    ReconciledMembers(agenda, vs, e);
  }

  /** Every event of the day has a start whose minute-truncated local reading
      lies in `[targetDay, nextDay)`; the list is sorted by start, stably, and
      is no longer than the feed. */
  lemma DayEventsShape(z: Zone, agenda: AgendaConfig, w: DayWindow, vs: seq<Component>)
    ensures forall e :: e in DayEvents(z, agenda, w, vs) ==>
      e.startDate.Some? && w.targetDay <= TruncateToMinute(z, e.startDate.value) < w.nextDay
    ensures StableSort.SortedBy(DayEvents(z, agenda, w, vs), StartKey)
    ensures forall k ::
              StableSort.WithKey(DayEvents(z, agenda, w, vs), StartKey, k) ==
              StableSort.WithKey(KeepInDay(z, w, Reconciled(agenda, vs)), StartKey, k)
    ensures multiset(DayEvents(z, agenda, w, vs)) == multiset(KeepInDay(z, w, Reconciled(agenda, vs)))
    ensures |DayEvents(z, agenda, w, vs)| <= |vs|
  {
    var kept := KeepInDay(z, w, Reconciled(agenda, vs));
    StableSort.SortByIsStableSort(kept, StartKey);
    KeepInDayMembers(z, w, Reconciled(agenda, vs));
    PartitionIsExact(vs);
    forall e | e in DayEvents(z, agenda, w, vs)
      ensures e.startDate.Some? && w.targetDay <= TruncateToMinute(z, e.startDate.value) < w.nextDay
    {
      assert e in multiset(DayEvents(z, agenda, w, vs));
      assert e in kept;
    }
  }

  /** An occurrence that some exception overrides is only ever shown with the
      data of a non-cancelled exception, never with the master's: a cancelled
      exception therefore removes its occurrence unless another exception
      re-creates it. */
  lemma OverriddenOccurrenceComesFromException(z: Zone, agenda: AgendaConfig, w: DayWindow, vs: seq<Component>, e: PollEvent)
    requires e in DayEvents(z, agenda, w, vs)
    requires OccurrenceKey(e.id, e.startDate.GetOr(0)) in ExceptionKeys(Exceptions(vs))
    ensures exists x ::
              && x in vs && IsException(x) && ResolveStatus(x.status) != "CANCELLED"
              && MapVevent(agenda, ExceptionKeys(Exceptions(vs)), x, true) == Some(e)
  {
    DayEventsExact(z, agenda, w, vs, e);
    var keys := ExceptionKeys(Exceptions(vs));
    var v :| v in vs && MapVevent(agenda, keys, v, IsException(v)) == Some(e);
    assert IsException(v);
  }

  /** The settled outcomes of `Promise.allSettled`: every fulfilled feed's
      events, in agenda order; rejected feeds contribute nothing. */
  function Fulfilled(results: seq<Result<seq<PollEvent>, string>>): seq<PollEvent> {
    if results == [] then []
    else Fulfilled(results[..|results| - 1]) + Contribution(results[|results| - 1])
  }

  /** What one settled outcome adds to the merged list. */
  function Contribution(r: Result<seq<PollEvent>, string>): seq<PollEvent> {
    if r.Success? then r.value else []
  }

  /** A fulfilled feed's events all reach the merged list and nothing else does. */
  lemma {:induction false} FulfilledMembers(results: seq<Result<seq<PollEvent>, string>>, e: PollEvent)
    ensures e in Fulfilled(results) <==> exists i :: 0 <= i < |results| && results[i].Success? && e in results[i].value
  {
    if results != [] {
      var init, n := results[..|results| - 1], |results| - 1;
      FulfilledMembers(init, e);
      if e in Fulfilled(results) && !(results[n].Success? && e in results[n].value) {
        var i :| 0 <= i < |init| && init[i].Success? && e in init[i].value;
        assert results[i] == init[i];
      }
      if exists i :: 0 <= i < |results| && results[i].Success? && e in results[i].value {
        var i :| 0 <= i < |results| && results[i].Success? && e in results[i].value;
        if i < n {
          assert init[i] == results[i];
        }
      }
    }
  }

  /** The outcome `fetchAgendaEvents` settles with, for each agenda. */
  function Settle(z: Zone, w: DayWindow, sources: seq<(AgendaConfig, Fetch)>): (r: seq<Result<seq<PollEvent>, string>>)
    ensures |r| == |sources| && forall i :: 0 <= i < |sources| ==> r[i] == AgendaEvents(z, sources[i].0, w, sources[i].1)
  {
    seq(|sources|, i requires 0 <= i < |sources| => AgendaEvents(z, sources[i].0, w, sources[i].1))
  }

  /** The reactive state of `usePollEvents`. */
  class PollEventsState {
    var events: seq<PollEvent>
    var loading: bool
    var error: Option<string>

    constructor ()
      ensures events == [] && !loading && error == None
    {
      events, loading, error := [], false, None;
    }

    /** The part of `load` before its `await`: what the page shows while the feeds are fetched. */
    method BeginLoad()
      modifies this
      ensures loading && error == None && events == []
    {
      loading := true;
      error := None;
      events := [];
    }

    /** The part of `load` after `Promise.allSettled`: the fulfilled feeds'
        events, concatenated in agenda order and stably sorted by start. No
        rejection reaches `error`; `loading` is reset. */
    method CompleteLoad(results: seq<Result<seq<PollEvent>, string>>)
      modifies this
      ensures events == StableSort.SortBy(Fulfilled(results), StartKey)
      ensures !loading && error == old(error)
    {
      var all: seq<PollEvent> := [];
      for i := 0 to |results|
        invariant all == Fulfilled(results[..i])
        invariant error == old(error)
      {
        assert results[..i + 1][..i] == results[..i];
        if results[i].Success? {
          all := all + results[i].value;
        }
      }
      assert results[..|results|] == results;
      events := StableSort.SortBy(all, StartKey);
      loading := false;
    }

    /** `load`: every active agenda is fetched, and the settled outcomes are merged. */
    method Load(z: Zone, w: DayWindow, sources: seq<(AgendaConfig, Fetch)>)
      modifies this
      ensures events == StableSort.SortBy(Fulfilled(Settle(z, w, sources)), StartKey)
      ensures !loading && error == None
    {
      BeginLoad();
      var results: seq<Result<seq<PollEvent>, string>> := [];
      for i := 0 to |sources|
        invariant results == Settle(z, w, sources[..i])
        invariant error == None
      {
        var r := FetchAgendaEvents(z, sources[i].0, w, sources[i].1);
        results := results + [r];
      }
      assert sources[..|sources|] == sources;
      CompleteLoad(results);
    }
  }

  /** After a load the page lists exactly the events of the agendas whose
      feed was fetched and parsed, sorted by start; a failing agenda only
      drops its own events. */
  lemma MergedEvents(z: Zone, w: DayWindow, sources: seq<(AgendaConfig, Fetch)>, e: PollEvent)
    ensures StableSort.SortedBy(StableSort.SortBy(Fulfilled(Settle(z, w, sources)), StartKey), StartKey)
    ensures e in StableSort.SortBy(Fulfilled(Settle(z, w, sources)), StartKey) <==>
      exists i :: 0 <= i < |sources| && FeedComponents(sources[i].1).Success? &&
        e in DayEvents(z, sources[i].0, w, FeedComponents(sources[i].1).value)
  {
    var results := Settle(z, w, sources);
    StableSort.SortByIsStableSort(Fulfilled(results), StartKey);
    assert e in StableSort.SortBy(Fulfilled(results), StartKey) <==> e in multiset(Fulfilled(results));
    FulfilledMembers(results, e);
  }
}
