/** The first two steps of recurrence-exception reconciliation, shared by the
    poll feed and the calendar feed: split a feed's VEVENTs into masters and
    RECURRENCE-ID exceptions, and collect the occurrences the exceptions
    override. */
module Recurrence {
  import opened Wrappers
  import opened Time
  import opened Ical

  /** The `${uid}::${iso}` key of one occurrence, as a pair. */
  datatype OccurrenceKey = OccurrenceKey(uid: string, instant: Instant)

  function Uid(v: Component): string {
    v.uid.GetOr("")
  }

  /** The components without a RECURRENCE-ID, in feed order. */
  function Masters(vs: seq<Component>): (r: seq<Component>)
    ensures |r| <= |vs|
    ensures forall i :: 0 <= i < |r| ==> !IsException(r[i])
  {
    if vs == [] then []
    else (if IsException(vs[0]) then [] else [vs[0]]) + Masters(vs[1..])
  }

  /** The components with a RECURRENCE-ID, in feed order. */
  function Exceptions(vs: seq<Component>): (r: seq<Component>)
    ensures |r| <= |vs|
    ensures forall i :: 0 <= i < |r| ==> IsException(r[i])
  {
    if vs == [] then []
    else (if IsException(vs[0]) then [vs[0]] else []) + Exceptions(vs[1..])
  }

  /** The key an exception overrides, when its RECURRENCE-ID has a value. */
  function OverriddenKey(v: Component): Option<OccurrenceKey> {
    match v.recurrenceId
    case HasRecurrenceId(Some(d)) => Some(OccurrenceKey(Uid(v), d.instant))
    case _ => None
  }

  /** The keys of all exceptions whose RECURRENCE-ID has a value, whatever their STATUS. */
  function ExceptionKeys(exceptions: seq<Component>): (keys: set<OccurrenceKey>)
    ensures forall v, d :: v in exceptions && v.recurrenceId == HasRecurrenceId(Some(d)) ==>
              OccurrenceKey(Uid(v), d.instant) in keys
    ensures forall k :: k in keys ==> exists v :: v in exceptions && IsException(v) && Uid(v) == k.uid
  {
    set v | v in exceptions && OverriddenKey(v).Some? :: OverriddenKey(v).value
  }

  /** Masters and exceptions split the feed: every component goes to exactly
      one of them, the exceptions being exactly the components with a
      RECURRENCE-ID, and each keeps the feed's order. */
  lemma {:induction false} PartitionIsExact(vs: seq<Component>)
    ensures |Masters(vs)| + |Exceptions(vs)| == |vs|
    ensures multiset(Masters(vs)) + multiset(Exceptions(vs)) == multiset(vs)
    ensures forall v :: v in Masters(vs) <==> v in vs && !IsException(v)
    ensures forall v :: v in Exceptions(vs) <==> v in vs && IsException(v)
  {
    if vs != [] {
      PartitionIsExact(vs[1..]);
      assert vs == [vs[0]] + vs[1..];
    }
  }

  /** Splitting the loop input one element further appends that element to one side. */
  lemma {:induction false} MastersAppend(vs: seq<Component>, v: Component)
    ensures Masters(vs + [v]) == Masters(vs) + (if IsException(v) then [] else [v])
    ensures Exceptions(vs + [v]) == Exceptions(vs) + (if IsException(v) then [v] else [])
  {
    if vs == [] {
      assert [] + [v] == [v];
    } else {
      assert (vs + [v])[1..] == vs[1..] + [v];
      MastersAppend(vs[1..], v);
    }
  }

  /** The loop `for (const v of vevents) (recurrence-id ? exceptions : masters).push(v)`. */
  method Partition(vs: seq<Component>) returns (masters: seq<Component>, exceptions: seq<Component>)
    ensures masters == Masters(vs) && exceptions == Exceptions(vs)
  {
    masters, exceptions := [], [];
    for i := 0 to |vs|
      invariant masters == Masters(vs[..i]) && exceptions == Exceptions(vs[..i])
    {
      assert vs[..i + 1] == vs[..i] + [vs[i]];
      MastersAppend(vs[..i], vs[i]);
      if IsException(vs[i]) {
        exceptions := exceptions + [vs[i]];
      } else {
        masters := masters + [vs[i]];
      }
    }
    assert vs[..|vs|] == vs;
  }

  lemma ExceptionKeysAppend(es: seq<Component>, v: Component)
    ensures ExceptionKeys(es + [v]) ==
      ExceptionKeys(es) + (if OverriddenKey(v).Some? then {OverriddenKey(v).value} else {})
  {
    var l, r := ExceptionKeys(es + [v]), ExceptionKeys(es) + (if OverriddenKey(v).Some? then {OverriddenKey(v).value} else {});
    forall k | k in l ensures k in r {
      var w :| w in es + [v] && OverriddenKey(w).Some? && OverriddenKey(w).value == k;
      if w != v {
        assert w in es;
      }
    }
  }

  /** The loop that adds `uid::rid` to `exceptionKeys` for each exception whose RECURRENCE-ID has a value. */
  method CollectExceptionKeys(exceptions: seq<Component>) returns (keys: set<OccurrenceKey>)
    ensures keys == ExceptionKeys(exceptions)
  {
    keys := {};
    for i := 0 to |exceptions|
      invariant keys == ExceptionKeys(exceptions[..i])
    {
      assert exceptions[..i + 1] == exceptions[..i] + [exceptions[i]];
      ExceptionKeysAppend(exceptions[..i], exceptions[i]);
      var rid := exceptions[i].recurrenceId;
      if rid.HasRecurrenceId? && rid.value.Some? {
        keys := keys + {OccurrenceKey(Uid(exceptions[i]), rid.value.value.instant)};
      }
    }
    assert exceptions[..|exceptions|] == exceptions;
  }

  /** A key is in the set iff some exception of the feed carries it: a
      CANCELLED exception shadows its master like any other. */
  lemma ExceptionKeysOfFeed(vs: seq<Component>, k: OccurrenceKey)
    ensures k in ExceptionKeys(Exceptions(vs)) <==>
      exists v :: v in vs && IsException(v) && OverriddenKey(v) == Some(k)
  {
    PartitionIsExact(vs);
  }
}
