/** Drag-and-drop reordering of the poll list
    (src/features/poll/composables/usePollDrag.ts): the key-based move, the
    mouse handlers, and the long-press touch gesture, whose timer and "item
    under the finger" arrive here as events. */
module Drag {
  import opened Wrappers
  import opened PollUtils

  /** The long-press delay, in milliseconds. Timer firings are events here, so
      the delay only says when the browser may deliver one. */
  const LONG_PRESS_MS: int := 300
  /** How far, in CSS pixels along either axis, a finger may move before the
      press counts as scrolling. */
  const MOVE_CANCEL_PX: real := 8.0

  /** `findIndex((i) => i.key === key)`: the first position holding the key. */
  function IndexOfKey(items: seq<PollItem>, key: int): (r: Option<nat>)
    ensures r.Some? ==> r.value < |items| && items[r.value].key == key
    ensures r.Some? ==> forall j :: 0 <= j < r.value ==> items[j].key != key
    ensures r.None? <==> forall j :: 0 <= j < |items| ==> items[j].key != key
  {
    if items == [] then None
    else if items[0].key == key then Some(0)
    else match IndexOfKey(items[1..], key)
      case None => None
      case Some(i) => Some(i + 1)
  }

  /** `arr.splice(i, 1)`: the sequence without its element at `i`. */
  function RemoveAt<T>(s: seq<T>, i: nat): (r: seq<T>)
    requires i < |s|
    ensures |r| == |s| - 1
  {
    s[..i] + s[i + 1..]
  }

  /** `arr.splice(i, 0, x)`: `x` inserted so that it lands at position `i`. */
  function InsertAt<T>(s: seq<T>, i: nat, x: T): (r: seq<T>)
    requires i <= |s|
    ensures |r| == |s| + 1
  {
    s[..i] + [x] + s[i..]
  }

  /** What `reorder(fromKey, toKey)` leaves in `items`: the item of `fromKey`
      taken out and put back at the position `toKey` had. */
  function Reordered(items: seq<PollItem>, fromKey: int, toKey: int): (r: seq<PollItem>)
    ensures |r| == |items|
  {
    if fromKey == toKey then items
    else match (IndexOfKey(items, fromKey), IndexOfKey(items, toKey))
      case (Some(from), Some(to)) =>
        InsertAt(RemoveAt(items, from), to, items[from])
      case _ => items
  }

  /** No two items share a key. */
  predicate UniqueKeys(items: seq<PollItem>) {
    forall i, j :: 0 <= i < j < |items| ==> items[i].key != items[j].key
  }

  /** With unique keys, looking an item's key up finds that item. */
  lemma IndexOfUniqueKey(items: seq<PollItem>, i: nat)
    requires UniqueKeys(items) && i < |items|
    ensures IndexOfKey(items, items[i].key) == Some(i)
  {
  }

  /** Moving an item onto itself, or from or to a key the list does not hold,
      leaves the list as it was. */
  lemma ReorderedUnchanged(items: seq<PollItem>, fromKey: int, toKey: int)
    requires || fromKey == toKey
             || (forall j :: 0 <= j < |items| ==> items[j].key != fromKey)
             || (forall j :: 0 <= j < |items| ==> items[j].key != toKey)
    ensures Reordered(items, fromKey, toKey) == items
  {
  }

  /** Taking out the element at `from` and inserting it at `to` permutes the
      sequence, puts that element at `to`, and keeps the others in order. */
  lemma MoveFacts<T>(s: seq<T>, from: nat, to: nat)
    requires from < |s| && to < |s|
    ensures |InsertAt(RemoveAt(s, from), to, s[from])| == |s|
    ensures multiset(InsertAt(RemoveAt(s, from), to, s[from])) == multiset(s)
    ensures InsertAt(RemoveAt(s, from), to, s[from])[to] == s[from]
    ensures RemoveAt(InsertAt(RemoveAt(s, from), to, s[from]), to) == RemoveAt(s, from)
  {
    var x := s[from];
    var rest := RemoveAt(s, from);
    var r := InsertAt(rest, to, x);
    assert r[..to] == rest[..to];
    assert r[to + 1..] == rest[to..];
    assert rest[..to] + rest[to..] == rest;
    assert s == s[..from] + [x] + s[from + 1..];
    assert multiset(s) == multiset(s[..from]) + multiset{x} + multiset(s[from + 1..]) by {
      assert multiset(s) == multiset(s[..from] + [x] + s[from + 1..]);
    }
    assert rest == s[..from] + s[from + 1..];
    assert multiset(rest) == multiset(s[..from]) + multiset(s[from + 1..]);
    assert r == rest[..to] + [x] + rest[to..];
    assert multiset(r) == multiset(rest[..to]) + multiset{x} + multiset(rest[to..]);
    assert multiset(rest) == multiset(rest[..to]) + multiset(rest[to..]);
    assert multiset(r) == multiset(rest) + multiset{x};
    assert multiset(s) == multiset(rest) + multiset{x};
  }

  /** A move between two present keys is a permutation of the same length:
      the moved item ends at the position the target key had, and taking it
      out again gives the list without it, so every other item keeps its
      relative order. */
  lemma ReorderedMoves(items: seq<PollItem>, fromKey: int, toKey: int, from: nat, to: nat)
    requires fromKey != toKey
    requires IndexOfKey(items, fromKey) == Some(from) && IndexOfKey(items, toKey) == Some(to)
    ensures |Reordered(items, fromKey, toKey)| == |items|
    ensures multiset(Reordered(items, fromKey, toKey)) == multiset(items)
    ensures Reordered(items, fromKey, toKey)[to] == items[from]
    ensures RemoveAt(Reordered(items, fromKey, toKey), to) == RemoveAt(items, from)
  {
    assert Reordered(items, fromKey, toKey) == InsertAt(RemoveAt(items, from), to, items[from]);
    MoveFacts(items, from, to);
  }

  /** `s` with its items at `i` and `i + 1` exchanged. */
  function Swapped<T>(s: seq<T>, i: nat): (r: seq<T>)
    requires i + 1 < |s|
    ensures |r| == |s|
  {
    s[..i] + [s[i + 1], s[i]] + s[i + 2..]
  }

  /** Moving an element one step down, or its neighbour one step up, exchanges the two. */
  lemma AdjacentMoves<T>(s: seq<T>, i: nat)
    requires i + 1 < |s|
    ensures InsertAt(RemoveAt(s, i), i + 1, s[i]) == Swapped(s, i)
    ensures InsertAt(RemoveAt(s, i + 1), i, s[i + 1]) == Swapped(s, i)
  {
    var down := RemoveAt(s, i);
    assert down == s[..i] + s[i + 1..];
    assert down[..i + 1] == s[..i] + [s[i + 1]];
    assert down[i + 1..] == s[i + 2..];
    var up := RemoveAt(s, i + 1);
    assert up == s[..i + 1] + s[i + 2..];
    assert up[..i] == s[..i];
    assert up[i..] == [s[i]] + s[i + 2..];
  }

  /** Moving an item onto its neighbour, in either direction, exchanges the two. */
  lemma AdjacentReorderSwaps(items: seq<PollItem>, i: nat)
    requires UniqueKeys(items) && i + 1 < |items|
    ensures Reordered(items, items[i].key, items[i + 1].key) == Swapped(items, i)
    ensures Reordered(items, items[i + 1].key, items[i].key) == Swapped(items, i)
  {
    IndexOfUniqueKey(items, i);
    IndexOfUniqueKey(items, i + 1);
    assert Reordered(items, items[i].key, items[i + 1].key) == InsertAt(RemoveAt(items, i), i + 1, items[i]);
    assert Reordered(items, items[i + 1].key, items[i].key) == InsertAt(RemoveAt(items, i + 1), i, items[i + 1]);
    AdjacentMoves(items, i);
  }

  /** Exchanging the same neighbours twice gives the sequence back. */
  lemma SwappedTwice<T>(s: seq<T>, i: nat)
    requires i + 1 < |s|
    ensures Swapped(Swapped(s, i), i) == s
  {
    var t := Swapped(s, i);
    assert t[..i] == s[..i] && t[i + 2..] == s[i + 2..];
    assert s == s[..i] + [s[i], s[i + 1]] + s[i + 2..];
  }

  /** Exchanging neighbours keeps the keys unique. */
  lemma SwappedUniqueKeys(items: seq<PollItem>, i: nat)
    requires UniqueKeys(items) && i + 1 < |items|
    ensures UniqueKeys(Swapped(items, i))
  {
    var s := Swapped(items, i);
    assert forall k :: 0 <= k < |s| ==> s[k] == items[if k == i then i + 1 else if k == i + 1 then i else k];
  }

  /** `reorder(A, B)` followed by `reorder(B, A)` on neighbours restores the
      list: on a two-item list, every move is undone this way. */
  lemma {:induction false} AdjacentReorderSelfInverse(items: seq<PollItem>, i: nat)
    requires UniqueKeys(items) && i + 1 < |items|
    ensures Reordered(Reordered(items, items[i].key, items[i + 1].key), items[i + 1].key, items[i].key) == items
  {
    var a, b := items[i].key, items[i + 1].key;
    var s := Swapped(items, i);
    AdjacentReorderSwaps(items, i);
    assert Reordered(items, a, b) == s;
    SwappedUniqueKeys(items, i);
    assert s[i] == items[i + 1] && s[i + 1] == items[i];
    AdjacentReorderSwaps(s, i);
    SwappedTwice(items, i);
    calc {
      Reordered(Reordered(items, a, b), b, a);
      Reordered(s, b, a);
      Swapped(s, i);
      items;
    }
  }

  /** The three states of a touch gesture. */
  datatype TouchPhase = Idle | Pending | Dragging

  /** `Math.abs` on coordinates. */
  function Abs(r: real): real {
    if r < 0.0 then -r else r
  }

  /** The state of `usePollDrag`: the list it reorders, the three refs, the
      timer handle and the press position. `setTimeout` is modelled by
      `armed`, the timers set and not yet cleared or fired, each with the key
      its callback will set; `nextTimer` is the next handle it gives out. */
  class PollDrag {
    var items: seq<PollItem>
    var draggingKey: Option<int>
    var dragOverKey: Option<int>
    var isTouchDragging: bool
    var touchTimer: Option<nat>
    var touchStartX: real
    var touchStartY: real
    var armed: map<nat, int>
    var nextTimer: nat

    /** The stored handle names an armed timer; handles are never reused. */
    predicate Valid()
      reads this
    {
      && (touchTimer.Some? ==> touchTimer.value in armed)
      && forall id :: id in armed ==> id < nextTimer
    }

    /** The gesture's state, read off the refs. */
    function Phase(): TouchPhase
      reads this
    {
      if isTouchDragging then Dragging else if touchTimer.Some? then Pending else Idle
    }

    constructor (items: seq<PollItem>)
      ensures Valid() && this.items == items
      ensures draggingKey == None && dragOverKey == None && !isTouchDragging
      ensures touchTimer == None && armed == map[] && nextTimer == 0 && Phase() == Idle
    {
      this.items := items;
      draggingKey, dragOverKey, isTouchDragging := None, None, false;
      touchTimer, touchStartX, touchStartY := None, 0.0, 0.0;
      armed, nextTimer := map[], 0;
    }

    /** `reorder`: the spliced copy replaces `items`. */
    method Reorder(fromKey: int, toKey: int)
      modifies this`items
      ensures items == Reordered(old(items), fromKey, toKey)
    {
      if fromKey == toKey {
        return;
      }
      var arr := items;
      var from := IndexOfKey(arr, fromKey);
      var to := IndexOfKey(arr, toKey);
      if from.None? || to.None? {
        return;
      }
      var item := arr[from.value];
      arr := RemoveAt(arr, from.value);
      arr := InsertAt(arr, to.value, item);
      items := arr;
    }

    method OnDragStart(key: int)
      modifies this`draggingKey
      ensures draggingKey == Some(key)
    {
      draggingKey := Some(key);
    }

    method OnDragOver(key: int)
      modifies this`dragOverKey
      ensures dragOverKey == Some(key)
    {
      dragOverKey := Some(key);
    }

    /** `onDrop`: moves the dragged item onto `key` when a drag is under way,
        and clears both keys in any case. */
    method OnDrop(key: int)
      modifies this`items, this`draggingKey, this`dragOverKey
      ensures items == (if old(draggingKey).Some? then Reordered(old(items), old(draggingKey).value, key) else old(items))
      ensures draggingKey == None && dragOverKey == None
    {
      if draggingKey.Some? {
        Reorder(draggingKey.value, key);
      }
      draggingKey := None;
      dragOverKey := None;
    }

    /** `onDragEnd`: clears both keys and moves nothing. */
    method OnDragEnd()
      modifies this`draggingKey, this`dragOverKey
      ensures draggingKey == None && dragOverKey == None
    {
      draggingKey := None;
      dragOverKey := None;
    }

    /** `clearTimeout(touchTimer); touchTimer = null`, when a timer is stored. */
    method ClearTimer()
      requires Valid()
      modifies this`touchTimer, this`armed
      ensures Valid() && touchTimer == None
      ensures armed == if old(touchTimer).Some? then old(armed) - {old(touchTimer).value} else old(armed)
    {
      if touchTimer.Some? {
        armed := armed - {touchTimer.value};
        touchTimer := None;
      }
    }

    /** `cancelTouch`: the stored timer is cleared and the gesture is back to idle. */
    method CancelTouch()
      requires Valid()
      modifies this`touchTimer, this`armed, this`draggingKey, this`dragOverKey, this`isTouchDragging
      ensures Valid() && Phase() == Idle
      ensures touchTimer == None && draggingKey == None && dragOverKey == None && !isTouchDragging
      ensures armed == if old(touchTimer).Some? then old(armed) - {old(touchTimer).value} else old(armed)
    {
      ClearTimer();
      draggingKey := None;
      dragOverKey := None;
      isTouchDragging := false;
    }

    /** `onHandleTouchStart`: records the press position and arms a new
        long-press timer for `key`. A timer stored before is overwritten
        without being cleared, so it stays armed. */
    method OnHandleTouchStart(x: real, y: real, key: int)
      requires Valid()
      modifies this`touchStartX, this`touchStartY, this`touchTimer, this`armed, this`nextTimer
      ensures Valid()
      ensures touchStartX == x && touchStartY == y
      ensures touchTimer == Some(old(nextTimer)) && nextTimer == old(nextTimer) + 1
      ensures armed == old(armed)[old(nextTimer) := key]
      ensures Phase() == if isTouchDragging then Dragging else Pending
    {
      touchStartX := x;
      touchStartY := y;
      var id := nextTimer;
      nextTimer := nextTimer + 1;
      armed := armed[id := key];
      touchTimer := Some(id);
    }

    /** The long-press timer `id` fires: its callback drops the stored
        handle, marks its key as dragged and starts the touch drag. */
    method TimerFires(id: nat)
      requires Valid() && id in armed
      modifies this`touchTimer, this`armed, this`draggingKey, this`isTouchDragging
      ensures Valid() && Phase() == Dragging
      ensures armed == old(armed) - {id} && touchTimer == None
      ensures draggingKey == Some(old(armed)[id]) && isTouchDragging
    {
      var key := armed[id];
      armed := armed - {id};
      touchTimer := None;
      draggingKey := Some(key);
      isTouchDragging := true;
    }

    /** `onHandleTouchMove` with the finger at `(x, y)` over the item whose
        key is `under`, if any: during a drag it marks a different item as
        the target; before the long press it gives up when the finger went
        more than `MOVE_CANCEL_PX` along either axis. */
    method OnHandleTouchMove(x: real, y: real, under: Option<int>)
      requires Valid()
      modifies this`dragOverKey, this`touchTimer, this`armed
      ensures Valid()
      ensures old(isTouchDragging) ==>
                && touchTimer == old(touchTimer) && armed == old(armed)
                && dragOverKey == (if under.Some? && under != draggingKey then under else old(dragOverKey))
      ensures !old(isTouchDragging) ==> dragOverKey == old(dragOverKey)
      ensures !old(isTouchDragging) && old(touchTimer).Some? ==>
                if Abs(x - touchStartX) > MOVE_CANCEL_PX || Abs(y - touchStartY) > MOVE_CANCEL_PX
                then touchTimer == None && armed == old(armed) - {old(touchTimer).value} && Phase() == Idle
                else touchTimer == old(touchTimer) && armed == old(armed) && Phase() == Pending
      ensures !old(isTouchDragging) && old(touchTimer).None? ==> touchTimer == None && armed == old(armed)
    {
      if isTouchDragging {
        if under.Some? && under != draggingKey {
          dragOverKey := under;
        }
      } else if touchTimer.Some? {
        var dx := Abs(x - touchStartX);
        var dy := Abs(y - touchStartY);
        if dx > MOVE_CANCEL_PX || dy > MOVE_CANCEL_PX {
          ClearTimer();
        }
      }
    }

    /** `onHandleTouchEnd`: clears the stored timer, moves the dragged item
        onto the target when a touch drag has both, and resets the gesture. */
    method OnHandleTouchEnd()
      requires Valid()
      modifies this`items, this`touchTimer, this`armed, this`draggingKey, this`dragOverKey, this`isTouchDragging
      ensures Valid() && Phase() == Idle
      ensures items ==
                if old(isTouchDragging) && old(draggingKey).Some? && old(dragOverKey).Some?
                then Reordered(old(items), old(draggingKey).value, old(dragOverKey).value)
                else old(items)
      ensures touchTimer == None && draggingKey == None && dragOverKey == None && !isTouchDragging
      ensures armed == if old(touchTimer).Some? then old(armed) - {old(touchTimer).value} else old(armed)
    {
      ClearTimer();
      if isTouchDragging && draggingKey.Some? && dragOverKey.Some? {
        Reorder(draggingKey.value, dragOverKey.value);
      }
      draggingKey := None;
      dragOverKey := None;
      isTouchDragging := false;
    }
  }

  /** Press the handle of `from`, hold until the long-press timer fires, move
      over the item `to` and lift: the list is the one `reorder(from, to)` gives. */
  method LongPressDrag(items: seq<PollItem>, from: int, to: int, x0: real, y0: real, x1: real, y1: real)
    returns (result: seq<PollItem>, phase: TouchPhase)
    ensures result == Reordered(items, from, to)
    ensures phase == Idle
  {
    var d := new PollDrag(items);
    d.OnHandleTouchStart(x0, y0, from);
    assert d.armed == map[0 := from] && d.dragOverKey == None && d.items == items;
    d.TimerFires(0);
    assert d.draggingKey == Some(from) && d.isTouchDragging && d.dragOverKey == None;
    d.OnHandleTouchMove(x1, y1, Some(to));
    assert d.dragOverKey == (if to != from then Some(to) else None);
    assert d.isTouchDragging && d.draggingKey == Some(from) && d.items == items;
    d.OnHandleTouchEnd();
    result, phase := d.items, d.Phase();
  }

  /** Press a handle and move more than the threshold before the timer fires:
      the timer is cleared and will never fire, and lifting the finger moves
      nothing. */
  method ScrollCancelsDrag(items: seq<PollItem>, key: int, x0: real, y0: real, x1: real, y1: real, under: Option<int>)
    returns (result: seq<PollItem>, timersLeft: map<nat, int>)
    requires Abs(x1 - x0) > MOVE_CANCEL_PX || Abs(y1 - y0) > MOVE_CANCEL_PX
    ensures result == items
    ensures timersLeft == map[]
  {
    var d := new PollDrag(items);
    d.OnHandleTouchStart(x0, y0, key);
    d.OnHandleTouchMove(x1, y1, under);
    d.OnHandleTouchEnd();
    result, timersLeft := d.items, d.armed;
  }
}
