/** The editable poll list (src/composables/usePollItems.ts): items drawn
    from a process-wide key counter, the "cannot attend" item, the refresh
    that replaces the items derived from the day's events while keeping the
    ones added by hand, and the add, remove and emoji-picker operations. */
module PollItems {
  import opened Wrappers
  import opened Time
  import opened Text
  import opened PollUtils
  import opened PollEvents
  import Drag

  const CALENDAR_EMOJI: string := "\U{1F4C5}"
  const CANNOT_ATTEND_EMOJI: string := "\U{274C}"
  const CANNOT_ATTEND_TITLE: string := "Je ne peux pas"

  /** The fields a caller of `makeItem` sets (`Partial<PollItem>`); an absent
      one takes the default. */
  datatype Overrides = Overrides(
    checked: Option<bool>,
    emoji: Option<string>,
    time: Option<string>,
    title: Option<string>,
    referents: Option<string>,
    color: Option<string>)

  const NO_OVERRIDES: Overrides := Overrides(None, None, None, None, None, None)

  /** The item `makeItem(o)` builds when the counter stands at `key`: checked,
      the calendar emoji, no time, empty texts and a closed picker, then the
      overrides. The defaults do not list `endTime`; it reads as `""`. */
  function NewItem(key: int, o: Overrides): PollItem {
    PollItem(key, o.checked.GetOr(true), o.emoji.GetOr(CALENDAR_EMOJI), o.time.GetOr(""), "",
             o.title.GetOr(""), o.referents.GetOr(""), o.color.GetOr(""), false)
  }

  /** The zero-padded local `HH:MM` of an instant. */
  function StartTime(z: Zone, t: Instant): string {
    ClockText(LocalHour(z, t), LocalMinute(z, t))
  }

  /** The overrides `eventToItem` passes: time of the start, emoji and title
      split from the event's title, referents read from its description. */
  function EventOverrides(z: Zone, props: EmojiProperties, e: PollEvent): Overrides {
    var time := match e.startDate case Some(t) => StartTime(z, t) case None => "";
    var split := ExtractLeadingEmoji(props, e.title);
    Overrides(None, Some(split.emoji), Some(time), Some(split.rest), Some(Referents(e.description)), Some(e.color))
  }

  /** The item `eventToItem(e)` builds when the counter stands at `key`. */
  function EventToItem(z: Zone, props: EmojiProperties, e: PollEvent, key: int): (item: PollItem)
    ensures item.key == key && item.checked && !item.showEmojiPicker
    ensures item.endTime == "" && item.color == e.color
    ensures e.startDate.None? <==> item.time == ""
  {
    NewItem(key, EventOverrides(z, props, e))
  }

  /** An event item carries the counter's key, is checked, has its picker
      closed, and takes its emoji and title from the event's title, its
      referents from the event's description and its colour from the event.
      Its time is empty without a start; with one, `formatTime` reads it back
      as the local hour, `h`, and the minutes when they are not zero. */
  lemma EventToItemFields(z: Zone, props: EmojiProperties, e: PollEvent, key: int)
    ensures EventToItem(z, props, e, key).key == key
    ensures EventToItem(z, props, e, key).checked && !EventToItem(z, props, e, key).showEmojiPicker
    ensures EventToItem(z, props, e, key).emoji == ExtractLeadingEmoji(props, e.title).emoji
    ensures EventToItem(z, props, e, key).title == ExtractLeadingEmoji(props, e.title).rest
    ensures EventToItem(z, props, e, key).referents == Referents(e.description)
    ensures EventToItem(z, props, e, key).color == e.color
    ensures e.startDate.None? ==> EventToItem(z, props, e, key).time == ""
    ensures e.startDate.Some? ==>
              var h, m := LocalHour(z, e.startDate.value), LocalMinute(z, e.startDate.value);
              && |EventToItem(z, props, e, key).time| == 5
              && FormatTime(EventToItem(z, props, e, key).time) == IntToString(h) + "h" + (if m > 0 then Pad2(m) else "")
  {
    var item := EventToItem(z, props, e, key);
    if e.startDate.Some? {
      var t := e.startDate.value;
      assert item.time == StartTime(z, t);
      StartTimeReadsBack(z, t);
    }
  }

  /** The local `HH:MM` of an instant has five characters, and `formatTime`
      turns it into the hour, `h`, and the minutes when they are not zero. */
  lemma StartTimeReadsBack(z: Zone, t: Instant)
    ensures |StartTime(z, t)| == 5
    ensures FormatTime(StartTime(z, t)) ==
              IntToString(LocalHour(z, t)) + "h" + (if LocalMinute(z, t) > 0 then Pad2(LocalMinute(z, t)) else "")
  {
    var h, m := LocalHour(z, t), LocalMinute(z, t);
    Pad2Digits(h);
    Pad2Digits(m);
    FormatClockText(h, m);
  }

  /** The items `newEvents.map(eventToItem)` builds when the counter stands at `base`. */
  function FreshItems(z: Zone, props: EmojiProperties, events: seq<PollEvent>, base: int): (r: seq<PollItem>)
    ensures |r| == |events|
    ensures forall i :: 0 <= i < |r| ==> r[i] == EventToItem(z, props, events[i], base + i)
  {
    seq(|events|, i requires 0 <= i < |events| => EventToItem(z, props, events[i], base + i))
  }

  /** A list that agrees with `r` and then ends with `x` is `r + [x]`. */
  lemma PointwiseSnoc<T>(l: seq<T>, r: seq<T>, x: T)
    requires |l| == |r| + 1 && l[|r|] == x
    requires forall j :: 0 <= j < |r| ==> l[j] == r[j]
    ensures l == r + [x]
  {
  }

  /** One more event adds its item, numbered after the others, at the end. */
  lemma FreshItemsSnoc(z: Zone, props: EmojiProperties, events: seq<PollEvent>, base: int, i: nat)
    requires i < |events|
    ensures FreshItems(z, props, events[..i + 1], base) ==
              FreshItems(z, props, events[..i], base) + [EventToItem(z, props, events[i], base + i)]
  {
    var l, r := FreshItems(z, props, events[..i + 1], base), FreshItems(z, props, events[..i], base);
    forall j | 0 <= j < i ensures l[j] == r[j] {
      assert events[..i + 1][j] == events[..i][j];
    }
    assert events[..i + 1][i] == events[i];
    PointwiseSnoc(l, r, EventToItem(z, props, events[i], base + i));
  }

  /** The keys of a list. */
  function KeysOf(items: seq<PollItem>): set<int> {
    set i | 0 <= i < |items| :: items[i].key
  }

  /** `items.filter((i) => !autoKeys.has(i.key))`: the items not derived from events. */
  function Manual(items: seq<PollItem>, autoKeys: set<int>): (r: seq<PollItem>)
    ensures |r| <= |items|
  {
    if items == [] then []
    else (if items[0].key in autoKeys then [] else [items[0]]) + Manual(items[1..], autoKeys)
  }

  /** The manual items are exactly the items whose key is not an auto key,
      and no key is added on the way. */
  lemma {:induction false} ManualMembers(items: seq<PollItem>, autoKeys: set<int>)
    ensures forall x :: x in Manual(items, autoKeys) <==> x in items && x.key !in autoKeys
    ensures KeysOf(Manual(items, autoKeys)) <= KeysOf(items) - autoKeys
  {
    if items != [] {
      ManualMembers(items[1..], autoKeys);
      assert items == [items[0]] + items[1..];
    }
    ManualKeys(items, autoKeys);
  }

  /** Keys of kept items are keys of the list that are not auto keys. */
  lemma ManualKeys(items: seq<PollItem>, autoKeys: set<int>)
    requires forall x :: x in Manual(items, autoKeys) ==> x in items && x.key !in autoKeys
    ensures KeysOf(Manual(items, autoKeys)) <= KeysOf(items) - autoKeys
  {
    var m := Manual(items, autoKeys);
    forall k | k in KeysOf(m) ensures k in KeysOf(items) - autoKeys {
      var i :| 0 <= i < |m| && m[i].key == k;
      assert m[i] in m;
      var j :| 0 <= j < |items| && items[j] == m[i];
    }
  }

  /** Filtering keeps the keys unique. */
  lemma {:induction false} ManualUnique(items: seq<PollItem>, autoKeys: set<int>)
    requires Drag.UniqueKeys(items)
    ensures Drag.UniqueKeys(Manual(items, autoKeys))
  {
    if items != [] {
      ManualUnique(items[1..], autoKeys);
      ManualMembers(items[1..], autoKeys);
      var rest := Manual(items[1..], autoKeys);
      if items[0].key !in autoKeys {
        forall j | 0 <= j < |rest| ensures rest[j].key != items[0].key {
          assert rest[j].key in KeysOf(rest);
          var k :| 0 <= k < |items[1..]| && items[1..][k].key == rest[j].key;
          assert items[k + 1].key == rest[j].key;
        }
      }
    }
  }

  /** `items.filter((i) => i.key !== key)`. */
  function WithoutKey(items: seq<PollItem>, key: int): (r: seq<PollItem>)
    ensures |r| <= |items|
  {
    if items == [] then []
    else (if items[0].key == key then [] else [items[0]]) + WithoutKey(items[1..], key)
  }

  /** Removing a key drops every item with that key and keeps the others, in order. */
  lemma {:induction false} WithoutKeyIsManual(items: seq<PollItem>, key: int)
    ensures WithoutKey(items, key) == Manual(items, {key})
    ensures forall x :: x in WithoutKey(items, key) <==> x in items && x.key != key
  {
    if items != [] {
      WithoutKeyIsManual(items[1..], key);
    }
    ManualMembers(items, {key});
  }

  /** `i.key !== exceptKey ? { ...i, showEmojiPicker: false } : i`. */
  function Closed(item: PollItem, exceptKey: Option<int>): PollItem {
    if Some(item.key) != exceptKey then item.(showEmojiPicker := false) else item
  }

  /** The refreshed list, fresh items numbered from the counter then the
      manual items, keeps the keys unique and below the advanced counter,
      holds no key that was an auto key before, and lists every fresh key. */
  lemma RefreshedList(auto: seq<PollItem>, base: int, items: seq<PollItem>, autoKeys: set<int>)
    requires forall i :: 0 <= i < |auto| ==> auto[i].key == base + i
    requires Drag.UniqueKeys(items)
    requires forall i :: 0 <= i < |items| ==> items[i].key < base
    requires autoKeys <= KeysOf(items)
    ensures var r := auto + Manual(items, autoKeys);
            && Drag.UniqueKeys(r)
            && (forall i :: 0 <= i < |r| ==> r[i].key < base + |auto| && r[i].key !in autoKeys)
            && KeysOf(auto) <= KeysOf(r)
  {
    var manual := Manual(items, autoKeys);
    var r := auto + manual;
    ManualMembers(items, autoKeys);
    ManualUnique(items, autoKeys);
    forall i | 0 <= i < |manual| ensures manual[i].key < base && manual[i].key !in autoKeys {
      assert manual[i].key in KeysOf(manual);
      var k :| 0 <= k < |items| && items[k].key == manual[i].key;
    }
    assert forall i :: |auto| <= i < |r| ==> r[i] == manual[i - |auto|];
    forall i, j | 0 <= i < j < |r| ensures r[i].key != r[j].key {
      if i >= |auto| {
        assert r[i].key == manual[i - |auto|].key != manual[j - |auto|].key;
      }
    }
    forall k | k in KeysOf(auto) ensures k in KeysOf(r) {
      var i :| 0 <= i < |auto| && auto[i].key == k;
      assert r[i] == auto[i];
    }
  }

  /** The module-level `keySeq`, shared by every poll list of the process. */
  class KeySequence {
    var next: int

    constructor ()
      ensures next == 0
    {
      next := 0;
    }

    /** `makeItem`: the new item takes the counter's value, which then goes up by one. */
    method MakeItem(o: Overrides) returns (item: PollItem)
      modifies this
      ensures next == old(next) + 1
      ensures item == NewItem(old(next), o)
    {
      item := NewItem(next, o);
      next := next + 1;
    }
  }

  /** The state of `usePollItems`: the list, the keys of the items derived
      from events, and the "cannot attend" item made at creation. */
  class PollItemsState {
    const keys: KeySequence
    const cannotAttend: PollItem
    var items: seq<PollItem>
    var autoKeys: set<int>

    /** Keys are unique and below the counter; auto keys belong to listed
        items; the "cannot attend" item is never an auto item. */
    ghost predicate Valid()
      reads this, keys
    {
      && Drag.UniqueKeys(items)
      && (forall i :: 0 <= i < |items| ==> items[i].key < keys.next)
      && autoKeys <= KeysOf(items)
      && cannotAttend.key < keys.next
      && cannotAttend.key !in autoKeys
    }

    constructor (keys: KeySequence)
      modifies keys
      ensures Valid() && this.keys == keys && keys.next == old(keys.next) + 1
      ensures cannotAttend == NewItem(old(keys.next), Overrides(Some(true), Some(CANNOT_ATTEND_EMOJI), None, Some(CANNOT_ATTEND_TITLE), None, None))
      ensures items == [cannotAttend] && autoKeys == {}
    {
      var sentinel := keys.MakeItem(Overrides(Some(true), Some(CANNOT_ATTEND_EMOJI), None, Some(CANNOT_ATTEND_TITLE), None, None));
      this.keys := keys;
      cannotAttend := sentinel;
      items := [sentinel];
      autoKeys := {};
    }

    /** The `watch` callback on a new list of events: fresh items, one per
        event in order, followed by the manual items untouched and in order.
        No earlier auto item survives and the auto keys become the fresh keys. */
    method Refresh(z: Zone, props: EmojiProperties, events: seq<PollEvent>)
      requires Valid()
      modifies this, keys
      ensures Valid() && keys.next == old(keys.next) + |events|
      ensures items == FreshItems(z, props, events, old(keys.next)) + Manual(old(items), old(autoKeys))
      ensures autoKeys == KeysOf(FreshItems(z, props, events, old(keys.next)))
      ensures |items| == |events| + |Manual(old(items), old(autoKeys))|
      ensures forall i :: 0 <= i < |items| ==> items[i].key !in old(autoKeys)
      ensures forall x :: x in old(items) && x.key == cannotAttend.key ==> x in items
    {
      var manual := Manual(items, autoKeys);
      ghost var base := keys.next;
      var auto: seq<PollItem> := [];
      for i := 0 to |events|
        invariant keys.next == base + i
        invariant auto == FreshItems(z, props, events[..i], base)
        invariant items == old(items) && autoKeys == old(autoKeys)
      {
        var item := keys.MakeItem(EventOverrides(z, props, events[i]));
        assert item == EventToItem(z, props, events[i], base + i);
        FreshItemsSnoc(z, props, events, base, i);
        auto := auto + [item];
      }
      assert events[..|events|] == events;
      RefreshedList(auto, base, items, autoKeys);
      ManualMembers(items, autoKeys);
      autoKeys := KeysOf(auto);
      items := auto + manual;
    }

    /** `addItem`: a default item inserted just before the last one, which
        stays last; on an empty list it becomes the only item. */
    method AddItem()
      requires Valid()
      modifies this, keys
      ensures Valid() && keys.next == old(keys.next) + 1 && autoKeys == old(autoKeys)
      ensures old(items) == [] ==> items == [NewItem(old(keys.next), NO_OVERRIDES)]
      ensures old(items) != [] ==>
                items == old(items)[..|old(items)| - 1] + [NewItem(old(keys.next), NO_OVERRIDES)] + [old(items)[|old(items)| - 1]]
      ensures |items| == |old(items)| + 1 && (old(items) != [] ==> items[|items| - 1] == old(items)[|old(items)| - 1])
    {
      var item := keys.MakeItem(NO_OVERRIDES);
      if items == [] {
        items := [item];
      } else {
        var n := |items|;
        items := items[..n - 1] + [item] + [items[n - 1]];
        forall k | k in KeysOf(old(items)) ensures k in KeysOf(items) {
          var i :| 0 <= i < n && old(items)[i].key == k;
          assert items[if i < n - 1 then i else n] == old(items)[i];
        }
        forall i, j | 0 <= i < j < |items| ensures items[i].key != items[j].key {
          assert i != n - 1 ==> items[i] == old(items)[if i < n - 1 then i else n - 1];
          assert j != n - 1 ==> items[j] == old(items)[if j < n - 1 then j else n - 1];
        }
      }
    }

    /** `removeItem(key)`: every item with the key goes, the others keep their
        order, and the key stops being an auto key. */
    method RemoveItem(key: int)
      requires Valid()
      modifies this`items, this`autoKeys
      ensures Valid()
      ensures items == WithoutKey(old(items), key) && autoKeys == old(autoKeys) - {key}
    {
      WithoutKeyIsManual(items, key);
      ManualMembers(items, {key});
      ManualUnique(items, {key});
      items := WithoutKey(items, key);
      autoKeys := autoKeys - {key};
      forall k | k in autoKeys ensures k in KeysOf(items) {
        var i :| 0 <= i < |old(items)| && old(items)[i].key == k;
        assert old(items)[i] in items;
        var j :| 0 <= j < |items| && items[j] == old(items)[i];
      }
    }

    /** `closeAllEmojiPickers(exceptKey)`: every item whose key is not
        `exceptKey` gets its picker closed; nothing else changes. */
    method CloseAllEmojiPickers(exceptKey: Option<int>)
      modifies this`items
      ensures |items| == |old(items)|
      ensures forall j :: 0 <= j < |items| ==> items[j] == Closed(old(items)[j], exceptKey)
    {
      for i := 0 to |items|
        invariant |items| == |old(items)|
        invariant forall j :: 0 <= j < i ==> items[j] == Closed(old(items)[j], exceptKey)
        invariant forall j :: i <= j < |items| ==> items[j] == old(items)[j]
      {
        if Some(items[i].key) != exceptKey {
          items := items[i := items[i].(showEmojiPicker := false)];
        }
      }
    }

    /** `toggleEmojiPicker(items[idx])`: that item's picker flips, every other
        picker closes, so at most one is open; nothing but the flags changes. */
    method ToggleEmojiPicker(idx: nat)
      requires Valid() && idx < |items|
      modifies this`items
      ensures Valid() && |items| == |old(items)|
      ensures items[idx].showEmojiPicker == !old(items)[idx].showEmojiPicker
      ensures forall j :: 0 <= j < |items| && j != idx ==> !items[j].showEmojiPicker
      ensures forall j :: 0 <= j < |items| ==> items[j] == old(items)[j].(showEmojiPicker := items[j].showEmojiPicker)
      ensures forall i, j :: 0 <= i < |items| && 0 <= j < |items| && items[i].showEmojiPicker && items[j].showEmojiPicker ==> i == j
    {
      var wasOpen := items[idx].showEmojiPicker;
      CloseAllEmojiPickers(Some(items[idx].key));
      items := items[idx := items[idx].(showEmojiPicker := !wasOpen)];
      assert forall j :: 0 <= j < |items| ==> items[j].key == old(items)[j].key;
      assert KeysOf(items) == KeysOf(old(items));
    }

    /** `pickEmoji(items[idx], emoji)`: that item takes the emoji and its picker closes. */
    method PickEmoji(idx: nat, emoji: string)
      requires Valid() && idx < |items|
      modifies this`items
      ensures Valid()
      ensures items == old(items)[idx := old(items)[idx].(emoji := emoji, showEmojiPicker := false)]
    {
      items := items[idx := items[idx].(emoji := emoji, showEmojiPicker := false)];
      assert forall j :: 0 <= j < |items| ==> items[j].key == old(items)[j].key;
      assert KeysOf(items) == KeysOf(old(items));
    }
  }
}
