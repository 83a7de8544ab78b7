# Agenda Rennes — a Dafny model of the calendar and poll core

Agenda Rennes is a web page that shows the agendas of several Nextcloud calendars,
annotates events with the hourly weather, and builds a
Telegram poll ("who comes to what?") from the events of one day. This project
models, in Dafny, the part of it that makes decisions:

- **Recurrence reconciliation** (`Recurrence`, `PollEvents`, `CalendarSource`).
  A feed's VEVENTs are split into masters and RECURRENCE-ID exceptions. The
  occurrences the exceptions override are collected as `(uid, instant)` keys.
  Cancelled exceptions are dropped, masters whose start is overridden are
  dropped, and the masters' survivors are followed by the exceptions'.
- **The poll feed** (`PollEvents`). The survivors whose minute-truncated local
  start falls in `[targetDay, nextDay)` are stably sorted by start. A `load`
  settles every agenda, keeps the fulfilled ones in agenda order, and sorts
  the merge.
- **The calendar feed** (`CalendarSource`). The same reconciliation, with STATUS
  turned into the `event-tentative` / `event-cancelled` classes, and the success
  or failure callback chosen by the fetch outcome.
- **The older versions** of both feeds (`LegacyPollEvents`,
  `LegacyCalendarSource`), which map every VEVENT and do no reconciliation.
- **Poll text** (`PollUtils`). The leading emoji split off a title, `HH:MM` shown
  as `9h05`/`14h`, the referents read from a description, and the option string.
- **The poll list** (`PollItems`). The process-wide key counter, the
  "Je ne peux pas" item, the refresh that swaps the event-derived items and keeps
  the hand-made ones, and the add, remove and emoji-picker operations.
- **Drag reordering** (`Drag`). The key-based move, the mouse handlers, and the
  long-press touch gesture with its timer and scroll threshold.
- **Weather** (`Weather`). The WMO icon table, the hour-keyed cache filled from
  parallel arrays, and the `YYYY-MM-DDTHH:00` key an event is looked up by.
- **Sending the poll** (`SendPoll`). The selection, the two validation messages,
  the request built from the selection, and the state the backend's reply leads to.
- **The location hash** (`UrlState`). The `v`, `d`, `a`, `e` parameters read from
  the hash, patched and removed.

Shared pieces: `Wrappers` (Option, Result), `Time` (instants in milliseconds, a
time zone given as an offset function, local hour, minute and date),
`Text` (the JavaScript string functions the code relies on), and `StableSort`
(`Array.prototype.sort` with a numeric-key comparator, which is stable).

Behaviour one might expect that the code does not have:

- There is no weather aggregation over an event's duration. The code only looks
  up the hour in which an event starts (`Weather.WeatherCache.GetWeatherForEvent`).
- No occurrence is de-duplicated. Two masters with the same UID and start both
  appear, and so do two exceptions with the same RECURRENCE-ID.
- A master whose own STATUS is CANCELLED is kept. On the calendar it gets the
  `event-cancelled` class (`CalendarSource.CancelledClassOnlyOnMasters`).
- STATUS is any upper-cased text, not one of three values.
- The older feeds (`src/composables/usePollEvents.ts`,
  `src/composables/useIcalSource.ts`) show cancelled exceptions and overridden
  masters alike (`LegacyPollEvents.CancelledExceptionShown`).
- In `src/features/poll/utils/poll.utils.ts` several literals are stored with
  their UTF-8 bytes read back as Mac Roman. These are the fallback emoji, the
  accented keyword of the referent test, the en dash of the dash class and the
  `(référent·e: ` prefix. The model keeps them code point by code point, so a
  line written with a correctly encoded "référent" is not recognised, as in the
  code.

## Model

| member | source | states |
|---|---|---|
| Ical.ResolveStatus | src/features/poll/composables/usePollEvents.ts:52-53 | STATUS is the raw value upper-cased character by character, `CONFIRMED` when absent |
| Ical.FeedComponents | src/features/poll/composables/usePollEvents.ts:21-25 | the VEVENTs are obtained iff the response is ok and parses; a non-ok response fails with `HTTP <status>` |
| Recurrence.PartitionIsExact | src/features/poll/composables/usePollEvents.ts:33-38 | masters and exceptions split the feed: sizes add up, multisets add up, exceptions are exactly the components with a RECURRENCE-ID, masters exactly the others |
| Recurrence.Masters | src/features/poll/composables/usePollEvents.ts:33-38 | no longer than the feed, and no exception among them |
| Recurrence.Exceptions | src/features/poll/composables/usePollEvents.ts:33-38 | no longer than the feed, and every one has a RECURRENCE-ID |
| Recurrence.ExceptionKeys | src/features/poll/composables/usePollEvents.ts:41-46 | every exception whose RECURRENCE-ID has a value contributes its `(uid, instant)` key, and every key carries the UID of an exception |
| Recurrence.Partition | src/features/poll/composables/usePollEvents.ts:33-38 | the push loop yields the masters and the exceptions in feed order |
| Recurrence.CollectExceptionKeys | src/features/poll/composables/usePollEvents.ts:41-46 | the loop collects the `(uid, instant)` key of every exception whose RECURRENCE-ID has a value |
| Recurrence.ExceptionKeysOfFeed | src/features/poll/composables/usePollEvents.ts:41-46 | a key is collected iff some exception of the feed overrides it, cancelled exceptions included |
| PollEvents.MapVevent | src/features/poll/composables/usePollEvents.ts:48-83 | nothing exactly for a cancelled exception or a master whose start is overridden; otherwise the event carries the UID, summary or `(sans titre)`, description, start, end, all-day flag (a DTSTART that is a date) and the agenda's colour, name and id |
| PollEvents.FetchAgendaEvents | src/features/poll/composables/usePollEvents.ts:18-96 | the fetch, partition, key collection, mapping, day filter and sort compute the specification `AgendaEvents` |
| PollEvents.KeepInDayMembers | src/features/poll/composables/usePollEvents.ts:89-94 | the filter keeps exactly the present events whose truncated start lies in the day window |
| PollEvents.MapAllMembers | src/features/poll/composables/usePollEvents.ts:85-88 | an event is among the mapped candidates iff some component maps to it |
| PollEvents.KeepInDay | src/features/poll/composables/usePollEvents.ts:89-94 | the filter gives no more events than candidates (`KeepInDayMembers` says which) |
| PollEvents.DayEvents | src/features/poll/composables/usePollEvents.ts:85-95 | one agenda's day list is sorted by start (`DayEventsExact` and `DayEventsShape` say what it holds) |
| PollEvents.AgendaEvents | src/features/poll/composables/usePollEvents.ts:18-96 | rejects iff the feed could not be fetched or parsed, with that error's message; otherwise resolves to a list sorted by start |
| PollEvents.ReconciledMembers | src/features/poll/composables/usePollEvents.ts:85-88 | the candidates are exactly what each component gives under its own exception flag |
| PollEvents.DayEventsExact | src/features/poll/composables/usePollEvents.ts:85-95 | an event is listed iff it passes the day test and some component survives reconciliation as it |
| PollEvents.DayEventsShape | src/features/poll/composables/usePollEvents.ts:89-95 | every listed event starts in the window; the list is sorted by start, keeps the filter's order among equal starts, is a permutation of the filtered list and no longer than the feed |
| PollEvents.OverriddenOccurrenceComesFromException | src/features/poll/composables/usePollEvents.ts:55-70 | an overridden occurrence only appears with the data of a non-cancelled exception, never the master's |
| PollEvents.FulfilledMembers | src/features/poll/composables/usePollEvents.ts:111-115 | an event is merged iff some fulfilled outcome holds it; rejections contribute nothing |
| PollEvents.PollEventsState.constructor | src/features/poll/composables/usePollEvents.ts:99-101 | no events, not loading, no error |
| PollEvents.PollEventsState.BeginLoad | src/features/poll/composables/usePollEvents.ts:104-106 | loading, error cleared, events emptied |
| PollEvents.PollEventsState.CompleteLoad | src/features/poll/composables/usePollEvents.ts:111-121 | events become the fulfilled lists concatenated in agenda order and stably sorted; loading ends; the error is untouched |
| PollEvents.PollEventsState.Load | src/features/poll/composables/usePollEvents.ts:103-123 | after settling every agenda, events are the sorted merge and the error stays cleared |
| PollEvents.MergedEvents | src/features/poll/composables/usePollEvents.ts:108-117 | the merged list is sorted and holds exactly the day events of the agendas whose feed was fetched and parsed |
| StableSort.SortByIsStableSort | src/features/poll/composables/usePollEvents.ts:95 | the sort yields a sorted permutation of the same length that keeps the input order within each key |
| StableSort.SortBy | src/features/poll/composables/usePollEvents.ts:95 | the result is sorted by the key (`SortByIsStableSort` adds permutation and stability) |
| StableSort.StableSortIsUnique | src/features/poll/composables/usePollEvents.ts:116 | any sorted list with the same per-key subsequences is the sort's result, so the comparator sort is determined |
| Time.TruncateToMinuteBounds | src/features/poll/composables/usePollEvents.ts:91-92 | dropping seconds goes back less than a minute and lands on a whole local minute |
| Time.TruncateToMinute | src/features/poll/composables/usePollEvents.ts:91-92 | dropping seconds and milliseconds goes back by less than one minute |
| Time.LocalHour | src/composables/usePollItems.ts:24 | `getHours()` is an hour of the day, from 0 to 23 |
| Time.SameLocalHour | src/composables/useWeather.ts:40 | two instants of one local hour have the same local date and hour |
| Text.TrimCutsSpaces | src/features/poll/utils/poll.utils.ts:49 | `trim` removes only white space, from both ends |
| Text.ParsePad2 | src/composables/usePollItems.ts:24 | a two-digit padded number is two digits and parses back to the number |
| Text.JoinSplit | src/features/poll/utils/poll.utils.ts:33 | joining the pieces of a split with the separator gives the string back |
| Text.AfterFirstSeparator | src/features/poll/utils/poll.utils.ts:33 | `split(':').slice(1).join(':')` is the text after the first colon |
| CalendarSource.ClassNames | src/features/calendar/composables/useIcalSource.ts:66-68 | `event-tentative` iff TENTATIVE, `event-cancelled` iff CANCELLED, no class otherwise |
| CalendarSource.MapVevent | src/features/calendar/composables/useIcalSource.ts:40-80 | nothing iff the component is a cancelled exception or an overridden master; otherwise the event's fields (all-day iff DTSTART is a date), classes and extended properties |
| CalendarSource.Deliver | src/features/calendar/composables/useIcalSource.ts:16-93 | the success callback iff the feed was fetched and parsed; a non-ok response fails with `HTTP <status>` |
| CalendarSource.Events | src/features/calendar/composables/useIcalSource.ts:11-94 | the callback the method invokes is the one `Deliver` specifies |
| CalendarSource.KeepStartedMembers | src/features/calendar/composables/useIcalSource.ts:85-87 | the filter keeps exactly the present events with a start |
| CalendarSource.KeepStarted | src/features/calendar/composables/useIcalSource.ts:85-87 | no more events than candidates, each with a start |
| CalendarSource.FeedEvents | src/features/calendar/composables/useIcalSource.ts:82-87 | every event passed to the success callback has a start (`FeedEventsShape` gives the masters-then-exceptions layout) |
| CalendarSource.MapAllMembers | src/features/calendar/composables/useIcalSource.ts:82-84 | an event is among the mapped candidates iff some component maps to it |
| CalendarSource.FeedEventsShape | src/features/calendar/composables/useIcalSource.ts:82-87 | the surviving masters come first, then the surviving exceptions; all have a start; an event is emitted iff it survives |
| CalendarSource.CancelledClassOnlyOnMasters | src/features/calendar/composables/useIcalSource.ts:46-68 | an emitted `event-cancelled` event comes from a cancelled master |
| LegacyCalendarSource.MapVevent | src/composables/useIcalSource.ts:27-58 | one event per component, with its fields (all-day iff DTSTART is a date), classes and extended properties |
| LegacyCalendarSource.Deliver | src/composables/useIcalSource.ts:19-65 | the success callback iff the feed was fetched and parsed; a non-ok response fails with `HTTP <status>` |
| LegacyCalendarSource.FeedEventsAreStartedComponents | src/composables/useIcalSource.ts:26-59 | the emitted list is the components with a start, in feed order, each mapped |
| LegacyCalendarSource.FeedEvents | src/composables/useIcalSource.ts:26-59 | no more events than components (`FeedEventsAreStartedComponents` says which) |
| LegacyCalendarSource.CancelledKept | src/composables/useIcalSource.ts:44-59 | a cancelled component with a start is emitted with the `event-cancelled` class |
| LegacyPollEvents.MapVevent | src/composables/usePollEvents.ts:33-56 | one event per component, whatever its STATUS or RECURRENCE-ID, with the UID, title, start, end, all-day flag and agenda fields |
| LegacyPollEvents.KeepInDayMembers | src/composables/usePollEvents.ts:57-62 | the filter keeps exactly the events whose truncated start lies in the day window |
| LegacyPollEvents.KeepInDay | src/composables/usePollEvents.ts:57-62 | the filter gives no more events than it is given |
| LegacyPollEvents.DayEvents | src/composables/usePollEvents.ts:32-63 | one agenda's day list is sorted by start |
| LegacyPollEvents.AgendaEvents | src/composables/usePollEvents.ts:18-64 | rejects iff the feed could not be fetched or parsed, with that error's message; otherwise resolves to a list sorted by start |
| LegacyPollEvents.DayEventsExact | src/composables/usePollEvents.ts:32-63 | an event is listed iff it passes the day test and maps from a component; the list is sorted, stable, and no longer than the feed |
| LegacyPollEvents.CancelledExceptionShown | src/composables/usePollEvents.ts:32-63 | a cancelled exception in the day is listed, where the newer feed drops it |
| LegacyPollEvents.Load | src/composables/usePollEvents.ts:71-91 | after settling every agenda, events are the sorted merge of the fulfilled ones and no error is set |
| LegacyPollEvents.MergedEvents | src/composables/usePollEvents.ts:76-85 | the merged list is sorted and holds exactly the day events of the agendas whose feed was fetched and parsed |
| PollUtils.LeadingGlyph | src/features/poll/utils/poll.utils.ts:16 | the regex matches an Emoji_Presentation character, or else an Emoji character followed by U+FE0F, at the start of the title |
| PollUtils.ExtractLeadingEmoji | src/features/poll/utils/poll.utils.ts:15-19 | the fallback glyph iff the title has no leading emoji; otherwise the glyph is a prefix of the title; the rest is never longer than the title |
| PollUtils.ExtractLeadingEmojiSplits | src/features/poll/utils/poll.utils.ts:15-19 | without a match the title is kept untrimmed behind the fallback glyph; with one, glyph plus remainder is the title and the rest is the remainder trimmed |
| PollUtils.ExtractLeadingEmojiOfSpacedTitle | src/features/poll/utils/poll.utils.ts:15-19 | an emoji, spaces and a word split into the emoji and the word |
| PollUtils.FormatTime | src/features/poll/utils/poll.utils.ts:21-22 | an empty time formats as empty |
| PollUtils.FormatClockText | src/features/poll/utils/poll.utils.ts:21-27 | a padded `HH:MM` formats as the unpadded hour, `h`, and the padded minutes only when positive |
| PollUtils.FormatParsedFields | src/features/poll/utils/poll.utils.ts:23-26 | fields that parse to `h` and `m` give `<h>h` or `<h>h<mm>` |
| PollUtils.FormatTimeWithMinutes | src/features/poll/utils/poll.utils.ts:21-27 | `09:05` formats as `9h05` |
| PollUtils.FormatTimeOnTheHour | src/features/poll/utils/poll.utils.ts:21-27 | `14:00` formats as `14h` |
| PollUtils.StripKeywordsWithoutKeyword | src/features/poll/utils/poll.utils.ts:34 | a line without any keyword is left unchanged by the keyword removal |
| PollUtils.RemoveDashesAndColons | src/features/poll/utils/poll.utils.ts:34 | no character of the dash class remains, and a line without one is unchanged |
| PollUtils.LineValueAfterColon | src/features/poll/utils/poll.utils.ts:33-34 | after a colon followed by text, the name is that text, later colons included, trimmed |
| PollUtils.ExtractReferents | src/features/poll/utils/poll.utils.ts:29-39 | the loop over the lines collects the names that the specification `Referents` joins with `, ` |
| PollUtils.Referents | src/features/poll/utils/poll.utils.ts:29-39 | the names joined with `, `; a function without its own contract, whose properties `ReferentsEmpty` and `ReferentNamesBounds` state |
| PollUtils.ReferentNamesBounds | src/features/poll/utils/poll.utils.ts:30-37 | no more names than lines; each name is non-empty and is the value of a line that mentions a referent |
| PollUtils.NoReferentLine | src/features/poll/utils/poll.utils.ts:32 | with no matching line no name is found |
| PollUtils.ReferentsEmpty | src/features/poll/utils/poll.utils.ts:35-38 | the result is empty iff no name was found, in particular when no line matches |
| PollUtils.OptionParts | src/features/poll/utils/poll.utils.ts:41-50 | the trimmed title is always a part; one more part each for an emoji, a time and non-blank referents |
| PollUtils.BuildOptionText | src/features/poll/utils/poll.utils.ts:41-52 | pushing the parts one by one and joining with spaces gives `BuildOption` |
| PollUtils.BuildOption | src/features/poll/utils/poll.utils.ts:41-52 | the parts joined with spaces; a function without its own contract, whose layout `OptionParts` and `BuildOptionLayout` state |
| PollUtils.BuildOptionLayout | src/features/poll/utils/poll.utils.ts:41-52 | the option starts with the emoji and a space, ends with a space and the referent segment, and is the bare trimmed title when there is neither |
| Drag.IndexOfKey | src/features/poll/composables/usePollDrag.ts:19-20 | the first index holding the key, or none iff no item has it |
| Drag.IndexOfUniqueKey | src/features/poll/composables/usePollDrag.ts:19-20 | with unique keys, looking up an item's key finds its own index |
| Drag.Reordered | src/features/poll/composables/usePollDrag.ts:16-25 | a move keeps the length of the list (`ReorderedMoves` and `ReorderedUnchanged` say where each item goes) |
| Drag.ReorderedUnchanged | src/features/poll/composables/usePollDrag.ts:17-21 | a move onto itself, or from or to a missing key, leaves the list unchanged |
| Drag.MoveFacts | src/features/poll/composables/usePollDrag.ts:22-23 | the two splices permute the list, put the item at the target index and keep the others in order |
| Drag.ReorderedMoves | src/features/poll/composables/usePollDrag.ts:16-25 | a move between present keys permutes the list, lands the item where the target key was, and keeps the others' order |
| Drag.AdjacentReorderSwaps | src/features/poll/composables/usePollDrag.ts:16-25 | moving an item onto its neighbour, in either direction, swaps the two |
| Drag.AdjacentReorderSelfInverse | src/features/poll/composables/usePollDrag.ts:16-25 | moving A onto neighbour B and then B onto A restores the list |
| Drag.PollDrag.constructor | src/features/poll/composables/usePollDrag.ts:8-14 | no dragged or target key, no touch drag, no timer |
| Drag.PollDrag.Reorder | src/features/poll/composables/usePollDrag.ts:16-25 | the list becomes the specification `Reordered` of the old list |
| Drag.PollDrag.OnDragStart | src/features/poll/composables/usePollDrag.ts:29-35 | the key becomes the dragged key |
| Drag.PollDrag.OnDragOver | src/features/poll/composables/usePollDrag.ts:37-41 | the key becomes the target key |
| Drag.PollDrag.OnDrop | src/features/poll/composables/usePollDrag.ts:43-47 | moves the dragged item onto the key when one is dragged, then clears both keys |
| Drag.PollDrag.OnDragEnd | src/features/poll/composables/usePollDrag.ts:49-52 | both keys cleared, list untouched |
| Drag.PollDrag.ClearTimer | src/features/poll/composables/usePollDrag.ts:57-60 | the stored timer, if any, is disarmed and forgotten |
| Drag.PollDrag.CancelTouch | src/features/poll/composables/usePollDrag.ts:56-64 | the stored timer is disarmed and the gesture is idle with both keys cleared |
| Drag.PollDrag.OnHandleTouchStart | src/features/poll/composables/usePollDrag.ts:66-75 | records the position and arms a fresh timer for the key; a timer stored before stays armed |
| Drag.PollDrag.TimerFires | src/features/poll/composables/usePollDrag.ts:70-74 | the fired timer is disarmed, its key becomes the dragged key and the touch drag starts |
| Drag.PollDrag.OnHandleTouchMove | src/features/poll/composables/usePollDrag.ts:77-98 | during a drag a different item under the finger becomes the target; before it, a move beyond 8 px on either axis disarms the timer |
| Drag.PollDrag.OnHandleTouchEnd | src/features/poll/composables/usePollDrag.ts:100-111 | the timer is disarmed, a touch drag with both keys performs the move, and the gesture is reset |
| Drag.LongPressDrag | src/features/poll/composables/usePollDrag.ts:66-111 | press, timer, move over a target, lift: the list is the move from the pressed key to the target |
| Drag.ScrollCancelsDrag | src/features/poll/composables/usePollDrag.ts:88-97 | moving beyond the threshold before the timer fires leaves no timer armed and the list unchanged |
| PollItems.EventToItemFields | src/composables/usePollItems.ts:21-28 | an event item has the counter's key, is checked with its picker closed, and takes emoji, title, referents, colour and an `HH:MM` time that formats back to the local hour and minutes |
| PollItems.EventToItem | src/composables/usePollItems.ts:21-28 | the item has the counter's key, is checked with its picker closed, has no end time and the event's colour, and has an empty time iff the event has no start |
| PollItems.Manual | src/composables/usePollItems.ts:36 | the filter gives no more items than the list (`ManualMembers` says which) |
| PollItems.StartTimeReadsBack | src/composables/usePollItems.ts:22-25 | the padded local time has five characters and formats to the local hour and minutes |
| PollItems.ManualMembers | src/composables/usePollItems.ts:36 | the manual items are exactly the items whose key is not an auto key |
| PollItems.ManualUnique | src/composables/usePollItems.ts:36 | the filter keeps keys unique |
| PollItems.WithoutKeyIsManual | src/composables/usePollItems.ts:48 | removing a key keeps exactly the other items, in order |
| PollItems.RefreshedList | src/composables/usePollItems.ts:35-40 | fresh items then manual items: keys unique and below the counter, no former auto key, every fresh key present |
| PollItems.KeySequence.constructor | src/composables/usePollItems.ts:5 | the counter starts at 0 |
| PollItems.KeySequence.MakeItem | src/composables/usePollItems.ts:7-19 | the item takes the counter's value, with defaults under the overrides, and the counter goes up by one |
| PollItems.PollItemsState.constructor | src/composables/usePollItems.ts:31-33 | the list is the "Je ne peux pas" item alone, made from the counter, and there are no auto keys |
| PollItems.PollItemsState.Refresh | src/composables/usePollItems.ts:35-40 | the list becomes one fresh item per event followed by the manual items, the auto keys the fresh keys; the invariant holds; the item carrying the "Je ne peux pas" key survives as it stands |
| PollItems.PollItemsState.AddItem | src/composables/usePollItems.ts:42-45 | a default item goes just before the last one, or alone in an empty list |
| PollItems.PollItemsState.RemoveItem | src/composables/usePollItems.ts:47-50 | every item with the key goes, the rest keep their order, and the key stops being an auto key |
| PollItems.PollItemsState.CloseAllEmojiPickers | src/composables/usePollItems.ts:52-56 | every item except the excepted key gets its picker closed; nothing else changes |
| PollItems.PollItemsState.ToggleEmojiPicker | src/composables/usePollItems.ts:58-62 | the item's picker flips, all others close, at most one is open, only picker flags change |
| PollItems.PollItemsState.PickEmoji | src/composables/usePollItems.ts:64-67 | the item takes the emoji and its picker closes |
| Weather.GetWeatherIcon | src/composables/useWeather.ts:18-20 | the table's icon for a listed code, the thermometer otherwise |
| Weather.DefaultIconOnlyForUnlistedCodes | src/composables/useWeather.ts:5-20 | the thermometer appears iff the code is unlisted; listed codes are two-digit WMO codes |
| Weather.ZipKeys | src/composables/useWeather.ts:27-34 | the zipped map has exactly the timestamps as keys |
| Weather.Zip | src/composables/useWeather.ts:27-34 | the last timestamp read maps to its own entry (`ZipKeys` and `ZipLastWins` give the whole map) |
| Weather.ZipLastWins | src/composables/useWeather.ts:28-34 | a timestamp maps to the entry of its last index |
| Weather.SameHourSameKey | src/composables/useWeather.ts:38-41 | every instant of one local hour is looked up under the same key |
| Weather.WeatherKey | src/composables/useWeather.ts:38-41 | the key names a whole hour: it ends in `:00` |
| Weather.HourKeyLayout | src/composables/useWeather.ts:39-40 | for four-digit years the key is `YYYY-MM-DDTHH:00` and its fields parse back to the date and hour |
| Weather.HourKeyInjective | src/composables/useWeather.ts:40 | distinct local hours have distinct keys |
| Weather.WeatherCache.constructor | src/composables/useWeather.ts:16 | the cache starts empty |
| Weather.WeatherCache.FetchWeather | src/composables/useWeather.ts:22-36 | an ok response replaces the whole cache by the zipped hours; a non-ok one throws `Météo HTTP <status>` and a network error its message, leaving the cache unchanged |
| Weather.WeatherCache.GetWeatherForEvent | src/composables/useWeather.ts:38-42 | the cached entry of the event's local hour, or nothing iff that key is absent |
| SendPoll.CheckedItemsMembers | src/composables/useSendPoll.ts:10-12 | the selected items are exactly the checked items with a non-blank title |
| SendPoll.CheckedItems | src/composables/useSendPoll.ts:10-12 | the selection is no longer than the list |
| SendPoll.CheckedItemsAppend | src/composables/useSendPoll.ts:10-12 | the selection distributes over concatenation, so it keeps list order |
| SendPoll.AllSelectedKept | src/composables/useSendPoll.ts:11 | a list of selected items is kept whole |
| SendPoll.NoneSelectedDropped | src/composables/useSendPoll.ts:11 | a list with no selected item gives nothing |
| SendPoll.ValidatePoll | src/composables/useSendPoll.ts:21-47 | the selection message iff fewer than two items are selected, then the question message iff the trimmed question is empty; otherwise the request with the trimmed question and one option per selected item |
| SendPoll.SelectionCheckedFirst | src/composables/useSendPoll.ts:22-32 | with fewer than two selected items the question and unselected items do not matter |
| SendPoll.PreviewTextLayout | src/composables/useSendPoll.ts:14-16 | the preview is the trimmed question, a blank line and one option per line |
| SendPoll.PreviewText | src/composables/useSendPoll.ts:14-16 | the trimmed question, an empty line and the options joined by newlines; a function without its own contract, whose layout `PreviewTextLayout` states |
| SendPoll.ReplyOutcome | src/composables/useSendPoll.ts:48-58 | sent iff the backend replied ok, and then no error text is written; otherwise failed, writing the backend's error, `Erreur Telegram inconnue`, the exception's message or `Erreur réseau` |
| SendPoll.PollSender.constructor | src/composables/useSendPoll.ts:5-7 | idle with no error |
| SendPoll.PollSender.BeginSend | src/composables/useSendPoll.ts:21-47 | a failed check sets the error state and message and posts nothing; otherwise loading with the error cleared and the request returned |
| SendPoll.PollSender.CompleteSend | src/composables/useSendPoll.ts:48-58 | from any state, the state becomes the one `ReplyOutcome` gives; a failure writes its error text, an ok reply leaves the error text as it was |
| SendPoll.OverlappingSends | src/composables/useSendPoll.ts:21-58 | a second send that fails the selection check while the first is in flight, then an ok reply to the first: the state is sent and the selection message stays |
| UrlState.Get | src/composables/useUrlState.ts:31 | a value iff the name is present, and it is the value of the first pair with that name |
| UrlState.Delete | src/composables/useUrlState.ts:42 | exactly the pairs with other names remain |
| UrlState.GetDelete | src/composables/useUrlState.ts:42 | after a delete the name is absent and every other name reads as before |
| UrlState.Set | src/composables/useUrlState.ts:44 | `params.set`: the first pair named `k` takes the value and later ones go, or the pair is appended; a function without its own contract, whose reading `GetSet` states |
| UrlState.GetSet | src/composables/useUrlState.ts:44 | after a set the name reads as the value and every other name as before |
| UrlState.GetApplyPatch | src/composables/useUrlState.ts:38-48 | after a patch every name reads as its last entry says, and an unmentioned name as before |
| UrlState.ApplyPatch | src/composables/useUrlState.ts:40-46 | the entries applied in order, an absent or empty value deleting the name; a function without its own contract, whose reading `GetApplyPatch` states |
| UrlState.ParseHash | src/composables/useUrlState.ts:28-36 | each of `v`, `d`, `a`, `e` is reported iff the parameters have it |
| UrlState.UpdateThenParse | src/composables/useUrlState.ts:28-48 | after patching one field with a non-empty value, parsing reports it and the other three fields as before |
| UrlState.Published | src/composables/useUrlState.ts:23-26 | empty parameters remove the hash; otherwise the hash holds the parameters |
| UrlState.Location.constructor | src/composables/useUrlState.ts:18-21 | the location holds the given hash |
| UrlState.Location.SetParams | src/composables/useUrlState.ts:23-26 | the hash becomes the published form of the parameters |
| UrlState.Location.UpdateHash | src/composables/useUrlState.ts:38-48 | the loop applies the patch entry by entry, then publishes the result |
| UrlState.Location.RemoveHashParam | src/composables/useUrlState.ts:50-54 | the hash becomes the published parameters without the name |

## Left out

- Fetching, the network, `Date.now()` cache busting, `res.text()` and `res.json()`: each fetch is replaced by its outcome, a network error or a response with its status and decoded body.
- Parsing iCalendar text (ical.js) is not part of this model: a feed arrives as its VEVENT components, read through the first-value accessors, or as a parse error with its message.
- Time-zone rules: a `Zone` gives the local offset at each instant, whatever it is. The day window `[targetDay, nextDay)` (local midnight and the next local midnight) is an input, because computing it needs the zone database. Minute truncation assumes offsets of whole minutes.
- Vue reactivity: the `watch` triggers, `ref` wrappers and overlapping `load` calls are not modelled. Each `load` is split into the part before its `await` and the part after it, and a later completion simply overwrites an earlier one.
- `console.warn` and `console.error` are not modelled. `load`'s `catch` is unreachable, because `Promise.allSettled` does not reject, so it is not modelled either.
- Timers: `setTimeout` and `clearTimeout` become a map of armed timers, and a firing is an event the caller delivers. The 300 ms delay is a constant, and no clock is modelled.
- The DOM is not modelled: `preventDefault`, `dataTransfer`, `elementFromPoint` and `closest('[data-item-key]')`. The item under the finger arrives as an optional key. `Number()` of a malformed attribute (NaN) is not modelled.
- The Unicode Emoji and Emoji_Presentation properties are inputs, given as predicates, not tables.
- `toUpperCase` and the case-insensitive regular expressions fold ASCII letters only.
- `PollItem.endTime` is not among `makeItem`'s defaults. An absent `endTime` reads as the empty string.
- Weather precipitation and wind are real numbers that are only stored and read back, with no floating-point arithmetic.
- Weather.WeatherCache.FetchWeather: requires the forecast's arrays to be at least as long as its timestamps. The code then reads `undefined` for the missing hours, which the model does not represent.
- `URLSearchParams` is modelled as its ordered list of name and value pairs. Percent-encoding and `toString` are not modelled, so the hash is stored as the parameter list, and `replaceState`, `pathname` and `search` are not modelled.
- `copyPreview`'s clipboard write and its `copyState` timer are not modelled. Only the preview text is modelled (`SendPoll.PreviewTextLayout`).
- A `res.json()` failure of the poll backend is folded into an exception outcome, with or without a message.
- `src/shared/composables/useDarkMode.ts` is not part of this model. It is the theme toggle and holds no core logic.
- `fetchAgendaEvents`'s JavaScript `Date` objects are represented by their millisecond instants. Two dates with the same `toISOString()` are the same instant, so the string key `uid::iso` becomes a pair.
