/** The text rules of a poll option (src/features/poll/utils/poll.utils.ts):
    splitting a leading emoji off a title, `HH:MM` to `9h30`, the referents
    named in a description, and the option string sent to the poll.
    The literals of that file are kept code point by code point, including
    the ones whose UTF-8 bytes were read back as Mac Roman. */
module PollUtils {
  import opened Wrappers
  import opened Text

  datatype PollItem = PollItem(
    key: int,
    checked: bool,
    emoji: string,
    time: string,
    endTime: string,
    title: string,
    referents: string,
    color: string,
    showEmojiPicker: bool)

  /** The Unicode Emoji_Presentation and Emoji properties (Unicode Technical
      Standard #51), which the regular expression consults. */
  datatype EmojiProperties = EmojiProperties(presentation: char -> bool, emoji: char -> bool)

  const VARIATION_SELECTOR_16: char := '\U{FE0F}'

  /** The fallback glyph when a title has no leading emoji: the bytes of
      U+1F4C5 read as Mac Roman. */
  const DEFAULT_EMOJI: string := "\U{F8FF}\U{FC}\U{EC}\U{D6}"

  /** The glyph `/^(\p{Emoji_Presentation}|\p{Emoji}\uFE0F)/u` matches, if any:
      the first alternative wins when both could. */
  function LeadingGlyph(props: EmojiProperties, text: string): (g: Option<string>)
    ensures g.Some? ==> |g.value| <= |text| && g.value == text[..|g.value|]
    ensures g.Some? ==>
              && text != []
              && ((g.value == [text[0]] && props.presentation(text[0])) ||
                  (g.value == [text[0], VARIATION_SELECTOR_16] && !props.presentation(text[0]) && props.emoji(text[0])))
    ensures g.None? <==> text == [] || (!props.presentation(text[0]) &&
                                        !(|text| >= 2 && props.emoji(text[0]) && text[1] == VARIATION_SELECTOR_16))
  {
    if |text| >= 1 && props.presentation(text[0]) then Some([text[0]])
    else if |text| >= 2 && props.emoji(text[0]) && text[1] == VARIATION_SELECTOR_16 then Some(text[..2])
    else None
  }

  datatype EmojiSplit = EmojiSplit(emoji: string, rest: string)

  /** `extractLeadingEmoji`: the matched glyph, and what follows the glyph and
      the white space after it (`(\s*)`), trimmed. */
  function ExtractLeadingEmoji(props: EmojiProperties, text: string): (r: EmojiSplit)
    ensures r.emoji == DEFAULT_EMOJI <==> LeadingGlyph(props, text).None?
    ensures r.emoji != DEFAULT_EMOJI ==> |r.emoji| <= |text| && r.emoji == text[..|r.emoji|]
    ensures |r.rest| <= |text|
  {
    match LeadingGlyph(props, text)
    case None => EmojiSplit(DEFAULT_EMOJI, text)
    case Some(g) =>
      var after := text[|g|..];
      var matched := |g| + (|after| - |TrimStart(after)|);
      EmojiSplit(g, Trim(text[matched..]))
  }

  lemma TrimStartIdempotent(s: string)
    ensures TrimStart(TrimStart(s)) == TrimStart(s)
  {
    var t := TrimStart(s);
    assert t == [] || !IsSpace(t[0]);
  }

  /** Trimming what is left after the leading white space is trimming the whole. */
  lemma TrimAfterLeadingSpaces(s: string)
    ensures Trim(s[|s| - |TrimStart(s)|..]) == Trim(s)
  {
    var t := TrimStart(s);
    assert s[|s| - |t|..] == t;
    TrimStartIdempotent(s);
  }

  /** Without a leading emoji the title is kept whole, untrimmed, behind the
      fallback glyph; with one, the glyph is split off and the rest is the
      trimmed remainder, so that glyph and remainder give back the title up to
      white space. */
  lemma {:induction false} ExtractLeadingEmojiSplits(props: EmojiProperties, text: string)
    ensures LeadingGlyph(props, text).None? ==> ExtractLeadingEmoji(props, text) == EmojiSplit(DEFAULT_EMOJI, text)
    ensures LeadingGlyph(props, text).Some? ==>
              var g := LeadingGlyph(props, text).value;
              && text == g + text[|g|..]
              && ExtractLeadingEmoji(props, text) == EmojiSplit(g, Trim(text[|g|..]))
  {
    if LeadingGlyph(props, text).Some? {
      var g := LeadingGlyph(props, text).value;
      var after := text[|g|..];
      var matched := |g| + (|after| - |TrimStart(after)|);
      assert text == g + after;
      assert text[matched..] == after[|after| - |TrimStart(after)|..];
      TrimAfterLeadingSpaces(after);
    }
  }

  /** A title made of an emoji of presentation style, white space and a
      word, such as "🎉 Fête": the emoji, and the word. */
  lemma {:induction false} ExtractLeadingEmojiOfSpacedTitle(props: EmojiProperties, c: char, spaces: string, word: string)
    requires props.presentation(c)
    requires forall k :: 0 <= k < |spaces| ==> IsSpace(spaces[k])
    requires word != [] && !IsSpace(word[0]) && !IsSpace(word[|word| - 1])
    ensures ExtractLeadingEmoji(props, [c] + spaces + word) == EmojiSplit([c], word)
  {
    var text := [c] + spaces + word;
    assert text[0] == c;
    assert LeadingGlyph(props, text) == Some([c]);
    var after := text[1..];
    assert after == spaces + word;
    TrimStartSkipsSpaces(spaces, word);
    assert TrimStart(after) == word;
    assert text[1 + |spaces|..] == word;
    TrimOfTrimmed(word);
  }

  /** `${n}` for the result of `parseInt`: `NaN` when it found no digit. */
  function NumberToString(n: Option<int>): string {
    match n
    case None => "NaN"
    case Some(v) => IntToString(v)
  }

  /** `formatTime`: the hour, `h`, and the minutes only when they are positive. */
  function FormatTime(t: string): (r: string)
    ensures t == "" ==> r == ""
  {
    if t == "" then "" else FormatFields(Split(t, ':'))
  }

  /** The text `formatTime` builds from the first two `:`-separated fields. */
  function FormatFields(parts: seq<string>): string
    requires |parts| >= 1
  {
    var h := ParseInt(parts[0]);
    var m := if |parts| > 1 then ParseInt(parts[1]) else None;
    if m.Some? && m.value > 0 then NumberToString(h) + "h" + Pad2(m.value)
    else NumberToString(h) + "h"
  }

  /** A string without the separator is one piece. */
  lemma {:induction false} SplitWithoutSeparator(s: string, c: char)
    requires c !in s
    ensures Split(s, c) == [s]
  {
    if s != [] {
      SplitWithoutSeparator(s[1..], c);
      assert [s[0]] + s[1..] == s;
    }
  }

  /** `a + c + b` with `c` in neither part splits into `[a, b]`. */
  lemma {:induction false} SplitAroundSeparator(a: string, b: string, c: char)
    requires c !in a && c !in b
    ensures Split(a + [c] + b, c) == [a, b]
  {
    if a == [] {
      assert a + [c] + b == [c] + b;
      assert ([c] + b)[1..] == b;
      SplitWithoutSeparator(b, c);
    } else {
      var s := a + [c] + b;
      assert s[0] == a[0] && s[1..] == a[1..] + [c] + b;
      SplitAroundSeparator(a[1..], b, c);
      assert [a[0]] + a[1..] == a;
    }
  }

  /** The zero-padded `HH:MM` of an hour and a minute. */
  function ClockText(h: int, m: int): string {
    Pad2(h) + ":" + Pad2(m)
  }

  /** `formatTime` of a zero-padded `HH:MM`: the hour without its leading
      zero, `h`, then the two-digit minutes when they are not zero. */
  lemma FormatClockText(h: int, m: int)
    requires 0 <= h < 24 && 0 <= m < 60
    ensures FormatTime(ClockText(h, m)) == IntToString(h) + "h" + (if m > 0 then Pad2(m) else "")
  {
    var hh, mm := Pad2(h), Pad2(m);
    ParsePad2(h);
    ParsePad2(m);
    assert ':' !in hh by { assert forall k :: 0 <= k < |hh| ==> IsDigit(hh[k]); }
    assert ':' !in mm by { assert forall k :: 0 <= k < |mm| ==> IsDigit(mm[k]); }
    var t := ClockText(h, m);
    assert t == hh + [':'] + mm;
    SplitAroundSeparator(hh, mm, ':');
    assert FormatTime(t) == FormatFields([hh, mm]);
    FormatParsedFields(hh, mm, h, m);
  }

  lemma FormatParsedFields(hh: string, mm: string, h: int, m: int)
    requires ParseInt(hh) == Some(h) && ParseInt(mm) == Some(m)
    ensures FormatFields([hh, mm]) == IntToString(h) + "h" + (if m > 0 then Pad2(m) else "")
  {
    assert [hh, mm][0] == hh && [hh, mm][1] == mm;
  }

  /** An example of the format with minutes: `09:05` reads `9h05`. */
  lemma {:induction false} FormatTimeWithMinutes(t: string)
    requires t == "09:05"
    ensures FormatTime(t) == "9h05"
  {
    assert IntToString(9) == "9";
    assert IntToString(5) == "5";
    assert Pad2(9) == "09";
    assert Pad2(5) == "05";
    assert ClockText(9, 5) == t;
    FormatClockText(9, 5);
    assert IntToString(9) + "h" + Pad2(5) == "9h05";
  }

  /** An example of the format on the hour: `14:00` reads `14h`. */
  lemma {:induction false} FormatTimeOnTheHour(t: string)
    requires t == "14:00"
    ensures FormatTime(t) == "14h"
  {
    assert NatToString(1) == "1";
    assert IntToString(14) == "14" by { assert NatToString(14) == NatToString(1) + [DigitChar(4)]; }
    assert IntToString(0) == "0";
    assert Pad2(14) == "14";
    assert Pad2(0) == "00";
    assert ClockText(14, 0) == t;
    FormatClockText(14, 0);
  }

  /** `s.split(/\n|\\n/)`: pieces between real line feeds and escaped `\n` pairs. */
  function SplitLines(s: string): (r: seq<string>)
    ensures |r| >= 1
  {
    if s == [] then [""]
    else if s[0] == '\n' then [""] + SplitLines(s[1..])
    else if |s| >= 2 && s[0] == '\\' && s[1] == 'n' then [""] + SplitLines(s[2..])
    else
      var rest := SplitLines(s[1..]);
      [[s[0]] + rest[0]] + rest[1..]
  }

  /** Case-insensitive prefix test (ASCII case folding). */
  predicate StartsWithFolded(s: string, p: string) {
    |p| <= |s| && Lower(s[..|p|]) == Lower(p)
  }

  /** Case-insensitive substring test. */
  predicate ContainsFolded(s: string, p: string)
    decreases |s|
  {
    StartsWithFolded(s, p) || (s != [] && ContainsFolded(s[1..], p))
  }

  const RESPONSABLE: string := "responsable"
  const REFERENT: string := "referent"
  /** "référent" as its UTF-8 bytes read back as Mac Roman. */
  const REFERENT_MISENCODED: string := "r\U{221A}\U{A9}f\U{221A}\U{A9}rent"

  /** `/responsable|r√©f√©rent/i.test(line)`. */
  predicate MentionsReferent(line: string) {
    ContainsFolded(line, RESPONSABLE) || ContainsFolded(line, REFERENT_MISENCODED)
  }

  /** `line.replace(/responsable|referent|r√©f√©rent[s]?/gi, '')`: scanning
      from the left, each occurrence of an alternative is removed, the first
      alternative that matches at a position winning. */
  function StripKeywords(s: string): (r: string)
    ensures |r| <= |s|
    decreases |s|
  {
    if s == [] then ""
    else if StartsWithFolded(s, RESPONSABLE) then StripKeywords(s[|RESPONSABLE|..])
    else if StartsWithFolded(s, REFERENT) then StripKeywords(s[|REFERENT|..])
    else if StartsWithFolded(s, REFERENT_MISENCODED) then
      var n := |REFERENT_MISENCODED|;
      if |s| > n && LowerChar(s[n]) == 's' then StripKeywords(s[n + 1..]) else StripKeywords(s[n..])
    else [s[0]] + StripKeywords(s[1..])
  }

  /** A line that mentions none of the keywords passes through unchanged. */
  lemma {:induction false} StripKeywordsWithoutKeyword(s: string)
    requires !ContainsFolded(s, RESPONSABLE) && !ContainsFolded(s, REFERENT) && !ContainsFolded(s, REFERENT_MISENCODED)
    ensures StripKeywords(s) == s
  {
    if s != [] {
      StripKeywordsWithoutKeyword(s[1..]);
      assert [s[0]] + s[1..] == s;
    }
  }

  /** The class `[:\-‚Äì]`: a colon, a hyphen and the three code points of the mis-encoded en dash. */
  predicate IsDashOrColon(c: char) {
    c == ':' || c == '-' || c == '\U{201A}' || c == '\U{C4}' || c == '\U{EC}'
  }

  /** `.replace(/[:\-‚Äì]/g, '')`: every character of the class removed, the others kept in order. */
  function RemoveDashesAndColons(s: string): (r: string)
    ensures |r| <= |s|
    ensures forall k :: 0 <= k < |r| ==> !IsDashOrColon(r[k])
    ensures (forall k :: 0 <= k < |s| ==> !IsDashOrColon(s[k])) ==> r == s
  {
    if s == [] then ""
    else (if IsDashOrColon(s[0]) then "" else [s[0]]) + RemoveDashesAndColons(s[1..])
  }

  /** The name a matching line gives: what follows its first colon, trimmed,
      or else the line without its keywords, dashes and colons, trimmed. */
  function LineValue(line: string): string {
    var afterColon := if ':' in line then Trim(Join(Split(line, ':')[1..], [':'])) else "";
    if afterColon != "" then afterColon else Trim(RemoveDashesAndColons(StripKeywords(line)))
  }

  /** After a colon that has text behind it, the name is all of that text,
      later colons included, trimmed. */
  lemma LineValueAfterColon(line: string)
    requires ':' in line && Trim(line[IndexOf(line, ':') + 1..]) != ""
    ensures LineValue(line) == Trim(line[IndexOf(line, ':') + 1..])
  {
    AfterFirstSeparator(line, ':');
  }

  /** The names pushed by the loop over the lines of a description, in line order. */
  function ReferentNames(lines: seq<string>): seq<string> {
    if lines == [] then []
    else
      var last := lines[|lines| - 1];
      ReferentNames(lines[..|lines| - 1]) + (if MentionsReferent(last) && LineValue(last) != "" then [LineValue(last)] else [])
  }

  /** What `extractReferents` returns. */
  function Referents(description: string): string {
    Join(ReferentNames(SplitLines(description)), ", ")
  }

  /** `extractReferents`. */
  method ExtractReferents(description: string) returns (r: string)
    ensures r == Referents(description)
  {
    var lines := SplitLines(description);
    var names: seq<string> := [];
    for i := 0 to |lines|
      invariant names == ReferentNames(lines[..i])
    {
      assert lines[..i + 1][..i] == lines[..i];
      var line := lines[i];
      if MentionsReferent(line) {
        var value := LineValue(line);
        if value != "" {
          names := names + [value];
        }
      }
    }
    assert lines[..|lines|] == lines;
    r := Join(names, ", ");
  }

  /** There are no more names than lines; each is non-empty and is the value
      of a line that mentions a referent. */
  lemma {:induction false} ReferentNamesBounds(lines: seq<string>)
    ensures |ReferentNames(lines)| <= |lines|
    ensures forall n :: n in ReferentNames(lines) ==>
              n != "" && exists l :: l in lines && MentionsReferent(l) && LineValue(l) == n
  {
    if lines != [] {
      var init := lines[..|lines| - 1];
      ReferentNamesBounds(init);
      forall n | n in ReferentNames(lines)
        ensures n != "" && exists l :: l in lines && MentionsReferent(l) && LineValue(l) == n
      {
        if n in ReferentNames(init) {
          var l :| l in init && MentionsReferent(l) && LineValue(l) == n;
          assert l in lines;
        } else {
          assert lines[|lines| - 1] in lines;
        }
      }
    }
  }

  /** No line mentions a referent: nothing is found. */
  lemma {:induction false} NoReferentLine(lines: seq<string>)
    requires forall k :: 0 <= k < |lines| ==> !MentionsReferent(lines[k])
    ensures ReferentNames(lines) == []
  {
    if lines != [] {
      NoReferentLine(lines[..|lines| - 1]);
    }
  }

  lemma {:induction false} JoinEmpty(parts: seq<string>, sep: string)
    requires sep != ""
    ensures Join(parts, sep) == "" <==> parts == [] || (|parts| == 1 && parts[0] == "")
  {
    if |parts| > 1 {
      assert |Join(parts, sep)| >= |sep|;
    }
  }

  /** `extractReferents` finds nothing exactly when no line gives a name;
      in particular when no line mentions a referent. */
  lemma ReferentsEmpty(description: string)
    ensures Referents(description) == "" <==> ReferentNames(SplitLines(description)) == []
    ensures (forall k :: 0 <= k < |SplitLines(description)| ==> !MentionsReferent(SplitLines(description)[k])) ==>
              Referents(description) == ""
  {
    var names := ReferentNames(SplitLines(description));
    ReferentNamesBounds(SplitLines(description));
    JoinEmpty(names, ", ");
    if |names| == 1 {
      assert names[0] in names;
    }
    if forall k :: 0 <= k < |SplitLines(description)| ==> !MentionsReferent(SplitLines(description)[k]) {
      NoReferentLine(SplitLines(description));
    }
  }

  /** The time segment: `start - end` when an end time is set. */
  function TimeSegment(time: string, endTime: string): string {
    if endTime != "" then FormatTime(time) + " - " + FormatTime(endTime) else FormatTime(time)
  }

  /** The referent segment, with the mis-encoded "(référent·e: ". */
  function ReferentSegment(referents: string): string {
    "(r\U{221A}\U{A9}f\U{221A}\U{A9}rent\U{AC}\U{2211}e: " + Trim(referents) + ")"
  }

  /** The first part: the emoji, when there is one. */
  function EmojiPart(item: PollItem): seq<string> {
    if item.emoji != "" then [item.emoji] else []
  }

  /** The second part: the time segment, when a start time is set. */
  function TimePart(item: PollItem): seq<string> {
    if item.time != "" then [TimeSegment(item.time, item.endTime)] else []
  }

  /** The last part: the referent segment, when the referents are not blank. */
  function ReferentPart(item: PollItem): seq<string> {
    if Trim(item.referents) != "" then [ReferentSegment(item.referents)] else []
  }

  /** The `parts` that `buildOption` pushes, in order. */
  function OptionParts(item: PollItem): (parts: seq<string>)
    ensures Trim(item.title) in parts
    ensures |parts| == 1 + (if item.emoji != "" then 1 else 0) + (if item.time != "" then 1 else 0) +
                       (if Trim(item.referents) != "" then 1 else 0)
  {
    EmojiPart(item) + TimePart(item) + [Trim(item.title)] + ReferentPart(item)
  }

  /** `buildOption`. */
  function BuildOption(item: PollItem): string {
    Join(OptionParts(item), " ")
  }

  /** `buildOption` as written: the parts pushed one by one, then joined. */
  method BuildOptionText(item: PollItem) returns (s: string)
    ensures s == BuildOption(item)
  {
    var parts: seq<string> := [];
    if item.emoji != "" {
      parts := parts + [item.emoji];
    }
    assert parts == EmojiPart(item);
    if item.time != "" {
      var start := FormatTime(item.time);
      var timeStr := if item.endTime != "" then start + " - " + FormatTime(item.endTime) else start;
      parts := parts + [timeStr];
    }
    assert parts == EmojiPart(item) + TimePart(item);
    parts := parts + [Trim(item.title)];
    if Trim(item.referents) != "" {
      parts := parts + [ReferentSegment(item.referents)];
    }
    assert parts == OptionParts(item);
    s := Join(parts, " ");
  }

  lemma {:induction false} JoinSnoc(parts: seq<string>, x: string, sep: string)
    requires parts != []
    ensures Join(parts + [x], sep) == Join(parts, sep) + sep + x
  {
    if |parts| == 1 {
      assert (parts + [x])[1..] == [x];
    } else {
      assert (parts + [x])[1..] == parts[1..] + [x];
      JoinSnoc(parts[1..], x, sep);
    }
  }

  /** The option string starts with the emoji and a space when there is an
      emoji, ends with a space and the referent segment when there are
      referents, and is the trimmed title alone when there is neither emoji
      nor time nor referent. */
  lemma BuildOptionLayout(item: PollItem)
    ensures item.emoji != "" ==> BuildOption(item) == item.emoji + " " + Join(OptionParts(item)[1..], " ")
    ensures Trim(item.referents) != "" ==>
              BuildOption(item) == Join(OptionParts(item)[..|OptionParts(item)| - 1], " ") + " " + ReferentSegment(item.referents)
    ensures item.emoji == "" && item.time == "" && Trim(item.referents) == "" ==> BuildOption(item) == Trim(item.title)
  {
    var parts := OptionParts(item);
    if Trim(item.referents) != "" {
      assert parts == parts[..|parts| - 1] + [ReferentSegment(item.referents)];
      JoinSnoc(parts[..|parts| - 1], ReferentSegment(item.referents), " ");
    }
  }
}
