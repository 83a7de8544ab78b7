/** The string operations of the JavaScript standard library that the core
    relies on: `trim`, `toUpperCase`, `String(n)`, `parseInt(s, 10)`,
    `padStart(2, '0')`, `split` on one character and `join`.
    A `string` is a sequence of Unicode code points. */
module Text {
  import opened Wrappers

  /** The WhiteSpace and LineTerminator code points of ECMAScript: what
      `String.prototype.trim` strips and what the regular expression `\s` matches. */
  predicate IsSpace(c: char) {
    c == '\t' || c == '\n' || c == '\U{B}' || c == '\U{C}' || c == '\r' || c == ' ' ||
    c == '\U{A0}' || c == '\U{1680}' || ('\U{2000}' <= c <= '\U{200A}') ||
    c == '\U{2028}' || c == '\U{2029}' || c == '\U{202F}' || c == '\U{205F}' ||
    c == '\U{3000}' || c == '\U{FEFF}'
  }

  predicate IsDigit(c: char) {
    '0' <= c <= '9'
  }

  predicate AllDigits(s: string) {
    forall i :: 0 <= i < |s| ==> IsDigit(s[i])
  }

  /** `trimStart`: drops the leading white space and nothing else. */
  function TrimStart(s: string): (r: string)
    ensures |r| <= |s| && r == s[|s| - |r|..]
    ensures r == [] || !IsSpace(r[0])
  {
    if s != [] && IsSpace(s[0]) then TrimStart(s[1..]) else s
  }

  /** `trimEnd`: drops the trailing white space and nothing else. */
  function TrimEnd(s: string): (r: string)
    ensures |r| <= |s| && r == s[..|r|]
    ensures r == [] || !IsSpace(r[|r| - 1])
  {
    if s != [] && IsSpace(s[|s| - 1]) then TrimEnd(s[..|s| - 1]) else s
  }

  /** What `trimStart` cuts is white space. */
  lemma {:induction false} TrimStartCutsSpaces(s: string)
    ensures forall k :: 0 <= k < |s| - |TrimStart(s)| ==> IsSpace(s[k])
  {
    if s != [] && IsSpace(s[0]) {
      TrimStartCutsSpaces(s[1..]);
      forall k | 1 <= k < |s| - |TrimStart(s)| ensures IsSpace(s[k]) {
        assert s[k] == s[1..][k - 1];
      }
    }
  }

  /** What `trimEnd` cuts is white space. */
  lemma {:induction false} TrimEndCutsSpaces(s: string)
    ensures forall k :: |TrimEnd(s)| <= k < |s| ==> IsSpace(s[k])
  {
    if s != [] && IsSpace(s[|s| - 1]) {
      TrimEndCutsSpaces(s[..|s| - 1]);
    }
  }

  /** `trim`. */
  function Trim(s: string): string {
    TrimEnd(TrimStart(s))
  }

  /** How many code points `trim` cuts from the front. */
  function TrimOffset(s: string): nat {
    |s| - |TrimStart(s)|
  }

  /** A trimmed string is the contiguous middle of the input. */
  lemma {:induction false} TrimIsMiddle(s: string)
    ensures TrimOffset(s) + |Trim(s)| <= |s|
    ensures Trim(s) == s[TrimOffset(s)..TrimOffset(s) + |Trim(s)|]
  {
    var t := TrimStart(s);
    var u := TrimEnd(t);
    assert t == s[TrimOffset(s)..];
    assert u == t[..|u|];
  }

  /** `trim` cuts only white space, on either side. */
  lemma {:induction false} TrimCutsSpaces(s: string)
    ensures forall k :: 0 <= k < TrimOffset(s) ==> IsSpace(s[k])
    ensures forall k :: TrimOffset(s) + |Trim(s)| <= k < |s| ==> IsSpace(s[k])
  {
    var t := TrimStart(s);
    var i := TrimOffset(s);
    TrimStartCutsSpaces(s);
    TrimEndCutsSpaces(t);
    forall k | i + |Trim(s)| <= k < |s| ensures IsSpace(s[k]) {
      assert s[k] == t[k - i];
    }
  }

  /** A trimmed string neither starts nor ends with white space. */
  lemma {:induction false} TrimmedEdges(s: string)
    ensures Trim(s) == [] || (!IsSpace(Trim(s)[0]) && !IsSpace(Trim(s)[|Trim(s)| - 1]))
  {
    var t := TrimStart(s);
    var u := TrimEnd(t);
    if u != [] {
      assert u[0] == t[0];
    }
  }

  /** White space in front of a string does not change its trimmed form. */
  lemma {:induction false} TrimStartSkipsSpaces(p: string, q: string)
    requires forall k :: 0 <= k < |p| ==> IsSpace(p[k])
    ensures TrimStart(p + q) == TrimStart(q)
  {
    if p != [] {
      var pq := p + q;
      assert pq[0] == p[0];
      assert pq[1..] == p[1..] + q;
      TrimStartSkipsSpaces(p[1..], q);
    } else {
      assert p + q == q;
    }
  }

  /** A string that starts with something other than white space and ends
      with something other than white space is its own trimmed form. */
  lemma TrimOfTrimmed(s: string)
    requires s == [] || (!IsSpace(s[0]) && !IsSpace(s[|s| - 1]))
    ensures Trim(s) == s
  {
  }

  function UpperChar(c: char): char {
    if 'a' <= c <= 'z' then (c as int - 32) as char else c
  }

  function LowerChar(c: char): char {
    if 'A' <= c <= 'Z' then (c as int + 32) as char else c
  }

  /** `toUpperCase`, on the ASCII letters. */
  function Upper(s: string): string {
    seq(|s|, i requires 0 <= i < |s| => UpperChar(s[i]))
  }

  /** The ASCII case folding of a case-insensitive regular expression. */
  function Lower(s: string): string {
    seq(|s|, i requires 0 <= i < |s| => LowerChar(s[i]))
  }

  function DigitChar(d: int): char
    requires 0 <= d < 10
  {
    ('0' as int + d) as char
  }

  /** `String(n)` for a non-negative integer: its decimal digits. */
  function NatToString(n: nat): (r: string)
    ensures |r| >= 1 && AllDigits(r)
  {
    if n < 10 then [DigitChar(n)] else NatToString(n / 10) + [DigitChar(n % 10)]
  }

  /** `String(n)` for an integer. */
  function IntToString(n: int): string {
    if n < 0 then "-" + NatToString(-n) else NatToString(n)
  }

  /** `String(n).padStart(2, '0')`. */
  function Pad2(n: int): (r: string)
    ensures |r| >= 2
  {
    var s := IntToString(n);
    if |s| >= 2 then s else seq(2 - |s|, _ => '0') + s
  }

  /** The value of a string of decimal digits. */
  function DigitsValue(d: string): nat
    requires AllDigits(d)
  {
    if d == [] then 0 else DigitsValue(d[..|d| - 1]) * 10 + (d[|d| - 1] as int - '0' as int)
  }

  /** The longest prefix made of decimal digits. */
  function LeadingDigits(s: string): (r: string)
    ensures |r| <= |s| && r == s[..|r|] && AllDigits(r)
    ensures |r| < |s| ==> !IsDigit(s[|r|])
  {
    if s != [] && IsDigit(s[0]) then [s[0]] + LeadingDigits(s[1..]) else []
  }

  /** `parseInt(s, 10)`: leading white space, an optional sign, then the
      longest run of digits; `None` stands for `NaN` (no digit at all). */
  function ParseInt(s: string): Option<int> {
    ParseSigned(TrimStart(s))
  }

  /** An optional sign, then the digits. */
  function ParseSigned(t: string): Option<int> {
    if t != [] && t[0] == '-' then
      match ParseDigits(t[1..])
      case None => None
      case Some(v) => Some(-v)
    else if t != [] && t[0] == '+' then ParseDigits(t[1..])
    else ParseDigits(t)
  }

  /** The value of the leading run of digits, if there is one. */
  function ParseDigits(t: string): Option<int> {
    var d := LeadingDigits(t);
    if d == [] then None else Some(DigitsValue(d))
  }

  lemma {:induction false} DigitsValueOfNat(n: nat)
    ensures DigitsValue(NatToString(n)) == n
  {
    if n >= 10 {
      var s := NatToString(n);
      assert s[..|s| - 1] == NatToString(n / 10);
      DigitsValueOfNat(n / 10);
    }
  }

  /** A string that is all digits is its own leading run of digits. */
  lemma {:induction false} LeadingDigitsOfDigits(s: string)
    requires AllDigits(s)
    ensures LeadingDigits(s) == s
  {
    if s != [] {
      LeadingDigitsOfDigits(s[1..]);
    }
  }

  /** A non-empty string of digits parses to its value. */
  lemma {:induction false} ParseAllDigits(s: string)
    requires s != [] && AllDigits(s)
    ensures ParseInt(s) == Some(DigitsValue(s))
  {
    assert IsDigit(s[0]) && !IsSpace(s[0]);
    assert TrimStart(s) == s;
    assert ParseSigned(s) == ParseDigits(s);
    LeadingDigitsOfDigits(s);
  }

  /** `parseInt(String(n), 10) == n` for every non-negative integer. */
  lemma {:induction false} ParseNatToString(n: nat)
    ensures ParseInt(NatToString(n)) == Some(n)
  {
    ParseAllDigits(NatToString(n));
    DigitsValueOfNat(n);
  }

  /** Two decimal digits parse to their value. */
  lemma {:induction false} ParseTwoDigits(s: string)
    requires |s| == 2 && AllDigits(s)
    ensures ParseInt(s) == Some((s[0] as int - '0' as int) * 10 + (s[1] as int - '0' as int))
  {
    ParseAllDigits(s);
    assert s[..|s| - 1] == [s[0]];
    assert [s[0]][..0] == [];
    assert DigitsValue([s[0]]) == s[0] as int - '0' as int;
  }

  /** For 0 <= n < 100 the padded form is the tens digit and the units digit. */
  lemma {:induction false} Pad2Digits(n: int)
    requires 0 <= n < 100
    ensures Pad2(n) == [DigitChar(n / 10), DigitChar(n % 10)]
  {
    if n < 10 {
      assert IntToString(n) == [DigitChar(n)];
    } else {
      assert NatToString(n / 10) == [DigitChar(n / 10)];
    }
  }

  /** For 0 <= n < 100 the padded form has exactly two digits and parses back to n. */
  lemma {:induction false} ParsePad2(n: int)
    requires 0 <= n < 100
    ensures |Pad2(n)| == 2 && AllDigits(Pad2(n))
    ensures ParseInt(Pad2(n)) == Some(n)
  {
    Pad2Digits(n);
    ParseTwoDigits(Pad2(n));
  }

  /** `s.split(c)` for a one-character separator: always at least one piece. */
  function Split(s: string, c: char): (r: seq<string>)
    ensures |r| >= 1
  {
    if s == [] then [""]
    else if s[0] == c then [""] + Split(s[1..], c)
    else
      var rest := Split(s[1..], c);
      [[s[0]] + rest[0]] + rest[1..]
  }

  /** `parts.join(sep)`. */
  function Join(parts: seq<string>, sep: string): string {
    if parts == [] then ""
    else if |parts| == 1 then parts[0]
    else parts[0] + sep + Join(parts[1..], sep)
  }

  /** No piece of a split holds the separator. */
  lemma {:induction false} SplitPiecesLackSeparator(s: string, c: char)
    ensures forall k :: 0 <= k < |Split(s, c)| ==> c !in Split(s, c)[k]
  {
    if s != [] {
      SplitPiecesLackSeparator(s[1..], c);
    }
  }

  /** Joining the pieces of a split with the separator gives back the string. */
  lemma {:induction false} JoinSplit(s: string, c: char)
    ensures Join(Split(s, c), [c]) == s
  {
    if s != [] {
      var rest := Split(s[1..], c);
      JoinSplit(s[1..], c);
      if s[0] == c {
        assert Split(s, c)[1..] == rest;
      } else if |rest| > 1 {
        var parts := Split(s, c);
        assert parts[1..] == rest[1..];
        assert Join(rest, [c]) == rest[0] + [c] + Join(rest[1..], [c]);
      }
    }
  }

  /** The index of the first occurrence of `c` in `s`. */
  function IndexOf(s: string, c: char): (i: nat)
    requires c in s
    ensures i < |s| && s[i] == c && c !in s[..i]
  {
    if s[0] == c then 0 else 1 + IndexOf(s[1..], c)
  }

  /** `s.split(c).slice(1).join(c)` is everything after the first `c`, later
      occurrences of `c` included. */
  lemma {:induction false} AfterFirstSeparator(s: string, c: char)
    requires c in s
    ensures Join(Split(s, c)[1..], [c]) == s[IndexOf(s, c) + 1..]
  {
    if s[0] == c {
      assert Split(s, c)[1..] == Split(s[1..], c);
      JoinSplit(s[1..], c);
    } else {
      assert c in s[1..] by {
        var i := IndexOf(s, c);
        assert s[1..][i - 1] == c;
      }
      var rest := Split(s[1..], c);
      assert Split(s, c)[1..] == rest[1..];
      AfterFirstSeparator(s[1..], c);
    }
  }
}
