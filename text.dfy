/**
 * String operations the model shares: the standard-library string methods of
 * JavaScript and Python that the client and the backend call, written out
 * character by character. Strings are sequences of Unicode scalar values, the
 * unit both languages index by in the cases modelled here.
 */
module Text {

  /** `s.startsWith(p)` in JavaScript, `s.startswith(p)` in Python. */
  predicate StartsWith(s: string, p: string) {
    |p| <= |s| && s[..|p|] == p
  }

  /** `s.includes(sub)` in JavaScript, `sub in s` in Python. */
  predicate Contains(s: string, sub: string)
    decreases |s|
  {
    StartsWith(s, sub) || (|s| > 0 && Contains(s[1..], sub))
  }

  // ---------------------------------------------------------------------------
  // Splitting on one separator character and joining
  // ---------------------------------------------------------------------------

  /**
   * `s.split(sep)` for a one-character separator, which JavaScript and Python
   * agree on: every separator ends a piece, so there is always one piece more
   * than there are separators, and an empty string gives one empty piece.
   */
  function Split(s: string, sep: char): (r: seq<string>)
    ensures |r| >= 1
    ensures StartsWith(s, r[0])
    decreases |s|
  {
    if |s| == 0 then [""]
    else if s[0] == sep then [""] + Split(s[1..], sep)
    else
      var rest := Split(s[1..], sep);
      [[s[0]] + rest[0]] + rest[1..]
  }

  /** `parts.join(sep)`. */
  function Join(parts: seq<string>, sep: string): string {
    if |parts| == 0 then ""
    else if |parts| == 1 then parts[0]
    else parts[0] + sep + Join(parts[1..], sep)
  }

  /** No piece of a split holds the separator. */
  lemma {:induction false} SplitPiecesFree(s: string, sep: char)
    ensures forall p :: p in Split(s, sep) ==> sep !in p
    decreases |s|
  {
    if |s| > 0 {
      SplitPiecesFree(s[1..], sep);
      if s[0] != sep {
        var rest := Split(s[1..], sep);
        assert sep !in rest[0] by { assert rest[0] in rest; }
        assert Split(s, sep) == [[s[0]] + rest[0]] + rest[1..];
        forall p | p in Split(s, sep) ensures sep !in p {
          if p != [s[0]] + rest[0] { assert p in rest; }
        }
      }
    }
  }

  /** A string without the separator is its own only piece. */
  lemma {:induction false} SplitWithoutSeparator(s: string, sep: char)
    requires sep !in s
    ensures Split(s, sep) == [s]
    decreases |s|
  {
    if |s| > 0 {
      SplitWithoutSeparator(s[1..], sep);
      assert [s[0]] + s[1..] == s;
    }
  }

  /** When the separator occurs, the first piece ends just before its first occurrence. */
  lemma {:induction false} SplitFirstEndsAtSeparator(s: string, sep: char)
    requires sep in s
    ensures |Split(s, sep)[0]| < |s| && s[|Split(s, sep)[0]|] == sep
    decreases |s|
  {
    if s[0] != sep {
      var k :| 0 <= k < |s| && s[k] == sep;
      assert s[1..][k - 1] == sep;
      SplitFirstEndsAtSeparator(s[1..], sep);
    }
  }

  /** Splitting distributes over a separator: the split of `a + sep + b` is the split of `a` followed by that of `b`. */
  lemma {:induction false} SplitAppend(a: string, sep: char, b: string)
    ensures Split(a + [sep] + b, sep) == Split(a, sep) + Split(b, sep)
    decreases |a|
  {
    if |a| == 0 {
      assert a + [sep] + b == [sep] + b;
      assert ([sep] + b)[1..] == b;
    } else {
      assert (a + [sep] + b)[1..] == a[1..] + [sep] + b;
      assert (a + [sep] + b)[0] == a[0];
      SplitAppend(a[1..], sep, b);
    }
  }

  /** Joining the pieces of a split with the separator gives the string back. */
  lemma {:induction false} SplitJoinRoundTrip(s: string, sep: char)
    ensures Join(Split(s, sep), [sep]) == s
    decreases |s|
  {
    if |s| > 0 {
      SplitJoinRoundTrip(s[1..], sep);
      var rest := Split(s[1..], sep);
      if s[0] == sep {
        assert Split(s, sep) == [""] + rest;
        assert ([""] + rest)[1..] == rest;
        assert [s[0]] + s[1..] == s;
      } else if |rest| == 1 {
        assert Split(s, sep) == [[s[0]] + rest[0]];
        assert [s[0]] + s[1..] == s;
      } else {
        var r := Split(s, sep);
        assert r == [[s[0]] + rest[0]] + rest[1..];
        assert r[1..] == rest[1..];
        assert Join(rest, [sep]) == rest[0] + [sep] + Join(rest[1..], [sep]);
        assert Join(r, [sep]) == [s[0]] + rest[0] + [sep] + Join(rest[1..], [sep]);
        assert [s[0]] + s[1..] == s;
      }
    }
  }

  /** Splitting a join gives the parts back when no part holds the separator. */
  lemma {:induction false} JoinSplitRoundTrip(parts: seq<string>, sep: char)
    requires |parts| >= 1
    requires forall i :: 0 <= i < |parts| ==> sep !in parts[i]
    ensures Split(Join(parts, [sep]), sep) == parts
    decreases |parts|
  {
    if |parts| == 1 {
      SplitWithoutSeparator(parts[0], sep);
    } else {
      var rest := parts[1..];
      assert forall i :: 0 <= i < |rest| ==> sep !in rest[i] by {
        assert forall i :: 0 <= i < |rest| ==> rest[i] == parts[i + 1];
      }
      JoinSplitRoundTrip(rest, sep);
      SplitAppend(parts[0], sep, Join(rest, [sep]));
      SplitWithoutSeparator(parts[0], sep);
      assert parts == [parts[0]] + rest;
    }
  }

  /** An occurrence at any position is an occurrence. */
  lemma {:induction false} ContainsAt(s: string, i: nat, sub: string)
    requires i <= |s| && StartsWith(s[i..], sub)
    ensures Contains(s, sub)
    decreases i
  {
    if i > 0 {
      assert s[1..][i - 1..] == s[i..];
      ContainsAt(s[1..], i - 1, sub);
    }
  }

  // ---------------------------------------------------------------------------
  // Whitespace and trimming
  // ---------------------------------------------------------------------------

  /** Python's `str.isspace()` characters, which are also what `\s` matches in a `str` regular expression. */
  predicate PySpace(c: char) {
    ('\t' <= c <= '\r') || ('\U{1C}' <= c <= '\U{1F}') || c == ' ' || c == '\U{85}' || c == '\U{A0}'
    || c == '\U{1680}' || ('\U{2000}' <= c <= '\U{200A}') || c == '\U{2028}' || c == '\U{2029}'
    || c == '\U{202F}' || c == '\U{205F}' || c == '\U{3000}'
  }

  /** The white space and line terminators that JavaScript's `String.prototype.trim` removes. */
  predicate JsSpace(c: char) {
    ('\t' <= c <= '\r') || c == ' ' || c == '\U{A0}' || c == '\U{FEFF}'
    || c == '\U{1680}' || ('\U{2000}' <= c <= '\U{200A}') || c == '\U{2028}' || c == '\U{2029}'
    || c == '\U{202F}' || c == '\U{205F}' || c == '\U{3000}'
  }

  /** `s` without its leading run of `ws` characters. */
  function DropLeading(s: string, ws: char -> bool): (r: string)
    ensures |r| <= |s| && r == s[|s| - |r|..]
    ensures forall k :: 0 <= k < |s| - |r| ==> ws(s[k])
    ensures |r| > 0 ==> !ws(r[0])
    decreases |s|
  {
    if |s| > 0 && ws(s[0]) then DropLeading(s[1..], ws) else s
  }

  /** `s` without its trailing run of `ws` characters. */
  function DropTrailing(s: string, ws: char -> bool): (r: string)
    ensures |r| <= |s| && r == s[..|r|]
    ensures forall k :: |r| <= k < |s| ==> ws(s[k])
    ensures |r| > 0 ==> !ws(r[|r| - 1])
    decreases |s|
  {
    if |s| > 0 && ws(s[|s| - 1]) then DropTrailing(s[..|s| - 1], ws) else s
  }

  /** `s` without leading and trailing `ws` characters: the middle of `s` that starts and ends with a non-space. */
  function StripWith(s: string, ws: char -> bool): (r: string)
    ensures |r| == 0 || (!ws(r[0]) && !ws(r[|r| - 1]))
    ensures |r| <= |s|
  {
    DropTrailing(DropLeading(s, ws), ws)
  }

  /** Python's `s.strip()`. */
  function PyStrip(s: string): string {
    StripWith(s, PySpace)
  }

  /** JavaScript's `s.trim()`. */
  function JsTrim(s: string): string {
    StripWith(s, JsSpace)
  }

  /** Trimming leaves nothing exactly when every character is white space. */
  lemma StripEmptyIffAllSpace(s: string, ws: char -> bool)
    ensures StripWith(s, ws) == "" <==> forall k :: 0 <= k < |s| ==> ws(s[k])
  {
    var d := DropLeading(s, ws);
    if d == "" {
    } else {
      assert !ws(d[0]);
      assert !ws(s[|s| - |d|]);
    }
  }

  /** Stripping keeps a contiguous middle of the input, with only white space around it. */
  lemma StripIsMiddle(s: string, ws: char -> bool)
    ensures var r := StripWith(s, ws);
            var i := |s| - |DropLeading(s, ws)|;
            i + |r| <= |s| && s[i..i + |r|] == r
            && (forall k :: 0 <= k < i ==> ws(s[k]))
            && (forall k :: i + |r| <= k < |s| ==> ws(s[k]))
  {
    var d := DropLeading(s, ws);
    var r := DropTrailing(d, ws);
    var i := |s| - |d|;
    assert d == s[i..];
    forall k | i + |r| <= k < |s| ensures ws(s[k]) {
      assert s[k] == d[k - i];
    }
  }

  // ---------------------------------------------------------------------------
  // Replacing and splitting on a multi-character string
  // ---------------------------------------------------------------------------

  /** Python's `s.replace(pat, rep)`: every non-overlapping occurrence, scanning left to right. */
  function ReplaceAll(s: string, pat: string, rep: string): string
    requires |pat| > 0
    decreases |s|
  {
    if |s| == 0 then ""
    else if StartsWith(s, pat) then rep + ReplaceAll(s[|pat|..], pat, rep)
    else [s[0]] + ReplaceAll(s[1..], pat, rep)
  }

  /** Replacing changes nothing exactly when the pattern does not occur, for an empty replacement. */
  lemma {:induction false} RemoveAllUnchangedIff(s: string, pat: string)
    requires |pat| > 0
    ensures ReplaceAll(s, pat, "") == s <==> !Contains(s, pat)
    ensures |ReplaceAll(s, pat, "")| <= |s|
    decreases |s|
  {
    if |s| > 0 {
      if StartsWith(s, pat) {
        RemoveAllUnchangedIff(s[|pat|..], pat);
      } else {
        RemoveAllUnchangedIff(s[1..], pat);
        assert [s[0]] + s[1..] == s;
        if ReplaceAll(s, pat, "") == s {
          assert ReplaceAll(s[1..], pat, "") == s[1..];
        }
      }
    }
  }

  /** Python's `s.split(sep)` for a separator of one or more characters. */
  function SplitOn(s: string, sep: string): (r: seq<string>)
    requires |sep| > 0
    ensures |r| >= 1 && StartsWith(s, r[0])
    decreases |s|
  {
    if |s| == 0 then [""]
    else if StartsWith(s, sep) then [""] + SplitOn(s[|sep|..], sep)
    else
      var rest := SplitOn(s[1..], sep);
      [[s[0]] + rest[0]] + rest[1..]
  }

  /** No piece of a split holds the separator. */
  lemma {:induction false} SplitOnPiecesFree(s: string, sep: string)
    requires |sep| > 0
    ensures forall p :: p in SplitOn(s, sep) ==> !Contains(p, sep)
    decreases |s|
  {
    if |s| > 0 {
      if StartsWith(s, sep) {
        SplitOnPiecesFree(s[|sep|..], sep);
      } else {
        SplitOnPiecesFree(s[1..], sep);
        var rest := SplitOn(s[1..], sep);
        var first := [s[0]] + rest[0];
        assert rest[0] in rest;
        assert !StartsWith(first, sep) by {
          assert StartsWith(s, first) by {
            assert s[..|first|] == [s[0]] + s[1..][..|rest[0]|];
          }
          if |sep| <= |first| {
            assert first[..|sep|] == s[..|sep|];
          }
        }
        assert first[1..] == rest[0];
        forall p | p in SplitOn(s, sep) ensures !Contains(p, sep) {
          if p != first { assert p in rest; }
        }
      }
    }
  }

  // ---------------------------------------------------------------------------
  // Line splitting (Python's str.splitlines)
  // ---------------------------------------------------------------------------

  /** The characters at which Python's `str.splitlines()` breaks a line (`\r\n` counts as one break). */
  predicate LineBreak(c: char) {
    c == '\n' || c == '\r' || c == '\U{0B}' || c == '\U{0C}' || ('\U{1C}' <= c <= '\U{1E}')
    || c == '\U{85}' || c == '\U{2028}' || c == '\U{2029}'
  }

  /** Python's `s.splitlines()`: the lines of `s` without their breaks and without a trailing empty line. */
  function SplitLines(s: string): (r: seq<string>)
    ensures forall p :: p in r ==> forall k :: 0 <= k < |p| ==> !LineBreak(p[k])
    decreases |s|
  {
    if |s| == 0 then []
    else if LineBreak(s[0]) then
      [""] + SplitLines(s[if s[0] == '\r' && |s| > 1 && s[1] == '\n' then 2 else 1..])
    else
      var rest := SplitLines(s[1..]);
      if rest == [] then [[s[0]]]
      else
        assert rest[0] in rest;
        [[s[0]] + rest[0]] + rest[1..]
  }

  // ---------------------------------------------------------------------------
  // Case mapping and numbers
  // ---------------------------------------------------------------------------

  /** Shifts a character's code point down by `d`. */
  function Shift(c: char, d: nat): char
    requires d <= c as int && (c as int - d < 0xD800 || 0xE000 <= c as int - d)
  {
    (c as int - d) as char
  }

  /**
   * Python's `str.upper()` on one character, where it gives one character:
   * ASCII, Latin-1, Latin Extended-A (with the Turkish ğ, ı and ş), basic
   * Greek and basic Cyrillic. Every other character is kept.
   */
  function UpperChar(c: char): char {
    var n := c as int;
    if 'a' <= c <= 'z' then Shift(c, 32)
    else if '\U{E0}' <= c <= '\U{FE}' && c != '\U{F7}' then Shift(c, 32)
    else if c == '\U{B5}' then '\U{39C}'
    else if c == '\U{FF}' then '\U{178}'
    else if c == '\U{131}' then 'I'
    else if c == '\U{17F}' then 'S'
    else if ('\U{100}' <= c <= '\U{137}' || '\U{14A}' <= c <= '\U{177}') && n % 2 == 1 then Shift(c, 1)
    else if ('\U{139}' <= c <= '\U{148}' || '\U{179}' <= c <= '\U{17E}') && n % 2 == 0 then Shift(c, 1)
    else if c == '\U{3C2}' then '\U{3A3}'
    else if '\U{3B1}' <= c <= '\U{3CB}' then Shift(c, 0x20)
    else if c == '\U{3AC}' then '\U{386}'
    else if '\U{3AD}' <= c <= '\U{3AF}' then Shift(c, 0x25)
    else if c == '\U{3CC}' then '\U{38C}'
    else if '\U{3CD}' <= c <= '\U{3CE}' then Shift(c, 0x3F)
    else if '\U{430}' <= c <= '\U{44F}' then Shift(c, 0x20)
    else if '\U{450}' <= c <= '\U{45F}' then Shift(c, 0x50)
    else c
  }

  /** Python's `s.upper()`, character by character. */
  function Upper(s: string): (r: string)
    ensures |r| == |s| && forall k :: 0 <= k < |s| ==> r[k] == UpperChar(s[k])
  {
    seq(|s|, k requires 0 <= k < |s| => UpperChar(s[k]))
  }

  /** An ASCII decimal digit. */
  predicate Digit(c: char) {
    '0' <= c <= '9'
  }

  /** The value of a run of ASCII digits, as Python's `int()` reads it. */
  function DigitsValue(ds: string): (n: nat)
    requires forall k :: 0 <= k < |ds| ==> Digit(ds[k])
    decreases |ds|
  {
    if |ds| == 0 then 0
    else
      var last := ds[|ds| - 1];
      assert Digit(last);
      DigitsValue(ds[..|ds| - 1]) * 10 + (last as int - '0' as int)
  }

  /** The decimal digits of a natural number, most significant first. */
  function NatToString(n: nat): (r: string)
    ensures |r| >= 1 && forall k :: 0 <= k < |r| ==> Digit(r[k])
    ensures DigitsValue(r) == n
  {
    if n < 10 then [('0' as int + n) as char]
    else NatToString(n / 10) + [('0' as int + n % 10) as char]
  }

  /** The decimal form of an integer, as `str(n)` and `String(n)` print it. */
  function IntToString(n: int): string {
    if n < 0 then "-" + NatToString(-n) else NatToString(n)
  }
}
