/**
 * The Python `str` operations the game code is built from, written as
 * functions on `string`: whitespace stripping, upper-casing, splitting on a
 * separator, splitting into lines, joining, decimal conversion in both
 * directions, right-justification and substring search.
 */
module PyText {

  /** The characters Python's `str.isspace` accepts, which `str.strip()` removes. */
  predicate IsSpace(ch: char) {
    || ch == ' '
    || '\t' <= ch <= '\r'
    || '\U{1C}' <= ch <= '\U{1F}'
    || ch == '\U{85}' || ch == '\U{A0}' || ch == '\U{1680}'
    || '\U{2000}' <= ch <= '\U{200A}'
    || ch == '\U{2028}' || ch == '\U{2029}' || ch == '\U{202F}'
    || ch == '\U{205F}' || ch == '\U{3000}'
  }

  /** `s.lstrip()`: `s` without its leading whitespace. */
  function StripLeft(s: string): string {
    if s != [] && IsSpace(s[0]) then StripLeft(s[1..]) else s
  }

  /** `s.rstrip()`: `s` without its trailing whitespace. */
  function StripRight(s: string): string {
    if s != [] && IsSpace(s[|s| - 1]) then StripRight(s[..|s| - 1]) else s
  }

  /** `lstrip` keeps the longest suffix that does not start with whitespace, and drops only whitespace. */
  lemma {:induction false} StripLeftSuffix(s: string)
    ensures var r := StripLeft(s);
      && |r| <= |s| && r == s[|s| - |r|..]
      && (r == [] || !IsSpace(r[0]))
      && forall i | 0 <= i < |s| - |r| :: IsSpace(s[i])
  {
    if s != [] && IsSpace(s[0]) {
      var t := s[1..];
      StripLeftSuffix(t);
      var r := StripLeft(t);
      assert StripLeft(s) == r;
      assert t[|t| - |r|..] == s[|s| - |r|..];
      forall i | 0 <= i < |s| - |r|
        ensures IsSpace(s[i])
      {
        if i > 0 {
          assert s[i] == t[i - 1];
        }
      }
    }
  }

  /** `rstrip` keeps the longest prefix that does not end with whitespace, and drops only whitespace. */
  lemma {:induction false} StripRightPrefix(s: string)
    ensures var r := StripRight(s);
      && |r| <= |s| && r == s[..|r|]
      && (r == [] || !IsSpace(r[|r| - 1]))
      && forall i | |r| <= i < |s| :: IsSpace(s[i])
  {
    if s != [] && IsSpace(s[|s| - 1]) {
      var t := s[..|s| - 1];
      StripRightPrefix(t);
      var r := StripRight(t);
      assert StripRight(s) == r;
      assert t[..|r|] == s[..|r|];
      forall i | |r| <= i < |s|
        ensures IsSpace(s[i])
      {
        if i < |s| - 1 {
          assert s[i] == t[i];
        }
      }
    }
  }

  /** `s.strip()`. */
  function Strip(s: string): string {
    StripRight(StripLeft(s))
  }

  /** Every character of `s` is whitespace. */
  predicate AllSpace(s: string) {
    forall i | 0 <= i < |s| :: IsSpace(s[i])
  }

  /** `lstrip` drops exactly a whitespace prefix in front of text that does not start with whitespace. */
  lemma {:induction false} StripLeftSpaces(w: string, s: string)
    requires AllSpace(w) && (s == [] || !IsSpace(s[0]))
    ensures StripLeft(w + s) == s
    decreases |w|
  {
    if w != [] {
      assert (w + s)[0] == w[0];
      assert (w + s)[1..] == w[1..] + s;
      StripLeftSpaces(w[1..], s);
    } else {
      assert w + s == s;
    }
  }

  /** `rstrip` drops exactly a whitespace suffix after text that does not end with whitespace. */
  lemma {:induction false} StripRightSpaces(s: string, w: string)
    requires AllSpace(w) && (s == [] || !IsSpace(s[|s| - 1]))
    ensures StripRight(s + w) == s
    decreases |w|
  {
    if w != [] {
      assert (s + w)[|s + w| - 1] == w[|w| - 1];
      assert (s + w)[..|s + w| - 1] == s + w[..|w| - 1];
      StripRightSpaces(s, w[..|w| - 1]);
    } else {
      assert s + w == s;
    }
  }

  /** `strip` removes whitespace padding on both sides and nothing else. */
  lemma StripPadded(w1: string, s: string, w2: string)
    requires AllSpace(w1) && AllSpace(w2)
    requires s != [] && !IsSpace(s[0]) && !IsSpace(s[|s| - 1])
    ensures Strip(w1 + s + w2) == s
  {
    assert w1 + s + w2 == w1 + (s + w2);
    assert (s + w2)[0] == s[0];
    StripLeftSpaces(w1, s + w2);
    StripRightSpaces(s, w2);
  }

  /**
   * `str.upper()` on one character, for the characters it maps into the
   * ASCII range: the ASCII lower-case letters, the dotless i (U+0131) and
   * the long s (U+017F). Every other character is left as it is.
   */
  function UpperChar(ch: char): char {
    if 'a' <= ch <= 'z' then (ch as int - 32) as char
    else if ch == '\U{131}' then 'I'
    else if ch == '\U{17F}' then 'S'
    else ch
  }

  function Upper(s: string): (r: string)
    ensures |r| == |s|
  {
    if s == [] then [] else [UpperChar(s[0])] + Upper(s[1..])
  }

  /** `upper` works character by character, so it distributes over concatenation. */
  lemma {:induction false} UpperAppend(a: string, b: string)
    ensures Upper(a + b) == Upper(a) + Upper(b)
    decreases |a|
  {
    if a != [] {
      assert (a + b)[0] == a[0];
      assert (a + b)[1..] == a[1..] + b;
      UpperAppend(a[1..], b);
    } else {
      assert a + b == b;
    }
  }

  /** Text that `upper` maps character by character to itself is left unchanged. */
  lemma {:induction false} UpperFixed(s: string)
    requires forall i | 0 <= i < |s| :: UpperChar(s[i]) == s[i]
    ensures Upper(s) == s
  {
    if s != [] {
      UpperFixed(s[1..]);
    }
  }

  predicate IsAsciiLetter(ch: char) {
    'A' <= ch <= 'Z' || 'a' <= ch <= 'z'
  }

  predicate IsDigit(ch: char) {
    '0' <= ch <= '9'
  }

  /** `s.isdigit()` for ASCII digits: non-empty and made of digits only. */
  predicate IsDigits(s: string) {
    |s| > 0 && forall i | 0 <= i < |s| :: IsDigit(s[i])
  }

  /**
   * The most digits `int()` converts from text: the default of
   * `sys.int_info.default_max_str_digits` (Python 3.11 on, and the security
   * releases of earlier versions). Longer text raises ValueError; leading
   * zeros count.
   */
  const IntMaxStrDigits: nat := 4300

  /** The number a string of decimal digits denotes, as Python's `int(s)` reads it. */
  function DigitsValue(s: string): nat
    requires forall i | 0 <= i < |s| :: IsDigit(s[i])
  {
    if s == [] then 0
    else
      assert IsDigit(s[|s| - 1]);
      DigitsValue(s[..|s| - 1]) * 10 + (s[|s| - 1] as int - '0' as int)
  }

  function DigitChar(d: int): char
    requires 0 <= d < 10
  {
    ('0' as int + d) as char
  }

  /** `str(n)` for a natural number; reading it back with `int` gives `n`. */
  function NatToString(n: nat): (s: string)
    ensures IsDigits(s)
    ensures DigitsValue(s) == n
    ensures n < 10 <==> |s| == 1
  {
    if n < 10 then [DigitChar(n)]
    else
      var prefix := NatToString(n / 10);
      var s := prefix + [DigitChar(n % 10)];
      assert s[..|s| - 1] == prefix;
      s
  }

  /** `str(i)` for any integer. */
  function IntToString(i: int): string {
    if i < 0 then "-" + NatToString(-i) else NatToString(i)
  }

  /** `s.rjust(width)`: `s` padded on the left with spaces up to `width` characters. */
  function RJust(s: string, width: nat): string {
    if |s| >= width then s else seq(width - |s|, _ => ' ') + s
  }

  /** `rjust` only adds spaces, on the left, and only as many as bring `s` to `width`. */
  lemma RJustPads(s: string, width: nat)
    ensures var r := RJust(s, width);
      && |r| == (if |s| < width then width else |s|)
      && r[|r| - |s|..] == s
      && forall i | 0 <= i < |r| - |s| :: r[i] == ' '
  {
  }

  /** Number of occurrences of `ch` in `s`. */
  function Count(s: string, ch: char): nat {
    if s == [] then 0 else (if s[0] == ch then 1 else 0) + Count(s[1..], ch)
  }

  /** Index of the first occurrence of `ch` in `s`. */
  function IndexOf(s: string, ch: char): (k: nat)
    requires ch in s
    ensures k < |s| && s[k] == ch && ch !in s[..k]
  {
    if s[0] == ch then 0 else 1 + IndexOf(s[1..], ch)
  }

  /** `s.split(sep)`: the pieces between occurrences of `sep`, one more than there are separators. */
  function Split(s: string, sep: char): (parts: seq<string>)
    ensures |parts| == Count(s, sep) + 1
    ensures forall i | 0 <= i < |parts| :: sep !in parts[i]
    decreases |s|
  {
    if sep !in s then
      CountAbsent(s, sep);
      [s]
    else
      var k := IndexOf(s, sep);
      CountSplit(s, sep, k);
      [s[..k]] + Split(s[k + 1..], sep)
  }

  lemma {:induction false} CountAbsent(s: string, ch: char)
    requires ch !in s
    ensures Count(s, ch) == 0
  {
    if s != [] {
      assert ch !in s[1..] by { assert forall x | x in s[1..] :: x in s; }
      CountAbsent(s[1..], ch);
    }
  }

  /** Counting over the first occurrence of `ch`, at index `k`. */
  lemma {:induction false} CountSplit(s: string, ch: char, k: nat)
    requires k < |s| && s[k] == ch && ch !in s[..k]
    ensures Count(s, ch) == 1 + Count(s[k + 1..], ch)
  {
    if k > 0 {
      assert s[1..][..k - 1] == s[1..k] && s[1..][k..] == s[k + 1..];
      assert ch !in s[1..k] by { assert forall x | x in s[1..k] :: x in s[..k]; }
      CountSplit(s[1..], ch, k - 1);
    }
  }

  /** The length of the first line of a non-empty string, its '\n' included when it has one. */
  function FirstLineLength(s: string): (k: nat)
    requires s != []
    ensures 1 <= k <= |s|
    ensures '\n' !in s[..k - 1]
    ensures k < |s| ==> s[k - 1] == '\n'
  {
    if s[0] == '\n' || |s| == 1 then 1
    else
      var k := 1 + FirstLineLength(s[1..]);
      assert s[..k - 1] == [s[0]] + s[1..][..k - 2];
      k
  }

  /**
   * `s.splitlines(keepends=True)` for text whose only line boundary is '\n':
   * the lines of `s`, each keeping its '\n'; the last may lack one.
   */
  function SplitLines(s: string): (lines: seq<string>)
    decreases |s|
  {
    if s == [] then []
    else
      var k := FirstLineLength(s);
      [s[..k]] + SplitLines(s[k..])
  }

  /** Each line with a '\n' appended. */
  function WithNewlines(lines: seq<string>): (r: seq<string>)
    ensures |r| == |lines|
  {
    if lines == [] then [] else [lines[0] + "\n"] + WithNewlines(lines[1..])
  }

  /** A first line of length k ending in '\n' is the first line `splitlines` cuts. */
  lemma {:induction false} FirstLineLengthIs(s: string, k: nat)
    requires 1 <= k <= |s| && s[k - 1] == '\n' && '\n' !in s[..k - 1]
    ensures FirstLineLength(s) == k
  {
    if k > 1 {
      assert s[0] != '\n' by { assert s[0] == s[..k - 1][0]; }
      assert s[1..][..k - 2] == s[1..k - 1];
      assert s[1..k - 1] == s[..k - 1][1..];
      FirstLineLengthIs(s[1..], k - 1);
    }
  }

  /** Text ending in a line break keeps its first line when more text follows. */
  lemma FirstLineOfAppend(a: string, b: string)
    requires a != [] && a[|a| - 1] == '\n'
    ensures SplitLines(a + b) == [a[..FirstLineLength(a)]] + SplitLines(a[FirstLineLength(a)..] + b)
  {
    var k := FirstLineLength(a);
    assert a[k - 1] == '\n';
    assert (a + b)[..k - 1] == a[..k - 1];
    FirstLineLengthIs(a + b, k);
    assert (a + b)[..k] == a[..k];
    assert (a + b)[k..] == a[k..] + b;
  }

  /** Text that ends with a line break splits into its own lines followed by those of what comes after. */
  lemma {:induction false} SplitLinesAppend(a: string, b: string)
    requires a == [] || a[|a| - 1] == '\n'
    ensures SplitLines(a + b) == SplitLines(a) + SplitLines(b)
    decreases |a|
  {
    if a != [] {
      var k := FirstLineLength(a);
      FirstLineOfAppend(a, b);
      assert a[k..] == [] || a[k..][|a[k..]| - 1] == '\n';
      SplitLinesAppend(a[k..], b);
    } else {
      assert a + b == b;
    }
  }

  /** A line without a break, followed by one, splits into itself. */
  lemma SplitLinesOfLine(line: string)
    requires '\n' !in line
    ensures SplitLines(line + "\n") == [line + "\n"]
  {
    var s := line + "\n";
    assert s[..|s| - 1] == line;
    FirstLineLengthIs(s, |s|);
    assert s[..|s|] == s && s[|s|..] == [];
    assert SplitLines(s) == [s] + SplitLines([]);
  }

  /** Lines without breaks, each ended by a '\n' and joined, split back into the same lines. */
  lemma {:induction false} SplitLinesOfTerminated(lines: seq<string>)
    requires forall i | 0 <= i < |lines| :: '\n' !in lines[i]
    ensures SplitLines(Concat(WithNewlines(lines))) == WithNewlines(lines)
  {
    if lines != [] {
      var first := lines[0] + "\n";
      assert WithNewlines(lines)[1..] == WithNewlines(lines[1..]);
      assert Concat(WithNewlines(lines)) == first + Concat(WithNewlines(lines[1..]));
      SplitLinesAppend(first, Concat(WithNewlines(lines[1..])));
      SplitLinesOfLine(lines[0]);
      SplitLinesOfTerminated(lines[1..]);
    }
  }

  /** Joining lines with '\n' and adding a final '\n' ends every line with one. */
  lemma {:induction false} JoinLinesNewline(lines: seq<string>)
    requires |lines| >= 1
    ensures JoinLines(lines) + "\n" == Concat(WithNewlines(lines))
  {
    assert WithNewlines(lines)[1..] == WithNewlines(lines[1..]);
    if |lines| > 1 {
      JoinLinesNewline(lines[1..]);
    }
  }

  /** `"\n".join(lines)`. */
  function JoinLines(lines: seq<string>): string {
    if |lines| == 0 then ""
    else if |lines| == 1 then lines[0]
    else lines[0] + "\n" + JoinLines(lines[1..])
  }

  /** `"".join(pieces)`. */
  function Concat(pieces: seq<string>): string {
    if pieces == [] then "" else pieces[0] + Concat(pieces[1..])
  }

  /** Python's `pattern in s` for strings: `pattern` occurs as a substring of `s`. */
  predicate Contains(s: string, pattern: string) {
    exists i | 0 <= i <= |s| - |pattern| :: OccursAt(s, pattern, i)
  }

  predicate OccursAt(s: string, pattern: string, i: int)
    requires 0 <= i <= |s| - |pattern|
  {
    s[i..i + |pattern|] == pattern
  }
}
