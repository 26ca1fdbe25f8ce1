/**
  Python string operations the modelled code relies on, with the exact
  semantics of CPython's `str` methods: `isspace`/`strip`, ASCII `lower`,
  `startswith`/`endswith`, `split(sep)` and `sep.join`, `splitlines`
  (with and without `keepends`), text-mode newline translation and
  `readlines`, and decimal formatting of naturals.
 */
module Text {

  /** `c.isspace()` for a single code point. */
  predicate IsSpace(c: char)
  {
    c == ' ' || ('\t' <= c <= '\r') || ('\U{1c}' <= c <= '\U{1f}') || c == '\U{85}' || c == '\U{a0}'
    || c == '\U{1680}' || ('\U{2000}' <= c <= '\U{200a}') || c == '\U{2028}' || c == '\U{2029}'
    || c == '\U{202f}' || c == '\U{205f}' || c == '\U{3000}'
  }

  function TrimStart(s: string): (r: string)
    ensures |r| <= |s| && r == s[|s| - |r|..]
    ensures r == [] || !IsSpace(r[0])
    ensures forall k :: 0 <= k < |s| - |r| ==> IsSpace(s[k])
    ensures IsBlank(s) ==> r == []
  {
    if |s| > 0 && IsSpace(s[0]) then TrimStart(s[1..]) else s
  }

  function TrimEnd(s: string): (r: string)
    ensures |r| <= |s| && r == s[..|r|]
    ensures r == [] || !IsSpace(r[|r| - 1])
    ensures forall k :: |r| <= k < |s| ==> IsSpace(s[k])
  {
    if |s| > 0 && IsSpace(s[|s| - 1]) then TrimEnd(s[..|s| - 1]) else s
  }

  /** `s.strip()`: the text without leading or trailing white space. */
  function Strip(s: string): (r: string)
    ensures r == [] || (!IsSpace(r[0]) && !IsSpace(r[|r| - 1]))
    ensures |r| <= |s|
  {
    TrimEnd(TrimStart(s))
  }

  /** `not s.strip()`: the text is empty or only white space. */
  predicate IsBlank(s: string)
  {
    forall k :: 0 <= k < |s| ==> IsSpace(s[k])
  }

  lemma StripEmptyIffBlank(s: string)
    ensures Strip(s) == [] <==> IsBlank(s)
  {
    var t := TrimStart(s);
    if Strip(s) == [] {
      assert |t| == 0;
    }
  }

  /** `s.lower()` restricted to ASCII letters. */
  function LowerAscii(s: string): (r: string)
    ensures |r| == |s|
    ensures forall k :: 0 <= k < |s| ==> r[k] == (if 'A' <= s[k] <= 'Z' then s[k] - 'A' + 'a' else s[k])
  {
    if s == [] then []
    else [if 'A' <= s[0] <= 'Z' then s[0] - 'A' + 'a' else s[0]] + LowerAscii(s[1..])
  }

  /** Lowering twice is lowering once. */
  lemma LowerAsciiIdempotent(s: string)
    ensures LowerAscii(LowerAscii(s)) == LowerAscii(s)
  {
  }

  predicate StartsWith(s: string, prefix: string)
  {
    |prefix| <= |s| && s[..|prefix|] == prefix
  }

  predicate EndsWith(s: string, suffix: string)
  {
    |suffix| <= |s| && s[|s| - |suffix|..] == suffix
  }

  /** `s.split(sep)` for a one-character separator. */
  function Split(s: string, sep: char): (parts: seq<string>)
    ensures |parts| >= 1
    ensures forall i :: 0 <= i < |parts| ==> sep !in parts[i]
  {
    if s == [] then [""] else PushChar(s[0], sep, Split(s[1..], sep))
  }

  /** The pieces of `[c] + t` from the pieces of `t`: a separator opens a new piece, any other character joins the first. */
  function PushChar(c: char, sep: char, rest: seq<string>): (parts: seq<string>)
    requires |rest| >= 1 && forall i :: 0 <= i < |rest| ==> sep !in rest[i]
    ensures |parts| >= 1
    ensures forall i :: 0 <= i < |parts| ==> sep !in parts[i]
  {
    if c == sep then [""] + rest else [[c] + rest[0]] + rest[1..]
  }

  /** `sep.join(parts)` for a one-character separator. */
  function Join(sep: char, parts: seq<string>): string
  {
    if |parts| == 0 then ""
    else if |parts| == 1 then parts[0]
    else parts[0] + [sep] + Join(sep, parts[1..])
  }

  lemma {:induction false} SplitNoSeparator(s: string, sep: char)
    requires sep !in s
    ensures Split(s, sep) == [s]
  {
    if s != [] {
      SplitNoSeparator(s[1..], sep);
      assert [s[0]] + s[1..] == s;
    }
  }

  lemma PushCharAppend(c: char, sep: char, left: seq<string>, right: seq<string>)
    requires |left| >= 1 && forall i :: 0 <= i < |left| ==> sep !in left[i]
    requires forall i :: 0 <= i < |right| ==> sep !in right[i]
    ensures PushChar(c, sep, left + right) == PushChar(c, sep, left) + right
  {
    if c != sep {
      assert (left + right)[1..] == left[1..] + right;
    }
  }

  lemma {:induction false} SplitAround(a: string, sep: char, b: string)
    ensures Split(a + [sep] + b, sep) == Split(a, sep) + Split(b, sep)
  {
    var s := a + [sep] + b;
    if a == [] {
      assert s == [sep] + b && s[1..] == b;
    } else {
      SplitAround(a[1..], sep, b);
      assert s[0] == a[0] && s[1..] == a[1..] + [sep] + b;
      PushCharAppend(a[0], sep, Split(a[1..], sep), Split(b, sep));
    }
  }

  lemma {:induction false} JoinSplit(s: string, sep: char)
    ensures Join(sep, Split(s, sep)) == s
  {
    if s != [] {
      JoinSplit(s[1..], sep);
      var rest := Split(s[1..], sep);
      if s[0] == sep {
        assert Join(sep, [""] + rest) == "" + [sep] + Join(sep, rest);
      } else if |rest| == 1 {
        assert Split(s, sep) == [[s[0]] + rest[0]];
      } else {
        assert Split(s, sep) == [[s[0]] + rest[0]] + rest[1..];
        assert ([[s[0]] + rest[0]] + rest[1..])[1..] == rest[1..];
        assert Join(sep, rest) == rest[0] + [sep] + Join(sep, rest[1..]);
      }
    }
  }

  // ---------------------------------------------------------------------------
  // Lines

  /** The line boundaries recognised by `str.splitlines`. */
  predicate IsLineBreak(c: char)
  {
    c == '\n' || c == '\r' || c == '\U{0b}' || c == '\U{0c}' || c == '\U{1c}' || c == '\U{1d}'
    || c == '\U{1e}' || c == '\U{85}' || c == '\U{2028}' || c == '\U{2029}'
  }

  /** Index of the first line boundary, or |s| when there is none. */
  function LineEnd(s: string): (i: nat)
    ensures i <= |s|
    ensures forall k :: 0 <= k < i ==> !IsLineBreak(s[k])
    ensures i < |s| ==> IsLineBreak(s[i])
  {
    if |s| == 0 || IsLineBreak(s[0]) then 0 else 1 + LineEnd(s[1..])
  }

  /** Width of the boundary at s[i]: "\r\n" counts as one boundary. */
  function BreakWidth(s: string, i: nat): (w: nat)
    requires i < |s|
    ensures 1 <= w <= 2 && i + w <= |s|
  {
    if s[i] == '\r' && i + 1 < |s| && s[i + 1] == '\n' then 2 else 1
  }

  /** `s.splitlines()`: the lines without their boundaries. */
  function SplitLines(s: string): (lines: seq<string>)
    ensures |lines| <= |s|
    decreases |s|
  {
    if |s| == 0 then []
    else
      var i := LineEnd(s);
      if i == |s| then [s] else [s[..i]] + SplitLines(s[i + BreakWidth(s, i)..])
  }

  /** `s.splitlines(True)`: the lines with their boundaries. */
  function SplitLinesKeep(s: string): (lines: seq<string>)
    decreases |s|
  {
    if |s| == 0 then []
    else
      var i := LineEnd(s);
      if i == |s| then [s] else [s[..i + BreakWidth(s, i)]] + SplitLinesKeep(s[i + BreakWidth(s, i)..])
  }

  /** `''.join(parts)` */
  function Concat(parts: seq<string>): string
  {
    if parts == [] then "" else parts[0] + Concat(parts[1..])
  }

  lemma {:induction false} ConcatAppend(a: seq<string>, b: seq<string>)
    ensures Concat(a + b) == Concat(a) + Concat(b)
  {
    if a != [] {
      ConcatAppend(a[1..], b);
      assert (a + b)[1..] == a[1..] + b;
      calc {
        Concat(a + b);
        (a + b)[0] + Concat((a + b)[1..]);
        a[0] + (Concat(a[1..]) + Concat(b));
        (a[0] + Concat(a[1..])) + Concat(b);
      }
    } else {
      assert a + b == b;
    }
  }

  lemma {:induction false} SplitLinesKeepConcat(s: string)
    ensures Concat(SplitLinesKeep(s)) == s
    decreases |s|
  {
    if |s| > 0 {
      var i := LineEnd(s);
      if i < |s| {
        var w := BreakWidth(s, i);
        SplitLinesKeepConcat(s[i + w..]);
        assert s[..i + w] + s[i + w..] == s;
      }
    }
  }

  /** Reading in text mode with universal newlines turns "\r\n" and "\r" into "\n". */
  function TranslateNewlines(s: string): (r: string)
    ensures '\r' !in r
    decreases |s|
  {
    if s == [] then []
    else if s[0] == '\r' then
      if |s| > 1 && s[1] == '\n' then "\n" + TranslateNewlines(s[2..]) else "\n" + TranslateNewlines(s[1..])
    else [s[0]] + TranslateNewlines(s[1..])
  }

  /** Index of the first '\n', or |s|. */
  function NewlineEnd(s: string): (i: nat)
    ensures i <= |s| && '\n' !in s[..i]
    ensures i < |s| ==> s[i] == '\n'
  {
    if |s| == 0 || s[0] == '\n' then 0 else 1 + NewlineEnd(s[1..])
  }

  /** `f.readlines()` on already translated text: every line keeps its '\n'. */
  function ReadLines(s: string): (lines: seq<string>)
    ensures forall k :: 0 <= k < |lines| - 1 ==> EndsWith(lines[k], "\n")
    decreases |s|
  {
    if |s| == 0 then []
    else
      var i := NewlineEnd(s);
      if i == |s| then [s] else [s[..i + 1]] + ReadLines(s[i + 1..])
  }

  lemma {:induction false} ReadLinesConcat(s: string)
    ensures Concat(ReadLines(s)) == s
    decreases |s|
  {
    if |s| > 0 {
      var i := NewlineEnd(s);
      if i < |s| {
        ReadLinesConcat(s[i + 1..]);
        assert s[..i + 1] + s[i + 1..] == s;
      }
    }
  }

  // ---------------------------------------------------------------------------
  // Numbers

  function DigitChar(d: nat): (c: char)
    requires d < 10
    ensures '0' <= c <= '9'
  {
    "0123456789"[d]
  }

  /** `str(n)` for a natural number. */
  function Decimal(n: nat): (s: string)
    ensures |s| >= 1
    ensures forall k :: 0 <= k < |s| ==> '0' <= s[k] <= '9'
    ensures n >= 10 ==> |s| >= 2
  {
    if n < 10 then [DigitChar(n)] else Decimal(n / 10) + [DigitChar(n % 10)]
  }

  lemma DigitCharInjective(x: nat, y: nat)
    requires x < 10 && y < 10 && DigitChar(x) == DigitChar(y)
    ensures x == y
  {
  }

  /** The last digit of a number of two or more digits, and the digits before it. */
  lemma DecimalLast(n: nat)
    requires n >= 10
    ensures var s := Decimal(n); s[..|s| - 1] == Decimal(n / 10) && s[|s| - 1] == DigitChar(n % 10)
  {
    var s := Decimal(n);
    assert s == Decimal(n / 10) + [DigitChar(n % 10)];
  }

  lemma {:induction false} DecimalInjective(a: nat, b: nat)
    requires Decimal(a) == Decimal(b)
    ensures a == b
  {
    if a >= 10 && b >= 10 {
      DecimalLast(a);
      DecimalLast(b);
      DecimalInjective(a / 10, b / 10);
      DigitCharInjective(a % 10, b % 10);
    } else if a < 10 && b < 10 {
      DigitCharInjective(a, b);
    }
  }

  /** `str(n).zfill(width)` for a natural number with at most `width` digits. */
  function ZeroPadded(n: nat, width: nat): (s: string)
    ensures |s| == width
    ensures forall k :: 0 <= k < |s| ==> '0' <= s[k] <= '9'
  {
    if width == 0 then "" else ZeroPadded(n / 10, width - 1) + [DigitChar(n % 10)]
  }
}
