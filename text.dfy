/**
 * ASCII text primitives shared by every variant of the BREF engine.
 *
 * Character classes are restricted to ASCII: Python's `isspace`, `isalpha`,
 * `isdigit`, `isalnum` and `lower`, and Rust's `is_whitespace` and
 * `is_alphanumeric`, are modelled on the ASCII range only.
 */
module Text {

  /** Which whitespace class a strip uses: Python's `str.isspace` or Rust's `char::is_whitespace`. */
  datatype Ws = Py | Rs

  /** Python `str.isspace` on ASCII: TAB..CR, the four separators 0x1C..0x1F, and space. */
  predicate IsPySpace(c: char) {
    9 <= c as int <= 13 || 28 <= c as int <= 32
  }

  /** Rust `char::is_whitespace` on ASCII: TAB..CR and space (not 0x1C..0x1F). */
  predicate IsRsSpace(c: char) {
    9 <= c as int <= 13 || c == ' '
  }

  predicate IsSpace(c: char, w: Ws) {
    match w
    case Py => IsPySpace(c)
    case Rs => IsRsSpace(c)
  }

  predicate IsAlpha(c: char) {
    'a' <= c <= 'z' || 'A' <= c <= 'Z'
  }

  predicate IsDigit(c: char) {
    '0' <= c <= '9'
  }

  predicate IsAlnum(c: char) {
    IsAlpha(c) || IsDigit(c)
  }

  /** A character of a regular-expression `\w` (and of Rust's `is_alphanumeric() || c == '_'`). */
  predicate IsWordChar(c: char) {
    IsAlnum(c) || c == '_'
  }

  /** A character that may start an identifier: `isalpha() or == '_'`. */
  predicate IsIdentStart(c: char) {
    IsAlpha(c) || c == '_'
  }

  function Lower(c: char): (r: char)
    ensures 'A' <= c <= 'Z' ==> r as int == c as int + 32
    ensures !('A' <= c <= 'Z') ==> r == c
  {
    if 'A' <= c <= 'Z' then (c as int + 32) as char else c
  }

  function LowerStr(s: string): (r: string)
    ensures |r| == |s|
    ensures forall k :: 0 <= k < |s| ==> r[k] == Lower(s[k])
  {
    if s == [] then [] else [Lower(s[0])] + LowerStr(s[1..])
  }

  predicate AllSpace(s: string, w: Ws) {
    forall k :: 0 <= k < |s| ==> IsSpace(s[k], w)
  }

  /** Number of leading whitespace characters. */
  function LeadingWs(s: string, w: Ws): (n: nat)
    ensures n <= |s|
  {
    if s != [] && IsSpace(s[0], w) then 1 + LeadingWs(s[1..], w) else 0
  }

  /** Number of trailing whitespace characters. */
  function TrailingWs(s: string, w: Ws): (n: nat)
    ensures n <= |s|
  {
    if s != [] && IsSpace(s[|s| - 1], w) then 1 + TrailingWs(s[..|s| - 1], w) else 0
  }

  function LStripBy(s: string, w: Ws): (r: string)
    ensures |r| <= |s|
  {
    s[LeadingWs(s, w)..]
  }

  function RStripBy(s: string, w: Ws): (r: string)
    ensures |r| <= |s|
  {
    s[..|s| - TrailingWs(s, w)]
  }

  /** Python `str.strip()` / Rust `str::trim()`: drop whitespace at both ends. */
  function StripBy(s: string, w: Ws): (r: string)
    ensures |r| <= |s|
  {
    RStripBy(LStripBy(s, w), w)
  }

  /** Stripping keeps a slice of the text, so it brings in no new character. */
  lemma StripSub(s: string, w: Ws)
    ensures forall x :: x in StripBy(s, w) ==> x in s
  {
    var n := LeadingWs(s, w);
    var t := s[n..];
    var r := t[..|t| - TrailingWs(t, w)];
    assert StripBy(s, w) == r;
    forall x | x in r ensures x in s {
      var k :| 0 <= k < |r| && r[k] == x;
      assert s[n + k] == x;
    }
  }

  /** A text that neither starts nor ends with whitespace is its own strip. */
  lemma StripNoEdges(s: string, w: Ws)
    requires s == [] || (!IsSpace(s[0], w) && !IsSpace(s[|s| - 1], w))
    ensures StripBy(s, w) == s
  {
    if s != [] {
      assert LeadingWs(s, w) == 0;
      assert TrailingWs(s, w) == 0;
    }
  }

  /** The leading run stops at a character that is not whitespace. */
  lemma {:induction false} LeadingWsStops(s: string, w: Ws)
    ensures LeadingWs(s, w) < |s| ==> !IsSpace(s[LeadingWs(s, w)], w)
  {
    if s != [] && IsSpace(s[0], w) {
      LeadingWsStops(s[1..], w);
    }
  }

  /** The trailing run stops at a character that is not whitespace. */
  lemma {:induction false} TrailingWsStops(s: string, w: Ws)
    ensures TrailingWs(s, w) < |s| ==> !IsSpace(s[|s| - 1 - TrailingWs(s, w)], w)
  {
    if s != [] && IsSpace(s[|s| - 1], w) {
      TrailingWsStops(s[..|s| - 1], w);
    }
  }

  /** What a strip leaves neither starts nor ends with whitespace. */
  lemma StripEnds(s: string, w: Ws)
    ensures var r := StripBy(s, w); r == [] || (!IsSpace(r[0], w) && !IsSpace(r[|r| - 1], w))
  {
    var t := s[LeadingWs(s, w)..];
    var r := t[..|t| - TrailingWs(t, w)];
    assert StripBy(s, w) == r;
    LeadingWsStops(s, w);
    TrailingWsStops(t, w);
    if r != [] {
      assert r[0] == s[LeadingWs(s, w)];
      assert r[|r| - 1] == t[|t| - 1 - TrailingWs(t, w)];
    }
  }

  /** Stripping twice is stripping once. */
  lemma StripTwice(s: string, w: Ws)
    ensures StripBy(StripBy(s, w), w) == StripBy(s, w)
  {
    StripEnds(s, w);
    StripNoEdges(StripBy(s, w), w);
  }

  /** Python `str.strip()` with no argument. */
  function Strip(s: string): (r: string)
    ensures |r| <= |s|
  {
    StripBy(s, Py)
  }

  /** Python `str.rstrip()` with no argument. */
  function RStrip(s: string): (r: string)
    ensures |r| <= |s|
  {
    RStripBy(s, Py)
  }

  /** Rust `str::trim()`. */
  function Trim(s: string): (r: string)
    ensures |r| <= |s|
  {
    StripBy(s, Rs)
  }

  predicate StartsWith(s: string, p: string) {
    |p| <= |s| && s[..|p|] == p
  }

  predicate EndsWith(s: string, p: string) {
    |p| <= |s| && s[|s| - |p|..] == p
  }

  /** `s.startswith(c)` for a one-character prefix. */
  predicate BeginsWith(s: string, c: char) {
    |s| > 0 && s[0] == c
  }

  /** `s.startswith(open) and s.endswith(close)` for one-character delimiters. */
  predicate Wrapped(s: string, open: char, close: char) {
    |s| > 0 && s[0] == open && s[|s| - 1] == close
  }

  /** Python `s[1:-1]`, which is empty for strings shorter than two characters. */
  function Inner(s: string): (r: string)
    ensures |s| >= 2 ==> r == s[1..|s| - 1]
    ensures |s| < 2 ==> r == []
    ensures |s| > 0 ==> |r| < |s|
  {
    if |s| >= 2 then s[1..|s| - 1] else []
  }

  /** The text between the outer `open`/`close` of the stripped text, or the stripped text itself. */
  function Unwrap(text: string, open: char, close: char): (inner: string)
    ensures |inner| <= |text|
  {
    var t := Strip(text);
    if Wrapped(t, open, close) then Inner(t) else t
  }

  /** Index of the first occurrence of `c`, or `|s|` when there is none. */
  function IndexOf(s: string, c: char): (i: nat)
    ensures i <= |s|
    ensures i < |s| ==> s[i] == c
    ensures forall k :: 0 <= k < i ==> s[k] != c
    ensures i == |s| <==> c !in s
  {
    if s == [] then 0 else if s[0] == c then 0 else 1 + IndexOf(s[1..], c)
  }

  /**
   * Python `s.split(c)` for a single-character separator: the pieces between
   * separators, always one more than the number of separators.
   */
  function Split(s: string, c: char): (r: seq<string>)
    ensures |r| == Count(s, c) + 1
    ensures forall k :: 0 <= k < |r| ==> c !in r[k]
    ensures forall k :: 0 <= k < |r| ==> |r[k]| <= |s|
  {
    if s == [] then [""]
    else
      var rest := Split(s[1..], c);
      if s[0] == c then [""] + rest
      else [[s[0]] + rest[0]] + rest[1..]
  }

  /** A text without the separator is a single piece. */
  lemma {:induction false} SplitNone(s: string, c: char)
    requires c !in s
    ensures Split(s, c) == [s]
  {
    if s != [] {
      SplitNone(s[1..], c);
      assert [s[0]] + s[1..] == s;
    }
  }

  /** The first piece runs up to the first separator; the rest is the split of what follows it. */
  lemma {:induction false} SplitFirst(s: string, c: char)
    requires c in s
    ensures Split(s, c) == [s[..IndexOf(s, c)]] + Split(s[IndexOf(s, c) + 1..], c)
  {
    if s[0] != c {
      SplitFirst(s[1..], c);
      assert s[1..][..IndexOf(s[1..], c)] == s[1..IndexOf(s, c)];
      assert [s[0]] + s[1..IndexOf(s, c)] == s[..IndexOf(s, c)];
      assert s[1..][IndexOf(s[1..], c) + 1..] == s[IndexOf(s, c) + 1..];
    }
  }

  function Count(s: string, c: char): (n: nat)
    ensures n <= |s|
  {
    if s == [] then 0 else (if s[0] == c then 1 else 0) + Count(s[1..], c)
  }

  /** Joining the pieces of `Split` with the separator gives back the input. */
  function Join(parts: seq<string>, c: char): (r: string)
    ensures |parts| == 1 ==> r == parts[0]
  {
    if parts == [] then "" else if |parts| == 1 then parts[0] else parts[0] + [c] + Join(parts[1..], c)
  }

  lemma {:induction false} SplitJoin(s: string, c: char)
    ensures Join(Split(s, c), c) == s
  {
    if s != [] {
      var rest := Split(s[1..], c);
      SplitJoin(s[1..], c);
      if s[0] == c {
        assert Split(s, c) == [""] + rest;
        assert ([""] + rest)[1..] == rest;
      } else {
        var parts := Split(s, c);
        if |rest| == 1 {
          assert parts == [[s[0]] + rest[0]];
        } else {
          assert parts[1..] == rest[1..];
          assert Join(rest, c) == rest[0] + [c] + Join(rest[1..], c);
        }
      }
    }
  }

  /**
   * `[p.strip() for p in s.split(c) if p.strip()]`: the stripped pieces
   * between separators, blank pieces dropped.
   */
  function StrippedParts(s: string, c: char): (ps: seq<string>)
    ensures |ps| <= Count(s, c) + 1
    ensures forall k :: 0 <= k < |ps| ==> ps[k] != [] && |ps[k]| <= |s| && c !in ps[k]
  {
    NonBlank(Split(s, c), |s|, c)
  }

  /** The stripped non-blank members of `pieces`, in order. */
  function NonBlank(pieces: seq<string>, bound: nat, c: char): (ps: seq<string>)
    requires forall k :: 0 <= k < |pieces| ==> |pieces[k]| <= bound && c !in pieces[k]
    ensures |ps| <= |pieces|
    ensures forall k :: 0 <= k < |ps| ==> ps[k] != [] && |ps[k]| <= bound && c !in ps[k]
  {
    if pieces == [] then []
    else
      var t := Strip(pieces[0]);
      assert c !in t by { StripSub(pieces[0], Py); }
      (if t == [] then [] else [t]) + NonBlank(pieces[1..], bound, c)
  }

  /** Length of the longest prefix of word characters (`\w*` matched greedily). */
  function WordPrefix(s: string): (n: nat)
    ensures n <= |s|
    ensures AllWord(s[..n])
    ensures n < |s| ==> !IsWordChar(s[n])
  {
    if s != [] && IsWordChar(s[0]) then 1 + WordPrefix(s[1..]) else 0
  }

  /** Python `s.replace(c, '')`. */
  function Remove(s: string, c: char): (r: string)
    ensures |r| <= |s|
    ensures c !in r
    ensures forall x :: x in r ==> x in s
  {
    if s == [] then [] else (if s[0] == c then [] else [s[0]]) + Remove(s[1..], c)
  }

  /** Removing a character the text does not start with keeps its first character. */
  lemma RemoveKeepsHead(s: string, c: char)
    requires s != [] && s[0] != c
    ensures Remove(s, c) != [] && Remove(s, c)[0] == s[0]
  {
  }

  /** Removing a character the text does not hold changes nothing. */
  lemma {:induction false} RemoveAbsent(s: string, c: char)
    requires c !in s
    ensures Remove(s, c) == s
  {
    if s != [] {
      assert c !in s[1..];
      RemoveAbsent(s[1..], c);
    }
  }

  /** Python `str.isdigit()` on ASCII: non-empty and every character a digit. */
  predicate IsDigits(s: string) {
    |s| > 0 && forall k :: 0 <= k < |s| ==> IsDigit(s[k])
  }

  /** Python `str.isalnum()` on ASCII: non-empty and every character a letter or digit. */
  predicate IsAlnumStr(s: string) {
    |s| > 0 && forall k :: 0 <= k < |s| ==> IsAlnum(s[k])
  }

  /** Every character is a word character (true of the empty string, as Rust's `chars().all`). */
  predicate AllWord(s: string) {
    forall k :: 0 <= k < |s| ==> IsWordChar(s[k])
  }

  /** The digit string of a natural number, as Python's `str(n)` / f-string formatting. */
  function NatToString(n: nat): (r: string)
    ensures |r| > 0 && IsDigits(r)
    decreases n
  {
    if n < 10 then [DigitChar(n)] else NatToString(n / 10) + [DigitChar(n % 10)]
  }

  function DigitChar(d: nat): (c: char)
    requires d < 10
    ensures IsDigit(c)
  {
    ('0' as int + d) as char
  }

  /** The value of a string of ASCII digits. */
  function DigitsValue(s: string): (v: nat)
    requires forall k :: 0 <= k < |s| ==> IsDigit(s[k])
  {
    if s == [] then 0
    else
      assert IsDigit(s[|s| - 1]);
      DigitsValue(s[..|s| - 1]) * 10 + (s[|s| - 1] as int - '0' as int)
  }

  lemma {:induction false} NatToStringValue(n: nat)
    ensures DigitsValue(NatToString(n)) == n
  {
    if n >= 10 {
      NatToStringValue(n / 10);
      var r := NatToString(n);
      assert r[..|r| - 1] == NatToString(n / 10);
    }
  }

  /** The decimal text of an integer: Python's `str(i)` and Rust's `Display` for integers agree. */
  function IntText(i: int): (t: string)
    ensures t != []
  {
    if i < 0 then "-" + NatToString(-i) else NatToString(i)
  }

  /** The characters on which Python's `str.splitlines` breaks, restricted to ASCII. */
  predicate IsLineBreak(c: char) {
    10 <= c as int <= 13 || 28 <= c as int <= 30
  }

  /**
   * The pieces between line-break characters. Python treats "\r\n" as one
   * break where this yields an extra empty piece, and drops a final empty
   * piece; both differences are blank lines, which the extractor skips.
   */
  function SplitLines(s: string): (r: seq<string>)
    ensures |r| > 0
    ensures forall k :: 0 <= k < |r| ==> |r[k]| <= |s|
  {
    if s == [] then [""]
    else
      var rest := SplitLines(s[1..]);
      if IsLineBreak(s[0]) then [""] + rest
      else [[s[0]] + rest[0]] + rest[1..]
  }
}
