/**
 * The scanning helpers of the Rust port (`src/utils.rs`): the first key
 * colon of an object item, the last top-level colon of a typed value, the
 * key/value-pair test of an object's items, and the reading of a primitive.
 *
 * Positions are character indices; every character class here is ASCII,
 * on which they coincide with Rust's byte offsets.
 */
module RsUtils {
  import opened Text
  import opened Base
  import opened RsTypes

  /** The state a character scan carries: inside a string, escaping the next character, and the two nesting counters. */
  datatype Scan = Scan(inString: bool, escaped: bool, braces: int, brackets: int)

  const Start := Scan(false, false, 0, 0)

  /**
   * The state after one character. With `quotes`, the character after a
   * backslash inside a string changes nothing but the escape, such a
   * backslash starts an escape, and a double quote toggles the string
   * state; outside a string the braces and brackets move their counters.
   * Without `quotes` (the array splitter, which has no string awareness)
   * only the counters move.
   */
  function Next(st: Scan, c: char, quotes: bool): (r: Scan)
    ensures !quotes && !st.inString && !st.escaped ==> !r.inString && !r.escaped
  {
    if quotes && st.escaped then st.(escaped := false)
    else if quotes && c == '\\' && st.inString then st.(escaped := true)
    else if quotes && c == '"' then st.(inString := !st.inString)
    else if st.inString then st
    else if c == '{' then st.(braces := st.braces + 1)
    else if c == '}' then st.(braces := st.braces - 1)
    else if c == '[' then st.(brackets := st.brackets + 1)
    else if c == ']' then st.(brackets := st.brackets - 1)
    else st
  }

  /** The state of a scan of `s` from the start when it reaches position `i`. */
  function StateAt(s: string, i: nat, quotes: bool): Scan
    requires i <= |s|
  {
    if i == 0 then Start else Next(StateAt(s, i - 1, quotes), s[i - 1], quotes)
  }

  /** Outside strings and escapes, and at depth zero in both brackets. */
  predicate Clean(st: Scan) {
    !st.inString && !st.escaped && st.braces == 0 && st.brackets == 0
  }

  /** A ':' outside strings, not escaped, whose trimmed prefix is made of word characters only. */
  predicate SimpleColonAt(s: string, i: nat)
    requires i < |s|
  {
    s[i] == ':' && !StateAt(s, i, true).inString && !StateAt(s, i, true).escaped && AllWord(Trim(s[..i]))
  }

  /** The first simple colon at or after `i`. */
  function FirstSimpleColonFrom(s: string, i: nat): (r: Option<nat>)
    requires i <= |s|
    ensures r.Some? ==> i <= r.value < |s|
    decreases |s| - i
  {
    if i == |s| then None
    else if SimpleColonAt(s, i) then Some(i)
    else FirstSimpleColonFrom(s, i + 1)
  }

  function FirstSimpleColon(s: string): Option<nat> {
    FirstSimpleColonFrom(s, 0)
  }

  /** The search finds the first simple colon at or after `i`, and finds none only when there is none. */
  lemma {:induction false} FirstSimpleColonFromIsFirst(s: string, i: nat)
    requires i <= |s|
    ensures var r := FirstSimpleColonFrom(s, i);
            (r.Some? ==> SimpleColonAt(s, r.value) && forall j :: i <= j < r.value ==> !SimpleColonAt(s, j)) &&
            (r.None? ==> forall j :: i <= j < |s| ==> !SimpleColonAt(s, j))
    decreases |s| - i
  {
    if i < |s| && !SimpleColonAt(s, i) {
      FirstSimpleColonFromIsFirst(s, i + 1);
    }
  }

  /** `FirstSimpleColon(s)` is the first simple colon of `s`, and is none only when `s` has none. */
  lemma FirstSimpleColonIsFirst(s: string)
    ensures var r := FirstSimpleColon(s);
            (r.Some? ==> r.value < |s| && SimpleColonAt(s, r.value) && forall j :: 0 <= j < r.value ==> !SimpleColonAt(s, j)) &&
            (r.None? ==> forall j :: 0 <= j < |s| ==> !SimpleColonAt(s, j))
  {
    FirstSimpleColonFromIsFirst(s, 0);
  }

  /**
   * `find_simple_colon`: the scan with its two flags, returning at the
   * first ':' outside a string whose trimmed prefix is a word.
   */
  method FindSimpleColon(input: string) returns (r: Option<nat>)
    ensures r == FirstSimpleColon(input)
  {
    FirstSimpleColonIsFirst(input);
    var inString, escapeNext := false, false;
    for i := 0 to |input|
      invariant inString == StateAt(input, i, true).inString
      invariant escapeNext == StateAt(input, i, true).escaped
      invariant forall j :: 0 <= j < i ==> !SimpleColonAt(input, j)
    {
      if escapeNext {
        escapeNext := false;
        continue;
      }
      var ch := input[i];
      if ch == '\\' && inString {
        escapeNext := true;
      } else if ch == '"' {
        inString := !inString;
      } else if ch == ':' && !inString {
        if AllWord(Trim(input[..i])) {
          assert SimpleColonAt(input, i);
          return Some(i);
        }
      }
    }
    return None;
  }

  /** A ':' outside strings and at brace and bracket depth zero. */
  predicate MainColonAt(s: string, i: nat)
    requires i < |s|
  {
    s[i] == ':' && Clean(StateAt(s, i, true))
  }

  /** The last main colon before position `n`. */
  function LastMainColonBefore(s: string, n: nat): (r: Option<nat>)
    requires n <= |s|
    ensures r.Some? ==> r.value < n
  {
    if n == 0 then None
    else if MainColonAt(s, n - 1) then Some(n - 1)
    else LastMainColonBefore(s, n - 1)
  }

  function LastMainColon(s: string): Option<nat> {
    LastMainColonBefore(s, |s|)
  }

  /** The search finds the last main colon before `n`, and finds none only when there is none. */
  lemma {:induction false} LastMainColonBeforeIsLast(s: string, n: nat)
    requires n <= |s|
    ensures var r := LastMainColonBefore(s, n);
            (r.Some? ==> MainColonAt(s, r.value) && forall j :: r.value < j < n ==> !MainColonAt(s, j)) &&
            (r.None? ==> forall j :: 0 <= j < n ==> !MainColonAt(s, j))
  {
    if n > 0 && !MainColonAt(s, n - 1) {
      LastMainColonBeforeIsLast(s, n - 1);
    }
  }

  /** `find_main_colon`: the scan with both counters, remembering the latest main colon. */
  method FindMainColon(input: string) returns (r: Option<nat>)
    ensures r == LastMainColon(input)
  {
    var braceCount, bracketCount := 0, 0;
    var inString, escapeNext := false, false;
    r := None;
    for i := 0 to |input|
      invariant Scan(inString, escapeNext, braceCount, bracketCount) == StateAt(input, i, true)
      invariant r == LastMainColonBefore(input, i)
    {
      if escapeNext {
        escapeNext := false;
        continue;
      }
      var ch := input[i];
      if ch == '\\' && inString {
        escapeNext := true;
      } else if ch == '"' {
        inString := !inString;
      } else if ch == '{' && !inString {
        braceCount := braceCount + 1;
      } else if ch == '}' && !inString {
        braceCount := braceCount - 1;
      } else if ch == '[' && !inString {
        bracketCount := bracketCount + 1;
      } else if ch == ']' && !inString {
        bracketCount := bracketCount - 1;
      } else if ch == ':' && !inString && braceCount == 0 && bracketCount == 0 {
        r := Some(i);
      }
    }
  }

  /** A key the pair test accepts: a string of word characters, at most 20 long. */
  predicate IsKey(v: DataValue) {
    IsStr(v) && AllWord(v.p.s) && |v.p.s| <= 20
  }

  /** Non-empty, of even length, and a key at every even position. */
  predicate KeyValuePairs(items: seq<DataValue>) {
    |items| > 0 && |items| % 2 == 0 && forall k :: 0 <= k < |items| && k % 2 == 0 ==> IsKey(items[k])
  }

  /** `check_if_all_key_value_pairs`: the early-exit loop over the chunks of two. */
  method CheckKeyValuePairs(items: seq<DataValue>) returns (r: bool)
    ensures r == KeyValuePairs(items)
  {
    if |items| % 2 != 0 || |items| == 0 {
      return false;
    }
    var p := 0;
    while p < |items| / 2
      invariant 0 <= p <= |items| / 2
      invariant forall k :: 0 <= k < 2 * p && k % 2 == 0 ==> IsKey(items[k])
    {
      var key := items[2 * p];
      if !IsStr(key) {
        return false;
      }
      if !AllWord(key.p.s) {
        return false;
      }
      if |key.p.s| > 20 {
        return false;
      }
      p := p + 1;
    }
    return true;
  }

  predicate IsSign(c: char) {
    c == '+' || c == '-'
  }

  /** An optional sign followed by at least one digit. */
  predicate IsIntegerText(s: string) {
    if |s| > 0 && IsSign(s[0]) then IsDigits(s[1..]) else IsDigits(s)
  }

  function IntegerTextValue(s: string): int
    requires IsIntegerText(s)
  {
    if s[0] == '-' then -(DigitsValue(s[1..]) as int)
    else if s[0] == '+' then DigitsValue(s[1..])
    else DigitsValue(s)
  }

  /** `s.parse::<i64>()`: an integer text whose value fits in 64 bits. */
  function ParseI64(s: string): (r: Option<I64>)
    ensures r.Some? <==> IsIntegerText(s) && -0x8000_0000_0000_0000 <= IntegerTextValue(s) <= 0x7FFF_FFFF_FFFF_FFFF
    ensures r.Some? ==> r.value as int == IntegerTextValue(s)
  {
    if IsIntegerText(s) && -0x8000_0000_0000_0000 <= IntegerTextValue(s) <= 0x7FFF_FFFF_FFFF_FFFF then
      Some(IntegerTextValue(s) as I64)
    else None
  }

  /** Only digits, possibly none. */
  predicate AllDigits(s: string) {
    forall k :: 0 <= k < |s| ==> IsDigit(s[k])
  }

  /** `Digit+ | Digit+ '.' Digit* | Digit* '.' Digit+`. */
  predicate IsMantissa(m: string) {
    var d := IndexOf(m, '.');
    var frac := if d < |m| then m[d + 1..] else [];
    AllDigits(m[..d]) && AllDigits(frac) && d + |frac| > 0
  }

  /** A lower-cased decimal number: a mantissa and an optional `e` exponent. */
  predicate IsDecimalNumber(t: string) {
    var e := IndexOf(t, 'e');
    IsMantissa(t[..e]) && (e == |t| || IsIntegerText(t[e + 1..]))
  }

  /**
   * The texts `s.parse::<f64>()` accepts: an optional sign, then `inf`,
   * `infinity`, `nan` or a decimal number, all in any letter case.
   */
  predicate IsFloatText(s: string) {
    var body := if |s| > 0 && IsSign(s[0]) then s[1..] else s;
    var t := LowerStr(body);
    t == "inf" || t == "infinity" || t == "nan" || IsDecimalNumber(t)
  }

  /**
   * `parse_primitive_value`: the trimmed text is `true`, `false` or `null`
   * exactly, an `i64`, a float, a quoted string that loses its outer
   * quotes, or any other text as it is. A lone `"` both starts and ends
   * with a quote and its slice `[1..0]` panics.
   */
  function PrimitiveOf(input: string): (r: Result<Prim>)
    ensures r.Err? ==> r.error.RsPanic?
  {
    var s := Trim(input);
    if s == "true" then Ok(Boolean(true))
    else if s == "false" then Ok(Boolean(false))
    else if s == "null" then Ok(Null)
    else if ParseI64(s).Some? then Ok(Integer(ParseI64(s).value))
    else if IsFloatText(s) then Ok(Float(s))
    else if Wrapped(s, '"', '"') then
      if |s| < 2 then Err(RsPanic("begin <= end (1 <= 0) when slicing")) else Ok(Str(s[1..|s| - 1]))
    else Ok(Str(s))
  }
}
