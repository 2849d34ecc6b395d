/**
 * The first string-segment parser, `bref/parser.py`: values are classified
 * from their stripped text (keywords, then numbers, then quoted text,
 * identifiers, braced objects and bracketed arrays); objects are cut at
 * commas outside braces only, arrays at commas outside braces and
 * brackets. A registered type hands the i-th non-blank value to the i-th
 * schema field with no nested typing; without one, `k: v` parts key by `k`
 * and the others by `field_<size>`. The only failure inside the parser is
 * Python's `int()`/`float()` refusing a number-shaped text.
 */
module BrefParser {
  import opened Text
  import opened Base
  import opened PyData
  import opened Segments
  import opened BrefPyDeclarations
  import BrefPyParser

  /** Every part fits in `bound`: the measure the mutual recursion decreases. */
  predicate Bounded(parts: seq<string>, bound: nat) {
    forall k :: 0 <= k < |parts| ==> |parts[k]| <= bound
  }

  /**
   * The parts the splitting loops collect: every stripped piece cut at a
   * comma outside the tracked brackets, and the last piece only when it is
   * not blank.
   */
  function PartsOf(text: string, n: Nesting): (parts: seq<string>)
    ensures Bounded(parts, |text|)
  {
    var ps := StripAll(Pieces(text, n));
    if ps[|ps| - 1] == "" then ps[..|ps| - 1] else ps
  }

  /**
   * `parse_value`: the stripped text is tried as a keyword in any letter
   * case, a number-shaped text, a quoted string, an identifier, then a
   * braced object or a bracketed array, both read with no type; anything
   * else stays a string.
   */
  function ValueOf(x: string): (r: Result<PyValue>)
    ensures r.Err? ==> r.error.BadNumber?
    decreases |x|, 2
  {
    var s := Strip(x);
    if BrefPyParser.Keyword(s).Some? then Ok(BrefPyParser.Keyword(s).value)
    else if NumberShaped(s) then PyNumber(s)
    else if Wrapped(s, '"', '"') then Ok(PStr(Inner(s)))
    else if IdentifierShaped(s) then Ok(PStr(s))
    else if Wrapped(s, '{', '}') then
      var inner := Inner(s);
      var d :- EntriesOf(PartsOf(inner, Braces), 0, [], |inner|);
      Ok(PDict(d))
    else if Wrapped(s, '[', ']') then
      var inner := Inner(s);
      var a :- ValuesOf(PartsOf(inner, BracesAndBrackets), 0, |inner|);
      Ok(PList(a))
    else Ok(PStr(s))
  }

  /**
   * The untyped loop of `parse_object` from part `i`: blank parts are
   * skipped, the others written into `acc` in order.
   */
  function EntriesOf(parts: seq<string>, i: nat, acc: Dict, bound: nat): (r: Result<Dict>)
    requires i <= |parts| && Bounded(parts, bound)
    ensures r.Err? ==> r.error.BadNumber?
    decreases bound, 4, |parts| - i
  {
    if i == |parts| then Ok(acc)
    else if Strip(parts[i]) == "" then EntriesOf(parts, i + 1, acc, bound)
    else
      var kv :- EntryOf(parts[i], |acc|, bound);
      EntriesOf(parts, i + 1, Put(acc, kv.0, kv.1), bound)
  }

  /**
   * One entry, written when the dict holds `size` entries: a part with a
   * ':' that does not start with '"' is split at its first ':' into a
   * stripped key and a value; any other part is a value under
   * `field_<size>`.
   */
  function EntryOf(part: string, size: nat, bound: nat): (r: Result<(string, PyValue)>)
    requires |part| <= bound
    ensures r.Err? ==> r.error.BadNumber?
    decreases bound, 3
  {
    if ':' in part && !BeginsWith(part, '"') then
      var c := IndexOf(part, ':');
      var v :- ValueOf(part[c + 1..]);
      Ok((Strip(part[..c]), v))
    else
      var v :- ValueOf(part);
      Ok((BrefPyParser.PositionalKey(size), v))
  }

  /**
   * The plain values of the non-blank parts from `i`, in order; the first
   * that fails fails the whole. This is both the value list of a typed
   * object and the loop of an untyped array.
   */
  function ValuesOf(parts: seq<string>, i: nat, bound: nat): (r: Result<seq<PyValue>>)
    requires i <= |parts| && Bounded(parts, bound)
    ensures r.Err? ==> r.error.BadNumber?
    decreases bound, 3, |parts| - i
  {
    if i == |parts| then Ok([])
    else if Strip(parts[i]) == "" then ValuesOf(parts, i + 1, bound)
    else
      var v :- ValueOf(parts[i]);
      var rest :- ValuesOf(parts, i + 1, bound);
      Ok([v] + rest)
  }

  /** The typed loop of `parse_object` from field `i`: field i takes value i while there is one. */
  function TypedFill(schema: Schema, values: seq<PyValue>, i: nat, acc: Dict): (r: Dict)
    requires i <= |schema|
    decreases |schema| - i
  {
    if i == |schema| then acc
    else if i < |values| then TypedFill(schema, values, i + 1, Put(acc, FieldKey(schema[i]), values[i]))
    else TypedFill(schema, values, i + 1, acc)
  }

  /**
   * `parse_object(obj_str, type_defs, current_type)`: the braces come off
   * the stripped text, the parts are cut outside braces, and a registered
   * type maps values to its fields by position.
   */
  function ObjectOf(o: string, defs: Defs, ct: string): (r: Result<Dict>)
    ensures r.Err? ==> r.error.BadNumber?
  {
    var inner := Unwrap(o, '{', '}');
    var parts := PartsOf(inner, Braces);
    if ct != "" && ct in defs then
      var values :- ValuesOf(parts, 0, |inner|);
      Ok(TypedFill(defs[ct], values, 0, []))
    else EntriesOf(parts, 0, [], |inner|)
  }

  /** One array element: with a registered element type a braced part is an object of that type, anything else a plain value. */
  function ElementOf(part: string, et: string, defs: Defs): (r: Result<PyValue>)
    ensures r.Err? ==> r.error.BadNumber?
  {
    if et != "" && et in defs && Wrapped(part, '{', '}') then
      var d :- ObjectOf(part, defs, et);
      Ok(PDict(d))
    else ValueOf(part)
  }

  /** The loop of `parse_array` from part `i`: blank parts are skipped, the others give one element each. */
  function ElementsOf(parts: seq<string>, i: nat, et: string, defs: Defs): (r: Result<seq<PyValue>>)
    requires i <= |parts|
    ensures r.Err? ==> r.error.BadNumber?
    decreases |parts| - i
  {
    if i == |parts| then Ok([])
    else if Strip(parts[i]) == "" then ElementsOf(parts, i + 1, et, defs)
    else
      var v :- ElementOf(parts[i], et, defs);
      var rest :- ElementsOf(parts, i + 1, et, defs);
      Ok([v] + rest)
  }

  /** `parse_array(arr_str, type_defs, element_type)`: the brackets come off, the parts are cut outside braces and brackets. */
  function ArrayOf(a: string, defs: Defs, et: string): (r: Result<seq<PyValue>>)
    ensures r.Err? ==> r.error.BadNumber?
  {
    ElementsOf(PartsOf(Unwrap(a, '[', ']'), BracesAndBrackets), 0, et, defs)
  }

  /** `parse_data_with_type`: an unregistered type is a `ValueError`; a bracketed text is an array, anything else an object. */
  function DataWithTypeOf(data: string, typeName: string, defs: Defs): (r: Result<PyValue>)
    ensures r == Err(TypeNotFound(typeName)) <==> typeName !in defs
    ensures r.Err? && typeName in defs ==> r.error.BadNumber?
  {
    if typeName !in defs then Err(TypeNotFound(typeName))
    else if Wrapped(Strip(data), '[', ']') then
      var a :- ArrayOf(data, defs, typeName);
      Ok(PList(a))
    else
      var d :- ObjectOf(data, defs, typeName);
      Ok(PDict(d))
  }

  /**
   * The splitting loop that `parse_object` (braces only) and `parse_array`
   * (braces and brackets) each run: a character buffer, one counter, a
   * stripped part at every comma read at depth zero, and the stripped
   * remainder at the end when it is not blank.
   */
  method CollectParts(text: string, n: Nesting) returns (parts: seq<string>)
    ensures parts == PartsOf(text, n)
  {
    var buf, depth;
    parts, buf, depth := ScanParts(text, n);
    PartsOfEnd(text, n, parts, buf, depth);
    if Strip(buf) != "" {
      parts := parts + [Strip(buf)];
    }
  }

  /** The character loop of that scan: the parts cut so far and the buffer left at the end of the text. */
  method ScanParts(text: string, n: Nesting) returns (parts: seq<string>, buf: string, depth: int)
    ensures Scanned(text, n, |text|, parts, buf, depth)
  {
    var i := 0;
    buf, depth, parts := "", 0, [];
    while i < |text|
      invariant 0 <= i <= |text|
      invariant Scanned(text, n, i, parts, buf, depth)
    {
      parts, buf, depth := ScanChar(text, n, i, parts, buf, depth);
      i := i + 1;
    }
  }

  /** One pass of that loop: the character at `i` moves a counter and joins the buffer, or, a comma at depth zero, cuts a part. */
  method ScanChar(text: string, n: Nesting, i: nat, parts: seq<string>, buf: string, depth: int)
      returns (parts': seq<string>, buf': string, depth': int)
    requires i < |text| && Scanned(text, n, i, parts, buf, depth)
    ensures Scanned(text, n, i + 1, parts', buf', depth')
  {
    var c := text[i];
    PartsStep(text, i, buf, depth, n, parts);
    parts', buf', depth' := parts, buf, depth;
    if Opens(c, n) {
      depth' := depth + 1;
    } else if Closes(c, n) {
      depth' := depth - 1;
    } else if c == ',' && depth == 0 {
      parts' := parts + [Strip(buf)];
      buf' := "";
      return;
    }
    buf' := buf + [c];
    assert depth' == NextDepth(c, depth, n);
  }

  /** After `i` characters: the parts cut so far, then the stripped pieces still to come from `buf` on, are all the stripped pieces. */
  predicate Scanned(text: string, n: Nesting, i: nat, parts: seq<string>, buf: string, depth: int)
    requires i <= |text|
  {
    parts + StripAll(PiecesFrom(text, i, buf, depth, n)) == StripAll(Pieces(text, n))
  }

  /** One character of the splitting loop: a cut moves the stripped buffer to the parts, any other character joins the buffer. */
  lemma PartsStep(text: string, i: nat, buf: string, depth: int, n: Nesting, parts: seq<string>)
    requires i < |text| && Scanned(text, n, i, parts, buf, depth)
    ensures text[i] == ',' && depth == 0 ==> Scanned(text, n, i + 1, parts + [Strip(buf)], "", depth)
    ensures !(text[i] == ',' && depth == 0) ==> Scanned(text, n, i + 1, parts, buf + [text[i]], NextDepth(text[i], depth, n))
  {
    PiecesFromStep(text, i, buf, depth, n);
    if text[i] == ',' && depth == 0 {
      var rest := PiecesFrom(text, i + 1, "", depth, n);
      StripAllCons(buf, rest);
      Assoc(parts, [Strip(buf)], StripAll(rest));
    }
  }

  /** At the end of the text, the parts collected so far and the stripped buffer, unless blank, are the parts. */
  lemma PartsOfEnd(text: string, n: Nesting, parts: seq<string>, buf: string, depth: int)
    requires Scanned(text, n, |text|, parts, buf, depth)
    ensures PartsOf(text, n) == if Strip(buf) != "" then parts + [Strip(buf)] else parts
  {
    StripAllCons(buf, []);
    assert PiecesFrom(text, |text|, buf, depth, n) == [buf] + [];
    ghost var all := StripAll(Pieces(text, n));
    assert all == parts + [Strip(buf)];
    assert all[..|all| - 1] == parts;
  }

  /** The typed loop of `parse_object`: `enumerate(schema)`, writing field i while `i < len(values)`. */
  method FillTyped(schema: Schema, values: seq<PyValue>) returns (result: Dict)
    ensures result == TypedFill(schema, values, 0, [])
  {
    result := [];
    for i := 0 to |schema|
      invariant TypedFill(schema, values, i, result) == TypedFill(schema, values, 0, [])
    {
      if i < |values| {
        result := Put(result, FieldKey(schema[i]), values[i]);
      }
    }
  }

  /** The untyped loop of `parse_object` over every part. */
  method FillUntyped(parts: seq<string>, bound: nat) returns (r: Result<Dict>)
    requires Bounded(parts, bound)
    ensures r == EntriesOf(parts, 0, [], bound)
  {
    var result: Dict := [];
    for i := 0 to |parts|
      invariant EntriesOf(parts, i, result, bound) == EntriesOf(parts, 0, [], bound)
    {
      if Strip(parts[i]) != "" {
        var kv := EntryOf(parts[i], |result|, bound);
        if kv.Err? {
          return Err(kv.error);
        }
        result := Put(result, kv.value.0, kv.value.1);
      }
    }
    r := Ok(result);
  }

  /** `parse_object`, as its statements run. */
  method ParseObject(o: string, defs: Defs, ct: string) returns (r: Result<Dict>)
    ensures r == ObjectOf(o, defs, ct)
  {
    var inner := Unwrap(o, '{', '}');
    var parts := CollectParts(inner, Braces);
    if ct != "" && ct in defs {
      var values := ValuesOf(parts, 0, |inner|);
      if values.Err? {
        return Err(values.error);
      }
      var result := FillTyped(defs[ct], values.value);
      r := Ok(result);
    } else {
      r := FillUntyped(parts, |inner|);
    }
  }

  /** `parse_array`, as its statements run: the parts, then one element per non-blank part. */
  method ParseArray(a: string, defs: Defs, et: string) returns (r: Result<seq<PyValue>>)
    ensures r == ArrayOf(a, defs, et)
  {
    var parts := CollectParts(Unwrap(a, '[', ']'), BracesAndBrackets);
    var result: seq<PyValue> := [];
    for i := 0 to |parts|
      invariant Prefixed(result, ElementsOf(parts, i, et, defs)) == ElementsOf(parts, 0, et, defs)
    {
      if Strip(parts[i]) == "" {
        continue;
      }
      var v :- ElementOf(parts[i], et, defs);
      PrefixedStep(result, v, ElementsOf(parts, i + 1, et, defs));
      result := result + [v];
    }
    assert result + [] == result;
    r := Ok(result);
  }
}
