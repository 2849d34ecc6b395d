/**
 * The Rust port's parser (`src/parser.rs`): `:Name { fields }` lines give
 * schemas; a data text whose last top-level colon is followed by a
 * registered type name or a braced inline schema is read against that
 * schema, anything else as an array, an object or a primitive. Objects are
 * flat sequences of alternating keys and values; typing pairs field i with
 * item i and keeps trailing key/value pairs.
 *
 * Panics of the source (a slice whose start lies after its end) are the
 * error `RsPanic`; the `Err(String)` results are `RsError`.
 */
module RsParser {
  import opened Text
  import opened Base
  import opened RsTypes
  import opened RsUtils
  import Segments

  function Min(a: nat, b: nat): nat {
    if a < b then a else b
  }

  /** Every member fits in `bound`: the measure the mutual recursion decreases. */
  predicate Fits(texts: seq<string>, bound: nat) {
    forall k :: 0 <= k < |texts| ==> |texts[k]| <= bound
  }

  /** Every member trimmed. */
  function TrimAll(ps: seq<string>): (r: seq<string>)
    ensures |r| == |ps|
    ensures forall k :: 0 <= k < |ps| ==> r[k] == Trim(ps[k])
  {
    if ps == [] then [] else [Trim(ps[0])] + TrimAll(ps[1..])
  }

  lemma TrimAllCons(x: string, ps: seq<string>)
    ensures TrimAll([x] + ps) == [Trim(x)] + TrimAll(ps)
  {
    assert ([x] + ps)[1..] == ps;
  }

  // ---------------------------------------------------------------------
  // Type definitions
  // ---------------------------------------------------------------------

  /** `field_str.contains("[]")`. */
  predicate HasEmptyBrackets(s: string) {
    exists k :: 0 <= k < |s| - 1 && s[k] == '[' && s[k + 1] == ']'
  }

  /**
   * `parse_field`: a trimmed text with `[]` and a ':' is an array field
   * whose element type lies between the colon and the last two characters
   * (a slice that panics when the colon is among those two); otherwise a
   * ':' makes an object field typed by what follows it, and a text
   * without ':' is a primitive field with no type.
   */
  function ParseField(fieldStr: string): (r: Result<FieldDef>)
    ensures r.Err? ==> r.error.RsPanic?
  {
    var s := Trim(fieldStr);
    var c := IndexOf(s, ':');
    if HasEmptyBrackets(s) && c < |s| then
      if c + 1 > |s| - 2 then Err(RsPanic("slice index starts after its end"))
      else Ok(FieldDef(Trim(s[..c]), Some(Trim(s[c + 1..|s| - 2])), ArrayKind))
    else if c < |s| then Ok(FieldDef(Trim(s[..c]), Some(Trim(s[c + 1..])), ObjectKind))
    else Ok(FieldDef(s, None, PrimitiveKind))
  }

  /** The trimmed, non-blank pieces of a field list between commas. */
  function FieldTexts(content: string): seq<string> {
    Segments.NonEmpty(TrimAll(Split(content, ',')))
  }

  /** One field per text, in order; the first panic stops the list. */
  function FieldsFrom(texts: seq<string>): (r: Result<seq<FieldDef>>)
    ensures r.Err? ==> r.error.RsPanic?
  {
    if texts == [] then Ok([])
    else
      var f :- ParseField(texts[0]);
      var rest :- FieldsFrom(texts[1..]);
      Ok([f] + rest)
  }

  /** The field list of one more text: its field, then the rest. */
  lemma FieldsFromCons(t: string, tail: seq<string>)
    ensures ParseField(t).Err? ==> FieldsFrom([t] + tail) == Err(ParseField(t).error)
    ensures ParseField(t).Ok? ==> FieldsFrom([t] + tail) == Prefixed([ParseField(t).value], FieldsFrom(tail))
  {
    assert ([t] + tail)[1..] == tail;
  }

  /** The non-blank trimmed pieces from piece `i` on: piece i's, unless blank, then the rest. */
  lemma FieldTextsStep(parts: seq<string>, i: nat)
    requires i < |parts|
    ensures Segments.NonEmpty(TrimAll(parts[i..])) ==
              (if Trim(parts[i]) == "" then [] else [Trim(parts[i])]) + Segments.NonEmpty(TrimAll(parts[i + 1..]))
  {
    assert parts[i..] == [parts[i]] + parts[i + 1..];
    TrimAllCons(parts[i], parts[i + 1..]);
    Segments.NonEmptyCons(Trim(parts[i]), TrimAll(parts[i + 1..]));
  }

  /** `parse_fields(content)`. */
  function FieldsOf(content: string): Result<seq<FieldDef>> {
    FieldsFrom(FieldTexts(content))
  }

  /** `parse_fields`, as its loop runs over the comma-separated pieces. */
  method ParseFields(content: string) returns (r: Result<seq<FieldDef>>)
    ensures r == FieldsOf(content)
  {
    var parts := Split(content, ',');
    var fields: seq<FieldDef> := [];
    for i := 0 to |parts|
      invariant Prefixed(fields, FieldsFrom(Segments.NonEmpty(TrimAll(parts[i..])))) == FieldsOf(content)
    {
      FieldTextsStep(parts, i);
      ghost var tail := Segments.NonEmpty(TrimAll(parts[i + 1..]));
      var fieldStr := Trim(parts[i]);
      if fieldStr != "" {
        FieldsFromCons(fieldStr, tail);
        var f :- ParseField(fieldStr);
        PrefixedNest(fields, f, FieldsFrom(tail));
        fields := fields + [f];
      } else {
        assert [] + tail == tail;
      }
    }
    assert parts[|parts|..] == [] && TrimAll([]) == [] && Segments.NonEmpty([]) == [];
    assert FieldsFrom([]) == Ok([]) && fields + [] == fields;
    r := Ok(fields);
  }

  /**
   * `parse_type_definition(line)`: after the leading ':' the text up to the
   * first space is the type name, and what follows must be a braced field
   * list; anything else is no definition.
   */
  function TypeDefinitionOf(line: string): (r: Result<Option<(string, seq<FieldDef>)>>)
    requires |line| > 0
    ensures ' ' !in line[1..] ==> r == Ok(None)
    ensures r.Ok? && r.value.Some? ==> ' ' !in r.value.value.0
    ensures r.Err? ==> r.error.RsPanic?
  {
    var rest := line[1..];
    var sp := IndexOf(rest, ' ');
    if sp == |rest| then Ok(None)
    else
      var fieldsPart := Trim(rest[sp..]);
      if Wrapped(fieldsPart, '{', '}') then
        var fields :- FieldsOf(Inner(fieldsPart));
        assert ' ' !in rest[..sp];
        StripSub(rest[..sp], Rs);
        Ok(Some((Trim(rest[..sp]), fields)))
      else Ok(None)
  }

  /** The loop of `parse_type_definitions` over `lines`, into `acc`: a later definition replaces an earlier one. */
  function DefinitionsOf(lines: seq<string>, acc: TypeDefs): (r: Result<TypeDefs>)
    ensures r.Ok? ==> acc.Keys <= r.value.Keys
    ensures r.Err? ==> r.error.RsPanic?
  {
    if lines == [] then Ok(acc)
    else
      var next :- DefinitionLineOf(Trim(lines[0]), acc);
      DefinitionsOf(lines[1..], next)
  }

  /** One trimmed line of that loop: a blank line or one not starting with ':' changes nothing, a definition is inserted. */
  function DefinitionLineOf(line: string, acc: TypeDefs): (r: Result<TypeDefs>)
    ensures r.Ok? ==> acc.Keys <= r.value.Keys
    ensures r.Err? ==> r.error.RsPanic?
  {
    if line == "" || !BeginsWith(line, ':') then Ok(acc)
    else
      var d :- TypeDefinitionOf(line);
      if d.Some? then Ok(acc[d.value.0 := d.value.1]) else Ok(acc)
  }

  /** `parse_type_definitions(input)`. `lines()` is a split at '\n' whose pieces are trimmed here anyway. */
  function TypeDefinitionsOf(input: string): Result<TypeDefs> {
    DefinitionsOf(Split(input, '\n'), map[])
  }

  /** `parse_type_definitions`, as its loop runs, inserting each definition into the map. */
  method ParseTypeDefinitions(input: string) returns (r: Result<TypeDefs>)
    ensures r == TypeDefinitionsOf(input)
  {
    var lines := Split(input, '\n');
    var typeDefs: TypeDefs := map[];
    for i := 0 to |lines|
      invariant DefinitionsOf(lines[i..], typeDefs) == TypeDefinitionsOf(input)
    {
      assert lines[i..][1..] == lines[i + 1..];
      var line := Trim(lines[i]);
      if line == "" {
        continue;
      }
      if BeginsWith(line, ':') {
        var d :- TypeDefinitionOf(line);
        if d.Some? {
          typeDefs := typeDefs[d.value.0 := d.value.1];
        }
      }
    }
    r := Ok(typeDefs);
  }

  // ---------------------------------------------------------------------
  // Splitting item lists
  // ---------------------------------------------------------------------

  /**
   * The raw pieces a splitting loop produces from position `i`, holding
   * `buf` in the scan state `st`: a comma read in a clean state ends a
   * piece, every other character joins the current one.
   */
  function ItemPieces(text: string, i: nat, buf: string, st: Scan, quotes: bool): (r: seq<string>)
    requires i <= |text|
    ensures |r| > 0
    ensures forall k :: 0 <= k < |r| ==> |r[k]| <= |buf| + |text| - i
    decreases |text| - i
  {
    if i == |text| then [buf]
    else if text[i] == ',' && Clean(st) then [buf] + ItemPieces(text, i + 1, "", st, quotes)
    else ItemPieces(text, i + 1, buf + [text[i]], Next(st, text[i], quotes), quotes)
  }

  /** One character of the splitting loop: a comma read in a clean state ends the piece, any other character joins it. */
  lemma ItemPiecesStep(text: string, i: nat, buf: string, st: Scan, quotes: bool)
    requires i < |text|
    ensures text[i] == ',' && Clean(st) ==> ItemPieces(text, i, buf, st, quotes) == [buf] + ItemPieces(text, i + 1, "", st, quotes)
    ensures !(text[i] == ',' && Clean(st)) ==>
              ItemPieces(text, i, buf, st, quotes) == ItemPieces(text, i + 1, buf + [text[i]], Next(st, text[i], quotes), quotes)
  {
  }

  /**
   * The trimmed, non-blank items of a list: the texts `parse_array_items`
   * (no string awareness) and `parse_object_items` (with it) hand on.
   */
  function ItemTexts(content: string, quotes: bool): (r: seq<string>)
    ensures Fits(r, |content|)
    ensures forall k :: 0 <= k < |r| ==> r[k] != ""
  {
    var ps := ItemPieces(content, 0, "", Start, quotes);
    var ts := TrimAll(ps);
    assert Fits(ts, |content|) by {
      forall k | 0 <= k < |ts| ensures |ts[k]| <= |content| {
        assert |ts[k]| <= |ps[k]|;
      }
    }
    Segments.NonEmpty(ts)
  }

  /** The loop of `parse_array_items`: two counters and a buffer, with no notion of strings. */
  method SplitArrayItems(content: string) returns (texts: seq<string>)
    ensures texts == ItemTexts(content, false)
  {
    var current := "";
    var braceCount, bracketCount := 0, 0;
    texts := [];
    for i := 0 to |content|
      invariant texts + Segments.NonEmpty(TrimAll(ItemPieces(content, i, current, Scan(false, false, braceCount, bracketCount), false))) == ItemTexts(content, false)
    {
      var ch := content[i];
      ghost var st := Scan(false, false, braceCount, bracketCount);
      ItemPiecesStep(content, i, current, st, false);
      if ch == '{' {
        braceCount := braceCount + 1;
      } else if ch == '}' {
        braceCount := braceCount - 1;
      } else if ch == '[' {
        bracketCount := bracketCount + 1;
      } else if ch == ']' {
        bracketCount := bracketCount - 1;
      } else if ch == ',' && braceCount == 0 && bracketCount == 0 {
        HandOn(texts, current, ItemPieces(content, i + 1, "", st, false));
        var item := Trim(current);
        if item != "" {
          texts := texts + [item];
        }
        current := "";
        continue;
      }
      assert Scan(false, false, braceCount, bracketCount) == Next(st, ch, false);
      current := current + [ch];
    }
    HandOn(texts, current, []);
    var item := Trim(current);
    if item != "" {
      texts := texts + [item];
    }
  }

  /** The loop of `parse_object_items`: strings, escapes, two counters and a buffer. */
  method SplitObjectItems(content: string) returns (texts: seq<string>)
    ensures texts == ItemTexts(content, true)
  {
    var current := "";
    var braceCount, bracketCount := 0, 0;
    var inString, escapeNext := false, false;
    texts := [];
    for i := 0 to |content|
      invariant texts + Segments.NonEmpty(TrimAll(ItemPieces(content, i, current, Scan(inString, escapeNext, braceCount, bracketCount), true))) == ItemTexts(content, true)
    {
      var ch := content[i];
      ghost var st := Scan(inString, escapeNext, braceCount, bracketCount);
      ItemPiecesStep(content, i, current, st, true);
      if escapeNext {
        escapeNext := false;
      } else if ch == '\\' && inString {
        escapeNext := true;
      } else if ch == '"' {
        inString := !inString;
      } else if ch == '{' && !inString {
        braceCount := braceCount + 1;
      } else if ch == '}' && !inString {
        braceCount := braceCount - 1;
      } else if ch == '[' && !inString {
        bracketCount := bracketCount + 1;
      } else if ch == ']' && !inString {
        bracketCount := bracketCount - 1;
      } else if ch == ',' && !inString && braceCount == 0 && bracketCount == 0 {
        HandOn(texts, current, ItemPieces(content, i + 1, "", st, true));
        var item := Trim(current);
        if item != "" {
          texts := texts + [item];
        }
        current := "";
        continue;
      }
      assert Scan(inString, escapeNext, braceCount, bracketCount) == Next(st, ch, true);
      current := current + [ch];
    }
    HandOn(texts, current, []);
    var item := Trim(current);
    if item != "" {
      texts := texts + [item];
    }
  }

  /** Handing the buffer on: its trimmed text joins the texts unless blank, and the outcome of the loop does not change. */
  lemma HandOn(texts: seq<string>, buf: string, rest: seq<string>)
    ensures (if Trim(buf) == "" then texts else texts + [Trim(buf)]) + Segments.NonEmpty(TrimAll(rest))
            == texts + Segments.NonEmpty(TrimAll([buf] + rest))
  {
    TrimAllCons(buf, rest);
    Segments.NonEmptyCons(Trim(buf), TrimAll(rest));
    Assoc(texts, [Trim(buf)], Segments.NonEmpty(TrimAll(rest)));
  }

  // ---------------------------------------------------------------------
  // Reading data
  // ---------------------------------------------------------------------

  const NotObjects := "Array items must be objects when using typed arrays"

  /**
   * `parse_data`: a trimmed text whose last main colon is followed by a
   * registered type name or a braced inline schema is a typed value;
   * otherwise a bracketed text is an array, a braced one an object, and
   * anything else a primitive.
   */
  function DataOf(input: string, defs: TypeDefs): (r: Result<DataValue>)
    ensures r.Err? ==> r.error.RsError? || r.error.RsPanic?
    decreases |input|, 0
  {
    var s := Trim(input);
    var c := LastMainColon(s);
    if c.Some? && Trim(s[c.value + 1..]) in defs then
      TypedValueOf(Trim(s[..c.value]), defs[Trim(s[c.value + 1..])], defs)
    else if c.Some? && Wrapped(Trim(s[c.value + 1..]), '{', '}') then
      var fields :- FieldsOf(Inner(Trim(s[c.value + 1..])));
      TypedValueOf(Trim(s[..c.value]), fields, defs)
    else if Wrapped(s, '[', ']') then
      var items :- ArrayItemsOf(ItemTexts(Inner(s), false), 0, |Inner(s)|, defs);
      Ok(Array(items))
    else if Wrapped(s, '{', '}') then
      var items :- ObjectItemsOf(ItemTexts(Inner(s), true), 0, |Inner(s)|, defs);
      Ok(Object(items))
    else
      var p :- PrimitiveOf(s);
      Ok(Primitive(p))
  }

  /** The loop of `parse_array_items` from text `i`: one value per item. */
  function ArrayItemsOf(texts: seq<string>, i: nat, bound: nat, defs: TypeDefs): (r: Result<seq<DataValue>>)
    requires i <= |texts| && Fits(texts, bound)
    ensures r.Err? ==> r.error.RsError? || r.error.RsPanic?
    decreases bound, 1, |texts| - i
  {
    if i == |texts| then Ok([])
    else
      var v :- DataOf(texts[i], defs);
      var rest :- ArrayItemsOf(texts, i + 1, bound, defs);
      Ok([v] + rest)
  }

  /**
   * The loop of `parse_object_items` from text `i`: an item with a simple
   * colon gives its trimmed key as a string and then its value, any other
   * item one value.
   */
  function ObjectItemsOf(texts: seq<string>, i: nat, bound: nat, defs: TypeDefs): (r: Result<seq<DataValue>>)
    requires i <= |texts| && Fits(texts, bound)
    ensures r.Err? ==> r.error.RsError? || r.error.RsPanic?
    decreases bound, 1, |texts| - i
  {
    if i == |texts| then Ok([])
    else
      var item := texts[i];
      var c := FirstSimpleColon(item);
      if c.Some? then
        var v :- DataOf(Trim(item[c.value + 1..]), defs);
        var rest :- ObjectItemsOf(texts, i + 1, bound, defs);
        Ok([Primitive(Str(Trim(item[..c.value]))), v] + rest)
      else
        var v :- DataOf(item, defs);
        var rest :- ObjectItemsOf(texts, i + 1, bound, defs);
        Ok([v] + rest)
  }

  /**
   * `parse_typed_value`: a bracketed value is an array whose items must all
   * be objects, each typed by the schema; anything else is an object, its
   * braces removed when it has them.
   */
  function TypedValueOf(valuePart: string, fields: seq<FieldDef>, defs: TypeDefs): (r: Result<DataValue>)
    ensures r.Err? ==> r.error.RsError? || r.error.RsPanic?
    ensures r.Ok? ==> r.value.Object? || r.value.Array?
    decreases |valuePart|, 2
  {
    var s := Trim(valuePart);
    if Wrapped(s, '[', ']') then
      var items :- ArrayItemsOf(ItemTexts(Inner(s), false), 0, |Inner(s)|, defs);
      var typed :- TypedElements(items, fields, 0, defs);
      Ok(Array(typed))
    else
      var content := if Wrapped(s, '{', '}') then Inner(s) else s;
      var items :- ObjectItemsOf(ItemTexts(content, true), 0, |content|, defs);
      TypedObjectOf(items, fields, defs)
  }

  // ---------------------------------------------------------------------
  // Applying a schema to parsed items
  // ---------------------------------------------------------------------

  /** A typed object: items that are all key/value pairs stay as they are, anything else is named by the schema. */
  function TypedObjectOf(items: seq<DataValue>, fields: seq<FieldDef>, defs: TypeDefs): (r: Result<DataValue>)
    ensures KeyValuePairs(items) ==> r == Ok(Object(items))
    ensures r.Ok? ==> r.value.Object?
    ensures r.Err? ==> r.error.RsError? || r.error.RsPanic?
  {
    if KeyValuePairs(items) then Ok(Object(items))
    else
      var named :- NamedObject(items, fields, defs);
      Ok(Object(named))
  }

  /** The typed-array loop of `parse_typed_value` from item `j`: every item must be an object. */
  function TypedElements(items: seq<DataValue>, fields: seq<FieldDef>, j: nat, defs: TypeDefs): (r: Result<seq<DataValue>>)
    requires j <= |items|
    ensures r.Ok? ==> |r.value| == |items| - j
    ensures r.Err? ==> r.error.RsError? || r.error.RsPanic?
    decreases |items| - j
  {
    if j == |items| then Ok([])
    else if items[j].Object? then
      var o :- TypedObjectOf(items[j].items, fields, defs);
      var rest :- TypedElements(items, fields, j + 1, defs);
      Ok([o] + rest)
    else Err(RsError(NotObjects))
  }

  /**
   * The named object the schema makes of `items`: the name of field i and
   * item i typed by it, for every i below both lengths, then the trailing
   * key/value pairs.
   */
  function NamedObject(items: seq<DataValue>, fields: seq<FieldDef>, defs: TypeDefs): (r: Result<seq<DataValue>>)
    ensures r.Err? ==> r.error.RsError? || r.error.RsPanic?
    decreases items, 2
  {
    var pairs :- NamedPairs(items, fields, 0, defs);
    Ok(pairs + TrailingPairs(items, Min(|fields|, |items|)))
  }

  /** The field loop of the naming from field `j`: a field with an item to take gives its name and the typed item. */
  function NamedPairs(items: seq<DataValue>, fields: seq<FieldDef>, j: nat, defs: TypeDefs): (r: Result<seq<DataValue>>)
    requires j <= |fields|
    ensures r.Err? ==> r.error.RsError? || r.error.RsPanic?
    decreases items, 1, |fields| - j
  {
    if j == |fields| then Ok([])
    else if j < |items| then
      var tv :- FieldTyped(items[j], fields[j], defs);
      var rest :- NamedPairs(items, fields, j + 1, defs);
      Ok([Primitive(Str(fields[j].name)), tv] + rest)
    else NamedPairs(items, fields, j + 1, defs)
  }

  /**
   * The trailing loop of the naming from item `idx`: while a string is
   * followed by another item, both are copied.
   */
  function TrailingPairs(items: seq<DataValue>, idx: nat): (r: seq<DataValue>)
    requires idx <= |items|
    ensures |r| % 2 == 0
    decreases |items| - idx
  {
    if idx + 1 < |items| && IsStr(items[idx]) then
      [items[idx], items[idx + 1]] + TrailingPairs(items, idx + 2)
    else []
  }

  /**
   * The trailing pairs are the longest run of items from `idx` that pairs
   * a string with the item after it: a slice of `items`, a string at every
   * even position, and stopped by an item that cannot start another pair.
   */
  lemma {:induction false} TrailingPairsRun(items: seq<DataValue>, idx: nat)
    requires idx <= |items|
    ensures var r := TrailingPairs(items, idx);
            idx + |r| <= |items| && r == items[idx..idx + |r|] &&
            (forall k :: 0 <= k < |r| && k % 2 == 0 ==> IsStr(r[k])) &&
            (idx + |r| + 1 >= |items| || !IsStr(items[idx + |r|]))
    decreases |items| - idx
  {
    if idx + 1 < |items| && IsStr(items[idx]) {
      var rest := TrailingPairs(items, idx + 2);
      TrailingPairsRun(items, idx + 2);
      var r := [items[idx], items[idx + 1]] + rest;
      assert r == TrailingPairs(items, idx);
      assert items[idx..idx + 2 + |rest|] == [items[idx], items[idx + 1]] + items[idx + 2..idx + 2 + |rest|];
      forall k | 0 <= k < |r| && k % 2 == 0
        ensures IsStr(r[k])
      {
        if k >= 2 {
          assert r[k] == rest[k - 2];
        }
      }
    }
  }

  /**
   * `apply_field_type`: a primitive or untyped field copies the value; an
   * object field with a registered or inline schema names an object value
   * by it; an array field with a registered element type names every
   * object element by it. A value of another shape is copied, and a type
   * that is neither registered nor (for objects) inline is an error.
   */
  function FieldTyped(v: DataValue, fd: FieldDef, defs: TypeDefs): (r: Result<DataValue>)
    ensures r.Err? ==> r.error.RsError? || r.error.RsPanic?
    decreases v, 2
  {
    match fd.kind
    case PrimitiveKind => Ok(v)
    case ObjectKind =>
      if fd.typeName.None? then Ok(v)
      else
        var t := fd.typeName.value;
        if t in defs then
          if v.Object? then
            var named :- NamedObject(v.items, defs[t], defs);
            Ok(Object(named))
          else Ok(v)
        else if Wrapped(t, '{', '}') then
          var inline :- FieldsOf(Inner(t));
          if v.Object? then
            var named :- NamedObject(v.items, inline, defs);
            Ok(Object(named))
          else Ok(v)
        else Err(RsError("Referenced type '" + t + "' not found"))
    case ArrayKind =>
      if fd.typeName.None? then Ok(v)
      else
        var t := fd.typeName.value;
        if t in defs then
          if v.Array? then
            var typed :- ElementsNamed(v.items, defs[t], 0, defs);
            Ok(Array(typed))
          else Ok(v)
        else Err(RsError("Referenced array element type '" + t + "' not found"))
  }

  /** The element loop of an array field from item `j`: objects are named by the element schema, anything else is copied. */
  function ElementsNamed(items: seq<DataValue>, fields: seq<FieldDef>, j: nat, defs: TypeDefs): (r: Result<seq<DataValue>>)
    requires j <= |items|
    ensures r.Ok? ==> |r.value| == |items| - j
    ensures r.Err? ==> r.error.RsError? || r.error.RsPanic?
    decreases items, 1, |items| - j
  {
    if j == |items| then Ok([])
    else if items[j].Object? then
      var named :- NamedObject(items[j].items, fields, defs);
      var rest :- ElementsNamed(items, fields, j + 1, defs);
      Ok([Object(named)] + rest)
    else
      var rest :- ElementsNamed(items, fields, j + 1, defs);
      Ok([items[j]] + rest)
  }

  // ---------------------------------------------------------------------
  // The loops, as they run
  // ---------------------------------------------------------------------

  /** `parse_array_items`: the items, then one `parse_data` per item, the first error returned. */
  method ParseArrayItems(content: string, defs: TypeDefs) returns (r: Result<seq<DataValue>>)
    ensures r == ArrayItemsOf(ItemTexts(content, false), 0, |content|, defs)
  {
    var texts := SplitArrayItems(content);
    r := ParseArrayTexts(texts, |content|, defs);
  }

  /** The item loop of `parse_array_items`, over the item texts. */
  method ParseArrayTexts(texts: seq<string>, bound: nat, defs: TypeDefs) returns (r: Result<seq<DataValue>>)
    requires Fits(texts, bound)
    ensures r == ArrayItemsOf(texts, 0, bound, defs)
  {
    var items: seq<DataValue> := [];
    for i := 0 to |texts|
      invariant Prefixed(items, ArrayItemsOf(texts, i, bound, defs)) == ArrayItemsOf(texts, 0, bound, defs)
    {
      var v :- DataOf(texts[i], defs);
      PrefixedStep(items, v, ArrayItemsOf(texts, i + 1, bound, defs));
      items := items + [v];
    }
    assert ArrayItemsOf(texts, |texts|, bound, defs) == Ok([]) && items + [] == items;
    r := Ok(items);
  }

  /** One more item of `parse_object_items`: its key and value, or its one value, then the rest. */
  lemma ObjectItemsStep(texts: seq<string>, i: nat, bound: nat, defs: TypeDefs)
    requires i < |texts| && Fits(texts, bound)
    ensures var item, c, rest := texts[i], FirstSimpleColon(texts[i]), ObjectItemsOf(texts, i + 1, bound, defs);
            c.Some? ==>
              var v := DataOf(Trim(item[c.value + 1..]), defs);
              ObjectItemsOf(texts, i, bound, defs) ==
                if v.Err? then Err(v.error)
                else if rest.Ok? then Ok([Primitive(Str(Trim(item[..c.value]))), v.value] + rest.value) else rest
    ensures var item, c, rest := texts[i], FirstSimpleColon(texts[i]), ObjectItemsOf(texts, i + 1, bound, defs);
            c.None? ==>
              var v := DataOf(item, defs);
              ObjectItemsOf(texts, i, bound, defs) ==
                if v.Err? then Err(v.error)
                else if rest.Ok? then Ok([v.value] + rest.value) else rest
  {
  }

  /** `parse_object_items`: the items, then a key and a value for a keyed item and one value otherwise. */
  method ParseObjectItems(content: string, defs: TypeDefs) returns (r: Result<seq<DataValue>>)
    ensures r == ObjectItemsOf(ItemTexts(content, true), 0, |content|, defs)
  {
    var texts := SplitObjectItems(content);
    r := ParseObjectTexts(texts, |content|, defs);
  }

  /** The item loop of `parse_object_items`, over the item texts. */
  method ParseObjectTexts(texts: seq<string>, bound: nat, defs: TypeDefs) returns (r: Result<seq<DataValue>>)
    requires Fits(texts, bound)
    ensures r == ObjectItemsOf(texts, 0, bound, defs)
  {
    var items: seq<DataValue> := [];
    for i := 0 to |texts|
      invariant Prefixed(items, ObjectItemsOf(texts, i, bound, defs)) == ObjectItemsOf(texts, 0, bound, defs)
    {
      items :- ObjectItemRound(texts, i, bound, defs, items);
    }
    assert ObjectItemsOf(texts, |texts|, bound, defs) == Ok([]) && items + [] == items;
    r := Ok(items);
  }

  /** One pass of the loop of `parse_object_items`: the item's key and value, or its one value, appended to `items`. */
  method ObjectItemRound(texts: seq<string>, i: nat, bound: nat, defs: TypeDefs, items: seq<DataValue>) returns (r: Result<seq<DataValue>>)
    requires i < |texts| && Fits(texts, bound)
    ensures r.Ok? ==> Prefixed(r.value, ObjectItemsOf(texts, i + 1, bound, defs)) == Prefixed(items, ObjectItemsOf(texts, i, bound, defs))
    ensures r.Err? ==> r == Prefixed(items, ObjectItemsOf(texts, i, bound, defs))
  {
    ObjectItemsStep(texts, i, bound, defs);
    ghost var rest := ObjectItemsOf(texts, i + 1, bound, defs);
    var item := texts[i];
    var colonPos := FindSimpleColon(item);
    if colonPos.Some? {
      var key := Trim(item[..colonPos.value]);
      var v :- DataOf(Trim(item[colonPos.value + 1..]), defs);
      PrefixedSteps(items, [Primitive(Str(key)), v], rest);
      r := Ok(items + [Primitive(Str(key)), v]);
    } else {
      var v :- DataOf(item, defs);
      PrefixedStep(items, v, rest);
      r := Ok(items + [v]);
    }
  }

  /** One more field of the naming: with an item left, its name and typed item, then the rest. */
  lemma NamedPairsStep(items: seq<DataValue>, fields: seq<FieldDef>, j: nat, defs: TypeDefs)
    requires j < |fields|
    ensures j >= |items| ==> NamedPairs(items, fields, j, defs) == NamedPairs(items, fields, j + 1, defs)
    ensures var rest := NamedPairs(items, fields, j + 1, defs);
            j < |items| ==>
              var tv := FieldTyped(items[j], fields[j], defs);
              NamedPairs(items, fields, j, defs) ==
                if tv.Err? then Err(tv.error)
                else if rest.Ok? then Ok([Primitive(Str(fields[j].name)), tv.value] + rest.value) else rest
  {
  }

  /** The named object made of the pairs the field loop gives. */
  lemma NamedObjectOfPairs(items: seq<DataValue>, fields: seq<FieldDef>, defs: TypeDefs)
    ensures NamedPairs(items, fields, 0, defs).Err? ==> NamedObject(items, fields, defs) == Err(NamedPairs(items, fields, 0, defs).error)
    ensures NamedPairs(items, fields, 0, defs).Ok? ==>
              NamedObject(items, fields, defs) == Ok(NamedPairs(items, fields, 0, defs).value + TrailingPairs(items, Min(|fields|, |items|)))
  {
  }

  /**
   * The naming loops of `parse_typed_value` and `apply_field_type`: one
   * pass over the fields with an item index, then the trailing pairs.
   */
  method NameFields(items: seq<DataValue>, fields: seq<FieldDef>, defs: TypeDefs) returns (r: Result<seq<DataValue>>)
    ensures r == NamedObject(items, fields, defs)
  {
    NamedObjectOfPairs(items, fields, defs);
    var named: seq<DataValue> := [];
    var itemIndex := 0;
    for j := 0 to |fields|
      invariant itemIndex == Min(j, |items|)
      invariant Prefixed(named, NamedPairs(items, fields, j, defs)) == NamedPairs(items, fields, 0, defs)
    {
      NamedPairsStep(items, fields, j, defs);
      if itemIndex < |items| {
        var typedValue :- FieldTyped(items[itemIndex], fields[j], defs);
        PrefixedSteps(named, [Primitive(Str(fields[j].name)), typedValue], NamedPairs(items, fields, j + 1, defs));
        named := named + [Primitive(Str(fields[j].name)), typedValue];
        itemIndex := itemIndex + 1;
      }
    }
    assert NamedPairs(items, fields, |fields|, defs) == Ok([]);
    assert named + [] == named;
    var trailing := CopyTrailingPairs(items, itemIndex);
    named := named + trailing;
    r := Ok(named);
  }

  /** The trailing loop of the naming: while a string is followed by another item, both are copied. */
  method CopyTrailingPairs(items: seq<DataValue>, start: nat) returns (trailing: seq<DataValue>)
    requires start <= |items|
    ensures trailing == TrailingPairs(items, start)
  {
    trailing := [];
    var itemIndex := start;
    while itemIndex + 1 < |items|
      invariant start <= itemIndex <= |items|
      invariant trailing + TrailingPairs(items, itemIndex) == TrailingPairs(items, start)
      decreases |items| - itemIndex
    {
      if IsStr(items[itemIndex]) {
        ghost var pair, rest := [items[itemIndex], items[itemIndex + 1]], TrailingPairs(items, itemIndex + 2);
        assert TrailingPairs(items, itemIndex) == pair + rest;
        Assoc(trailing, pair, rest);
        trailing := trailing + [items[itemIndex], items[itemIndex + 1]];
        itemIndex := itemIndex + 2;
      } else {
        break;
      }
    }
    assert TrailingPairs(items, itemIndex) == [] && trailing + [] == trailing;
  }

  /** The typed-array loop of `parse_typed_value`: every item must be an object, kept or named. */
  method TypeElements(items: seq<DataValue>, fields: seq<FieldDef>, defs: TypeDefs) returns (r: Result<seq<DataValue>>)
    ensures r == TypedElements(items, fields, 0, defs)
  {
    var typedItems: seq<DataValue> := [];
    for j := 0 to |items|
      invariant Prefixed(typedItems, TypedElements(items, fields, j, defs)) == TypedElements(items, fields, 0, defs)
    {
      var item := items[j];
      if !item.Object? {
        return Err(RsError(NotObjects));
      }
      var allPairs := CheckKeyValuePairs(item.items);
      var o: DataValue;
      if allPairs {
        o := Object(item.items);
      } else {
        var named :- NameFields(item.items, fields, defs);
        o := Object(named);
      }
      PrefixedStep(typedItems, o, TypedElements(items, fields, j + 1, defs));
      typedItems := typedItems + [o];
    }
    assert typedItems + [] == typedItems;
    r := Ok(typedItems);
  }
}
