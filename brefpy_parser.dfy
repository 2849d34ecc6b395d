/**
 * The string-segment parser of `bref-py/parser.py`: values are classified
 * from their stripped text, objects and arrays are cut into top-level
 * segments, and each segment may carry its own trailing `: Name` or
 * `: { fields }` override. A registered type maps segments to schema fields
 * by position; without one, `k: v` segments key by `k` and the others by
 * `field_<size>`. The only failure is Python's `int()`/`float()` refusing a
 * number-shaped text.
 */
module BrefPyParser {
  import opened Text
  import opened Base
  import opened PyData
  import opened Segments
  import opened Trailing
  import opened BrefPyDeclarations

  /** `iterate_segments(text)`: every top-level piece, stripped, blanks included. */
  function SegmentsOf(text: string): (segs: seq<string>)
    ensures |segs| >= 1
    ensures forall k :: 0 <= k < |segs| ==> |segs[k]| <= |text|
  {
    StripAll(Pieces(text, BracesAndBrackets))
  }

  /** The object key of the positional entry written when the dict holds `size` entries. */
  function PositionalKey(size: nat): string {
    "field_" + NatToString(size)
  }

  /** The type in force after a trailing annotation: a trailing type name replaces `t`. */
  function Effective(trailing: Trailing, t: string): string {
    if trailing.TypeName? then trailing.name else t
  }

  /** `null`, `true`, `false` in any letter case. */
  function Keyword(s: string): Option<PyValue> {
    if LowerStr(s) == "null" then Some(PNone)
    else if LowerStr(s) == "true" then Some(PBool(true))
    else if LowerStr(s) == "false" then Some(PBool(false))
    else None
  }

  /**
   * `parse_simple_value`: the classification chain without the nested
   * cases; a braced or bracketed text stays a string.
   */
  function SimpleValueOf(x: string): (r: Result<PyValue>)
    ensures r.Ok? ==> IsScalar(r.value)
    ensures r.Err? ==> r.error.BadNumber?
  {
    var s := Strip(x);
    if s == "" then Ok(PStr(""))
    else if Keyword(s).Some? then Ok(Keyword(s).value)
    else if Wrapped(s, '"', '"') then Ok(PStr(Inner(s)))
    else if NumberShaped(s) then PyNumber(s)
    else Ok(PStr(s))
  }

  /** A text wrapped in delimiters that are not whitespace is its own strip. */
  lemma WrappedIsStripped(o: string, open: char, close: char)
    requires Wrapped(o, open, close) && !IsPySpace(open) && !IsPySpace(close)
    ensures Strip(o) == o
  {
    StripNoEdges(o, Py);
  }

  /** Unwrapping the core of a text wrapped in two different non-space delimiters gives a shorter text. */
  lemma CoreShrinks(o: string, open: char, close: char)
    requires open != close && !IsPySpace(open) && !IsPySpace(close)
    ensures Wrapped(o, open, close) ==> |Unwrap(ExtractTrailingType(o).0, open, close)| < |o|
  {
    if Wrapped(o, open, close) {
      WrappedIsStripped(o, open, close);
      var core := ExtractTrailingType(o).0;
      if ExtractTrailingType(o).1.NoTrailing? {
        assert Strip(core) == o;
      }
    }
  }

  /** The same as `CoreShrinks` with no trailing type taken off first. */
  lemma UnwrapShrinks(o: string, open: char, close: char)
    requires open != close && !IsPySpace(open) && !IsPySpace(close)
    ensures Wrapped(o, open, close) ==> |Unwrap(o, open, close)| < |o|
  {
    if Wrapped(o, open, close) {
      WrappedIsStripped(o, open, close);
    }
  }

  /**
   * `parse_value` (and `parse_value_iterative`, whose body is the same):
   * the stripped text is tried as empty, a keyword, a quoted string, a
   * number, an identifier, then a braced object or a bracketed array, each
   * parsed with no type definitions; anything else stays a string.
   */
  function ValueOf(x: string): (r: Result<PyValue>)
    ensures r.Err? ==> r.error.BadNumber?
    decreases |x|, 5
  {
    var s := Strip(x);
    if s == "" then Ok(PStr(""))
    else if Keyword(s).Some? then Ok(Keyword(s).value)
    else if Wrapped(s, '"', '"') then Ok(PStr(Inner(s)))
    else if NumberShaped(s) then PyNumber(s)
    else if IdentifierShaped(s) then Ok(PStr(s))
    else if Wrapped(s, '{', '}') then
      var d :- ObjectOf(s, map[], "");
      Ok(PDict(d))
    else if Wrapped(s, '[', ']') then
      var a :- ArrayOf(s, map[], "");
      Ok(PList(a))
    else Ok(PStr(s))
  }

  /**
   * A segment with its trailing annotation taken off, as every loop does
   * before it reads the segment: the core and the override.
   */
  type Item = (string, Trailing)

  /**
   * The core of an item fits in `bound`, strictly when an annotation was
   * taken off: the measure the mutual recursion of the parsers decreases.
   */
  predicate Within(item: Item, bound: nat) {
    if item.1.NoTrailing? then |item.0| <= bound else |item.0| < bound
  }

  /** Every item fits `bound`. */
  predicate AllWithin(items: seq<Item>, bound: nat) {
    forall k :: 0 <= k < |items| ==> Within(items[k], bound)
  }

  /** Every segment with its annotation taken off, in order. */
  function Annotated(segs: seq<string>): (items: seq<Item>)
    ensures |items| == |segs|
  {
    seq(|segs|, k requires 0 <= k < |segs| => ExtractTrailingType(segs[k]))
  }

  /** Taking an annotation off a segment leaves a core within the segment's length. */
  lemma ExtractWithin(seg: string, bound: nat)
    requires |seg| <= bound
    ensures Within(ExtractTrailingType(seg), bound)
  {
  }

  lemma AnnotatedWithin(segs: seq<string>, bound: nat)
    requires forall k :: 0 <= k < |segs| ==> |segs[k]| <= bound
    ensures AllWithin(Annotated(segs), bound)
  {
    forall k | 0 <= k < |segs| ensures Within(Annotated(segs)[k], bound) {
      ExtractWithin(segs[k], bound);
    }
  }

  /**
   * `parse_object(o, type_defs, current_type)`, with `""` for no current
   * type: a trailing inline schema hands the core to the schema reader, a
   * trailing type name replaces the current type; the braces are taken off
   * and the segments are mapped by the registered schema or read as entries.
   */
  function ObjectOf(o: string, defs: Defs, ct: string): (r: Result<Dict>)
    ensures r.Err? ==> r.error.BadNumber?
    decreases |o|, if Wrapped(o, '{', '}') then 0 else 10
  {
    var e := ExtractTrailingType(o);
    var core, trailing := e.0, e.1;
    if trailing.Inline? then
      WithSchemaOf(core, trailing.fields, defs)
    else
      var t := Effective(trailing, ct);
      var inner := Unwrap(core, '{', '}');
      CoreShrinks(o, '{', '}');
      var segs := SegmentsOf(inner);
      AnnotatedWithin(segs, |inner|);
      if t != "" && t in defs then FillPlan(defs[t], TypedPlan(|defs[t]|, 0, segs, 0, 0), Annotated(segs), [], defs, |inner|)
      else UntypedFill(segs, Annotated(segs), 0, [], defs, |inner|)
  }

  /**
   * `parse_array(a, type_defs, element_type)`: a trailing type name on the
   * whole array replaces the element type (a trailing inline schema is
   * dropped); the brackets are taken off and every non-empty segment gives
   * one element.
   */
  function ArrayOf(a: string, defs: Defs, et: string): (r: Result<seq<PyValue>>)
    ensures r.Err? ==> r.error.BadNumber?
    decreases |a|, if Wrapped(a, '[', ']') then 0 else 10
  {
    var e := ExtractTrailingType(a);
    var core, trailing := e.0, e.1;
    var t := Effective(trailing, et);
    var inner := Unwrap(core, '[', ']');
    CoreShrinks(a, '[', ']');
    var segs := SegmentsOf(inner);
    AnnotatedWithin(segs, |inner|);
    ArrayFill(segs, Annotated(segs), 0, t, defs, |inner|)
  }

  /** `parse_object_with_schema(o, schema, type_defs)`: the braces are taken off and segment k fills field k. */
  function WithSchemaOf(o: string, schema: Schema, defs: Defs): (r: Result<Dict>)
    ensures r.Err? ==> r.error.BadNumber?
    decreases |o|, if Wrapped(o, '{', '}') then 0 else 10
  {
    var inner := Unwrap(o, '{', '}');
    UnwrapShrinks(o, '{', '}');
    var segs := SegmentsOf(inner);
    AnnotatedWithin(segs, |inner|);
    FillPlan(schema, SchemaPlan(|schema|, segs, 0), Annotated(segs), [], defs, |inner|)
  }

  /**
   * The blank-skipping `while` of the typed loop, from the segment at
   * `pos` with `field_index` at `index`: each blank segment bumps the index
   * and pulls the next one, until a non-blank segment, the index reaching
   * `n`, or no segment left (the index is still bumped and the blank one
   * stays current). The position of the current segment and the index.
   */
  function SkipBlank(segs: seq<string>, pos: nat, index: nat, n: nat): (r: (nat, nat))
    requires pos < |segs|
    ensures pos <= r.0 < |segs|
    decreases |segs| - pos
  {
    if Strip(segs[pos]) == "" && index < n then
      if pos + 1 == |segs| then (pos, index + 1) else SkipBlank(segs, pos + 1, index + 1, n)
    else (pos, index)
  }

  /**
   * Which segment fills which field, in the order the fields are written:
   * pairs of a field index and a segment position. The two schema-driven
   * loops differ only in how they pair fields with segments; the values
   * are then read the same way.
   */
  type Plan = seq<(nat, nat)>

  /** Every pair names one of `fields` schema fields and one of `count` segments. */
  predicate Fits(plan: Plan, fields: nat, count: nat) {
    forall k :: 0 <= k < |plan| ==> plan[k].0 < fields && plan[k].1 < count
  }

  /**
   * The pairing of the typed loop of `parse_object` for a schema of `n`
   * fields, from field `i` with the next segment at `next` and
   * `field_index` at `index`: each field pulls the next segment and skips
   * blanks; a field whose segment is still blank is left out, and the
   * fields left when no segment is left are left out too.
   */
  function TypedPlan(n: nat, i: nat, segs: seq<string>, next: nat, index: nat): (plan: Plan)
    requires i <= n && next <= |segs|
    ensures forall k :: 0 <= k < |plan| ==> i <= plan[k].0 < n && next <= plan[k].1 < |segs|
    decreases n - i
  {
    if i == n || next == |segs| then []
    else
      var s := SkipBlank(segs, next, index, n);
      if Strip(segs[s.0]) == "" then TypedPlan(n, i + 1, segs, s.0 + 1, s.1)
      else [(i, s.0)] + TypedPlan(n, i + 1, segs, s.0 + 1, s.1 + 1)
  }

  /**
   * The pairing of `parse_object_with_schema` for a schema of `n` fields,
   * from field `i`: field k takes segment k while both last, and a blank
   * segment leaves its field out.
   */
  function SchemaPlan(n: nat, segs: seq<string>, i: nat): (plan: Plan)
    requires i <= n
    ensures forall k :: 0 <= k < |plan| ==> i <= plan[k].0 < n && plan[k].1 == plan[k].0 < |segs|
    decreases n - i
  {
    if i == n || i >= |segs| then []
    else if Strip(segs[i]) == "" then SchemaPlan(n, segs, i + 1)
    else [(i, i)] + SchemaPlan(n, segs, i + 1)
  }

  /** The fields of a plan, read in order and written into `acc`; the first value that fails fails the object. */
  function FillPlan(schema: Schema, plan: Plan, items: seq<Item>, acc: Dict, defs: Defs, bound: nat): (r: Result<Dict>)
    requires Fits(plan, |schema|, |items|)
    requires AllWithin(items, bound)
    ensures r.Err? ==> r.error.BadNumber?
    decreases bound, 9, |plan|
  {
    if plan == [] then Ok(acc)
    else
      var f, p := plan[0].0, plan[0].1;
      var v :- FieldValueOf(schema[f], items[p], defs, bound);
      FillPlan(schema, plan[1..], items, Put(acc, FieldKey(schema[f]), v), defs, bound)
  }

  /**
   * The value of one schema field from its segment, shared by the typed
   * loop and the schema reader: the segment's own override, then the
   * field's declared type for a braced (object field) or bracketed (array
   * field) core, else the plain value.
   */
  function FieldValueOf(field: SchemaField, item: Item, defs: Defs, bound: nat): (r: Result<PyValue>)
    requires Within(item, bound)
    ensures r.Err? ==> r.error.BadNumber?
    decreases bound, 8
  {
    var core, ov := item.0, item.1;
    match field
    case Name(_) => ValueOf(core)
    case Ref(_, t, ObjectRef) =>
      if ov.Inline? then
        var d :- WithSchemaOf(core, ov.fields, defs);
        Ok(PDict(d))
      else if ov.TypeName? then
        var d :- ObjectOf(core, defs, ov.name);
        Ok(PDict(d))
      else if Wrapped(core, '{', '}') then
        var d :- ObjectOf(core, defs, t);
        Ok(PDict(d))
      else ValueOf(core)
    case Ref(_, t, ArrayRef) =>
      if Wrapped(core, '[', ']') then
        var a :- ArrayOf(core, defs, Effective(ov, t));
        Ok(PList(a))
      else ValueOf(core)
  }

  /** The untyped loop of `parse_object`: blank segments are skipped, the others written as entries in order. */
  function UntypedFill(segs: seq<string>, items: seq<Item>, i: nat, acc: Dict, defs: Defs, bound: nat): (r: Result<Dict>)
    requires i <= |segs| == |items|
    requires AllWithin(items, bound)
    ensures r.Err? ==> r.error.BadNumber?
    decreases bound, 9, |segs| - i
  {
    if i == |segs| then Ok(acc)
    else if Strip(segs[i]) == "" then UntypedFill(segs, items, i + 1, acc, defs, bound)
    else
      var kv :- EntryOf(items[i], |acc|, defs, bound);
      UntypedFill(segs, items, i + 1, Put(acc, kv.0, kv.1), defs, bound)
  }

  /**
   * One entry of an untyped object, written when the dict holds `size`
   * entries: a core with a ':' that does not start with '"' is split at
   * its first ':' into a stripped key and a value (the override applies
   * only when the value starts with '{'); any other core is a positional
   * value under `field_<size>`.
   */
  function EntryOf(item: Item, size: nat, defs: Defs, bound: nat): (r: Result<(string, PyValue)>)
    requires Within(item, bound)
    ensures r.Err? ==> r.error.BadNumber?
    decreases bound, 8
  {
    var core, ov := item.0, item.1;
    if ':' in core && !BeginsWith(core, '"') then
      var c := IndexOf(core, ':');
      var key, value := Strip(core[..c]), core[c + 1..];
      if ov.Inline? && BeginsWith(Strip(value), '{') then
        var d :- WithSchemaOf(value, ov.fields, defs);
        Ok((key, PDict(d)))
      else if ov.TypeName? && BeginsWith(Strip(value), '{') then
        var d :- ObjectOf(value, defs, ov.name);
        Ok((key, PDict(d)))
      else
        var v :- ValueOf(value);
        Ok((key, v))
    else
      var v :- ValueOf(core);
      Ok((PositionalKey(size), v))
  }

  /** The loop of `parse_array` from segment `i`: empty segments are skipped, the others give one element each. */
  function ArrayFill(segs: seq<string>, items: seq<Item>, i: nat, et: string, defs: Defs, bound: nat): (r: Result<seq<PyValue>>)
    requires i <= |segs| == |items|
    requires AllWithin(items, bound)
    ensures r.Err? ==> r.error.BadNumber?
    decreases bound, 9, |segs| - i
  {
    if i == |segs| then Ok([])
    else if segs[i] == "" then ArrayFill(segs, items, i + 1, et, defs, bound)
    else
      var v :- ElementOf(items[i], et, defs, bound);
      var rest :- ArrayFill(segs, items, i + 1, et, defs, bound);
      Ok([v] + rest)
  }

  /**
   * One array element: the element's own override applies to a core
   * starting with '{'; otherwise a braced or bracketed core is parsed with
   * the element type when it is registered (with none when not), and
   * anything else is a plain value.
   */
  function ElementOf(item: Item, et: string, defs: Defs, bound: nat): (r: Result<PyValue>)
    requires Within(item, bound)
    ensures r.Err? ==> r.error.BadNumber?
    decreases bound, 8
  {
    var core, ov := item.0, item.1;
    if ov.Inline? && BeginsWith(core, '{') then
      var d :- WithSchemaOf(core, ov.fields, defs);
      Ok(PDict(d))
    else if ov.TypeName? && BeginsWith(core, '{') then
      var d :- ObjectOf(core, defs, ov.name);
      Ok(PDict(d))
    else
      var t := if et != "" && et in defs then et else "";
      if Wrapped(core, '{', '}') then
        var d :- ObjectOf(core, defs, t);
        Ok(PDict(d))
      else if Wrapped(core, '[', ']') then
        var a :- ArrayOf(core, defs, t);
        Ok(PList(a))
      else ValueOf(core)
  }

  /** `parse_data_with_type`: an unregistered type is a `ValueError`; a bracketed text is an array, anything else an object. */
  function DataWithTypeOf(data: string, typeName: string, defs: Defs): (r: Result<PyValue>)
    ensures r == Err(TypeNotFound(typeName)) <==> typeName !in defs
    ensures r.Err? && typeName in defs ==> r.error.BadNumber?
  {
    if typeName !in defs then Err(TypeNotFound(typeName))
    else if Wrapped(Strip(data), '[', ']') then
      var a :- ArrayOf(data, defs, typeName);
      Ok(PList(a))
    else
      var d :- ObjectOf(data, defs, typeName);
      Ok(PDict(d))
  }

  /**
   * `iterate_segments(text)`: the character buffer, the one nesting
   * counter for braces and brackets, and a stripped segment at every
   * comma read at depth zero; the last segment is the stripped buffer, or
   * `""` when the text ends right after a cut.
   */
  method IterateSegments(text: string) returns (segs: seq<string>)
    ensures segs == SegmentsOf(text)
  {
    var n := BracesAndBrackets;
    var buf, depth, i := "", 0, 0;
    segs := [];
    while i < |text|
      invariant 0 <= i <= |text|
      invariant segs + StripAll(PiecesFrom(text, i, buf, depth, n)) == SegmentsOf(text)
    {
      var c := text[i];
      PiecesFromStep(text, i, buf, depth, n);
      ghost var depth', buf' := NextDepth(c, depth, n), buf + [c];
      if c == '{' || c == '[' {
        depth := depth + 1;
      } else if c == ']' || c == '}' {
        depth := depth - 1;
      } else if c == ',' && depth == 0 {
        var rest := PiecesFrom(text, i + 1, "", depth, n);
        StripAllCons(buf, rest);
        Assoc(segs, [Strip(buf)], StripAll(rest));
        segs := segs + [Strip(buf)];
        buf := "";
        i := i + 1;
        continue;
      }
      buf := buf + [c];
      assert depth == depth' && buf == buf';
      i := i + 1;
    }
    if buf != [] {
      segs := segs + [Strip(buf)];
    } else {
      segs := segs + [""];
    }
  }

  /**
   * `split_by_delimiters(text)`: the same scan, keeping only the segments
   * that are not blank once stripped.
   */
  method SplitByDelimiters(text: string) returns (parts: seq<string>)
    ensures parts == NonEmpty(SegmentsOf(text))
  {
    var n := BracesAndBrackets;
    var buf, depth, i := "", 0, 0;
    parts := [];
    while i < |text|
      invariant 0 <= i <= |text|
      invariant parts + NonEmpty(StripAll(PiecesFrom(text, i, buf, depth, n))) == NonEmpty(SegmentsOf(text))
    {
      var c := text[i];
      PiecesFromStep(text, i, buf, depth, n);
      ghost var depth', buf' := NextDepth(c, depth, n), buf + [c];
      if c == '{' || c == '[' {
        depth := depth + 1;
      } else if c == ']' || c == '}' {
        depth := depth - 1;
      } else if c == ',' && depth == 0 {
        var rest := NonEmpty(StripAll(PiecesFrom(text, i + 1, "", 0, n)));
        KeptAtCut(text, i, buf, n);
        assert depth == 0;
        if buf != [] {
          var segment := Strip(buf);
          if segment != [] {
            Assoc(parts, [segment], rest);
            parts := parts + [segment];
          }
        } else {
          assert Strip(buf) == [];
        }
        buf := "";
        i := i + 1;
        continue;
      }
      buf := buf + [c];
      assert depth == depth' && buf == buf';
      i := i + 1;
    }
    NonEmptyCons(Strip(buf), []);
    if buf != [] {
      var segment := Strip(buf);
      if segment != [] {
        parts := parts + [segment];
      }
    }
  }

  /** At a cut, the non-blank segments still ahead are the stripped buffer, when it is not blank, then those after the cut. */
  lemma KeptAtCut(text: string, i: nat, buf: string, n: Nesting)
    requires i < |text| && text[i] == ','
    ensures Strip(buf) == [] ==> NonEmpty(StripAll(PiecesFrom(text, i, buf, 0, n))) == NonEmpty(StripAll(PiecesFrom(text, i + 1, "", 0, n)))
    ensures Strip(buf) != [] ==> NonEmpty(StripAll(PiecesFrom(text, i, buf, 0, n))) == [Strip(buf)] + NonEmpty(StripAll(PiecesFrom(text, i + 1, "", 0, n)))
  {
    var rest := PiecesFrom(text, i + 1, "", 0, n);
    PiecesFromStep(text, i, buf, 0, n);
    StripAllCons(buf, rest);
    NonEmptyCons(Strip(buf), StripAll(rest));
    assert [] + NonEmpty(StripAll(rest)) == NonEmpty(StripAll(rest));
  }

  /** The three kinds of work item on the stack of `parse_nested_iterative`. */
  datatype Task = ValueTask | ObjectTask | ArrayTask

  /**
   * `parse_nested_iterative(value_str)`: a work stack seeded with the
   * whole text as a value item. A value item is read by
   * `parse_simple_value`, which never returns a dict or a list, so the
   * object and array items are never pushed and the result is the simple
   * value of the text.
   */
  method ParseNestedIterative(valueStr: string) returns (r: Result<PyValue>)
    ensures r == SimpleValueOf(valueStr)
  {
    var stack: seq<(string, Task)> := [(valueStr, ValueTask)];
    var results: seq<PyValue> := [];
    while stack != []
      invariant stack == [] ==> SimpleValueOf(valueStr).Ok? && results == [SimpleValueOf(valueStr).value]
      invariant stack != [] ==> stack == [(valueStr, ValueTask)] && results == []
      decreases |stack|
    {
      var top := stack[|stack| - 1];
      stack := stack[..|stack| - 1];
      match top.1
      case ValueTask =>
        var result :- SimpleValueOf(top.0);
        if result.PDict? || result.PList? {
          assert false;
        } else {
          results := results + [result];
        }
      case ObjectTask =>
        assert false;
      case ArrayTask =>
        assert false;
    }
    r := Ok(if results != [] then results[|results| - 1] else PStr(valueStr));
  }

  /**
   * `parse_object`, as its statements run: the trailing annotation, the
   * braces, the segments, then the typed or the untyped loop.
   */
  method ParseObject(o: string, defs: Defs, ct: string) returns (r: Result<Dict>)
    ensures r == ObjectOf(o, defs, ct)
  {
    var e := ExtractTrailingType(o);
    var core, trailing := e.0, e.1;
    var inner := Unwrap(core, '{', '}');
    if trailing.Inline? {
      r := ParseObjectWithSchema(core, trailing.fields, defs);
      return;
    }
    var t := Effective(trailing, ct);
    var segs := IterateSegments(inner);
    AnnotatedWithin(segs, |inner|);
    if t != "" && t in defs {
      r := TypedLoop(defs[t], segs, defs, |inner|);
    } else {
      r := UntypedLoop(segs, defs, |inner|);
    }
  }

  /**
   * The blank-skipping `while` of the typed loop, from the current segment
   * at `pos`: the position of the segment it stops on, the index, and the
   * position of the next segment to pull.
   */
  method SkipBlanks(segs: seq<string>, pos: nat, index: nat, n: nat) returns (pos': nat, index': nat, next: nat)
    requires pos < |segs|
    ensures (pos', index') == SkipBlank(segs, pos, index, n)
    ensures next == pos' + 1
  {
    pos', index', next := pos, index, pos + 1;
    while Strip(segs[pos']) == "" && index' < n
      invariant pos' < |segs| && next == pos' + 1
      invariant SkipBlank(segs, pos', index', n) == SkipBlank(segs, pos, index, n)
      decreases |segs| - pos'
    {
      index' := index' + 1;
      if next == |segs| {
        return;
      }
      pos' := next;
      next := next + 1;
    }
  }

  /** A field whose segment is still blank after skipping is left out of the pairing. */
  lemma TypedPlanBlank(n: nat, i: nat, segs: seq<string>, next: nat, index: nat, pos: nat, index': nat)
    requires i < n && next < |segs|
    requires (pos, index') == SkipBlank(segs, next, index, n) && Strip(segs[pos]) == ""
    ensures TypedPlan(n, i, segs, next, index) == TypedPlan(n, i + 1, segs, pos + 1, index')
  {
  }

  /** A field whose segment is not blank is paired with it. */
  lemma TypedPlanFilled(n: nat, i: nat, segs: seq<string>, next: nat, index: nat, pos: nat, index': nat)
    requires i < n && next < |segs|
    requires (pos, index') == SkipBlank(segs, next, index, n) && Strip(segs[pos]) != ""
    ensures TypedPlan(n, i, segs, next, index) == [(i, pos)] + TypedPlan(n, i + 1, segs, pos + 1, index' + 1)
  {
  }

  /** Reading the first pair of a plan: its value fails the object, or is written before the rest. */
  lemma FillPlanCons(schema: Schema, f: nat, p: nat, rest: Plan, items: seq<Item>, acc: Dict, defs: Defs, bound: nat)
    requires f < |schema| && p < |items| && Fits(rest, |schema|, |items|)
    requires AllWithin(items, bound)
    ensures FieldValueOf(schema[f], items[p], defs, bound).Err? ==>
      FillPlan(schema, [(f, p)] + rest, items, acc, defs, bound) == Err(FieldValueOf(schema[f], items[p], defs, bound).error)
    ensures FieldValueOf(schema[f], items[p], defs, bound).Ok? ==>
      FillPlan(schema, [(f, p)] + rest, items, acc, defs, bound)
      == FillPlan(schema, rest, items, Put(acc, FieldKey(schema[f]), FieldValueOf(schema[f], items[p], defs, bound).value), defs, bound)
  {
    assert ([(f, p)] + rest)[1..] == rest;
  }

  /**
   * Field `i` reads the segment at `pos`, as both schema-driven loops do:
   * the annotation is taken off, and the value is written under the
   * field's key or its error ends the loop. `rest` is the pairing still
   * ahead.
   */
  method WriteField(schema: Schema, i: nat, segs: seq<string>, pos: nat, result: Dict, defs: Defs, bound: nat, ghost rest: Plan)
    returns (r: Result<Dict>)
    requires i < |schema| && pos < |segs| && Fits(rest, |schema|, |segs|)
    requires AllWithin(Annotated(segs), bound)
    ensures r.Ok? ==>
      FillPlan(schema, [(i, pos)] + rest, Annotated(segs), result, defs, bound)
      == FillPlan(schema, rest, Annotated(segs), r.value, defs, bound)
    ensures r.Err? ==> r == FillPlan(schema, [(i, pos)] + rest, Annotated(segs), result, defs, bound)
  {
    var item := ExtractTrailingType(segs[pos]);
    FillPlanCons(schema, i, pos, rest, Annotated(segs), result, defs, bound);
    var v := FieldValueOf(schema[i], item, defs, bound);
    if v.Err? {
      return Err(v.error);
    }
    r := Ok(Put(result, FieldKey(schema[i]), v.value));
  }

  /**
   * One round of the typed loop, for field `i` with a segment left at
   * `next`: blank segments are skipped, and a segment that is not blank
   * writes the field's value under its key. The dict, the position of the
   * next segment, and `field_index`.
   */
  method TypedRound(schema: Schema, segs: seq<string>, defs: Defs, bound: nat, i: nat, next: nat, index: nat, result: Dict)
    returns (r: Result<Dict>, next': nat, index': nat)
    requires i < |schema| && next < |segs|
    requires AllWithin(Annotated(segs), bound)
    ensures next' <= |segs|
    ensures r.Ok? ==>
      FillPlan(schema, TypedPlan(|schema|, i + 1, segs, next', index'), Annotated(segs), r.value, defs, bound)
      == FillPlan(schema, TypedPlan(|schema|, i, segs, next, index), Annotated(segs), result, defs, bound)
    ensures r.Err? ==> r == FillPlan(schema, TypedPlan(|schema|, i, segs, next, index), Annotated(segs), result, defs, bound)
  {
    var pos;
    pos, index', next' := SkipBlanks(segs, next, index, |schema|);
    if Strip(segs[pos]) == "" {
      TypedPlanBlank(|schema|, i, segs, next, index, pos, index');
      return Ok(result), next', index';
    }
    TypedPlanFilled(|schema|, i, segs, next, index, pos, index');
    r := WriteField(schema, i, segs, pos, result, defs, bound, TypedPlan(|schema|, i + 1, segs, pos + 1, index' + 1));
    index' := index' + 1;
  }

  /**
   * The typed loop of `parse_object`: for each field the next segment is
   * pulled (the loop ends when none is left), blank segments are skipped
   * while `field_index` is below the schema length, and a field whose
   * segment is still blank is left unset.
   */
  method TypedLoop(schema: Schema, segs: seq<string>, defs: Defs, bound: nat) returns (r: Result<Dict>)
    requires AllWithin(Annotated(segs), bound)
    ensures r == FillPlan(schema, TypedPlan(|schema|, 0, segs, 0, 0), Annotated(segs), [], defs, bound)
  {
    ghost var goal := FillPlan(schema, TypedPlan(|schema|, 0, segs, 0, 0), Annotated(segs), [], defs, bound);
    var result: Dict := [];
    var next: nat, index: nat, i: nat := 0, 0, 0;
    while i < |schema|
      invariant i <= |schema| && next <= |segs|
      invariant FillPlan(schema, TypedPlan(|schema|, i, segs, next, index), Annotated(segs), result, defs, bound) == goal
    {
      if next == |segs| {
        break;
      }
      var step;
      step, next, index := TypedRound(schema, segs, defs, bound, i, next, index, result);
      if step.Err? {
        return step;
      }
      result := step.value;
      i := i + 1;
    }
    r := Ok(result);
  }

  /** The untyped loop of `parse_object`: blank segments are skipped, each other one writes its entry. */
  method UntypedLoop(segs: seq<string>, defs: Defs, bound: nat) returns (r: Result<Dict>)
    requires AllWithin(Annotated(segs), bound)
    ensures r == UntypedFill(segs, Annotated(segs), 0, [], defs, bound)
  {
    ghost var items := Annotated(segs);
    var result: Dict := [];
    for i := 0 to |segs|
      invariant UntypedFill(segs, items, i, result, defs, bound) == UntypedFill(segs, items, 0, [], defs, bound)
    {
      if Strip(segs[i]) == "" {
        continue;
      }
      var item := ExtractTrailingType(segs[i]);
      var kv :- EntryOf(item, |result|, defs, bound);
      result := Put(result, kv.0, kv.1);
    }
    r := Ok(result);
  }

  /** `parse_array`, as its statements run: the trailing annotation, the brackets, then one element per non-empty segment. */
  method ParseArray(a: string, defs: Defs, et: string) returns (r: Result<seq<PyValue>>)
    ensures r == ArrayOf(a, defs, et)
  {
    var e := ExtractTrailingType(a);
    var core, trailing := e.0, e.1;
    var inner := Unwrap(core, '[', ']');
    var t := Effective(trailing, et);
    var segs := IterateSegments(inner);
    var bound := |inner|;
    AnnotatedWithin(segs, bound);
    ghost var items := Annotated(segs);
    var result: seq<PyValue> := [];
    for i := 0 to |segs|
      invariant Prefixed(result, ArrayFill(segs, items, i, t, defs, bound)) == ArrayFill(segs, items, 0, t, defs, bound)
    {
      if segs[i] == "" {
        continue;
      }
      var item := ExtractTrailingType(segs[i]);
      var v :- ElementOf(item, t, defs, bound);
      PrefixedStep(result, v, ArrayFill(segs, items, i + 1, t, defs, bound));
      result := result + [v];
    }
    assert result + [] == result;
    r := Ok(result);
  }

  /** `parse_object_with_schema`, as its statements run: field k takes segment k until the segments run out. */
  method ParseObjectWithSchema(o: string, schema: Schema, defs: Defs) returns (r: Result<Dict>)
    ensures r == WithSchemaOf(o, schema, defs)
  {
    var inner := Unwrap(o, '{', '}');
    var segs := IterateSegments(inner);
    var bound := |inner|;
    AnnotatedWithin(segs, bound);
    ghost var items := Annotated(segs);
    ghost var goal := FillPlan(schema, SchemaPlan(|schema|, segs, 0), items, [], defs, bound);
    var result: Dict := [];
    for i := 0 to |schema|
      invariant FillPlan(schema, SchemaPlan(|schema|, segs, i), items, result, defs, bound) == goal
    {
      if i >= |segs| {
        break;
      }
      if Strip(segs[i]) == "" {
        continue;
      }
      var step := WriteField(schema, i, segs, i, result, defs, bound, SchemaPlan(|schema|, segs, i + 1));
      if step.Err? {
        return step;
      }
      result := step.value;
    }
    r := Ok(result);
  }
}
