/**
 * The materializer of the AST engine (bref-2/materializer.py): it turns a
 * parsed node into a Python value, reading each brace list against the
 * schema its annotation (or the surrounding field) names.
 *
 * `build` and `_resolve_schema` are recursion over nodes and are given as
 * functions. The three helpers that fill a result dict in loops are given
 * twice: as functions that say what the loop computes (the spec the rest of
 * the model reads), and as methods that run the loops as the source does.
 *
 * Two recursions do not follow the node tree: a value list whose element
 * names another value list, and default objects built through type
 * references. Both can run forever on cyclic declarations, where Python
 * stops with `RecursionError`; the budget `fuel` bounds them here and its
 * exhaustion is `Err(RecursionLimit)`.
 */
module Bref2Materializer {
  import opened Base
  import opened PyData
  import opened Bref2Utils
  import opened Ast

  /** The declarations a materializer reads: schemas and value lists, by name. */
  datatype Materializer = Materializer(typeDefs: map<string, Schema>, valueDefs: map<string, seq<PyValue>>)

  /**
   * What `build` is told to expect: nothing (`None`), a type annotation (a
   * name or an inline schema), or a field payload that is a literal, which
   * `_resolve_schema` looks up as a name and never finds.
   */
  datatype Expect = NoType | TypeOf(ann: TypeAnn) | LiteralType(lit: PyValue)

  /** The payloads `isinstance(sub_t, (bool, int, float, type(None)))` accepts. */
  predicate IsLiteral(v: PyValue) {
    v.PBool? || v.PInt? || v.PFloat? || v.PNone?
  }

  /** A field payload handed to `build` as the expected type. */
  function PayloadExpect(f: Field): (e: Expect)
    requires !f.Bare?
  {
    if f.Nested? then TypeOf(Inline(f.schema))
    else if f.payload.PStr? then TypeOf(Named(f.payload.s))
    else if f.payload.PNone? then NoType
    else LiteralType(f.payload)
  }

  /** The node's own annotation when it has one, else the inherited type. */
  function Effective(n: Node, e: Expect): Expect {
    if AnnOf(n).Some? then TypeOf(AnnOf(n).value) else e
  }

  /** `_resolve_schema`. */
  function Resolve(m: Materializer, e: Expect): (r: Result<Schema>)
  {
    match e
    case TypeOf(Inline(schema)) => Ok(schema)
    case TypeOf(Named(name)) => if name in m.typeDefs then Ok(m.typeDefs[name]) else Err(UnknownType(name))
    case _ => Err(LiteralAsType)
  }

  /** `[item for item in items if item.kind == "key_value"]`. */
  function KeyValueItems(items: seq<Node>): (kvs: seq<Node>)
    ensures forall k :: 0 <= k < |kvs| ==> kvs[k].KeyValue?
    ensures ItemsSize(kvs) <= ItemsSize(items)
  {
    if items == [] then []
    else
      var rest := KeyValueItems(items[1..]);
      if items[0].KeyValue? then
        assert ([items[0]] + rest)[1..] == rest;
        [items[0]] + rest
      else rest
  }

  /** `[item for item in items if item.kind != "key_value"]`. */
  function PositionalItems(items: seq<Node>): (pos: seq<Node>)
    ensures forall k :: 0 <= k < |pos| ==> !pos[k].KeyValue?
    ensures ItemsSize(pos) <= ItemsSize(items)
  {
    if items == [] then []
    else
      var rest := PositionalItems(items[1..]);
      if !items[0].KeyValue? then
        assert ([items[0]] + rest)[1..] == rest;
        [items[0]] + rest
      else rest
  }

  /** `build(node, expected_type)`. */
  function Build(m: Materializer, n: Node, e: Expect, fuel: nat): (r: Result<PyValue>)
    decreases fuel, Size(n), 0, 0
  {
    match n
    case Prim(v) =>
      if v.PStr? && v.s in m.valueDefs then
        var values := m.valueDefs[v.s];
        if e.NoType? then Ok(PList(values))
        else
          var schema :- Resolve(m, e);
          if fuel == 0 then Err(RecursionLimit)
          else
            var d :- MapValueList(m, values, schema, 0, [], fuel - 1);
            Ok(PDict(d))
      else Ok(v)
    case Array(items, _) =>
      var vs :- BuildAll(m, items, Effective(n, e), fuel);
      Ok(PList(vs))
    case List(items, _) =>
      if Effective(n, e).NoType? then
        var vs :- BuildAll(m, items, NoType, fuel);
        Ok(PList(vs))
      else
        var schema :- Resolve(m, Effective(n, e));
        var d :- MapList(m, items, schema, fuel);
        Ok(PDict(d))
    case _ => Err(UnknownNodeKind)
  }

  /** `[self.build(child, t) for child in items]`. */
  function BuildAll(m: Materializer, items: seq<Node>, e: Expect, fuel: nat): (r: Result<seq<PyValue>>)
    ensures r.Ok? ==> |r.value| == |items|
    decreases fuel, ItemsSize(items), 1, 0
  {
    if items == [] then Ok([])
    else
      var v :- Build(m, items[0], e, fuel);
      var rest :- BuildAll(m, items[1..], e, fuel);
      Ok([v] + rest)
  }

  /** `_map_list_to_object(items, schema)`. */
  function MapList(m: Materializer, items: seq<Node>, schema: Schema, fuel: nat): (r: Result<Dict>)
    decreases fuel, ItemsSize(items) + 1, 3, 0
  {
    var kvs := KeyValueItems(items);
    var pos := PositionalItems(items);
    assert kvs[0..] == kvs && pos[0..] == pos;
    var afterKeys :- KeyValuesFrom(m, kvs, 0, [], fuel);
    if kvs != [] && pos == [] then Ok(afterKeys)
    else
      var afterPos :- PositionalFrom(m, pos, 0, schema, afterKeys, fuel);
      var afterTrail := TrailingFrom(m, schema, if |pos| < |schema| then |pos| else |schema|, afterPos);
      FinalFrom(m, schema, 0, afterTrail, fuel)
  }

  /** The loop over the key/value items from the k-th on: `result[key] = build(value, None)`. */
  function KeyValuesFrom(m: Materializer, kvs: seq<Node>, k: nat, acc: Dict, fuel: nat): (r: Result<Dict>)
    requires k <= |kvs| && forall j :: 0 <= j < |kvs| ==> kvs[j].KeyValue?
    decreases fuel, ItemsSize(kvs[k..]), 1, 0
  {
    if k == |kvs| then Ok(acc)
    else
      assert kvs[k..][0] == kvs[k] && kvs[k..][1..] == kvs[k + 1..];
      var v :- Build(m, kvs[k].item, NoType, fuel);
      KeyValuesFrom(m, kvs, k + 1, Put(acc, kvs[k].key, v), fuel)
  }

  /**
   * The loop over the positional items from the k-th on: while the schema
   * lasts, item k fills field k; later items are passed over.
   */
  function PositionalFrom(m: Materializer, pos: seq<Node>, k: nat, schema: Schema, acc: Dict, fuel: nat): (r: Result<Dict>)
    requires k <= |pos|
    decreases fuel, ItemsSize(pos[k..]), 2, 0
  {
    if k == |pos| then Ok(acc)
    else
      assert pos[k..][0] == pos[k] && pos[k..][1..] == pos[k + 1..];
      if k < |schema| then
        var next :- FillField(m, schema[k], pos[k], acc, fuel);
        PositionalFrom(m, pos, k + 1, schema, next, fuel)
      else PositionalFrom(m, pos, k + 1, schema, acc, fuel)
  }

  /** One positional item put into its field: the `.` marker and a value are handled apart. */
  function FillField(m: Materializer, f: Field, item: Node, acc: Dict, fuel: nat): (r: Result<Dict>)
    decreases fuel, Size(item), 1, 0
  {
    if item.Default? then
      match f
      case Bare(name) => Ok(Put(acc, name, PNone))
      case Nested(key, _) => Ok(Put(acc, key, PNone))
      case Typed(key, p, _) =>
        if IsLiteral(p) then Ok(Put(acc, key, p))
        else if p.PStr? && p.s in m.typeDefs then
          var d :- CreateDefault(m, p.s, fuel);
          Ok(if d.Some? then Put(acc, key, PDict(d.value)) else acc)
        else if p.PStr? then Ok(Put(acc, key, p))
        else Ok(Put(acc, key, PNone))
    else
      match f
      case Bare(name) =>
        var v :- Build(m, item, NoType, fuel);
        Ok(Put(acc, name, v))
      case Nested(key, _) =>
        var v :- Build(m, item, PayloadExpect(f), fuel);
        Ok(Put(acc, key, v))
      case Typed(key, p, _) =>
        if IsLiteral(p) || (p.PStr? && p.s !in m.typeDefs) then Ok(Put(acc, key, p))
        else
          var v :- Build(m, item, PayloadExpect(f), fuel);
          Ok(Put(acc, key, v))
  }

  /**
   * The `while schema_idx < len(schema)` loop over the fields no item
   * reached: literal payloads, and strings that name no type, are written.
   */
  function TrailingFrom(m: Materializer, schema: Schema, j: nat, acc: Dict): (r: Dict)
    requires j <= |schema|
    decreases |schema| - j
  {
    if j == |schema| then acc
    else
      var f := schema[j];
      if f.Typed? && (IsLiteral(f.payload) || (f.payload.PStr? && f.payload.s !in m.typeDefs)) then
        TrailingFrom(m, schema, j + 1, Put(acc, f.key, f.payload))
      else TrailingFrom(m, schema, j + 1, acc)
  }

  /**
   * The last loop over the whole schema: a keyed field still missing from
   * the result gets its literal payload, its string payload, or (for a
   * type name) a default object when that object is not empty.
   */
  function FinalFrom(m: Materializer, schema: Schema, j: nat, acc: Dict, fuel: nat): (r: Result<Dict>)
    requires j <= |schema|
    decreases fuel, 0, 1, |schema| - j
  {
    if j == |schema| then Ok(acc)
    else
      var f := schema[j];
      if f.Typed? && f.key !in Keys(acc) then
        if IsLiteral(f.payload) || (f.payload.PStr? && f.payload.s !in m.typeDefs) then
          FinalFrom(m, schema, j + 1, Put(acc, f.key, f.payload), fuel)
        else if f.payload.PStr? then
          var d :- CreateDefault(m, f.payload.s, fuel);
          FinalFrom(m, schema, j + 1, if d.Some? then Put(acc, f.key, PDict(d.value)) else acc, fuel)
        else FinalFrom(m, schema, j + 1, acc, fuel)
      else FinalFrom(m, schema, j + 1, acc, fuel)
  }

  /** `_create_default_object(name)`: None for an unknown name or an empty object. */
  function CreateDefault(m: Materializer, name: string, fuel: nat): (r: Result<Option<Dict>>)
    decreases fuel, 0, 0, 0
  {
    if name !in m.typeDefs then Ok(None)
    else if fuel == 0 then Err(RecursionLimit)
    else
      var d :- DefaultFields(m, m.typeDefs[name], 0, [], fuel - 1);
      Ok(if d == [] then None else Some(d))
  }

  /** The loop of `_create_default_object` over the fields from the j-th on. */
  function DefaultFields(m: Materializer, schema: Schema, j: nat, acc: Dict, fuel: nat): (r: Result<Dict>)
    requires j <= |schema|
    decreases fuel, 0, 1, |schema| - j
  {
    if j == |schema| then Ok(acc)
    else
      var f := schema[j];
      if f.Typed? && (IsLiteral(f.payload) || (f.payload.PStr? && f.payload.s !in m.typeDefs)) then
        DefaultFields(m, schema, j + 1, Put(acc, f.key, f.payload), fuel)
      else if f.Typed? && f.payload.PStr? then
        var d :- CreateDefault(m, f.payload.s, fuel);
        DefaultFields(m, schema, j + 1, if d.Some? then Put(acc, f.key, PDict(d.value)) else acc, fuel)
      else DefaultFields(m, schema, j + 1, acc, fuel)
  }

  /** The value a value list gives field j: its j-th value, or None past its end. */
  function ValueFor(values: seq<PyValue>, j: nat): PyValue {
    if j < |values| then values[j] else PNone
  }

  /**
   * The loop of `_map_value_list_to_object` from field j on: a field gets the
   * list's value in its place, built against the field's payload; a None
   * value leaves the field out.
   */
  function MapValueList(m: Materializer, values: seq<PyValue>, schema: Schema, j: nat, acc: Dict, fuel: nat): (r: Result<Dict>)
    requires j <= |schema|
    decreases fuel, 2, 0, |schema| - j
  {
    if j == |schema| then Ok(acc)
    else
      var next :- ValueField(m, ValueFor(values, j), schema[j], acc, fuel);
      MapValueList(m, values, schema, j + 1, next, fuel)
  }

  /**
   * One field of a value list: None writes nothing, a bare field takes the
   * value as it is, and a `key: payload` field takes the value built against
   * its payload. No other key changes.
   */
  function ValueField(m: Materializer, v: PyValue, f: Field, acc: Dict, fuel: nat): (r: Result<Dict>)
    decreases fuel, 1, 1, 0
    ensures r.Ok? ==> Keys(r.value) == Keys(acc) + (if v.PNone? then {} else {FieldName(f)})
    ensures r.Ok? ==> forall k :: k != FieldName(f) ==> Get(r.value, k) == Get(acc, k)
    ensures r.Ok? && f.Bare? && !v.PNone? ==> Get(r.value, f.name) == Some(v)
    ensures v.PNone? || f.Bare? ==> r.Ok?
  {
    if v.PNone? then Ok(acc)
    else if f.Bare? then Ok(Put(acc, f.name, v))
    else
      var b :- Build(m, Prim(v), PayloadExpect(f), fuel);
      Ok(Put(acc, f.key, b))
  }

  /* ---------------- what materializing promises ---------------- */

  /** The key a field writes: a bare field's name, or the key of a `key: payload` field. */
  function FieldName(f: Field): string {
    if f.Bare? then f.name else f.key
  }

  predicate DistinctFieldNames(schema: Schema) {
    forall i, j :: 0 <= i < j < |schema| ==> FieldName(schema[i]) != FieldName(schema[j])
  }

  /** The names of the fields lo..hi-1. */
  function FieldNames(schema: Schema, lo: nat, hi: nat): set<string> {
    set i | lo <= i < hi && i < |schema| :: FieldName(schema[i])
  }

  /** The field names from j on are field j's name and those from j + 1 on. */
  lemma FieldNamesSplit(schema: Schema, j: nat)
    requires j < |schema|
    ensures FieldNames(schema, j, |schema|) == {FieldName(schema[j])} + FieldNames(schema, j + 1, |schema|)
  {
    assert FieldName(schema[j]) in FieldNames(schema, j, |schema|);
  }

  /** The keys of the `key: payload` fields from j on. */
  function TypedKeys(schema: Schema, j: nat): set<string> {
    set i | j <= i < |schema| && schema[i].Typed? :: schema[i].key
  }

  /** `build` over a sequence of children: one result per child, and the first failure fails it. */
  lemma {:induction false} BuildAllParts(m: Materializer, items: seq<Node>, e: Expect, fuel: nat)
    ensures var r := BuildAll(m, items, e, fuel);
      (r.Ok? ==> |r.value| == |items| && forall k :: 0 <= k < |items| ==> Build(m, items[k], e, fuel) == Ok(r.value[k]))
      && (r.Err? <==> exists k :: 0 <= k < |items| && Build(m, items[k], e, fuel).Err?)
    decreases |items|
  {
    if items != [] {
      BuildAllParts(m, items[1..], e, fuel);
      assert forall k :: 1 <= k < |items| ==> items[k] == items[1..][k - 1];
    }
  }

  /**
   * An array is built child by child against its own annotation when it has
   * one and the inherited type otherwise, and keeps its length.
   */
  lemma ArrayElementwise(m: Materializer, items: seq<Node>, ann: Option<TypeAnn>, e: Expect, fuel: nat)
    ensures var eff := if ann.Some? then TypeOf(ann.value) else e;
      var r := Build(m, Array(items, ann), e, fuel);
      (r.Ok? ==> r.value.PList? && |r.value.elems| == |items|
                 && forall k :: 0 <= k < |items| ==> Build(m, items[k], eff, fuel) == Ok(r.value.elems[k]))
      && (r.Err? <==> exists k :: 0 <= k < |items| && Build(m, items[k], eff, fuel).Err?)
  {
    BuildAllParts(m, items, if ann.Some? then TypeOf(ann.value) else e, fuel);
  }

  /**
   * A brace list with no type from anywhere becomes a Python list of its
   * children built untyped, so a `key: value` item in it fails the build.
   */
  lemma UntypedListIsList(m: Materializer, items: seq<Node>, fuel: nat)
    ensures var r := Build(m, List(items, None), NoType, fuel);
      (r.Ok? ==> r.value.PList? && |r.value.elems| == |items|
                 && forall k :: 0 <= k < |items| ==> Build(m, items[k], NoType, fuel) == Ok(r.value.elems[k]))
      && ((exists k :: 0 <= k < |items| && items[k].KeyValue?) ==> r.Err?)
  {
    BuildAllParts(m, items, NoType, fuel);
  }

  /**
   * A string naming a value list becomes that list, or, when a type is
   * expected, an object mapped through the type's schema; every other
   * primitive comes back unchanged.
   */
  lemma PrimitiveBuild(m: Materializer, v: PyValue, e: Expect, fuel: nat)
    ensures !(v.PStr? && v.s in m.valueDefs) ==> Build(m, Prim(v), e, fuel) == Ok(v)
    ensures v.PStr? && v.s in m.valueDefs && e.NoType? ==> Build(m, Prim(v), e, fuel) == Ok(PList(m.valueDefs[v.s]))
    ensures v.PStr? && v.s in m.valueDefs && !e.NoType? ==>
      (Resolve(m, e).Err? ==> Build(m, Prim(v), e, fuel) == Err(Resolve(m, e).error))
      && (Build(m, Prim(v), e, fuel).Ok? ==> Build(m, Prim(v), e, fuel).value.PDict?)
  {
  }

  /** `_resolve_schema`: an inline schema as it is; a name only when declared. */
  lemma ResolveSchema(m: Materializer, e: Expect)
    ensures e.TypeOf? && e.ann.Inline? ==> Resolve(m, e) == Ok(e.ann.schema)
    ensures e.TypeOf? && e.ann.Named? ==>
      (Resolve(m, e).Ok? <==> e.ann.name in m.typeDefs)
      && (e.ann.name !in m.typeDefs ==> Resolve(m, e) == Err(UnknownType(e.ann.name)))
    ensures !e.TypeOf? ==> Resolve(m, e).Err?
  {
  }

  lemma {:induction false} AllKeyValueItems(items: seq<Node>)
    requires forall k :: 0 <= k < |items| ==> items[k].KeyValue?
    ensures KeyValueItems(items) == items && PositionalItems(items) == []
  {
    if items != [] {
      AllKeyValueItems(items[1..]);
      assert [items[0]] + items[1..] == items;
    }
  }

  /** The key/value loop writes exactly the keys of its items. */
  lemma {:induction false} KeyValueKeys(m: Materializer, kvs: seq<Node>, k: nat, acc: Dict, fuel: nat)
    requires k <= |kvs| && forall j :: 0 <= j < |kvs| ==> kvs[j].KeyValue?
    ensures KeyValuesFrom(m, kvs, k, acc, fuel).Ok? ==>
      Keys(KeyValuesFrom(m, kvs, k, acc, fuel).value) == Keys(acc) + set j | k <= j < |kvs| :: kvs[j].key
    decreases |kvs| - k
  {
    if k < |kvs| {
      var v := Build(m, kvs[k].item, NoType, fuel);
      if v.Ok? {
        KeyValueKeys(m, kvs, k + 1, Put(acc, kvs[k].key, v.value), fuel);
        assert (set j | k <= j < |kvs| :: kvs[j].key) == {kvs[k].key} + set j | k + 1 <= j < |kvs| :: kvs[j].key;
      }
    }
  }

  /**
   * A brace list of key/value items only gives exactly those keys, each
   * built untyped; the schema plays no part.
   */
  lemma KeyValueOnly(m: Materializer, items: seq<Node>, schema: Schema, fuel: nat)
    requires items != [] && forall k :: 0 <= k < |items| ==> items[k].KeyValue?
    ensures MapList(m, items, schema, fuel) == KeyValuesFrom(m, items, 0, [], fuel)
    ensures MapList(m, items, schema, fuel).Ok? ==>
      Keys(MapList(m, items, schema, fuel).value) == set k | 0 <= k < |items| :: items[k].key
  {
    AllKeyValueItems(items);
    KeyValueKeys(m, items, 0, [], fuel);
    assert Keys([]) == {};
  }

  /** Once the schema is used up, the remaining positional items change nothing. */
  lemma {:induction false} PositionalBeyondSchema(m: Materializer, pos: seq<Node>, k: nat, schema: Schema, acc: Dict, fuel: nat)
    requires |schema| <= k <= |pos|
    ensures PositionalFrom(m, pos, k, schema, acc, fuel) == Ok(acc)
    decreases |pos| - k
  {
    if k < |pos| {
      PositionalBeyondSchema(m, pos, k + 1, schema, acc, fuel);
    }
  }

  /** Positional items past the length of the schema are dropped. */
  lemma {:induction false} ExtraItemsDropped(m: Materializer, pos: seq<Node>, k: nat, schema: Schema, acc: Dict, fuel: nat)
    requires k <= |pos| && k <= |schema|
    ensures var n := if |pos| < |schema| then |pos| else |schema|;
      PositionalFrom(m, pos, k, schema, acc, fuel) == PositionalFrom(m, pos[..n], k, schema, acc, fuel)
    decreases |pos| - k
  {
    var n := if |pos| < |schema| then |pos| else |schema|;
    if k == n {
      if k < |pos| {
        PositionalBeyondSchema(m, pos, k, schema, acc, fuel);
      }
    } else {
      assert pos[..n][k] == pos[k];
      var next := FillField(m, schema[k], pos[k], acc, fuel);
      if next.Ok? {
        ExtraItemsDropped(m, pos, k + 1, schema, next.value, fuel);
      }
    }
  }

  /**
   * A field whose payload is a literal, or a string that names no type,
   * takes its payload whatever item is in its place, a value or `.`.
   */
  lemma LiteralPayloadWins(m: Materializer, f: Field, item: Node, acc: Dict, fuel: nat)
    requires f.Typed? && (IsLiteral(f.payload) || (f.payload.PStr? && f.payload.s !in m.typeDefs))
    ensures FillField(m, f, item, acc, fuel) == Ok(Put(acc, f.key, f.payload))
  {
  }

  /** The positional loop writes only the names of the fields it reaches. */
  lemma {:induction false} PositionalKeys(m: Materializer, pos: seq<Node>, k: nat, schema: Schema, acc: Dict, fuel: nat)
    requires k <= |pos|
    ensures PositionalFrom(m, pos, k, schema, acc, fuel).Ok? ==>
      Keys(PositionalFrom(m, pos, k, schema, acc, fuel).value) <= Keys(acc) + FieldNames(schema, k, |pos|)
    decreases |pos| - k
  {
    if k < |pos| {
      if k < |schema| {
        var next := FillField(m, schema[k], pos[k], acc, fuel);
        if next.Ok? {
          assert Keys(next.value) <= Keys(acc) + {FieldName(schema[k])};
          PositionalKeys(m, pos, k + 1, schema, next.value, fuel);
        }
      } else {
        PositionalKeys(m, pos, k + 1, schema, acc, fuel);
      }
    }
  }

  /** The loop over unreached fields keeps every key and adds only keys of `key: payload` fields. */
  lemma {:induction false} TrailingKeys(m: Materializer, schema: Schema, j: nat, acc: Dict)
    requires j <= |schema|
    ensures Keys(acc) <= Keys(TrailingFrom(m, schema, j, acc)) <= Keys(acc) + TypedKeys(schema, j)
    decreases |schema| - j
  {
    if j < |schema| {
      var f := schema[j];
      if f.Typed? && (IsLiteral(f.payload) || (f.payload.PStr? && f.payload.s !in m.typeDefs)) {
        TrailingKeys(m, schema, j + 1, Put(acc, f.key, f.payload));
      } else {
        TrailingKeys(m, schema, j + 1, acc);
      }
    }
  }

  /**
   * The last loop keeps every key, adds only keys of `key: payload` fields,
   * and leaves every field with a literal payload present.
   */
  lemma {:induction false} FinalKeys(m: Materializer, schema: Schema, j: nat, acc: Dict, fuel: nat)
    requires j <= |schema|
    ensures var r := FinalFrom(m, schema, j, acc, fuel);
      r.Ok? ==>
        (Keys(acc) <= Keys(r.value) <= Keys(acc) + TypedKeys(schema, j)
         && forall i :: j <= i < |schema| && schema[i].Typed? && IsLiteral(schema[i].payload) ==> schema[i].key in Keys(r.value))
    decreases |schema| - j
  {
    if j < |schema| {
      var f := schema[j];
      if f.Typed? && f.key !in Keys(acc) {
        if IsLiteral(f.payload) || (f.payload.PStr? && f.payload.s !in m.typeDefs) {
          FinalKeys(m, schema, j + 1, Put(acc, f.key, f.payload), fuel);
        } else if f.payload.PStr? {
          var d := CreateDefault(m, f.payload.s, fuel);
          if d.Ok? {
            FinalKeys(m, schema, j + 1, if d.value.Some? then Put(acc, f.key, PDict(d.value.value)) else acc, fuel);
          }
        } else {
          FinalKeys(m, schema, j + 1, acc, fuel);
        }
      } else {
        FinalKeys(m, schema, j + 1, acc, fuel);
      }
    }
  }

  /**
   * An object mapped from a brace list holds only keys of its key/value
   * items, names of the fields its positional items reach, and keys of
   * `key: payload` fields.
   */
  lemma MapListKeys(m: Materializer, items: seq<Node>, schema: Schema, fuel: nat)
    ensures MapList(m, items, schema, fuel).Ok? ==>
      Keys(MapList(m, items, schema, fuel).value)
        <= (set k | 0 <= k < |items| && items[k].KeyValue? :: items[k].key)
           + FieldNames(schema, 0, |PositionalItems(items)|) + TypedKeys(schema, 0)
  {
    var kvs := KeyValueItems(items);
    var pos := PositionalItems(items);
    assert kvs[0..] == kvs && pos[0..] == pos;
    KeyValueInItems(items);
    KeyValueKeys(m, kvs, 0, [], fuel);
    assert Keys([]) == {};
    var afterKeys := KeyValuesFrom(m, kvs, 0, [], fuel);
    if afterKeys.Ok? && !(kvs != [] && pos == []) {
      assert Keys(afterKeys.value) <= set k | 0 <= k < |items| && items[k].KeyValue? :: items[k].key;
      PositionalKeys(m, pos, 0, schema, afterKeys.value, fuel);
      var afterPos := PositionalFrom(m, pos, 0, schema, afterKeys.value, fuel);
      if afterPos.Ok? {
        var n := if |pos| < |schema| then |pos| else |schema|;
        TrailingKeys(m, schema, n, afterPos.value);
        assert TypedKeys(schema, n) <= TypedKeys(schema, 0);
        FinalKeys(m, schema, 0, TrailingFrom(m, schema, n, afterPos.value), fuel);
      }
    }
  }

  /**
   * A bare field that no positional item reaches, and that no key/value item
   * names, is absent from the object: it is not written as None.
   */
  lemma BareFieldAbsent(m: Materializer, items: seq<Node>, schema: Schema, fuel: nat, i: nat)
    requires i < |schema| && schema[i].Bare? && DistinctFieldNames(schema)
    requires |PositionalItems(items)| <= i
    requires forall k :: 0 <= k < |items| && items[k].KeyValue? ==> items[k].key != schema[i].name
    ensures MapList(m, items, schema, fuel).Ok? ==> schema[i].name !in Keys(MapList(m, items, schema, fuel).value)
  {
    MapListKeys(m, items, schema, fuel);
    var name := schema[i].name;
    assert name !in FieldNames(schema, 0, |PositionalItems(items)|) by {
      forall j | 0 <= j < |PositionalItems(items)| && j < |schema| ensures FieldName(schema[j]) != name {
        assert FieldName(schema[i]) == name;
      }
    }
    assert name !in TypedKeys(schema, 0) by {
      forall j | 0 <= j < |schema| && schema[j].Typed? ensures schema[j].key != name {
        assert FieldName(schema[j]) == schema[j].key && j != i;
      }
    }
  }

  /** Every key/value item kept by the filter comes from the items. */
  lemma {:induction false} KeyValueInItems(items: seq<Node>)
    ensures forall j :: 0 <= j < |KeyValueItems(items)| ==> KeyValueItems(items)[j] in items
  {
    if items != [] {
      KeyValueInItems(items[1..]);
    }
  }

  /**
   * Unless the brace list holds key/value items only, every field whose
   * payload is a literal is present in the object.
   */
  lemma LiteralFieldPresent(m: Materializer, items: seq<Node>, schema: Schema, fuel: nat, i: nat)
    requires i < |schema| && schema[i].Typed? && IsLiteral(schema[i].payload)
    requires KeyValueItems(items) == [] || PositionalItems(items) != []
    ensures MapList(m, items, schema, fuel).Ok? ==> schema[i].key in Keys(MapList(m, items, schema, fuel).value)
  {
    var kvs := KeyValueItems(items);
    var pos := PositionalItems(items);
    assert kvs[0..] == kvs && pos[0..] == pos;
    var afterKeys := KeyValuesFrom(m, kvs, 0, [], fuel);
    if afterKeys.Ok? {
      var afterPos := PositionalFrom(m, pos, 0, schema, afterKeys.value, fuel);
      if afterPos.Ok? {
        var n := if |pos| < |schema| then |pos| else |schema|;
        FinalKeys(m, schema, 0, TrailingFrom(m, schema, n, afterPos.value), fuel);
      }
    }
  }

  /**
   * A positional item writes the same value under its field's name whatever
   * the dict already holds, and touches no other key: the value is the one it
   * writes into an empty dict.
   */
  lemma FillFieldWrites(m: Materializer, f: Field, item: Node, acc: Dict, fuel: nat)
    ensures var r := FillField(m, f, item, acc, fuel);
      var w := FillField(m, f, item, [], fuel);
      (r.Ok? <==> w.Ok?)
      && (r.Ok? ==> forall k :: k != FieldName(f) ==> Get(r.value, k) == Get(acc, k))
      && (r.Ok? && Get(w.value, FieldName(f)).Some? ==> Get(r.value, FieldName(f)) == Get(w.value, FieldName(f)))
      && (r.Ok? && Get(w.value, FieldName(f)).None? ==> r.value == acc)
  {
  }

  /** The positional loop from item j on leaves alone a key that no field from j on names. */
  lemma {:induction false} PositionalKeep(m: Materializer, pos: seq<Node>, j: nat, schema: Schema, acc: Dict, fuel: nat, key: string)
    requires j <= |pos|
    requires forall i :: j <= i < |schema| ==> FieldName(schema[i]) != key
    ensures PositionalFrom(m, pos, j, schema, acc, fuel).Ok? ==> Get(PositionalFrom(m, pos, j, schema, acc, fuel).value, key) == Get(acc, key)
    decreases |pos| - j
  {
    if j < |pos| {
      if j < |schema| {
        var next := FillField(m, schema[j], pos[j], acc, fuel);
        FillFieldWrites(m, schema[j], pos[j], acc, fuel);
        if next.Ok? {
          PositionalKeep(m, pos, j + 1, schema, next.value, fuel, key);
        }
      } else {
        PositionalKeep(m, pos, j + 1, schema, acc, fuel, key);
      }
    }
  }

  /**
   * Positional item k, within the schema, fills field k: the loop succeeds
   * only if that filling does, and the field's name ends with the value the
   * filling writes, since no later item names the same field.
   */
  lemma {:induction false} PositionalValue(m: Materializer, pos: seq<Node>, j: nat, schema: Schema, acc: Dict, fuel: nat, k: nat)
    requires j <= k < |pos| && k < |schema| && DistinctFieldNames(schema)
    ensures var r := PositionalFrom(m, pos, j, schema, acc, fuel);
      var w := FillField(m, schema[k], pos[k], [], fuel);
      r.Ok? ==> w.Ok? && (Get(w.value, FieldName(schema[k])).Some? ==> Get(r.value, FieldName(schema[k])) == Get(w.value, FieldName(schema[k])))
    decreases |pos| - j
  {
    var next := FillField(m, schema[j], pos[j], acc, fuel);
    FillFieldWrites(m, schema[j], pos[j], acc, fuel);
    if next.Ok? {
      if j == k {
        forall i | k + 1 <= i < |schema| ensures FieldName(schema[i]) != FieldName(schema[k]) {
          assert k < i;
        }
        PositionalKeep(m, pos, k + 1, schema, next.value, fuel, FieldName(schema[k]));
      } else {
        PositionalValue(m, pos, j + 1, schema, next.value, fuel, k);
      }
    }
  }

  /** The loop over unreached fields from j on leaves alone a key that no field from j on names. */
  lemma {:induction false} TrailingKeep(m: Materializer, schema: Schema, j: nat, acc: Dict, key: string)
    requires j <= |schema|
    requires forall i :: j <= i < |schema| ==> FieldName(schema[i]) != key
    ensures Get(TrailingFrom(m, schema, j, acc), key) == Get(acc, key)
    decreases |schema| - j
  {
    if j < |schema| {
      var f := schema[j];
      assert FieldName(f) != key;
      if f.Typed? && (IsLiteral(f.payload) || (f.payload.PStr? && f.payload.s !in m.typeDefs)) {
        TrailingKeep(m, schema, j + 1, Put(acc, f.key, f.payload), key);
      } else {
        TrailingKeep(m, schema, j + 1, acc, key);
      }
    }
  }

  /** The last loop only writes keys still missing, so a present key keeps its value. */
  lemma {:induction false} FinalKeep(m: Materializer, schema: Schema, j: nat, acc: Dict, fuel: nat, key: string)
    requires j <= |schema| && key in Keys(acc)
    ensures FinalFrom(m, schema, j, acc, fuel).Ok? ==> Get(FinalFrom(m, schema, j, acc, fuel).value, key) == Get(acc, key)
    decreases |schema| - j
  {
    if j < |schema| {
      var f := schema[j];
      if f.Typed? && f.key !in Keys(acc) {
        if IsLiteral(f.payload) || (f.payload.PStr? && f.payload.s !in m.typeDefs) {
          FinalKeep(m, schema, j + 1, Put(acc, f.key, f.payload), fuel, key);
        } else if f.payload.PStr? {
          var d := CreateDefault(m, f.payload.s, fuel);
          if d.Ok? {
            FinalKeep(m, schema, j + 1, if d.value.Some? then Put(acc, f.key, PDict(d.value.value)) else acc, fuel, key);
          }
        } else {
          FinalKeep(m, schema, j + 1, acc, fuel, key);
        }
      } else {
        FinalKeep(m, schema, j + 1, acc, fuel, key);
      }
    }
  }

  /**
   * `_map_list_to_object`: positional child k, while the schema lasts, maps
   * to field k. The mapping succeeds only if filling field k with it does,
   * and when that filling writes a value (the child built against the
   * field's payload, a literal or unregistered string payload, or for `.`
   * None or the default object), field k's name holds that value in the
   * object, whatever key/value items came before and later fields did.
   */
  lemma PositionalMapping(m: Materializer, items: seq<Node>, schema: Schema, fuel: nat, k: nat)
    requires DistinctFieldNames(schema) && k < |schema| && k < |PositionalItems(items)|
    ensures var r := MapList(m, items, schema, fuel);
      var w := FillField(m, schema[k], PositionalItems(items)[k], [], fuel);
      r.Ok? ==> w.Ok? && (Get(w.value, FieldName(schema[k])).Some? ==> Get(r.value, FieldName(schema[k])) == Get(w.value, FieldName(schema[k])))
  {
    var kvs := KeyValueItems(items);
    var pos := PositionalItems(items);
    var key := FieldName(schema[k]);
    assert kvs[0..] == kvs && pos[0..] == pos;
    var afterKeys := KeyValuesFrom(m, kvs, 0, [], fuel);
    if afterKeys.Ok? {
      var afterPos := PositionalFrom(m, pos, 0, schema, afterKeys.value, fuel);
      PositionalValue(m, pos, 0, schema, afterKeys.value, fuel, k);
      if afterPos.Ok? {
        var w := FillField(m, schema[k], pos[k], [], fuel);
        if Get(w.value, key).Some? {
          var n := if |pos| < |schema| then |pos| else |schema|;
          forall i | n <= i < |schema| ensures FieldName(schema[i]) != key {
            assert k < i;
          }
          TrailingKeep(m, schema, n, afterPos.value, key);
          var afterTrail := TrailingFrom(m, schema, n, afterPos.value);
          FinalKeep(m, schema, 0, afterTrail, fuel, key);
        }
      }
    }
  }

  /** A default object is None rather than empty, and holds only keys of `key: payload` fields. */
  lemma CreateDefaultShape(m: Materializer, name: string, fuel: nat)
    ensures var r := CreateDefault(m, name, fuel);
      r.Ok? && r.value.Some? ==> name in m.typeDefs && r.value.value != [] && Keys(r.value.value) <= TypedKeys(m.typeDefs[name], 0)
    ensures name !in m.typeDefs ==> CreateDefault(m, name, fuel) == Ok(None)
  {
    if name in m.typeDefs && fuel > 0 {
      DefaultKeys(m, m.typeDefs[name], 0, [], fuel - 1);
      assert Keys([]) == {};
    }
  }

  lemma {:induction false} DefaultKeys(m: Materializer, schema: Schema, j: nat, acc: Dict, fuel: nat)
    requires j <= |schema|
    ensures DefaultFields(m, schema, j, acc, fuel).Ok? ==>
      Keys(DefaultFields(m, schema, j, acc, fuel).value) <= Keys(acc) + TypedKeys(schema, j)
    decreases |schema| - j
  {
    if j < |schema| {
      var f := schema[j];
      if f.Typed? && (IsLiteral(f.payload) || (f.payload.PStr? && f.payload.s !in m.typeDefs)) {
        DefaultKeys(m, schema, j + 1, Put(acc, f.key, f.payload), fuel);
      } else if f.Typed? && f.payload.PStr? {
        var d := CreateDefault(m, f.payload.s, fuel);
        if d.Ok? {
          DefaultKeys(m, schema, j + 1, if d.value.Some? then Put(acc, f.key, PDict(d.value.value)) else acc, fuel);
        }
      } else {
        DefaultKeys(m, schema, j + 1, acc, fuel);
      }
    }
  }

  /**
   * `_map_value_list_to_object`: field i is written exactly when the list
   * has a value other than None in place i; a bare field takes that value
   * as it is.
   */
  lemma ValueListFields(m: Materializer, values: seq<PyValue>, schema: Schema, j: nat, acc: Dict, fuel: nat)
    requires j <= |schema| && DistinctFieldNames(schema)
    ensures var r := MapValueList(m, values, schema, j, acc, fuel);
      r.Ok? ==>
        Keys(r.value) == Keys(acc) + (set i | j <= i < |schema| && !ValueFor(values, i).PNone? :: FieldName(schema[i]))
        && forall i :: j <= i < |schema| && schema[i].Bare? && !ValueFor(values, i).PNone? ==>
             Get(r.value, schema[i].name) == Some(ValueFor(values, i))
  {
    ValueListKeySet(m, values, schema, j, acc, fuel);
    forall i | j <= i < |schema| && schema[i].Bare? && !ValueFor(values, i).PNone?
      ensures MapValueList(m, values, schema, j, acc, fuel).Ok? ==>
        Get(MapValueList(m, values, schema, j, acc, fuel).value, schema[i].name) == Some(ValueFor(values, i))
    {
      ValueListBare(m, values, schema, j, acc, fuel, i);
    }
  }

  /** The keys the value list loop adds: one per field whose value is not None. */
  lemma {:induction false} ValueListKeySet(m: Materializer, values: seq<PyValue>, schema: Schema, j: nat, acc: Dict, fuel: nat)
    requires j <= |schema|
    ensures var r := MapValueList(m, values, schema, j, acc, fuel);
      r.Ok? ==> Keys(r.value) == Keys(acc) + (set i | j <= i < |schema| && !ValueFor(values, i).PNone? :: FieldName(schema[i]))
    decreases |schema| - j
  {
    if j < |schema| {
      var v := ValueFor(values, j);
      var next := ValueField(m, v, schema[j], acc, fuel);
      if next.Ok? {
        var j', acc' := j + 1, next.value;
        assert MapValueList(m, values, schema, j, acc, fuel) == MapValueList(m, values, schema, j', acc', fuel);
        ValueListKeySet(m, values, schema, j', acc', fuel);
        assert (set i | j <= i < |schema| && !ValueFor(values, i).PNone? :: FieldName(schema[i]))
          == (if v.PNone? then {} else {FieldName(schema[j])}) + (set i | j' <= i < |schema| && !ValueFor(values, i).PNone? :: FieldName(schema[i]));
      }
    }
  }

  /** A bare field i with a value other than None ends with that value. */
  lemma {:induction false} ValueListBare(m: Materializer, values: seq<PyValue>, schema: Schema, j: nat, acc: Dict, fuel: nat, i: nat)
    requires j <= i < |schema| && DistinctFieldNames(schema)
    requires schema[i].Bare? && !ValueFor(values, i).PNone?
    ensures MapValueList(m, values, schema, j, acc, fuel).Ok? ==>
      Get(MapValueList(m, values, schema, j, acc, fuel).value, schema[i].name) == Some(ValueFor(values, i))
    decreases |schema| - j
  {
    var next := ValueField(m, ValueFor(values, j), schema[j], acc, fuel);
    if next.Ok? {
      var j', acc' := j + 1, next.value;
      assert MapValueList(m, values, schema, j, acc, fuel) == MapValueList(m, values, schema, j', acc', fuel);
      if i == j {
        forall i' | j' <= i' < |schema| ensures FieldName(schema[i']) != schema[i].name {
          assert FieldName(schema[i]) == schema[i].name;
        }
        ValueListKeeps(m, values, schema, j', acc', fuel, schema[i].name);
      } else {
        ValueListBare(m, values, schema, j', acc', fuel, i);
      }
    }
  }

  /** The value list loop leaves alone a key that none of its remaining fields names. */
  lemma {:induction false} ValueListKeeps(m: Materializer, values: seq<PyValue>, schema: Schema, j: nat, acc: Dict, fuel: nat, key: string)
    requires j <= |schema|
    requires forall i :: j <= i < |schema| ==> FieldName(schema[i]) != key
    ensures MapValueList(m, values, schema, j, acc, fuel).Ok? ==> Get(MapValueList(m, values, schema, j, acc, fuel).value, key) == Get(acc, key)
    decreases |schema| - j
  {
    if j < |schema| {
      var next := ValueField(m, ValueFor(values, j), schema[j], acc, fuel);
      if next.Ok? {
        var j', acc' := j + 1, next.value;
        assert MapValueList(m, values, schema, j, acc, fuel) == MapValueList(m, values, schema, j', acc', fuel);
        ValueListKeeps(m, values, schema, j', acc', fuel, key);
      }
    }
  }

  /* ---------------- the loops, as the source runs them ---------------- */

  /** `_create_default_object`: one pass over the schema, recursing through type references. */
  method CreateDefaultObject(m: Materializer, typeName: string, fuel: nat) returns (r: Result<Option<Dict>>)
    ensures r == CreateDefault(m, typeName, fuel)
    decreases fuel
  {
    if typeName !in m.typeDefs {
      return Ok(None);
    }
    if fuel == 0 {
      return Err(RecursionLimit);
    }
    var schema := m.typeDefs[typeName];
    var result: Dict := [];
    for j := 0 to |schema|
      invariant DefaultFields(m, schema, 0, [], fuel - 1) == DefaultFields(m, schema, j, result, fuel - 1)
    {
      var field := schema[j];
      if field.Typed? {
        var p := field.payload;
        if IsLiteral(p) {
          result := Put(result, field.key, p);
        } else if p.PStr? {
          if p.s in m.typeDefs {
            var nested := CreateDefaultObject(m, p.s, fuel - 1);
            if nested.Err? {
              return Err(nested.error);
            }
            if nested.value.Some? {
              result := Put(result, field.key, PDict(nested.value.value));
            }
          } else {
            result := Put(result, field.key, p);
          }
        }
      }
    }
    return if result == [] then Ok(None) else Ok(Some(result));
  }

  /** `_map_value_list_to_object`: field i takes the list's i-th value. */
  method MapValueListToObject(m: Materializer, values: seq<PyValue>, schema: Schema, fuel: nat) returns (r: Result<Dict>)
    ensures r == MapValueList(m, values, schema, 0, [], fuel)
  {
    var result: Dict := [];
    for idx := 0 to |schema|
      invariant MapValueList(m, values, schema, 0, [], fuel) == MapValueList(m, values, schema, idx, result, fuel)
    {
      var value := if idx < |values| then values[idx] else PNone;
      var field := schema[idx];
      if !field.Bare? {
        if !value.PNone? {
          var built := Build(m, Prim(value), PayloadExpect(field), fuel);
          if built.Err? {
            return Err(built.error);
          }
          result := Put(result, field.key, built.value);
        }
      } else {
        if !value.PNone? {
          result := Put(result, field.name, value);
        }
      }
    }
    return Ok(result);
  }

  /**
   * `_map_list_to_object`: the key/value items first, then the positional
   * items against the schema in order, then the fields no item reached,
   * then the keyed fields still missing.
   */
  method MapListToObject(m: Materializer, items: seq<Node>, schema: Schema, fuel: nat) returns (r: Result<Dict>)
    ensures r == MapList(m, items, schema, fuel)
  {
    var kvs := KeyValueItems(items);
    var pos := PositionalItems(items);
    assert kvs[0..] == kvs && pos[0..] == pos;
    var afterKeys := KeyValueLoop(m, kvs, fuel);
    if afterKeys.Err? {
      return Err(afterKeys.error);
    }
    if kvs != [] && pos == [] {
      return afterKeys;
    }
    var afterPos, schemaIdx := PositionalLoop(m, pos, schema, afterKeys.value, fuel);
    if afterPos.Err? {
      return Err(afterPos.error);
    }
    r := CompleteFields(m, schema, schemaIdx, afterPos.value, fuel);
  }

  /** The first loop of `_map_list_to_object`: `result[key] = build(value, None)` per key/value item. */
  method KeyValueLoop(m: Materializer, kvs: seq<Node>, fuel: nat) returns (r: Result<Dict>)
    requires forall j :: 0 <= j < |kvs| ==> kvs[j].KeyValue?
    ensures r == KeyValuesFrom(m, kvs, 0, [], fuel)
  {
    var result: Dict := [];
    for k := 0 to |kvs|
      invariant KeyValuesFrom(m, kvs, 0, [], fuel) == KeyValuesFrom(m, kvs, k, result, fuel)
    {
      var value := Build(m, kvs[k].item, NoType, fuel);
      if value.Err? {
        return Err(value.error);
      }
      result := Put(result, kvs[k].key, value.value);
    }
    return Ok(result);
  }

  /**
   * The second loop of `_map_list_to_object`: positional item k fills field
   * `schema_idx` while the schema lasts. Also returns where `schema_idx` stopped.
   */
  method PositionalLoop(m: Materializer, pos: seq<Node>, schema: Schema, acc: Dict, fuel: nat) returns (r: Result<Dict>, schemaIdx: nat)
    ensures r == PositionalFrom(m, pos, 0, schema, acc, fuel)
    ensures r.Ok? ==> schemaIdx == if |pos| < |schema| then |pos| else |schema|
  {
    var result := acc;
    schemaIdx := 0;
    for k := 0 to |pos|
      invariant schemaIdx == if k < |schema| then k else |schema|
      invariant PositionalFrom(m, pos, 0, schema, acc, fuel) == PositionalFrom(m, pos, k, schema, result, fuel)
    {
      if schemaIdx < |schema| {
        var field := schema[schemaIdx];
        var item := pos[k];
        var next := FillItem(m, field, item, result, fuel);
        if next.Err? {
          return Err(next.error), schemaIdx;
        }
        result := next.value;
        schemaIdx := schemaIdx + 1;
      }
    }
    r := Ok(result);
  }

  /**
   * The end of `_map_list_to_object`: the fields from `reached` on that no
   * item reached, then every keyed field still missing from the result.
   */
  method CompleteFields(m: Materializer, schema: Schema, reached: nat, acc: Dict, fuel: nat) returns (r: Result<Dict>)
    requires reached <= |schema|
    ensures r == FinalFrom(m, schema, 0, TrailingFrom(m, schema, reached, acc), fuel)
  {
    var schemaIdx := reached;
    var result := acc;
    while schemaIdx < |schema|
      invariant reached <= schemaIdx <= |schema|
      invariant TrailingFrom(m, schema, reached, acc) == TrailingFrom(m, schema, schemaIdx, result)
    {
      var field := schema[schemaIdx];
      ghost var before := result;
      if field.Typed? {
        var p := field.payload;
        if IsLiteral(p) {
          result := Put(result, field.key, p);
        } else if p.PStr? {
          if p.s !in m.typeDefs {
            result := Put(result, field.key, p);
          }
        }
      }
      assert TrailingFrom(m, schema, schemaIdx, before) == TrailingFrom(m, schema, schemaIdx + 1, result);
      schemaIdx := schemaIdx + 1;
    }
    ghost var afterTrail := result;
    for j := 0 to |schema|
      invariant FinalFrom(m, schema, 0, afterTrail, fuel) == FinalFrom(m, schema, j, result, fuel)
    {
      var field := schema[j];
      if field.Typed? && field.key !in Keys(result) {
        var p := field.payload;
        if IsLiteral(p) {
          result := Put(result, field.key, p);
        } else if p.PStr? {
          if p.s in m.typeDefs {
            var sub := CreateDefaultObject(m, p.s, fuel);
            if sub.Err? {
              return Err(sub.error);
            }
            if sub.value.Some? {
              result := Put(result, field.key, PDict(sub.value.value));
            }
          } else {
            result := Put(result, field.key, p);
          }
        }
      }
    }
    return Ok(result);
  }

  /** The body of the positional loop of `_map_list_to_object`: item into field. */
  method FillItem(m: Materializer, field: Field, item: Node, result: Dict, fuel: nat) returns (r: Result<Dict>)
    ensures r == FillField(m, field, item, result, fuel)
  {
    if item.Default? {
      match field
      case Bare(name) =>
        return Ok(Put(result, name, PNone));
      case Nested(key, _) =>
        return Ok(Put(result, key, PNone));
      case Typed(key, p, _) =>
        if IsLiteral(p) {
          return Ok(Put(result, key, p));
        } else if p.PStr? {
          if p.s in m.typeDefs {
            var sub := CreateDefaultObject(m, p.s, fuel);
            if sub.Err? {
              return Err(sub.error);
            }
            return Ok(if sub.value.Some? then Put(result, key, PDict(sub.value.value)) else result);
          }
          return Ok(Put(result, key, p));
        }
        return Ok(Put(result, key, PNone));
    }
    match field
    case Bare(name) =>
      var value := Build(m, item, NoType, fuel);
      if value.Err? {
        return Err(value.error);
      }
      return Ok(Put(result, name, value.value));
    case Nested(key, _) =>
      var value := Build(m, item, PayloadExpect(field), fuel);
      if value.Err? {
        return Err(value.error);
      }
      return Ok(Put(result, key, value.value));
    case Typed(key, p, _) =>
      if IsLiteral(p) || (p.PStr? && p.s !in m.typeDefs) {
        return Ok(Put(result, key, p));
      }
      var value := Build(m, item, PayloadExpect(field), fuel);
      if value.Err? {
        return Err(value.error);
      }
      return Ok(Put(result, key, value.value));
  }
}
