/**
 * The earlier, self-contained engine (bref/converter.py).
 *
 * Its `Parser` is the AST engine's parser with one change: `.` reads as the
 * primitive string "DEFAULT" instead of a `default` node, so the parser is
 * `Bref2Parser.Parser` run with `ConverterConfig`. Its `Materializer` shares
 * `_resolve_schema` and the shape of `build` with the AST engine, but maps a
 * brace list in one pass over its items and writes every schema key, and
 * gives every field of a value list a key. The declarations come from
 * `parse_type_definitions` of bref/utils.py, which is not part of this model;
 * the AST engine's extractor (`Bref2Utils`) stands in for it.
 */
module Converter {
  import opened Base
  import opened PyData
  import opened Bref2Utils
  import opened Ast
  import Bref2Parser
  import opened Bref2Materializer

  /** The shared parser as this engine runs it: `.` is the string "DEFAULT". */
  function ConverterConfig(decode: string -> Option<string>): Bref2Parser.Config {
    Bref2Parser.Config(Prim(PStr("DEFAULT")), decode, PyNumber, SchemaOf)
  }

  /** `item.kind == "primitive" and item.value == "DEFAULT"`: written as `.` or as `"DEFAULT"`. */
  predicate IsMarker(n: Node) {
    n == Prim(PStr("DEFAULT"))
  }

  /**
   * What a field gets from the default marker, and when no item reaches it:
   * the payload of a `key: payload` field when it is a bool, number, string
   * or None, and None for a bare or nested-schema field.
   */
  function MarkerValue(f: Field): PyValue {
    if f.Typed? && (IsLiteral(f.payload) || f.payload.PStr?) then f.payload else PNone
  }

  /* ---------------- build, as functions ---------------- */

  /** `build(node, expected_type)`. */
  function Build(m: Materializer, n: Node, e: Expect, fuel: nat): (r: Result<PyValue>)
    decreases fuel, Size(n), 0, 0
  {
    match n
    case Prim(v) =>
      if v.PStr? && v.s in m.valueDefs then
        var values := m.valueDefs[v.s];
        if e.NoType? then Ok(PList(values))
        else
          var schema :- Resolve(m, e);
          if fuel == 0 then Err(RecursionLimit)
          else
            var d :- MapValueList(m, values, schema, 0, [], fuel - 1);
            Ok(PDict(d))
      else Ok(v)
    case Array(items, _) =>
      var vs :- BuildAll(m, items, Effective(n, e), fuel);
      Ok(PList(vs))
    case List(items, _) =>
      if Effective(n, e).NoType? then
        var vs :- BuildAll(m, items, NoType, fuel);
        Ok(PList(vs))
      else
        var schema :- Resolve(m, Effective(n, e));
        var d :- MapList(m, items, schema, fuel);
        Ok(PDict(d))
    case _ => Err(UnknownNodeKind)
  }

  /** `[self.build(child, t) for child in items]`. */
  function BuildAll(m: Materializer, items: seq<Node>, e: Expect, fuel: nat): (r: Result<seq<PyValue>>)
    ensures r.Ok? ==> |r.value| == |items|
    decreases fuel, ItemsSize(items), 1, 0
  {
    if items == [] then Ok([])
    else
      var v :- Build(m, items[0], e, fuel);
      var rest :- BuildAll(m, items[1..], e, fuel);
      Ok([v] + rest)
  }

  /** `_map_list_to_object(items, schema)`. */
  function MapList(m: Materializer, items: seq<Node>, schema: Schema, fuel: nat): (r: Result<Dict>)
    decreases fuel, ItemsSize(items) + 1, 3, 0
  {
    ItemsFrom(m, items, schema, 0, [], fuel)
  }

  /**
   * What field f gets from the item in its place (`None` when no item
   * reaches it): the marker value for the default marker or no item, else
   * the item built against the field's payload (a bare field: no type).
   */
  function Filled(m: Materializer, f: Field, item: Option<Node>, fuel: nat): (r: Result<PyValue>)
    decreases fuel, if item.Some? then Size(item.value) else 0, 1, 0
  {
    if item.None? || IsMarker(item.value) then Ok(MarkerValue(f))
    else if f.Bare? then Build(m, item.value, NoType, fuel)
    else Build(m, item.value, PayloadExpect(f), fuel)
  }

  /**
   * The loop of `_map_list_to_object` over the items still to come, with
   * `schema_idx` at idx, followed by the loop over the fields no item reached.
   */
  function ItemsFrom(m: Materializer, rest: seq<Node>, schema: Schema, idx: nat, acc: Dict, fuel: nat): (r: Result<Dict>)
    decreases fuel, ItemsSize(rest), 2, 0
  {
    if rest == [] then Ok(Trailing(schema, idx, acc))
    else if rest[0].KeyValue? then
      var v :- Build(m, rest[0].item, NoType, fuel);
      ItemsFrom(m, rest[1..], schema, idx, Put(acc, rest[0].key, v), fuel)
    else if idx < |schema| then
      var v :- Filled(m, schema[idx], Some(rest[0]), fuel);
      ItemsFrom(m, rest[1..], schema, idx + 1, Put(acc, FieldName(schema[idx]), v), fuel)
    else ItemsFrom(m, rest[1..], schema, idx, acc, fuel)
  }

  /** The loop over the fields from j on that no item reached. */
  function Trailing(schema: Schema, j: nat, acc: Dict): Dict
    decreases |schema| - j
  {
    if j >= |schema| then acc
    else Trailing(schema, j + 1, Put(acc, FieldName(schema[j]), MarkerValue(schema[j])))
  }

  /** The loop of `_map_value_list_to_object` from field j on. */
  function MapValueList(m: Materializer, values: seq<PyValue>, schema: Schema, j: nat, acc: Dict, fuel: nat): (r: Result<Dict>)
    decreases fuel, 2, 0, |schema| - j
  {
    if j >= |schema| then Ok(acc)
    else
      var next :- ValueField(m, ValueFor(values, j), schema[j], acc, fuel);
      MapValueList(m, values, schema, j + 1, next, fuel)
  }

  /**
   * One field of a value list: a bare field takes the value as it is (None
   * included), a `key: payload` field the value built against its payload.
   * No other key changes.
   */
  function ValueField(m: Materializer, v: PyValue, f: Field, acc: Dict, fuel: nat): (r: Result<Dict>)
    decreases fuel, 1, 1, 0
    ensures r.Ok? ==> Keys(r.value) == Keys(acc) + {FieldName(f)}
    ensures r.Ok? ==> forall k :: k != FieldName(f) ==> Get(r.value, k) == Get(acc, k)
    ensures f.Bare? ==> r == Ok(Put(acc, f.name, v))
    ensures !f.Bare? ==>
      (r.Ok? <==> Build(m, Prim(v), PayloadExpect(f), fuel).Ok?)
      && (r.Ok? ==> Get(r.value, f.key) == Some(Build(m, Prim(v), PayloadExpect(f), fuel).value))
  {
    if f.Bare? then Ok(Put(acc, f.name, v))
    else
      var b :- Build(m, Prim(v), PayloadExpect(f), fuel);
      Ok(Put(acc, f.key, b))
  }

  /** `parse_bref`: extract the declarations, parse the body's first value, build it with no type. */
  function ParseBrefOf(content: string, decode: string -> Option<string>, fuel: nat): Result<PyValue> {
    var ex :- TypeDefinitionsOf(content);
    var root :- Bref2Parser.ValueAt(ex.body, 0, ConverterConfig(decode));
    Build(Materializer(ex.types, ex.values), root.0, NoType, fuel)
  }

  /* ---------------- what the converter promises ---------------- */

  /**
   * `.` reads as the string "DEFAULT", and so does a string literal that
   * decodes to it: the materializer cannot tell the two apart.
   */
  lemma MarkerSpellings(s: string, pos: nat, decode: string -> Option<string>)
    requires pos <= |s| && Bref2Parser.SkipWsFrom(s, pos) < |s|
    ensures var p := Bref2Parser.SkipWsFrom(s, pos);
      s[p] == '.' ==> Bref2Parser.ValueAt(s, pos, ConverterConfig(decode)) == Ok((Prim(PStr("DEFAULT")), p + 1))
    ensures var p := Bref2Parser.SkipWsFrom(s, pos);
      var r := Bref2Parser.ValueAt(s, pos, ConverterConfig(decode));
      s[p] == '"' && decode(s[p..Bref2Parser.StringEnd(s, p + 1, '"')]) == Some("DEFAULT") ==>
        r.Ok? && IsMarker(r.value.0)
  {
    if s[Bref2Parser.SkipWsFrom(s, pos)] == '.' {
      Bref2Parser.DotIsDefault(s, pos, ConverterConfig(decode));
    }
  }

  lemma {:induction false} BuildAllParts(m: Materializer, items: seq<Node>, e: Expect, fuel: nat)
    ensures var r := BuildAll(m, items, e, fuel);
      (r.Ok? ==> forall k :: 0 <= k < |items| ==> Build(m, items[k], e, fuel) == Ok(r.value[k]))
      && (r.Err? <==> exists k :: 0 <= k < |items| && Build(m, items[k], e, fuel).Err?)
    decreases |items|
  {
    if items != [] {
      BuildAllParts(m, items[1..], e, fuel);
      assert forall k :: 1 <= k < |items| ==> items[k] == items[1..][k - 1];
    }
  }

  /** Arrays are built child by child against the effective type and keep their length. */
  lemma ArrayElementwise(m: Materializer, items: seq<Node>, ann: Option<TypeAnn>, e: Expect, fuel: nat)
    ensures var eff := if ann.Some? then TypeOf(ann.value) else e;
      var r := Build(m, Array(items, ann), e, fuel);
      (r.Ok? ==> r.value.PList? && |r.value.elems| == |items|
                 && forall k :: 0 <= k < |items| ==> Build(m, items[k], eff, fuel) == Ok(r.value.elems[k]))
      && (r.Err? <==> exists k :: 0 <= k < |items| && Build(m, items[k], eff, fuel).Err?)
  {
    BuildAllParts(m, items, if ann.Some? then TypeOf(ann.value) else e, fuel);
  }

  /** An untyped brace list is a Python list of its children, not a dict; a key/value child fails it. */
  lemma UntypedListIsList(m: Materializer, items: seq<Node>, fuel: nat)
    ensures var r := Build(m, List(items, None), NoType, fuel);
      (r.Ok? ==> r.value.PList? && |r.value.elems| == |items|
                 && forall k :: 0 <= k < |items| ==> Build(m, items[k], NoType, fuel) == Ok(r.value.elems[k]))
      && ((exists k :: 0 <= k < |items| && items[k].KeyValue?) ==> r.Err?)
  {
    BuildAllParts(m, items, NoType, fuel);
  }

  /** The keys of the key/value items, in any order. */
  function KeyValueKeys(items: seq<Node>): set<string> {
    if items == [] then {}
    else (if items[0].KeyValue? then {items[0].key} else {}) + KeyValueKeys(items[1..])
  }

  lemma {:induction false} TrailingKeys(schema: Schema, j: nat, acc: Dict)
    requires j <= |schema|
    ensures Keys(Trailing(schema, j, acc)) == Keys(acc) + FieldNames(schema, j, |schema|)
    decreases |schema| - j
  {
    if j < |schema| {
      TrailingKeys(schema, j + 1, Put(acc, FieldName(schema[j]), MarkerValue(schema[j])));
      FieldNamesSplit(schema, j);
    }
  }

  /**
   * Every schema key appears in the object, next to the keys of the
   * key/value items, and no other key does: extra positional items add
   * nothing.
   */
  lemma {:induction false} ItemsKeys(m: Materializer, rest: seq<Node>, schema: Schema, idx: nat, acc: Dict, fuel: nat)
    requires idx <= |schema|
    ensures ItemsFrom(m, rest, schema, idx, acc, fuel).Ok? ==>
      Keys(ItemsFrom(m, rest, schema, idx, acc, fuel).value) == Keys(acc) + KeyValueKeys(rest) + FieldNames(schema, idx, |schema|)
    decreases |rest|
  {
    if rest == [] {
      TrailingKeys(schema, idx, acc);
    } else if rest[0].KeyValue? {
      var v := Build(m, rest[0].item, NoType, fuel);
      if v.Ok? {
        ItemsKeys(m, rest[1..], schema, idx, Put(acc, rest[0].key, v.value), fuel);
      }
    } else if idx < |schema| {
      var v := Filled(m, schema[idx], Some(rest[0]), fuel);
      if v.Ok? {
        ItemsKeys(m, rest[1..], schema, idx + 1, Put(acc, FieldName(schema[idx]), v.value), fuel);
        FieldNamesSplit(schema, idx);
      }
    } else {
      ItemsKeys(m, rest[1..], schema, idx, acc, fuel);
    }
  }

  /** Every schema key and every key/value key is in the object, and nothing else. */
  lemma EveryFieldPresent(m: Materializer, items: seq<Node>, schema: Schema, fuel: nat)
    ensures MapList(m, items, schema, fuel).Ok? ==>
      Keys(MapList(m, items, schema, fuel).value) == KeyValueKeys(items) + FieldNames(schema, 0, |schema|)
  {
    ItemsKeys(m, items, schema, 0, [], fuel);
    assert Keys([]) == {};
  }

  lemma {:induction false} TrailingKeeps(schema: Schema, j: nat, acc: Dict, key: string)
    requires forall i :: j <= i < |schema| ==> FieldName(schema[i]) != key
    ensures Get(Trailing(schema, j, acc), key) == Get(acc, key)
    decreases |schema| - j
  {
    if j < |schema| {
      TrailingKeeps(schema, j + 1, Put(acc, FieldName(schema[j]), MarkerValue(schema[j])), key);
    }
  }

  /** Field i, not reached by any item, ends with its marker value. */
  lemma {:induction false} TrailingGet(schema: Schema, j: nat, acc: Dict, i: nat)
    requires j <= i < |schema| && DistinctFieldNames(schema)
    ensures Get(Trailing(schema, j, acc), FieldName(schema[i])) == Some(MarkerValue(schema[i]))
    decreases |schema| - j
  {
    var next := Put(acc, FieldName(schema[j]), MarkerValue(schema[j]));
    assert Trailing(schema, j, acc) == Trailing(schema, j + 1, next);
    if j == i {
      forall i' | j + 1 <= i' < |schema| ensures FieldName(schema[i']) != FieldName(schema[i]) {
        assert i < i';
      }
      TrailingKeeps(schema, j + 1, next, FieldName(schema[i]));
    } else {
      TrailingGet(schema, j + 1, next, i);
    }
  }

  /** The loop leaves alone a key that no later key/value item and no field from idx on writes. */
  lemma {:induction false} ItemsKeep(m: Materializer, rest: seq<Node>, schema: Schema, idx: nat, acc: Dict, fuel: nat, key: string)
    requires forall k :: 0 <= k < |rest| && rest[k].KeyValue? ==> rest[k].key != key
    requires forall i :: idx <= i < |schema| ==> FieldName(schema[i]) != key
    ensures ItemsFrom(m, rest, schema, idx, acc, fuel).Ok? ==> Get(ItemsFrom(m, rest, schema, idx, acc, fuel).value, key) == Get(acc, key)
    decreases |rest|
  {
    if rest == [] {
      TrailingKeeps(schema, idx, acc, key);
    } else if rest[0].KeyValue? {
      var v := Build(m, rest[0].item, NoType, fuel);
      if v.Ok? {
        ItemsKeep(m, rest[1..], schema, idx, Put(acc, rest[0].key, v.value), fuel, key);
      }
    } else if idx < |schema| {
      var v := Filled(m, schema[idx], Some(rest[0]), fuel);
      if v.Ok? {
        ItemsKeep(m, rest[1..], schema, idx + 1, Put(acc, FieldName(schema[idx]), v.value), fuel, key);
      }
    } else {
      ItemsKeep(m, rest[1..], schema, idx, acc, fuel, key);
    }
  }

  /** The k-th item of `rest` that is not a key/value item, if there is one. */
  function PositionalAt(rest: seq<Node>, k: nat): Option<Node>
    decreases |rest|
  {
    if rest == [] then None
    else if rest[0].KeyValue? then PositionalAt(rest[1..], k)
    else if k == 0 then Some(rest[0])
    else PositionalAt(rest[1..], k - 1)
  }

  /** Past a positional item, the k-th one is the (k - 1)-th of the rest. */
  lemma PositionalAtStep(rest: seq<Node>, k: nat)
    requires rest != [] && !rest[0].KeyValue? && k > 0
    ensures PositionalAt(rest, k) == PositionalAt(rest[1..], k - 1)
  {}

  /** PositionalAt picks the k-th element of PositionalItems. */
  lemma {:induction false} PositionalAtIndex(rest: seq<Node>, k: nat)
    ensures PositionalAt(rest, k) == if k < |PositionalItems(rest)| then Some(PositionalItems(rest)[k]) else None
    decreases |rest|
  {
    if rest != [] {
      var rest' := rest[1..];
      var pos, pos' := PositionalItems(rest), PositionalItems(rest');
      if rest[0].KeyValue? {
        assert pos == pos' && PositionalAt(rest, k) == PositionalAt(rest', k);
        PositionalAtIndex(rest', k);
      } else {
        assert pos == [rest[0]] + pos';
        if k == 0 {
          assert PositionalAt(rest, k) == Some(pos[0]);
        } else {
          var k' := k - 1;
          assert PositionalAt(rest, k) == PositionalAt(rest', k');
          PositionalAtIndex(rest', k');
          assert k < |pos| <==> k' < |pos'|;
          if k' < |pos'| {
            assert pos[k] == pos'[k'];
          }
        }
      }
    }
  }

  /**
   * The k-th positional item lands in field idx + k: a bare field takes it
   * built with no type, a `key: payload` field built against the payload,
   * and the default marker, or no item at all, gives the marker value.
   */
  lemma {:induction false} FieldMappingFrom(m: Materializer, rest: seq<Node>, schema: Schema, idx: nat, acc: Dict, fuel: nat, i: nat, p: nat, at: Option<Node>)
    requires idx <= i < |schema| && p == i - idx && at == PositionalAt(rest, p) && DistinctFieldNames(schema)
    requires forall k :: 0 <= k < |rest| && rest[k].KeyValue? ==> rest[k].key != FieldName(schema[i])
    ensures ItemsFrom(m, rest, schema, idx, acc, fuel).Ok? ==>
      Filled(m, schema[i], at, fuel).Ok? &&
      Get(ItemsFrom(m, rest, schema, idx, acc, fuel).value, FieldName(schema[i])) == Some(Filled(m, schema[i], at, fuel).value)
    decreases |rest|, 2
  {
    if rest == [] {
      TrailingGet(schema, idx, acc, i);
    } else if rest[0].KeyValue? {
      FieldMappingKeyValue(m, rest, schema, idx, acc, fuel, i, p, at);
    } else {
      FieldMappingPositional(m, rest, schema, idx, acc, fuel, i, p, at);
    }
  }

  /** FieldMappingFrom past a key/value item: the item does not touch field i. */
  lemma {:induction false} FieldMappingKeyValue(m: Materializer, rest: seq<Node>, schema: Schema, idx: nat, acc: Dict, fuel: nat, i: nat, p: nat, at: Option<Node>)
    requires rest != [] && rest[0].KeyValue?
    requires idx <= i < |schema| && p == i - idx && at == PositionalAt(rest, p) && DistinctFieldNames(schema)
    requires forall k :: 0 <= k < |rest| && rest[k].KeyValue? ==> rest[k].key != FieldName(schema[i])
    ensures ItemsFrom(m, rest, schema, idx, acc, fuel).Ok? ==>
      Filled(m, schema[i], at, fuel).Ok? &&
      Get(ItemsFrom(m, rest, schema, idx, acc, fuel).value, FieldName(schema[i])) == Some(Filled(m, schema[i], at, fuel).value)
    decreases |rest|, 0
  {
    var rest' := rest[1..];
    assert forall k :: 0 <= k < |rest'| ==> rest'[k] == rest[k + 1];
    var v := Build(m, rest[0].item, NoType, fuel);
    if v.Ok? {
      var next := Put(acc, rest[0].key, v.value);
      assert ItemsFrom(m, rest, schema, idx, acc, fuel) == ItemsFrom(m, rest', schema, idx, next, fuel);
      FieldMappingFrom(m, rest', schema, idx, next, fuel, i, p, at);
    }
  }

  /** FieldMappingFrom past a positional item: it fills field idx and the search goes on at idx + 1. */
  lemma {:induction false} FieldMappingPositional(m: Materializer, rest: seq<Node>, schema: Schema, idx: nat, acc: Dict, fuel: nat, i: nat, p: nat, at: Option<Node>)
    requires rest != [] && !rest[0].KeyValue?
    requires idx <= i < |schema| && p == i - idx && at == PositionalAt(rest, p) && DistinctFieldNames(schema)
    requires forall k :: 0 <= k < |rest| && rest[k].KeyValue? ==> rest[k].key != FieldName(schema[i])
    ensures ItemsFrom(m, rest, schema, idx, acc, fuel).Ok? ==>
      Filled(m, schema[i], at, fuel).Ok? &&
      Get(ItemsFrom(m, rest, schema, idx, acc, fuel).value, FieldName(schema[i])) == Some(Filled(m, schema[i], at, fuel).value)
    decreases |rest|, 1
  {
    if p == 0 {
      assert at == Some(rest[0]);
      FieldMappingFills(m, rest, schema, idx, acc, fuel);
    } else {
      var p' := p - 1;
      PositionalAtStep(rest, p);
      FieldMappingOnward(m, rest, schema, idx, acc, fuel, i, p', at);
    }
  }

  /** The positional item at the head of the loop is the one that lands in field idx. */
  lemma FieldMappingFills(m: Materializer, rest: seq<Node>, schema: Schema, idx: nat, acc: Dict, fuel: nat)
    requires rest != [] && !rest[0].KeyValue? && idx < |schema| && DistinctFieldNames(schema)
    requires forall k :: 0 <= k < |rest| && rest[k].KeyValue? ==> rest[k].key != FieldName(schema[idx])
    ensures ItemsFrom(m, rest, schema, idx, acc, fuel).Ok? ==>
      Filled(m, schema[idx], Some(rest[0]), fuel).Ok? &&
      Get(ItemsFrom(m, rest, schema, idx, acc, fuel).value, FieldName(schema[idx])) == Some(Filled(m, schema[idx], Some(rest[0]), fuel).value)
  {
    var ok := ItemsFromPositional(m, rest, schema, idx, acc, fuel);
    if ok {
      var v := Filled(m, schema[idx], Some(rest[0]), fuel).value;
      var rest', next := rest[1..], Put(acc, FieldName(schema[idx]), v);
      assert forall k :: 0 <= k < |rest'| ==> rest'[k] == rest[k + 1];
      FieldMappingHere(m, rest', schema, idx + 1, next, fuel, idx);
    }
  }

  /** A positional item before the one that reaches field i fills an earlier field; the search goes on at idx + 1. */
  lemma {:induction false} FieldMappingOnward(m: Materializer, rest: seq<Node>, schema: Schema, idx: nat, acc: Dict, fuel: nat, i: nat, p': nat, at: Option<Node>)
    requires rest != [] && !rest[0].KeyValue?
    requires idx < i < |schema| && p' == i - (idx + 1) && at == PositionalAt(rest[1..], p') && DistinctFieldNames(schema)
    requires forall k :: 0 <= k < |rest| && rest[k].KeyValue? ==> rest[k].key != FieldName(schema[i])
    ensures ItemsFrom(m, rest, schema, idx, acc, fuel).Ok? ==>
      Filled(m, schema[i], at, fuel).Ok? &&
      Get(ItemsFrom(m, rest, schema, idx, acc, fuel).value, FieldName(schema[i])) == Some(Filled(m, schema[i], at, fuel).value)
    decreases |rest|, 0
  {
    var rest', idx' := rest[1..], idx + 1;
    assert forall k :: 0 <= k < |rest'| ==> rest'[k] == rest[k + 1];
    var v := Filled(m, schema[idx], Some(rest[0]), fuel);
    if v.Ok? {
      assert !v.IsFailure() && v.Extract() == v.value;
      var next := Put(acc, FieldName(schema[idx]), v.value);
      assert ItemsFrom(m, rest, schema, idx, acc, fuel) == ItemsFrom(m, rest', schema, idx', next, fuel);
      FieldMappingFrom(m, rest', schema, idx', next, fuel, i, p', at);
    }
  }

  /** A positional item at the head of the loop fills field idx, or its failure fails the loop. */
  lemma ItemsFromPositional(m: Materializer, rest: seq<Node>, schema: Schema, idx: nat, acc: Dict, fuel: nat) returns (ok: bool)
    requires rest != [] && !rest[0].KeyValue? && idx < |schema|
    ensures ok <==> Filled(m, schema[idx], Some(rest[0]), fuel).Ok?
    ensures !ok ==> ItemsFrom(m, rest, schema, idx, acc, fuel).Err?
    ensures ok ==>
      ItemsFrom(m, rest, schema, idx, acc, fuel) ==
      ItemsFrom(m, rest[1..], schema, idx + 1, Put(acc, FieldName(schema[idx]), Filled(m, schema[idx], Some(rest[0]), fuel).value), fuel)
  {
    ok := Filled(m, schema[idx], Some(rest[0]), fuel).Ok?;
  }

  /** Field i has just been written: no later item touches it. */
  lemma FieldMappingHere(m: Materializer, rest: seq<Node>, schema: Schema, idx: nat, acc: Dict, fuel: nat, i: nat)
    requires 0 < idx == i + 1 <= |schema| && DistinctFieldNames(schema)
    requires forall k :: 0 <= k < |rest| && rest[k].KeyValue? ==> rest[k].key != FieldName(schema[i])
    ensures ItemsFrom(m, rest, schema, idx, acc, fuel).Ok? ==>
      Get(ItemsFrom(m, rest, schema, idx, acc, fuel).value, FieldName(schema[i])) == Get(acc, FieldName(schema[i]))
  {
    forall j | idx <= j < |schema| ensures FieldName(schema[j]) != FieldName(schema[i]) {
      assert i < j;
    }
    ItemsKeep(m, rest, schema, idx, acc, fuel, FieldName(schema[i]));
  }

  /**
   * `_map_list_to_object`: the k-th positional item (PositionalAt) fills
   * field k, and a field past the positional items gets its literal or
   * string payload, or None. A key/value item naming the field would
   * overwrite it, so none may.
   */
  lemma FieldMapping(m: Materializer, items: seq<Node>, schema: Schema, fuel: nat, i: nat)
    requires i < |schema| && DistinctFieldNames(schema)
    requires forall k :: 0 <= k < |items| && items[k].KeyValue? ==> items[k].key != FieldName(schema[i])
    ensures MapList(m, items, schema, fuel).Ok? ==>
      Filled(m, schema[i], PositionalAt(items, i), fuel).Ok? &&
      Get(MapList(m, items, schema, fuel).value, FieldName(schema[i])) == Some(Filled(m, schema[i], PositionalAt(items, i), fuel).value)
    ensures i >= |PositionalItems(items)| && MapList(m, items, schema, fuel).Ok? ==>
      Get(MapList(m, items, schema, fuel).value, FieldName(schema[i])) == Some(MarkerValue(schema[i]))
  {
    assert MapList(m, items, schema, fuel) == ItemsFrom(m, items, schema, 0, [], fuel);
    FieldMappingFrom(m, items, schema, 0, [], fuel, i, i, PositionalAt(items, i));
    PositionalAtIndex(items, i);
  }

  /** One item of the loop: it fails the mapping, or the loop goes on from the next item with the new dict and field index. */
  lemma ItemsFromUnfold(m: Materializer, rest: seq<Node>, schema: Schema, idx: nat, acc: Dict, fuel: nat)
      returns (idx': nat, next: Dict, ok: bool)
    requires rest != []
    ensures !ok ==> ItemsFrom(m, rest, schema, idx, acc, fuel).Err?
    ensures ok ==> ItemsFrom(m, rest, schema, idx, acc, fuel) == ItemsFrom(m, rest[1..], schema, idx', next, fuel)
  {
    idx', next, ok := idx, acc, true;
    if rest[0].KeyValue? {
      var v := Build(m, rest[0].item, NoType, fuel);
      ok := v.Ok?;
      if ok {
        next := Put(acc, rest[0].key, v.value);
      }
    } else if idx < |schema| {
      var v := Filled(m, schema[idx], Some(rest[0]), fuel);
      ok := v.Ok?;
      if ok {
        idx', next := idx + 1, Put(acc, FieldName(schema[idx]), v.value);
      }
    }
  }

  /** A key/value item at the head of the loop whose key nothing later writes ends with its untyped build. */
  lemma LaterKeyWinsHere(m: Materializer, rest: seq<Node>, schema: Schema, idx: nat, acc: Dict, fuel: nat)
    requires rest != [] && rest[0].KeyValue?
    requires forall j :: 0 < j < |rest| && rest[j].KeyValue? ==> rest[j].key != rest[0].key
    requires forall i :: 0 <= i < |schema| ==> FieldName(schema[i]) != rest[0].key
    ensures var r := ItemsFrom(m, rest, schema, idx, acc, fuel);
      r.Ok? ==> Build(m, rest[0].item, NoType, fuel).Ok? && Get(r.value, rest[0].key) == Some(Build(m, rest[0].item, NoType, fuel).value)
  {
    var v := Build(m, rest[0].item, NoType, fuel);
    if v.Ok? {
      var next := Put(acc, rest[0].key, v.value);
      assert ItemsFrom(m, rest, schema, idx, acc, fuel) == ItemsFrom(m, rest[1..], schema, idx, next, fuel);
      assert forall j :: 0 <= j < |rest| - 1 ==> rest[1..][j] == rest[j + 1];
      ItemsKeep(m, rest[1..], schema, idx, next, fuel, rest[0].key);
    }
  }

  /**
   * Key/value items are written in item order, so of two items with the same
   * key the later one wins (provided no field has that name).
   */
  lemma {:induction false} LaterKeyWinsFrom(m: Materializer, rest: seq<Node>, schema: Schema, idx: nat, acc: Dict, fuel: nat, k: nat)
    requires k < |rest| && rest[k].KeyValue?
    requires forall j :: k < j < |rest| && rest[j].KeyValue? ==> rest[j].key != rest[k].key
    requires forall i :: 0 <= i < |schema| ==> FieldName(schema[i]) != rest[k].key
    ensures var r := ItemsFrom(m, rest, schema, idx, acc, fuel);
      r.Ok? ==> Build(m, rest[k].item, NoType, fuel).Ok? && Get(r.value, rest[k].key) == Some(Build(m, rest[k].item, NoType, fuel).value)
    decreases |rest|
  {
    if k == 0 {
      LaterKeyWinsHere(m, rest, schema, idx, acc, fuel);
    } else {
      var idx', next, ok := ItemsFromUnfold(m, rest, schema, idx, acc, fuel);
      if ok {
        assert forall j :: 0 <= j < |rest| - 1 ==> rest[1..][j] == rest[j + 1];
        LaterKeyWinsFrom(m, rest[1..], schema, idx', next, fuel, k - 1);
      }
    }
  }

  lemma LaterKeyWins(m: Materializer, items: seq<Node>, schema: Schema, fuel: nat, k: nat)
    requires k < |items| && items[k].KeyValue?
    requires forall j :: k < j < |items| && items[j].KeyValue? ==> items[j].key != items[k].key
    requires forall i :: 0 <= i < |schema| ==> FieldName(schema[i]) != items[k].key
    ensures var r := MapList(m, items, schema, fuel);
      r.Ok? ==> Build(m, items[k].item, NoType, fuel).Ok? && Get(r.value, items[k].key) == Some(Build(m, items[k].item, NoType, fuel).value)
  {
    LaterKeyWinsFrom(m, items, schema, 0, [], fuel, k);
  }

  /** Once the schema is used up, positional items are dropped: only the key/value items still count. */
  lemma {:induction false} ExtraItemsDropped(m: Materializer, rest: seq<Node>, schema: Schema, idx: nat, acc: Dict, fuel: nat)
    requires |schema| <= idx
    ensures ItemsFrom(m, rest, schema, idx, acc, fuel) == ItemsFrom(m, KeyValueItems(rest), schema, idx, acc, fuel)
    decreases |rest|
  {
    if rest != [] {
      var kvs := KeyValueItems(rest[1..]);
      if rest[0].KeyValue? {
        assert KeyValueItems(rest) == [rest[0]] + kvs;
        assert KeyValueItems(rest)[1..] == kvs;
        var v := Build(m, rest[0].item, NoType, fuel);
        if v.Ok? {
          ExtraItemsDropped(m, rest[1..], schema, idx, Put(acc, rest[0].key, v.value), fuel);
        }
      } else {
        ExtraItemsDropped(m, rest[1..], schema, idx, acc, fuel);
      }
    }
  }

  /**
   * `_map_value_list_to_object`: every field gets a key; a bare field the
   * list's value in its place (None past the end), a `key: payload` field
   * that value built against its payload.
   */
  lemma ValueListFields(m: Materializer, values: seq<PyValue>, schema: Schema, j: nat, acc: Dict, fuel: nat)
    requires j <= |schema| && DistinctFieldNames(schema)
    ensures var r := MapValueList(m, values, schema, j, acc, fuel);
      r.Ok? ==>
        Keys(r.value) == Keys(acc) + FieldNames(schema, j, |schema|)
        && (forall i :: j <= i < |schema| && schema[i].Bare? ==> Get(r.value, schema[i].name) == Some(ValueFor(values, i)))
        && (forall i :: j <= i < |schema| && !schema[i].Bare? ==>
              Build(m, Prim(ValueFor(values, i)), PayloadExpect(schema[i]), fuel).Ok?
              && Get(r.value, schema[i].key) == Some(Build(m, Prim(ValueFor(values, i)), PayloadExpect(schema[i]), fuel).value))
  {
    ValueListKeySet(m, values, schema, j, acc, fuel);
    forall i | j <= i < |schema| {
      ValueListField(m, values, schema, j, acc, fuel, i);
    }
  }

  /** Every field of the schema from j on gets a key. */
  lemma {:induction false} ValueListKeySet(m: Materializer, values: seq<PyValue>, schema: Schema, j: nat, acc: Dict, fuel: nat)
    requires j <= |schema|
    ensures var r := MapValueList(m, values, schema, j, acc, fuel);
      r.Ok? ==> Keys(r.value) == Keys(acc) + FieldNames(schema, j, |schema|)
    decreases |schema| - j
  {
    if j < |schema| {
      var next := ValueField(m, ValueFor(values, j), schema[j], acc, fuel);
      if next.Ok? {
        var j', acc' := j + 1, next.value;
        assert MapValueList(m, values, schema, j, acc, fuel) == MapValueList(m, values, schema, j', acc', fuel);
        ValueListKeySet(m, values, schema, j', acc', fuel);
        FieldNamesSplit(schema, j);
      }
    }
  }

  /** Field i ends with the value in place i: as it is for a bare field, built against the payload otherwise. */
  lemma {:induction false} ValueListField(m: Materializer, values: seq<PyValue>, schema: Schema, j: nat, acc: Dict, fuel: nat, i: nat)
    requires j <= i < |schema| && DistinctFieldNames(schema)
    ensures var r := MapValueList(m, values, schema, j, acc, fuel);
      r.Ok? ==>
        (schema[i].Bare? ==> Get(r.value, schema[i].name) == Some(ValueFor(values, i)))
        && (!schema[i].Bare? ==>
              Build(m, Prim(ValueFor(values, i)), PayloadExpect(schema[i]), fuel).Ok?
              && Get(r.value, schema[i].key) == Some(Build(m, Prim(ValueFor(values, i)), PayloadExpect(schema[i]), fuel).value))
    decreases |schema| - j
  {
    var next := ValueField(m, ValueFor(values, j), schema[j], acc, fuel);
    if next.Ok? {
      var j', acc' := j + 1, next.value;
      assert MapValueList(m, values, schema, j, acc, fuel) == MapValueList(m, values, schema, j', acc', fuel);
      if i == j {
        forall i' | j' <= i' < |schema| ensures FieldName(schema[i']) != FieldName(schema[i]) {
          assert i < i';
        }
        ValueListKeeps(m, values, schema, j', acc', fuel, FieldName(schema[i]));
      } else {
        ValueListField(m, values, schema, j', acc', fuel, i);
      }
    }
  }

  /** The value list loop leaves alone a key that none of its remaining fields names. */
  lemma {:induction false} ValueListKeeps(m: Materializer, values: seq<PyValue>, schema: Schema, j: nat, acc: Dict, fuel: nat, key: string)
    requires forall i :: j <= i < |schema| ==> FieldName(schema[i]) != key
    ensures MapValueList(m, values, schema, j, acc, fuel).Ok? ==> Get(MapValueList(m, values, schema, j, acc, fuel).value, key) == Get(acc, key)
    decreases |schema| - j
  {
    if j < |schema| {
      var next := ValueField(m, ValueFor(values, j), schema[j], acc, fuel);
      if next.Ok? {
        var j', acc' := j + 1, next.value;
        assert MapValueList(m, values, schema, j, acc, fuel) == MapValueList(m, values, schema, j', acc', fuel);
        ValueListKeeps(m, values, schema, j', acc', fuel, key);
      }
    }
  }

  /* ---------------- the loops, as the source runs them ---------------- */

  /** `_map_list_to_object`: one pass over the items, then the fields no item reached. */
  method MapListToObject(m: Materializer, items: seq<Node>, schema: Schema, fuel: nat) returns (r: Result<Dict>)
    ensures r == MapList(m, items, schema, fuel)
  {
    var result: Dict := [];
    var schemaIdx: nat := 0;
    assert items[0..] == items;
    for k := 0 to |items|
      invariant MapList(m, items, schema, fuel) == ItemsFrom(m, items[k..], schema, schemaIdx, result, fuel)
    {
      var next := TakeItem(m, items[k], items[k..], schema, schemaIdx, result, fuel);
      if next.Err? {
        return Err(next.error);
      }
      assert items[k..][1..] == items[k + 1..];
      result, schemaIdx := next.value.0, next.value.1;
    }
    result := FillTrailing(schema, schemaIdx, result);
    return Ok(result);
  }

  /**
   * One pass of the item loop: a key/value item sets its key, a positional
   * item fills the field at `schema_idx` and moves it on, and a positional
   * item past the schema changes nothing.
   */
  method TakeItem(m: Materializer, item: Node, ghost rest: seq<Node>, schema: Schema, schemaIdx: nat, result: Dict, fuel: nat)
    returns (r: Result<(Dict, nat)>)
    requires rest != [] && rest[0] == item
    ensures ItemsFrom(m, rest, schema, schemaIdx, result, fuel)
      == if r.Ok? then ItemsFrom(m, rest[1..], schema, r.value.1, r.value.0, fuel) else Err(r.error)
  {
    if item.KeyValue? {
      var v := Build(m, item.item, NoType, fuel);
      if v.Err? {
        return Err(v.error);
      }
      return Ok((Put(result, item.key, v.value), schemaIdx));
    } else if schemaIdx < |schema| {
      var field := schema[schemaIdx];
      var v: PyValue;
      if item == Prim(PStr("DEFAULT")) {
        v := DefaultFieldValue(field);
      } else {
        var built := Build(m, item, if field.Bare? then NoType else PayloadExpect(field), fuel);
        if built.Err? {
          return Err(built.error);
        }
        v := built.value;
      }
      return Ok((Put(result, FieldName(field), v), schemaIdx + 1));
    }
    return Ok((result, schemaIdx));
  }

  lemma TrailingStep(schema: Schema, j: nat, acc: Dict)
    requires j < |schema|
    ensures Trailing(schema, j, acc) == Trailing(schema, j + 1, Put(acc, FieldName(schema[j]), MarkerValue(schema[j])))
  {
  }

  /** The loop over the fields no item reached: each gets its literal or string payload, or None. */
  method FillTrailing(schema: Schema, schemaIdx: nat, acc: Dict) returns (result: Dict)
    ensures result == Trailing(schema, schemaIdx, acc)
  {
    result := acc;
    var j := schemaIdx;
    while j < |schema|
      invariant Trailing(schema, schemaIdx, acc) == Trailing(schema, j, result)
      decreases |schema| - j
    {
      var field := schema[j];
      var v := DefaultFieldValue(field);
      TrailingStep(schema, j, result);
      result := Put(result, FieldName(field), v);
      j := j + 1;
    }
  }

  /** What a field gets from the default marker or when no item reached it: a scalar payload, else None. */
  method DefaultFieldValue(field: Field) returns (v: PyValue)
    ensures v == MarkerValue(field)
  {
    if !field.Bare? {
      if field.Typed? && (IsLiteral(field.payload) || field.payload.PStr?) {
        v := field.payload;
      } else {
        v := PNone;
      }
    } else {
      v := PNone;
    }
  }

  /** `_map_value_list_to_object`. */
  method MapValueListToObject(m: Materializer, values: seq<PyValue>, schema: Schema, fuel: nat) returns (r: Result<Dict>)
    ensures r == MapValueList(m, values, schema, 0, [], fuel)
  {
    var result: Dict := [];
    for idx := 0 to |schema|
      invariant MapValueList(m, values, schema, 0, [], fuel) == MapValueList(m, values, schema, idx, result, fuel)
    {
      var value := if idx < |values| then values[idx] else PNone;
      var field := schema[idx];
      if !field.Bare? {
        var built := Build(m, Prim(value), PayloadExpect(field), fuel);
        if built.Err? {
          return Err(built.error);
        }
        result := Put(result, field.key, built.value);
      } else {
        result := Put(result, field.name, value);
      }
    }
    return Ok(result);
  }

  /**
   * `parse_bref`: the declarations are taken out, the rest is parsed from its
   * first value, and whatever follows that value is skipped over unread.
   */
  method ParseBref(content: string, decode: string -> Option<string>, fuel: nat) returns (r: Result<PyValue>)
    ensures r == ParseBrefOf(content, decode, fuel)
  {
    var ex := ParseTypeDefinitions(content);
    if ex.Err? {
      return Err(ex.error);
    }
    var parser := new Bref2Parser.Parser(ex.value.body, ConverterConfig(decode));
    var root := parser.ParseValue();
    if root.Err? {
      return Err(root.error);
    }
    parser.SkipWs();
    r := Build(Materializer(ex.value.types, ex.value.values), root.value, NoType, fuel);
  }
}
