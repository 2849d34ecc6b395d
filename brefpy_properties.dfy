/**
 * What the string-segment parser of `bref-py/parser.py` promises, proved
 * about the model: how many segments a text has, which keys a typed or
 * schema-driven object can hold, how many elements an array gets, and how
 * the plain value classification relates to the nested one.
 */
module BrefPyProperties {
  import opened Text
  import opened Base
  import opened PyData
  import opened Segments
  import opened Trailing
  import opened BrefPyDeclarations
  import opened BrefPyParser

  /** `iterate_segments` yields one segment more than there are commas at depth zero. */
  lemma SegmentCount(text: string)
    ensures |SegmentsOf(text)| == 1 + Cuts(text, |text|, BracesAndBrackets)
  {
    PiecesCount(text, BracesAndBrackets);
  }

  /** `split_by_delimiters` never yields an empty part, and every part is already stripped. */
  lemma SplitPartsClean(text: string)
    ensures forall k :: 0 <= k < |NonEmpty(SegmentsOf(text))| ==>
      NonEmpty(SegmentsOf(text))[k] != "" && Clean(NonEmpty(SegmentsOf(text))[k])
  {
    var segs := SegmentsOf(text);
    var pieces := Pieces(text, BracesAndBrackets);
    var parts := NonEmpty(segs);
    forall k | 0 <= k < |parts| ensures Clean(parts[k]) {
      var j :| 0 <= j < |segs| && segs[j] == parts[k];
      StripTwice(pieces[j], Py);
    }
  }

  /** A braced or bracketed text is neither a keyword, a quoted string, a number nor an identifier. */
  lemma WrappedIsNotScalarText(s: string, open: char, close: char)
    requires open == '{' || open == '['
    requires Wrapped(s, open, close)
    ensures Keyword(s).None? && !Wrapped(s, '"', '"') && !NumberShaped(s) && !IdentifierShaped(s)
  {
    assert LowerStr(s)[0] == open;
    RemoveKeepsHead(s, '.');
    RemoveKeepsHead(Remove(s, '.'), '-');
    RemoveKeepsHead(s, '_');
  }

  /**
   * `parse_value` and `parse_simple_value` agree exactly on the texts
   * whose stripped form is neither braced nor bracketed: only the nested
   * cases tell them apart, and there the simple one keeps a string.
   */
  lemma ValueIsSimpleIff(x: string)
    ensures ValueOf(x) == SimpleValueOf(x) <==> !Wrapped(Strip(x), '{', '}') && !Wrapped(Strip(x), '[', ']')
  {
    var s := Strip(x);
    if Wrapped(s, '{', '}') || Wrapped(s, '[', ']') {
      WrappedIsNotScalarText(s, s[0], s[|s| - 1]);
      assert SimpleValueOf(x) == Ok(PStr(s));
      assert ValueOf(x).Err? || ValueOf(x).value.PDict? || ValueOf(x).value.PList?;
    } else {
      assert ValueOf(x) == SimpleValueOf(x);
    }
  }

  /** The field indices a plan names. */
  function FieldsOf(plan: Plan): (fs: set<nat>)
    ensures forall k :: 0 <= k < |plan| ==> plan[k].0 in fs
  {
    set k | 0 <= k < |plan| :: plan[k].0
  }

  lemma FieldsOfCons(plan: Plan)
    requires plan != []
    ensures FieldsOf(plan) == {plan[0].0} + FieldsOf(plan[1..])
  {
    forall f | f in FieldsOf(plan) ensures f in {plan[0].0} + FieldsOf(plan[1..]) {
      var k :| 0 <= k < |plan| && plan[k].0 == f;
      if k > 0 {
        assert plan[1..][k - 1] == plan[k];
      }
    }
    forall f | f in FieldsOf(plan[1..]) ensures f in FieldsOf(plan) {
      var k :| 0 <= k < |plan[1..]| && plan[1..][k].0 == f;
      assert plan[k + 1].0 == f;
    }
  }

  /** The keys of the schema fields a plan names. */
  function PlanKeys(schema: Schema, plan: Plan): set<string> {
    set f | f in FieldsOf(plan) && f < |schema| :: FieldKey(schema[f])
  }

  /** The keys of all the fields of a schema. */
  function SchemaKeys(schema: Schema): set<string> {
    set f | 0 <= f < |schema| :: FieldKey(schema[f])
  }

  lemma PlanKeysCons(schema: Schema, plan: Plan)
    requires plan != [] && plan[0].0 < |schema|
    ensures PlanKeys(schema, plan) == {FieldKey(schema[plan[0].0])} + PlanKeys(schema, plan[1..])
  {
    FieldsOfCons(plan);
  }

  lemma {:induction false} FillPlanKeys(schema: Schema, plan: Plan, items: seq<Item>, acc: Dict, defs: Defs, bound: nat)
    requires Fits(plan, |schema|, |items|) && AllWithin(items, bound)
    ensures FillPlan(schema, plan, items, acc, defs, bound).Ok? ==>
      Keys(FillPlan(schema, plan, items, acc, defs, bound).value) == Keys(acc) + PlanKeys(schema, plan)
    decreases |plan|
  {
    if plan == [] {
      assert FieldsOf(plan) == {};
    } else {
      var f, p, rest := plan[0].0, plan[0].1, plan[1..];
      assert plan == [(f, p)] + rest;
      FillPlanCons(schema, f, p, rest, items, acc, defs, bound);
      var v := FieldValueOf(schema[f], items[p], defs, bound);
      if v.Ok? {
        var acc' := Put(acc, FieldKey(schema[f]), v.value);
        FillPlanKeys(schema, rest, items, acc', defs, bound);
        PlanKeysCons(schema, plan);
      }
    }
  }

  lemma {:induction false} FillPlanDistinct(schema: Schema, plan: Plan, items: seq<Item>, acc: Dict, defs: Defs, bound: nat)
    requires Fits(plan, |schema|, |items|) && AllWithin(items, bound)
    requires DistinctKeys(acc)
    ensures FillPlan(schema, plan, items, acc, defs, bound).Ok? ==> DistinctKeys(FillPlan(schema, plan, items, acc, defs, bound).value)
    decreases |plan|
  {
    if plan != [] {
      var f, p, rest := plan[0].0, plan[0].1, plan[1..];
      assert plan == [(f, p)] + rest;
      FillPlanCons(schema, f, p, rest, items, acc, defs, bound);
      var v := FieldValueOf(schema[f], items[p], defs, bound);
      if v.Ok? {
        PutKeepsDistinct(acc, FieldKey(schema[f]), v.value);
        FillPlanDistinct(schema, rest, items, Put(acc, FieldKey(schema[f]), v.value), defs, bound);
      }
    }
  }

  /** A plan that fits a schema names only the schema's keys. */
  lemma PlanKeysInSchema(schema: Schema, plan: Plan, count: nat)
    requires Fits(plan, |schema|, count)
    ensures PlanKeys(schema, plan) <= SchemaKeys(schema)
  {
  }

  /**
   * `parse_object` with a registered type (after a trailing type name,
   * if any, replaced the current type) writes only keys of that type's
   * schema, each once.
   */
  lemma TypedObjectKeys(o: string, defs: Defs, ct: string)
    requires !ExtractTrailingType(o).1.Inline?
    requires Effective(ExtractTrailingType(o).1, ct) != "" && Effective(ExtractTrailingType(o).1, ct) in defs
    ensures ObjectOf(o, defs, ct).Ok? ==>
      Keys(ObjectOf(o, defs, ct).value) <= SchemaKeys(defs[Effective(ExtractTrailingType(o).1, ct)])
      && DistinctKeys(ObjectOf(o, defs, ct).value)
  {
    var e := ExtractTrailingType(o);
    var t := Effective(e.1, ct);
    var inner := Unwrap(e.0, '{', '}');
    var segs := SegmentsOf(inner);
    AnnotatedWithin(segs, |inner|);
    var schema, items := defs[t], Annotated(segs);
    var plan := TypedPlan(|schema|, 0, segs, 0, 0);
    assert ObjectOf(o, defs, ct) == FillPlan(schema, plan, items, [], defs, |inner|);
    FillPlanKeys(schema, plan, items, [], defs, |inner|);
    FillPlanDistinct(schema, plan, items, [], defs, |inner|);
    PlanKeysInSchema(schema, plan, |items|);
    assert Keys([]) == {};
  }

  /** Fields and segment positions both strictly increase along the plan. */
  predicate Increasing(plan: Plan) {
    forall a, b :: 0 <= a < b < |plan| ==> plan[a].0 < plan[b].0 && plan[a].1 < plan[b].1
  }

  /** One field of the typed loop: the segment the skipping stops at is either left out or paired with field `i`. */
  lemma TypedPlanUnfold(n: nat, i: nat, segs: seq<string>, next: nat, index: nat) returns (pos: nat, index': nat, filled: bool)
    requires i < n && next < |segs|
    ensures next <= pos < |segs|
    ensures filled ==> Strip(segs[pos]) != ""
    ensures filled ==> TypedPlan(n, i, segs, next, index) == [(i, pos)] + TypedPlan(n, i + 1, segs, pos + 1, index')
    ensures !filled ==> TypedPlan(n, i, segs, next, index) == TypedPlan(n, i + 1, segs, pos + 1, index')
  {
    var s := SkipBlank(segs, next, index, n);
    pos := s.0;
    filled := Strip(segs[pos]) != "";
    if filled {
      index' := s.1 + 1;
      TypedPlanFilled(n, i, segs, next, index, pos, s.1);
    } else {
      index' := s.1;
      TypedPlanBlank(n, i, segs, next, index, pos, s.1);
    }
  }

  /** Putting a pair below every later one in front of an increasing plan keeps it increasing. */
  lemma IncreasingStep(plan: Plan, rest: Plan, f: nat, pos: nat, filled: bool)
    requires filled ==> plan == [(f, pos)] + rest
    requires !filled ==> plan == rest
    requires Increasing(rest)
    requires forall k :: 0 <= k < |rest| ==> f + 1 <= rest[k].0 && pos + 1 <= rest[k].1
    ensures Increasing(plan)
  {
  }

  /** The typed loop writes fields in schema order, each from a later segment than the one before. */
  lemma {:induction false} TypedPlanOrdered(n: nat, i: nat, segs: seq<string>, next: nat, index: nat)
    requires i <= n && next <= |segs|
    ensures Increasing(TypedPlan(n, i, segs, next, index))
    decreases n - i
  {
    if i < n && next < |segs| {
      var pos, index', filled := TypedPlanUnfold(n, i, segs, next, index);
      TypedPlanOrdered(n, i + 1, segs, pos + 1, index');
      IncreasingStep(TypedPlan(n, i, segs, next, index), TypedPlan(n, i + 1, segs, pos + 1, index'), i, pos, filled);
    }
  }

  /** Every segment the plan reads is not blank. */
  predicate ReadsFilled(plan: Plan, segs: seq<string>) {
    forall k :: 0 <= k < |plan| ==> plan[k].1 < |segs| && Strip(segs[plan[k].1]) != ""
  }

  /** Putting a pair that reads a non-blank segment in front of a plan that reads only non-blank segments keeps that so. */
  lemma ReadsFilledStep(plan: Plan, rest: Plan, segs: seq<string>, f: nat, pos: nat, filled: bool)
    requires filled ==> plan == [(f, pos)] + rest && pos < |segs| && Strip(segs[pos]) != ""
    requires !filled ==> plan == rest
    requires ReadsFilled(rest, segs)
    ensures ReadsFilled(plan, segs)
  {
  }

  /** The typed loop leaves a field unset rather than read a blank segment. */
  lemma {:induction false} TypedPlanReadsFilled(n: nat, i: nat, segs: seq<string>, next: nat, index: nat)
    requires i <= n && next <= |segs|
    ensures ReadsFilled(TypedPlan(n, i, segs, next, index), segs)
    decreases n - i
  {
    if i < n && next < |segs| {
      var pos, index', filled := TypedPlanUnfold(n, i, segs, next, index);
      TypedPlanReadsFilled(n, i + 1, segs, pos + 1, index');
      ReadsFilledStep(TypedPlan(n, i, segs, next, index), TypedPlan(n, i + 1, segs, pos + 1, index'), segs, i, pos, filled);
    }
  }

  /** The fields from `i` on whose own segment is present and not blank. */
  function FilledFrom(n: nat, segs: seq<string>, i: nat): set<nat> {
    set j: nat | i <= j < n && j < |segs| && Strip(segs[j]) != ""
  }

  lemma FilledFromStep(n: nat, segs: seq<string>, i: nat)
    requires i < n && i < |segs|
    ensures Strip(segs[i]) == "" ==> FilledFrom(n, segs, i) == FilledFrom(n, segs, i + 1)
    ensures Strip(segs[i]) != "" ==> FilledFrom(n, segs, i) == {i} + FilledFrom(n, segs, i + 1)
  {
  }

  /** The fields of `parse_object_with_schema` from `i`: those with a segment of their own that is not blank. */
  lemma {:induction false} SchemaPlanFields(n: nat, segs: seq<string>, i: nat)
    requires i <= n
    ensures FieldsOf(SchemaPlan(n, segs, i)) == FilledFrom(n, segs, i)
    decreases n - i
  {
    var plan := SchemaPlan(n, segs, i);
    if i == n || i >= |segs| {
      assert FieldsOf(plan) == {};
      assert FilledFrom(n, segs, i) == {};
    } else {
      SchemaPlanFields(n, segs, i + 1);
      FilledFromStep(n, segs, i);
      if Strip(segs[i]) != "" {
        FieldsOfCons(plan);
        assert plan[1..] == SchemaPlan(n, segs, i + 1);
      }
    }
  }

  /** The keys of the fields whose own segment is present and not blank. */
  function FilledKeys(schema: Schema, segs: seq<string>): set<string> {
    set j | 0 <= j < |schema| && j < |segs| && Strip(segs[j]) != "" :: FieldKey(schema[j])
  }

  /**
   * `parse_object_with_schema` writes field k exactly when segment k
   * exists and is not blank: the keys are those fields' keys, each once.
   */
  lemma WithSchemaKeys(o: string, schema: Schema, defs: Defs)
    ensures WithSchemaOf(o, schema, defs).Ok? ==>
      Keys(WithSchemaOf(o, schema, defs).value) == FilledKeys(schema, SegmentsOf(Unwrap(o, '{', '}')))
      && DistinctKeys(WithSchemaOf(o, schema, defs).value)
  {
    var inner := Unwrap(o, '{', '}');
    var segs := SegmentsOf(inner);
    AnnotatedWithin(segs, |inner|);
    var items := Annotated(segs);
    var plan := SchemaPlan(|schema|, segs, 0);
    assert WithSchemaOf(o, schema, defs) == FillPlan(schema, plan, items, [], defs, |inner|);
    FillPlanKeys(schema, plan, items, [], defs, |inner|);
    FillPlanDistinct(schema, plan, items, [], defs, |inner|);
    SchemaPlanFields(|schema|, segs, 0);
    assert Keys([]) == {};
    assert PlanKeys(schema, plan) == FilledKeys(schema, segs);
  }

  lemma {:induction false} ArrayFillCount(segs: seq<string>, items: seq<Item>, i: nat, et: string, defs: Defs, bound: nat)
    requires i <= |segs| == |items| && AllWithin(items, bound)
    ensures ArrayFill(segs, items, i, et, defs, bound).Ok? ==> |ArrayFill(segs, items, i, et, defs, bound).value| == |NonEmpty(segs[i..])|
    decreases |segs| - i
  {
    if i < |segs| {
      ArrayFillCount(segs, items, i + 1, et, defs, bound);
      assert segs[i..] == [segs[i]] + segs[i + 1..];
      NonEmptyCons(segs[i], segs[i + 1..]);
    }
  }

  /** `parse_array` gives one element per non-empty top-level segment of the unbracketed core. */
  lemma ArrayCount(a: string, defs: Defs, et: string)
    ensures ArrayOf(a, defs, et).Ok? ==>
      |ArrayOf(a, defs, et).value| == |NonEmpty(SegmentsOf(Unwrap(ExtractTrailingType(a).0, '[', ']')))|
  {
    var e := ExtractTrailingType(a);
    var inner := Unwrap(e.0, '[', ']');
    var segs := SegmentsOf(inner);
    AnnotatedWithin(segs, |inner|);
    ArrayFillCount(segs, Annotated(segs), 0, Effective(e.1, et), defs, |inner|);
    assert segs[0..] == segs;
  }

  /** An untyped object writes each key once: a repeated key overwrites the earlier entry in place. */
  lemma {:induction false} UntypedFillDistinct(segs: seq<string>, items: seq<Item>, i: nat, acc: Dict, defs: Defs, bound: nat)
    requires i <= |segs| == |items| && AllWithin(items, bound)
    requires DistinctKeys(acc)
    ensures UntypedFill(segs, items, i, acc, defs, bound).Ok? ==> DistinctKeys(UntypedFill(segs, items, i, acc, defs, bound).value)
    decreases |segs| - i
  {
    if i < |segs| {
      if Strip(segs[i]) == "" {
        UntypedFillDistinct(segs, items, i + 1, acc, defs, bound);
      } else {
        var kv := EntryOf(items[i], |acc|, defs, bound);
        if kv.Ok? {
          PutKeepsDistinct(acc, kv.value.0, kv.value.1);
          UntypedFillDistinct(segs, items, i + 1, Put(acc, kv.value.0, kv.value.1), defs, bound);
        }
      }
    }
  }

  /** A `k: v` entry (not starting with '"') is keyed by the stripped text before its first ':'. */
  lemma EntryKeyed(item: Item, size: nat, defs: Defs, bound: nat)
    requires Within(item, bound)
    requires ':' in item.0 && !BeginsWith(item.0, '"')
    ensures EntryOf(item, size, defs, bound).Ok? ==> EntryOf(item, size, defs, bound).value.0 == Strip(item.0[..IndexOf(item.0, ':')])
  {
  }

  /** Any other entry is the plain value of the core, keyed `field_<size>`. */
  lemma EntryPositional(item: Item, size: nat, defs: Defs, bound: nat)
    requires Within(item, bound)
    requires ':' !in item.0 || BeginsWith(item.0, '"')
    ensures EntryOf(item, size, defs, bound).Ok? <==> ValueOf(item.0).Ok?
    ensures EntryOf(item, size, defs, bound).Ok? ==> EntryOf(item, size, defs, bound).value == (PositionalKey(size), ValueOf(item.0).value)
  {
  }

  /**
   * The annotation is taken off before the entry is split, so in an
   * untyped object `k: name` with an identifier value reads as a trailing
   * type name: the entry becomes the positional value of `k`.
   */
  lemma IdentifierValueIsAnnotation(k: string, name: string, size: nat, defs: Defs)
    requires Clean(k) && ':' !in k && Identifier(name)
    ensures Within(ExtractTrailingType(k + ": " + name), |k + ": " + name|)
    ensures EntryOf(ExtractTrailingType(k + ": " + name), size, defs, |k + ": " + name|).Ok? <==> ValueOf(k).Ok?
    ensures EntryOf(ExtractTrailingType(k + ": " + name), size, defs, |k + ": " + name|).Ok? ==>
      EntryOf(ExtractTrailingType(k + ": " + name), size, defs, |k + ": " + name|).value == (PositionalKey(size), ValueOf(k).value)
  {
    TypeNameRoundTrip(k, name);
    EntryPositional((k, TypeName(name)), size, defs, |k + ": " + name|);
  }
}
