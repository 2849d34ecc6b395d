/**
 * What `bref/parser.py` promises, proved about the model: keywords, numbers
 * and quoted strings read back what Python would print for them, objects
 * split at braces only, a registered type hands out the non-blank values
 * field by field, and arrays keep one element per non-blank part.
 */
module BrefProperties {
  import opened Text
  import opened Base
  import opened PyData
  import opened Segments
  import opened BrefPyDeclarations
  import BrefPyParser
  import opened BrefParser

  function Min(a: nat, b: nat): nat {
    if a < b then a else b
  }

  /** A text starting with something other than a letter is not a keyword. */
  lemma NotKeyword(s: string)
    requires s != [] && !('a' <= s[0] <= 'z') && !('A' <= s[0] <= 'Z')
    ensures BrefPyParser.Keyword(s).None?
  {
    assert LowerStr(s)[0] == s[0];
  }

  lemma LowerKeywords()
    ensures LowerStr("NULL") == "null" && LowerStr("True") == "true" && LowerStr("fAlSe") == "false"
  {
    assert LowerStr("NULL") == "null";
    assert LowerStr("True") == "true";
    assert LowerStr("fAlSe") == "false";
  }

  /** Example: `NULL`, `True` and `fAlSe` are read as keywords, ahead of every other rule. */
  lemma KeywordsAnyCase()
    ensures ValueOf("NULL") == Ok(PNone)
    ensures ValueOf("True") == Ok(PBool(true))
    ensures ValueOf("fAlSe") == Ok(PBool(false))
  {
    LowerKeywords();
    StripNoEdges("NULL", Py);
    StripNoEdges("True", Py);
    StripNoEdges("fAlSe", Py);
  }

  /** Python's `str(i)` passes the number test, and `int()` reads `i` back from it. */
  lemma IntTextReads(i: int)
    ensures '.' !in IntText(i) && NumberShaped(IntText(i))
    ensures IsIntText(IntText(i)) && IntValue(IntText(i)) == i
  {
    var t := IntText(i);
    var digits := NatToString(if i < 0 then -i else i);
    assert '.' !in digits && '-' !in digits;
    NatToStringValue(if i < 0 then -i else i);
    RemoveAbsent(t, '.');
    if i < 0 {
      assert t[1..] == digits;
      assert Remove(t, '-') == Remove(digits, '-');
      RemoveAbsent(digits, '-');
      assert !IsDigits(t);
    } else {
      RemoveAbsent(t, '-');
    }
  }

  /** An int printed by Python is read back as that int. */
  lemma IntRoundTrip(i: int)
    ensures ValueOf(IntText(i)) == Ok(PInt(i))
  {
    var t := IntText(i);
    StripNoEdges(t, Py);
    NotKeyword(t);
    IntTextReads(i);
  }

  /** A quoted text is read back as the text between the quotes, whatever it holds: there is no escape processing. */
  lemma QuotedRoundTrip(t: string)
    ensures ValueOf("\"" + t + "\"") == Ok(PStr(t))
  {
    var q := "\"" + t + "\"";
    QuotedShape(q);
    assert Inner(q) == t;
    ValueOfQuoted(q);
  }

  /** A text between double quotes has no spaces at its ends, is no keyword and is not number-shaped. */
  lemma QuotedShape(q: string)
    requires |q| >= 2 && q[0] == '"' && q[|q| - 1] == '"'
    ensures Strip(q) == q && BrefPyParser.Keyword(q).None? && !NumberShaped(q)
  {
    StripNoEdges(q, Py);
    NotKeyword(q);
    RemoveKeepsHead(q, '.');
    RemoveKeepsHead(Remove(q, '.'), '-');
  }

  /** The quoted reading of `parse_value`: what lies between the quotes. */
  lemma ValueOfQuoted(q: string)
    requires Strip(q) == q && BrefPyParser.Keyword(q).None? && !NumberShaped(q) && Wrapped(q, '"', '"')
    ensures ValueOf(q) == Ok(PStr(Inner(q)))
  {
  }

  /** `1-2` passes the number test, so `int()` is tried on it and refuses it. */
  lemma MinusInsideFails()
    ensures ValueOf("1-2").Err?
  {
    StripNoEdges("1-2", Py);
    NotKeyword("1-2");
    MinusInsideIsRejected();
  }

  /** The parts of a text are all stripped already. */
  predicate AllClean(parts: seq<string>) {
    forall k :: 0 <= k < |parts| ==> Clean(parts[k])
  }

  lemma PartsClean(text: string, n: Nesting)
    ensures AllClean(PartsOf(text, n))
  {
    var ps := Pieces(text, n);
    forall k | 0 <= k < |ps| ensures Clean(StripAll(ps)[k]) {
      StripTwice(ps[k], Py);
    }
  }

  /** Example: the pieces of `[1,2]` when only braces nest: the comma inside the brackets is a cut. */
  lemma PiecesBracesOnly()
    ensures Pieces("[1,2]", Braces) == ["[1", "2]"]
  {
    var s, n := "[1,2]", Braces;
    assert s[0] == '[' && s[1] == '1' && s[2] == ',' && s[3] == '2' && s[4] == ']';
    PiecesFromStep(s, 0, "", 0, n);
    assert "" + [s[0]] == "[";
    PiecesFromStep(s, 1, "[", 0, n);
    assert "[" + [s[1]] == "[1";
    PiecesFromStep(s, 2, "[1", 0, n);
    PiecesFromStep(s, 3, "", 0, n);
    assert "" + [s[3]] == "2";
    PiecesFromStep(s, 4, "2", 0, n);
    assert "2" + [s[4]] == "2]";
    assert PiecesFrom(s, 5, "2]", 0, n) == ["2]"];
  }

  /** Example: the pieces of `[1,2]` when brackets nest too: no cut. */
  lemma PiecesWithBrackets()
    ensures Pieces("[1,2]", BracesAndBrackets) == ["[1,2]"]
  {
    var s, n := "[1,2]", BracesAndBrackets;
    assert s[0] == '[' && s[1] == '1' && s[2] == ',' && s[3] == '2' && s[4] == ']';
    PiecesFromStep(s, 0, "", 0, n);
    assert "" + [s[0]] == "[";
    PiecesFromStep(s, 1, "[", 1, n);
    assert "[" + [s[1]] == "[1";
    PiecesFromStep(s, 2, "[1", 1, n);
    assert "[1" + [s[2]] == "[1,";
    PiecesFromStep(s, 3, "[1,", 1, n);
    assert "[1," + [s[3]] == "[1,2";
    PiecesFromStep(s, 4, "[1,2", 1, n);
    assert "[1,2" + [s[4]] == "[1,2]";
    assert PiecesFrom(s, 5, "[1,2]", 0, n) == ["[1,2]"];
  }

  /** Objects track braces only, so a comma inside brackets cuts an object's text, where an array's keeps it whole. */
  lemma ObjectsSplitInsideBrackets()
    ensures PartsOf("[1,2]", Braces) == ["[1", "2]"]
    ensures PartsOf("[1,2]", BracesAndBrackets) == ["[1,2]"]
  {
    PiecesBracesOnly();
    PiecesWithBrackets();
    StripNoEdges("[1", Py);
    StripNoEdges("2]", Py);
    StripAllCons("[1", ["2]"]);
    StripAllCons("2]", []);
    StripNoEdges("[1,2]", Py);
    StripAllCons("[1,2]", []);
  }

  /** `vs` holds the plain value of each of `ps`, in order. */
  predicate ValuesMatch(ps: seq<string>, vs: seq<PyValue>) {
    |vs| == |ps| && forall k :: 0 <= k < |ps| ==> ValueOf(ps[k]) == Ok(vs[k])
  }

  lemma ValuesMatchCons(p: string, ps: seq<string>, v: PyValue, vs: seq<PyValue>)
    requires ValueOf(p) == Ok(v) && ValuesMatch(ps, vs)
    ensures ValuesMatch([p] + ps, [v] + vs)
  {
  }

  /** `vs` holds the element read from each of `ps`, in order. */
  predicate ElementsMatch(ps: seq<string>, vs: seq<PyValue>, et: string, defs: Defs) {
    |vs| == |ps| && forall k :: 0 <= k < |ps| ==> ElementOf(ps[k], et, defs) == Ok(vs[k])
  }

  lemma ElementsMatchCons(p: string, ps: seq<string>, v: PyValue, vs: seq<PyValue>, et: string, defs: Defs)
    requires ElementOf(p, et, defs) == Ok(v) && ElementsMatch(ps, vs, et, defs)
    ensures ElementsMatch([p] + ps, [v] + vs, et, defs)
  {
  }

  /**
   * The values of the non-blank parts, in order: one per non-blank part,
   * each the plain value of its part.
   */
  lemma {:induction false} ValuesOfMap(parts: seq<string>, i: nat, bound: nat)
    requires i <= |parts| && Bounded(parts, bound) && AllClean(parts)
    ensures ValuesOf(parts, i, bound).Ok? ==> ValuesMatch(NonEmpty(parts[i..]), ValuesOf(parts, i, bound).value)
    decreases |parts| - i
  {
    if i == |parts| {
      assert parts[i..] == [];
    } else {
      var p := parts[i];
      assert parts[i..] == [p] + parts[i + 1..];
      NonEmptyCons(p, parts[i + 1..]);
      ValuesOfMap(parts, i + 1, bound);
      if Strip(p) == "" {
        assert p == "";
        assert ValuesOf(parts, i, bound) == ValuesOf(parts, i + 1, bound);
        assert NonEmpty(parts[i..]) == NonEmpty(parts[i + 1..]);
      } else {
        assert NonEmpty(parts[i..]) == [p] + NonEmpty(parts[i + 1..]);
        var v := ValueOf(p);
        var rest := ValuesOf(parts, i + 1, bound);
        if v.Ok? && rest.Ok? {
          assert ValuesOf(parts, i, bound) == Ok([v.value] + rest.value);
          ValuesMatchCons(p, NonEmpty(parts[i + 1..]), v.value, rest.value);
        } else {
          assert ValuesOf(parts, i, bound).Err?;
        }
      }
    }
  }

  /** The keys field i < `|values|` writes from `i` on. */
  function KeysFrom(schema: Schema, values: seq<PyValue>, i: nat): set<string> {
    set k | i <= k < |schema| && k < |values| :: FieldKey(schema[k])
  }

  lemma KeysFromStep(schema: Schema, values: seq<PyValue>, i: nat)
    requires i < |schema|
    ensures i < |values| ==> KeysFrom(schema, values, i) == {FieldKey(schema[i])} + KeysFrom(schema, values, i + 1)
    ensures i >= |values| ==> KeysFrom(schema, values, i) == KeysFrom(schema, values, i + 1) == {}
  {
  }

  /** The typed loop writes the keys of the first min(fields, values) fields, and no other. */
  lemma {:induction false} TypedFillKeys(schema: Schema, values: seq<PyValue>, i: nat, acc: Dict)
    requires i <= |schema|
    ensures Keys(TypedFill(schema, values, i, acc)) == Keys(acc) + KeysFrom(schema, values, i)
    decreases |schema| - i
  {
    if i == |schema| {
      assert KeysFrom(schema, values, i) == {};
    } else {
      KeysFromStep(schema, values, i);
      if i < |values| {
        TypedFillKeys(schema, values, i + 1, Put(acc, FieldKey(schema[i]), values[i]));
      } else {
        TypedFillKeys(schema, values, i + 1, acc);
      }
    }
  }

  /** No two fields of the schema share a key. */
  predicate DistinctFields(schema: Schema) {
    forall a, b :: 0 <= a < b < |schema| ==> FieldKey(schema[a]) != FieldKey(schema[b])
  }

  /** The first `m` fields paired with the first `m` values. */
  function Zipped(schema: Schema, values: seq<PyValue>, m: nat): (d: Dict)
    requires m <= |schema| && m <= |values|
    ensures |d| == m
  {
    seq(m, k requires 0 <= k < m => (FieldKey(schema[k]), values[k]))
  }

  lemma ZippedKeys(schema: Schema, values: seq<PyValue>, m: nat)
    requires m < |schema| && m < |values| && DistinctFields(schema)
    ensures FieldKey(schema[m]) !in Keys(Zipped(schema, values, m))
    ensures Zipped(schema, values, m) + [(FieldKey(schema[m]), values[m])] == Zipped(schema, values, m + 1)
  {
  }

  /**
   * With distinct field keys the typed loop pairs field i with value i,
   * in schema order, for every i below min(fields, values).
   */
  lemma {:induction false} TypedFillZipped(schema: Schema, values: seq<PyValue>, i: nat)
    requires i <= |schema| && DistinctFields(schema)
    ensures TypedFill(schema, values, i, Zipped(schema, values, Min(i, |values|))) == Zipped(schema, values, Min(|schema|, |values|))
    decreases |schema| - i
  {
    if i < |schema| {
      if i < |values| {
        ZippedKeys(schema, values, i);
        TypedFillZipped(schema, values, i + 1);
      } else {
        TypedFillZipped(schema, values, i + 1);
      }
    }
  }

  /** The values a typed object is filled from: those of its non-blank parts. */
  function ObjectParts(o: string): seq<string> {
    NonEmpty(PartsOf(Unwrap(o, '{', '}'), Braces))
  }

  /**
   * `parse_object` with a registered type whose field keys are distinct
   * gives field i the value of the i-th non-blank part, for the first
   * min(fields, values) fields and no more.
   */
  lemma TypedObjectFields(o: string, defs: Defs, ct: string)
    requires ct != "" && ct in defs && DistinctFields(defs[ct])
    ensures ObjectOf(o, defs, ct).Ok? ==>
      |ObjectOf(o, defs, ct).value| == Min(|defs[ct]|, |ObjectParts(o)|)
      && forall i :: 0 <= i < |ObjectOf(o, defs, ct).value| ==>
        ObjectOf(o, defs, ct).value[i].0 == FieldKey(defs[ct][i])
        && ValueOf(ObjectParts(o)[i]) == Ok(ObjectOf(o, defs, ct).value[i].1)
  {
    var inner := Unwrap(o, '{', '}');
    var parts := PartsOf(inner, Braces);
    PartsClean(inner, Braces);
    ValuesOfMap(parts, 0, |inner|);
    assert parts[0..] == parts;
    var values := ValuesOf(parts, 0, |inner|);
    if values.Ok? {
      TypedFillZipped(defs[ct], values.value, 0);
      assert Zipped(defs[ct], values.value, 0) == [];
    }
  }

  /** The keys of the first `m` fields. */
  function FirstKeys(schema: Schema, m: nat): set<string> {
    set k | 0 <= k < m && k < |schema| :: FieldKey(schema[k])
  }

  lemma KeysFromFirst(schema: Schema, values: seq<PyValue>)
    ensures KeysFrom(schema, values, 0) == FirstKeys(schema, Min(|schema|, |values|))
  {
  }

  /** Whatever the schema, a typed object holds the keys of its first min(fields, values) fields and no others. */
  lemma TypedObjectKeys(o: string, defs: Defs, ct: string)
    requires ct != "" && ct in defs
    ensures ObjectOf(o, defs, ct).Ok? ==> Keys(ObjectOf(o, defs, ct).value) == FirstKeys(defs[ct], Min(|defs[ct]|, |ObjectParts(o)|))
  {
    var inner := Unwrap(o, '{', '}');
    var parts := PartsOf(inner, Braces);
    PartsClean(inner, Braces);
    ValuesOfMap(parts, 0, |inner|);
    assert parts[0..] == parts;
    var values := ValuesOf(parts, 0, |inner|);
    if values.Ok? {
      var schema := defs[ct];
      assert ObjectOf(o, defs, ct) == Ok(TypedFill(schema, values.value, 0, []));
      TypedFillKeys(schema, values.value, 0, []);
      KeysFromFirst(schema, values.value);
      assert Keys([]) == {};
    }
  }

  /** A `k:v` part with a clean key free of ':' is read back as the entry `(k, value of v)`. */
  lemma EntryRoundTrip(k: string, v: string, size: nat, bound: nat)
    requires Clean(k) && ':' !in k && !BeginsWith(k, '"')
    requires |k + ":" + v| <= bound
    ensures EntryOf(k + ":" + v, size, bound).Ok? <==> ValueOf(v).Ok?
    ensures EntryOf(k + ":" + v, size, bound).Ok? ==> EntryOf(k + ":" + v, size, bound).value == (k, ValueOf(v).value)
  {
    var p := k + ":" + v;
    assert p[|k|] == ':';
    assert forall j :: 0 <= j < |k| ==> p[j] == k[j];
    assert IndexOf(p, ':') == |k|;
    assert p[..|k|] == k && p[|k| + 1..] == v;
  }

  /** A part with no ':', or one starting with '"', is a positional value keyed `field_<size>`. */
  lemma EntryPositional(part: string, size: nat, bound: nat)
    requires |part| <= bound
    requires ':' !in part || BeginsWith(part, '"')
    ensures EntryOf(part, size, bound).Ok? <==> ValueOf(part).Ok?
    ensures EntryOf(part, size, bound).Ok? ==> EntryOf(part, size, bound).value == (BrefPyParser.PositionalKey(size), ValueOf(part).value)
  {
  }

  /** An untyped object writes each key once: a repeated key overwrites the earlier entry in place. */
  lemma {:induction false} EntriesDistinct(parts: seq<string>, i: nat, acc: Dict, bound: nat)
    requires i <= |parts| && Bounded(parts, bound) && DistinctKeys(acc)
    ensures EntriesOf(parts, i, acc, bound).Ok? ==> DistinctKeys(EntriesOf(parts, i, acc, bound).value)
    decreases |parts| - i
  {
    if i < |parts| {
      if Strip(parts[i]) == "" {
        EntriesDistinct(parts, i + 1, acc, bound);
      } else {
        var kv := EntryOf(parts[i], |acc|, bound);
        if kv.Ok? {
          PutKeepsDistinct(acc, kv.value.0, kv.value.1);
          EntriesDistinct(parts, i + 1, Put(acc, kv.value.0, kv.value.1), bound);
        }
      }
    }
  }

  /** The elements of the non-blank parts, in order: one per non-blank part. */
  lemma {:induction false} ElementsOfMap(parts: seq<string>, i: nat, et: string, defs: Defs)
    requires i <= |parts| && AllClean(parts)
    ensures ElementsOf(parts, i, et, defs).Ok? ==> ElementsMatch(NonEmpty(parts[i..]), ElementsOf(parts, i, et, defs).value, et, defs)
    decreases |parts| - i
  {
    if i == |parts| {
      assert parts[i..] == [];
    } else {
      var p := parts[i];
      assert parts[i..] == [p] + parts[i + 1..];
      NonEmptyCons(p, parts[i + 1..]);
      ElementsOfMap(parts, i + 1, et, defs);
      if Strip(p) == "" {
        assert p == "";
        assert ElementsOf(parts, i, et, defs) == ElementsOf(parts, i + 1, et, defs);
        assert NonEmpty(parts[i..]) == NonEmpty(parts[i + 1..]);
      } else {
        assert NonEmpty(parts[i..]) == [p] + NonEmpty(parts[i + 1..]);
        var v := ElementOf(p, et, defs);
        var rest := ElementsOf(parts, i + 1, et, defs);
        if v.Ok? && rest.Ok? {
          assert ElementsOf(parts, i, et, defs) == Ok([v.value] + rest.value);
          ElementsMatchCons(p, NonEmpty(parts[i + 1..]), v.value, rest.value, et, defs);
        } else {
          assert ElementsOf(parts, i, et, defs).Err?;
        }
      }
    }
  }

  /**
   * `parse_array` gives one element per non-blank part cut outside braces
   * and brackets, each read by the element rule.
   */
  lemma ArrayElements(a: string, defs: Defs, et: string)
    ensures ArrayOf(a, defs, et).Ok? ==> ElementsMatch(NonEmpty(PartsOf(Unwrap(a, '[', ']'), BracesAndBrackets)), ArrayOf(a, defs, et).value, et, defs)
  {
    var parts := PartsOf(Unwrap(a, '[', ']'), BracesAndBrackets);
    PartsClean(Unwrap(a, '[', ']'), BracesAndBrackets);
    ElementsOfMap(parts, 0, et, defs);
    assert parts[0..] == parts;
  }

  /** Only a braced element of a registered element type is typed: any other element is its plain value. */
  lemma ElementTypedOnlyWhenBraced(part: string, et: string, defs: Defs)
    ensures !(et != "" && et in defs) || !Wrapped(part, '{', '}') ==> ElementOf(part, et, defs) == ValueOf(part)
    ensures et != "" && et in defs && Wrapped(part, '{', '}') ==>
      (ElementOf(part, et, defs).Ok? <==> ObjectOf(part, defs, et).Ok?)
  {
  }
}
