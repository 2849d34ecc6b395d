/**
 * The declaration extractor of the AST engine (bref-2/utils.py): schema
 * fields, value lists, and the split of a document into `:name { ... }`
 * declaration lines and the data body.
 *
 * Schema fields follow the two-element reading `(key, payload)` that the
 * materializer unpacks; `kind` records the tag the extractor attaches to a
 * non-nested pair and is read by nothing downstream.
 */
module Bref2Utils {
  import opened Text
  import opened Base
  import opened PyData

  datatype FieldKind = TypeReference | DefaultValue

  datatype Field =
    | Bare(name: string)                                  // `title`: a positional field name
    | Nested(key: string, schema: seq<Field>)             // `test: { age }`
    | Typed(key: string, payload: PyValue, kind: FieldKind)  // `artist: artist`, `is_favorite: false`

  type Schema = seq<Field>

  /** The text before the first ':' of `p`, stripped. */
  function KeyPart(p: string): string
    requires ':' in p
  {
    Strip(p[..IndexOf(p, ':')])
  }

  /** The text after the first ':' of `p`, stripped; always shorter than `p`. */
  function RhsPart(p: string): (t: string)
    requires ':' in p
    ensures |t| < |p|
  {
    Strip(p[IndexOf(p, ':') + 1..])
  }

  /** `tname.lower() in ('true', 'false', 'null')` and its value. */
  function KeywordLiteral(t: string): (v: Option<PyValue>)
    ensures v.Some? ==> v.value == PNone || v.value.PBool?
  {
    var l := LowerStr(t);
    if l == "null" then Some(PNone)
    else if l == "true" then Some(PBool(true))
    else if l == "false" then Some(PBool(false))
    else None
  }

  /** One comma-separated part of a schema body. */
  function FieldOf(p: string): (r: Result<Field>)
    ensures ':' !in p ==> r == Ok(Bare(p))
    ensures ':' in p && r.Ok? ==> !r.value.Bare? && r.value.key == KeyPart(p)
    ensures r.Err? ==> ':' in p
    decreases |p|, 0, 0
  {
    if ':' !in p then Ok(Bare(p))
    else
      var key := KeyPart(p);
      var t := RhsPart(p);
      if Wrapped(t, '{', '}') then
        var nested :- SchemaOf(t);
        Ok(Nested(key, nested))
      else if KeywordLiteral(t).Some? then
        Ok(Typed(key, KeywordLiteral(t).value, DefaultValue))
      else if NumberShaped(t) then
        var v :- PyNumber(t);
        Ok(Typed(key, v, DefaultValue))
      else if Wrapped(t, '"', '"') then
        Ok(Typed(key, PStr(Inner(t)), DefaultValue))
      else if IdentifierShaped(t) then
        Ok(Typed(key, PStr(t), TypeReference))
      else
        Ok(Typed(key, PStr(t), DefaultValue))
  }

  /**
   * How the right-hand side of `key: rhs` is read: a braced rhs is a nested
   * schema, `true`/`false`/`null` in any case a literal, an identifier-shaped
   * rhs a type reference, a quoted rhs a string default, anything else the
   * raw text as a default.
   */
  lemma FieldClassification(p: string)
    requires ':' in p
    ensures var t := RhsPart(p);
      var r := FieldOf(p);
      (Wrapped(t, '{', '}') ==> r == (if SchemaOf(t).Ok? then Ok(Nested(KeyPart(p), SchemaOf(t).value)) else Err(SchemaOf(t).error)))
      && (!Wrapped(t, '{', '}') && KeywordLiteral(t).Some? ==> r == Ok(Typed(KeyPart(p), KeywordLiteral(t).value, DefaultValue)))
      && (!Wrapped(t, '{', '}') && KeywordLiteral(t).None? && NumberShaped(t) ==>
            r == (if PyNumber(t).Ok? then Ok(Typed(KeyPart(p), PyNumber(t).value, DefaultValue)) else Err(PyNumber(t).error)))
      && (r.Ok? && r.value.Typed? && r.value.kind == TypeReference ==> r.value.payload == PStr(t) && IdentifierShaped(t))
      && (!Wrapped(t, '{', '}') && KeywordLiteral(t).None? && !NumberShaped(t) && Wrapped(t, '"', '"') ==>
            r == Ok(Typed(KeyPart(p), PStr(Inner(t)), DefaultValue)))
      && (!Wrapped(t, '{', '}') && KeywordLiteral(t).None? && !NumberShaped(t) && !Wrapped(t, '"', '"') ==>
            r == Ok(Typed(KeyPart(p), PStr(t), if IdentifierShaped(t) then TypeReference else DefaultValue)))
  {
  }

  /** The fields of the parts, in order; the first part that fails fails the whole. */
  function FieldsOf(parts: seq<string>, bound: nat): (r: Result<Schema>)
    requires forall k :: 0 <= k < |parts| ==> |parts[k]| <= bound
    ensures r.Ok? ==> |r.value| == |parts|
    decreases bound, 1, |parts|
  {
    if parts == [] then Ok([])
    else
      var f :- FieldOf(parts[0]);
      var rest :- FieldsOf(parts[1..], bound);
      Ok([f] + rest)
  }

  /** The first part read as the field f: the rest follows it. */
  lemma FieldsOfHead(parts: seq<string>, bound: nat, f: Field)
    requires parts != [] && (forall k :: 0 <= k < |parts| ==> |parts[k]| <= bound) && FieldOf(parts[0]) == Ok(f)
    ensures FieldsOf(parts, bound) == Prefixed([f], FieldsOf(parts[1..], bound))
  {
  }

  /** The first part fails to read as a field: the whole fails with it. */
  lemma FieldsOfHeadFails(parts: seq<string>, bound: nat)
    requires parts != [] && (forall k :: 0 <= k < |parts| ==> |parts[k]| <= bound) && FieldOf(parts[0]).Err?
    ensures FieldsOf(parts, bound) == Err(FieldOf(parts[0]).error)
  {
  }

  /** Field k is the reading of part k; the whole fails exactly when some part fails. */
  lemma FieldsOfParts(parts: seq<string>, bound: nat)
    requires forall k :: 0 <= k < |parts| ==> |parts[k]| <= bound
    ensures var r := FieldsOf(parts, bound);
      (r.Ok? ==> forall k :: 0 <= k < |parts| ==> FieldOf(parts[k]) == Ok(r.value[k]))
      && (r.Err? <==> exists k :: 0 <= k < |parts| && FieldOf(parts[k]).Err?)
  {
    forall k | 0 <= k < |parts| ensures FieldsOf(parts, bound).Ok? ==> FieldOf(parts[k]) == Ok(FieldsOf(parts, bound).value[k]) {
      FieldOfPart(parts, bound, k);
    }
    FieldsOfFails(parts, bound);
  }

  /** Field k of a successful reading is the reading of part k. */
  lemma {:induction false} FieldOfPart(parts: seq<string>, bound: nat, k: nat)
    requires forall j :: 0 <= j < |parts| ==> |parts[j]| <= bound
    requires k < |parts|
    ensures FieldsOf(parts, bound).Ok? ==> FieldOf(parts[k]) == Ok(FieldsOf(parts, bound).value[k])
    decreases k
  {
    var head := FieldOf(parts[0]);
    if head.Ok? {
      var rest := parts[1..];
      assert forall j :: 0 <= j < |rest| ==> rest[j] == parts[j + 1];
      FieldsOfHead(parts, bound, head.value);
      if k > 0 {
        var k' := k - 1;
        FieldOfPart(rest, bound, k');
        assert rest[k'] == parts[k];
      }
    } else {
      FieldsOfHeadFails(parts, bound);
    }
  }

  /** A failed reading has a part that fails. */
  lemma {:induction false} FieldsOfFails(parts: seq<string>, bound: nat)
    requires forall j :: 0 <= j < |parts| ==> |parts[j]| <= bound
    ensures FieldsOf(parts, bound).Err? ==> exists k :: 0 <= k < |parts| && FieldOf(parts[k]).Err?
    decreases |parts|
  {
    if parts != [] && FieldsOf(parts, bound).Err? && FieldOf(parts[0]).Ok? {
      var rest := parts[1..];
      assert forall j :: 0 <= j < |rest| ==> rest[j] == parts[j + 1];
      FieldsOfFails(rest, bound);
      var k :| 0 <= k < |rest| && FieldOf(rest[k]).Err?;
      assert FieldOf(parts[k + 1]).Err?;
    }
  }

  /** `parse_schema_fields(text)`. */
  function SchemaOf(text: string): (r: Result<Schema>)
    decreases |text|, 2, 0
  {
    var inner := Unwrap(text, '{', '}');
    FieldsOf(StrippedParts(inner, ','), |text|)
  }

  /**
   * One field per non-blank comma-separated part, in order; the split is on
   * every comma, so a nested schema with two fields is cut apart.
   */
  lemma SchemaOfParts(text: string)
    ensures var parts := StrippedParts(Unwrap(text, '{', '}'), ',');
      var r := SchemaOf(text);
      (r.Ok? ==> |r.value| == |parts| && forall k :: 0 <= k < |parts| ==> FieldOf(parts[k]) == Ok(r.value[k]))
      && (r.Err? <==> exists k :: 0 <= k < |parts| && FieldOf(parts[k]).Err?)
  {
    FieldsOfParts(StrippedParts(Unwrap(text, '{', '}'), ','), |text|);
  }

  /** `parse_schema_fields` as the source writes it: a loop appending one field per part. */
  method ParseSchemaFields(text: string) returns (r: Result<Schema>)
    ensures r == SchemaOf(text)
  {
    var inner := Unwrap(text, '{', '}');
    var parts := StrippedParts(inner, ',');
    r := ReadFields(parts, |text|);
  }

  /** The loop of `parse_schema_fields`: one field per part, stopping at the first part that fails. */
  method ReadFields(parts: seq<string>, bound: nat) returns (r: Result<Schema>)
    requires forall k :: 0 <= k < |parts| ==> |parts[k]| <= bound
    ensures r == FieldsOf(parts, bound)
  {
    var fields: Schema := [];
    var i := 0;
    assert parts[0..] == parts;
    while i < |parts|
      invariant 0 <= i <= |parts|
      invariant FieldsOf(parts, bound) == Prefixed(fields, FieldsOf(parts[i..], bound))
    {
      ghost var tail, tail' := parts[i..], parts[i + 1..];
      assert tail[1..] == tail';
      var f := FieldOf(parts[i]);
      if f.Err? {
        FieldsOfHeadFails(tail, bound);
        return Err(f.error);
      }
      FieldsOfHead(tail, bound, f.value);
      PrefixedNest(fields, f.value, FieldsOf(tail', bound));
      fields := fields + [f.value];
      i := i + 1;
    }
    assert parts[i..] == [];
    assert fields + [] == fields;
    r := Ok(fields);
  }

  /** One part of a value list: a quoted string, a number, a boolean, null, or the raw text. */
  function ValueOf(p: string): (r: Result<PyValue>)
    ensures Wrapped(p, '"', '"') ==> r == Ok(PStr(Inner(p)))
    ensures r.Ok? ==> IsScalar(r.value)
    ensures r.Err? ==> NumberShaped(p)
  {
    if Wrapped(p, '"', '"') then Ok(PStr(Inner(p)))
    else if NumberShaped(p) then PyNumber(p)
    else if LowerStr(p) == "true" then Ok(PBool(true))
    else if LowerStr(p) == "false" then Ok(PBool(false))
    else if LowerStr(p) == "null" then Ok(PNone)
    else Ok(PStr(p))
  }

  function ValuesOf(parts: seq<string>): (r: Result<seq<PyValue>>)
    ensures r.Ok? ==> |r.value| == |parts|
  {
    if parts == [] then Ok([])
    else
      var v :- ValueOf(parts[0]);
      var rest :- ValuesOf(parts[1..]);
      Ok([v] + rest)
  }

  /** Value k is the reading of part k; the whole fails exactly when some part fails. */
  lemma {:induction false} ValuesOfParts(parts: seq<string>)
    ensures var r := ValuesOf(parts);
      (r.Ok? ==> forall k :: 0 <= k < |parts| ==> ValueOf(parts[k]) == Ok(r.value[k]))
      && (r.Err? <==> exists k :: 0 <= k < |parts| && ValueOf(parts[k]).Err?)
  {
    if parts != [] {
      ValuesOfParts(parts[1..]);
      assert forall k :: 1 <= k < |parts| ==> parts[k] == parts[1..][k - 1];
    }
  }

  /** `parse_value_definition(text)`. */
  function ValueListOf(text: string): Result<seq<PyValue>> {
    ValuesOf(StrippedParts(Unwrap(text, '{', '}'), ','))
  }

  /** `parse_value_definition` as the source writes it: a loop appending one value per part. */
  method ParseValueDefinition(text: string) returns (r: Result<seq<PyValue>>)
    ensures r == ValueListOf(text)
    ensures r.Ok? ==> |r.value| == |StrippedParts(Unwrap(text, '{', '}'), ',')|
  {
    var parts := StrippedParts(Unwrap(text, '{', '}'), ',');
    var values: seq<PyValue> := [];
    var i := 0;
    assert parts[0..] == parts;
    while i < |parts|
      invariant 0 <= i <= |parts|
      invariant ValuesOf(parts) == Prefixed(values, ValuesOf(parts[i..]))
    {
      assert parts[i..][1..] == parts[i + 1..];
      var v := ValueOf(parts[i]);
      if v.Err? {
        assert ValuesOf(parts[i..]) == Err(v.error);
        return Err(v.error);
      }
      ghost var rest := ValuesOf(parts[i + 1..]);
      assert ValuesOf(parts[i..]) == if rest.Ok? then Ok([v.value] + rest.value) else rest;
      PrefixedStep(values, v.value, rest);
      values := values + [v.value];
      i := i + 1;
    }
    assert parts[i..] == [];
    assert values + [] == values;
    r := Ok(values);
  }

  /* ---------------- declaration lines ---------------- */

  /**
   * `TYPE_PATTERN.match(line)` on a stripped line: ':' then a name
   * `[A-Za-z_]\w*`, optional whitespace, and a body `{...}` holding no '}'
   * that runs to the end of the line. Yields the name and the body.
   */
  function MatchDecl(line: string): Option<(string, string)>
  {
    if |line| < 2 || line[0] != ':' || !IsIdentStart(line[1]) then None
    else
      var rest := line[1..];
      var n := WordPrefix(rest);
      var body := LStripBy(rest[n..], Py);
      if |body| >= 2 && body[0] == '{' && body[|body| - 1] == '}' && '}' !in body[1..|body| - 1] then
        Some((rest[..n], body))
      else None
  }

  /** What a match yields: the name after the ':' and a brace-delimited body ending the line. */
  lemma MatchDeclShape(line: string)
    ensures var m := MatchDecl(line);
      m.Some? ==>
        StartsWith(line, ":" + m.value.0)
        && |m.value.0| > 0 && IsIdentStart(m.value.0[0]) && AllWord(m.value.0)
        && Wrapped(m.value.1, '{', '}') && '}' !in Inner(m.value.1)
        && EndsWith(line, m.value.1)
  {
    var m := MatchDecl(line);
    if m.Some? {
      var rest := line[1..];
      var n := WordPrefix(rest);
      var body := LStripBy(rest[n..], Py);
      assert line[..1 + n] == ":" + rest[..n];
      assert line[|line| - |body|..] == body;
    }
  }

  /** `any(':' in part and not part.startswith('"') for part in parts)`. */
  predicate HasFieldTypeFormat(parts: seq<string>) {
    exists k :: 0 <= k < |parts| && ':' in parts[k] && !BeginsWith(parts[k], '"')
  }

  /** `any(part.startswith('"') for part in parts)`. */
  predicate HasQuotedValues(parts: seq<string>) {
    exists k :: 0 <= k < |parts| && BeginsWith(parts[k], '"')
  }

  /** A declaration body is a value list only when no part looks like `key: type` and some part is quoted. */
  predicate IsValueListBody(body: string) {
    var parts := StrippedParts(body, ',');
    !HasFieldTypeFormat(parts) && HasQuotedValues(parts)
  }

  /** The extractor's state: declared schemas, declared value lists, and the kept data lines. */
  datatype Decls = Decls(types: map<string, Schema>, values: map<string, seq<PyValue>>, kept: seq<string>)

  /** What `parse_type_definitions` returns. */
  datatype Extracted = Extracted(types: map<string, Schema>, values: map<string, seq<PyValue>>, body: string)

  /** What one declaration line declares: a schema or a value list. */
  datatype Entry = SchemaEntry(schema: Schema) | ValuesEntry(values: seq<PyValue>)

  /** The declaration with body `body`, classified as the source does. */
  function Declaration(body: string): (r: Result<Entry>)
    ensures r.Ok? ==> (r.value.ValuesEntry? <==> IsValueListBody(body))
  {
    if IsValueListBody(body) then
      var vals :- ValueListOf(body);
      Ok(ValuesEntry(vals))
    else
      var schema :- SchemaOf(body);
      Ok(SchemaEntry(schema))
  }

  /** Recording a declaration overwrites the entry of that name in its own table. */
  function Record(st: Decls, name: string, e: Entry): Decls {
    match e
    case SchemaEntry(schema) => st.(types := st.types[name := schema])
    case ValuesEntry(vals) => st.(values := st.values[name := vals])
  }

  /**
   * One line of the loop, given how a declaration body is read (`read` is
   * `Declaration` in the extractor; the loop's properties hold for any).
   */
  function Step(raw: string, st: Decls, read: string -> Result<Entry>): Result<Decls> {
    var line := Strip(raw);
    if line == [] then Ok(st)
    else if MatchDecl(line).None? then Ok(st.(kept := st.kept + [line]))
    else
      var e :- read(MatchDecl(line).value.1);
      Ok(Record(st, MatchDecl(line).value.0, e))
  }

  /** The loop over the lines, from state `st`. */
  function Scan(lines: seq<string>, st: Decls, read: string -> Result<Entry>): Result<Decls>
    decreases |lines|
  {
    if lines == [] then Ok(st)
    else
      var st' :- Step(lines[0], st, read);
      Scan(lines[1..], st', read)
  }

  /** `parse_type_definitions(content)`. */
  function TypeDefinitionsOf(content: string): Result<Extracted> {
    var st :- Scan(SplitLines(content), Decls(map[], map[], []), Declaration);
    Ok(Extracted(st.types, st.values, Strip(Join(st.kept, '\n'))))
  }

  /** `parse_type_definitions` as the source writes it: one pass filling two dicts and a line list. */
  method ParseTypeDefinitions(content: string) returns (r: Result<Extracted>)
    ensures r == TypeDefinitionsOf(content)
  {
    var lines := SplitLines(content);
    var typeDefs: map<string, Schema> := map[];
    var valueDefs: map<string, seq<PyValue>> := map[];
    var remaining: seq<string> := [];
    var i := 0;
    while i < |lines|
      invariant 0 <= i <= |lines|
      invariant Scan(lines, Decls(map[], map[], []), Declaration) == Scan(lines[i..], Decls(typeDefs, valueDefs, remaining), Declaration)
    {
      assert lines[i..][1..] == lines[i + 1..];
      var line := Strip(lines[i]);
      if line != [] {
        var m := MatchDecl(line);
        if m.Some? {
          var (name, body) := m.value;
          if IsValueListBody(body) {
            var vals := ParseValueDefinition(body);
            if vals.Err? {
              return Err(vals.error);
            }
            valueDefs := valueDefs[name := vals.value];
          } else {
            var schema := ParseSchemaFields(body);
            if schema.Err? {
              return Err(schema.error);
            }
            typeDefs := typeDefs[name := schema.value];
          }
        } else {
          remaining := remaining + [line];
        }
      }
      i := i + 1;
    }
    r := Ok(Extracted(typeDefs, valueDefs, Strip(Join(remaining, '\n'))));
  }

  /* ---------------- properties of the extractor ---------------- */

  /** The data lines: stripped, non-blank, and not declarations, in order. */
  function BodyLines(lines: seq<string>): (r: seq<string>)
  {
    if lines == [] then [] else BodyLine(lines[0]) + BodyLines(lines[1..])
  }

  /** What one line adds to the kept lines: itself, stripped, when it is a data line. */
  function BodyLine(raw: string): seq<string> {
    var line := Strip(raw);
    if line != [] && MatchDecl(line).None? then [line] else []
  }

  /** One step of the loop keeps exactly the data line it reads. */
  lemma StepKept(raw: string, st: Decls, read: string -> Result<Entry>)
    ensures Step(raw, st, read).Ok? ==> Step(raw, st, read).value.kept == st.kept + BodyLine(raw)
  {
    if BodyLine(raw) == [] {
      assert st.kept + [] == st.kept;
    }
  }

  /** Running the loop from any state appends exactly the data lines to the kept ones. */
  lemma {:induction false} ScanKeepsBodyLines(lines: seq<string>, st: Decls, read: string -> Result<Entry>)
    ensures Scan(lines, st, read).Ok? ==> Scan(lines, st, read).value.kept == st.kept + BodyLines(lines)
  {
    if lines != [] {
      var r := Step(lines[0], st, read);
      if r.Ok? {
        var rest, st' := lines[1..], r.value;
        assert Scan(lines, st, read) == Scan(rest, st', read);
        ScanKeepsBodyLines(rest, st', read);
        StepKept(lines[0], st, read);
        var a, b, c := st.kept, BodyLine(lines[0]), BodyLines(rest);
        assert BodyLines(lines) == b + c;
        assert a + b + c == a + (b + c);
      }
    }
  }

  /** The body handed to the data parser is the data lines joined by newlines. */
  lemma BodyIsDataLines(content: string)
    ensures TypeDefinitionsOf(content).Ok? ==>
      TypeDefinitionsOf(content).value.body == Strip(Join(BodyLines(SplitLines(content)), '\n'))
  {
    var st := Scan(SplitLines(content), Decls(map[], map[], []), Declaration);
    ScanKeepsBodyLines(SplitLines(content), Decls(map[], map[], []), Declaration);
    if st.Ok? {
      assert [] + BodyLines(SplitLines(content)) == BodyLines(SplitLines(content));
      assert TypeDefinitionsOf(content) == Ok(Extracted(st.value.types, st.value.values, Strip(Join(st.value.kept, '\n'))));
    }
  }

  /** The name a line declares, if it is a declaration. */
  function Declares(raw: string): Option<string> {
    var m := MatchDecl(Strip(raw));
    if m.Some? then Some(m.value.0) else None
  }

  /** Lines that do not declare `name` leave its entries alone. */
  lemma {:induction false} ScanKeepsName(lines: seq<string>, st: Decls, read: string -> Result<Entry>, name: string)
    requires forall k :: 0 <= k < |lines| ==> Declares(lines[k]) != Some(name)
    ensures Scan(lines, st, read).Ok? ==>
      (name in st.types ==> name in Scan(lines, st, read).value.types && Scan(lines, st, read).value.types[name] == st.types[name])
      && (name in st.values ==> name in Scan(lines, st, read).value.values && Scan(lines, st, read).value.values[name] == st.values[name])
  {
    if lines != [] {
      var r := Step(lines[0], st, read);
      if r.Ok? {
        assert Scan(lines, st, read) == Scan(lines[1..], r.value, read);
        assert Declares(lines[0]) != Some(name);
        assert forall k :: 1 <= k < |lines| ==> lines[k] == lines[1..][k - 1];
        ScanKeepsName(lines[1..], r.value, read, name);
      }
    }
  }

  /** Scanning a concatenation scans the first half, then the second from where it left off. */
  lemma {:induction false} ScanAppend(a: seq<string>, b: seq<string>, st: Decls, read: string -> Result<Entry>)
    ensures Scan(a + b, st, read) == (if Scan(a, st, read).Ok? then Scan(b, Scan(a, st, read).value, read) else Scan(a, st, read))
  {
    if a == [] {
      assert a + b == b;
    } else {
      assert (a + b)[0] == a[0];
      assert (a + b)[1..] == a[1..] + b;
      var r := Step(a[0], st, read);
      if r.Ok? {
        assert Scan(a, st, read) == Scan(a[1..], r.value, read);
        assert Scan(a + b, st, read) == Scan(a[1..] + b, r.value, read);
        ScanAppend(a[1..], b, r.value, read);
      }
    }
  }

  /** What `st` holds under `name` in the table that `e` belongs to. */
  predicate Holds(st: Decls, name: string, e: Entry) {
    match e
    case SchemaEntry(schema) => name in st.types && st.types[name] == schema
    case ValuesEntry(vals) => name in st.values && st.values[name] == vals
  }

  /**
   * A later declaration of a name wins: after a declaration line that no
   * later line redeclares, the name holds what that line declared.
   */
  lemma LastDeclarationWins(pre: seq<string>, line: string, post: seq<string>, st: Decls, read: string -> Result<Entry>)
    requires MatchDecl(Strip(line)).Some?
    requires forall k :: 0 <= k < |post| ==> Declares(post[k]) != Some(MatchDecl(Strip(line)).value.0)
    ensures var m := MatchDecl(Strip(line)).value;
      var r := Scan(pre + [line] + post, st, read);
      r.Ok? ==> read(m.1).Ok? && Holds(r.value, m.0, read(m.1).value)
  {
    var name := MatchDecl(Strip(line)).value.0;
    ScanAppend(pre + [line], post, st, read);
    ScanAppend(pre, [line], st, read);
    var a := Scan(pre, st, read);
    if a.Ok? {
      var b := Step(line, a.value, read);
      assert Scan([line], a.value, read) == (if b.Ok? then Scan([], b.value, read) else b);
      if b.Ok? {
        ScanKeepsName(post, b.value, read, name);
      }
    }
  }

  /**
   * In the extractor: when the last declaration of `name` is a value list,
   * `name` maps to its values; otherwise to its schema.
   */
  lemma LaterDeclarationOverwrites(content: string, pre: seq<string>, line: string, post: seq<string>)
    requires SplitLines(content) == pre + [line] + post
    requires MatchDecl(Strip(line)).Some?
    requires forall k :: 0 <= k < |post| ==> Declares(post[k]) != Some(MatchDecl(Strip(line)).value.0)
    ensures var m := MatchDecl(Strip(line)).value;
      var r := TypeDefinitionsOf(content);
      r.Ok? ==>
        (IsValueListBody(m.1) ==> m.0 in r.value.values && Ok(r.value.values[m.0]) == ValueListOf(m.1))
        && (!IsValueListBody(m.1) ==> m.0 in r.value.types && Ok(r.value.types[m.0]) == SchemaOf(m.1))
  {
    LastDeclarationWins(pre, line, post, Decls(map[], map[], []), Declaration);
  }
}
