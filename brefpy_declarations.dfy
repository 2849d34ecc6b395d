/**
 * The declaration half of the string-segment parser (bref-py/parser.py):
 * schema fields, which the older bref/parser.py reads in the same shape,
 * and the `:name { ... }` declaration lines.
 */
module BrefPyDeclarations {
  import opened Text
  import opened Base
  import Bref2Utils

  /** `FieldType.OBJECT` or `FieldType.ARRAY`. */
  datatype RefKind = ObjectRef | ArrayRef

  /** A schema field: a bare positional name, or `(key, type_name, kind)`. */
  datatype SchemaField = Name(name: string) | Ref(key: string, typeName: string, kind: RefKind)

  type Schema = seq<SchemaField>

  /** The registered schemas by type name. */
  type Defs = map<string, Schema>

  /** The key a field fills: the name itself, or the tuple's key. */
  function FieldKey(f: SchemaField): string {
    if f.Name? then f.name else f.key
  }

  /** One non-blank part of a schema body. */
  function FieldOfPart(p: string): SchemaField {
    if ':' !in p then Name(p)
    else
      var i := IndexOf(p, ':');
      var key := Strip(p[..i]);
      var t := Strip(p[i + 1..]);
      if EndsWith(t, "[]") then Ref(key, t[..|t| - 2], ArrayRef) else Ref(key, t, ObjectRef)
  }

  /** A field written back as a schema part: `name`, `key:type` or `key:type[]`. */
  function FieldText(f: SchemaField): string {
    match f
    case Name(n) => n
    case Ref(k, t, ObjectRef) => k + ":" + t
    case Ref(k, t, ArrayRef) => k + ":" + t + "[]"
  }

  /** Text a strip leaves unchanged. */
  predicate Clean(s: string) {
    Strip(s) == s
  }

  /** A field that survives being written and read back. */
  predicate WellFormed(f: SchemaField) {
    match f
    case Name(n) => ':' !in n
    case Ref(k, t, kind) =>
      ':' !in k && Clean(k) && Clean(t) && (kind == ObjectRef ==> !EndsWith(t, "[]"))
  }

  /** The first ':' of `k + ":" + rest` is the one after `k` when `k` has none. */
  lemma ColonAfterKey(k: string, rest: string)
    requires ':' !in k
    ensures IndexOf(k + ":" + rest, ':') == |k|
    ensures (k + ":" + rest)[..|k|] == k && (k + ":" + rest)[|k| + 1..] == rest
  {
    var p := k + ":" + rest;
    assert p[|k|] == ':';
    assert forall j :: 0 <= j < |k| ==> p[j] == k[j];
  }

  /** Reading a written field gives the field back. */
  lemma FieldRoundTrip(f: SchemaField)
    requires WellFormed(f)
    ensures FieldOfPart(FieldText(f)) == f
  {
    match f
    case Name(n) =>
    case Ref(k, t, kind) =>
      var rest := if kind == ObjectRef then t else t + "[]";
      assert FieldText(f) == k + ":" + rest;
      ColonAfterKey(k, rest);
      assert ':' in FieldText(f) by { assert FieldText(f)[|k|] == ':'; }
      if kind == ArrayRef {
        StripEnds(t, Py);
        StripNoEdges(rest, Py);
        assert rest[..|rest| - 2] == t;
        assert EndsWith(rest, "[]");
      }
  }

  /** The fields of the parts, one each, in order. */
  function FieldsOfParts(parts: seq<string>): (fs: Schema)
    ensures |fs| == |parts|
    ensures forall k :: 0 <= k < |parts| ==> fs[k] == FieldOfPart(parts[k])
  {
    if parts == [] then [] else [FieldOfPart(parts[0])] + FieldsOfParts(parts[1..])
  }

  /** The fields of the raw pieces: each piece stripped, the blank ones skipped. */
  function FieldsOfPieces(pieces: seq<string>): (fs: Schema)
    ensures |fs| <= |pieces|
  {
    if pieces == [] then [] else PieceField(pieces[0]) + FieldsOfPieces(pieces[1..])
  }

  /** The field of one raw piece, if it is not blank. */
  function PieceField(piece: string): (fs: Schema)
    ensures |fs| <= 1
  {
    var part := Strip(piece);
    if part == [] then [] else [FieldOfPart(part)]
  }

  /** One more piece adds its field, if any, at the end. */
  lemma {:induction false} FieldsOfPiecesSnoc(pieces: seq<string>, x: string)
    ensures FieldsOfPieces(pieces + [x]) == FieldsOfPieces(pieces) + PieceField(x)
  {
    if pieces == [] {
      assert [] + [x] == [x];
      assert FieldsOfPieces([x]) == PieceField(x) + FieldsOfPieces([]);
    } else {
      var rest := pieces[1..];
      assert (pieces + [x])[0] == pieces[0] && (pieces + [x])[1..] == rest + [x];
      FieldsOfPiecesSnoc(rest, x);
      Assoc(PieceField(pieces[0]), FieldsOfPieces(rest), PieceField(x));
    }
  }

  /** `parse_schema_fields(text)`. */
  function SchemaFieldsOf(text: string): (fs: Schema)
    ensures |fs| <= Count(Unwrap(text, '{', '}'), ',') + 1
  {
    FieldsOfPieces(Split(Unwrap(text, '{', '}'), ','))
  }

  lemma {:induction false} FieldsOfPiecesParts(pieces: seq<string>, bound: nat)
    requires forall k :: 0 <= k < |pieces| ==> |pieces[k]| <= bound && ',' !in pieces[k]
    ensures FieldsOfPieces(pieces) == FieldsOfParts(NonBlank(pieces, bound, ','))
  {
    if pieces != [] {
      var rest := pieces[1..];
      FieldsOfPiecesParts(rest, bound);
      var part := Strip(pieces[0]);
      var tail := NonBlank(rest, bound, ',');
      assert FieldsOfPieces(pieces) == PieceField(pieces[0]) + FieldsOfPieces(rest);
      if part != [] {
        assert NonBlank(pieces, bound, ',') == [part] + tail;
        assert ([part] + tail)[1..] == tail;
      }
    }
  }

  /**
   * One field per non-blank part of the body split on every comma, in
   * order: the split ignores nesting, so a braced type is cut apart.
   */
  lemma SchemaFieldsParts(text: string)
    ensures var parts := StrippedParts(Unwrap(text, '{', '}'), ',');
      var fs := SchemaFieldsOf(text);
      |fs| == |parts| && forall k :: 0 <= k < |parts| ==> fs[k] == FieldOfPart(parts[k])
  {
    var inner := Unwrap(text, '{', '}');
    FieldsOfPiecesParts(Split(inner, ','), |inner|);
  }

  /**
   * `parse_schema_fields` as the source runs it: the stripped parts are
   * collected with a placeholder for blank ones, then the placeholders are
   * skipped; one pass over the parts does both.
   */
  method ParseSchemaFields(text: string) returns (fields: Schema)
    ensures fields == SchemaFieldsOf(text)
  {
    var inner := Strip(text);
    if Wrapped(inner, '{', '}') {
      inner := Inner(inner);
    }
    assert inner == Unwrap(text, '{', '}');
    fields := ReadPieces(Split(inner, ','));
  }

  /** The loop over the comma-separated pieces of the body. */
  method ReadPieces(pieces: seq<string>) returns (fields: Schema)
    ensures fields == FieldsOfPieces(pieces)
  {
    fields := [];
    var i := 0;
    while i < |pieces|
      invariant i <= |pieces|
      invariant fields == FieldsOfPieces(pieces[..i])
    {
      assert pieces[..i + 1] == pieces[..i] + [pieces[i]];
      FieldsOfPiecesSnoc(pieces[..i], pieces[i]);
      var part := Strip(pieces[i]);
      if part != [] {
        fields := fields + [FieldOfPart(part)];
      }
      i := i + 1;
    }
    assert pieces[..i] == pieces;
  }

  /** The name a line declares, with its body, if it matches `:name { ... }`. */
  function Declaration(line: string): Option<(string, string)> {
    Bref2Utils.MatchDecl(Strip(line))
  }

  /** What one line does to the registered schemas: a declaration sets its name. */
  function DefsStep(d: Defs, line: string): Defs {
    var m := Declaration(line);
    if m.Some? then d[m.value.0 := SchemaFieldsOf(m.value.1)] else d
  }

  /** The schemas declared by `lines`, a later declaration of a name replacing an earlier one. */
  function DefsOf(lines: seq<string>): Defs {
    if lines == [] then map[] else DefsStep(DefsOf(lines[..|lines| - 1]), lines[|lines| - 1])
  }

  /** What one line adds to the kept lines: itself stripped, unless it is blank or a declaration. */
  function KeptLine(raw: string): (kept: seq<string>)
    ensures forall k :: 0 <= k < |kept| ==> kept[k] != [] && Clean(kept[k]) && Bref2Utils.MatchDecl(kept[k]).None?
  {
    var line := Strip(raw);
    StripTwice(raw, Py);
    if line != [] && Bref2Utils.MatchDecl(line).None? then [line] else []
  }

  /** The lines kept for the data: stripped, non-blank, not declarations, in order. */
  function KeptOf(lines: seq<string>): (kept: seq<string>)
    ensures forall k :: 0 <= k < |kept| ==> kept[k] != [] && Clean(kept[k]) && Bref2Utils.MatchDecl(kept[k]).None?
  {
    if lines == [] then [] else KeptOf(lines[..|lines| - 1]) + KeptLine(lines[|lines| - 1])
  }

  /** `parse_type_definitions(content)`: the schemas and the remaining lines joined by newlines. */
  function TypeDefinitionsOf(content: string): (Defs, string) {
    var lines := SplitLines(content);
    (DefsOf(lines), Join(KeptOf(lines), '\n'))
  }

  lemma ScanStep(lines: seq<string>, i: nat)
    requires i < |lines|
    ensures DefsOf(lines[..i + 1]) == DefsStep(DefsOf(lines[..i]), lines[i])
    ensures KeptOf(lines[..i + 1]) == KeptOf(lines[..i]) + KeptLine(lines[i])
  {
    assert lines[..i + 1][..i] == lines[..i];
  }

  method ParseTypeDefinitions(content: string) returns (typeDefs: Defs, remaining: string)
    ensures (typeDefs, remaining) == TypeDefinitionsOf(content)
  {
    var lines := SplitLines(content);
    typeDefs := map[];
    var kept: seq<string> := [];
    var i := 0;
    while i < |lines|
      invariant i <= |lines|
      invariant typeDefs == DefsOf(lines[..i]) && kept == KeptOf(lines[..i])
    {
      ScanStep(lines, i);
      var line := Strip(lines[i]);
      if line != [] {
        var m := Bref2Utils.MatchDecl(line);
        if m.Some? {
          var fields := ParseSchemaFields(m.value.1);
          typeDefs := typeDefs[m.value.0 := fields];
        } else {
          kept := kept + [line];
        }
      }
      i := i + 1;
    }
    assert lines[..i] == lines;
    remaining := if kept != [] then Join(kept, '\n') else "";
  }

  /** A name is registered exactly when some line declares it. */
  lemma {:induction false} DefinedIffDeclared(lines: seq<string>, name: string)
    ensures name in DefsOf(lines) <==> exists k :: 0 <= k < |lines| && Declaration(lines[k]).Some? && Declaration(lines[k]).value.0 == name
  {
    if lines != [] {
      var init := lines[..|lines| - 1];
      DefinedIffDeclared(init, name);
      assert forall k :: 0 <= k < |init| ==> init[k] == lines[k];
      var last := |lines| - 1;
      if name in DefsOf(lines) && name !in DefsOf(init) {
        assert Declaration(lines[last]).Some? && Declaration(lines[last]).value.0 == name;
      }
    }
  }

  /** The schema registered under a name is the one its last declaration gives. */
  lemma {:induction false} LastDeclarationWins(lines: seq<string>, k: nat)
    requires k < |lines| && Declaration(lines[k]).Some?
    requires forall j :: k < j < |lines| ==> Declaration(lines[j]).None? || Declaration(lines[j]).value.0 != Declaration(lines[k]).value.0
    ensures Declaration(lines[k]).value.0 in DefsOf(lines)
    ensures DefsOf(lines)[Declaration(lines[k]).value.0] == SchemaFieldsOf(Declaration(lines[k]).value.1)
  {
    var init := lines[..|lines| - 1];
    if k < |lines| - 1 {
      assert forall j :: k < j < |init| ==> init[j] == lines[j];
      LastDeclarationWins(init, k);
    }
  }
}
