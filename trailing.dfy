/**
 * Trailing type annotations of the string-segment parsers: `: Name` or
 * `: { fields }` at the end of a segment. The regular expressions of the
 * source are replaced by predicates on the stripped text; a search finds
 * the leftmost position where the pattern matches.
 */
module Trailing {
  import opened Text
  import opened Base
  import opened BrefPyDeclarations

  /** The end of the whitespace run that starts at `i` (`\s*`, greedy). */
  function SkipSpace(s: string, i: nat): (j: nat)
    requires i <= |s|
    ensures i <= j <= |s|
    ensures forall k :: i <= k < j ==> IsPySpace(s[k])
    ensures j < |s| ==> !IsPySpace(s[j])
    decreases |s| - i
  {
    if i < |s| && IsPySpace(s[i]) then SkipSpace(s, i + 1) else i
  }

  /** `:\s*\{[^}]*\}\s*$` matches from the ':' at `c` of a stripped text. */
  predicate InlineAt(s: string, c: nat) {
    c < |s| && s[c] == ':' && s[|s| - 1] == '}'
    && SkipSpace(s, c + 1) < |s| - 1 && s[SkipSpace(s, c + 1)] == '{'
    && '}' !in s[SkipSpace(s, c + 1) + 1..|s| - 1]
  }

  /** `:\s*[A-Za-z_]\w*\s*$` matches from the ':' at `c` of a stripped text. */
  predicate TypeNameAt(s: string, c: nat) {
    c < |s| && s[c] == ':'
    && SkipSpace(s, c + 1) < |s| && IsIdentStart(s[SkipSpace(s, c + 1)])
    && AllWord(s[SkipSpace(s, c + 1) + 1..])
  }

  /** The leftmost ':' from `i` on where an inline schema matches, or `|s|`. */
  function FirstInline(s: string, i: nat): (c: nat)
    requires i <= |s|
    ensures i <= c <= |s|
    ensures c < |s| ==> InlineAt(s, c)
    ensures forall k :: i <= k < c ==> !InlineAt(s, k)
    decreases |s| - i
  {
    if i == |s| || InlineAt(s, i) then i else FirstInline(s, i + 1)
  }

  /** The leftmost ':' from `i` on where a type name matches, or `|s|`. */
  function FirstTypeName(s: string, i: nat): (c: nat)
    requires i <= |s|
    ensures i <= c <= |s|
    ensures c < |s| ==> TypeNameAt(s, c)
    ensures forall k :: i <= k < c ==> !TypeNameAt(s, k)
    decreases |s| - i
  {
    if i == |s| || TypeNameAt(s, i) then i else FirstTypeName(s, i + 1)
  }

  /** What `extract_trailing_type` finds after the core text. */
  datatype Trailing = NoTrailing | TypeName(name: string) | Inline(fields: Schema)

  /**
   * `extract_trailing_type(segment)`: a trailing inline schema is tried
   * first, then a trailing type name; the core is the stripped text before
   * the match, right-stripped (which also drops the whitespace the
   * pattern's leading `\s*` takes). With neither, the stripped segment.
   */
  function ExtractTrailingType(segment: string): (r: (string, Trailing))
    ensures r.1.NoTrailing? ==> r.0 == Strip(segment)
    ensures !r.1.NoTrailing? ==> |r.0| < |Strip(segment)|
  {
    var s := Strip(segment);
    var c := FirstInline(s, 0);
    if c < |s| then
      (RStrip(s[..c]), Inline(SchemaFieldsOf(s[SkipSpace(s, c + 1)..])))
    else
      var t := FirstTypeName(s, 0);
      if t < |s| then (RStrip(s[..t]), TypeName(s[SkipSpace(s, t + 1)..])) else (s, NoTrailing)
  }

  /**
   * The inline schema is preferred: a type name is taken only where no
   * inline schema matches, and with neither the text matches no pattern.
   */
  lemma ExtractPrefersInline(segment: string)
    ensures ExtractTrailingType(segment).1.NoTrailing? ==>
      forall c :: 0 <= c < |Strip(segment)| ==> !InlineAt(Strip(segment), c) && !TypeNameAt(Strip(segment), c)
    ensures ExtractTrailingType(segment).1.TypeName? ==>
      forall c :: 0 <= c < |Strip(segment)| ==> !InlineAt(Strip(segment), c)
    ensures ExtractTrailingType(segment).1.Inline? ==> exists c :: 0 <= c < |Strip(segment)| && InlineAt(Strip(segment), c)
    ensures ExtractTrailingType(segment).1.TypeName? ==> exists c :: 0 <= c < |Strip(segment)| && TypeNameAt(Strip(segment), c)
  {
    var s := Strip(segment);
    var c := FirstInline(s, 0);
    if c == |s| {
      var t := FirstTypeName(s, 0);
    }
  }

  /** `[A-Za-z_]\w*`. */
  predicate Identifier(name: string) {
    |name| > 0 && IsIdentStart(name[0]) && AllWord(name[1..])
  }

  /** A clean text ends in no whitespace, so a right strip keeps it. */
  lemma CleanRStrip(core: string)
    requires Clean(core)
    ensures RStrip(core) == core
  {
    StripEnds(core, Py);
    if core != [] {
      assert TrailingWs(core, Py) == 0;
    }
  }

  /** A clean text followed by a text with non-space edges is clean. */
  lemma CleanJoin(core: string, rest: string)
    requires Clean(core) && rest != [] && !IsPySpace(rest[0]) && !IsPySpace(rest[|rest| - 1])
    ensures Clean(core + rest)
  {
    var s := core + rest;
    StripEnds(core, Py);
    if core == [] { assert s == rest; } else { assert s[0] == core[0]; }
    assert s[|s| - 1] == rest[|rest| - 1];
    StripNoEdges(s, Py);
  }

  /** No type name matches at a ':' inside the core when the text after the core starts with ':'. */
  lemma NoTypeNameBefore(core: string, rest: string)
    requires rest != [] && rest[0] == ':'
    ensures forall k :: 0 <= k < |core| ==> !TypeNameAt(core + rest, k)
  {
    var s := core + rest;
    assert s[|core|] == ':';
    forall k | 0 <= k < |core| ensures !TypeNameAt(s, k) {
      if s[k] == ':' {
        var d := SkipSpace(s, k + 1);
        if d < |core| {
          assert s[d + 1..][|core| - d - 1] == ':';
        }
      }
    }
  }

  /** No inline schema matches at a ':' inside a core that holds no ':'. */
  lemma NoInlineBefore(core: string, rest: string)
    requires ':' !in core
    ensures forall k :: 0 <= k < |core| ==> !InlineAt(core + rest, k)
  {
    var s := core + rest;
    forall k | 0 <= k < |core| ensures !InlineAt(s, k) {
      assert s[k] == core[k];
    }
  }

  /** The last character of an identifier is not whitespace and not a brace. */
  lemma IdentifierEnd(name: string)
    requires Identifier(name)
    ensures !IsPySpace(name[|name| - 1]) && name[|name| - 1] != '}'
  {
    if |name| > 1 { assert name[|name| - 1] == name[1..][|name| - 2]; }
  }

  /** Skipping whitespace inside the second part of a concatenation ignores the first part. */
  lemma {:induction false} SkipSpaceShift(core: string, rest: string, i: nat)
    requires i <= |rest|
    ensures SkipSpace(core + rest, |core| + i) == |core| + SkipSpace(rest, i)
    decreases |rest| - i
  {
    var s := core + rest;
    if i < |rest| {
      assert s[|core| + i] == rest[i];
      if IsPySpace(rest[i]) {
        SkipSpaceShift(core, rest, i + 1);
      }
    }
  }

  /** `": " + name` has its type name at its own ':'. */
  lemma TypeNameAtHead(name: string)
    requires Identifier(name)
    ensures SkipSpace(": " + name, 1) == 2
    ensures TypeNameAt(": " + name, 0)
    ensures (": " + name)[2..] == name
  {
    var rest := ": " + name;
    assert rest[2] == name[0];
    assert !IsPySpace(name[0]) by { assert IsIdentStart(name[0]); }
    assert SkipSpace(rest, 2) == 2;
    assert rest[2..] == name;
    assert rest[3..] == name[1..];
  }

  /** A type name that matches at the head of `rest` matches after any core. */
  lemma TypeNameShift(core: string, rest: string)
    requires TypeNameAt(rest, 0)
    ensures TypeNameAt(core + rest, |core|)
    ensures SkipSpace(core + rest, |core| + 1) == |core| + SkipSpace(rest, 1)
  {
    var s := core + rest;
    assert s[|core|] == rest[0];
    SkipSpaceShift(core, rest, 1);
    var d := SkipSpace(rest, 1);
    assert s[|core| + d] == rest[d];
    assert s[|core| + d + 1..] == rest[d + 1..];
  }

  /** `core + ": " + name` is stripped, and the ':' after the core is the only place a type name matches. */
  lemma TypeNameAfterCore(core: string, name: string)
    requires Clean(core) && Identifier(name)
    ensures Strip(core + ": " + name) == core + ": " + name
    ensures FirstTypeName(core + ": " + name, 0) == |core|
    ensures SkipSpace(core + ": " + name, |core| + 1) == |core| + 2
    ensures (core + ": " + name)[|core| + 2..] == name
    ensures (core + ": " + name)[..|core|] == core
  {
    var rest := ": " + name;
    var s := core + rest;
    Assoc(core, ": ", name);
    IdentifierEnd(name);
    assert rest[|rest| - 1] == name[|name| - 1];
    CleanJoin(core, rest);
    NoTypeNameBefore(core, rest);
    TypeNameAtHead(name);
    TypeNameShift(core, rest);
    assert s[|core| + 2..] == rest[2..];
  }

  /** Writing `core: Name` and extracting gives back the core and the name. */
  lemma TypeNameRoundTrip(core: string, name: string)
    requires Clean(core) && Identifier(name)
    ensures ExtractTrailingType(core + ": " + name) == (core, TypeName(name))
  {
    var s := core + ": " + name;
    TypeNameAfterCore(core, name);
    CleanRStrip(core);
    IdentifierEnd(name);
    assert s[|s| - 1] == name[|name| - 1];
  }

  /** Where the pieces of `core: { body }` sit in the text. */
  lemma InlineLayout(core: string, body: string, s: string)
    requires s == core + (": " + ("{" + body + "}"))
    ensures s == core + ": {" + body + "}"
    ensures s[|core|] == ':' && s[|core| + 1] == ' ' && s[|core| + 2] == '{'
    ensures s[|core| + 3..|s| - 1] == body && s[..|core|] == core && s[|core| + 2..] == "{" + body + "}"
  {
    var braced := "{" + body + "}";
    var rest := ": " + braced;
    assert core + ": {" + body + "}" == core + rest by {
      assert ": {" + body == ": " + ("{" + body);
      Assoc(core, ": {", body);
      Assoc(": ", "{" + body, "}");
      Assoc(core, ": {" + body, "}");
      Assoc("{", body, "}");
    }
    assert s[|core| + 2..] == braced;
    assert braced[1..|braced| - 1] == body;
  }

  /** Writing `core: { body }` and extracting gives back the core and the schema of the body. */
  lemma InlineRoundTrip(core: string, body: string)
    requires Clean(core) && ':' !in core && '}' !in body
    ensures ExtractTrailingType(core + ": {" + body + "}") == (core, Inline(SchemaFieldsOf("{" + body + "}")))
  {
    var braced := "{" + body + "}";
    var rest := ": " + braced;
    var s := core + rest;
    InlineLayout(core, body, s);
    CleanJoin(core, rest);
    NoInlineBefore(core, rest);
    CleanRStrip(core);
    assert SkipSpace(s, |core| + 2) == |core| + 2;
    assert InlineAt(s, |core|);
  }

  /**
   * `find_type_annotation(data_str)` as written: the match is searched in
   * the stripped text, but its position cuts the original text. A trailing
   * inline schema, like no annotation at all, gives the text back unchanged.
   */
  function FindTypeAnnotation(data: string): (r: (string, Option<string>))
    ensures r.1.None? ==> r.0 == data
  {
    var s := Strip(data);
    var c := FirstTypeName(s, 0);
    if c < |s| then (Strip(data[..c]), Some(s[SkipSpace(s, c + 1)..])) else (data, None)
  }

  /** `find_type_annotation` with the position applied to the text it was found in. */
  function TypeAnnotationOf(data: string): (r: (string, Option<string>))
    ensures r.1.None? ==> r.0 == data
  {
    var s := Strip(data);
    var c := FirstTypeName(s, 0);
    if c < |s| then (Strip(s[..c]), Some(s[SkipSpace(s, c + 1)..])) else (data, None)
  }

  /** The corrected reading takes `core: Name` apart into the core and the name. */
  lemma TypeAnnotationRoundTrip(core: string, name: string)
    requires Clean(core) && Identifier(name)
    ensures TypeAnnotationOf(core + ": " + name) == (core, Some(name))
  {
    TypeNameAfterCore(core, name);
  }

  /** Whitespace around the text does not change what the corrected reading finds. */
  lemma TypeAnnotationIgnoresPadding(data: string)
    ensures TypeAnnotationOf(data).1.Some? ==> TypeAnnotationOf(Strip(data)) == TypeAnnotationOf(data)
  {
    StripTwice(data, Py);
  }

  /** The facts about "x: T" that both readings use. */
  lemma PlainAnnotationText()
    ensures Strip("x: T") == "x: T" && FirstTypeName("x: T", 0) == 1 && SkipSpace("x: T", 2) == 3
    ensures "x: T"[3..] == "T" && "x: T"[..1] == "x" && Strip("x") == "x"
  {
    assert Clean("x") by { StripNoEdges("x", Py); }
    assert Identifier("T");
    TypeNameAfterCore("x", "T");
    assert "x" + ": " + "T" == "x: T";
  }

  /** Stripping " x: T" drops its one leading space; stripping " " leaves nothing. */
  lemma PaddedText()
    ensures Strip(" x: T") == "x: T" && " x: T"[..1] == " " && Strip(" ") == ""
  {
    var padded := " x: T";
    assert LeadingWs(padded, Py) == 1 by {
      assert padded[1..] == "x: T";
    }
    assert padded[1..] == "x: T";
    assert LeadingWs(" ", Py) == 1 by { assert " "[1..] == ""; }
  }

  /** One leading space makes the source's reading lose the core, where the corrected one keeps it. */
  lemma LeadingSpaceLosesCore()
    ensures FindTypeAnnotation("x: T") == ("x", Some("T"))
    ensures FindTypeAnnotation(" x: T") == ("", Some("T"))
    ensures TypeAnnotationOf(" x: T") == ("x", Some("T"))
  {
    PlainAnnotationText();
    PaddedText();
  }
}
