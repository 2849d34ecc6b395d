/**
 * The cursor-based recursive-descent parser of the AST engine
 * (bref-2/parser.py), which bref/converter.py repeats with one difference:
 * what the `.` marker becomes.
 *
 * The reading of the text is given first as functions from a start
 * position to the outcome and the position where the cursor stops; the
 * `Parser` class then walks the text with a mutable cursor, as the source
 * does, and each of its methods is proved to compute that function.
 */
module Bref2Parser {
  import opened Text
  import opened Base
  import opened PyData
  import opened Bref2Utils
  import opened Ast

  /**
   * What the two copies of the parser do differently, and what they call
   * from outside: `dot` is the node the `.` marker becomes, `decode` stands
   * for `json.loads` applied to a scanned string literal (None when it
   * raises), and `schemaOf` is the `parse_schema_fields` the copy imports
   * (`Bref2Utils.SchemaOf` for the AST engine).
   */
  datatype Config = Config(dot: Node, decode: string -> Option<string>, number: string -> Result<PyValue>, schemaOf: string -> Result<Schema>)

  /* ---------------- the reading, as functions of the position ---------------- */

  /** Where `skip_ws` stops: the first position at or after `pos` that is not whitespace. */
  function SkipWsFrom(s: string, pos: nat): (p: nat)
    requires pos <= |s|
    ensures pos <= p <= |s|
    decreases |s| - pos
  {
    if pos < |s| && IsPySpace(s[pos]) then SkipWsFrom(s, pos + 1) else pos
  }

  /** The end of the run of word characters (`isalnum() or '_'`) starting at `pos`. */
  function WordEnd(s: string, pos: nat): (e: nat)
    requires pos <= |s|
    ensures pos <= e <= |s|
    decreases |s| - pos
  {
    if pos < |s| && IsWordChar(s[pos]) then WordEnd(s, pos + 1) else pos
  }

  /** The end of the run of digits starting at `pos`. */
  function DigitsEnd(s: string, pos: nat): (e: nat)
    requires pos <= |s|
    ensures pos <= e <= |s|
    decreases |s| - pos
  {
    if pos < |s| && IsDigit(s[pos]) then DigitsEnd(s, pos + 1) else pos
  }

  /** `read_identifier`: after whitespace, a letter or '_' and then word characters. */
  function IdentifierAt(s: string, pos: nat): (r: Result<(string, nat)>)
    requires pos <= |s|
    ensures r.Ok? ==> pos < r.value.1 <= |s|
  {
    var p := SkipWsFrom(s, pos);
    if p == |s| then Err(TypeNameExpected)
    else if !IsIdentStart(s[p]) then Err(BadTypeNameStart(s[p]))
    else
      var e := WordEnd(s, p + 1);
      Ok((s[p..e], e))
  }

  /**
   * `try_parse_identifier_literal`: `true`, `false` or `null` as a prefix of
   * the rest of the text, with no check of what follows.
   */
  function LiteralAt(s: string, pos: nat): (r: Option<(PyValue, nat)>)
    requires pos <= |s|
    ensures r.Some? ==> pos < r.value.1 <= |s|
  {
    if StartsWith(s[pos..], "true") then Some((PBool(true), pos + 4))
    else if StartsWith(s[pos..], "false") then Some((PBool(false), pos + 5))
    else if StartsWith(s[pos..], "null") then Some((PNone, pos + 4))
    else None
  }

  /** Where `parse_number` stops: an optional '-', digits, and optionally '.' and digits. */
  function NumberEnd(s: string, pos: nat): (e: nat)
    requires pos <= |s|
    ensures pos <= e <= |s|
    ensures pos < |s| && (s[pos] == '-' || IsDigit(s[pos])) ==> pos < e
  {
    var p := if pos < |s| && s[pos] == '-' then pos + 1 else pos;
    var q := DigitsEnd(s, p);
    if q < |s| && s[q] == '.' then DigitsEnd(s, q + 1) else q
  }

  /** `parse_number`: the consumed text read by `int()`, or by `float()` when it holds a '.'. */
  function NumberAt(s: string, pos: nat, number: string -> Result<PyValue>): (r: Result<(PyValue, nat)>)
    requires pos <= |s|
    ensures r.Ok? ==> r.value.1 == NumberEnd(s, pos)
  {
    var e := NumberEnd(s, pos);
    var v :- number(s[pos..e]);
    Ok((v, e))
  }

  /**
   * The scan of a string body from `pos` (just after the opening quote): a
   * backslash takes the next character with it, and the first other `quote`
   * closes the string. Yields the position after the closing quote, or the
   * end of the text when the string is never closed.
   */
  function StringEnd(s: string, pos: nat, quote: char): (e: nat)
    requires pos <= |s|
    ensures pos <= e <= |s|
    decreases |s| - pos
  {
    if pos == |s| then pos
    else if s[pos] == '\\' then (if pos + 1 < |s| then StringEnd(s, pos + 2, quote) else |s|)
    else if s[pos] == quote then pos + 1
    else StringEnd(s, pos + 1, quote)
  }

  /** `parse_string` at an opening quote: the scanned literal, quotes included, handed to the decoder. */
  function StringAt(s: string, pos: nat, decode: string -> Option<string>): (r: Result<(string, nat)>)
    requires pos < |s| && s[pos] == '"'
    ensures r.Ok? ==> pos < r.value.1 <= |s|
  {
    var e := StringEnd(s, pos + 1, '"');
    match decode(s[pos..e])
    case Some(t) => Ok((t, e))
    case None => Err(BadString(s[pos..e]))
  }

  /** The loop of `read_braced` from `pos` at brace depth `depth`: the position just after the brace that closes. */
  function BracedEnd(s: string, pos: nat, depth: int): (r: Result<nat>)
    requires pos <= |s|
    ensures r.Ok? ==> pos < r.value <= |s|
    decreases |s| - pos
  {
    if pos == |s| then Err(UnclosedBrace)
    else if s[pos] == '{' then BracedEnd(s, pos + 1, depth + 1)
    else if s[pos] == '}' then (if depth - 1 == 0 then Ok(pos + 1) else BracedEnd(s, pos + 1, depth - 1))
    else if s[pos] == '"' then BracedEnd(s, StringEnd(s, pos + 1, '"'), depth)
    else BracedEnd(s, pos + 1, depth)
  }

  /** `read_braced`: the text from '{' up to its matching '}', and the position after it. */
  function BracedAt(s: string, pos: nat): (r: Result<(string, nat)>)
    requires pos <= |s|
    ensures r.Ok? ==> pos < r.value.1 <= |s|
  {
    var p := SkipWsFrom(s, pos);
    if p == |s| || s[p] != '{' then Err(SchemaExpected)
    else
      var e :- BracedEnd(s, p, 0);
      Ok((s[p..e], e))
  }

  /**
   * `parse_type_annotation`: nothing (consuming only whitespace) unless the
   * next character is ':'; then an inline schema when '{' follows, else a
   * type name.
   */
  function AnnotationAt(s: string, pos: nat, schemaOf: string -> Result<Schema>): (r: Result<(Option<TypeAnn>, nat)>)
    requires pos <= |s|
    ensures r.Ok? ==> pos <= r.value.1 <= |s|
  {
    var p := SkipWsFrom(s, pos);
    if p == |s| || s[p] != ':' then Ok((None, p))
    else
      var q := SkipWsFrom(s, p + 1);
      if q < |s| && s[q] == '{' then
        var b :- BracedAt(s, q);
        var schema :- schemaOf(b.0);
        Ok((Some(Inline(schema)), b.1))
      else
        var n :- IdentifierAt(s, q);
        Ok((Some(Named(n.0)), n.1))
  }

  /** `parse_value`: one value after optional whitespace; it always consumes at least one character. */
  function ValueAt(s: string, pos: nat, cfg: Config): (r: Result<(Node, nat)>)
    requires pos <= |s|
    ensures r.Ok? ==> pos < r.value.1 <= |s|
    decreases |s| - pos, 2
  {
    var p := SkipWsFrom(s, pos);
    if p == |s| then Err(UnexpectedEnd)
    else
      var ch := s[p];
      if ch == '{' then ListAt(s, p, cfg)
      else if ch == '[' then ArrayAt(s, p, cfg)
      else if ch == '"' then
        var t :- StringAt(s, p, cfg.decode);
        Ok((Prim(PStr(t.0)), t.1))
      else if ch == '-' || IsDigit(ch) then
        var n :- NumberAt(s, p, cfg.number);
        Ok((Prim(n.0), n.1))
      else if LiteralAt(s, p).Some? then
        Ok((Prim(LiteralAt(s, p).value.0), LiteralAt(s, p).value.1))
      else if ch == '.' then Ok((cfg.dot, p + 1))
      else if IsIdentStart(ch) then
        var e := WordEnd(s, p + 1);
        Ok((Prim(PStr(s[p..e])), e))
      else Err(UnexpectedChar(ch, p))
  }

  /** `parse_list_node` at '{': the items up to the closing '}', then an optional annotation. */
  function ListAt(s: string, pos: nat, cfg: Config): (r: Result<(Node, nat)>)
    requires pos < |s| && s[pos] == '{'
    ensures r.Ok? ==> pos < r.value.1 <= |s| && r.value.0.List?
    decreases |s| - pos, 1
  {
    var p := SkipWsFrom(s, pos + 1);
    if p < |s| && s[p] == '}' then
      var a :- AnnotationAt(s, p + 1, cfg.schemaOf);
      Ok((List([], a.0), a.1))
    else
      var items :- ListItems(s, p, cfg);
      var a :- AnnotationAt(s, items.1, cfg.schemaOf);
      Ok((List(items.0, a.0), a.1))
  }

  /**
   * One item of a brace list: `key: value` when an identifier is followed,
   * after whitespace, by ':'; otherwise the cursor goes back to the item's
   * start and the item is read as a value.
   */
  function ListItemAt(s: string, pos: nat, cfg: Config): (r: Result<(Node, nat)>)
    requires pos <= |s|
    ensures r.Ok? ==> pos < r.value.1 <= |s|
    decreases |s| - pos, 3
  {
    if pos < |s| && IsIdentStart(s[pos]) then
      var e := WordEnd(s, pos + 1);
      var q := SkipWsFrom(s, e);
      if q < |s| && s[q] == ':' then
        var v :- ValueAt(s, SkipWsFrom(s, q + 1), cfg);
        Ok((KeyValue(s[pos..e], v.0), v.1))
      else ValueAt(s, pos, cfg)
    else ValueAt(s, pos, cfg)
  }

  /** The loop of `parse_list_node`: items separated by ',' up to and including '}'. */
  function ListItems(s: string, pos: nat, cfg: Config): (r: Result<(seq<Node>, nat)>)
    requires pos <= |s|
    ensures r.Ok? ==> pos < r.value.1 <= |s| && s[r.value.1 - 1] == '}'
    decreases |s| - pos, 4
  {
    var item :- ListItemAt(s, pos, cfg);
    var q := SkipWsFrom(s, item.1);
    if q < |s| && s[q] == ',' then
      var rest :- ListItems(s, SkipWsFrom(s, q + 1), cfg);
      Ok(([item.0] + rest.0, rest.1))
    else if q < |s| && s[q] == '}' then Ok(([item.0], q + 1))
    else Err(ListUnexpectedChar(if q < |s| then [s[q]] else "", q))
  }

  /** `parse_array_node` at '[': the items up to the closing ']', then an optional annotation. */
  function ArrayAt(s: string, pos: nat, cfg: Config): (r: Result<(Node, nat)>)
    requires pos < |s| && s[pos] == '['
    ensures r.Ok? ==> pos < r.value.1 <= |s| && r.value.0.Array?
    decreases |s| - pos, 1
  {
    var p := SkipWsFrom(s, pos + 1);
    if p < |s| && s[p] == ']' then
      var a :- AnnotationAt(s, p + 1, cfg.schemaOf);
      Ok((Array([], a.0), a.1))
    else
      var items :- ArrayItems(s, p, cfg);
      var a :- AnnotationAt(s, items.1, cfg.schemaOf);
      Ok((Array(items.0, a.0), a.1))
  }

  /** The loop of `parse_array_node`: values separated by ',' up to and including ']'. */
  function ArrayItems(s: string, pos: nat, cfg: Config): (r: Result<(seq<Node>, nat)>)
    requires pos <= |s|
    ensures r.Ok? ==> pos < r.value.1 <= |s| && s[r.value.1 - 1] == ']'
    decreases |s| - pos, 4
  {
    var item :- ValueAt(s, pos, cfg);
    var q := SkipWsFrom(s, item.1);
    if q < |s| && s[q] == ',' then
      var rest :- ArrayItems(s, SkipWsFrom(s, q + 1), cfg);
      Ok(([item.0] + rest.0, rest.1))
    else if q < |s| && s[q] == ']' then Ok(([item.0], q + 1))
    else Err(ArrayUnexpectedChar(if q < |s| then [s[q]] else "", q))
  }

  /** A list item that starts with a key and ':' is that key paired with the value after the ':'. */
  lemma ListItemKeyed(s: string, pos: nat, cfg: Config, e: nat, q: nat, p: nat)
    requires pos < |s| && IsIdentStart(s[pos]) && e == WordEnd(s, pos + 1)
    requires q == SkipWsFrom(s, e) && q < |s| && s[q] == ':' && p == SkipWsFrom(s, q + 1)
    ensures ValueAt(s, p, cfg).Err? ==> ListItemAt(s, pos, cfg) == Err(ValueAt(s, p, cfg).error)
    ensures ValueAt(s, p, cfg).Ok? ==> ListItemAt(s, pos, cfg) == Ok((KeyValue(s[pos..e], ValueAt(s, p, cfg).value.0), ValueAt(s, p, cfg).value.1))
  {
    var v := ValueAt(s, p, cfg);
    if v.Ok? {
      assert !v.IsFailure() && v.Extract() == v.value;
    }
  }

  /** At a character that can start an identifier, the identifier is the word that starts there. */
  lemma IdentifierAtWord(s: string, pos: nat)
    requires pos < |s| && IsIdentStart(s[pos])
    ensures IdentifierAt(s, pos) == Ok((s[pos..WordEnd(s, pos + 1)], WordEnd(s, pos + 1)))
  {
  }

  /** A list item that does not start with a key and ':' is read as a value from where it starts. */
  lemma ListItemPlain(s: string, pos: nat, cfg: Config)
    requires pos <= |s|
    requires !(pos < |s| && IsIdentStart(s[pos]) && SkipWsFrom(s, WordEnd(s, pos + 1)) < |s| && s[SkipWsFrom(s, WordEnd(s, pos + 1))] == ':')
    ensures ListItemAt(s, pos, cfg) == ValueAt(s, pos, cfg)
  {
  }

  /** A `parse_list_node` round whose item fails fails the loop. */
  lemma ListItemsFails(s: string, at: nat, cfg: Config)
    requires at <= |s| && ListItemAt(s, at, cfg).Err?
    ensures ListItems(s, at, cfg) == Err(ListItemAt(s, at, cfg).error)
  {
  }

  /** A `parse_list_node` round whose item v is followed, after whitespace, by ',' goes on after it. */
  lemma ListItemsComma(s: string, at: nat, cfg: Config, v: (Node, nat), q: nat)
    requires at <= |s| && ListItemAt(s, at, cfg) == Ok(v) && q == SkipWsFrom(s, v.1) && q < |s| && s[q] == ','
    ensures ListItems(s, at, cfg) == PrefixedAt([v.0], ListItems(s, SkipWsFrom(s, q + 1), cfg))
  {
    var rest := ListItems(s, SkipWsFrom(s, q + 1), cfg);
    assert !ListItemAt(s, at, cfg).IsFailure() && ListItemAt(s, at, cfg).Extract() == v;
    if rest.Ok? {
      assert ListItems(s, at, cfg) == Ok(([v.0] + rest.value.0, rest.value.1));
    } else {
      assert ListItems(s, at, cfg) == Err(rest.error);
    }
  }

  /** A `parse_list_node` round whose item v is followed, after whitespace, by '}' ends the loop. */
  lemma ListItemsEnd(s: string, at: nat, cfg: Config, v: (Node, nat), q: nat)
    requires at <= |s| && ListItemAt(s, at, cfg) == Ok(v) && q == SkipWsFrom(s, v.1) && q < |s| && s[q] == '}'
    ensures ListItems(s, at, cfg) == Ok(([v.0], q + 1))
  {
  }

  /** A `parse_list_node` round whose item v is followed by anything but ',' or '}' fails there. */
  lemma ListItemsUnexpected(s: string, at: nat, cfg: Config, v: (Node, nat), q: nat)
    requires at <= |s| && ListItemAt(s, at, cfg) == Ok(v) && q == SkipWsFrom(s, v.1)
    requires !(q < |s| && (s[q] == ',' || s[q] == '}'))
    ensures ListItems(s, at, cfg) == Err(ListUnexpectedChar(if q < |s| then [s[q]] else "", q))
  {
  }

  /** A `parse_array_node` round whose value fails fails the loop. */
  lemma ArrayItemsFails(s: string, at: nat, cfg: Config)
    requires at <= |s| && ValueAt(s, at, cfg).Err?
    ensures ArrayItems(s, at, cfg) == Err(ValueAt(s, at, cfg).error)
  {
  }

  /** A `parse_array_node` round whose value v is followed, after whitespace, by ',' goes on after it. */
  lemma ArrayItemsComma(s: string, at: nat, cfg: Config, v: (Node, nat), q: nat)
    requires at <= |s| && ValueAt(s, at, cfg) == Ok(v) && q == SkipWsFrom(s, v.1) && q < |s| && s[q] == ','
    ensures ArrayItems(s, at, cfg) == PrefixedAt([v.0], ArrayItems(s, SkipWsFrom(s, q + 1), cfg))
  {
    var rest := ArrayItems(s, SkipWsFrom(s, q + 1), cfg);
    assert !ValueAt(s, at, cfg).IsFailure() && ValueAt(s, at, cfg).Extract() == v;
    if rest.Ok? {
      assert ArrayItems(s, at, cfg) == Ok(([v.0] + rest.value.0, rest.value.1));
    } else {
      assert ArrayItems(s, at, cfg) == Err(rest.error);
    }
  }

  /** A `parse_array_node` round whose value v is followed, after whitespace, by ']' ends the loop. */
  lemma ArrayItemsEnd(s: string, at: nat, cfg: Config, v: (Node, nat), q: nat)
    requires at <= |s| && ValueAt(s, at, cfg) == Ok(v) && q == SkipWsFrom(s, v.1) && q < |s| && s[q] == ']'
    ensures ArrayItems(s, at, cfg) == Ok(([v.0], q + 1))
  {
  }

  /** A `parse_array_node` round whose value v is followed by anything but ',' or ']' fails there. */
  lemma ArrayItemsUnexpected(s: string, at: nat, cfg: Config, v: (Node, nat), q: nat)
    requires at <= |s| && ValueAt(s, at, cfg) == Ok(v) && q == SkipWsFrom(s, v.1)
    requires !(q < |s| && (s[q] == ',' || s[q] == ']'))
    ensures ArrayItems(s, at, cfg) == Err(ArrayUnexpectedChar(if q < |s| then [s[q]] else "", q))
  {
  }

  /* ---------------- what the reading promises ---------------- */

  /** `skip_ws` passes over whitespace only, and stops at the end or at a character that is not whitespace. */
  lemma {:induction false} SkipWsSpan(s: string, pos: nat)
    requires pos <= |s|
    ensures forall k :: pos <= k < SkipWsFrom(s, pos) ==> IsPySpace(s[k])
    ensures SkipWsFrom(s, pos) < |s| ==> !IsPySpace(s[SkipWsFrom(s, pos)])
    decreases |s| - pos
  {
    if pos < |s| && IsPySpace(s[pos]) {
      SkipWsSpan(s, pos + 1);
    }
  }

  /** A run of word characters stops at the end or at the first character that is not one. */
  lemma {:induction false} WordSpan(s: string, pos: nat)
    requires pos <= |s|
    ensures forall k :: pos <= k < WordEnd(s, pos) ==> IsWordChar(s[k])
    ensures WordEnd(s, pos) < |s| ==> !IsWordChar(s[WordEnd(s, pos)])
    decreases |s| - pos
  {
    if pos < |s| && IsWordChar(s[pos]) {
      WordSpan(s, pos + 1);
    }
  }

  /** A run of digits stops at the end or at the first character that is not a digit. */
  lemma {:induction false} DigitsSpan(s: string, pos: nat)
    requires pos <= |s|
    ensures forall k :: pos <= k < DigitsEnd(s, pos) ==> IsDigit(s[k])
    ensures DigitsEnd(s, pos) < |s| ==> !IsDigit(s[DigitsEnd(s, pos)])
    decreases |s| - pos
  {
    if pos < |s| && IsDigit(s[pos]) {
      DigitsSpan(s, pos + 1);
    }
  }

  /** `parse_value` with nothing but whitespace left fails with "unexpected end". */
  lemma OnlyWhitespaceLeft(s: string, pos: nat, cfg: Config)
    requires pos <= |s|
    requires forall k :: pos <= k < |s| ==> IsPySpace(s[k])
    ensures ValueAt(s, pos, cfg) == Err(UnexpectedEnd)
  {
    SkipWsSpan(s, pos);
  }

  /**
   * `read_identifier`: a letter or '_' and then the longest run of word
   * characters, taken after whitespace; the cursor stops right after it.
   */
  lemma IdentifierShape(s: string, pos: nat)
    requires pos <= |s|
    ensures IdentifierAt(s, pos).Ok? ==>
      var (name, e) := IdentifierAt(s, pos).value;
      |name| > 0 && IsIdentStart(name[0]) && AllWord(name)
      && name == s[e - |name|..e] && (e == |s| || !IsWordChar(s[e]))
    ensures IdentifierAt(s, pos).Err? <==>
      var p := SkipWsFrom(s, pos); p == |s| || !IsIdentStart(s[p])
  {
    var p := SkipWsFrom(s, pos);
    if p < |s| && IsIdentStart(s[p]) {
      WordSpan(s, p + 1);
      var e := WordEnd(s, p + 1);
      var name := s[p..e];
      forall k | 0 <= k < |name| ensures IsWordChar(name[k]) {
        assert name[k] == s[p + k];
      }
    }
  }

  /**
   * `try_parse_identifier_literal`: `true`, `false` and `null` are matched
   * as prefixes, with no look at what follows; a match moves the cursor by
   * exactly the keyword's length.
   */
  lemma LiteralIsKeyword(s: string, pos: nat)
    requires pos <= |s|
    ensures LiteralAt(s, pos).Some? ==>
      var (v, e) := LiteralAt(s, pos).value;
      (s[pos..e] == "true" && v == PBool(true))
      || (s[pos..e] == "false" && v == PBool(false))
      || (s[pos..e] == "null" && v == PNone)
    ensures LiteralAt(s, pos).None? <==>
      !StartsWith(s[pos..], "true") && !StartsWith(s[pos..], "false") && !StartsWith(s[pos..], "null")
  {
    if LiteralAt(s, pos).Some? {
      var e := LiteralAt(s, pos).value.1;
      assert s[pos..e] == s[pos..][..e - pos];
    }
  }

  /** A keyword is read before the identifier rule gets a chance: `trueish` starts with the value `true`. */
  lemma KeywordBeforeIdentifier(s: string, pos: nat, cfg: Config)
    requires pos <= |s|
    requires SkipWsFrom(s, pos) < |s| && LiteralAt(s, SkipWsFrom(s, pos)).Some?
    ensures var l := LiteralAt(s, SkipWsFrom(s, pos)).value;
      ValueAt(s, pos, cfg) == Ok((Prim(l.0), l.1))
  {
    var p := SkipWsFrom(s, pos);
    assert s[p] == s[p..][0];
    assert s[p] in "tfn";
  }

  /** The `.` marker becomes the configured default node and takes exactly one character. */
  lemma DotIsDefault(s: string, pos: nat, cfg: Config)
    requires pos <= |s|
    requires SkipWsFrom(s, pos) < |s| && s[SkipWsFrom(s, pos)] == '.'
    ensures ValueAt(s, pos, cfg) == Ok((cfg.dot, SkipWsFrom(s, pos) + 1))
  {
    var p := SkipWsFrom(s, pos);
    assert !StartsWith(s[p..], "true") && !StartsWith(s[p..], "false") && !StartsWith(s[p..], "null") by {
      assert s[p..][0] == '.';
    }
  }

  /** A value is never a key/value pair unless the default marker is one. */
  lemma ValueIsNotKeyValue(s: string, pos: nat, cfg: Config)
    requires pos <= |s| && !cfg.dot.KeyValue?
    ensures ValueAt(s, pos, cfg).Ok? ==> !ValueAt(s, pos, cfg).value.0.KeyValue?
  {
  }

  /**
   * An item of a brace list is a key/value pair exactly when it starts with
   * an identifier that is followed, after whitespace, by ':'; the key is
   * that identifier. Any other item is read again from its start as a value.
   */
  lemma KeyValueIffColon(s: string, pos: nat, cfg: Config)
    requires pos <= |s| && !cfg.dot.KeyValue?
    ensures var isKey := pos < |s| && IsIdentStart(s[pos])
        && var q := SkipWsFrom(s, WordEnd(s, pos + 1)); q < |s| && s[q] == ':';
      (ListItemAt(s, pos, cfg).Ok? ==> (ListItemAt(s, pos, cfg).value.0.KeyValue? <==> isKey))
      && (isKey && ListItemAt(s, pos, cfg).Ok? ==> ListItemAt(s, pos, cfg).value.0.key == s[pos..WordEnd(s, pos + 1)])
      && (!isKey ==> ListItemAt(s, pos, cfg) == ValueAt(s, pos, cfg))
  {
    ValueIsNotKeyValue(s, pos, cfg);
  }

  /**
   * `parse_type_annotation` gives nothing, consuming only whitespace, exactly
   * when the next character is not ':'. After ':' the annotation is an
   * inline schema exactly when '{' comes next.
   */
  lemma AnnotationShape(s: string, pos: nat, schemaOf: string -> Result<Schema>)
    requires pos <= |s|
    ensures var p := SkipWsFrom(s, pos);
      (p == |s| || s[p] != ':') <==> AnnotationAt(s, pos, schemaOf) == Ok((None, p))
    ensures var p := SkipWsFrom(s, pos);
      AnnotationAt(s, pos, schemaOf).Ok? && AnnotationAt(s, pos, schemaOf).value.0.Some? ==>
        p < |s| && s[p] == ':'
        && (AnnotationAt(s, pos, schemaOf).value.0.value.Inline? <==>
              var q := SkipWsFrom(s, p + 1); q < |s| && s[q] == '{')
  {
  }

  /** A string body scan that stops before the end stops right after the closing quote. */
  lemma {:induction false} StringEndCloses(s: string, pos: nat, quote: char)
    requires pos <= |s|
    ensures StringEnd(s, pos, quote) < |s| ==> pos < StringEnd(s, pos, quote) && s[StringEnd(s, pos, quote) - 1] == quote
    decreases |s| - pos
  {
    if pos < |s| {
      if s[pos] == '\\' {
        if pos + 1 < |s| {
          StringEndCloses(s, pos + 2, quote);
        }
      } else if s[pos] != quote {
        StringEndCloses(s, pos + 1, quote);
      }
    }
  }

  /** The brace scan stops right after a '}', and its only failure is running off the end. */
  lemma {:induction false} BracedEndCloses(s: string, pos: nat, depth: int)
    requires pos <= |s|
    ensures BracedEnd(s, pos, depth).Ok? ==> s[BracedEnd(s, pos, depth).value - 1] == '}'
    ensures BracedEnd(s, pos, depth).Err? ==> BracedEnd(s, pos, depth).error == UnclosedBrace
    decreases |s| - pos
  {
    if pos < |s| {
      if s[pos] == '{' {
        BracedEndCloses(s, pos + 1, depth + 1);
      } else if s[pos] == '}' {
        if depth - 1 != 0 {
          BracedEndCloses(s, pos + 1, depth - 1);
        }
      } else if s[pos] == '"' {
        BracedEndCloses(s, StringEnd(s, pos + 1, '"'), depth);
      } else {
        BracedEndCloses(s, pos + 1, depth);
      }
    }
  }

  /**
   * `read_braced` returns the text from a '{' up to a '}', braces included,
   * and fails only when no '{' comes next or the text ends unbalanced.
   */
  lemma BracedShape(s: string, pos: nat)
    requires pos <= |s|
    ensures BracedAt(s, pos).Ok? ==>
      var (t, e) := BracedAt(s, pos).value;
      Wrapped(t, '{', '}') && t == s[SkipWsFrom(s, pos)..e]
    ensures BracedAt(s, pos).Err? ==> BracedAt(s, pos).error in {SchemaExpected, UnclosedBrace}
  {
    var p := SkipWsFrom(s, pos);
    if p < |s| && s[p] == '{' {
      BracedEndCloses(s, p, 0);
    }
  }

  /**
   * `parse_number` takes an optional '-' and then only digits and '.'; with
   * Python's conversion, the result is an int exactly when no '.' was taken.
   */
  lemma NumberShape(s: string, pos: nat)
    requires pos <= |s|
    ensures forall k :: pos <= k < NumberEnd(s, pos) ==> IsDigit(s[k]) || s[k] == '.' || (k == pos && s[k] == '-')
    ensures NumberAt(s, pos, PyNumber).Ok? ==>
      var (v, e) := NumberAt(s, pos, PyNumber).value;
      (v.PInt? <==> '.' !in s[pos..e]) && (v.PInt? || v.PFloat?)
  {
    var p := if pos < |s| && s[pos] == '-' then pos + 1 else pos;
    DigitsSpan(s, p);
    var q := DigitsEnd(s, p);
    if q < |s| && s[q] == '.' {
      DigitsSpan(s, q + 1);
    }
  }

  /* ---------------- the parser, with a mutable cursor ---------------- */

  /** The keywords `try_parse_identifier_literal` tries, in order, with their values. */
  const Keywords: seq<(string, PyValue)> := [("true", PBool(true)), ("false", PBool(false)), ("null", PNone)]

  class Parser {
    const s: string
    const cfg: Config
    var i: nat

    constructor (text: string, cfg: Config)
      ensures s == text && this.cfg == cfg && i == 0
    {
      s := text;
      this.cfg := cfg;
      i := 0;
    }

    predicate Eof()
      reads this
    {
      i >= |s|
    }

    /** The character under the cursor, or "" at the end. */
    function Peek(): string
      reads this
    {
      if Eof() then "" else [s[i]]
    }

    /** Takes the character under the cursor; the parser calls it only after looking at that character. */
    method Get() returns (ch: char)
      requires i < |s|
      modifies this
      ensures ch == s[old(i)] && i == old(i) + 1
    {
      ch := s[i];
      i := i + 1;
    }

    method SkipWs()
      requires i <= |s|
      modifies this
      ensures i == SkipWsFrom(s, old(i))
    {
      while !Eof() && IsPySpace(s[i])
        invariant old(i) <= i <= |s|
        invariant SkipWsFrom(s, i) == SkipWsFrom(s, old(i))
        decreases |s| - i
      {
        i := i + 1;
      }
    }

    method ReadIdentifier() returns (r: Result<string>)
      requires i <= |s|
      modifies this
      ensures Located(r, i) == IdentifierAt(s, old(i))
    {
      SkipWs();
      var start := i;
      if Eof() {
        return Err(TypeNameExpected);
      }
      var ch := s[i];
      if !IsIdentStart(ch) {
        return Err(BadTypeNameStart(ch));
      }
      var _ := Get();
      while !Eof() && IsWordChar(s[i])
        invariant start < i <= |s|
        invariant WordEnd(s, i) == WordEnd(s, start + 1)
        decreases |s| - i
      {
        var _ := Get();
      }
      r := Ok(s[start..i]);
    }

    method TryParseIdentifierLiteral() returns (v: Option<PyValue>)
      requires i <= |s|
      modifies this
      ensures var l := LiteralAt(s, old(i));
        v == (if l.Some? then Some(l.value.0) else None) && i == (if l.Some? then l.value.1 else old(i))
    {
      var k := 0;
      assert Keywords[0].0 == "true" && Keywords[1].0 == "false" && Keywords[2].0 == "null";
      while k < |Keywords|
        invariant 0 <= k <= |Keywords| && i == old(i)
        invariant forall j :: 0 <= j < k ==> !StartsWith(s[i..], Keywords[j].0)
      {
        var (lit, val) := Keywords[k];
        assert Keywords[0] == ("true", PBool(true)) && Keywords[1] == ("false", PBool(false)) && Keywords[2] == ("null", PNone);
        if StartsWith(s[i..], lit) {
          i := i + |lit|;
          return Some(val);
        }
        k := k + 1;
      }
      assert Keywords[0].0 == "true" && Keywords[1].0 == "false" && Keywords[2].0 == "null";
      return None;
    }

    method ParseNumber() returns (r: Result<PyValue>)
      requires i <= |s|
      modifies this
      ensures Located(r, i) == NumberAt(s, old(i), cfg.number)
    {
      var start := i;
      if !Eof() && s[i] == '-' {
        var _ := Get();
      }
      ghost var digits := i;
      while !Eof() && IsDigit(s[i])
        invariant digits <= i <= |s|
        invariant DigitsEnd(s, i) == DigitsEnd(s, digits)
        decreases |s| - i
      {
        var _ := Get();
      }
      assert i == DigitsEnd(s, digits);
      if !Eof() && s[i] == '.' {
        var _ := Get();
        ghost var fraction := i;
        while !Eof() && IsDigit(s[i])
          invariant fraction <= i <= |s|
          invariant DigitsEnd(s, i) == DigitsEnd(s, fraction)
          decreases |s| - i
        {
          var _ := Get();
        }
      }
      assert i == NumberEnd(s, start);
      var numStr := s[start..i];
      r := cfg.number(numStr);
    }

    /** Skips a string body up to and including the closing `quote`. */
    method SkipStringInside(quote: char)
      requires i <= |s|
      modifies this
      ensures i == StringEnd(s, old(i), quote)
    {
      while !Eof()
        invariant old(i) <= i <= |s|
        invariant StringEnd(s, i, quote) == StringEnd(s, old(i), quote)
        decreases |s| - i
      {
        var c := Get();
        if c == '\\' {
          if !Eof() {
            var _ := Get();
          }
          continue;
        }
        if c == quote {
          break;
        }
      }
    }

    method ParseString() returns (r: Result<string>)
      requires i < |s| && s[i] == '"'
      modifies this
      ensures Located(r, i) == StringAt(s, old(i), cfg.decode)
    {
      var start := i;
      var _ := Get();
      var buf := "\"";
      while !Eof()
        invariant start < i <= |s|
        invariant buf == s[start..i]
        invariant StringEnd(s, i, '"') == StringEnd(s, start + 1, '"')
        decreases |s| - i
      {
        var c := Get();
        buf := buf + [c];
        if c == '\\' {
          if !Eof() {
            var d := Get();
            buf := buf + [d];
          }
          continue;
        }
        if c == '"' {
          assert StringEnd(s, i - 1, '"') == i;
          break;
        }
      }
      assert i == StringEnd(s, start + 1, '"');
      assert buf == s[start..StringEnd(s, start + 1, '"')];
      r := if cfg.decode(buf).Some? then Ok(cfg.decode(buf).value) else Err(BadString(buf));
      assert StringAt(s, start, cfg.decode) == Located(r, i);
    }

    method ReadBraced() returns (r: Result<string>)
      requires i <= |s|
      modifies this
      ensures Located(r, i) == BracedAt(s, old(i))
    {
      SkipWs();
      if Eof() || s[i] != '{' {
        return Err(SchemaExpected);
      }
      var start := i;
      var depth := 0;
      while !Eof()
        invariant start <= i <= |s|
        invariant BracedEnd(s, start, 0) == BracedEnd(s, i, depth)
        decreases |s| - i
      {
        var c := Get();
        if c == '{' {
          depth := depth + 1;
        } else if c == '}' {
          depth := depth - 1;
          if depth == 0 {
            return Ok(s[start..i]);
          }
        } else if c == '"' {
          SkipStringInside('"');
        }
      }
      return Err(UnclosedBrace);
    }

    method ParseTypeAnnotation() returns (r: Result<Option<TypeAnn>>)
      requires i <= |s|
      modifies this
      ensures Located(r, i) == AnnotationAt(s, old(i), cfg.schemaOf)
    {
      SkipWs();
      if Eof() || s[i] != ':' {
        return Ok(None);
      }
      var _ := Get();
      SkipWs();
      if !Eof() && s[i] == '{' {
        var text := ReadBraced();
        if text.Err? {
          return Err(text.error);
        }
        var schema := cfg.schemaOf(text.value);
        if schema.Err? {
          return Err(schema.error);
        }
        return Ok(Some(Inline(schema.value)));
      }
      var name := ReadIdentifier();
      if name.Err? {
        return Err(name.error);
      }
      return Ok(Some(Named(name.value)));
    }

    method ParseValue() returns (r: Result<Node>)
      requires i <= |s|
      modifies this
      ensures Located(r, i) == ValueAt(s, old(i), cfg)
      decreases |s| - i, 2
    {
      SkipWs();
      if Eof() {
        return Err(UnexpectedEnd);
      }
      var ch := s[i];
      if ch == '{' {
        r := ParseListNode();
        return;
      }
      if ch == '[' {
        r := ParseArrayNode();
        return;
      }
      if ch == '"' {
        var t := ParseString();
        return if t.Ok? then Ok(Prim(PStr(t.value))) else Err(t.error);
      }
      if ch == '-' || IsDigit(ch) {
        var n := ParseNumber();
        return if n.Ok? then Ok(Prim(n.value)) else Err(n.error);
      }
      var ident := TryParseIdentifierLiteral();
      if ident.Some? {
        return Ok(Prim(ident.value));
      }
      if ch == '.' {
        var _ := Get();
        return Ok(cfg.dot);
      }
      if IsIdentStart(ch) {
        var name := ReadIdentifier();
        return Ok(Prim(PStr(name.value)));
      }
      return Err(UnexpectedChar(ch, i));
    }

    /**
     * The body of the `parse_list_node` loop that reads one item: a key and
     * ':' make a key/value pair; otherwise the cursor goes back to where the
     * item started and a value is read.
     */
    method ParseListItem() returns (item: Result<Node>)
      requires i <= |s|
      modifies this
      ensures Located(item, i) == ListItemAt(s, old(i), cfg)
      decreases |s| - i, 3
    {
      if !Eof() && IsIdentStart(s[i]) {
        var startPos := i;
        IdentifierAtWord(s, startPos);
        var key := ReadIdentifier();
        ghost var e := i;
        SkipWs();
        if !Eof() && s[i] == ':' {
          ghost var q := i;
          var _ := Get();
          SkipWs();
          ListItemKeyed(s, startPos, cfg, e, q, i);
          var value := ParseValue();
          item := if value.Ok? then Ok(KeyValue(key.value, value.value)) else Err(value.error);
        } else {
          ListItemPlain(s, startPos, cfg);
          i := startPos;
          item := ParseValue();
        }
      } else {
        ListItemPlain(s, i, cfg);
        item := ParseValue();
      }
    }

    method ParseListNode() returns (r: Result<Node>)
      requires i < |s| && s[i] == '{'
      modifies this
      ensures Located(r, i) == ListAt(s, old(i), cfg)
      decreases |s| - i, 1
    {
      var _ := Get();
      SkipWs();
      if !Eof() && s[i] == '}' {
        var _ := Get();
        var ann := ParseTypeAnnotation();
        return if ann.Ok? then Ok(List([], ann.value)) else Err(ann.error);
      }
      var items := ParseListItems();
      if items.Err? {
        return Err(items.error);
      }
      var ann := ParseTypeAnnotation();
      return if ann.Ok? then Ok(List(items.value, ann.value)) else Err(ann.error);
    }

    /**
     * The separator after an item of a brace list or a bracket array:
     * whitespace, then ',' and the whitespace after it (more items follow),
     * the closing character `close` (the last item), or anything else, where
     * the cursor stays so that the error can name what it found.
     */
    method Separator(close: char) returns (ok: bool, more: bool, ghost q: nat)
      requires i <= |s|
      modifies this
      ensures q == SkipWsFrom(s, old(i))
      ensures ok && more ==> q < |s| && s[q] == ',' && i == SkipWsFrom(s, q + 1)
      ensures ok && !more ==> q < |s| && s[q] == close && i == q + 1
      ensures !ok ==> !(q < |s| && (s[q] == ',' || s[q] == close)) && i == q
    {
      SkipWs();
      q := i;
      if !Eof() && s[i] == ',' {
        var _ := Get();
        SkipWs();
        return true, true, q;
      }
      if !Eof() && s[i] == close {
        var _ := Get();
        return true, false, q;
      }
      return false, false, q;
    }

    /** The loop of `parse_list_node`: items separated by ',' up to and including '}'. */
    method ParseListItems() returns (r: Result<seq<Node>>)
      requires i <= |s|
      modifies this
      ensures Located(r, i) == ListItems(s, old(i), cfg)
      decreases |s| - i, 5
    {
      var items: seq<Node> := [];
      ghost var first := i;
      while true
        invariant first <= i <= |s|
        invariant ListItems(s, first, cfg) == PrefixedAt(items, ListItems(s, i, cfg))
        decreases |s| - i
      {
        ghost var at := i;
        var item, more := ListRound();
        if item.Err? {
          return Err(item.error);
        }
        if more {
          PrefixedAtNest(items, item.value, ListItems(s, i, cfg));
        } else {
          assert ListItems(s, first, cfg) == PrefixedAt(items, Ok(([item.value], i)));
        }
        items := items + [item.value];
        if !more {
          break;
        }
      }
      return Ok(items);
    }

    /**
     * One round of the `parse_list_node` loop: an item, then ',' (more to
     * come), '}' (the last item) or an error.
     */
    method ListRound() returns (item: Result<Node>, more: bool)
      requires i <= |s|
      modifies this
      ensures item.Err? ==> ListItems(s, old(i), cfg) == Err(item.error)
      ensures item.Ok? && more ==> old(i) < i <= |s| && ListItems(s, old(i), cfg) == PrefixedAt([item.value], ListItems(s, i, cfg))
      ensures item.Ok? && !more ==> ListItems(s, old(i), cfg) == Ok(([item.value], i))
      decreases |s| - i, 4
    {
      ghost var at := i;
      item := ParseListItem();
      if item.Err? {
        ListItemsFails(s, at, cfg);
        return item, false;
      }
      ghost var v := (item.value, i);
      var ok, next, q := Separator('}');
      if !ok {
        ListItemsUnexpected(s, at, cfg, v, q);
        return Err(ListUnexpectedChar(Peek(), i)), false;
      }
      if next {
        ListItemsComma(s, at, cfg, v, q);
      } else {
        ListItemsEnd(s, at, cfg, v, q);
      }
      return item, next;
    }

    method ParseArrayNode() returns (r: Result<Node>)
      requires i < |s| && s[i] == '['
      modifies this
      ensures Located(r, i) == ArrayAt(s, old(i), cfg)
      decreases |s| - i, 1
    {
      var _ := Get();
      SkipWs();
      if !Eof() && s[i] == ']' {
        var _ := Get();
        var ann := ParseTypeAnnotation();
        return if ann.Ok? then Ok(Array([], ann.value)) else Err(ann.error);
      }
      var items := ParseArrayItems();
      if items.Err? {
        return Err(items.error);
      }
      var ann := ParseTypeAnnotation();
      return if ann.Ok? then Ok(Array(items.value, ann.value)) else Err(ann.error);
    }

    /** The loop of `parse_array_node`: items separated by ',' up to and including ']'. */
    method ParseArrayItems() returns (r: Result<seq<Node>>)
      requires i <= |s|
      modifies this
      ensures Located(r, i) == ArrayItems(s, old(i), cfg)
      decreases |s| - i, 4
    {
      var items: seq<Node> := [];
      ghost var first := i;
      while true
        invariant first <= i <= |s|
        invariant ArrayItems(s, first, cfg) == PrefixedAt(items, ArrayItems(s, i, cfg))
        decreases |s| - i
      {
        ghost var at := i;
        var item, more := ArrayRound();
        if item.Err? {
          return Err(item.error);
        }
        if more {
          PrefixedAtNest(items, item.value, ArrayItems(s, i, cfg));
        } else {
          assert ArrayItems(s, first, cfg) == PrefixedAt(items, Ok(([item.value], i)));
        }
        items := items + [item.value];
        if !more {
          break;
        }
      }
      return Ok(items);
    }

    /**
     * One round of the `parse_array_node` loop: an item, then ',' (more to
     * come), ']' (the last item) or an error.
     */
    method ArrayRound() returns (item: Result<Node>, more: bool)
      requires i <= |s|
      modifies this
      ensures item.Err? ==> ArrayItems(s, old(i), cfg) == Err(item.error)
      ensures item.Ok? && more ==> old(i) < i <= |s| && ArrayItems(s, old(i), cfg) == PrefixedAt([item.value], ArrayItems(s, i, cfg))
      ensures item.Ok? && !more ==> ArrayItems(s, old(i), cfg) == Ok(([item.value], i))
      decreases |s| - i, 3
    {
      ghost var at := i;
      item := ParseValue();
      if item.Err? {
        ArrayItemsFails(s, at, cfg);
        return item, false;
      }
      ghost var v := (item.value, i);
      var ok, next, q := Separator(']');
      if !ok {
        ArrayItemsUnexpected(s, at, cfg, v, q);
        return Err(ArrayUnexpectedChar(Peek(), i)), false;
      }
      if next {
        ArrayItemsComma(s, at, cfg, v, q);
      } else {
        ArrayItemsEnd(s, at, cfg, v, q);
      }
      return item, next;
    }

  }
}
