/**
 * Properties of the Rust port's model: what the scans find, how a
 * primitive is read, how field lists and declarations are read, how a type
 * annotation is recognised, and how a schema names the items of an object.
 */
module RsProperties {
  import opened Text
  import opened Base
  import opened RsTypes
  import opened RsUtils
  import opened RsParser

  /** Non-empty, and neither starts nor ends with whitespace: a text that `trim()` keeps as it is. */
  predicate Unpadded(s: string) {
    s != [] && !IsRsSpace(s[0]) && !IsRsSpace(s[|s| - 1])
  }

  lemma UnpaddedTrim(s: string)
    requires Unpadded(s)
    ensures Trim(s) == s
  {
    StripNoEdges(s, Rs);
  }

  /** A non-empty word is unpadded. */
  lemma WordUnpadded(s: string)
    requires s != [] && AllWord(s)
    ensures Unpadded(s) && Trim(s) == s
  {
    assert IsWordChar(s[0]) && IsWordChar(s[|s| - 1]);
    UnpaddedTrim(s);
  }

  // ---------------------------------------------------------------------
  // Scanning
  // ---------------------------------------------------------------------

  /** The scan state at `i` depends only on the characters before `i`. */
  lemma {:induction false} StateAtPrefix(s: string, t: string, i: nat, quotes: bool)
    requires i <= |s| && i <= |t| && s[..i] == t[..i]
    ensures StateAt(s, i, quotes) == StateAt(t, i, quotes)
  {
    if i > 0 {
      assert s[..i - 1] == s[..i][..i - 1] == t[..i][..i - 1] == t[..i - 1];
      assert s[i - 1] == s[..i][i - 1] == t[..i][i - 1] == t[i - 1];
      StateAtPrefix(s, t, i - 1, quotes);
    }
  }

  /** Word characters move no part of the scan state. */
  lemma {:induction false} WordScanIsClean(s: string, i: nat, quotes: bool)
    requires i <= |s| && AllWord(s[..i])
    ensures StateAt(s, i, quotes) == Start
  {
    if i > 0 {
      assert s[..i - 1] == s[..i][..i - 1];
      assert IsWordChar(s[..i][i - 1]);
      WordScanIsClean(s, i - 1, quotes);
    }
  }

  /**
   * Inside a string, a backslash makes the next character change nothing
   * but the escape: an escaped quote does not close the string, and the
   * escaped character is neither a key colon nor a main colon.
   */
  lemma EscapedCharChangesNothing(s: string, i: nat)
    requires i + 2 <= |s| && s[i] == '\\'
    requires StateAt(s, i, true).inString && !StateAt(s, i, true).escaped
    ensures StateAt(s, i + 2, true) == StateAt(s, i, true)
    ensures !SimpleColonAt(s, i + 1) && !MainColonAt(s, i + 1)
  {
    assert StateAt(s, i + 1, true) == StateAt(s, i, true).(escaped := true);
  }

  /** Past position `m` there is no colon: the last main colon before `n` is the last one before `m`. */
  lemma {:induction false} NoMainColonFrom(s: string, m: nat, n: nat)
    requires m <= n <= |s|
    requires forall j :: m <= j < n ==> s[j] != ':'
    ensures LastMainColonBefore(s, n) == LastMainColonBefore(s, m)
    decreases n
  {
    if n > m {
      NoMainColonFrom(s, m, n - 1);
    }
  }

  /**
   * The annotation colon: after a value whose scan ends outside strings
   * and nesting, a ':' followed by a text with no colon is the main colon.
   */
  lemma AnnotationColon(v: string, t: string)
    requires Clean(StateAt(v, |v|, true)) && ':' !in t
    ensures LastMainColon(v + ":" + t) == Some(|v|)
  {
    var s := v + ":" + t;
    assert s[..|v|] == v[..|v|];
    StateAtPrefix(s, v, |v|, true);
    assert MainColonAt(s, |v|);
    forall j | |v| + 1 <= j < |s|
      ensures s[j] != ':'
    {
      assert s[j] == t[j - |v| - 1];
    }
    NoMainColonFrom(s, |v| + 1, |s|);
  }

  /** The key colon of a `key: value` item whose key is a word is the one after the key. */
  lemma KeyColon(k: string, v: string)
    requires AllWord(k)
    ensures FirstSimpleColon(k + ":" + v) == Some(|k|)
  {
    var s := k + ":" + v;
    assert s[..|k|] == k;
    WordScanIsClean(s, |k|, true);
    if k != [] {
      WordUnpadded(k);
    }
    assert SimpleColonAt(s, |k|);
    KeyColonFrom(s, |k|, 0);
  }

  lemma {:induction false} KeyColonFrom(s: string, n: nat, i: nat)
    requires i <= n < |s| && SimpleColonAt(s, n)
    requires forall j :: i <= j < n ==> s[j] != ':'
    ensures FirstSimpleColonFrom(s, i) == Some(n)
    decreases n - i
  {
    if i < n {
      KeyColonFrom(s, n, i + 1);
    }
  }

  // ---------------------------------------------------------------------
  // Reading a primitive
  // ---------------------------------------------------------------------

  /** A text starting with a double quote is neither an `i64` nor a float. */
  lemma QuoteStartIsNotNumber(s: string)
    requires s != [] && s[0] == '"'
    ensures ParseI64(s).None? && !IsFloatText(s)
  {
    var t := LowerStr(s);
    assert t[0] == '"';
    var e := IndexOf(t, 'e');
    var m := t[..e];
    assert m[0] == '"';
    var d := IndexOf(m, '.');
    assert m[..d][0] == '"';
  }

  lemma IntegerTextHasNoColon(x: string, q: nat)
    requires q < |x| && x[q] == ':'
    ensures !IsIntegerText(x)
  {
    if |x| > 0 && IsSign(x[0]) {
      assert x[1..][q - 1] == ':';
    }
  }

  lemma MantissaHasNoColon(m: string, q: nat)
    requires q < |m| && m[q] == ':'
    ensures !IsMantissa(m)
  {
    var d := IndexOf(m, '.');
    if q < d {
      assert m[..d][q] == ':';
    } else {
      assert m[d + 1..][q - d - 1] == ':';
    }
  }

  lemma DecimalNumberHasNoColon(t: string, q: nat)
    requires q < |t| && t[q] == ':'
    ensures !IsDecimalNumber(t)
  {
    var e := IndexOf(t, 'e');
    if q < e {
      assert t[..e][q] == ':';
      MantissaHasNoColon(t[..e], q);
    } else {
      assert t[e + 1..][q - e - 1] == ':';
      IntegerTextHasNoColon(t[e + 1..], q - e - 1);
    }
  }

  /** A float text holds no colon: every float is made of signs, digits, '.', 'e' and the letters of `inf` and `nan`. */
  lemma FloatTextHasNoColon(s: string, p: nat)
    requires p < |s| && s[p] == ':'
    ensures !IsFloatText(s)
  {
    var signed := |s| > 0 && IsSign(s[0]);
    var body := if signed then s[1..] else s;
    var q := if signed then p - 1 else p;
    assert body[q] == ':';
    var t := LowerStr(body);
    assert t[q] == ':';
    assert ':' in t;
    assert t != "inf" && t != "infinity" && t != "nan";
    DecimalNumberHasNoColon(t, q);
  }

  /** `parse_primitive_value` panics exactly on a lone double quote. */
  lemma LoneQuotePanics(input: string)
    ensures PrimitiveOf(input).Err? <==> Trim(input) == "\""
  {
    var s := Trim(input);
    if s == "\"" {
      QuoteStartIsNotNumber(s);
    }
  }

  /** A trimmed text between double quotes reads as what lies between them. */
  lemma QuotedReadsInner(s: string)
    requires Trim(s) == s && |s| >= 2 && s[0] == '"' && s[|s| - 1] == '"'
    ensures PrimitiveOf(s) == Ok(Str(s[1..|s| - 1]))
  {
    QuoteStartIsNotNumber(s);
    assert s != "true" && s != "false" && s != "null";
    assert Wrapped(s, '"', '"');
  }

  /** A double-quoted text reads as the string between the quotes, whatever it holds. */
  lemma QuotedRoundTrip(t: string)
    ensures PrimitiveOf("\"" + t + "\"") == Ok(Str(t))
  {
    var s := "\"" + t + "\"";
    UnpaddedTrim(s);
    assert s[1..|s| - 1] == t;
    QuotedReadsInner(s);
  }

  /** The decimal text of an integer is an integer text of that value, with no whitespace at its ends. */
  lemma IntTextIsInteger(i: int)
    ensures var s := IntText(i);
            IsIntegerText(s) && IntegerTextValue(s) == i && Unpadded(s) && (s[0] == '-' || IsDigit(s[0]))
  {
    var s := IntText(i);
    if i < 0 {
      var digits := NatToString(-i);
      assert s[1..] == digits;
      assert IsDigit(digits[|digits| - 1]);
      NatToStringValue(-i);
    } else {
      NatToStringValue(i);
    }
    assert IsDigit(s[|s| - 1]);
  }

  /** A trimmed text that `parse::<i64>` accepts, signed with '+', '-' or unsigned, reads as that integer. */
  lemma IntegerReadsAsInteger(s: string)
    requires Trim(s) == s && ParseI64(s).Some?
    ensures PrimitiveOf(s) == Ok(Integer(ParseI64(s).value))
  {
    assert ParseI64("true").None? && ParseI64("false").None? && ParseI64("null").None?;
  }

  /** The decimal text of every `i64` reads back as that integer. */
  lemma IntRoundTrip(n: I64)
    ensures PrimitiveOf(IntText(n as int)) == Ok(Integer(n))
  {
    var s := IntText(n as int);
    IntTextIsInteger(n as int);
    UnpaddedTrim(s);
    assert ParseI64(s).Some? && ParseI64(s).value == n;
    IntegerReadsAsInteger(s);
  }

  /** Digits whose value does not fit in an `i64` fall through to the float reading. */
  lemma OverflowReadsAsFloat(s: string)
    requires IsDigits(s) && DigitsValue(s) > 0x7FFF_FFFF_FFFF_FFFF
    ensures PrimitiveOf(s) == Ok(Float(s))
  {
    UnpaddedTrim(s);
    assert !IsSign(s[0]);
    assert LowerStr(s) == s;
    assert IndexOf(s, 'e') == |s| && IndexOf(s, '.') == |s|;
    assert s[..|s|] == s;
    assert IsFloatText(s);
  }

  /** The keywords are case-sensitive: `True` is an ordinary string. */
  lemma KeywordsCaseSensitive()
    ensures PrimitiveOf("True") == Ok(Str("True"))
  {
    UnpaddedTrim("True");
    assert !IsIntegerText("True") by {
      assert "True"[0] == 'T' && !IsSign('T') && !IsDigit('T');
    }
    CapitalTrueIsNotFloat();
  }

  lemma CapitalTrueIsNotFloat()
    ensures !IsFloatText("True")
  {
    var s := "True";
    assert !IsSign(s[0]);
    var t := LowerStr(s);
    assert t == "true";
    var e := IndexOf(t, 'e');
    assert e == 3;
    var m := t[..e];
    assert m[0] == 't';
    var d := IndexOf(m, '.');
    assert m[..d][0] == 't';
    assert !IsMantissa(m);
  }

  /** The keywords are read after trimming. */
  lemma KeywordsTrimmed()
    ensures PrimitiveOf(" true ") == Ok(Boolean(true))
  {
    var padded := " true ";
    assert LeadingWs(padded, Rs) == 1;
    var l := padded[1..];
    assert l == "true ";
    assert TrailingWs(l, Rs) == 1;
    assert Trim(padded) == "true";
  }

  // ---------------------------------------------------------------------
  // Fields and declarations
  // ---------------------------------------------------------------------

  /** No word holds a colon or a bracket. */
  lemma WordHasNoMarks(s: string)
    requires AllWord(s)
    ensures ':' !in s && '[' !in s && ' ' !in s
  {
    forall k | 0 <= k < |s| ensures s[k] != ':' && s[k] != '[' && s[k] != ' ' {
      assert IsWordChar(s[k]);
    }
  }

  /**
   * `parse_field`: it panics exactly when the text has `[]` and a colon
   * among its last two characters; otherwise it is an array field exactly
   * when it has `[]` and a colon, a primitive field exactly when it has no
   * colon, and has a type name exactly when it is not primitive.
   */
  lemma ParseFieldShape(fieldStr: string)
    ensures var s, r := Trim(fieldStr), ParseField(fieldStr);
            (r.Err? <==> HasEmptyBrackets(s) && ':' in s && IndexOf(s, ':') + 1 > |s| - 2) &&
            (r.Ok? ==> (r.value.kind.ArrayKind? <==> HasEmptyBrackets(s) && ':' in s)) &&
            (r.Ok? ==> (r.value.kind.PrimitiveKind? <==> ':' !in s)) &&
            (r.Ok? ==> (r.value.typeName.None? <==> r.value.kind.PrimitiveKind?)) &&
            (r.Ok? && r.value.kind.PrimitiveKind? ==> r.value.name == s)
  {
  }

  /** A bare word is a primitive field of that name. */
  lemma PrimitiveFieldRoundTrip(name: string)
    requires name != [] && AllWord(name)
    ensures ParseField(name) == Ok(FieldDef(name, None, PrimitiveKind))
  {
    WordUnpadded(name);
    WordHasNoMarks(name);
  }

  /** The position of the one colon of `name + ":" + rest`, when `name` has none. */
  lemma ColonAfter(name: string, rest: string)
    requires ':' !in name
    ensures IndexOf(name + ":" + rest, ':') == |name|
  {
    var s := name + ":" + rest;
    var c := IndexOf(s, ':');
    assert s[|name|] == ':';
  }

  /** `name:type` is trimmed, its first colon follows the name, it has no `[]`, and its two sides trim to the words. */
  lemma ObjectFieldText(name: string, t: string)
    requires name != [] && AllWord(name) && t != [] && AllWord(t)
    ensures var s := name + ":" + t;
            Trim(s) == s && IndexOf(s, ':') == |name| < |s| && !HasEmptyBrackets(s) &&
            Trim(s[..|name|]) == name && Trim(s[|name| + 1..]) == t
  {
    var s := name + ":" + t;
    WordUnpadded(name);
    WordUnpadded(t);
    assert s[0] == name[0] && s[|s| - 1] == t[|t| - 1];
    UnpaddedTrim(s);
    WordHasNoMarks(name);
    WordHasNoMarks(t);
    ColonAfter(name, t);
    assert s[..|name|] == name && s[|name| + 1..] == t;
    assert !HasEmptyBrackets(s) by {
      forall k | 0 <= k < |s| - 1 ensures s[k] != '[' {
        if k < |name| {
          assert s[k] == name[k];
        } else if k > |name| {
          assert s[k] == t[k - |name| - 1];
        }
      }
    }
  }

  /** `name:type` is an object field of that name and type. */
  lemma ObjectFieldRoundTrip(name: string, t: string)
    requires name != [] && AllWord(name) && t != [] && AllWord(t)
    ensures ParseField(name + ":" + t) == Ok(FieldDef(name, Some(t), ObjectKind))
  {
    ObjectFieldText(name, t);
  }

  /** `name:type[]` is trimmed, its first colon follows the name, it ends in `[]`, and the name and type trim to the words. */
  lemma ArrayFieldText(name: string, t: string)
    requires name != [] && AllWord(name) && t != [] && AllWord(t)
    ensures var s := name + ":" + t + "[]";
            Trim(s) == s && IndexOf(s, ':') == |name| && |name| + 1 <= |s| - 2 && HasEmptyBrackets(s) &&
            Trim(s[..|name|]) == name && Trim(s[|name| + 1..|s| - 2]) == t
  {
    var s := name + ":" + t + "[]";
    WordUnpadded(name);
    WordUnpadded(t);
    assert s[0] == name[0] && s[|s| - 1] == ']';
    UnpaddedTrim(s);
    WordHasNoMarks(name);
    assert s == name + ":" + (t + "[]");
    ColonAfter(name, t + "[]");
    assert s[|s| - 2] == '[' && s[|s| - 1] == ']';
    assert HasEmptyBrackets(s);
    assert s[..|name|] == name && s[|name| + 1..|s| - 2] == t;
  }

  /** `name:type[]` is an array field of that name and element type. */
  lemma ArrayFieldRoundTrip(name: string, t: string)
    requires name != [] && AllWord(name) && t != [] && AllWord(t)
    ensures ParseField(name + ":" + t + "[]") == Ok(FieldDef(name, Some(t), ArrayKind))
  {
    ArrayFieldText(name, t);
  }

  /** The field list is one field per non-blank piece, in order. */
  lemma {:induction false} FieldsFromMatch(texts: seq<string>)
    ensures var r := FieldsFrom(texts);
            r.Ok? ==> |r.value| == |texts| && forall k :: 0 <= k < |texts| ==> ParseField(texts[k]) == Ok(r.value[k])
  {
    if texts != [] {
      var tail := texts[1..];
      assert texts == [texts[0]] + tail;
      FieldsFromCons(texts[0], tail);
      FieldsFromMatch(tail);
      var r := FieldsFrom(texts);
      if r.Ok? {
        assert r.value == [ParseField(texts[0]).value] + FieldsFrom(tail).value;
        forall k | 1 <= k < |texts| ensures ParseField(texts[k]) == Ok(r.value[k]) {
          assert texts[k] == tail[k - 1];
        }
      }
    }
  }

  /** The field list fails exactly when one of its pieces panics. */
  lemma {:induction false} FieldsFromFails(texts: seq<string>)
    ensures FieldsFrom(texts).Err? <==> exists k :: 0 <= k < |texts| && ParseField(texts[k]).Err?
  {
    if texts != [] {
      var tail := texts[1..];
      assert texts == [texts[0]] + tail;
      FieldsFromCons(texts[0], tail);
      FieldsFromFails(tail);
      if FieldsFrom(tail).Err? {
        var k :| 0 <= k < |tail| && ParseField(tail[k]).Err?;
        assert texts[k + 1] == tail[k];
      }
      if exists k :: 0 <= k < |texts| && ParseField(texts[k]).Err? {
        var k :| 0 <= k < |texts| && ParseField(texts[k]).Err?;
        if k > 0 {
          assert tail[k - 1] == texts[k];
        }
      }
    }
  }

  /** Reading one more line: the definitions so far, then that line's. */
  lemma {:induction false} DefinitionsSnoc(lines: seq<string>, l: string, acc: TypeDefs)
    ensures DefinitionsOf(lines + [l], acc) == (var m :- DefinitionsOf(lines, acc); DefinitionsOf([l], m))
  {
    if lines == [] {
      assert [] + [l] == [l];
    } else {
      assert (lines + [l])[0] == lines[0] && (lines + [l])[1..] == lines[1..] + [l];
      var next := DefinitionLineOf(Trim(lines[0]), acc);
      if next.Ok? {
        DefinitionsSnoc(lines[1..], l, next.value);
      }
    }
  }

  /** A later declaration of a type replaces any earlier one. */
  lemma LaterDeclarationWins(lines: seq<string>, l: string, acc: TypeDefs, name: string, fields: seq<FieldDef>)
    requires Trim(l) != "" && BeginsWith(Trim(l), ':')
    requires TypeDefinitionOf(Trim(l)) == Ok(Some((name, fields)))
    requires DefinitionsOf(lines + [l], acc).Ok?
    ensures name in DefinitionsOf(lines + [l], acc).value && DefinitionsOf(lines + [l], acc).value[name] == fields
  {
    DefinitionsSnoc(lines, l, acc);
    OneLine(l, DefinitionsOf(lines, acc).value);
    DeclarationLine(Trim(l), DefinitionsOf(lines, acc).value, name, fields);
  }

  /** Reading a list of one line is reading that line. */
  lemma OneLine(l: string, m: TypeDefs)
    ensures DefinitionsOf([l], m) == DefinitionLineOf(Trim(l), m)
  {
    var lines := [l];
    assert lines[0] == l && lines[1..] == [];
  }

  /** A declaration line inserts its definition. */
  lemma DeclarationLine(line: string, m: TypeDefs, name: string, fields: seq<FieldDef>)
    requires line != "" && BeginsWith(line, ':')
    requires TypeDefinitionOf(line) == Ok(Some((name, fields)))
    ensures DefinitionLineOf(line, m) == Ok(m[name := fields])
  {
  }

  /** Only declaration lines count: a line that does not start with ':' after trimming changes nothing. */
  lemma {:induction false} NonDeclarationIgnored(pre: seq<string>, l: string, post: seq<string>, acc: TypeDefs)
    requires !BeginsWith(Trim(l), ':')
    ensures DefinitionsOf(pre + [l] + post, acc) == DefinitionsOf(pre + post, acc)
  {
    if pre == [] {
      assert [] + [l] + post == [l] + post && ([l] + post)[1..] == post && [] + post == post;
      assert DefinitionLineOf(Trim(l), acc) == Ok(acc);
    } else {
      assert (pre + [l] + post)[1..] == pre[1..] + [l] + post;
      assert (pre + post)[1..] == pre[1..] + post;
      assert (pre + [l] + post)[0] == pre[0] == (pre + post)[0];
      var next := DefinitionLineOf(Trim(pre[0]), acc);
      if next.Ok? {
        NonDeclarationIgnored(pre[1..], l, post, next.value);
      }
    }
  }

  /** In `:Name { body }`, the first space follows the name, and what follows it trims to the braced body. */
  lemma DeclarationShape(name: string, body: string)
    requires name != [] && AllWord(name)
    ensures var rest := name + " {" + body + "}";
            var sp := IndexOf(rest, ' ');
            sp == |name| < |rest| && Trim(rest[..sp]) == name && Trim(rest[sp..]) == "{" + body + "}" &&
            Inner("{" + body + "}") == body
  {
    var rest := name + " {" + body + "}";
    WordHasNoMarks(name);
    WordUnpadded(name);
    var sp := IndexOf(rest, ' ');
    assert rest[|name|] == ' ';
    assert sp == |name|;
    assert rest[..sp] == name;
    var u := rest[sp..];
    assert u == " {" + body + "}";
    var w := "{" + body + "}";
    assert u[1..] == w;
    assert LeadingWs(w, Rs) == 0;
    assert LeadingWs(u, Rs) == 1;
    assert LStripBy(u, Rs) == w;
    assert TrailingWs(w, Rs) == 0;
    assert Trim(u) == w;
    assert Inner(w) == body;
  }

  /** The braced reading of `parse_type_definition`: a space after the name, then a braced field list. */
  lemma DefinitionOfBraced(line: string, rest: string, sp: nat)
    requires |line| > 0 && rest == line[1..] && sp == IndexOf(rest, ' ') && sp < |rest|
    requires Wrapped(Trim(rest[sp..]), '{', '}')
    ensures TypeDefinitionOf(line) == (var fs :- FieldsOf(Inner(Trim(rest[sp..]))); Ok(Some((Trim(rest[..sp]), fs))))
  {
    if FieldsOf(Inner(Trim(rest[sp..]))).Ok? {
      assert TypeDefinitionOf(line) == Ok(Some((Trim(rest[..sp]), FieldsOf(Inner(Trim(rest[sp..]))).value)));
    }
  }

  /** `:Name { body }` declares `Name` with the fields of `body`. */
  lemma DeclarationRoundTrip(name: string, body: string)
    requires name != [] && AllWord(name)
    ensures TypeDefinitionOf(":" + name + " {" + body + "}") == (var fs :- FieldsOf(body); Ok(Some((name, fs))))
  {
    var line := ":" + name + " {" + body + "}";
    var rest := name + " {" + body + "}";
    assert line[1..] == rest;
    DeclarationShape(name, body);
    DefinitionOfBraced(line, rest, |name|);
  }

  // ---------------------------------------------------------------------
  // Type annotations
  // ---------------------------------------------------------------------

  /** The typed reading of `parse_data`: a trimmed text whose main colon is followed by a registered type. */
  lemma DataOfRegistered(s: string, c: nat, defs: TypeDefs)
    requires Trim(s) == s && LastMainColon(s) == Some(c)
    requires c < |s| && Trim(s[c + 1..]) in defs
    ensures DataOf(s, defs) == TypedValueOf(Trim(s[..c]), defs[Trim(s[c + 1..])], defs)
  {
  }

  /** The inline-typed reading of `parse_data`: a trimmed text whose main colon is followed by a braced schema. */
  lemma DataOfInline(s: string, c: nat, defs: TypeDefs)
    requires Trim(s) == s && LastMainColon(s) == Some(c)
    requires c < |s| && Trim(s[c + 1..]) !in defs && Wrapped(Trim(s[c + 1..]), '{', '}')
    ensures DataOf(s, defs) == (var fs :- FieldsOf(Inner(Trim(s[c + 1..]))); TypedValueOf(Trim(s[..c]), fs, defs))
  {
    var t := Trim(s[c + 1..]);
    if FieldsOf(Inner(t)).Ok? {
      assert DataOf(s, defs) == TypedValueOf(Trim(s[..c]), FieldsOf(Inner(t)).value, defs);
    }
  }

  /** The primitive reading of `parse_data`: no usable annotation, and neither brackets nor braces around the text. */
  lemma DataOfPrimitive(s: string, defs: TypeDefs)
    requires Trim(s) == s && !Wrapped(s, '[', ']') && !Wrapped(s, '{', '}')
    requires LastMainColon(s).Some? ==> Trim(s[LastMainColon(s).value + 1..]) !in defs && !Wrapped(Trim(s[LastMainColon(s).value + 1..]), '{', '}')
    ensures DataOf(s, defs) == (var p :- PrimitiveOf(s); Ok(Primitive(p)))
  {
  }

  /** An unquoted trimmed text with a colon reads as a string. */
  lemma ColonTextIsString(s: string, p: nat)
    requires Trim(s) == s && p < |s| && s[p] == ':' && s[0] != '"'
    ensures PrimitiveOf(s) == Ok(Str(s))
  {
    assert s != "true" && s != "false" && s != "null";
    IntegerTextHasNoColon(s, p);
    FloatTextHasNoColon(s, p);
  }

  /** `value:Type` with a registered type is read against that type's schema. */
  lemma RegisteredAnnotation(v: string, t: string, defs: TypeDefs)
    requires Unpadded(v) && Clean(StateAt(v, |v|, true))
    requires Unpadded(t) && ':' !in t && t in defs
    ensures DataOf(v + ":" + t, defs) == TypedValueOf(v, defs[t], defs)
  {
    var s := v + ":" + t;
    assert s[0] == v[0] && s[|s| - 1] == t[|t| - 1];
    UnpaddedTrim(s);
    UnpaddedTrim(v);
    UnpaddedTrim(t);
    AnnotationColon(v, t);
    assert s[..|v|] == v && s[|v| + 1..] == t;
    DataOfRegistered(s, |v|, defs);
  }

  /** `value:{ fields }` is read against the inline schema. */
  lemma InlineAnnotation(v: string, body: string, defs: TypeDefs)
    requires Unpadded(v) && Clean(StateAt(v, |v|, true))
    requires ':' !in body && "{" + body + "}" !in defs
    ensures DataOf(v + ":{" + body + "}", defs) == (var fs :- FieldsOf(body); TypedValueOf(v, fs, defs))
  {
    var t := "{" + body + "}";
    var s := v + ":" + t;
    assert v + ":{" + body + "}" == s;
    InlineShape(v, body);
    DataOfInline(s, |v|, defs);
  }

  /** `value:{ fields }` is trimmed, its main colon follows the value, and what follows is the braced schema. */
  lemma InlineShape(v: string, body: string)
    requires Unpadded(v) && Clean(StateAt(v, |v|, true)) && ':' !in body
    ensures var t := "{" + body + "}";
            var s := v + ":" + t;
            Trim(s) == s && LastMainColon(s) == Some(|v|) && |v| < |s| && Trim(s[..|v|]) == v &&
            Trim(s[|v| + 1..]) == t && Wrapped(t, '{', '}') && Inner(t) == body
  {
    var t := "{" + body + "}";
    var s := v + ":" + t;
    assert s[0] == v[0] && s[|s| - 1] == '}';
    UnpaddedTrim(s);
    UnpaddedTrim(v);
    UnpaddedTrim(t);
    assert ':' !in t by {
      forall k | 0 <= k < |t| ensures t[k] != ':' {
        if 0 < k < |t| - 1 {
          assert t[k] == body[k - 1];
        }
      }
    }
    AnnotationColon(v, t);
    assert s[..|v|] == v && s[|v| + 1..] == t;
    assert Inner(t) == body;
  }

  /** `s` is trimmed, its main colon is at `c`, `t` is what follows it trimmed, and both `s` and `t` start with a word character. */
  predicate AnnotationShape(s: string, c: nat, t: string) {
    c < |s| && t != [] && Trim(s) == s && LastMainColon(s) == Some(c) && Trim(s[c + 1..]) == t && IsWordChar(s[0]) && IsWordChar(t[0])
  }

  /** A text of that shape is neither bracketed nor braced, its annotation is not braced, and it reads as a string primitive. */
  lemma AnnotationShapeFacts(s: string, c: nat, t: string)
    requires AnnotationShape(s, c, t)
    ensures !Wrapped(s, '[', ']') && !Wrapped(s, '{', '}') && !Wrapped(t, '{', '}')
    ensures PrimitiveOf(s) == Ok(Str(s))
  {
    assert s[0] != '"' && s[0] != '[' && s[0] != '{';
    LastMainColonBeforeIsLast(s, |s|);
    ColonTextIsString(s, c);
  }

  /** A text of that shape whose annotation names no known type reads as a string. */
  lemma UnknownAnnotationAt(s: string, c: nat, t: string, defs: TypeDefs)
    requires AnnotationShape(s, c, t) && t !in defs
    ensures DataOf(s, defs) == Ok(Primitive(Str(s)))
  {
    AnnotationShapeFacts(s, c, t);
    var m := LastMainColon(s);
    assert m == Some(c) && Trim(s[m.value + 1..]) == t;
    DataOfPrimitive(s, defs);
  }

  /** `word:word` is trimmed, its main colon is the one between the words, and it starts with a word character. */
  lemma AnnotatedWord(v: string, t: string)
    requires v != [] && AllWord(v) && t != [] && AllWord(t)
    ensures AnnotationShape(v + ":" + t, |v|, t)
  {
    var s := v + ":" + t;
    WordUnpadded(v);
    WordUnpadded(t);
    WordHasNoMarks(t);
    assert v[..|v|] == v;
    WordScanIsClean(v, |v|, true);
    AnnotationColon(v, t);
    assert s[0] == v[0] && s[|s| - 1] == t[|t| - 1];
    UnpaddedTrim(s);
    assert s[|v| + 1..] == t;
  }

  /** An annotation that names no known type is no error: the whole text is read as a string. */
  lemma UnknownAnnotationIsText(v: string, t: string, defs: TypeDefs)
    requires v != [] && AllWord(v) && t != [] && AllWord(t) && t !in defs
    ensures DataOf(v + ":" + t, defs) == Ok(Primitive(Str(v + ":" + t)))
  {
    AnnotatedWord(v, t);
    UnknownAnnotationAt(v + ":" + t, |v|, t, defs);
  }

  // ---------------------------------------------------------------------
  // Items
  // ---------------------------------------------------------------------

  /** A character that does not end the piece joins it, in the state after it. */
  lemma PieceJoins(text: string, i: nat, buf: string, st: Scan, quotes: bool, buf': string, st': Scan)
    requires i < |text| && !(text[i] == ',' && Clean(st))
    requires buf' == buf + [text[i]] && st' == Next(st, text[i], quotes)
    ensures ItemPieces(text, i, buf, st, quotes) == ItemPieces(text, i + 1, buf', st', quotes)
  {
    ItemPiecesStep(text, i, buf, st, quotes);
  }

  /** A comma in a clean state ends the piece. */
  lemma PieceEnds(text: string, i: nat, buf: string, st: Scan, quotes: bool)
    requires i < |text| && text[i] == ',' && Clean(st)
    ensures ItemPieces(text, i, buf, st, quotes) == [buf] + ItemPieces(text, i + 1, "", st, quotes)
  {
    ItemPiecesStep(text, i, buf, st, quotes);
  }

  /** Example: the raw pieces of `"a,b",c` when the splitter knows strings. */
  lemma QuotedPieces()
    ensures ItemPieces("\"a,b\",c", 0, "", Start, true) == ["\"a,b\"", "c"]
  {
    var x := "\"a,b\",c";
    var q := Scan(true, false, 0, 0);
    assert x[0] == '"' && x[1] == 'a' && x[2] == ',' && x[3] == 'b' && x[4] == '"' && x[5] == ',' && x[6] == 'c';
    PieceJoins(x, 0, "", Start, true, "\"", q);
    PieceJoins(x, 1, "\"", q, true, "\"a", q);
    PieceJoins(x, 2, "\"a", q, true, "\"a,", q);
    PieceJoins(x, 3, "\"a,", q, true, "\"a,b", q);
    PieceJoins(x, 4, "\"a,b", q, true, "\"a,b\"", Start);
    PieceEnds(x, 5, "\"a,b\"", Start, true);
    PieceJoins(x, 6, "", Start, true, "c", Start);
    assert ItemPieces(x, 7, "c", Start, true) == ["c"];
  }

  /** Example: the raw pieces of `"a,b",c` when the splitter knows nothing of strings. */
  lemma UnquotedPieces()
    ensures ItemPieces("\"a,b\",c", 0, "", Start, false) == ["\"a", "b\"", "c"]
  {
    var x := "\"a,b\",c";
    assert x[0] == '"' && x[1] == 'a' && x[2] == ',' && x[3] == 'b' && x[4] == '"' && x[5] == ',' && x[6] == 'c';
    PieceJoins(x, 0, "", Start, false, "\"", Start);
    PieceJoins(x, 1, "\"", Start, false, "\"a", Start);
    PieceEnds(x, 2, "\"a", Start, false);
    PieceJoins(x, 3, "", Start, false, "b", Start);
    PieceJoins(x, 4, "b", Start, false, "b\"", Start);
    PieceEnds(x, 5, "b\"", Start, false);
    PieceJoins(x, 6, "", Start, false, "c", Start);
    assert ItemPieces(x, 7, "c", Start, false) == ["c"];
  }

  /** Pieces that are all unpadded are the item texts as they are. */
  lemma {:induction false} UnpaddedPiecesAreItems(ps: seq<string>)
    requires forall k :: 0 <= k < |ps| ==> Unpadded(ps[k])
    ensures Segments.NonEmpty(TrimAll(ps)) == ps
  {
    if ps != [] {
      var head, tail := ps[0], ps[1..];
      assert ps == [head] + tail;
      assert Unpadded(head);
      UnpaddedTrim(head);
      TrimAllCons(head, tail);
      assert forall k :: 0 <= k < |tail| ==> Unpadded(tail[k]) by {
        forall k | 0 <= k < |tail| ensures Unpadded(tail[k]) {
          assert tail[k] == ps[k + 1];
        }
      }
      UnpaddedPiecesAreItems(tail);
      Segments.NonEmptyCons(head, TrimAll(tail));
    }
  }

  /** Example: a comma inside a string does not split an object's items. */
  lemma CommaInStringDoesNotSplit()
    ensures ItemTexts("\"a,b\",c", true) == ["\"a,b\"", "c"]
  {
    var ps := ["\"a,b\"", "c"];
    assert forall k :: 0 <= k < |ps| ==> Unpadded(ps[k]) by {
      assert Unpadded(ps[0]) && Unpadded(ps[1]);
    }
    UnpaddedPiecesAreItems(ps);
    QuotedPieces();
  }

  /** The array splitter knows nothing of strings and splits at every comma outside brackets and braces. */
  lemma ArraySplitterIgnoresStrings()
    ensures ItemTexts("\"a,b\",c", false) == ["\"a", "b\"", "c"]
  {
    var ps := ["\"a", "b\"", "c"];
    assert forall k :: 0 <= k < |ps| ==> Unpadded(ps[k]) by {
      assert Unpadded(ps[0]) && Unpadded(ps[1]) && Unpadded(ps[2]);
    }
    UnpaddedPiecesAreItems(ps);
    UnquotedPieces();
  }

  /** An item `key: value` with a word key gives the key as a string and then the value. */
  lemma KeyedItem(texts: seq<string>, i: nat, bound: nat, defs: TypeDefs, k: string, v: string)
    requires i < |texts| && Fits(texts, bound) && AllWord(k) && texts[i] == k + ":" + v
    ensures var d, rest := DataOf(Trim(v), defs), ObjectItemsOf(texts, i + 1, bound, defs);
            ObjectItemsOf(texts, i, bound, defs) == if d.Err? then Err(d.error) else Prefixed([Primitive(Str(k)), d.value], rest)
  {
    var item := texts[i];
    KeyColon(k, v);
    assert item[..|k|] == k && item[|k| + 1..] == v;
    if k != [] {
      WordUnpadded(k);
    }
    ObjectItemsStep(texts, i, bound, defs);
  }

  // ---------------------------------------------------------------------
  // Naming items by a schema
  // ---------------------------------------------------------------------

  /** Field k names item k in the pairs the field loop gives from field `j`: its name, then the item typed by it. */
  predicate NamedAt(pairs: seq<DataValue>, items: seq<DataValue>, fields: seq<FieldDef>, defs: TypeDefs, j: nat, k: nat)
    requires j <= k < |fields| && k < |items| && 2 * (k - j) + 1 < |pairs|
  {
    pairs[2 * (k - j)] == Primitive(Str(fields[k].name)) && FieldTyped(items[k], fields[k], defs) == Ok(pairs[2 * (k - j) + 1])
  }

  /** The pairs name every field from `j` that has an item, and nothing more. */
  predicate NamesFrom(pairs: seq<DataValue>, items: seq<DataValue>, fields: seq<FieldDef>, defs: TypeDefs, j: nat)
    requires j <= |fields|
  {
    var m := Min(|fields|, |items|);
    |pairs| == 2 * (if j < m then m - j else 0) &&
    forall k :: j <= k < m ==> NamedAt(pairs, items, fields, defs, j, k)
  }

  /** The field loop from field `j` names every field that has an item, by its position. */
  lemma {:induction false} NamedPairsNames(items: seq<DataValue>, fields: seq<FieldDef>, j: nat, defs: TypeDefs)
    requires j <= |fields|
    ensures var r := NamedPairs(items, fields, j, defs);
            r.Ok? ==> NamesFrom(r.value, items, fields, defs, j)
    decreases |fields| - j
  {
    var m := Min(|fields|, |items|);
    if j < |fields| {
      NamedPairsStep(items, fields, j, defs);
      NamedPairsNames(items, fields, j + 1, defs);
      var r := NamedPairs(items, fields, j, defs);
      var rest := NamedPairs(items, fields, j + 1, defs);
      if j < |items| && r.Ok? {
        var tv := FieldTyped(items[j], fields[j], defs).value;
        var pairs := [Primitive(Str(fields[j].name)), tv] + rest.value;
        assert r.value == pairs;
        assert NamedAt(pairs, items, fields, defs, j, j);
        forall k | j < k < m ensures NamedAt(pairs, items, fields, defs, j, k) {
          assert NamedAt(rest.value, items, fields, defs, j + 1, k);
          assert pairs[2 * (k - j)] == rest.value[2 * (k - j - 1)];
          assert pairs[2 * (k - j) + 1] == rest.value[2 * (k - j - 1) + 1];
        }
      }
    }
  }

  /** The field loop from field `j` fails exactly when typing one of the items it names fails. */
  lemma {:induction false} NamedPairsFails(items: seq<DataValue>, fields: seq<FieldDef>, j: nat, defs: TypeDefs)
    requires j <= |fields|
    ensures NamedPairs(items, fields, j, defs).Err? <==>
              exists k :: j <= k < Min(|fields|, |items|) && FieldTyped(items[k], fields[k], defs).Err?
    decreases |fields| - j
  {
    if j < |fields| {
      NamedPairsStep(items, fields, j, defs);
      NamedPairsFails(items, fields, j + 1, defs);
    }
  }

  /**
   * The named object of a typed object: field k's name and item k typed by
   * field k for every k below both lengths, then the trailing key/value
   * pairs; an error exactly when typing one of those items fails.
   */
  lemma NamedObjectShape(items: seq<DataValue>, fields: seq<FieldDef>, defs: TypeDefs)
    ensures var r, m := NamedObject(items, fields, defs), Min(|fields|, |items|);
            r.Ok? ==> |r.value| >= 2 * m && NamesFrom(r.value[..2 * m], items, fields, defs, 0) && r.value[2 * m..] == TrailingPairs(items, m)
    ensures NamedObject(items, fields, defs).Err? <==>
              exists k :: 0 <= k < Min(|fields|, |items|) && FieldTyped(items[k], fields[k], defs).Err?
  {
    NamedObjectOfPairs(items, fields, defs);
    NamedPairsNames(items, fields, 0, defs);
    NamedPairsFails(items, fields, 0, defs);
    var r := NamedObject(items, fields, defs);
    if r.Ok? {
      var pairs := NamedPairs(items, fields, 0, defs).value;
      var m := Min(|fields|, |items|);
      assert r.value == pairs + TrailingPairs(items, m);
      assert r.value[..2 * m] == pairs;
      assert r.value[2 * m..] == TrailingPairs(items, m);
    }
  }

  /** A typed object whose items are not all key/value pairs is the named object. */
  lemma TypedObjectNamed(items: seq<DataValue>, fields: seq<FieldDef>, defs: TypeDefs)
    requires !KeyValuePairs(items)
    ensures var r := TypedObjectOf(items, fields, defs);
            (r.Ok? <==> NamedObject(items, fields, defs).Ok?) &&
            (r.Ok? ==> r.value == Object(NamedObject(items, fields, defs).value))
  {
  }

  /** A typed array succeeds only on objects, each one typed by the schema. */
  lemma {:induction false} TypedElementsObjects(items: seq<DataValue>, fields: seq<FieldDef>, j: nat, defs: TypeDefs)
    requires j <= |items|
    ensures var r := TypedElements(items, fields, j, defs);
            r.Ok? ==> forall k :: j <= k < |items| ==> items[k].Object? && TypedObjectOf(items[k].items, fields, defs) == Ok(r.value[k - j])
    decreases |items| - j
  {
    if j < |items| {
      TypedElementsObjects(items, fields, j + 1, defs);
      var r := TypedElements(items, fields, j, defs);
      if r.Ok? {
        var rest := TypedElements(items, fields, j + 1, defs);
        assert r.value == [TypedObjectOf(items[j].items, fields, defs).value] + rest.value;
        forall k | j < k < |items|
          ensures items[k].Object? && TypedObjectOf(items[k].items, fields, defs) == Ok(r.value[k - j])
        {
          assert r.value[k - j] == rest.value[k - j - 1];
        }
      }
    }
  }

  /** In a typed array, the first item that is not an object, once the objects before it are typed, is the error. */
  lemma {:induction false} NonObjectRejected(items: seq<DataValue>, fields: seq<FieldDef>, j: nat, defs: TypeDefs, k: nat)
    requires j <= k < |items| && !items[k].Object?
    requires forall i :: j <= i < k ==> items[i].Object? && TypedObjectOf(items[i].items, fields, defs).Ok?
    ensures TypedElements(items, fields, j, defs) == Err(RsError(NotObjects))
    decreases k - j
  {
    if j < k {
      NonObjectRejected(items, fields, j + 1, defs, k);
    }
  }

  /** `apply_field_type`: a primitive or untyped field copies the value. */
  lemma FieldTypedCopies(v: DataValue, fd: FieldDef, defs: TypeDefs)
    requires fd.kind.PrimitiveKind? || fd.typeName.None?
    ensures FieldTyped(v, fd, defs) == Ok(v)
  {
  }

  /** `apply_field_type`: a type that is neither registered nor (for an object field) inline is an error with the source's message. */
  lemma FieldTypedUnknown(v: DataValue, fd: FieldDef, defs: TypeDefs)
    requires fd.typeName.Some? && fd.typeName.value !in defs
    ensures fd.kind.ObjectKind? && !Wrapped(fd.typeName.value, '{', '}') ==>
              FieldTyped(v, fd, defs) == Err(RsError("Referenced type '" + fd.typeName.value + "' not found"))
    ensures fd.kind.ArrayKind? ==>
              FieldTyped(v, fd, defs) == Err(RsError("Referenced array element type '" + fd.typeName.value + "' not found"))
  {
  }

  /** `apply_field_type` keeps the shape of the value and, for an array, its length. */
  lemma FieldTypedKeepsShape(v: DataValue, fd: FieldDef, defs: TypeDefs)
    ensures var r := FieldTyped(v, fd, defs);
            r.Ok? ==> (r.value.Primitive? <==> v.Primitive?) && (r.value.Object? <==> v.Object?) && (r.value.Array? <==> v.Array?)
    ensures var r := FieldTyped(v, fd, defs);
            r.Ok? && v.Array? ==> |r.value.items| == |v.items|
  {
    var r := FieldTyped(v, fd, defs);
    if r.Ok? {
      if fd.kind.PrimitiveKind? || fd.typeName.None? {
        assert r.value == v;
      } else if fd.kind.ObjectKind? {
        assert r.value == v || (v.Object? && r.value.Object?);
      } else {
        assert r.value == v || (v.Array? && r.value.Array? && |r.value.items| == |v.items|);
      }
    }
  }

  /** Each element of an array field: an object named by the element schema, or the element copied. */
  predicate ElementNamed(item: DataValue, fields: seq<FieldDef>, defs: TypeDefs, out: DataValue) {
    if item.Object? then NamedObject(item.items, fields, defs).Ok? && out == Object(NamedObject(item.items, fields, defs).value)
    else out == item
  }

  /** The element loop of an array field names every object element and copies every other one. */
  lemma {:induction false} ElementsNamedMatch(items: seq<DataValue>, fields: seq<FieldDef>, j: nat, defs: TypeDefs)
    requires j <= |items|
    ensures var r := ElementsNamed(items, fields, j, defs);
            r.Ok? ==> forall k :: j <= k < |items| ==> ElementNamed(items[k], fields, defs, r.value[k - j])
    decreases |items| - j
  {
    if j < |items| {
      ElementsNamedMatch(items, fields, j + 1, defs);
      var r := ElementsNamed(items, fields, j, defs);
      if r.Ok? {
        var rest := ElementsNamed(items, fields, j + 1, defs);
        assert ElementNamed(items[j], fields, defs, r.value[0]);
        forall k | j < k < |items| ensures ElementNamed(items[k], fields, defs, r.value[k - j]) {
          assert r.value[k - j] == rest.value[k - j - 1];
        }
      }
    }
  }
}
