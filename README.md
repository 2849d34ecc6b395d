# BREF engines in Dafny

BREF is a compact text notation for JSON-shaped data. A document opens with
declaration lines such as `:song { title, year, album:album }`, which name a
schema, or a value list such as `:city { "Istanbul", "Maltepe" }`. The data
follows: brace lists, bracket arrays and scalars. A value may carry a trailing
annotation (`{...}: song` or `{...}: { a, b }`), and its fields are then keyed
by the schema in order. The repository holds several generations of the engine
that turns such text into a tree, and they disagree on the edge cases. This
project models each one under its own policy:

- **The AST engine** (`bref-2/`):
  - the declaration extractor and its schema and value-list readers (`Bref2Utils`);
  - the cursor-based recursive-descent parser, a `Parser` class whose cursor its methods advance (`Bref2Parser`);
  - the materializer that applies schemas to the parsed nodes (`Bref2Materializer`).
- **The earlier self-contained copy** `bref/converter.py` (`Converter`). It reuses the same parser with a different marker for `.`, and its materializer fills every schema key.
- **The string-segment parsers.**
  - `bref-py/parser.py` (`BrefPyDeclarations`, `BrefPyParser`, `BrefPyProperties`).
  - `bref/parser.py` (`BrefParser`, `BrefProperties`).
  - Their shared comma scanner (`Segments`).
  - Their trailing-annotation readers (`Trailing`).
- **The Rust port** `src/` (`RsTypes`, `RsUtils`, `RsParser`, `RsProperties`). It keeps an object as a flat sequence of alternating keys and values.

Helper modules:

- `Text` holds ASCII character classes, Python `strip`, Rust `trim` and splitting.
- `PyData` holds Python values: a dict is an association list in insertion order.
- `Ast` holds the node type.
- `Base` holds results and loop-composition lemmas.

How each kind of code is modelled:

- **Pure code** (conditional chains and recursion) becomes functions.
- **Code that mutates state** becomes methods: cursor parsers, character-buffer scanners, dict-filling loops, work stacks.
- **Each such method is proved equal to a specification function.** That function's properties are stated as lemmas.
- **Errors are part of the outcome**, as `Result`: Python exceptions (`ParseError`, `ValueError`), Rust `Err` strings and Rust slice panics.
- **Duplicated source, duplicated members.** `bref/converter.py` repeats the `bref-2/materializer.py` code, and `bref-py/parser.py` repeats much of `bref/parser.py`. The model keeps each copy under its own module on purpose. So `Converter.BuildAll`, `Converter.ArrayElementwise` and `Converter.UntypedListIsList` repeat their `Bref2Materializer` namesakes, and `BrefPyParser.DataWithTypeOf` repeats `BrefParser.DataWithTypeOf`.

## Model

| member | source | states |
|---|---|---|
| Ast.AnnOf | bref-2/ast.py:9-12 | Only list and array nodes carry a type annotation. |
| Ast.Size | bref-2/ast.py:9-12 | Every node has size at least 1, and a key/value node is larger than its item, which bounds the materializers' recursion. |
| PyData.Get | bref-2/materializer.py:39-41 | A dict lookup finds a value exactly when the key is present. |
| PyData.Put | bref-2/materializer.py:52 | `d[k] = v` makes `k` map to `v` and adds `k` to the keys. Every other key keeps its value, and a new key goes last. |
| PyData.PutKeepsDistinct | bref-2/materializer.py:52 | Assignment never creates a duplicate key. |
| PyData.PyNumber | bref-2/utils.py:40-43 | A number text reads as a float when it holds '.', and as an int otherwise. The int has the decimal value. It fails exactly when Python's `int()` or `float()` would refuse the text. |
| PyData.MinusInsideIsRejected | bref-2/utils.py:40-43 | `1-2` passes the digit test, but its conversion raises `ValueError`. |
| Bref2Utils.RhsPart | bref-2/utils.py:25-27 | The stripped text after the first ':' is shorter than the part, so the nested-schema recursion terminates. |
| Bref2Utils.KeywordLiteral | bref-2/utils.py:36-38 | A keyword reading is a bool or None. |
| Bref2Utils.FieldOf | bref-2/utils.py:23-57 | A part without ':' is the bare field of that name. A part with ':' is a keyed field whose key is the stripped text before the first ':'. Only a part with a ':' can fail. |
| Bref2Utils.FieldClassification | bref-2/utils.py:29-55 | The rhs of `key: rhs` is read as follows: braced gives a nested schema; a keyword in any case gives a literal; a number text gives a number; quoted gives its inner text; identifier-shaped gives a type reference; anything else gives the raw text as a default. |
| Bref2Utils.FieldsOf | bref-2/utils.py:23-57 | A successful reading gives one field per part. |
| Bref2Utils.FieldsOfHead | bref-2/utils.py:23-57 | A part that reads as field f puts f before the fields of the remaining parts. |
| Bref2Utils.FieldsOfHeadFails | bref-2/utils.py:23-57 | A first part that fails fails the whole schema with its error. |
| Bref2Utils.FieldsOfParts | bref-2/utils.py:23-57 | Field k is the reading of part k. The schema fails exactly when some part fails. |
| Bref2Utils.FieldOfPart | bref-2/utils.py:23-57 | In a successful schema, field k is the reading of part k. |
| Bref2Utils.FieldsOfFails | bref-2/utils.py:23-57 | A failed schema has a part that fails. |
| Bref2Utils.SchemaOfParts | bref-2/utils.py:17-23 | There is one field per non-blank stripped comma part, in order. The split is on every comma, so `t: { a, b }` is cut apart. |
| Bref2Utils.ParseSchemaFields | bref-2/utils.py:12-58 | The appending loop computes the schema specification. |
| Bref2Utils.ReadFields | bref-2/utils.py:23-58 | The loop over the parts computes their field list, stopping at the first part that fails. |
| Bref2Utils.ValueOf | bref-2/utils.py:72-90 | A quoted part gives its inner text. Every success is a scalar. Only a number-shaped part can fail. |
| Bref2Utils.ValuesOf | bref-2/utils.py:72-90 | A successful reading gives one value per part. |
| Bref2Utils.ValuesOfParts | bref-2/utils.py:61-91 | Value k is the reading of part k. The list fails exactly when some part fails. |
| Bref2Utils.ParseValueDefinition | bref-2/utils.py:61-91 | The appending loop computes the value list: exactly one value per non-blank part of the unbraced body. |
| Bref2Utils.MatchDeclShape | bref-2/utils.py:104 | A declaration match gives an identifier name. Its body starts with '{' and ends the line with its only '}', so a body with a nested '}' is no declaration. |
| Bref2Utils.Declaration | bref-2/utils.py:116-127 | A declaration is a value list exactly when no part is `k:v` outside quotes and some part is quoted. Otherwise it is a schema. |
| Bref2Utils.ParseTypeDefinitions | bref-2/utils.py:94-131 | The one-pass loop filling the two dicts and the kept lines computes the extractor specification. |
| Bref2Utils.StepKept | bref-2/utils.py:106-129 | One line adds itself, stripped, to the kept lines exactly when it is non-blank and not a declaration. |
| Bref2Utils.ScanKeepsBodyLines | bref-2/utils.py:106-129 | The loop appends exactly the data lines, in order, to the kept lines. |
| Bref2Utils.BodyIsDataLines | bref-2/utils.py:129-131 | The remaining body is the data lines joined with '\n' and stripped. Blank lines and declarations never reach it. |
| Bref2Utils.ScanKeepsName | bref-2/utils.py:111-127 | Lines that do not declare a name leave its schema or value-list entry as it was. |
| Bref2Utils.ScanAppend | bref-2/utils.py:106-129 | Scanning two line blocks in a row is scanning the first block, then the second from where the first left off. |
| Bref2Utils.LastDeclarationWins | bref-2/utils.py:122-127 | After the last declaration of a name, the name holds what that declaration gave. |
| Bref2Utils.LaterDeclarationOverwrites | bref-2/utils.py:122-127 | Across a whole document, a name maps to the values of its last declaration when that declaration is a value list, and to its schema otherwise. |
| Bref2Parser.SkipWsFrom | bref-2/parser.py:24-26 | `skip_ws` stops at or after the cursor, within the text. |
| Bref2Parser.WordEnd | bref-2/parser.py:182-183 | The word-character run ends at or after its start, within the text. |
| Bref2Parser.DigitsEnd | bref-2/parser.py:155-160 | The digit run ends at or after its start, within the text. |
| Bref2Parser.StringEnd | bref-2/parser.py:138-146 | The string scan ends at or after its start, within the text. |
| Bref2Parser.IdentifierAt | bref-2/parser.py:173-184 | A read identifier ends after the cursor and within the text. |
| Bref2Parser.LiteralAt | bref-2/parser.py:166-171 | A matched keyword moves the cursor forward, within the text. |
| Bref2Parser.NumberEnd | bref-2/parser.py:150-160 | At a '-' or a digit, `parse_number` consumes at least one character. |
| Bref2Parser.NumberAt | bref-2/parser.py:150-164 | A read number ends where the number scan stops. |
| Bref2Parser.StringAt | bref-2/parser.py:135-148 | A decoded string ends after the cursor, within the text. |
| Bref2Parser.BracedEnd | bref-2/parser.py:192-202 | A successful brace scan ends after the cursor, within the text. |
| Bref2Parser.BracedAt | bref-2/parser.py:186-202 | `read_braced` ends after the cursor. |
| Bref2Parser.AnnotationAt | bref-2/parser.py:122-133 | An annotation never moves the cursor backwards. |
| Bref2Parser.ValueAt | bref-2/parser.py:28-55 | A successful parse consumes at least one character. |
| Bref2Parser.ListAt | bref-2/parser.py:57-95 | A brace list consumes at least one character and yields a list node. |
| Bref2Parser.ListItemAt | bref-2/parser.py:66-81 | A list item consumes at least one character. |
| Bref2Parser.ListItemKeyed | bref-2/parser.py:67-76 | An item that starts with an identifier followed, after whitespace, by ':' is that key paired with the value read after the ':' and its whitespace; a failing value fails the item with the value's error. |
| Bref2Parser.ListItemPlain | bref-2/parser.py:77-81 | An item that does not start with `key:` is read as a value from where the item starts (the cursor goes back to `start_pos`). |
| Bref2Parser.ListItems | bref-2/parser.py:66-92 | A successful item loop ends right after a '}'. |
| Bref2Parser.ArrayAt | bref-2/parser.py:97-120 | A bracket array consumes at least one character and yields an array node. |
| Bref2Parser.ArrayItems | bref-2/parser.py:106-117 | A successful element loop ends right after a ']'. |
| Bref2Parser.ListItemsFails | bref-2/parser.py:66-81 | An item that fails fails the list with the same error. |
| Bref2Parser.ListItemsComma | bref-2/parser.py:83-88 | An item followed, after whitespace, by ',' is prepended to the items read after the comma. |
| Bref2Parser.ListItemsEnd | bref-2/parser.py:89-91 | An item followed, after whitespace, by '}' is the last one, and the cursor stops after the '}'. |
| Bref2Parser.ListItemsUnexpected | bref-2/parser.py:92 | After an item, anything but ',' or '}', end of input included, is a ParseError at that position. |
| Bref2Parser.ArrayItemsFails | bref-2/parser.py:107 | An element that fails fails the array with the same error. |
| Bref2Parser.ArrayItemsComma | bref-2/parser.py:108-113 | An element followed by ',' is prepended to the elements read after the comma. |
| Bref2Parser.ArrayItemsEnd | bref-2/parser.py:114-116 | An element followed by ']' is the last one. |
| Bref2Parser.ArrayItemsUnexpected | bref-2/parser.py:117 | After an element, anything but ',' or ']', end of input included, is a ParseError at that position. |
| Bref2Parser.SkipWsSpan | bref-2/parser.py:24-26 | `skip_ws` passes over whitespace only, and stops at the end or at a non-space character. |
| Bref2Parser.WordSpan | bref-2/parser.py:182-183 | The identifier loop passes over word characters only, and stops at the end or at a non-word character. |
| Bref2Parser.DigitsSpan | bref-2/parser.py:155-160 | The digit loops pass over digits only, and stop at the end or at a non-digit. |
| Bref2Parser.OnlyWhitespaceLeft | bref-2/parser.py:29-31 | With only whitespace left, `parse_value` fails with "unexpected end". |
| Bref2Parser.IdentifierShape | bref-2/parser.py:173-184 | An identifier is a letter or '_' followed by word characters. Reading fails exactly when, after whitespace, the text ends or the next character cannot start one. |
| Bref2Parser.LiteralIsKeyword | bref-2/parser.py:166-171 | A keyword match consumes exactly `true`, `false` or `null`, with the matching value, and no word boundary is checked. There is no match exactly when none of the three is a prefix. |
| Bref2Parser.KeywordBeforeIdentifier | bref-2/parser.py:43-47 | A keyword prefix is read before the identifier rule, so `trueish` starts with the value `true`. |
| Bref2Parser.DotIsDefault | bref-2/parser.py:48-50 | `.` becomes the configured default node and consumes exactly one character. |
| Bref2Parser.ValueIsNotKeyValue | bref-2/parser.py:28-55 | `parse_value` never yields a key/value node. |
| Bref2Parser.KeyValueIffColon | bref-2/parser.py:67-79 | A list item is a key/value pair exactly when an identifier is followed, after whitespace, by ':', and the key is that identifier. Otherwise the item is re-read from its start as a value. |
| Bref2Parser.AnnotationShape | bref-2/parser.py:122-133 | There is no annotation, and only whitespace is consumed, exactly when the next character is not ':'. After ':', the annotation is an inline schema exactly when '{' follows. |
| Bref2Parser.StringEndCloses | bref-2/parser.py:138-146 | A string scan that stops before the end stops right after a closing quote. |
| Bref2Parser.BracedEndCloses | bref-2/parser.py:192-202 | The brace scan ends right after a '}', and fails only by running off the end. |
| Bref2Parser.BracedShape | bref-2/parser.py:186-202 | `read_braced` returns text from a '{' to a '}'. It fails only with "schema expected" or "unclosed brace". |
| Bref2Parser.NumberShape | bref-2/parser.py:150-164 | `parse_number` consumes an optional leading '-', then only digits and '.'. The result is an int exactly when no '.' was consumed. |
| Bref2Parser.Parser.constructor | bref-2/parser.py:8-11 | The cursor starts at 0 on the given text. |
| Bref2Parser.Parser.Get | bref-2/parser.py:19-22 | `get` returns the character under the cursor and advances by one. |
| Bref2Parser.Parser.SkipWs | bref-2/parser.py:24-26 | The loop leaves the cursor where the whitespace run ends. |
| Bref2Parser.Parser.ReadIdentifier | bref-2/parser.py:173-184 | The cursor loop returns the identifier reading and stops at its end. |
| Bref2Parser.Parser.TryParseIdentifierLiteral | bref-2/parser.py:166-171 | The keyword loop returns the keyword reading. The cursor moves by the keyword's length, or not at all. |
| Bref2Parser.Parser.ParseNumber | bref-2/parser.py:150-164 | The digit loops return the number reading and stop where it ends. |
| Bref2Parser.Parser.SkipStringInside | bref-2/parser.py:204-212 | The loop skips the escapes and stops after the closing quote. |
| Bref2Parser.Parser.ParseString | bref-2/parser.py:135-148 | The buffer loop returns the decoded literal and stops after it. |
| Bref2Parser.Parser.ReadBraced | bref-2/parser.py:186-202 | The depth loop returns the braced text and stops after its '}'. |
| Bref2Parser.Parser.ParseTypeAnnotation | bref-2/parser.py:122-133 | The method returns the annotation reading and stops where it ends. |
| Bref2Parser.Parser.ParseValue | bref-2/parser.py:28-55 | The method returns the value reading and stops where it ends. |
| Bref2Parser.Parser.ParseListItem | bref-2/parser.py:67-81 | The method returns the item reading, including the backtrack to the item start. |
| Bref2Parser.Parser.ParseListNode | bref-2/parser.py:57-95 | The method returns the brace-list reading. |
| Bref2Parser.Parser.ParseListItems | bref-2/parser.py:66-92 | The `while True` loop returns the item-loop reading. |
| Bref2Parser.Parser.ListRound | bref-2/parser.py:67-92 | One round either fails the list, continues after ',', or ends at '}'. |
| Bref2Parser.Parser.Separator | bref-2/parser.py:83-92 | After whitespace: ',' plus the whitespace after it reports more items; the closing character reports the last item, with the cursor just past it; anything else reports failure, with the cursor on that character. |
| Bref2Parser.Parser.ParseArrayNode | bref-2/parser.py:97-120 | The method returns the bracket-array reading. |
| Bref2Parser.Parser.ParseArrayItems | bref-2/parser.py:106-117 | The `while True` loop returns the element-loop reading. |
| Bref2Parser.Parser.ArrayRound | bref-2/parser.py:107-117 | One round either fails the array, continues after ',', or ends at ']'. |
| Bref2Materializer.KeyValueItems | bref-2/materializer.py:46 | Every kept item is a key/value item. |
| Bref2Materializer.PositionalItems | bref-2/materializer.py:47 | No kept item is a key/value item. |
| Bref2Materializer.BuildAll | bref-2/materializer.py:25-30 | A successful build gives one built child per child. |
| Bref2Materializer.ValueField | bref-2/materializer.py:157-164 | A None value writes no key. A bare field takes the value as it is. No other key changes, and a None value or a bare field never fails. |
| Bref2Materializer.BuildAllParts | bref-2/materializer.py:25-30 | The built child k is the build of child k, and the first failure fails the whole. |
| Bref2Materializer.ArrayElementwise | bref-2/materializer.py:12-26 | An array is built child by child against its own annotation, or else the inherited type, and keeps its length. |
| Bref2Materializer.UntypedListIsList | bref-2/materializer.py:29-30 | A brace list with no type becomes a Python list of its children, so a key/value child fails the build. |
| Bref2Materializer.PrimitiveBuild | bref-2/materializer.py:14-21 | A string naming a value list becomes that list, or the object mapped through the expected type's schema. Every other primitive comes back unchanged. |
| Bref2Materializer.ResolveSchema | bref-2/materializer.py:36-41 | An inline schema is returned as it is. A name resolves only when declared, and is a ParseError otherwise. |
| Bref2Materializer.KeyValueKeys | bref-2/materializer.py:55-57 | The key/value loop writes exactly the keys of its items. |
| Bref2Materializer.KeyValueOnly | bref-2/materializer.py:49-53 | A list of key/value items only is mapped by the key/value loop alone, so the schema plays no part. Its keys are exactly the items' keys. |
| Bref2Materializer.PositionalBeyondSchema | bref-2/materializer.py:61-62 | Once the schema is used up, further positional items change nothing. |
| Bref2Materializer.ExtraItemsDropped | bref-2/materializer.py:59-95 | Positional items past the schema's length are dropped. |
| Bref2Materializer.LiteralPayloadWins | bref-2/materializer.py:83-90 | A field whose payload is a literal, or a string naming no type, takes its payload whatever item fills it, a value or `.`. |
| Bref2Materializer.PositionalKeys | bref-2/materializer.py:61-95 | The positional loop writes only the names of the fields it reaches. |
| Bref2Materializer.TrailingKeys | bref-2/materializer.py:97-110 | The loop over unreached fields keeps every key, and adds only keys of keyed fields. |
| Bref2Materializer.FinalKeys | bref-2/materializer.py:112-124 | The last loop keeps every key, adds only keyed fields, and leaves every literal-payload field present. |
| Bref2Materializer.MapListKeys | bref-2/materializer.py:43-126 | The object holds only these keys: the keys of key/value items, the names of fields reached by positional items, and the keys of keyed fields. |
| Bref2Materializer.BareFieldAbsent | bref-2/materializer.py:97-110 | A bare field that no item reaches or names is absent from the object, not written as None. |
| Bref2Materializer.KeyValueInItems | bref-2/materializer.py:46 | Every kept key/value item comes from the items. |
| Bref2Materializer.LiteralFieldPresent | bref-2/materializer.py:112-117 | Unless the list holds key/value items only, every literal-payload field is present. |
| Bref2Materializer.FillFieldWrites | bref-2/materializer.py:63-94 | A positional item writes the same value under its field's name whatever the object already holds, and changes no other key. |
| Bref2Materializer.PositionalKeep | bref-2/materializer.py:59-95 | The positional loop leaves alone a key that no remaining field names. |
| Bref2Materializer.PositionalValue | bref-2/materializer.py:59-95 | Positional item k within the schema fills field k: the loop succeeds only if that filling does, and the field keeps the value it writes. |
| Bref2Materializer.TrailingKeep | bref-2/materializer.py:97-110 | The loop over unreached fields leaves alone a key that none of them names. |
| Bref2Materializer.FinalKeep | bref-2/materializer.py:112-124 | The last loop leaves every present key with its value. |
| Bref2Materializer.PositionalMapping | bref-2/materializer.py:43-126 | With distinct field names, positional child k (k within the schema) maps to field k: the mapping succeeds only if filling field k with it does, and field k's name then holds the value that filling writes (the child built against the payload, a literal or unregistered string payload, or for `.` None or the default object), whatever key/value items and later fields did. |
| Bref2Materializer.CreateDefaultShape | bref-2/materializer.py:128-150 | An undeclared name gives None. A default object is None rather than empty, and holds only keys of keyed fields. |
| Bref2Materializer.ValueListFields | bref-2/materializer.py:152-165 | Field i is written exactly when the list holds a non-None value at place i. A bare field takes that value as it is. |
| Bref2Materializer.ValueListKeySet | bref-2/materializer.py:154-164 | The loop adds one key per field whose value is not None. |
| Bref2Materializer.ValueListBare | bref-2/materializer.py:162-164 | A bare field i with a non-None value ends with that value. |
| Bref2Materializer.ValueListKeeps | bref-2/materializer.py:154-164 | A key that no remaining field names is left alone. |
| Bref2Materializer.CreateDefaultObject | bref-2/materializer.py:128-150 | The loop over the schema computes the default object, recursing through type references. |
| Bref2Materializer.MapValueListToObject | bref-2/materializer.py:152-165 | The enumerate loop computes the value-list mapping. |
| Bref2Materializer.MapListToObject | bref-2/materializer.py:43-126 | The four loops in sequence compute the list-to-object mapping, whose keys `MapListKeys` bounds and whose positional values `PositionalMapping` gives. |
| Bref2Materializer.KeyValueLoop | bref-2/materializer.py:55-57 | The loop writes `build(value)` under each item's key. |
| Bref2Materializer.PositionalLoop | bref-2/materializer.py:59-95 | The loop fills fields in order. `schema_idx` stops at min(items, fields). |
| Bref2Materializer.CompleteFields | bref-2/materializer.py:97-124 | The trailing loop, then the keyed-field loop. |
| Bref2Materializer.FillItem | bref-2/materializer.py:63-94 | One positional item goes into one field, with the default-marker and payload branches. |
| Converter.BuildAll | bref/converter.py:275-282 | A successful build gives one built child per child. |
| Converter.ValueField | bref/converter.py:358-365 | A bare field takes the value as it is, None included. A keyed field takes it built against the payload, and fails exactly when that build fails. The field's key is added, and no other key changes. |
| Converter.MarkerSpellings | bref/converter.py:66-69 | `.` reads as the string "DEFAULT", and so does a string literal decoding to it. The two cannot be told apart. |
| Converter.ArrayElementwise | bref/converter.py:272-277 | Arrays are built element-wise against the effective type and keep their length. |
| Converter.UntypedListIsList | bref/converter.py:279-282 | An untyped brace list is a Python list of its children, and a key/value child fails it. |
| Converter.ItemsKeys | bref/converter.py:296-349 | The item loop adds exactly the key/value keys and the schema keys from `schema_idx` on. Extra positional items add nothing. |
| Converter.EveryFieldPresent | bref/converter.py:336-349 | Every schema key and every key/value key is present, and nothing else. |
| Converter.TrailingGet | bref/converter.py:337-347 | An unreached field ends with its marker value: a literal or string payload, or None. |
| Converter.ItemsKeep | bref/converter.py:300-334 | The item loop leaves alone a key that no later key/value item and no later field writes. |
| Converter.PositionalAtIndex | bref/converter.py:305-329 | The k-th positional item is the k-th element of the filtered items. |
| Converter.FieldMappingFrom | bref/converter.py:305-329 | From any point of the loop, field i ends with the filling of the positional item that reaches it: untyped for a bare field, built against the payload for a keyed one, the marker value for `.`. |
| Converter.FieldMappingKeyValue | bref/converter.py:301-304 | When the next item is a key/value item, field i still ends with the filling of the positional item that reaches it. |
| Converter.FieldMappingPositional | bref/converter.py:305-329 | When the next item is positional and fills the field at `schema_idx`, field i still ends with the filling of the positional item that reaches it. |
| Converter.FieldMappingFills | bref/converter.py:313-329 | The positional item at the head of the loop is the one that lands in field `schema_idx`: when the mapping succeeds, that field holds its filling. |
| Converter.FieldMappingOnward | bref/converter.py:313-329 | A positional item ahead of the one that reaches field i fills an earlier field, and field i still ends with the filling of the positional item that reaches it. |
| Converter.ItemsFromPositional | bref/converter.py:313-329 | A positional item at the head of the loop either fails the mapping (its filling fails) or fills field `schema_idx` and the loop goes on at the next field. |
| Converter.FieldMappingHere | bref/converter.py:305-329 | Once written, a field keeps its value through the remaining items. |
| Converter.FieldMapping | bref/converter.py:296-349 | The k-th positional item fills field k. Fields past the items get their literal payload or None. |
| Converter.LaterKeyWinsFrom | bref/converter.py:300-304 | Of two key/value items with the same key, the later one wins. |
| Converter.LaterKeyWins | bref/converter.py:300-304 | A key/value item whose key no later item repeats and no schema field names ends in the object with its untyped build. |
| Converter.LaterKeyWinsHere | bref/converter.py:300-304 | A key/value item at the head of the loop, whose key no later item and no schema field writes, ends with its untyped build. |
| Converter.ExtraItemsDropped | bref/converter.py:330-334 | Once the schema is used up, positional items are dropped and only key/value items still count. |
| Converter.ValueListFields | bref/converter.py:351-366 | Every field gets a key. A bare field gets the value at its place, None past the end. A keyed field gets the value built against the payload. |
| Converter.ValueListKeySet | bref/converter.py:354-365 | Every field from j on gets a key. |
| Converter.ValueListField | bref/converter.py:354-365 | Field i ends with the value at place i: as it is for a bare field, built otherwise. |
| Converter.ValueListKeeps | bref/converter.py:354-365 | A key that no remaining field names is left alone. |
| Converter.MapListToObject | bref/converter.py:296-349 | The item loop and then the trailing loop compute the mapping. |
| Converter.TakeItem | bref/converter.py:300-334 | One item writes its key, fills the field at `schema_idx`, or changes nothing. |
| Converter.FillTrailing | bref/converter.py:337-347 | The `while` loop gives each unreached field its marker value. |
| Converter.DefaultFieldValue | bref/converter.py:313-321 | A keyed field with a scalar payload gets the payload. A nested or bare field gets None. |
| Converter.MapValueListToObject | bref/converter.py:351-366 | The enumerate loop computes the value-list mapping. |
| Converter.ParseBref | bref/converter.py:371-383 | Extract, then parse from the first value, then materialise with no expected type. Text after the root value is skipped without being read. |
| BrefPyDeclarations.ColonAfterKey | bref-py/parser.py:104-105 | In `k:rest` where `k` has no ':', the first ':' is the one after `k`. |
| BrefPyDeclarations.FieldRoundTrip | bref-py/parser.py:104-117 | A written field reads back as itself: `k:t[]` as an array field, `k:t` as an object field, a bare name as its name. |
| BrefPyDeclarations.FieldsOfParts | bref-py/parser.py:100-117 | There is one field per part, in order. |
| BrefPyDeclarations.FieldsOfPieces | bref-py/parser.py:89-117 | There is at most one field per piece. |
| BrefPyDeclarations.PieceField | bref-py/parser.py:90-103 | A piece gives at most one field. |
| BrefPyDeclarations.FieldsOfPiecesSnoc | bref-py/parser.py:89-117 | One more piece appends its field, if any, at the end. |
| BrefPyDeclarations.SchemaFieldsOf | bref-py/parser.py:77-119 | A schema has at most one field more than its body has commas. |
| BrefPyDeclarations.SchemaFieldsParts | bref-py/parser.py:84-119 | There is one field per non-blank part of the body split on every comma, in order. Nesting is ignored. |
| BrefPyDeclarations.ParseSchemaFields | bref-py/parser.py:77-119 | The placeholder loop and the field loop compute the schema reading. |
| BrefPyDeclarations.ReadPieces | bref-py/parser.py:90-117 | The loop over the pieces computes their fields. |
| BrefPyDeclarations.KeptLine | bref-py/parser.py:132-143 | What one line keeps is non-empty, stripped and no declaration. |
| BrefPyDeclarations.KeptOf | bref-py/parser.py:132-149 | Every kept line is non-empty, stripped and no declaration. |
| BrefPyDeclarations.ParseTypeDefinitions | bref-py/parser.py:122-149 | The line loop computes the declarations and the remaining text. |
| BrefPyDeclarations.DefinedIffDeclared | bref-py/parser.py:137-141 | A name is registered exactly when some line declares it. |
| BrefPyDeclarations.LastDeclarationWins | bref-py/parser.py:137-141 | A name's schema is the one its last declaration gives. |
| BrefPyParser.SegmentsOf | bref-py/parser.py:46-74 | There is at least one segment, and no segment is longer than the text. |
| BrefPyParser.SimpleValueOf | bref-py/parser.py:308-350 | Every result is a scalar, so a braced or bracketed text never becomes a dict or a list. The only failure is a number text that Python refuses. |
| BrefPyParser.WrappedIsStripped | bref-py/parser.py:364-366 | A text wrapped in non-space delimiters is its own strip. |
| BrefPyParser.CoreShrinks | bref-py/parser.py:361-366 | Unwrapping a wrapped core gives a shorter text, which bounds the recursion. |
| BrefPyParser.UnwrapShrinks | bref-py/parser.py:364-366 | Unwrapping without an annotation gives a shorter text. |
| BrefPyParser.ValueOf | bref-py/parser.py:152-197 | The chain of `parse_value` fails only on a number text that Python's `int()` or `float()` refuses. `parse_value_iterative` (lines 200-245) has the same body. |
| BrefPyParser.ExtractWithin | bref-py/parser.py:541-560 | Removing an annotation keeps the segment within the length bound. |
| BrefPyParser.Annotated | bref-py/parser.py:402-404 | Every segment with its annotation taken off, in order, one for each segment. |
| BrefPyParser.ObjectOf | bref-py/parser.py:353-451 | `parse_object` fails only on a number text that Python refuses. |
| BrefPyParser.ArrayOf | bref-py/parser.py:454-502 | `parse_array` fails only on a number text that Python refuses. |
| BrefPyParser.WithSchemaOf | bref-py/parser.py:563-611 | `parse_object_with_schema` fails only on a number text that Python refuses. |
| BrefPyParser.SkipBlank | bref-py/parser.py:388-393 | The blank skipping stops at a segment at or after where it started. |
| BrefPyParser.TypedPlan | bref-py/parser.py:384-430 | Every pair the typed loop makes names a field from i on and a segment from `next` on. |
| BrefPyParser.SchemaPlan | bref-py/parser.py:574-581 | Every pair names a field and the segment of the same index. |
| BrefPyParser.FillPlan | bref-py/parser.py:402-428 | Writing the pairs in order fails only on a number text that Python refuses. |
| BrefPyParser.FieldValueOf | bref-py/parser.py:405-428 | A field's value fails only on a number text that Python refuses. |
| BrefPyParser.UntypedFill | bref-py/parser.py:433-449 | The untyped loop fails only on a number text that Python refuses. |
| BrefPyParser.EntryOf | bref-py/parser.py:437-449 | One untyped entry fails only on a number text that Python refuses. |
| BrefPyParser.ArrayFill | bref-py/parser.py:473-500 | The element loop fails only on a number text that Python refuses. |
| BrefPyParser.ElementOf | bref-py/parser.py:477-500 | One element fails only on a number text that Python refuses. |
| BrefPyParser.DataWithTypeOf | bref-py/parser.py:505-516 | The result is ValueError exactly when the type is unregistered. A registered type fails only on a number text that Python refuses. |
| BrefPyParser.IterateSegments | bref-py/parser.py:46-74 | The buffer-and-depth generator computes the segments. |
| BrefPyParser.SplitByDelimiters | bref-py/parser.py:14-43 | The same scan computes exactly the non-blank segments. |
| BrefPyParser.KeptAtCut | bref-py/parser.py:29-35 | At a cut, the stripped buffer, unless blank, comes before the later segments. |
| BrefPyParser.ParseNestedIterative | bref-py/parser.py:248-305 | The work-stack loop always returns `parse_simple_value` of the text. |
| BrefPyParser.ParseObject | bref-py/parser.py:353-451 | The statements of `parse_object` compute the object reading. |
| BrefPyParser.SkipBlanks | bref-py/parser.py:388-393 | The `while` loop computes the blank skipping. |
| BrefPyParser.TypedPlanBlank | bref-py/parser.py:395-396 | When a field's segment is still blank after the skipping, the field is left out of the plan. |
| BrefPyParser.TypedPlanFilled | bref-py/parser.py:386-430 | When a field's segment is not blank, the field is paired with it, ahead of the rest of the plan. |
| BrefPyParser.FillPlanCons | bref-py/parser.py:402-428 | The first pair's value either fails the object or is written before the rest. |
| BrefPyParser.WriteField | bref-py/parser.py:402-428 | The annotation is removed, then the field's value is written or its error ends the loop. |
| BrefPyParser.TypedRound | bref-py/parser.py:385-430 | One field's round skips blanks and writes a non-blank segment. |
| BrefPyParser.TypedLoop | bref-py/parser.py:379-430 | The generator loop computes the typed pairing and fill. |
| BrefPyParser.UntypedLoop | bref-py/parser.py:433-449 | The loop computes the untyped fill. |
| BrefPyParser.ParseArray | bref-py/parser.py:454-502 | The statements compute the array reading. |
| BrefPyParser.ParseObjectWithSchema | bref-py/parser.py:563-611 | The statements compute the schema reading, stopping when the segments run out. |
| BrefPyProperties.SegmentCount | bref-py/parser.py:46-74 | There is one more segment than there are depth-zero commas. |
| BrefPyProperties.SplitPartsClean | bref-py/parser.py:14-43 | No part is empty, and every part is already stripped. |
| BrefPyProperties.WrappedIsNotScalarText | bref-py/parser.py:168-189 | A braced or bracketed text is no keyword, quoted string, number or identifier. |
| BrefPyProperties.ValueIsSimpleIff | bref-py/parser.py:308-350 | `parse_value` and `parse_simple_value` agree exactly on the texts that are neither braced nor bracketed. |
| BrefPyProperties.PlanKeysInSchema | bref-py/parser.py:405-428 | A plan writes only the schema's keys. |
| BrefPyProperties.TypedObjectKeys | bref-py/parser.py:379-430 | With a registered type, `parse_object` writes only that schema's keys, each once. |
| BrefPyProperties.TypedPlanOrdered | bref-py/parser.py:384-430 | Fields are written in schema order, each from a later segment than the one before. |
| BrefPyProperties.TypedPlanReadsFilled | bref-py/parser.py:395-396 | A field is left unset rather than read from a blank segment. |
| BrefPyProperties.SchemaPlanFields | bref-py/parser.py:574-581 | The fields written are exactly those with a non-blank segment of their own. |
| BrefPyProperties.WithSchemaKeys | bref-py/parser.py:572-611 | Field k is written exactly when segment k exists and is not blank, each once. |
| BrefPyProperties.ArrayCount | bref-py/parser.py:472-502 | There is one element per non-empty top-level segment. |
| BrefPyProperties.ArrayFillCount | bref-py/parser.py:473-500 | A successful element loop gives as many elements as there are non-empty segments left. |
| BrefPyProperties.FillPlanDistinct | bref-py/parser.py:402-428 | Filling fields into a dict with distinct keys keeps the keys distinct. |
| BrefPyProperties.UntypedFillDistinct | bref-py/parser.py:433-449 | The untyped loop never leaves a repeated key: a repeated key overwrites in place. |
| BrefPyProperties.EntryKeyed | bref-py/parser.py:440-447 | A `k: v` entry is keyed by the stripped text before its first ':'. |
| BrefPyProperties.EntryPositional | bref-py/parser.py:448-449 | An entry that is not `k: v` is keyed `field_<size>`, and fails exactly when its value fails. |
| BrefPyProperties.IdentifierValueIsAnnotation | bref-py/parser.py:437-449 | `k: name` with an identifier value loses `name` as an annotation and becomes a positional `k`. |
| Segments.PiecesFromStep | bref-py/parser.py:55-66 | A cut emits and empties the buffer, and any other character joins it. |
| Segments.PiecesFrom | bref-py/parser.py:55-74 | There is at least one piece, and no piece is longer than the buffer plus the text left. |
| Segments.Pieces | bref-py/parser.py:55-74 | There is at least one piece, and no piece is longer than the text. |
| Segments.NonEmptyCount | bref-py/parser.py:29-35 | Filtering keeps exactly as many pieces as are not empty. |
| Segments.PiecesFromJoin | bref-py/parser.py:55-66 | Joined back with commas, the pieces give the text. |
| Segments.PiecesCount | bref-py/parser.py:55-74 | There is one more piece than there are cuts. |
| Segments.PiecesFromCount | bref-py/parser.py:55-74 | From any position, there is one more piece than there are cuts still ahead. |
| Trailing.SkipSpace | bref-py/parser.py:548 | A `\s*` run passes over whitespace only, and stops at the end or at a non-space character. |
| Trailing.FirstInline | bref-py/parser.py:548 | The leftmost ':' where an inline schema matches, if any. |
| Trailing.FirstTypeName | bref-py/parser.py:555 | The leftmost ':' where a type name matches, if any. |
| Trailing.ExtractTrailingType | bref-py/parser.py:541-560 | With no annotation, the stripped segment is returned. With one, the core is shorter than the stripped segment. |
| Trailing.ExtractPrefersInline | bref-py/parser.py:546-560 | A type name is taken only where no inline schema matches, and with neither pattern there is no annotation. |
| Trailing.TypeNameAfterCore | bref-py/parser.py:555-559 | In `core: Name`, only the ':' after the core matches. |
| Trailing.NoTypeNameBefore | bref-py/parser.py:555 | No type name matches at a ':' inside the core when the text after the core starts with ':'. |
| Trailing.NoInlineBefore | bref-py/parser.py:548 | No inline schema matches at a ':' inside a core that holds no ':'. |
| Trailing.TypeNameRoundTrip | bref-py/parser.py:555-559 | Extracting from `core: Name` gives back the core and the name. |
| Trailing.InlineRoundTrip | bref-py/parser.py:548-553 | Extracting from `core: { body }` gives back the core and the schema of the body. |
| Trailing.FindTypeAnnotation | bref/parser.py:170-189 | As written: with no type name found, the text comes back unchanged. |
| Trailing.TypeAnnotationOf | bref/parser.py:170-189 | Corrected: with no type name found, the text comes back unchanged. |
| Trailing.TypeAnnotationRoundTrip | bref/parser.py:176-180 | `core: Name` splits into the core and the name. |
| Trailing.TypeAnnotationIgnoresPadding | bref/parser.py:176-180 | Surrounding whitespace does not change the corrected reading. |
| Trailing.LeadingSpaceLosesCore | bref/parser.py:179 | On `" x: T"` the source's reading gives core `""`, where the corrected one gives `x`. |
| BrefParser.PartsOf | bref/parser.py:59-76 | No part is longer than the text, which bounds the recursion through nested values. |
| BrefParser.ValueOf | bref/parser.py:10-47 | `parse_value` fails only on a number text that `int()` or `float()` refuses. |
| BrefParser.EntriesOf | bref/parser.py:99-107 | The untyped loop fails only on a number text that Python refuses. |
| BrefParser.EntryOf | bref/parser.py:101-107 | One untyped entry fails only on a number text that Python refuses. |
| BrefParser.ValuesOf | bref/parser.py:83 | The value list fails only on a number text that Python refuses. |
| BrefParser.ObjectOf | bref/parser.py:50-109 | `parse_object` fails only on a number text that Python refuses. |
| BrefParser.ElementOf | bref/parser.py:143-151 | One element fails only on a number text that Python refuses. |
| BrefParser.ElementsOf | bref/parser.py:141-153 | The element loop fails only on a number text that Python refuses. |
| BrefParser.ArrayOf | bref/parser.py:112-153 | `parse_array` fails only on a number text that Python refuses. |
| BrefParser.DataWithTypeOf | bref/parser.py:156-167 | The result is ValueError exactly when the type is unregistered. A registered type fails only on a number text that Python refuses. |
| BrefParser.CollectParts | bref/parser.py:60-76 | The buffer-and-counter loop computes the parts. |
| BrefParser.ScanParts | bref/parser.py:64-73 | After the character loop, the cut parts plus the rest of the buffer give every piece. |
| BrefParser.ScanChar | bref/parser.py:65-73 | One character keeps that invariant. |
| BrefParser.PartsStep | bref/parser.py:69-73 | A cut moves the stripped buffer to the parts, and any other character joins the buffer. |
| BrefParser.PartsOfEnd | bref/parser.py:75-76 | At the end, the stripped buffer is added unless it is blank. |
| BrefParser.FillTyped | bref/parser.py:85-96 | The enumerate loop computes the typed fill. |
| BrefParser.FillUntyped | bref/parser.py:99-107 | The loop computes the untyped fill. |
| BrefParser.ParseObject | bref/parser.py:50-109 | The statements compute the object reading. |
| BrefParser.ParseArray | bref/parser.py:112-153 | The statements compute the array reading. |
| BrefProperties.NotKeyword | bref/parser.py:17-25 | A text not starting with a letter is no keyword. |
| BrefProperties.KeywordsAnyCase | bref/parser.py:17-25 | Example: `NULL`, `True` and `fAlSe` read as None, true and false: letter case does not matter. |
| BrefProperties.IntTextReads | bref/parser.py:28-31 | `str(i)` passes the number test, and `int()` reads `i` back from it. |
| BrefProperties.IntRoundTrip | bref/parser.py:28-31 | A printed int reads back as that int. |
| BrefProperties.QuotedRoundTrip | bref/parser.py:34-35 | A quoted text reads back as its inner text, with no escape processing. |
| BrefProperties.QuotedShape | bref/parser.py:15-35 | A quoted text is stripped, is no keyword and is not number-shaped. |
| BrefProperties.ValueOfQuoted | bref/parser.py:34-35 | The quoted branch returns the inner text. |
| BrefProperties.MinusInsideFails | bref/parser.py:28-31 | `1-2` passes the test, and `int()` refuses it. |
| BrefProperties.PiecesBracesOnly | bref/parser.py:64-73 | Example: when only braces nest, the comma inside `[1,2]` is a cut. |
| BrefProperties.PiecesWithBrackets | bref/parser.py:126-135 | Example: when brackets nest too, there is no cut. |
| BrefProperties.ObjectsSplitInsideBrackets | bref/parser.py:59-76 | An object's text is cut inside brackets, where an array's is not. |
| BrefProperties.ValuesOfMap | bref/parser.py:83 | There is one value per non-blank part, in order, each the plain value of its part. |
| BrefProperties.TypedFillKeys | bref/parser.py:85-96 | The typed loop writes the keys of the first min(fields, values) fields, and no other. |
| BrefProperties.TypedFillZipped | bref/parser.py:85-96 | Starting from the first pairs, the typed loop ends with field k holding value k for every k below min(fields, values). |
| BrefProperties.TypedObjectFields | bref/parser.py:80-96 | With a registered type, field i gets the i-th non-blank part's value, for the first min(fields, values) fields. |
| BrefProperties.TypedObjectKeys | bref/parser.py:80-96 | A typed object holds exactly the first min(fields, values) field keys. |
| BrefProperties.EntryRoundTrip | bref/parser.py:101-104 | `k:v` with a clean key reads back as the entry (k, value of v). |
| BrefProperties.EntryPositional | bref/parser.py:105-107 | A part with no ':', or starting with '"', is keyed `field_<size>`. |
| BrefProperties.EntriesDistinct | bref/parser.py:99-107 | The untyped loop never leaves a repeated key: a repeated key overwrites in place. |
| BrefProperties.ElementsOfMap | bref/parser.py:141-151 | There is one element per non-blank part, in order. |
| BrefProperties.ArrayElements | bref/parser.py:112-153 | There is one element per non-blank part cut outside braces and brackets. |
| BrefProperties.ElementTypedOnlyWhenBraced | bref/parser.py:144-151 | Only a braced element of a registered type is typed. |
| RsUtils.Next | src/utils.rs:8-25 | Without string awareness, a scan that starts outside strings never enters one. |
| RsUtils.FirstSimpleColonFrom | src/utils.rs:3-27 | Any colon found lies at or after the start, within the text. |
| RsUtils.FirstSimpleColonIsFirst | src/utils.rs:3-27 | The result is the first simple colon, and none is returned only when there is none. |
| RsUtils.FirstSimpleColonFromIsFirst | src/utils.rs:3-27 | From any position, the search finds the first simple colon at or after it, and finds none only when there is none. |
| RsUtils.FindSimpleColon | src/utils.rs:3-27 | The flag loop computes the first simple colon. |
| RsUtils.LastMainColonBefore | src/utils.rs:50-78 | Any colon found lies before the bound. |
| RsUtils.LastMainColonBeforeIsLast | src/utils.rs:50-78 | The result is the last main colon, and none is returned only when there is none. |
| RsUtils.FindMainColon | src/utils.rs:50-78 | The counter loop computes the last main colon. |
| RsUtils.CheckKeyValuePairs | src/utils.rs:29-48 | The result is true exactly for a non-empty, even-length sequence whose every even item is a word string of at most 20 characters. |
| RsUtils.ParseI64 | src/utils.rs:94-96 | The parse succeeds exactly on an integer text within the i64 range, and gives its value. |
| RsUtils.PrimitiveOf | src/utils.rs:80-108 | The only error is a panic. |
| RsParser.TrimAll | src/parser.rs:49 | Every piece trimmed. |
| RsParser.ParseField | src/parser.rs:61-94 | The only error is a panic. |
| RsParser.FieldsFrom | src/parser.rs:48-55 | The only error is a panic. |
| RsParser.FieldsFromCons | src/parser.rs:48-55 | One more text adds its field first. |
| RsParser.FieldTextsStep | src/parser.rs:48-50 | A piece contributes its trimmed text unless blank. |
| RsParser.ParseFields | src/parser.rs:45-58 | The loop computes the field list. |
| RsParser.TypeDefinitionOf | src/parser.rs:27-42 | A line with no space after ':' is no definition. A name never holds a space. Only a panic is an error. |
| RsParser.DefinitionsOf | src/parser.rs:9-21 | Reading lines only adds keys, and the only error is a panic. |
| RsParser.DefinitionLineOf | src/parser.rs:10-20 | One line only adds keys, and the only error is a panic. |
| RsParser.ParseTypeDefinitions | src/parser.rs:6-24 | The insertion loop computes the definitions. |
| RsParser.ItemPiecesStep | src/parser.rs:150-181 | A clean comma ends the piece, and any other character joins it. |
| RsParser.ItemTexts | src/parser.rs:144-263 | Every item text is non-empty and fits within the content. |
| RsParser.SplitArrayItems | src/parser.rs:144-189 | The counter loop computes the array item texts. |
| RsParser.SplitObjectItems | src/parser.rs:192-263 | The string-aware loop computes the object item texts. |
| RsParser.HandOn | src/parser.rs:183-186 | The buffer, trimmed and unless blank, joins the texts. |
| RsParser.DataOf | src/parser.rs:103-141 | `parse_data` fails only with its own error messages or a panic. |
| RsParser.ArrayItemsOf | src/parser.rs:144-189 | Reading the array items fails only with the parser's messages or a panic. |
| RsParser.ObjectItemsOf | src/parser.rs:192-263 | Reading the object items fails only with the parser's messages or a panic. |
| RsParser.TypedValueOf | src/parser.rs:266-369 | A typed value is an object or an array. It fails only with the parser's messages or a panic. |
| RsParser.TypedObjectOf | src/parser.rs:330-368 | Items that all form key/value pairs are kept as one object, as they are. Every success is an object. |
| RsParser.TypedElements | src/parser.rs:275-321 | A successful typed array has one element per remaining item. |
| RsParser.NamedObject | src/parser.rs:341-368 | Naming fails only with the parser's messages or a panic. |
| RsParser.NamedPairs | src/parser.rs:346-354 | Naming the fields fails only with the parser's messages or a panic. |
| RsParser.TrailingPairs | src/parser.rs:357-366 | The copied trailing items come in pairs. |
| RsParser.TrailingPairsRun | src/parser.rs:357-366 | The trailing pairs are the longest run that pairs a string with the item after it. |
| RsParser.FieldTyped | src/parser.rs:372-507 | `apply_field_type` fails only with its own messages or a panic. |
| RsParser.ElementsNamed | src/parser.rs:459-495 | A successful element loop gives one element per remaining item. |
| RsParser.ParseArrayItems | src/parser.rs:144-189 | The split then the item loop compute the array items. |
| RsParser.ParseArrayTexts | src/parser.rs:170-186 | The parse loop computes the items. |
| RsParser.ObjectItemsStep | src/parser.rs:235-242 | One more item gives its key and value, or its one value, then the rest. |
| RsParser.ParseObjectItems | src/parser.rs:192-263 | The split then the item loop compute the object items. |
| RsParser.ParseObjectTexts | src/parser.rs:233-259 | The parse loop computes the items. |
| RsParser.ObjectItemRound | src/parser.rs:235-242 | One item's round appends to the items. |
| RsParser.NamedPairsStep | src/parser.rs:346-354 | A field past the items adds nothing. Any other field adds its name and its typed item ahead of the rest, or fails with the typing error. |
| RsParser.NamedObjectOfPairs | src/parser.rs:341-368 | The named object is the named pairs followed by the trailing pairs from min(fields, items), and it fails exactly when the naming does. |
| RsParser.NameFields | src/parser.rs:341-368 | The field loop then the trailing loop compute the named object. |
| RsParser.CopyTrailingPairs | src/parser.rs:357-366 | The `while` loop computes the trailing pairs. |
| RsParser.TypeElements | src/parser.rs:275-321 | The typed-array loop computes the typed elements. |
| RsProperties.WordUnpadded | src/utils.rs:21 | A non-empty word is unpadded: trimming leaves it as it is. |
| RsProperties.StateAtPrefix | src/utils.rs:8-25 | The scan state depends only on the prefix. |
| RsProperties.WordScanIsClean | src/utils.rs:8-25 | Over a run of word characters, the scan stays in its start state. |
| RsProperties.EscapedCharChangesNothing | src/utils.rs:8-14 | Inside a string, a backslash and the character it escapes leave the scan state as it was, so an escaped quote does not close the string. The escaped character is never a colon either finder returns. |
| RsProperties.NoMainColonFrom | src/utils.rs:50-78 | With no main colon between two bounds, the search gives the same result from either bound. |
| RsProperties.AnnotationColon | src/utils.rs:50-78 | After a clean value, a ':' followed by colon-free text is the main colon. |
| RsProperties.KeyColon | src/utils.rs:3-27 | The key colon of `key: value` with a word key is the one after the key. |
| RsProperties.QuoteStartIsNotNumber | src/utils.rs:94-100 | A text starting with '"' is neither an i64 nor a float. |
| RsProperties.FloatTextHasNoColon | src/utils.rs:97-99 | A text holding a colon is no float text. |
| RsProperties.LoneQuotePanics | src/utils.rs:101-107 | `parse_primitive_value` panics exactly on a lone '"'. |
| RsProperties.QuotedReadsInner | src/utils.rs:101-105 | A quoted trimmed text reads as its inner text. |
| RsProperties.QuotedRoundTrip | src/utils.rs:101-105 | A quoted text reads as the string between the quotes. |
| RsProperties.IntTextIsInteger | src/utils.rs:94-96 | An integer's decimal text is an integer text of that value. |
| RsProperties.IntegerReadsAsInteger | src/utils.rs:94-96 | Every trimmed text that `parse::<i64>` accepts, with a '+' or '-' sign or none, reads as that integer. |
| RsProperties.IntRoundTrip | src/utils.rs:94-96 | The decimal text of every i64 reads back as it. |
| RsProperties.OverflowReadsAsFloat | src/utils.rs:94-99 | Digits beyond the i64 range fall through to the float reading. |
| RsProperties.KeywordsCaseSensitive | src/utils.rs:83-92 | `True` is a string. |
| RsProperties.KeywordsTrimmed | src/utils.rs:81-92 | Keywords are read after trimming. |
| RsProperties.WordHasNoMarks | src/parser.rs:65-78 | No word holds ':', '[' or a space. |
| RsProperties.ParseFieldShape | src/parser.rs:61-94 | The field panics exactly when the text has `[]` and its colon is among the last two characters. Otherwise it is an array field iff `[]` and ':', primitive iff no ':', and typed iff not primitive. |
| RsProperties.PrimitiveFieldRoundTrip | src/parser.rs:88-93 | A word is a primitive field of that name. |
| RsProperties.ColonAfter | src/parser.rs:65-78 | In `name:rest` where `name` has no ':', the colon sits right after `name`. |
| RsProperties.ObjectFieldRoundTrip | src/parser.rs:78-86 | `name:type` is an object field of that name and type. |
| RsProperties.ObjectFieldText | src/parser.rs:78-86 | `name:type` is trimmed and has no `[]`. Its first colon follows the name, and its two sides trim to the words. |
| RsProperties.ArrayFieldRoundTrip | src/parser.rs:65-74 | `name:type[]` is an array field of that name and element type. |
| RsProperties.ArrayFieldText | src/parser.rs:65-74 | `name:type[]` is trimmed and ends in `[]`. Its first colon follows the name, and the name and type trim to the words. |
| RsProperties.FieldsFromMatch | src/parser.rs:45-58 | A successful field list has one field per text, and field k is the reading of text k. |
| RsProperties.FieldsFromFails | src/parser.rs:45-58 | The field list fails exactly when some text panics. |
| RsProperties.DefinitionsSnoc | src/parser.rs:9-21 | Reading one more line applies that line's definition to the definitions so far. |
| RsProperties.LaterDeclarationWins | src/parser.rs:18 | A later declaration of a type replaces the earlier one. |
| RsProperties.NonDeclarationIgnored | src/parser.rs:12-16 | A line not starting with ':' changes nothing. |
| RsProperties.OneLine | src/parser.rs:9-21 | Reading a list of one line is reading that line. |
| RsProperties.DeclarationLine | src/parser.rs:16-20 | A declaration line inserts its definition under its name. |
| RsProperties.DeclarationShape | src/parser.rs:28-34 | In `:Name { body }`, the first space follows the name. |
| RsProperties.DeclarationRoundTrip | src/parser.rs:27-42 | `:Name { body }` declares Name with the fields of body. |
| RsProperties.DefinitionOfBraced | src/parser.rs:27-42 | `parse_type_definition` reads a space after the name, then a braced field list. |
| RsProperties.DataOfRegistered | src/parser.rs:108-115 | A registered annotation gives a typed value. |
| RsProperties.DataOfInline | src/parser.rs:117-122 | A braced annotation gives an inline-typed value. |
| RsProperties.DataOfPrimitive | src/parser.rs:139-140 | Otherwise, an unwrapped text is a primitive. |
| RsProperties.ColonTextIsString | src/parser.rs:103-140 | An unquoted text with a colon reads as a string. |
| RsProperties.RegisteredAnnotation | src/parser.rs:108-115 | `value:Type` is read against Type's schema. |
| RsProperties.InlineAnnotation | src/parser.rs:117-122 | `value:{ fields }` is read against the inline schema. |
| RsProperties.InlineShape | src/parser.rs:117-122 | `value:{ fields }` is trimmed. Its main colon follows the value, and what follows is the braced schema. |
| RsProperties.UnknownAnnotationIsText | src/parser.rs:103-140 | An unknown annotation is no error: the whole text is a string. |
| RsProperties.AnnotationShapeFacts | src/parser.rs:103-140 | A `word:word` text is neither bracketed nor braced. Its annotation is not braced, and it reads as a string primitive. |
| RsProperties.UnknownAnnotationAt | src/parser.rs:108-140 | A text of that shape whose annotation names no known type reads as a string. |
| RsProperties.AnnotatedWord | src/utils.rs:50-78 | `word:word` is trimmed. Its main colon is the one between the words, and it starts with a word character. |
| RsProperties.QuotedPieces | src/parser.rs:207-215 | Example: the object splitter keeps `"a,b"` whole. |
| RsProperties.UnquotedPieces | src/parser.rs:150-181 | Example: the array splitter cuts `"a,b"`. |
| RsProperties.CommaInStringDoesNotSplit | src/parser.rs:232 | Example: a comma inside a string does not split object items. |
| RsProperties.ArraySplitterIgnoresStrings | src/parser.rs:168-178 | The array splitter splits at every comma outside nesting. |
| RsProperties.PieceJoins | src/parser.rs:192-232 | A character that does not end the piece joins it, in the state after it. |
| RsProperties.PieceEnds | src/parser.rs:232 | A comma in a clean state ends the piece. |
| RsProperties.UnpaddedPiecesAreItems | src/parser.rs:250-256 | When every piece is unpadded, the pieces are the item texts as they are. |
| RsProperties.KeyedItem | src/parser.rs:235-239 | `key: value` gives the key string, then the value. |
| RsProperties.NamedPairsNames | src/parser.rs:346-354 | Field k names item k for every k below both lengths. |
| RsProperties.NamedPairsFails | src/parser.rs:348 | The naming fails exactly when typing one of its items fails. |
| RsProperties.NamedObjectShape | src/parser.rs:341-368 | Named pairs for k below min(fields, items), then the trailing pairs. Errors happen exactly when typing fails. |
| RsProperties.TypedObjectNamed | src/parser.rs:334-339 | A typed object that is not all pairs is the named object. |
| RsProperties.TypedElementsObjects | src/parser.rs:275-321 | A typed array succeeds only on objects, each typed. |
| RsProperties.NonObjectRejected | src/parser.rs:316-318 | The first non-object is the error "Array items must be objects...". |
| RsProperties.FieldTypedCopies | src/parser.rs:374-453 | A primitive or untyped field copies the value. |
| RsProperties.FieldTypedUnknown | src/parser.rs:448-450 | An unknown type is the error "Referenced ... not found". |
| RsProperties.FieldTypedKeepsShape | src/parser.rs:372-507 | The value keeps its shape, and an array keeps its length. |
| RsProperties.ElementsNamedMatch | src/parser.rs:461-493 | Object elements are named, and every other element is copied. |

## Left out

- **Command-line front ends.** `bref/cli.py` and `brefpy/cli.py` do file and console I/O and set exit codes.
- **Bindings.** The Python bindings of the Rust port (`src/conversion.rs`, `src/lib.rs`) construct foreign objects. The `bref-py/__init__.py` import shim is not modelled either.
- **Tests and benchmarks.** They read fixture files.
- **`bref/utils.py` is not part of this model.** `bref/converter.py` imports its declaration extractor; `Converter.ParseBref` uses the `bref-2/utils.py` extractor (`Bref2Utils.TypeDefinitionsOf`) in its place.
- **Schema field shape.** `bref-2/utils.py` builds 3-tuples `(key, payload, kind)` at lines 39, 43, 47, 52 and 55. The materializers unpack 2-tuples (`bref-2/materializer.py:67,83,114,137`), and the docstring at `bref-2/utils.py:15` describes 2-tuples.
  - Schema fields are modelled as `(key, payload)` pairs. The `ValueError` that unpacking a 3-tuple raises at run time is not modelled.
  - `bref-py/parser.py` fields keep their 3-tuple form, with a kind tag.
- **Floating point.** `float()` and Rust's `parse::<f64>` do not compute a binary64 value. A float keeps the text it was read from. Which texts Python's `float()` and `int()` accept over digits, '.' and '-' is modelled exactly.
- **JSON string decoding.** `json.loads` in `parse_string` decodes escapes as section 7 of RFC 8259 describes. It is a parameter of the parser, and only the scan to the closing quote is modelled.
- **Regular expressions.** The declaration and annotation patterns are modelled as explicit predicates over the line. Under those patterns, `[^}]*` and the anchors become conditions on where '}' and ':' may stand.
- **Character classes are ASCII.** Python's `isalpha`/`isdigit`/`isspace`/`lower` and Rust's `is_alphanumeric`/`trim` are Unicode-aware in the source.
- **Rust index arithmetic.** Rust byte offsets are modelled as character indices, which agree on ASCII text.
  - Rust slice panics are an `RsPanic` error outcome, as in the lone-quote case.
  - `parse_field` and `parse_type_definition` return `Option`; the model returns a `Result` that can also carry a panic.
  - `i32` counters are unbounded integers.
- **Rust `lines()`** is modelled as a split at '\n'. A trailing '\r' is trimmed anyway.
- **Python `splitlines()`** is modelled as a split at line-break characters. The difference is only extra blank lines, which the extractors skip.
- **Rust item loops.** `parse_array_items` and `parse_object_items` parse each item as soon as it is cut. The model cuts all item texts first and then parses them in order. The result and the first error are the same, because parsing an item does not affect the scan.
- **Generators.** `iterate_segments` is modelled as the full list it yields. `parse_object` pulls it lazily, and the segments it never pulls do not affect the result.
- **Recursion bounds.** Two recursions are not structural and take a `fuel` bound: `_create_default_object` following type references, and a value-list element that names a value list. Exhausted fuel is an error outcome, where the source would recurse until Python's recursion limit on cyclic declarations.
- **Python identity checks.** `isinstance` checks on values the model types statically (such as `isinstance(item, Node)`) are modelled as always true.
- Bref2Parser.ValueAt: only the progress bounds are stated on the function. Its reading is stated by the lemmas listed in the table above.
- RsParser.DataOf: the function's own contract states nothing beyond its definition. Its cases are stated by the RsProperties lemmas listed in the table above.
- MapListToObject: `PositionalMapping` gives field k's value only when filling field k writes something. A `.` item for a field whose registered type has a None default writes nothing, and the field then keeps an earlier key/value item's value or a later loop's value. That case is bounded only by `MapListKeys`.

## Findings

| source | as written | input that shows it | evidently intended | confidence | as-written member | corrected member |
|---|---|---|---|---|---|---|
| bref/parser.py:176-179 (and bref-py/parser.py:525-528) | The annotation is searched in `data_str.strip()`, but the match position cuts the unstripped `data_str`. | `" x: T"`: the match starts at 1 in `"x: T"`, so the core is `" x: T"[:1].strip() == ""`. | The core `x`, found by cutting the stripped text. | high, not executed | Trailing.FindTypeAnnotation, Trailing.LeadingSpaceLosesCore | Trailing.TypeAnnotationOf, Trailing.TypeAnnotationRoundTrip |
