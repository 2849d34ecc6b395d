/**
 * Outcomes shared by every variant: an optional value, and a result that is
 * either a value or one of the errors the engines raise (Python exceptions,
 * Rust `Err` strings, and Rust panics).
 */
module Base {

  datatype Option<+T> = None | Some(value: T)

  /** Every way a call into one of the engines can fail. */
  datatype Error =
    // Python `ParseError` raised by the cursor parsers
    | UnexpectedEnd                                  // end of input where a value is expected
    | UnexpectedChar(c: char, at: nat)               // no value starts with this character
    | ListUnexpectedChar(found: string, at: nat)     // neither ',' nor '}' after a `{...}` item
    | ArrayUnexpectedChar(found: string, at: nat)    // neither ',' nor ']' after a `[...]` item
    | TypeNameExpected                               // end of input where a type name is expected
    | BadTypeNameStart(start: char)                  // a type name that does not start with a letter or '_'
    | SchemaExpected                                 // `read_braced` not at '{'
    | UnclosedBrace                                  // `read_braced` ran off the end
    | UnknownType(name: string)                      // a type annotation naming no declared schema
    | LiteralAsType                                  // a bool, number or string literal used where a type is expected
    | UnknownNodeKind                                // a `default` or `key_value` node built as a value
    // Python `ValueError`
    | BadString(literal: string)                     // the JSON decoder refused a string literal
    | BadNumber(text: string)                        // `int()` / `float()` refused the text
    | TypeNotFound(name: string)                     // `parse_data_with_type` with an unregistered type
    // Python `RecursionError`: the recursion budget ran out
    | RecursionLimit
    // Rust
    | RsError(msg: string)                           // an `Err(String)` returned by the Rust port
    | RsPanic(what: string)                          // a slice out of range: the Rust port panics

  datatype Result<+T> = Ok(value: T) | Err(error: Error) {

    predicate IsFailure() {
      Err?
    }

    function PropagateFailure<U>(): Result<U>
      requires Err?
    {
      Err(error)
    }

    function Extract(): T
      requires Ok?
    {
      value
    }
  }

  /** The outcome of a loop that has already collected `acc` and then runs on to `rest`. */
  function Prefixed<T>(acc: seq<T>, rest: Result<seq<T>>): (r: Result<seq<T>>)
    ensures r.Ok? <==> rest.Ok?
    ensures r.Ok? ==> r.value == acc + rest.value
    ensures r.Err? ==> r.error == rest.error
    ensures acc == [] ==> r == rest
  {
    match rest
    case Ok(v) => assert [] + v == v; Ok(acc + v)
    case Err(e) => Err(e)
  }

  /** One more element collected: the outcome of the loop does not change. */
  lemma PrefixedStep<T>(acc: seq<T>, x: T, rest: Result<seq<T>>)
    ensures Prefixed(acc, if rest.Ok? then Ok([x] + rest.value) else rest) == Prefixed(acc + [x], rest)
  {
    if rest.Ok? {
      assert acc + ([x] + rest.value) == acc + [x] + rest.value;
    }
  }

  /** Several more elements collected at once: the outcome of the loop does not change. */
  lemma PrefixedSteps<T>(acc: seq<T>, xs: seq<T>, rest: Result<seq<T>>)
    ensures Prefixed(acc, if rest.Ok? then Ok(xs + rest.value) else rest) == Prefixed(acc + xs, rest)
  {
    if rest.Ok? {
      assert acc + (xs + rest.value) == acc + xs + rest.value;
    }
  }

  /** One more element collected, the rest read by the same loop: the outcome does not change. */
  lemma PrefixedNest<T>(acc: seq<T>, x: T, rest: Result<seq<T>>)
    ensures Prefixed(acc, Prefixed([x], rest)) == Prefixed(acc + [x], rest)
  {
    if rest.Ok? {
      assert acc + ([x] + rest.value) == acc + [x] + rest.value;
    }
  }

  lemma Assoc<T>(a: seq<T>, b: seq<T>, c: seq<T>)
    ensures a + (b + c) == a + b + c
  {
  }

  /** A cursor method's outcome paired with where the cursor stopped. */
  function Located<T>(r: Result<T>, at: nat): (l: Result<(T, nat)>)
    ensures l.Ok? <==> r.Ok?
    ensures l.Ok? ==> l.value.0 == r.value && l.value.1 == at
    ensures l.Err? ==> l.error == r.error
  {
    if r.Ok? then Ok((r.value, at)) else Err(r.error)
  }

  /** The outcome of a cursor loop that has collected `acc` and then runs on to `rest`. */
  function PrefixedAt<T>(acc: seq<T>, rest: Result<(seq<T>, nat)>): (r: Result<(seq<T>, nat)>)
    ensures r.Ok? <==> rest.Ok?
    ensures r.Ok? ==> r.value.0 == acc + rest.value.0 && r.value.1 == rest.value.1
    ensures r.Err? ==> r.error == rest.error
    ensures acc == [] ==> r == rest
  {
    match rest
    case Ok(v) => assert [] + v.0 == v.0; Ok((acc + v.0, v.1))
    case Err(e) => Err(e)
  }

  /** One more element collected by a cursor loop: the outcome of the loop does not change. */
  lemma PrefixedAtNest<T>(acc: seq<T>, x: T, rest: Result<(seq<T>, nat)>)
    ensures PrefixedAt(acc, PrefixedAt([x], rest)) == PrefixedAt(acc + [x], rest)
  {
    if rest.Ok? {
      assert acc + ([x] + rest.value.0) == acc + [x] + rest.value.0;
    }
  }
}
