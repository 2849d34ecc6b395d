/**
 * The syntax tree of the cursor parsers (bref-2/ast.py, and the `Node` of
 * bref/converter.py): a node is a primitive, the `.` default marker, a
 * brace list, a bracket array, or a `key: value` item of a brace list.
 * Lists and arrays may carry a trailing type annotation.
 */
module Ast {
  import opened Base
  import opened PyData
  import opened Bref2Utils

  /** A trailing `: Name` or `: { fields }`. */
  datatype TypeAnn = Named(name: string) | Inline(schema: Schema)

  datatype Node =
    | Prim(value: PyValue)                                  // kind "primitive"
    | Default                                               // kind "default": the `.` marker
    | List(items: seq<Node>, ann: Option<TypeAnn>)          // kind "list": `{ ... }`
    | Array(items: seq<Node>, ann: Option<TypeAnn>)         // kind "array": `[ ... ]`
    | KeyValue(key: string, item: Node)                     // kind "key_value": `key: value` inside `{ ... }`

  /** Python's `type_ann` attribute: only lists and arrays carry one. */
  function AnnOf(n: Node): (a: Option<TypeAnn>)
    ensures a.Some? ==> n.List? || n.Array?
  {
    if n.List? || n.Array? then n.ann else None
  }

  /** A measure of a node that every child is below: the materializers recurse on it. */
  function Size(n: Node): (z: nat)
    ensures z >= 1
    ensures n.KeyValue? ==> Size(n.item) < z
    decreases n, 1
  {
    match n
    case List(items, _) => 2 + ItemsSize(items)
    case Array(items, _) => 2 + ItemsSize(items)
    case KeyValue(_, v) => 1 + Size(v)
    case _ => 1
  }

  function ItemsSize(items: seq<Node>): (z: nat)
    ensures items != [] ==> z == Size(items[0]) + ItemsSize(items[1..])
    decreases items, 0
  {
    if items == [] then 0 else Size(items[0]) + ItemsSize(items[1..])
  }
}
