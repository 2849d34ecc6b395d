/**
 * The value types of the Rust port (`src/types.rs`): field definitions of a
 * schema and the parsed data tree, in which an object is a flat sequence of
 * alternating keys and values rather than a map.
 */
module RsTypes {
  import opened Base

  /** Rust's `i64`. */
  newtype I64 = x: int | -0x8000_0000_0000_0000 <= x <= 0x7FFF_FFFF_FFFF_FFFF

  datatype FieldKind = PrimitiveKind | ObjectKind | ArrayKind

  /** One field of a schema: its name, the type it refers to (if any) and its kind. */
  datatype FieldDef = FieldDef(name: string, typeName: Option<string>, kind: FieldKind)

  /** `HashMap<String, Vec<FieldDef>>`: every schema by its type name. */
  type TypeDefs = map<string, seq<FieldDef>>

  /**
   * A primitive. A float keeps the text it was read from: the conversion
   * to a binary64 value is not modelled.
   */
  datatype Prim =
    | Str(s: string)
    | Integer(n: I64)
    | Float(text: string)
    | Boolean(b: bool)
    | Null

  /** `DataValue`: a primitive, an object of alternating keys and values, or an array. */
  datatype DataValue =
    | Primitive(p: Prim)
    | Object(items: seq<DataValue>)
    | Array(items: seq<DataValue>)

  /** The value is a `Primitive(String(_))`: what the key/value scans accept as a key. */
  predicate IsStr(v: DataValue) {
    v.Primitive? && v.p.Str?
  }
}
