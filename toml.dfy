/** The TOML value tree the input crate reads its configuration from. */
module Toml {

  /** A TOML value. Integers are 64-bit in TOML and floats are IEEE doubles; here they are
      the mathematical integers and reals they denote. */
  datatype Value =
    | String(str: string)
    | Integer(integer: int)
    | Float(float: real)
    | Boolean(boolean: bool)
    | Datetime(text: string)
    | Array(items: seq<Value>)
    | Table(entries: Entries)

  /** The contents of a TOML table: keys to values. */
  type Entries = map<string, Value>

  /** Integers and floats are both numbers. */
  predicate IsNumber(v: Value) {
    v.Integer? || v.Float?
  }
}
