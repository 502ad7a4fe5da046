/** JSON values as the parser delivers them; parsing and printing of text are not modelled. */
module Json {
  import opened Wrappers

  const MIN_I64: int := -0x8000_0000_0000_0000
  const MAX_I64: int := 0x7FFF_FFFF_FFFF_FFFF

  type i64 = i: int | MIN_I64 <= i <= MAX_I64

  /** A number is whole as written (up to the unsigned 64-bit range) or not. */
  datatype Number = Whole(i: int) | Fraction(r: real) {
    function AsI64(): Option<i64> {
      if Whole? && MIN_I64 <= i <= MAX_I64 then Some(i) else None
    }
  }

  datatype Value =
    | Null
    | Bool(b: bool)
    | Num(n: Number)
    | String(s: string)
    | Array(items: seq<Value>)
    | Object(members: map<string, Value>)
  {
    function Get(key: string): Option<Value> {
      if Object? && key in members then Some(members[key]) else None
    }

    /** Deletion of one top-level member; anything but an object stays as it is. */
    function Without(key: string): Value {
      if Object? then Object(members - {key}) else this
    }
  }
}
