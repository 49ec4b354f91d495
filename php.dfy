/** The PHP scalar values the core handles, with the language rules it relies on:
    `empty()`, `isset()` and the conversion of a value to a string. */
module Php {
  import opened Wrappers
  import opened Strings

  /** A PHP scalar: `null`, a boolean, an integer or a string. */
  datatype PhpValue = Null | Bool(b: bool) | Int(n: int) | Str(s: string)

  /** `empty($s)` for a string: only `''` and `'0'` are empty. */
  predicate EmptyString(s: string)
  {
    s == "" || s == "0"
  }

  /** `empty($v)`: the values PHP converts to `false`. */
  predicate Empty(v: PhpValue)
  {
    match v
    case Null => true
    case Bool(b) => !b
    case Int(n) => n == 0
    case Str(s) => EmptyString(s)
  }

  /** `empty()` on an optional string, where a missing value is `null`. */
  predicate EmptyOpt(v: Option<string>)
  {
    v.None? || EmptyString(v.value)
  }

  /** The string PHP produces when it interpolates or concatenates `v`. */
  function ToString(v: PhpValue): string
  {
    match v
    case Null => ""
    case Bool(b) => if b then "1" else ""
    case Int(n) => IntToDecimal(n)
    case Str(s) => s
  }

  /** The string of an optional string (`null` interpolates as `''`). */
  function OptToString(v: Option<string>): string
  {
    v.GetOr("")
  }
}
