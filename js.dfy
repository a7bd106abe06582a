/**
 * The few JavaScript value semantics the core relies on: numbers as far as the
 * code distinguishes them (safe integers, everything else), and truthiness,
 * which `Boolean(x)`, `x ? true : false` and `if (x)` all apply.
 */
module Js {
  import opened Strings

  /** `Number.MAX_SAFE_INTEGER`, 2^53 - 1. */
  const MaxSafeInteger: int := 9007199254740991

  /**
   * A JavaScript number. Integers are exact; `NaN` is kept apart because the
   * parsers test for it; every other non-integer value (a fraction, an
   * infinity) is `NonInteger`.
   */
  datatype Num = Int(value: int) | NaN | NonInteger

  /** `Number.isSafeInteger(n)`. */
  predicate IsSafeInteger(n: Num) {
    n.Int? && -MaxSafeInteger <= n.value <= MaxSafeInteger
  }

  /**
   * `Number(s)` for a string the callers have already trimmed: a run of
   * decimal digits is its integer value; anything else is `NaN` here.
   */
  function NumberOf(s: string): (n: Num)
    ensures n.Int? <==> IsDigits(s)
    ensures n.Int? ==> n.value >= 0
  {
    if IsDigits(s) then Int(DigitsValue(s)) else NaN
  }

  /** An argument whose declared type is `unknown`, as far as truthiness can tell values apart. */
  datatype Value =
    | Undefined
    | Null
    | Bool(b: bool)
    | Number(n: Num)
    | Str(s: string)
    | Object

  /** JavaScript truthiness: `false`, `0`, `NaN`, `""`, `null` and `undefined` are falsy. */
  predicate Truthy(v: Value) {
    match v
    case Undefined => false
    case Null => false
    case Bool(b) => b
    case Number(n) => !(n == NaN || n == Int(0))
    case Str(s) => s != ""
    case Object => true
  }
}
