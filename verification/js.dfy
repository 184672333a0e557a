/** JavaScript values as the record gateway sees them: a field that may be
    absent (`undefined`), and the truthiness that `a || b` and `if (a)` test.
    Numbers are whole cents, so NaN and fractional values do not arise. */
module Js {

  /** A field that is either present or `undefined`. JSON serialisation drops
      `undefined` fields, so `None` also stands for "not sent". */
  datatype Option<+T> = None | Some(value: T)

  /** `if (s)` on a string field: `undefined` and `""` are falsy. */
  predicate IsTruthy(s: Option<string>) {
    s.Some? && s.value != ""
  }

  /** `if (n)` on a numeric field: `undefined` and `0` are falsy. */
  predicate IsTruthyNum(n: Option<int>) {
    n.Some? && n.value != 0
  }

  /** `a || b` on two string fields: `a` when truthy, otherwise `b` unchanged
      (which may itself be falsy). */
  function Or(a: Option<string>, b: Option<string>): Option<string> {
    if IsTruthy(a) then a else b
  }

  /** `n || 0` on a numeric field. */
  function OrZero(n: Option<int>): int {
    if IsTruthyNum(n) then n.value else 0
  }

  /** `${s}` inside a template literal: an absent value prints as "undefined". */
  function Interpolate(s: Option<string>): string {
    if s.Some? then s.value else "undefined"
  }
}
