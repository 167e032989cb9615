/**
 Millisecond time arithmetic. Dates are integers of milliseconds since the
 epoch; the current time is always a parameter. `Math.floor(a / d)` and
 `Math.ceil(a / d)` are modelled on exact integers, and the `%` operator of
 JavaScript, which truncates toward zero, is written out because Dafny's `%`
 never returns a negative remainder.
 */
module Time {

  const MsPerMinute: int := 60000
  const MsPerHour: int := 3600000
  const MsPerDay: int := 86400000

  /** `Math.floor(a / d)`: the greatest integer whose multiple of `d` does not exceed `a`. */
  function FloorDiv(a: int, d: int): (q: int)
    requires d > 0
    ensures q * d <= a < (q + 1) * d
  {
    a / d
  }

  /** `Math.ceil(a / d)`: the least integer whose multiple of `d` is at least `a`. */
  function CeilDiv(a: int, d: int): (q: int)
    requires d > 0
    ensures (q - 1) * d < a <= q * d
  {
    -((-a) / d)
  }

  /** JavaScript's `a % d` for `d > 0`: the remainder carries the sign of `a`. */
  function JsRem(a: int, d: int): (r: int)
    requires d > 0
    ensures a >= 0 ==> 0 <= r < d
    ensures a < 0 ==> -d < r <= 0
    ensures a >= 0 ==> r == a - FloorDiv(a, d) * d
    ensures a < 0 ==> r == a + FloorDiv(-a, d) * d
  {
    if a >= 0 then a % d else -((-a) % d)
  }

  /** A bound on an integer pins down its floor quotient. */
  lemma FloorDivUnique(a: int, d: int, q: int)
    requires d > 0
    requires q * d <= a < (q + 1) * d
    ensures FloorDiv(a, d) == q
  {
  }

  /** A bound on an integer pins down its ceiling quotient. */
  lemma CeilDivUnique(a: int, d: int, q: int)
    requires d > 0
    requires (q - 1) * d < a <= q * d
    ensures CeilDiv(a, d) == q
  {
  }
}
