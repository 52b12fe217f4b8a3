/** What several modules share: optional values, extrema and the division of bigints. */
module Common {

  datatype Option<+T> = None | Some(value: T)

  function Min(a: int, b: int): int { if a < b then a else b }

  function Max(a: int, b: int): int { if a < b then b else a }

  function Pow2(n: nat): nat { if n == 0 then 1 else 2 * Pow2(n - 1) }

  /** Division of bigints: toward zero. */
  function Quot(a: int, b: int): int
    requires b > 0
  {
    if a < 0 then -(-a / b) else a / b
  }
}
