/** Small shared vocabulary: an optional value and integer helpers. */
module Common {

  /** A value that may be absent (Python's `None`). */
  datatype Option<+T> = None | Some(value: T)

  function Min(a: int, b: int): int
  {
    if a <= b then a else b
  }

  /** ⌈n / d⌉ for a positive divisor, characterised without division: the
      least `q` with `n <= q * d`. */
  function CeilDiv(n: nat, d: nat): (q: nat)
    requires 0 < d
    ensures n <= q * d
    ensures q == 0 || (q - 1) * d < n
    decreases n
  {
    if n == 0 then 0
    else if n <= d then 1
    else
      var q' := CeilDiv(n - d, d);
      assert (q' + 1) * d == q' * d + d;
      q' + 1
  }
}
