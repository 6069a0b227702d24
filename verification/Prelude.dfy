/** Small datatypes and arithmetic facts shared by the other modules. */
module Prelude {

  datatype Option<+T> = None | Some(value: T)

  datatype Result<+T, +E> = Ok(value: T) | Err(error: E)

  // Quotient and remainder are unique.
  lemma DivMod(k: int, m: int, q: int, r: int)
    requires m > 0 && k == m * q + r && 0 <= r < m
    ensures q == k / m && r == k % m
  {
    var d := q - k / m;
    assert m * d == m * q - m * (k / m);
    assert m * d == k % m - r;
    if d >= 1 {
      MulAtLeast(m, d);
    } else if d <= -1 {
      MulAtLeast(m, -d);
    }
  }

  lemma MulAtLeast(m: int, d: int)
    requires m > 0 && d >= 1
    ensures m * d >= m && m * -d <= -m
  {
    assert m * d == m + m * (d - 1);
  }
}
