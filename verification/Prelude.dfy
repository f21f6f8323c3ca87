/** Small vocabulary shared by the other modules. */
module Prelude {

  datatype Option<+T> = None | Some(value: T)

  /** The source's exceptions become the Err branch. */
  datatype Result<+T, +E> = Ok(value: T) | Err(error: E)

  function MinReal(a: real, b: real): real {
    if a <= b then a else b
  }

  function Max(a: int, b: int): int {
    if a >= b then a else b
  }

  lemma MulDistributes(r: real, a: real, b: real)
    ensures r * (a + b) == r * a + r * b
  {
  }

  lemma MulNonNegative(a: real, b: real)
    requires 0.0 <= a && 0.0 <= b
    ensures 0.0 <= a * b
  {
  }

  lemma MulMonotone(r: real, a: real, b: real)
    requires 0.0 <= r && a <= b
    ensures r * a <= r * b
  {
    MulNonNegative(r, b - a);
    MulDistributes(r, a, b - a);
  }

  /** `n` shares of `a`, that is n * a. */
  function Shares(n: nat, a: real): real {
    if n == 0 then 0.0 else Shares(n - 1, a) + a
  }

  lemma {:induction false} SharesMultiply(n: nat, a: real)
    ensures Shares(n, a) == n as real * a
  {
    if n > 0 {
      SharesMultiply(n - 1, a);
      MulDistributes(a, (n - 1) as real, 1.0);
    }
  }
}
