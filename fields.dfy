/** Small value wrappers shared by every module of the model. */
module Fields {

  /** Python's `None` versus a value. */
  datatype Option<T> = None | Some(value: T)

  /** One decoded field: the decoder stores the string "N/A" when the register is absent. */
  datatype Field<T> = NotAvailable | Available(value: T)

  /** The result of reading a Python property that may raise a TypeError
      (arithmetic or ordering on the string "N/A"). */
  datatype Outcome<T> = Returns(value: T) | Raises

  function Abs(x: real): (r: real)
    ensures r >= 0.0 && (r == x || r == -x)
  {
    if x < 0.0 then -x else x
  }

  /** Python's `int(x)` on a float: truncation toward zero. */
  function Trunc(x: real): (n: int)
    ensures x >= 0.0 ==> n as real <= x < n as real + 1.0
    ensures x < 0.0 ==> n as real - 1.0 < x <= n as real
  {
    if x >= 0.0 then x.Floor else -((-x).Floor)
  }

  lemma TruncOfInteger(n: int)
    ensures Trunc(n as real) == n
  {
  }
}
