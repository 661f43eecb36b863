/** Small value types shared by the other modules. */
module Common {

  /** A value that may be absent: a missing attribute, a null field, a failed storage read. */
  datatype Option<+T> = None | Some(value: T)

  /**
   * The result of the page's `Number(...)` conversion of an attribute, as far
   * as the model needs it: either a finite integer or something that is not a
   * finite number (NaN or an infinity).
   */
  datatype NumberValue = NotFinite | Finite(value: int)

  function Min(a: int, b: int): (m: int)
    ensures m <= a && m <= b
    ensures m == a || m == b
  {
    if a <= b then a else b
  }
}
