/** Small helper datatypes shared by the other modules. */
module Wrappers {

  /** A value that may be absent (Python's `Optional[T]`, `None` when absent). */
  datatype Option<+T> = None | Some(value: T)

  /** The smaller of two integers. */
  function Min(a: int, b: int): (m: int)
    ensures m <= a && m <= b && (m == a || m == b)
  {
    if a <= b then a else b
  }
}
