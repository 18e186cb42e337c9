/** Values shared by the three components of the extension. */
module Common {

  /** A value that may be missing: a capture that failed, a stored image that is absent. */
  datatype Option<+T> = None | Some(value: T)

  function MinInt(a: int, b: int): int { if a <= b then a else b }

  function MaxInt(a: int, b: int): int { if a >= b then a else b }
}
