/** Small shared vocabulary: optional values and the minimum of two reals. */
module Basics {

  datatype Option<+T> = None | Some(value: T)

  function MinReal(a: real, b: real): real {
    if a <= b then a else b
  }
}
