/** Small definitions that every part of the model uses. */
module Basics {
  datatype Option<+T> = None | Some(value: T)

  function MaxReal(a: real, b: real): real {
    if a >= b then a else b
  }

  function MinReal(a: real, b: real): real {
    if a <= b then a else b
  }

  function AbsReal(a: real): real {
    if a >= 0.0 then a else -a
  }
}
