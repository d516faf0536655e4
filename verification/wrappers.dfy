// Result types shared by the models.
module Wrappers {
  // std::optional
  datatype Option<+T> = None | Some(value: T)

  // A value, or the C++ exception the source lets escape.
  datatype Result<+T, +E> = Success(value: T) | Failure(error: E)

  function Min(a: nat, b: nat): nat {
    if a <= b then a else b
  }

  function Max(a: int, b: int): int {
    if a >= b then a else b
  }
}
