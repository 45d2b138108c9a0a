/** Small datatypes and helpers shared by the models. */
module Prelude {

  datatype Option<+T> = None | Some(value: T)

  datatype Result<+T> = Ok(value: T) | Err(message: string)

  function Max(a: int, b: int): int {
    if a >= b then a else b
  }
}
