// The result shapes shared by every module of this project.
module Wrappers {

  datatype Option<+T> = None | Some(value: T)

  // A computation of the original that either returns or throws.
  datatype Result<+T, +E> = Ok(value: T) | Err(error: E)

  // What Python takes for true of an optional text.
  predicate HasText(t: Option<string>) { t.Some? && t.value != "" }
}
