/** Result types shared by the models of the address and catalog services. */
module Wrappers {
  /** A nullable Go pointer, or a nullable column. */
  datatype Option<+T> = None | Some(value: T)

  /** A Go `(value, error)` return. */
  datatype Result<+T, +E> = Ok(value: T) | Err(error: E)

  /** Identifiers are unique and totally ordered; nothing else about a UUID matters here. */
  type Uuid = nat
}
