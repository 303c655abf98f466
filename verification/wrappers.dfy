/** Failure-compatible wrappers shared by the ledger modules. */
module Wrappers {

  /** An optional value; models a nullable column or a missing dictionary key. */
  datatype Option<+T> = None | Some(value: T)

  /** Either a value or an error; models an operation that may be refused. */
  datatype Result<+T, +E> = Ok(value: T) | Err(error: E)
}
