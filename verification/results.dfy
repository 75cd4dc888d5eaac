/**
  The two outcome types of this model. An optional payload, a header that
  may not parse and a texture upload that may be refused are `Option`s; a
  frame that may fail to encode or to split is a `Result` carrying why.
 */
module Results {

  /** Absent, or present with exactly one value. */
  datatype Option<+T> = None | Some(value: T)

  /** A computed value, or the reason none could be computed. */
  datatype Result<+T, +E> = Ok(value: T) | Err(error: E)
}
