/** Failure-carrying values used by every setter and builder of the model.
    A C function that returns 0 or a negative error code, or a pointer that may be
    NULL, is modelled by one of these. */
module Results {

  /** A value that may be absent: the model of a pointer that may be NULL. */
  datatype Option<+T> = None | Some(value: T)

  /** Either the updated value, or the error code the C code returns instead. */
  datatype Result<+T, +E> = Ok(value: T) | Err(error: E)
}
