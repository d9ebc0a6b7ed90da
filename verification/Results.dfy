/** Optional values and fallible results shared by the other modules. */
module Results {
  datatype Option<+T> = None | Some(value: T)

  /** The source's normal return, or its thrown error. */
  datatype Result<+T, +E> = Ok(value: T) | Err(error: E)
}
