/** Failure-compatible wrappers used for the lookups and the patch outcome. */
module Results {

  datatype Option<+T> = None | Some(value: T)

  datatype Result<+T, +E> = Ok(value: T) | Err(error: E)
}
