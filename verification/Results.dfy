/** Optional values, and outcomes that carry a reason when they are refused. */
module Results {

  datatype Option<+T> = None | Some(value: T)

  datatype Result<+T, +E> = Ok(value: T) | Err(reason: E)
}
