/** Optional values, for lookups that may find nothing. */
module Results {

  datatype Option<T> = None | Some(value: T)
}
