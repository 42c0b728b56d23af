/** Optional values: a nullable column, a missing cache entry, or a lookup that found nothing. */
module Options {
  datatype Option<+T> = None | Some(value: T)
}
