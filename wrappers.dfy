/** Optional values: a Python `None` or an SQL query's `.first()` that found nothing. */
module Wrappers {
  datatype Option<+T> = None | Some(value: T)
}
