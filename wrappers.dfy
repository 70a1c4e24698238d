/** Optional values: a cache slot that is still empty, a scan that found nothing. */
module Wrappers {
  datatype Option<+T> = None | Some(value: T)
}
