/** A value that may be absent: JSON fields that were not sent, nullable columns, lookups that found nothing. */
module Wrappers {

  datatype Option<+T> = None | Some(value: T)
}
