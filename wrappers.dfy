/** Optional values: a JavaScript `undefined` or `null` field, or a lookup that found nothing. */
module Wrappers {

  datatype Option<+T> = None | Some(value: T)

  /** A checked operation that either yields a value or fails with a message. */
  datatype Result<+T> = Ok(value: T) | Err(message: string)
}
