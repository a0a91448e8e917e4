/** Optional values, used for the reply attributes that Qt reports as a
    null QVariant (no status code, no redirect target), for a reply without
    a transport error, and for a message box without detail text. */
module Wrappers {

  datatype Option<+T> = None | Some(value: T)
}
