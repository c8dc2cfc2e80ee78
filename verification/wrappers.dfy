/** Optional values: a JavaScript `undefined`/`null` or an absent file is `None`. */
module Wrappers {

  datatype Option<+T> = None | Some(value: T)
}
