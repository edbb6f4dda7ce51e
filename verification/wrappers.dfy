/** Optional values: the model's stand-in for a JavaScript value that may be
    `undefined` or `null`, and for a store lookup that may find no row. */
module Wrappers {

  datatype Option<+T> = None | Some(value: T)

}
