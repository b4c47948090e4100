/** Optional values: `null`/`undefined` in the scripts, or "nothing came back". */
module Wrappers {

  datatype Option<+T> = None | Some(value: T)
}
