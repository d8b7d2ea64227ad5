/** Optional values: a cell that pandas holds as NaN/NaT is `None`. */
module Wrappers {

  datatype Option<+T> = None | Some(value: T)
}
