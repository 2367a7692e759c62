/** The option type that stands for nullable pointers and optional results. */
module Wrappers {

  datatype Option<+T> = None | Some(value: T)
}
