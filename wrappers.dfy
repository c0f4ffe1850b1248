// Optional values, for operations of the plugin that may have nothing to give.
module Wrappers {

  datatype Option<T> = None | Some(value: T)
}
