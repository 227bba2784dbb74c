/** Option, the outcome shape the rest of the model uses for a value that may be missing. */
module Wrappers {

  datatype Option<T> = None | Some(value: T)
}
