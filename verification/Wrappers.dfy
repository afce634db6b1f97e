/** The one shared container type of the model. */
module Wrappers {
  datatype Option<+T> = None | Some(value: T)
}
