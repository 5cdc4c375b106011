/** The optional value the model uses where JavaScript gives `null` or a
    failed call. */
module Wrappers {
  datatype Option<+T> = None | Some(value: T)
}
