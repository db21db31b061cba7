/** The optional-value datatype the rest of the model uses for absent stored values. */
module Wrappers {

  datatype Option<+T> = None | Some(value: T)
}
