/** The optional-value type used throughout the model for values that may be
    absent (`undefined`/`null` in the JavaScript source). */
module Wrappers {

  datatype Option<+T> = None | Some(value: T)
}
