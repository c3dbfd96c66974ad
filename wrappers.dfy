/** The optional value used throughout the model, standing for JavaScript's
    `null` / `undefined` beside a real value. */
module Wrappers {

  datatype Option<+T> = None | Some(value: T)
}
