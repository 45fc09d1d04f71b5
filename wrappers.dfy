/** The optional value the UI uses wherever JavaScript has `null`. */
module Wrappers {

  datatype Option<+T> = None | Some(value: T)

}
