/** The optional-value type used for the sensor fields that stay unset until the first poll. */
module Wrappers {

  datatype Option<+T> = None | Some(value: T)
}
