/** The optional-value datatype shared by the chart and the backend models. */
module Wrappers {

  /** A value that may be absent: JavaScript's `null` result, Go's `(v, false)`. */
  datatype Option<+T> = None | Some(value: T)
}
