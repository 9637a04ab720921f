/** Option and Result, the two failure-carrying shapes the modelled code uses. */
module Wrappers {

  datatype Option<+T> = None | Some(value: T) {
    /** `Option::or`: this value if present, else `other`. */
    function Or(other: Option<T>): Option<T> {
      if Some? then this else other
    }
  }

  datatype Result<+T, +E> = Ok(value: T) | Err(error: E)
}
