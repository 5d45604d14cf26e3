/** Rust's `Option<T>` and the unit-error `Result<T, ()>` that every fallible
    conversion of the simulated-time type returns. */
module Wrappers {

  datatype Option<+T> = None | Some(value: T)

  /** `Result<T, ()>`: the error carries no information. */
  datatype Result<+T> = Ok(value: T) | Err {

    /** `Result::ok`: forget the (empty) error. */
    function ToOption(): (r: Option<T>)
      ensures r.Some? <==> Ok?
      ensures Ok? ==> r.value == value
    {
      match this
      case Ok(v) => Some(v)
      case Err => None
    }
  }
}
