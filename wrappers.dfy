/** Optional values and results with an error, the shapes the Java code expresses with
    `java.util.Optional` and with thrown exceptions. */
module Wrappers {

  datatype Option<+T> = None | Some(value: T) {

    /** `Optional.orElse` / `orElseGet` */
    function GetOr(default: T): T {
      match this
      case Some(v) => v
      case None => default
    }

    /** `Optional.or`: this value if present, otherwise the alternative. */
    function Or(alternative: Option<T>): Option<T> {
      if Some? then this else alternative
    }
  }

  /** A computation that either yields a value or raises an error. */
  datatype Result<+T, +E> = Ok(value: T) | Err(error: E) {

    predicate IsFailure() {
      Err?
    }

    function PropagateFailure<U>(): Result<U, E>
      requires Err?
    {
      Err(error)
    }

    function Extract(): T
      requires Ok?
    {
      value
    }
  }
}
