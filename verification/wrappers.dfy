/** Failure-compatible wrappers shared by the whole model. */
module Wrappers {

  /** JavaScript `undefined` (None) or a present value (Some). */
  datatype Option<+T> = None | Some(value: T) {

    /** Returns the present value, or `default` when absent (the `??` operator). */
    function GetOr(default: T): T
    {
      match this
      case Some(v) => v
      case None => default
    }
  }

  /** JavaScript truthiness of an optional string: present and not empty. */
  predicate TruthyStr(s: Option<string>) { s.Some? && s.value != "" }

  /** A successful value or an error value; thrown errors are modelled as `Failure`. */
  datatype Result<+R, +E> = Success(value: R) | Failure(error: E)
}
