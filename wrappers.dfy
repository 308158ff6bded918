/** Option and outcome datatypes shared by the modules of the model. */
module Wrappers {

  datatype Option<+T> = None | Some(value: T) {
    predicate IsFailure() { None? }

    function PropagateFailure<U>(): Option<U>
      requires None?
    {
      None
    }

    function Extract(): T
      requires Some?
    {
      value
    }

    function GetOr(default: T): T {
      match this
      case Some(v) => v
      case None => default
    }
  }

  /** The result of an operation against the store: it either succeeds with a value
      or the store reports an error (the callback's `err` / the rejected promise). */
  datatype Result<+T> = Ok(value: T) | Err
}
