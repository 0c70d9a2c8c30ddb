/** Optional values and results with an error, used for Java nulls and thrown exceptions. */
module Wrappers {

  datatype Option<T> = None | Some(value: T)
  {
    predicate IsNone() { this.None? }

    /** The value, or `d` when absent (TypeScript `??`, Java `getOrDefault`). */
    function GetOr(d: T): T
    {
      match this
      case None => d
      case Some(v) => v
    }
  }

  datatype Result<T, E> = Ok(value: T) | Err(error: E)
  {
    predicate IsFailure() { this.Err? }

    function PropagateFailure<U>(): Result<U, E>
      requires Err?
    {
      Err(error)
    }

    function Extract(): T
      requires Ok?
    {
      value
    }
  }
}
