/** Failure-compatible results for the readers of the model. */
module Wrappers {

  datatype Option<T> = None | Some(value: T) {
    predicate IsFailure() {
      None?
    }

    function PropagateFailure<U>(): Option<U>
      requires None?
    {
      None
    }

    function Extract(): T
      requires Some?
    {
      value
    }
  }

  /** What a reader took off the front of a text, and the text left after it. */
  datatype Read<T> = Read(value: T, rest: string)
}
