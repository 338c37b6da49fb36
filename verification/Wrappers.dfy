/** Optional values, and the outcome of an operation that the program may leave by raising. */
module Wrappers {

  datatype Option<+T> = None | Some(value: T)

  /** The exceptions and failed assertions of the modelled code. */
  datatype Error =
    | OutOfMemory       // "Out of memory! No free blocks are available." / "No usable cache memory left"
    | DoubleFree        // "Double free! ... is already freed."
    | AssertionFailed   // a Python assert
    | KeyError          // a lookup of a missing dictionary key or list position
    | ValueError        // any other ValueError
    | RuntimeError      // any other RuntimeError
    | TypeError         // e.g. list.pop(None)

  datatype Result<+T> = Ok(value: T) | Err(error: Error) {
    predicate IsFailure() {
      Err?
    }

    function PropagateFailure<U>(): Result<U>
      requires Err?
    {
      Err(error)
    }

    function Extract(): T
      requires Ok?
    {
      value
    }
  }
}
