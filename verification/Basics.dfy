/** Small datatypes shared by the other modules. */
module Basics {

  datatype Option<+T> = None | Some(value: T)

  /** The outcome of a conversion that reports failure by throwing. */
  datatype Result<+T> = Ok(value: T) | Thrown

  /** Fiber::State */
  datatype FState = INIT | READY | EXEC | TERM | EXCEPT

  predicate Finished(st: FState) {
    st == TERM || st == EXCEPT
  }
}
