/** Optional values, and the outcome of code that may panic. */
module Wrappers {

  datatype Option<+T> = None | Some(value: T)

  /** `Panic` stands for every way the modelled code aborts: a failed assertion, an
      `unwrap` on nothing, an explicit panic, or an access outside a buffer. */
  datatype Outcome<+T> = Ok(value: T) | Panic {

    predicate IsFailure() {
      Panic?
    }

    function PropagateFailure<U>(): Outcome<U>
      requires Panic?
    {
      Panic
    }

    function Extract(): T
      requires Ok?
    {
      value
    }
  }
}
