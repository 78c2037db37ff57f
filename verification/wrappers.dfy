/**
 * The small sum types every stage shares: an optional value, a parse or
 * compile result that `:-` can unwrap, and a pass/fail verdict.
 */
module Wrappers {

  /** An `Option` as the macro's `Option<Ident>` fields use it. */
  datatype Option<+T> = None | Some(value: T)

  /**
   * What a stage produces: its value, or the error that stops the macro.
   * The three members below let `var x :- stage(..);` forward the error.
   */
  datatype Result<+R, +E> = Success(value: R) | Failure(error: E) {
    predicate IsFailure() { this.Failure? }

    function PropagateFailure<U>(): Result<U, E>
      requires this.Failure?
    {
      Failure(this.error)
    }

    function Extract(): R
      requires this.Success?
    {
      this.value
    }
  }

  /** The verdict of a check that computes nothing: it passes, or it fails with an error. */
  datatype Outcome<+E> = Pass | Fail(error: E)
}
