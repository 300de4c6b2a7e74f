/** Failure-compatible wrappers shared by the whole model. */
module Wrappers {

  datatype Option<+T> = None | Some(value: T)

  /** Why a build run stops. The build script has no error handling: a missing
      input file or a malformed navigation document throws, and the exception
      ends the whole process. */
  datatype Failure =
    | MissingFile(path: string)
    | MalformedNavigation(path: string)

  /** A value, or the failure that aborted the run. Usable with `:-`. */
  datatype Result<+T> = Ok(value: T) | Abort(failure: Failure) {

    predicate IsFailure() {
      Abort?
    }

    function PropagateFailure<U>(): Result<U>
      requires Abort?
    {
      Abort(failure)
    }

    function Extract(): T
      requires Ok?
    {
      value
    }
  }
}
