/**
 * What one revision query strategy leaves behind. Each strategy receives
 * the caller's `revision` and `date` strings by reference and may
 * overwrite either of them before it returns (or throws), whether or not
 * it then reports success.
 */
module Outcomes {
  import opened Wrappers

  datatype Status =
    | Succeeded
    | Failed
      /** The strategy threw an uncaught exception: the process terminates. */
    | Crashed

  /** `revision`/`date`: the value written into the caller's string, `None` if left alone. */
  datatype Outcome = Outcome(status: Status, revision: Option<string>, date: Option<string>)

  /** The outcome of a strategy that stops before writing anything. */
  const NothingWritten := Outcome(Failed, None, None)
}
