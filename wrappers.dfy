/** The optional value used for JavaScript's `undefined`/`null` results and for
    "no error" in the validators, and how an awaited backend call ended. */
module Wrappers {

  datatype Option<+T> = None | Some(value: T)

  /** Whether an awaited call resolved or threw. */
  datatype CallOutcome = Completed | Failed
}
