/** Vocabulary shared by the services and the browser. */
module Verdicts {

  datatype Option<+T> = None | Some(value: T)

  datatype Status =
    | Pending
    | Judging
    | Accepted
    | WrongAnswer
    | TimeLimitExceeded
    | MemoryLimitExceeded
    | OutputLimitExceeded
    | RuntimeError
    | CompilationError
    | SystemError

  predicate IsTerminal(status: Status) {
    !status.Pending? && !status.Judging?
  }
}
