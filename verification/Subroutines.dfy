/** Subroutines as the controller sees them: a name, finalizers, two optional interfaces,
    and an answer that may be anything. */
module Subroutines {
  import opened Options
  import opened Conditions

  datatype Subroutine = Subroutine(
    name: string,
    finalizers: seq<string>,
    isTerminator: bool,
    isInitializer: bool)

  /** Which of a subroutine's entry points a run calls; `Skip` is none of them. */
  datatype Verb = Terminate | Finalize | Initialize | Process | Skip

  /** An operator error; the wrapped error may be nil. */
  datatype OperatorError = OperatorError(cause: Option<string>, retry: bool) {
    predicate Retry() {
      cause.Some? && retry
    }
  }

  /** What a subroutine does to the status of the in-memory instance. */
  datatype Edit =
    | PutCondition(condition: Condition)
    | DropCondition(ctype: string)
    | PutData(data: int)

  /** A subroutine's answer. Nothing is assumed of it: the delay may even be negative. */
  datatype Outcome = Outcome(requeueAfter: int, error: Option<OperatorError>, edits: seq<Edit>) {
    /** The error the run sees; an operator error around nil counts as none. */
    function Cause(): Option<string> {
      if error.Some? then error.value.cause else None
    }

    /** The answer after which a finalizer may go. */
    predicate Done() {
      error.None? && requeueAfter == 0
    }

    /** No error the run sees, and no requeue. */
    predicate Clean() {
      Cause().None? && requeueAfter == 0
    }
  }
}
