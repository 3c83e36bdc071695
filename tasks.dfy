/** Values shared by the supervised runner and the periodic scheduler: how a .NET task ends. */
module Tasks {

  datatype Option<+T> = None | Some(value: T)

  /** The final state of a task: ran to completion, faulted with an exception, or cancelled
      (an `OperationCanceledException`, which .NET records as the Canceled state). */
  datatype Outcome = Ok | Fault(message: string) | Cancelled

  /** The state of a task handle: still running, or completed with an outcome. */
  datatype Status = Running | Completed(outcome: Outcome)
}
