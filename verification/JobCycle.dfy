/** Reopen-cycle helpers shared by the checklist, STOP, photo and completion code. */
module JobCycle {
  import opened Prelude

  datatype JobStatus =
    | Draft
    | InProgress
    | WaitingStopApproval
    | JobRejected
    | Reopened
    | QualityReview
    | Completed
    | Cancelled

  /** `closed_at` and `reopened_at` are whole seconds of the database clock. */
  predicate IsReopenCycle(status: JobStatus, closedAt: Option<nat>, reopenedAt: Option<nat>) {
    if status == Reopened then true
    else if reopenedAt.None? then false
    else if closedAt.None? then true
    else reopenedAt.value >= closedAt.value
  }

  function WorkingStatus(status: JobStatus, closedAt: Option<nat>, reopenedAt: Option<nat>): JobStatus {
    if IsReopenCycle(status, closedAt, reopenedAt) then Reopened else InProgress
  }

  predicate IsWorkable(status: JobStatus) {
    status == InProgress || status == Reopened
  }
}
