/** The job's life table by table: which event changes which row, when, and into what. */
module WorkflowMoves {
  import opened Prelude
  import opened Text
  import opened JobCycle
  import opened JobModel
  import opened Summaries
  import opened Workflow
  import opened WorkflowFrame
  import opened WorkflowInv
  import opened WorkflowEvidence
  import opened WorkflowTheorems
  import opened WorkflowReached
  import opened WorkflowRows

  function After(s: State, o: Outcome): State {
    if o.Ok? then o.value else s
  }

  // ---------------------------------------------------------------- when an event has an effect

  ghost predicate Assigns(s: State, e: Event) {
    && e.EvAssign? && s.job.status in {Draft, InProgress} && s.checklist.None?
    && e.published.Some? && e.published.value.defs != []
  }

  ghost predicate Submits(s: State, e: Event) {
    e.EvComplete? && Submittable(s, e.step, e.input)
  }

  ghost predicate SubmitsStop(s: State, e: Event) {
    Submits(s, e) && s.checklist.value.defs[e.step].isStop
  }

  ghost predicate Redoes(s: State, e: Event) {
    && e.EvRedo? && s.job.status == Reopened && e.step < |s.steps|
    && s.steps[e.step].status in {StepCompleted, Approved}
  }

  ghost predicate Reopens(s: State, e: Event) {
    e.EvReopen? && s.job.status == Completed
  }

  ghost predicate Finishes(h: Digester, s: State, e: Event) {
    && Closes(h, s)
    && ((e.EvClose? && s.job.status == InProgress) || (e.EvConfirm? && s.job.status == QualityReview))
  }

  ghost predicate Uploads(s: State, e: Event) {
    && e.EvRegisterPhoto? && s.job.status in {InProgress, Reopened}
    && s.checklist.Some? && e.step < |s.steps| && s.steps[e.step].status == Pending
    && |LiveIds(s.photos, e.step, s.steps[e.step].attempt)| < 10
  }

  /** The digest the client displayed is not that of the rows. */
  ghost predicate Stale(h: Digester, s: State, shown: Option<string>)
    requires ChecklistShape(s.checklist, s.steps)
  {
    shown.Some? && shown.value != "" && shown.value != h(Material(s))
  }

  /** Signature k of the current cycle is READY or under way, and not superseded. */
  ghost predicate Live(s: State, k: nat) {
    && k < |s.signatures| && s.signatures[k].status in {InFlight, Ready} && !s.signatures[k].superseded
    && s.signatures[k].cycle == s.job.cycle
  }

  /** A live signature is under way, or covers the rows as they are. */
  ghost predicate Occupied(h: Digester, s: State)
    requires ChecklistShape(s.checklist, s.steps)
  {
    exists k: nat :: Live(s, k) && (s.signatures[k].status == InFlight || s.signatures[k].summaryDigest == h(Material(s)))
  }

  ghost predicate AllStepsDone(s: State) {
    s.checklist.Some? && forall i :: 0 <= i < |s.steps| ==> s.steps[i].status in {StepCompleted, Approved}
  }

  ghost predicate Signable(s: State) {
    s.job.status in {InProgress, Reopened} && ChecklistShape(s.checklist, s.steps) && AllStepsDone(s)
  }

  ghost predicate Registers(h: Digester, s: State, e: Event) {
    e.EvRegisterSignature? && Signable(s) && !Stale(h, s, e.shown) && !Occupied(h, s)
  }

  // ---------------------------------------------------------------- the job row

  /** Where work goes on: in the first cycle in progress, in a later one reopened. */
  ghost function Back(s: State): JobStatus {
    if s.job.cycle == 1 then InProgress else Reopened
  }

  ghost function NextStatus(h: Digester, s: State, e: Event): JobStatus {
    match s.job.status
    case Draft => if e.EvStart? && s.policyApproved then InProgress else if e.EvCancel? then Cancelled else Draft
    case InProgress =>
      if e.EvCancel? then Cancelled
      else if SubmitsStop(s, e) then WaitingStopApproval
      else if e.EvClose? && Closes(h, s) then Completed
      else InProgress
    case WaitingStopApproval => if e.EvApprove? then Back(s) else if e.EvReject? then JobRejected else WaitingStopApproval
    case JobRejected => if e.EvRework? then Back(s) else JobRejected
    case Reopened =>
      if SubmitsStop(s, e) then WaitingStopApproval else if e.EvClose? && Closes(h, s) then QualityReview else Reopened
    case QualityReview => if e.EvConfirm? && Closes(h, s) then Completed else QualityReview
    case Completed => if e.EvReopen? then Reopened else Completed
    case Cancelled => Cancelled
  }

  /** Each field the patch names has the value the patch gives it, each other its old one. */
  ghost predicate Overlaid(x: Installation, p: InstallationPatch, y: Installation) {
    && y.gasType == (if p.gasType.Some? then p.gasType.value else x.gasType)
    && y.kit == (if p.kit.Some? then p.kit.value else x.kit)
    && y.ecu == (if p.ecu.Some? then p.ecu.value else x.ecu)
    && y.cylinder == (if p.cylinder.Some? then p.cylinder.value else x.cylinder)
    && y.note == (if p.note.Some? then p.note.value else x.note)
  }

  ghost predicate JobMoves(h: Digester, s: State, e: Event, x: Job) {
    && x.status == NextStatus(h, s, e)
    && x.id == s.job.id && x.branchId == s.job.branchId
    && x.cycle == s.job.cycle + (if Reopens(s, e) then 1 else 0)
    && x.closedAt == (if Finishes(h, s, e) then Some(s.clock) else s.job.closedAt)
    && x.reopenedAt == (if Reopens(s, e) then Some(s.clock) else s.job.reopenedAt)
    && x.technician == (if e.EvReassign? && s.job.status !in {Completed, Cancelled} then e.technician else s.job.technician)
    && if e.EvInstallation? && s.job.status in {Draft, InProgress} then Overlaid(s.job.installation, e.patch, x.installation)
       else x.installation == s.job.installation
  }

  lemma RowEventMovesJob(h: Digester, s: State, e: Event)
    requires e.EvStart? || e.EvCancel? || e.EvInstallation? || e.EvReassign?
    ensures JobMoves(h, s, e, Step(h, s, e).job)
  {
  }

  lemma OutsideMovesJob(h: Digester, s: State, e: Event)
    requires e.EvTick? || e.EvPolicy? || e.EvRisks? || e.EvParties? || e.EvAssign? || e.EvRedo?
    ensures JobMoves(h, s, e, Step(h, s, e).job)
  {
  }

  lemma CompleteMovesJob(h: Digester, s: State, e: Event)
    requires e.EvComplete?
    ensures JobMoves(h, s, e, After(s, CompleteStep(s, e.step, e.input)).job)
  {
    AcceptedExactly(s, e.step, e.input);
  }

  lemma BackIs(h: Digester, s: State)
    requires Inv(h, s) && s.job.status in {WaitingStopApproval, JobRejected}
    ensures Working(s) == Back(s)
  {
  }

  lemma ApproveMovesJob(h: Digester, s: State, e: Event)
    requires Inv(h, s) && e.EvApprove?
    ensures JobMoves(h, s, e, After(s, ApproveStop(s)).job)
  {
    if s.job.status == WaitingStopApproval {
      PendingStopIsThere(h, s);
      BackIs(h, s);
    }
  }

  lemma RejectMovesJob(h: Digester, s: State, e: Event)
    requires Inv(h, s) && e.EvReject?
    ensures JobMoves(h, s, e, After(s, RejectStop(s)).job)
  {
    if s.job.status == WaitingStopApproval {
      PendingStopIsThere(h, s);
    }
  }

  lemma ReworkMovesJob(h: Digester, s: State, e: Event)
    requires Inv(h, s) && e.EvRework?
    ensures JobMoves(h, s, e, After(s, ReworkStop(s)).job)
  {
    if s.job.status == JobRejected {
      RejectedStepIsThere(h, s);
      BackIs(h, s);
    }
  }

  lemma CloseMovesJob(h: Digester, s: State, e: Event)
    requires e.EvClose? && (ClosingError(h, s).None? <==> Closes(h, s))
    ensures JobMoves(h, s, e, After(s, CloseJob(h, s)).job)
  {
  }

  lemma ConfirmMovesJob(h: Digester, s: State, e: Event)
    requires e.EvConfirm? && (ClosingError(h, s).None? <==> Closes(h, s))
    ensures JobMoves(h, s, e, After(s, ConfirmQuality(h, s)).job)
  {
  }

  lemma ReopenMovesJob(h: Digester, s: State, e: Event)
    requires e.EvReopen?
    ensures JobMoves(h, s, e, After(s, ReopenJob(s)).job)
  {
  }

  // ---------------------------------------------------------------- each event is its transaction

  lemma CompleteIs(h: Digester, s: State, e: Event)
    requires e.EvComplete?
    ensures Apply(h, s, e) == CompleteStep(s, e.step, e.input)
  {
  }

  lemma DecisionIs(h: Digester, s: State, e: Event)
    ensures e.EvApprove? ==> Apply(h, s, e) == ApproveStop(s)
    ensures e.EvReject? ==> Apply(h, s, e) == RejectStop(s)
    ensures e.EvRework? ==> Apply(h, s, e) == ReworkStop(s)
  {
  }

  lemma ApplyReopen(h: Digester, s: State, e: Event)
    requires e.EvReopen?
    ensures Apply(h, s, e) == ReopenJob(s)
  {
  }

  lemma EvidenceLeavesJob(h: Digester, s: State, e: Event)
    requires TouchesPhotos(e) || e.EvRegisterSignature? || WritesSignature(e)
    ensures JobMoves(h, s, e, s.job)
  {
  }

  lemma SameJobRow(h: Digester, s: State, e: Event)
    requires TouchesPhotos(e) || e.EvRegisterSignature? || WritesSignature(e)
    ensures Step(h, s, e).job == s.job
  {
    if TouchesPhotos(e) {
      PhotoFrame(h, s, e);
    } else {
      SignatureFrame(h, s, e);
    }
  }

  /** The job row under any event: the status diagram with the condition of every edge, the cycle, both
      times, the technician and the installation. */
  lemma JobRowMoves(h: Digester, s: State, e: Event)
    requires Reachable(h, s)
    ensures JobMoves(h, s, e, Step(h, s, e).job)
  {
    ReachableInv(h, s);
    if e.EvComplete? {
      CompleteIs(h, s, e);
      CompleteMovesJob(h, s, e);
    } else if e.EvApprove? {
      DecisionIs(h, s, e);
      ApproveMovesJob(h, s, e);
    } else if e.EvReject? {
      DecisionIs(h, s, e);
      RejectMovesJob(h, s, e);
    } else if e.EvRework? {
      DecisionIs(h, s, e);
      ReworkMovesJob(h, s, e);
    } else if e.EvClose? {
      ClosesExactly(h, s);
      ApplyClose(h, s, e);
      CloseMovesJob(h, s, e);
    } else if e.EvConfirm? {
      ClosesExactly(h, s);
      ApplyConfirm(h, s, e);
      ConfirmMovesJob(h, s, e);
    } else if e.EvReopen? {
      ApplyReopen(h, s, e);
      ReopenMovesJob(h, s, e);
    } else if TouchesPhotos(e) || e.EvRegisterSignature? || WritesSignature(e) {
      SameJobRow(h, s, e);
      EvidenceLeavesJob(h, s, e);
    } else if e.EvStart? || e.EvCancel? || e.EvInstallation? || e.EvReassign? {
      RowEventMovesJob(h, s, e);
    } else {
      OutsideMovesJob(h, s, e);
    }
  }

  // ---------------------------------------------------------------- the checklist

  ghost function NextStep(s: State, e: Event, i: nat): StepRow
    requires i < |s.steps|
  {
    var x := s.steps[i];
    if Submits(s, e) && e.step == i then x.(status := if s.checklist.value.defs[i].isStop then WaitingApproval else StepCompleted)
    else if e.EvApprove? && x.status == WaitingApproval then x.(status := Approved)
    else if e.EvReject? && x.status == WaitingApproval then x.(status := StepRejected)
    else if (e.EvRework? && x.status == StepRejected) || (Redoes(s, e) && e.step == i) then StepRow(Pending, x.attempt + 1)
    else x
  }

  ghost predicate StepsMove(s: State, e: Event, steps: seq<StepRow>) {
    if Assigns(s, e) then
      |steps| == |e.published.value.defs| && forall i :: 0 <= i < |steps| ==> steps[i] == StepRow(Pending, 1)
    else
      |steps| == |s.steps| && forall i :: 0 <= i < |steps| ==> steps[i] == NextStep(s, e, i)
  }

  ghost predicate Open(steps: seq<StepRow>) {
    exists i :: 0 <= i < |steps| && steps[i].status in {Pending, WaitingApproval, StepRejected}
  }

  /** The checklist is the published version it was assigned. It is stamped with the time its last open
      step is done, and loses the stamp when a step is opened again. */
  ghost predicate ChecklistMoves(s: State, e: Event, c: Option<Checklist>, steps: seq<StepRow>) {
    if Assigns(s, e) then
      var p := e.published.value;
      c == Some(Checklist(p.templateId, p.version, p.defs, None))
    else if s.checklist.None? then c.None?
    else
      && c.Some? && c.value.templateId == s.checklist.value.templateId && c.value.version == s.checklist.value.version
      && c.value.defs == s.checklist.value.defs
      && c.value.completedAt ==
        if Open(steps) then None else if Open(s.steps) then Some(s.clock) else s.checklist.value.completedAt
  }

  ghost predicate WorkMoves(s: State, e: Event, t: State) {
    StepsMove(s, e, t.steps) && ChecklistMoves(s, e, t.checklist, t.steps)
  }

  lemma OpenIs(steps: seq<StepRow>)
    ensures Open(steps) <==> !AllDone(steps)
  {
  }

  lemma AssignMovesWork(s: State, e: Event)
    requires e.EvAssign? && ChecklistShape(s.checklist, s.steps) && StampedRight(s.checklist, s.steps)
    ensures WorkMoves(s, e, After(s, AssignChecklist(s, e.published)))
  {
    OpenIs(s.steps);
  }

  lemma CompleteMovesWork(s: State, e: Event)
    requires e.EvComplete? && ChecklistShape(s.checklist, s.steps) && StampedRight(s.checklist, s.steps)
    ensures WorkMoves(s, e, After(s, CompleteStep(s, e.step, e.input)))
  {
    AcceptedExactly(s, e.step, e.input);
    OpenIs(s.steps);
    OpenIs(After(s, CompleteStep(s, e.step, e.input)).steps);
    if Submits(s, e) {
      assert s.steps[e.step].status == Pending;
      AllDoneUpdate(s.steps, e.step, StepRow(WaitingApproval, s.steps[e.step].attempt));
    }
  }

  lemma RedoMovesWork(s: State, e: Event)
    requires e.EvRedo? && ChecklistShape(s.checklist, s.steps) && StampedRight(s.checklist, s.steps)
    ensures WorkMoves(s, e, After(s, RedoStep(s, e.step)))
  {
    OpenIs(s.steps);
    if Redoes(s, e) {
      AllDoneUpdate(s.steps, e.step, StepRow(Pending, s.steps[e.step].attempt + 1));
      OpenIs(RedoStep(s, e.step).value.steps);
    }
  }

  lemma DecideMovesSteps(h: Digester, s: State, e: Event, st: StepStatus)
    requires Inv(h, s) && s.job.status == WaitingStopApproval
    requires (e.EvApprove? && st == Approved) || (e.EvReject? && st == StepRejected)
    ensures LockPendingStop(s).Ok?
    ensures var i := s.approvals[LockPendingStop(s).value].step; StepsMove(s, e, s.steps[i := s.steps[i].(status := st)])
  {
    PendingStopIsThere(h, s);
    var i := s.approvals[LockPendingStop(s).value].step;
    forall j | 0 <= j < |s.steps| && j != i ensures s.steps[j].status != WaitingApproval {}
  }

  lemma ApproveMovesWork(h: Digester, s: State, e: Event)
    requires Inv(h, s) && e.EvApprove?
    ensures WorkMoves(s, e, After(s, ApproveStop(s)))
  {
    OpenIs(s.steps);
    if s.job.status == WaitingStopApproval {
      DecideMovesSteps(h, s, e, Approved);
      OpenIs(ApproveStop(s).value.steps);
    } else {
      NothingWaits(h, s);
    }
  }

  lemma NothingWaits(h: Digester, s: State)
    requires Inv(h, s)
    ensures s.job.status != WaitingStopApproval ==> forall i :: 0 <= i < |s.steps| ==> s.steps[i].status != WaitingApproval
    ensures s.job.status != JobRejected ==> forall i :: 0 <= i < |s.steps| ==> s.steps[i].status != StepRejected
  {
  }

  lemma RejectMovesWork(h: Digester, s: State, e: Event)
    requires Inv(h, s) && e.EvReject?
    ensures WorkMoves(s, e, After(s, RejectStop(s)))
  {
    OpenIs(s.steps);
    if s.job.status == WaitingStopApproval {
      DecideMovesSteps(h, s, e, StepRejected);
      OpenIs(RejectStop(s).value.steps);
      var i := s.approvals[LockPendingStop(s).value].step;
      AllDoneUpdate(s.steps, i, s.steps[i].(status := StepRejected));
      assert SomeStep(s.steps, WaitingApproval);
    } else {
      NothingWaits(h, s);
    }
  }

  lemma ReworkMovesWork(h: Digester, s: State, e: Event)
    requires Inv(h, s) && e.EvRework?
    ensures WorkMoves(s, e, After(s, ReworkStop(s)))
  {
    OpenIs(s.steps);
    if s.job.status == JobRejected {
      RejectedStepIsThere(h, s);
      var i := FirstRejected(s.steps).value;
      AllDoneUpdate(s.steps, i, StepRow(Pending, s.steps[i].attempt + 1));
      OpenIs(ReworkStop(s).value.steps);
      assert Open(s.steps);
    } else {
      NothingWaits(h, s);
    }
  }

  lemma WorkIs(h: Digester, s: State, e: Event)
    ensures e.EvAssign? ==> Apply(h, s, e) == AssignChecklist(s, e.published)
    ensures e.EvRedo? ==> Apply(h, s, e) == RedoStep(s, e.step)
  {
  }

  lemma OthersLeaveWork(h: Digester, s: State, e: Event)
    requires !TouchesSteps(e) && ChecklistShape(s.checklist, s.steps) && StampedRight(s.checklist, s.steps)
    ensures StepsMove(s, e, s.steps) && ChecklistMoves(s, e, s.checklist, s.steps)
  {
    OpenIs(s.steps);
  }

  /** Every step row, and the checklist over it, under any event. */
  lemma ChecklistRowsMove(h: Digester, s: State, e: Event)
    requires Reachable(h, s)
    ensures WorkMoves(s, e, Step(h, s, e))
  {
    ReachableInv(h, s);
    if e.EvComplete? {
      CompleteIs(h, s, e);
      CompleteMovesWork(s, e);
    } else if e.EvApprove? {
      DecisionIs(h, s, e);
      ApproveMovesWork(h, s, e);
    } else if e.EvReject? {
      DecisionIs(h, s, e);
      RejectMovesWork(h, s, e);
    } else if e.EvRework? {
      DecisionIs(h, s, e);
      ReworkMovesWork(h, s, e);
    } else if e.EvAssign? {
      WorkIs(h, s, e);
      AssignMovesWork(s, e);
    } else if e.EvRedo? {
      WorkIs(h, s, e);
      RedoMovesWork(s, e);
    } else {
      Frames(h, s, e);
      OthersLeaveWork(h, s, e);
    }
  }

  // ---------------------------------------------------------------- approvals and measurements

  ghost function NextApproval(s: State, e: Event, k: nat): Approval
    requires k < |s.approvals|
  {
    var x := s.approvals[k];
    if x.decision != Undecided then x
    else if e.EvApprove? then x.(decision := StopApproved)
    else if e.EvReject? then x.(decision := StopRejected)
    else x
  }

  ghost predicate ApprovalsMove(s: State, e: Event, aps: seq<Approval>) {
    && |aps| == |s.approvals| + (if SubmitsStop(s, e) then 1 else 0)
    && (forall k :: 0 <= k < |s.approvals| ==> aps[k] == NextApproval(s, e, k))
    && (SubmitsStop(s, e) ==> aps[|s.approvals|] == Approval(e.step, s.steps[e.step].attempt, Undecided))
  }

  ghost predicate MeasurementsMove(s: State, e: Event, ms: seq<Measurement>) {
    if Submits(s, e) then
      && s.measurements <= ms
      && StoresAll(ms[|s.measurements|..], s.checklist.value.defs[e.step].rules, e.input, e.step, s.steps[e.step].attempt)
    else ms == s.measurements
  }

  lemma CompleteMovesRecords(s: State, e: Event)
    requires e.EvComplete?
    ensures ApprovalsMove(s, e, After(s, CompleteStep(s, e.step, e.input)).approvals)
    ensures MeasurementsMove(s, e, After(s, CompleteStep(s, e.step, e.input)).measurements)
  {
    AcceptedExactly(s, e.step, e.input);
    if Submits(s, e) {
      var rules, a := s.checklist.value.defs[e.step].rules, s.steps[e.step].attempt;
      RowsStoreAll(rules, e.input, e.step, a);
      var rows := RowsFor(rules, e.input, e.step, a);
      assert (s.measurements + rows)[|s.measurements|..] == rows;
    }
  }

  lemma DecisionMovesApprovals(h: Digester, s: State, e: Event)
    requires Inv(h, s)
    ensures e.EvApprove? ==> ApprovalsMove(s, e, After(s, ApproveStop(s)).approvals)
    ensures e.EvReject? ==> ApprovalsMove(s, e, After(s, RejectStop(s)).approvals)
  {
    if s.job.status == WaitingStopApproval {
      PendingIsUnique(h, s);
    } else {
      NothingWaits(h, s);
      forall k | 0 <= k < |s.approvals| ensures s.approvals[k].decision != Undecided {
        if s.approvals[k].decision == Undecided {
          UndecidedWaits(h, s, k);
        }
      }
    }
  }

  lemma OthersLeaveApprovals(h: Digester, s: State, e: Event)
    requires !e.EvComplete? && !e.EvApprove? && !e.EvReject?
    ensures Step(h, s, e).approvals == s.approvals
  {
    if !TouchesSteps(e) {
      Frames(h, s, e);
    }
  }

  lemma OthersLeaveRecords(s: State, e: Event)
    ensures !e.EvComplete? ==> MeasurementsMove(s, e, s.measurements)
    ensures !e.EvComplete? && !e.EvApprove? && !e.EvReject? ==> ApprovalsMove(s, e, s.approvals)
  {
  }

  /** The STOP approvals under any event: one more for a submitted STOP step, and a decision for the
      undecided one. */
  lemma ApprovalRowsMove(h: Digester, s: State, e: Event)
    requires Reachable(h, s)
    ensures ApprovalsMove(s, e, Step(h, s, e).approvals)
  {
    ReachableInv(h, s);
    if e.EvComplete? {
      CompleteIs(h, s, e);
      CompleteMovesRecords(s, e);
    } else if e.EvApprove? || e.EvReject? {
      DecisionIs(h, s, e);
      DecisionMovesApprovals(h, s, e);
    } else {
      OthersLeaveApprovals(h, s, e);
      OthersLeaveRecords(s, e);
    }
  }

  /** The stored measurements under any event: a submission adds the values of its request. */
  lemma MeasurementRowsMove(h: Digester, s: State, e: Event)
    ensures MeasurementsMove(s, e, Step(h, s, e).measurements)
  {
    if e.EvComplete? {
      CompleteIs(h, s, e);
      CompleteMovesRecords(s, e);
    } else {
      Frames(h, s, e);
      OthersLeaveRecords(s, e);
    }
  }
}
