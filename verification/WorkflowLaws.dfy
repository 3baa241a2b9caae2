/** What follows for whole runs: how later cycles close, what a displayed summary binds, why a
    transaction is refused. */
module WorkflowLaws {
  import opened Prelude
  import opened Text
  import opened JobCycle
  import opened JobModel
  import opened Summaries
  import opened Workflow
  import opened WorkflowFrame
  import opened WorkflowInv
  import opened WorkflowEvidence
  import opened WorkflowTheorems
  import opened WorkflowHistory
  import opened WorkflowReached
  import opened WorkflowRows
  import opened WorkflowMoves
  import opened WorkflowUploads

  // ---------------------------------------------------------------- later cycles are confirmed

  lemma DoorIs(h: Digester, s: State, e: Event, x: Job)
    requires Clocked(s.job, s.clock) && JobMoves(h, s, e, x) && s.job.status != Completed && x.status == Completed
    ensures if s.job.cycle == 1 then s.job.status == InProgress && e.EvClose? else s.job.status == QualityReview && e.EvConfirm?
    ensures Finishes(h, s, e) && x.closedAt == Some(s.clock) && x.cycle == s.job.cycle
  {
  }

  /** Completion has two doors: closing in the first cycle, confirming the review in any later one. */
  lemma CompletedBy(h: Digester, s: State, e: Event)
    requires Reachable(h, s) && s.job.status != Completed && Step(h, s, e).job.status == Completed
    ensures if s.job.cycle == 1 then s.job.status == InProgress && e.EvClose? else s.job.status == QualityReview && e.EvConfirm?
    ensures Closes(h, s)
    ensures Step(h, s, e).job.closedAt == Some(s.clock) && Step(h, s, e).job.cycle == s.job.cycle
    ensures |Step(h, s, e).snapshots| == |s.snapshots| + 1
  {
    assert Finishes(h, s, e) by {
      ReachableInv(h, s);
      JobRowMoves(h, s, e);
      DoorIs(h, s, e, Step(h, s, e).job);
    }
    ReachableInv(h, s);
    JobRowMoves(h, s, e);
    SnapshotRowsMove(h, s, e);
  }

  lemma ReviewDoor(h: Digester, s: State, e: Event, x: Job)
    requires JobMoves(h, s, e, x) && s.job.status != QualityReview
    ensures x.status == QualityReview <==> e.EvClose? && s.job.status == Reopened && Closes(h, s)
  {
  }

  /** The review is entered from a reopened job by closing it, exactly if nothing stands against closing,
      and nothing but the status changes. */
  lemma ReviewIsEntered(h: Digester, s: State, e: Event)
    requires Reachable(h, s) && s.job.status != QualityReview
    ensures Step(h, s, e).job.status == QualityReview <==> e.EvClose? && s.job.status == Reopened && Closes(h, s)
    ensures Step(h, s, e).job.status == QualityReview ==> Step(h, s, e) == s.(job := s.job.(status := QualityReview))
  {
    JobRowMoves(h, s, e);
    ReviewDoor(h, s, e, Step(h, s, e).job);
    if e.EvClose? && s.job.status == Reopened && Closes(h, s) {
      assert Apply(h, s, e) == Ok(s.(job := s.job.(status := QualityReview))) by {
        ReachableInv(h, s);
        ClosesExactly(h, s);
        ApplyClose(h, s, e);
        SentToReview(h, s);
      }
    }
  }

  lemma SentToReview(h: Digester, s: State)
    requires s.job.status == Reopened && ClosingError(h, s).None?
    ensures CloseJob(h, s) == Ok(s.(job := s.job.(status := QualityReview)))
  {
  }

  /** Event n of the run confirms the review. */
  ghost predicate ConfirmsAt(h: Digester, s: State, events: seq<Event>, n: nat) {
    && n < |events| && events[n].EvConfirm?
    && Run(h, s, events[..n]).job.status == QualityReview && Run(h, s, events[..n + 1]).job.status == Completed
  }

  lemma ConfirmsLater(h: Digester, s: State, events: seq<Event>, n: nat)
    requires events != [] && ConfirmsAt(h, Step(h, s, events[0]), events[1..], n)
    ensures ConfirmsAt(h, s, events, n + 1)
  {
    assert events[..n + 1][0] == events[0] && events[..n + 1][1..] == events[1..][..n];
    assert events[..n + 2][0] == events[0] && events[..n + 2][1..] == events[1..][..n + 1];
  }

  lemma ConfirmsNow(h: Digester, s: State, events: seq<Event>)
    requires events != [] && events[0].EvConfirm? && s.job.status == QualityReview && Step(h, s, events[0]).job.status == Completed
    ensures ConfirmsAt(h, s, events, 0)
  {
    assert events[..0] == [] && events[..1] == [events[0]];
    RunOne(h, s, events[0]);
  }

  lemma SnapshotMeansCompleted(h: Digester, s: State, e: Event)
    requires Reachable(h, s) && Step(h, s, e).snapshots != s.snapshots
    ensures s.job.status != Completed && Step(h, s, e).job.status == Completed
  {
    SnapshotRowsMove(h, s, e);
    JobRowMoves(h, s, e);
  }

  lemma CycleStays(h: Digester, s: State, e: Event)
    requires Reachable(h, s) && s.job.status != Completed
    ensures Step(h, s, e).job.cycle == s.job.cycle
  {
    JobRowMoves(h, s, e);
  }

  /** No later cycle is closed without a quality review: a run from an open later cycle that freezes a
      snapshot confirms the review on the way. */
  lemma {:induction false} LaterCyclesAreConfirmed(h: Digester, s: State, events: seq<Event>)
    requires Reachable(h, s) && s.job.cycle > 1 && s.job.status != Completed
    requires Run(h, s, events).snapshots != s.snapshots
    ensures exists n: nat :: ConfirmsAt(h, s, events, n)
    decreases |events|
  {
    var e, t := events[0], Step(h, s, events[0]);
    Reached(h, s, e);
    if t.snapshots != s.snapshots {
      SnapshotMeansCompleted(h, s, e);
    }
    if t.job.status == Completed {
      CompletedBy(h, s, e);
      ConfirmsNow(h, s, events);
    } else {
      CycleStays(h, s, e);
      LaterCyclesAreConfirmed(h, t, events[1..]);
      var n: nat :| ConfirmsAt(h, t, events[1..], n);
      ConfirmsLater(h, s, events, n);
    }
  }

  // ---------------------------------------------------------------- what a displayed summary binds

  /** A registration with a displayed digest succeeds only for the digest of the rows, and whatever
      follows, the row it adds carries that digest. */
  lemma ShownIsSigned(h: Digester, s: State, e: Event, events: seq<Event>)
    requires Reachable(h, s) && e.EvRegisterSignature? && e.shown.Some? && e.shown.value != ""
    requires |Step(h, s, e).signatures| > |s.signatures|
    ensures ChecklistShape(s.checklist, s.steps) && e.shown.value == h(Material(s))
    ensures var sigs := Run(h, Step(h, s, e), events).signatures;
      && |sigs| > |s.signatures|
      && sigs[|s.signatures|].summaryDigest == e.shown.value && sigs[|s.signatures|].signed == Material(s)
      && sigs[|s.signatures|].hash == e.hash && sigs[|s.signatures|].cycle == s.job.cycle
  {
    SignatureRowsMove(h, s, e);
    FrozenForever(h, Step(h, s, e), events);
    assert SignatureAdvances(Step(h, s, e).signatures[|s.signatures|], Run(h, Step(h, s, e), events).signatures[|s.signatures|]);
  }

  /** What the customer signs and what a finished cycle freezes describe the rows of that moment. */
  lemma SignedAndFrozenAreTrue(h: Digester, s: State, e: Event)
    requires Reachable(h, s)
    ensures var t := Step(h, s, e);
      && (|t.signatures| > |s.signatures| ==> Describes(t.signatures[|s.signatures|].signed, s))
      && (|t.snapshots| > |s.snapshots| ==> Describes(t.snapshots[|s.snapshots|].summary, s))
  {
    SummaryIsTrue(h, s);
    SignatureRowsMove(h, s, e);
    SnapshotRowsMove(h, s, e);
  }

  // ---------------------------------------------------------------- why a transaction is refused

  ghost predicate Unknown(s: State, i: nat) {
    s.checklist.None? || i >= |s.steps|
  }

  ghost predicate GatePasses(s: State) {
    && s.checklist.Some? && |s.steps| == |s.checklist.value.defs| && s.steps != []
    && (forall i: nat :: i < |s.steps| ==> StepCloses(s, i))
    && s.openRisks == []
    && exists k: nat :: k < |s.signatures| && s.signatures[k].cycle == s.job.cycle && ReadySignature(s.signatures[k])
  }

  ghost predicate SubmissionFails(s: State, i: nat, input: seq<Submission>, error: Error)
    requires s.checklist.Some? && i < |s.steps| && i < |s.checklist.value.defs|
  {
    var d := s.checklist.value.defs[i];
    match error
    case StepAlreadyCompleted => s.steps[i].status != Pending
    case PhotosRequired => |ReadyIds(s.photos, i, s.steps[i].attempt)| < d.requiredPhotos
    case PreviousStepIncomplete => exists j :: 0 <= j < i && s.steps[j].status !in {StepCompleted, Approved}
    case InvalidMeasurement => exists k :: 0 <= k < |input| && !Known(d.rules, input[k].rule)
    case OutOfRange => exists r :: r in d.rules && OutsideRange(r, input)
    case ColumnOverflow => exists r :: r in d.rules && Overflows(r, input)
    case _ => false
  }

  /** A required value is missing, or the value given lies outside the range. */
  ghost predicate OutsideRange(r: Rule, input: seq<Submission>) {
    || (r.required && forall k: nat :: !Counts(input, r.id, k))
    || exists k: nat :: Counts(input, r.id, k) && !RoundedWithin(r, input[k].product)
  }

  ghost predicate Overflows(r: Rule, input: seq<Submission>) {
    exists k: nat :: Counts(input, r.id, k) && !ColumnHolds(input[k].value)
  }

  /** The rule of the system that the event breaks, for each error. */
  ghost predicate Breaks(h: Digester, s: State, e: Event, error: Error) {
    match e
    case EvStart =>
      (error == InvalidTransition && s.job.status != Draft) || (error == RiskPolicyNotApproved && !s.policyApproved)
    case EvCancel => error == InvalidTransition && s.job.status !in {Draft, InProgress}
    case EvInstallation(_) => error == InvalidTransition && s.job.status !in {Draft, InProgress}
    case EvReassign(_) => error == JobTerminal && s.job.status in {Completed, Cancelled}
    case EvAssign(p) =>
      || (error == JobStateInvalid && s.job.status !in {Draft, InProgress})
      || (error == ChecklistExists && s.checklist.Some?)
      || (error == NoPublishedVersion && p.None?)
      || (error == EmptyVersion && p.Some? && p.value.defs == [])
    case EvComplete(i, input) =>
      if s.job.status !in {InProgress, Reopened} then error == JobNotInProgress
      else if Unknown(s, i) then error == NotFound
      else i < |s.checklist.value.defs| && SubmissionFails(s, i, input, error)
    case EvRedo(i) =>
      if s.job.status != Reopened then error == JobNotReopened
      else if Unknown(s, i) then error == NotFound
      else error == StepNotDone && s.steps[i].status !in {StepCompleted, Approved}
    case EvApprove => error == JobNotWaitingStop && s.job.status != WaitingStopApproval
    case EvReject => error == JobNotWaitingStop && s.job.status != WaitingStopApproval
    case EvRework => error == JobNotRejected && s.job.status != JobRejected
    case EvRegisterPhoto(i, _, _) =>
      if s.job.status !in {InProgress, Reopened} then error == JobNotInProgress
      else if Unknown(s, i) then error == NotFound
      else if s.steps[i].status != Pending then error == StepNotPending
      else error == PhotoLimit && |LiveIds(s.photos, i, s.steps[i].attempt)| >= 10
    case EvRegisterSignature(_, _, shown) =>
      if s.job.status !in {InProgress, Reopened} then error == JobNotInProgress
      else if !AllStepsDone(s) then error == ChecklistIncomplete
      else if !ChecklistShape(s.checklist, s.steps) then false
      else if Stale(h, s, shown) then error == SummaryStale
      else error == SignatureExists && Occupied(h, s)
    case EvClose =>
      if s.job.status !in {InProgress, Reopened} then error == JobNotClosable else ClosingFails(h, s, error)
    case EvConfirm =>
      if s.job.status != QualityReview then error == JobNotInQualityReview else ClosingFails(h, s, error)
    case EvReopen => error == JobNotCompleted && s.job.status != Completed
    case EvTick(_) => false
    case EvPolicy(_) => false
    case EvRisks(_) => false
    case EvParties(_, _) => false
    case _ => error == NoSuchUpload
  }

  ghost predicate ClosingFails(h: Digester, s: State, error: Error) {
    if !GatePasses(s) then error == CompletionBlocked
    else if !s.policyApproved then error == RiskPolicyNotApproved
    else error == SignatureStale && !exists k: nat :: Signs(h, s, k)
  }

  lemma ClosingBreaks(h: Digester, s: State)
    requires Inv(h, s) && ClosingError(h, s).Some?
    ensures ClosingFails(h, s, ClosingError(h, s).value)
  {
    GateIs(h, s);
    SignsIs(h, s);
    GatePassesIs(s);
  }

  lemma GatePassesIs(s: State)
    requires ChecklistShape(s.checklist, s.steps)
    requires CanComplete(s) <==>
      && s.checklist.Some? && AllDone(s.steps) && (forall i: nat :: i < |s.steps| ==> StepCloses(s, i))
      && s.openRisks == [] && Signed(s)
    ensures GatePasses(s) <==> CanComplete(s)
  {
    if GatePasses(s) {
      forall i | 0 <= i < |s.steps| ensures StepDone(s.steps[i].status) {
        assert StepCloses(s, i);
      }
    }
  }

  lemma CompleteBreaks(h: Digester, s: State, e: Event)
    requires e.EvComplete? && ChecklistShape(s.checklist, s.steps) && CompleteStep(s, e.step, e.input).Err?
    ensures Breaks(h, s, e, CompleteStep(s, e.step, e.input).error)
  {
    if IsWorkable(s.job.status) && !Unknown(s, e.step) {
      SubmissionBreaks(s, e.step, e.input);
    }
  }

  lemma SubmissionBreaks(s: State, i: nat, input: seq<Submission>)
    requires IsWorkable(s.job.status) && s.checklist.Some? && i < |s.steps| == |s.checklist.value.defs|
    requires CompleteStep(s, i, input).Err?
    ensures SubmissionFails(s, i, input, CompleteStep(s, i, input).error)
  {
    var d := s.checklist.value.defs[i];
    CountIsReady(s.photos, i, s.steps[i].attempt);
    match CompleteStep(s, i, input).error
    case InvalidMeasurement =>
      var k :| 0 <= k < |input| && !KnownRule(d.rules, input[k].rule);
      assert !Known(d.rules, input[k].rule);
    case OutOfRange =>
      var j :| 0 <= j < |d.rules| && RuleViolated(d.rules[j], input);
      ViolatedIsOutside(d.rules[j], input);
    case ColumnOverflow => SomeOverflows(d.rules, input, i, s.steps[i].attempt);
    case _ =>
  }

  lemma SomeOverflows(rules: seq<Rule>, input: seq<Submission>, i: nat, a: nat)
    requires !RowsFit(RowsFor(rules, input, i, a))
    ensures exists r :: r in rules && Overflows(r, input)
  {
    RowsForAre(rules, input, i, a);
    var rows := RowsFor(rules, input, i, a);
    var p :| 0 <= p < |rows| && !FitsColumn(rows[p].value);
    assert OfSomeRule(rules, input, i, a, rows[p]);
    var j :| 0 <= j < |rules| && OfRule(rules[j], input, i, a, rows[p]);
    TooWide(rules[j], input);
  }

  lemma ViolatedIsOutside(r: Rule, input: seq<Submission>)
    requires RuleViolated(r, input)
    ensures OutsideRange(r, input)
  {
    SubmittedCounts(input, r.id, 0);
    if k: nat :| Counts(input, r.id, k) {
      SubmittedCounts(input, r.id, k);
      WithinIs(r, input[k].product);
    }
  }

  lemma TooWide(r: Rule, input: seq<Submission>)
    requires SubmittedValue(input, r.id).Some? && !FitsColumn(ColumnThousandths(SubmittedValue(input, r.id).value.value))
    ensures Overflows(r, input)
  {
    SubmittedCounts(input, r.id, 0);
    var k: nat :| Counts(input, r.id, k);
    SubmittedCounts(input, r.id, k);
    FitsIs(input[k].value);
  }

  lemma StopBreaks(h: Digester, s: State, e: Event)
    requires Inv(h, s)
    ensures e.EvApprove? && ApproveStop(s).Err? ==> Breaks(h, s, e, ApproveStop(s).error)
    ensures e.EvReject? && RejectStop(s).Err? ==> Breaks(h, s, e, RejectStop(s).error)
    ensures e.EvRework? && ReworkStop(s).Err? ==> Breaks(h, s, e, ReworkStop(s).error)
  {
    if s.job.status == WaitingStopApproval {
      PendingStopIsThere(h, s);
    }
    RejectedStepIsThere(h, s);
  }

  lemma PhotoBreaks(h: Digester, s: State, e: Event)
    requires e.EvRegisterPhoto? && RegisterPhoto(s, e.step, e.size, e.hash).Err?
    ensures Breaks(h, s, e, RegisterPhoto(s, e.step, e.size, e.hash).error)
  {
    if !Unknown(s, e.step) {
      CountIsLive(s.photos, e.step, s.steps[e.step].attempt);
    }
  }

  lemma CloseBreaks(h: Digester, s: State, e: Event)
    requires e.EvClose? && CloseJob(h, s).Err? && (ClosingError(h, s).Some? ==> ClosingFails(h, s, ClosingError(h, s).value))
    ensures Breaks(h, s, e, CloseJob(h, s).error)
  {
  }

  lemma ConfirmBreaks(h: Digester, s: State, e: Event)
    requires e.EvConfirm? && ConfirmQuality(h, s).Err?
    requires ClosingError(h, s).Some? ==> ClosingFails(h, s, ClosingError(h, s).value)
    ensures Breaks(h, s, e, ConfirmQuality(h, s).error)
  {
  }

  lemma SignatureBreaks(h: Digester, s: State, e: Event)
    requires Inv(h, s) && e.EvRegisterSignature? && RegisterSignature(h, s, e.size, e.hash, e.shown).Err?
    ensures Breaks(h, s, e, RegisterSignature(h, s, e.size, e.hash, e.shown).error)
  {
    RegistersExactly(h, s, e.size, e.hash, e.shown);
    SignatureErrors(h, s, e.size, e.hash, e.shown);
  }

  lemma SignatureErrors(h: Digester, s: State, size: nat, hash: Hex, shown: Option<string>)
    requires ChecklistShape(s.checklist, s.steps) && RegisterSignature(h, s, size, hash, shown).Err?
    ensures RegisterSignature(h, s, size, hash, shown).error in {JobNotInProgress, ChecklistIncomplete, SummaryStale, SignatureExists}
  {
  }

  lemma PlainBreaks(h: Digester, s: State, e: Event)
    requires e.EvStart? || e.EvCancel? || e.EvInstallation? || e.EvReassign? || e.EvAssign? || e.EvRedo? || e.EvReopen?
    requires Apply(h, s, e).Err?
    ensures Breaks(h, s, e, Apply(h, s, e).error)
  {
  }

  lemma UploadBreaks(h: Digester, s: State, e: Event)
    requires (TouchesPhotos(e) && !e.EvRegisterPhoto?) || WritesSignature(e)
    requires Apply(h, s, e).Err?
    ensures Breaks(h, s, e, Apply(h, s, e).error)
  {
  }

  lemma OutsideIsAccepted(h: Digester, s: State, e: Event)
    requires e.EvTick? || e.EvPolicy? || e.EvRisks? || e.EvParties?
    ensures Apply(h, s, e).Ok?
  {
  }

  lemma ClosingRefusedForCause(h: Digester, s: State, e: Event)
    requires Inv(h, s) && Apply(h, s, e).Err? && (e.EvClose? || e.EvConfirm?)
    ensures Breaks(h, s, e, Apply(h, s, e).error)
  {
    if ClosingError(h, s).Some? {
      ClosingBreaks(h, s);
    }
    if e.EvClose? {
      ApplyClose(h, s, e);
      CloseBreaks(h, s, e);
    } else {
      ApplyConfirm(h, s, e);
      ConfirmBreaks(h, s, e);
    }
  }

  lemma WorkRefusedForCause(h: Digester, s: State, e: Event)
    requires Inv(h, s) && Apply(h, s, e).Err? && (e.EvComplete? || e.EvApprove? || e.EvReject? || e.EvRework?)
    ensures Breaks(h, s, e, Apply(h, s, e).error)
  {
    if e.EvComplete? {
      CompleteIs(h, s, e);
      CompleteBreaks(h, s, e);
    } else {
      DecisionIs(h, s, e);
      StopBreaks(h, s, e);
    }
  }

  /** A transaction is refused only for a rule it breaks, and the error names that rule. */
  lemma RefusedForCause(h: Digester, s: State, e: Event)
    requires Reachable(h, s) && Apply(h, s, e).Err?
    ensures Breaks(h, s, e, Apply(h, s, e).error)
  {
    ReachableInv(h, s);
    if e.EvComplete? || e.EvApprove? || e.EvReject? || e.EvRework? {
      WorkRefusedForCause(h, s, e);
    } else if e.EvClose? || e.EvConfirm? {
      ClosingRefusedForCause(h, s, e);
    } else if e.EvRegisterPhoto? {
      PhotoIs(h, s, e);
      PhotoBreaks(h, s, e);
    } else if e.EvRegisterSignature? {
      ApplyRegisterSignature(h, s, e);
      SignatureBreaks(h, s, e);
    } else if TouchesPhotos(e) || WritesSignature(e) {
      UploadBreaks(h, s, e);
    } else if e.EvTick? || e.EvPolicy? || e.EvRisks? || e.EvParties? {
      OutsideIsAccepted(h, s, e);
    } else {
      PlainBreaks(h, s, e);
    }
  }
}
