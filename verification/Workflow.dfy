/** The transactions of the job workflow as transitions between states. A transaction runs under
    the job-row lock, so it is one step; an upload is three steps, and anything may happen between. */
module Workflow {
  import opened Prelude
  import opened Text
  import opened JobCycle
  import opened JobModel
  import opened Summaries

  type Outcome = Result<State, Error>

  // ---------------------------------------------------------------- jobs.service

  /** `createJob`: the row a job starts from. */
  function NewJob(id: nat, branchId: nat, technician: Option<nat>, customer: Customer, vehicle: Vehicle, clock: nat): State {
    State(Job(id, branchId, Draft, 1, None, None, technician, Installation(None, None, None, None, None)),
          customer, vehicle, clock, false, [], None, [], [], [], [], [], [], map[])
  }

  function StartJob(s: State): Outcome {
    if s.job.status != Draft then Err(InvalidTransition)
    else if !s.policyApproved then Err(RiskPolicyNotApproved)
    else Ok(s.(job := s.job.(status := InProgress)))
  }

  function CancelJob(s: State): Outcome {
    if s.job.status != Draft && s.job.status != InProgress then Err(InvalidTransition)
    else Ok(s.(job := s.job.(status := Cancelled)))
  }

  function Patched(current: Option<string>, next: Option<Option<string>>): Option<string> {
    if next.Some? then next.value else current
  }

  function UpdateInstallation(s: State, p: InstallationPatch): Outcome {
    if s.job.status != Draft && s.job.status != InProgress then Err(InvalidTransition)
    else
      var x := s.job.installation;
      Ok(s.(job := s.job.(installation := Installation(
        Patched(x.gasType, p.gasType), Patched(x.kit, p.kit), Patched(x.ecu, p.ecu),
        Patched(x.cylinder, p.cylinder), Patched(x.note, p.note)))))
  }

  /** `reassign` and `unassign`: refused on a terminal job. */
  function Reassign(s: State, technician: Option<nat>): Outcome {
    if s.job.status == Completed || s.job.status == Cancelled then Err(JobTerminal)
    else Ok(s.(job := s.job.(technician := technician)))
  }

  // ---------------------------------------------------------------- execution.service

  /** The published version of the chosen template, None if there is none. */
  datatype Published = Published(templateId: nat, version: nat, defs: seq<StepDef>)

  function AssignChecklist(s: State, p: Option<Published>): Outcome {
    if s.job.status != Draft && s.job.status != InProgress then Err(JobStateInvalid)
    else if s.checklist.Some? then Err(ChecklistExists)
    else if p.None? then Err(NoPublishedVersion)
    else if p.value.defs == [] then Err(EmptyVersion)
    else Ok(s.(
      checklist := Some(Checklist(p.value.templateId, p.value.version, p.value.defs, None)),
      steps := seq(|p.value.defs|, _ => StepRow(Pending, 1))))
  }

  predicate EarlierDone(steps: seq<StepRow>, i: nat)
    requires i <= |steps|
  {
    forall j :: 0 <= j < i ==> StepDone(steps[j].status)
  }

  predicate RulesKnown(rules: seq<Rule>, input: seq<Submission>) {
    forall k :: 0 <= k < |input| ==> KnownRule(rules, input[k].rule)
  }

  predicate RulesMet(rules: seq<Rule>, input: seq<Submission>) {
    forall k :: 0 <= k < |rules| ==> !RuleViolated(rules[k], input)
  }

  predicate RowsFit(rows: seq<Measurement>) {
    forall k :: 0 <= k < |rows| ==> FitsColumn(rows[k].value)
  }

  /** `completed_at` is set as soon as no open step remains. */
  function Stamped(c: Option<Checklist>, steps: seq<StepRow>, now: nat): Option<Checklist> {
    if c.Some? && AllDone(steps) then Some(c.value.(completedAt := Some(now))) else c
  }

  function CompleteStep(s: State, i: nat, input: seq<Submission>): Outcome {
    if !IsWorkable(s.job.status) then Err(JobNotInProgress)
    else if s.checklist.None? || i >= |s.steps| || i >= |s.checklist.value.defs| then Err(NotFound)
    else if s.steps[i].status != Pending then Err(StepAlreadyCompleted)
    else
      var d, attempt := s.checklist.value.defs[i], s.steps[i].attempt;
      var rows := RowsFor(d.rules, input, i, attempt);
      if d.requiredPhotos > 0 && Count(s.photos, IsReady(i, attempt)) < d.requiredPhotos then Err(PhotosRequired)
      else if !EarlierDone(s.steps, i) then Err(PreviousStepIncomplete)
      else if !RulesKnown(d.rules, input) then Err(InvalidMeasurement)
      else if !RulesMet(d.rules, input) then Err(OutOfRange)
      else if !RowsFit(rows) then Err(ColumnOverflow)
      else if d.isStop then Ok(s.(
        measurements := s.measurements + rows,
        steps := s.steps[i := StepRow(WaitingApproval, attempt)],
        approvals := s.approvals + [Approval(i, attempt, Undecided)],
        job := s.job.(status := WaitingStopApproval)))
      else
        var steps := s.steps[i := StepRow(StepCompleted, attempt)];
        Ok(s.(measurements := s.measurements + rows, steps := steps, checklist := Stamped(s.checklist, steps, s.clock)))
  }

  function RedoStep(s: State, i: nat): Outcome {
    if s.job.status != Reopened then Err(JobNotReopened)
    else if s.checklist.None? || i >= |s.steps| then Err(NotFound)
    else if !StepDone(s.steps[i].status) then Err(StepNotDone)
    else Ok(s.(
      steps := s.steps[i := StepRow(Pending, s.steps[i].attempt + 1)],
      checklist := Some(s.checklist.value.(completedAt := None))))
  }

  // ---------------------------------------------------------------- stop.service

  /** `lockPendingStop`: the undecided approval whose step waits for it. */
  function LockPendingStop(s: State): (r: Result<nat, Error>)
    ensures r.Ok? ==> r.value < |s.approvals| && s.approvals[r.value].step < |s.steps|
  {
    if s.job.status != WaitingStopApproval then Err(JobNotWaitingStop)
    else
      var k := FirstUndecided(s.approvals);
      if k.None? then Err(NoPendingStop)
      else
        var i := s.approvals[k.value].step;
        if i >= |s.steps| || s.steps[i].status != WaitingApproval then Err(StopStepStateInvalid) else Ok(k.value)
  }

  function Working(s: State): JobStatus {
    WorkingStatus(s.job.status, s.job.closedAt, s.job.reopenedAt)
  }

  function Decide(s: State, k: nat, d: Decision, st: StepStatus): State
    requires k < |s.approvals| && s.approvals[k].step < |s.steps|
  {
    var i := s.approvals[k].step;
    s.(approvals := s.approvals[k := s.approvals[k].(decision := d)],
       steps := s.steps[i := s.steps[i].(status := st)])
  }

  function ApproveStop(s: State): Outcome {
    match LockPendingStop(s)
    case Err(e) => Err(e)
    case Ok(k) =>
      var t := Decide(s, k, StopApproved, Approved);
      Ok(t.(job := s.job.(status := Working(s)), checklist := Stamped(s.checklist, t.steps, s.clock)))
  }

  function RejectStop(s: State): Outcome {
    match LockPendingStop(s)
    case Err(e) => Err(e)
    case Ok(k) => Ok(Decide(s, k, StopRejected, StepRejected).(job := s.job.(status := JobRejected)))
  }

  function ReworkStop(s: State): Outcome {
    if s.job.status != JobRejected then Err(JobNotRejected)
    else if s.checklist.None? then Err(NoChecklist)
    else
      var i := FirstRejected(s.steps);
      if i.None? then Err(NoRejectedStep)
      else Ok(s.(
        steps := s.steps[i.value := StepRow(Pending, s.steps[i.value].attempt + 1)],
        job := s.job.(status := Working(s))))
  }

  // ---------------------------------------------------------------- photos.service

  /** First transaction of `uploadStepPhoto`. */
  function RegisterPhoto(s: State, i: nat, size: nat, hash: Hex): Outcome {
    if !IsWorkable(s.job.status) then Err(JobNotInProgress)
    else if s.checklist.None? || i >= |s.steps| then Err(NotFound)
    else if s.steps[i].status != Pending then Err(StepNotPending)
    else
      var attempt := s.steps[i].attempt;
      if Count(s.photos, IsActive(i, attempt)) >= MAX_PHOTOS_PER_ATTEMPT then Err(PhotoLimit)
      else Ok(s.(photos := s.photos + [Photo(i, attempt, InFlight, size, hash, None, Writing, None)]))
  }

  /** The storage write: what the provider reports about the stored object. */
  function PutPhoto(s: State, id: nat, r: PutResult): Outcome {
    if id >= |s.photos| || s.photos[id].upload != Writing then Err(NoSuchUpload)
    else
      var x := s.photos[id];
      var u := if r.Wrote? && r.size == x.size then Written else WriteFailed;
      Ok(s.(photos := s.photos[id := x.(upload := u, storedSize := if r.Wrote? then Some(r.size) else None)],
            objects := if r.Wrote? then s.objects[PhotoObject(id) := r.size] else s.objects))
  }

  /** The step still waits for evidence of the attempt the upload was registered for. */
  predicate UploadStillValid(s: State, p: Photo) {
    IsWorkable(s.job.status) && p.step < |s.steps| && s.steps[p.step] == StepRow(Pending, p.attempt)
  }

  /** Second transaction: READY, or FAILED with the object deleted. */
  function FinalizePhoto(s: State, id: nat): Outcome {
    if id >= |s.photos| || s.photos[id].upload != Written then Err(NoSuchUpload)
    else
      var p := s.photos[id].(upload := Over);
      if p.status != InFlight then Ok(s.(photos := s.photos[id := p], objects := s.objects - {PhotoObject(id)}))
      else if UploadStillValid(s, p) then Ok(s.(photos := s.photos[id := p.(status := Ready, readyAt := Some(s.clock))]))
      else Ok(s.(photos := s.photos[id := p.(status := Failed)], objects := s.objects - {PhotoObject(id)}))
  }

  /** `markPhotoFailed` after a failed write. */
  function FailPhoto(s: State, id: nat): Outcome {
    if id >= |s.photos| || s.photos[id].upload != WriteFailed then Err(NoSuchUpload)
    else
      var p := s.photos[id].(upload := Over);
      Ok(s.(photos := s.photos[id := if p.status == InFlight then p.(status := Failed) else p]))
  }

  /** Reconciliation marks a photo FAILED: a READY one whose object is lost, a stale pending one. */
  function LosePhoto(s: State, id: nat): Outcome {
    if id >= |s.photos| || s.photos[id].status == Failed then Err(NoSuchUpload)
    else Ok(s.(photos := s.photos[id := s.photos[id].(status := Failed)]))
  }

  // ---------------------------------------------------------------- the completion gate

  predicate StepPhotosOk(s: State, i: nat)
    requires s.checklist.Some? && i < |s.checklist.value.defs|
  {
    var n := s.checklist.value.defs[i].requiredPhotos;
    n > 0 ==> Count(s.photos, IsReady(i, RelevantAttempt(s.approvals, i))) >= n
  }

  predicate RuleOk(s: State, i: nat, r: Rule) {
    var row := StoredRow(s.measurements, i, r.id, RelevantAttempt(s.approvals, i));
    r.required ==> row.Some? && InRange(r, row.value.value)
  }

  predicate StepMeasurementsOk(s: State, i: nat)
    requires s.checklist.Some? && i < |s.checklist.value.defs|
  {
    forall k :: 0 <= k < |s.checklist.value.defs[i].rules| ==> RuleOk(s, i, s.checklist.value.defs[i].rules[k])
  }

  predicate NoStepIs(s: State, st: StepStatus) {
    forall i :: 0 <= i < |s.steps| ==> s.steps[i].status != st
  }

  predicate PhotosOk(s: State) {
    s.checklist.Some? && forall i :: 0 <= i < |s.checklist.value.defs| ==> StepPhotosOk(s, i)
  }

  predicate MeasurementsOk(s: State) {
    s.checklist.Some? && forall i :: 0 <= i < |s.checklist.value.defs| ==> StepMeasurementsOk(s, i)
  }

  predicate Signed(s: State) {
    LatestReady(s.signatures, s.job.cycle).Some?
  }

  /** The decision of `validateJobCompletion`. */
  predicate CanComplete(s: State) {
    && s.checklist.Some?
    && NoStepIs(s, Pending) && NoStepIs(s, WaitingApproval) && NoStepIs(s, StepRejected)
    && PhotosOk(s)
    && MeasurementsOk(s)
    && s.openRisks == []
    && Signed(s)
  }

  // ---------------------------------------------------------------- the object check

  /** Photo k is one of those the gate counts for a step that requires photos. */
  ghost predicate CountedByGate(s: State, k: nat) {
    && s.checklist.Some? && k < |s.photos| && s.photos[k].step < |s.checklist.value.defs|
    && s.checklist.value.defs[s.photos[k].step].requiredPhotos > 0
    && IsReady(s.photos[k].step, RelevantAttempt(s.approvals, s.photos[k].step))(s.photos[k])
  }

  ghost predicate ObjectMatches(objects: map<ObjectKey, nat>, key: ObjectKey, size: nat) {
    key in objects && objects[key] == size
  }

  /** Every object behind the evidence the gate relies on is there at its recorded size. */
  ghost predicate EvidenceIntact(s: State) {
    && (forall k: nat :: CountedByGate(s, k) ==> ObjectMatches(s.objects, PhotoObject(k), s.photos[k].size))
    && var g := LatestReady(s.signatures, s.job.cycle);
      g.Some? ==> ObjectMatches(s.objects, SignatureObject(g.value), s.signatures[g.value].size)
  }

  // ---------------------------------------------------------------- completion.service

  /** First transaction of `saveSignature`. */
  function RegisterSignature(h: Digester, s: State, size: nat, hash: Hex, shown: Option<string>): Outcome {
    if !IsWorkable(s.job.status) then Err(JobNotInProgress)
    else if s.checklist.None? || s.checklist.value.completedAt.None? then Err(ChecklistIncomplete)
    else if !ChecklistShape(s.checklist, s.steps) then Err(NotFound)
    else
      var bound := CurrentDigest(h, s);
      if shown.Some? && shown.value != "" && shown.value != bound then Err(SummaryStale)
      else
        var added := Signature(s.job.cycle, InFlight, false, size, hash, bound, Material(s), Writing, None);
        var k := LatestActive(s.signatures, s.job.cycle);
        if k.None? then Ok(s.(signatures := s.signatures + [added]))
        else
          var x := s.signatures[k.value];
          if x.status == InFlight || x.summaryDigest == bound then Err(SignatureExists)
          else Ok(s.(signatures := s.signatures[k.value := x.(superseded := true)] + [added]))
  }

  function PutSignature(s: State, id: nat, r: PutResult): Outcome {
    if id >= |s.signatures| || s.signatures[id].upload != Writing then Err(NoSuchUpload)
    else
      var x := s.signatures[id];
      var u := if r.Wrote? && r.size == x.size then Written else WriteFailed;
      Ok(s.(signatures := s.signatures[id := x.(upload := u, storedSize := if r.Wrote? then Some(r.size) else None)],
            objects := if r.Wrote? then s.objects[SignatureObject(id) := r.size] else s.objects))
  }

  function FinalizeSignature(s: State, id: nat): Outcome {
    if id >= |s.signatures| || s.signatures[id].upload != Written then Err(NoSuchUpload)
    else
      var x := s.signatures[id].(upload := Over);
      if x.status != InFlight then Ok(s.(signatures := s.signatures[id := x], objects := s.objects - {SignatureObject(id)}))
      else if IsWorkable(s.job.status) && s.job.cycle == x.cycle then Ok(s.(signatures := s.signatures[id := x.(status := Ready)]))
      else Ok(s.(signatures := s.signatures[id := x.(status := Failed)], objects := s.objects - {SignatureObject(id)}))
  }

  function FailSignature(s: State, id: nat): Outcome {
    if id >= |s.signatures| || s.signatures[id].upload != WriteFailed then Err(NoSuchUpload)
    else
      var x := s.signatures[id].(upload := Over);
      Ok(s.(signatures := s.signatures[id := if x.status == InFlight then x.(status := Failed) else x]))
  }

  function LoseSignature(s: State, id: nat): Outcome {
    if id >= |s.signatures| || s.signatures[id].status == Failed then Err(NoSuchUpload)
    else Ok(s.(signatures := s.signatures[id := s.signatures[id].(status := Failed)]))
  }

  /** `assertSignatureFresh`: the accepted signature is over the current summary. */
  predicate SignatureFresh(h: Digester, s: State)
    requires ChecklistShape(s.checklist, s.steps)
  {
    var k := LatestReady(s.signatures, s.job.cycle);
    k.Some? ==> s.signatures[k.value].summaryDigest == CurrentDigest(h, s)
  }

  predicate HasSnapshot(snaps: seq<Snapshot>, cycle: nat) {
    exists k :: 0 <= k < |snaps| && snaps[k].cycle == cycle
  }

  /** `finalizeSnapshot`: at most one per cycle, built from the rows as they are now. */
  function FinalizeSnapshot(h: Digester, s: State): seq<Snapshot>
    requires ChecklistShape(s.checklist, s.steps)
  {
    if HasSnapshot(s.snapshots, s.job.cycle) then s.snapshots
    else
      var k := LatestReady(s.signatures, s.job.cycle);
      var hash := if k.Some? then Some(s.signatures[k.value].hash) else None;
      s.snapshots + [Snapshot(s.job.cycle, Material(s), CurrentDigest(h, s), k, hash)]
  }

  /** What both closing transactions demand after their status check. */
  function ClosingError(h: Digester, s: State): Option<Error> {
    if !CanComplete(s) || !ChecklistShape(s.checklist, s.steps) then Some(CompletionBlocked)
    else if !s.policyApproved then Some(RiskPolicyNotApproved)
    else if !SignatureFresh(h, s) then Some(SignatureStale)
    else None
  }

  function Close(h: Digester, s: State): State
    requires ChecklistShape(s.checklist, s.steps)
  {
    s.(job := s.job.(status := Completed, closedAt := Some(s.clock)), snapshots := FinalizeSnapshot(h, s))
  }

  function CloseJob(h: Digester, s: State): Outcome {
    if s.job.status != InProgress && s.job.status != Reopened then Err(JobNotClosable)
    else
      var e := ClosingError(h, s);
      if e.Some? then Err(e.value)
      else if s.job.status == Reopened then Ok(s.(job := s.job.(status := QualityReview)))
      else Ok(Close(h, s))
  }

  function ConfirmQuality(h: Digester, s: State): Outcome {
    if s.job.status != QualityReview then Err(JobNotInQualityReview)
    else
      var e := ClosingError(h, s);
      if e.Some? then Err(e.value) else Ok(Close(h, s))
  }

  function Supersede(sigs: seq<Signature>, cycle: nat): seq<Signature> {
    seq(|sigs|, k requires 0 <= k < |sigs| =>
      if sigs[k].cycle == cycle && sigs[k].status == Ready then sigs[k].(superseded := true) else sigs[k])
  }

  function ReopenJob(s: State): Outcome {
    if s.job.status != Completed then Err(JobNotCompleted)
    else Ok(s.(
      job := s.job.(status := Reopened, cycle := s.job.cycle + 1, reopenedAt := Some(s.clock)),
      signatures := Supersede(s.signatures, s.job.cycle)))
  }

  // ---------------------------------------------------------------- runs

  datatype Event =
    | EvStart
    | EvCancel
    | EvInstallation(patch: InstallationPatch)
    | EvReassign(technician: Option<nat>)
    | EvAssign(published: Option<Published>)
    | EvComplete(step: nat, input: seq<Submission>)
    | EvRedo(step: nat)
    | EvApprove
    | EvReject
    | EvRework
    | EvRegisterPhoto(step: nat, size: nat, hash: Hex)
    | EvPutPhoto(id: nat, put: PutResult)
    | EvFinalizePhoto(id: nat)
    | EvFailPhoto(id: nat)
    | EvLosePhoto(id: nat)
    | EvRegisterSignature(size: nat, hash: Hex, shown: Option<string>)
    | EvPutSignature(id: nat, put: PutResult)
    | EvFinalizeSignature(id: nat)
    | EvFailSignature(id: nat)
    | EvLoseSignature(id: nat)
    | EvClose
    | EvConfirm
    | EvReopen
    | EvTick(seconds: nat)
    | EvPolicy(approved: bool)
    | EvRisks(open: seq<nat>)
    | EvParties(customer: Customer, vehicle: Vehicle)

  function Apply(h: Digester, s: State, e: Event): Outcome {
    match e
    case EvStart => StartJob(s)
    case EvCancel => CancelJob(s)
    case EvInstallation(p) => UpdateInstallation(s, p)
    case EvReassign(t) => Reassign(s, t)
    case EvAssign(p) => AssignChecklist(s, p)
    case EvComplete(i, input) => CompleteStep(s, i, input)
    case EvRedo(i) => RedoStep(s, i)
    case EvApprove => ApproveStop(s)
    case EvReject => RejectStop(s)
    case EvRework => ReworkStop(s)
    case EvRegisterPhoto(i, size, hash) => RegisterPhoto(s, i, size, hash)
    case EvPutPhoto(id, r) => PutPhoto(s, id, r)
    case EvFinalizePhoto(id) => FinalizePhoto(s, id)
    case EvFailPhoto(id) => FailPhoto(s, id)
    case EvLosePhoto(id) => LosePhoto(s, id)
    case EvRegisterSignature(size, hash, shown) => RegisterSignature(h, s, size, hash, shown)
    case EvPutSignature(id, r) => PutSignature(s, id, r)
    case EvFinalizeSignature(id) => FinalizeSignature(s, id)
    case EvFailSignature(id) => FailSignature(s, id)
    case EvLoseSignature(id) => LoseSignature(s, id)
    case EvClose => CloseJob(h, s)
    case EvConfirm => ConfirmQuality(h, s)
    case EvReopen => ReopenJob(s)
    case EvTick(n) => Ok(s.(clock := s.clock + n))
    case EvPolicy(b) => Ok(s.(policyApproved := b))
    case EvRisks(ids) => Ok(s.(openRisks := ids))
    case EvParties(c, v) => Ok(s.(customer := c, vehicle := v))
  }

  /** A refused transaction rolls back. */
  function Step(h: Digester, s: State, e: Event): State {
    match Apply(h, s, e)
    case Ok(t) => t
    case Err(_) => s
  }

  function Run(h: Digester, s: State, events: seq<Event>): State
    decreases |events|
  {
    if events == [] then s else Run(h, Step(h, s, events[0]), events[1..])
  }
}
