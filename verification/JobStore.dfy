/** The transactions as they update the tables in place; each is proved against its transition. */
module JobStore {
  import opened Prelude
  import opened Text
  import opened JobCycle
  import opened JobModel
  import opened Summaries
  import opened Workflow
  import opened WorkflowEvidence
  import opened WorkflowTheorems
  import opened WorkflowReached
  import opened WorkflowRows
  import opened WorkflowMoves
  import opened WorkflowUploads
  import opened WorkflowLaws

  /** A transaction commits the new state or rolls back and reports its error. */
  ghost predicate Commits(before: State, after: State, r: Option<Error>, o: Outcome) {
    match o
    case Ok(t) => r == None && after == t
    case Err(e) => r == Some(e) && after == before
  }

  // ---------------------------------------------------------------- query order

  function InsertDesc(a: Approval, rows: seq<Approval>): seq<Approval> {
    if rows == [] || rows[0].attempt <= a.attempt then [a] + rows else [rows[0]] + InsertDesc(a, rows[1..])
  }

  /** Approvals ordered by attempt, highest first. */
  function ByAttemptDesc(aps: seq<Approval>): seq<Approval> {
    if aps == [] then [] else InsertDesc(aps[|aps| - 1], ByAttemptDesc(aps[..|aps| - 1]))
  }

  ghost predicate Descending(rows: seq<Approval>) {
    forall k, l :: 0 <= k < l < |rows| ==> rows[k].attempt >= rows[l].attempt
  }

  lemma {:induction false} InsertDescSorted(a: Approval, rows: seq<Approval>)
    requires Descending(rows)
    ensures Descending(InsertDesc(a, rows))
    ensures forall x :: x in InsertDesc(a, rows) <==> x == a || x in rows
  {
    if rows != [] && rows[0].attempt > a.attempt {
      InsertDescSorted(a, rows[1..]);
      var t := InsertDesc(a, rows[1..]);
      assert rows == [rows[0]] + rows[1..];
      forall x | x in t ensures rows[0].attempt >= x.attempt {}
      assert forall k :: 0 <= k < |t| ==> t[k] in t;
    }
  }

  lemma {:induction false} ByAttemptDescSorted(aps: seq<Approval>)
    ensures Descending(ByAttemptDesc(aps))
    ensures forall x :: x in ByAttemptDesc(aps) <==> x in aps
  {
    if aps != [] {
      var n := |aps| - 1;
      ByAttemptDescSorted(aps[..n]);
      InsertDescSorted(aps[n], ByAttemptDesc(aps[..n]));
      assert aps == aps[..n] + [aps[n]];
    }
  }

  /** The first row of each step decides, as in the map the gate, the object check and the summary build. */
  ghost predicate FirstOfEach(latest: map<nat, nat>, rows: seq<Approval>) {
    && (forall k :: 0 <= k < |rows| ==> rows[k].step in latest && rows[k].attempt <= latest[rows[k].step])
    && (forall i :: i in latest ==> exists k :: 0 <= k < |rows| && rows[k].step == i && rows[k].attempt == latest[i])
  }

  function Lookup(latest: map<nat, nat>, i: nat): nat {
    if i in latest then latest[i] else 1
  }

  lemma LookupBounds(aps: seq<Approval>, latest: map<nat, nat>, i: nat)
    requires FirstOfEach(latest, ByAttemptDesc(aps))
    ensures i in latest ==> exists k :: 0 <= k < |aps| && aps[k].step == i && aps[k].attempt == latest[i]
    ensures forall k :: 0 <= k < |aps| && aps[k].step == i ==> i in latest && aps[k].attempt <= latest[i]
  {
    ByAttemptDescSorted(aps);
    var rows := ByAttemptDesc(aps);
    if i in latest {
      var k :| 0 <= k < |rows| && rows[k].step == i && rows[k].attempt == latest[i];
      assert rows[k] in aps;
    }
    forall k | 0 <= k < |aps| && aps[k].step == i ensures i in latest && aps[k].attempt <= latest[i] {
      assert aps[k] in rows;
    }
  }

  lemma LookupIsRelevant(aps: seq<Approval>, latest: map<nat, nat>, i: nat)
    requires FirstOfEach(latest, ByAttemptDesc(aps))
    requires forall k :: 0 <= k < |aps| ==> aps[k].attempt >= 1
    ensures Lookup(latest, i) == RelevantAttempt(aps, i)
  {
    LookupBounds(aps, latest, i);
    assert LatestAttempt(aps, i) == if i in latest then latest[i] else 0;
  }

  // ---------------------------------------------------------------- object check

  datatype Target = Target(key: ObjectKey, size: nat)

  function ReadyTargets(ps: seq<Photo>, step: nat, attempt: nat): seq<Target> {
    if ps == [] then []
    else
      var id := |ps| - 1;
      ReadyTargets(ps[..id], step, attempt)
      + if IsReady(step, attempt)(ps[id]) then [Target(PhotoObject(id), ps[id].size)] else []
  }

  lemma {:induction false} ReadyTargetsAre(ps: seq<Photo>, step: nat, attempt: nat, t: Target)
    ensures t in ReadyTargets(ps, step, attempt) <==>
      t.key.PhotoObject? && t.key.id < |ps| && IsReady(step, attempt)(ps[t.key.id]) && t.size == ps[t.key.id].size
  {
    if ps != [] {
      ReadyTargetsAre(ps[..|ps| - 1], step, attempt, t);
    }
  }

  datatype Reason =
    | ChecklistNotAssigned
    | ChecklistUnfinished
    | StopApprovalPending
    | StopIsRejected
    | RequiredPhotosMissing(step: nat)
    | InvalidMeasurementOf(step: nat, rule: nat)
    | CriticalRiskUnresolved
    | CustomerSignatureRequired

  // ---------------------------------------------------------------- what the transactions promise

  lemma GoesBack(h: Digester, s: State)
    requires Reachable(h, s)
    ensures s.job.status in {WaitingStopApproval, JobRejected} ==>
      WorkingStatus(s.job.status, s.job.closedAt, s.job.reopenedAt) == if s.job.cycle == 1 then InProgress else Reopened
  {
    ReachableInv(h, s);
  }

  /** The undecided approval and its waiting step took the decision; nothing else changed in either table. */
  ghost predicate DecidedOne(s: State, steps: seq<StepRow>, aps: seq<Approval>, k: nat, d: Decision, st: StepStatus) {
    && ThePendingStop(s, k)
    && aps == s.approvals[k := s.approvals[k].(decision := d)]
    && steps == s.steps[s.approvals[k].step := StepRow(st, s.approvals[k].attempt)]
  }

  /** Rejected step i waits on its next attempt. */
  ghost predicate WorkedAgain(before: seq<StepRow>, steps: seq<StepRow>, i: nat) {
    i < |before| && before[i].status == StepRejected && steps == before[i := StepRow(Pending, before[i].attempt + 1)]
  }

  /** One more snapshot, of the cycle and of the rows as they are. */
  ghost predicate Frozen(s: State, snaps: seq<Snapshot>) {
    && |snaps| == |s.snapshots| + 1 && snaps[..|s.snapshots|] == s.snapshots
    && snaps[|s.snapshots|].cycle == s.job.cycle && Describes(snaps[|s.snapshots|].summary, s)
  }

  lemma ClosingKnown(h: Digester, s: State)
    requires Reachable(h, s)
    ensures ChecklistShape(s.checklist, s.steps)
    ensures ClosingError(h, s).None? <==> Closes(h, s)
    ensures Closes(h, s) && s.job.status != Completed ==> Frozen(s, FinalizeSnapshot(h, s))
  {
    SummaryIsTrue(h, s);
    ReachableInv(h, s);
    ClosesExactly(h, s);
    if Closes(h, s) && s.job.status != Completed {
      NewSnapshot(h, s);
    }
  }

  /** One more signature, under way, over the rows as they are; the live one of the cycle is superseded. */
  ghost predicate SignedOver(h: Digester, s: State, sigs: seq<Signature>, size: nat, hash: Hex) {
    && |sigs| == |s.signatures| + 1
    && (forall k: nat :: k < |s.signatures| ==> sigs[k] == if Live(s, k) then s.signatures[k].(superseded := true) else s.signatures[k])
    && var x := sigs[|s.signatures|];
      && x.cycle == s.job.cycle && x.status == InFlight && !x.superseded && x.size == size && x.hash == hash
      && x.upload == Writing && x.storedSize == None && x.summaryDigest == h(x.signed) && Describes(x.signed, s)
  }

  lemma AnswersExactly(h: Digester, s: State, size: nat, hash: Hex, shown: Option<string>)
    requires Reachable(h, s)
    ensures ChecklistShape(s.checklist, s.steps)
    ensures var o := RegisterSignature(h, s, size, hash, shown);
      && (o == Err(SummaryStale) <==> Signable(s) && Stale(h, s, shown))
      && (o == Err(SignatureExists) <==> Signable(s) && !Stale(h, s, shown) && Occupied(h, s))
      && (o.Ok? <==> Signable(s) && !Stale(h, s, shown) && !Occupied(h, s))
      && (o.Ok? ==> SignedOver(h, s, o.value.signatures, size, hash))
      && (o.Ok? && shown.Some? && shown.value != "" ==> o.value.signatures[|s.signatures|].summaryDigest == shown.value)
  {
    SummaryIsTrue(h, s);
    ReachableInv(h, s);
    RegistersExactly(h, s, size, hash, shown);
    if RegisterSignature(h, s, size, hash, shown).Ok? {
      RegisteredRow(h, s, size, hash, shown);
      forall k: nat | k < |s.signatures| {
        RegisteredRows(h, s, size, hash, shown, k);
      }
    }
  }

  datatype Conditions =
    Conditions(checklist: bool, stops: bool, photos: bool, measurements: bool, risks: bool, signature: bool)

  class JobStore {
    const h: Digester
    var job: Job
    var customer: Customer
    var vehicle: Vehicle
    var clock: nat
    var policyApproved: bool
    var openRisks: seq<nat>
    var checklist: Option<Checklist>
    var steps: seq<StepRow>
    var approvals: seq<Approval>
    var measurements: seq<Measurement>
    var photos: seq<Photo>
    var signatures: seq<Signature>
    var snapshots: seq<Snapshot>
    var objects: map<ObjectKey, nat>

    ghost function View(): State
      reads this
    {
      State(job, customer, vehicle, clock, policyApproved, openRisks, checklist, steps, approvals, measurements,
            photos, signatures, snapshots, objects)
    }

    /** Some run of transactions, uploads and outside changes leads from a new job to these tables, so
        every theorem about reachable states holds of them. */
    ghost predicate Valid()
      reads this
    {
      Reachable(h, View())
    }

    /** What the steps of one transaction may rely on. */
    ghost predicate Shaped()
      reads this
    {
      && ChecklistShape(checklist, steps)
      && (forall i :: 0 <= i < |steps| ==> steps[i].attempt >= 1)
      && (forall k :: 0 <= k < |approvals| ==> approvals[k].attempt >= 1)
    }

    lemma ValidIsShaped()
      requires Valid()
      ensures Shaped()
    {
      StepsAreShaped(h, View());
    }

    /** `createJob`. */
    constructor (h: Digester, id: nat, branchId: nat, technician: Option<nat>, customer: Customer, vehicle: Vehicle, clock: nat)
      ensures Valid() && this.h == h && View() == NewJob(id, branchId, technician, customer, vehicle, clock)
      ensures job.id == id && job.branchId == branchId && job.technician == technician && job.status == Draft && job.cycle == 1
      ensures job.closedAt == None && job.reopenedAt == None && checklist == None && steps == [] && snapshots == []
    {
      this.h, this.customer, this.vehicle, this.clock := h, customer, vehicle, clock;
      job := Job(id, branchId, Draft, 1, None, None, technician, Installation(None, None, None, None, None));
      policyApproved, openRisks, checklist, steps, approvals := false, [], None, [], [];
      measurements, photos, signatures, snapshots, objects := [], [], [], [], map[];
      new;
      assert IsNewJob(View()) && View() == Run(h, View(), []);
    }

    // -------------------------------------------------------------- jobs.service

    method Start() returns (r: Option<Error>)
      requires Valid()
      modifies this`job
      ensures Valid() && Commits(old(View()), View(), r, StartJob(old(View())))
    {
      StartReached(h, View());
      if job.status != Draft { return Some(InvalidTransition); }
      if !policyApproved { return Some(RiskPolicyNotApproved); }
      job := job.(status := InProgress);
      r := None;
    }

    method Cancel() returns (r: Option<Error>)
      requires Valid()
      modifies this`job
      ensures Valid() && Commits(old(View()), View(), r, CancelJob(old(View())))
    {
      CancelReached(h, View());
      if job.status != Draft && job.status != InProgress { return Some(InvalidTransition); }
      job := job.(status := Cancelled);
      r := None;
    }

    /** Only the fields present in the patch are written. */
    method Merge(x: Installation, p: InstallationPatch) returns (y: Installation)
      ensures Overlaid(x, p, y)
    {
      y := x;
      if p.gasType.Some? { y := y.(gasType := p.gasType.value); }
      if p.kit.Some? { y := y.(kit := p.kit.value); }
      if p.ecu.Some? { y := y.(ecu := p.ecu.value); }
      if p.cylinder.Some? { y := y.(cylinder := p.cylinder.value); }
      if p.note.Some? { y := y.(note := p.note.value); }
    }

    method PatchInstallation(p: InstallationPatch) returns (r: Option<Error>)
      requires Valid()
      modifies this`job
      ensures Valid() && Commits(old(View()), View(), r, UpdateInstallation(old(View()), p))
      ensures r == None ==> Overlaid(old(job.installation), p, job.installation)
    {
      InstallationReached(h, View(), p);
      if job.status != Draft && job.status != InProgress { return Some(InvalidTransition); }
      var y := Merge(job.installation, p);
      job := job.(installation := y);
      r := None;
    }

    method ReassignTo(t: Option<nat>) returns (r: Option<Error>)
      requires Valid()
      modifies this`job
      ensures Valid() && Commits(old(View()), View(), r, Reassign(old(View()), t))
    {
      ReassignedReached(h, View(), t);
      if job.status == Completed || job.status == Cancelled { return Some(JobTerminal); }
      job := job.(technician := t);
      r := None;
    }

    /** Time passes, and the risk module sets its policy and the open risks of the job. */
    method Outside(seconds: nat, approved: bool, risks: seq<nat>)
      requires Valid()
      modifies this`clock, this`policyApproved, this`openRisks
      ensures Valid()
      ensures View() == old(View()).(clock := old(clock) + seconds, policyApproved := approved, openRisks := risks)
    {
      TickReached(h, View(), seconds);
      clock := clock + seconds;
      PolicyReached(h, View(), approved);
      policyApproved := approved;
      RisksReached(h, View(), risks);
      openRisks := risks;
    }

    // -------------------------------------------------------------- execution.service

    method Assign(p: Option<Published>) returns (r: Option<Error>)
      requires Valid()
      modifies this`checklist, this`steps
      ensures Valid() && Commits(old(View()), View(), r, AssignChecklist(old(View()), p))
    {
      ValidIsShaped();
      AssignReached(h, View(), p);
      if job.status != Draft && job.status != InProgress { return Some(JobStateInvalid); }
      if checklist.Some? { return Some(ChecklistExists); }
      if p.None? { return Some(NoPublishedVersion); }
      var defs := p.value.defs;
      if defs == [] { return Some(EmptyVersion); }
      checklist := Some(Checklist(p.value.templateId, p.value.version, defs, None));
      for k := 0 to |defs|
        invariant steps == seq(k, _ => StepRow(Pending, 1))
        modifies this`steps
      {
        steps := steps + [StepRow(Pending, 1)];
      }
      r := None;
    }

    /** The validation loop over the step's rules: the rows to store, and the rules that fail. */
    method Validate(d: StepDef, i: nat, attempt: nat, input: seq<Submission>)
      returns (toStore: seq<Measurement>, failed: seq<nat>)
      ensures failed == [] <==> RulesMet(d.rules, input)
      ensures failed == [] ==> toStore == RowsFor(d.rules, input, i, attempt)
    {
      toStore, failed := [], [];
      for k := 0 to |d.rules|
        invariant failed == [] <==> forall j :: 0 <= j < k ==> !RuleViolated(d.rules[j], input)
        invariant failed == [] ==> toStore == RowsFor(d.rules[..k], input, i, attempt)
      {
        var def := d.rules[k];
        assert d.rules[..k + 1][..k] == d.rules[..k];
        match SubmittedValue(input, def.id)
        case None =>
          if def.required { failed := failed + [def.id]; }
        case Some(x) =>
          var v := ToThousandths(x.product);
          if InRange(def, v) {
            toStore := toStore + [Measurement(i, def.id, attempt, x.value, v, ColumnThousandths(x.value))];
          } else {
            failed := failed + [def.id];
          }
      }
      assert d.rules[..|d.rules|] == d.rules;
    }

    /** The inserts of one step's values: the first that overflows its column rolls them back. */
    method StoreMeasurements(rows: seq<Measurement>) returns (ok: bool)
      modifies this`measurements
      ensures ok <==> RowsFit(rows)
      ensures measurements == if ok then old(measurements) + rows else old(measurements)
    {
      var saved := measurements;
      for n := 0 to |rows|
        invariant measurements == saved + rows[..n]
        invariant RowsFit(rows[..n])
      {
        if !FitsColumn(rows[n].value) {
          measurements := saved;
          return false;
        }
        measurements := measurements + [rows[n]];
      }
      assert rows[..|rows|] == rows;
      ok := true;
    }

    /** The checks of `completeStep`, in its order, before anything is written. */
    method CheckStep(i: nat, input: seq<Submission>) returns (r: Option<Error>, toStore: seq<Measurement>)
      requires Shaped()
      ensures r.Some? ==> CompleteStep(View(), i, input) == Err(r.value)
      ensures r.None? ==> Accepts(View(), i, input) && toStore == RowsFor(checklist.value.defs[i].rules, input, i, steps[i].attempt)
    {
      toStore := [];
      if !IsWorkable(job.status) { return Some(JobNotInProgress), []; }
      if checklist.None? || i >= |steps| { return Some(NotFound), []; }
      if steps[i].status != Pending { return Some(StepAlreadyCompleted), []; }
      var d, attempt := checklist.value.defs[i], steps[i].attempt;
      if d.requiredPhotos > 0 {
        var photoCount := Count(photos, IsReady(i, attempt));
        if photoCount < d.requiredPhotos { return Some(PhotosRequired), []; }
      }
      if !EarlierDone(steps, i) { return Some(PreviousStepIncomplete), []; }
      var rows, failed := Validate(d, i, attempt, input);
      for m := 0 to |input|
        invariant RulesKnown(d.rules, input[..m])
      {
        if !KnownRule(d.rules, input[m].rule) {
          assert !RulesKnown(d.rules, input);
          return Some(InvalidMeasurement), [];
        }
      }
      assert input[..|input|] == input;
      if failed != [] { return Some(OutOfRange), []; }
      r, toStore := None, rows;
    }

    /** Everything `completeStep` checks before its first write. */
    static predicate Accepts(s: State, i: nat, input: seq<Submission>) {
      && IsWorkable(s.job.status) && s.checklist.Some? && i < |s.steps| && i < |s.checklist.value.defs|
      && s.steps[i].status == Pending
      && var d := s.checklist.value.defs[i];
        && (d.requiredPhotos > 0 ==> Count(s.photos, IsReady(i, s.steps[i].attempt)) >= d.requiredPhotos)
        && EarlierDone(s.steps, i) && RulesKnown(d.rules, input) && RulesMet(d.rules, input)
    }

    /** The transaction of `completeStep`. */
    method CompleteLocked(i: nat, input: seq<Submission>) returns (r: Option<Error>)
      requires Shaped()
      modifies this`job, this`checklist, this`steps, this`approvals, this`measurements
      ensures Commits(old(View()), View(), r, CompleteStep(old(View()), i, input))
    {
      var e, toStore := CheckStep(i, input);
      if e.Some? { return e; }
      var d, attempt := checklist.value.defs[i], steps[i].attempt;
      var ok := StoreMeasurements(toStore);
      if !ok { return Some(ColumnOverflow); }
      if d.isStop {
        steps := steps[i := StepRow(WaitingApproval, attempt)];
        approvals := approvals + [Approval(i, attempt, Undecided)];
        job := job.(status := WaitingStopApproval);
        return None;
      }
      steps := steps[i := StepRow(StepCompleted, attempt)];
      if AllDone(steps) {
        checklist := Some(checklist.value.(completedAt := Some(clock)));
      }
      r := None;
    }

    method Complete(i: nat, input: seq<Submission>) returns (r: Option<Error>)
      requires Valid()
      modifies this`job, this`checklist, this`steps, this`approvals, this`measurements
      ensures Valid() && Commits(old(View()), View(), r, CompleteStep(old(View()), i, input))
      ensures r == None <==> old(Submittable(View(), i, input))
    {
      ValidIsShaped();
      CompleteReached(h, View(), i, input);
      AcceptedExactly(View(), i, input);
      r := CompleteLocked(i, input);
    }

    method Redo(i: nat) returns (r: Option<Error>)
      requires Valid()
      modifies this`checklist, this`steps
      ensures Valid() && Commits(old(View()), View(), r, RedoStep(old(View()), i))
      ensures r == None <==> old(job.status) == Reopened && i < |old(steps)| && old(steps)[i].status in {StepCompleted, Approved}
      ensures r == None ==> steps == old(steps)[i := StepRow(Pending, old(steps)[i].attempt + 1)]
      ensures r == None ==> checklist.Some? && checklist.value.completedAt == None
    {
      ValidIsShaped();
      RedoReached(h, View(), i);
      if job.status != Reopened { return Some(JobNotReopened); }
      if checklist.None? || i >= |steps| { return Some(NotFound); }
      if !StepDone(steps[i].status) { return Some(StepNotDone); }
      steps := steps[i := StepRow(Pending, steps[i].attempt + 1)];
      checklist := Some(checklist.value.(completedAt := None));
      r := None;
    }

    // -------------------------------------------------------------- stop.service

    /** `lockPendingStop`: while the job waits it finds the one undecided approval. */
    method FindPendingStop() returns (r: Result<nat, Error>)
      requires Valid()
      ensures job.status == WaitingStopApproval ==> r.Ok? && ThePendingStop(View(), r.value)
      ensures job.status != WaitingStopApproval ==> r == Err(JobNotWaitingStop)
    {
      if job.status != WaitingStopApproval { return Err(JobNotWaitingStop); }
      LockedIsPending(h, View());
      var k := FirstUndecided(approvals);
      if k.None? { return Err(NoPendingStop); }
      var i := approvals[k.value].step;
      if i >= |steps| || steps[i].status != WaitingApproval { return Err(StopStepStateInvalid); }
      r := Ok(k.value);
    }

    method Record(k: nat, d: Decision, st: StepStatus)
      requires k < |approvals| && approvals[k].step < |steps|
      modifies this`steps, this`approvals
      ensures View() == Decide(old(View()), k, d, st)
    {
      var i := approvals[k].step;
      approvals := approvals[k := approvals[k].(decision := d)];
      steps := steps[i := steps[i].(status := st)];
    }

    method Approve() returns (r: Option<Error>)
      requires Valid()
      modifies this`job, this`checklist, this`steps, this`approvals
      ensures Valid() && Commits(old(View()), View(), r, ApproveStop(old(View())))
      ensures old(job.status) == WaitingStopApproval <==> r == None
      ensures r == None ==> job.status == if old(job.cycle) == 1 then InProgress else Reopened
      ensures r == None ==> exists k: nat :: DecidedOne(old(View()), steps, approvals, k, StopApproved, Approved)
    {
      GoesBack(h, View());
      ApproveReached(h, View());
      var p := FindPendingStop();
      if p.Err? { return Some(p.error); }
      var k := p.value;
      PendingIsLocked(h, View(), k);
      Record(k, StopApproved, Approved);
      job := job.(status := WorkingStatus(job.status, job.closedAt, job.reopenedAt));
      if checklist.Some? && AllDone(steps) {
        checklist := Some(checklist.value.(completedAt := Some(clock)));
      }
      assert DecidedOne(old(View()), steps, approvals, k, StopApproved, Approved);
      r := None;
    }

    method Reject() returns (r: Option<Error>)
      requires Valid()
      modifies this`job, this`steps, this`approvals
      ensures Valid() && Commits(old(View()), View(), r, RejectStop(old(View())))
      ensures old(job.status) == WaitingStopApproval <==> r == None
      ensures r == None ==> job.status == JobRejected
      ensures r == None ==> exists k: nat :: DecidedOne(old(View()), steps, approvals, k, StopRejected, StepRejected)
    {
      RejectReached(h, View());
      var p := FindPendingStop();
      if p.Err? { return Some(p.error); }
      var k := p.value;
      PendingIsLocked(h, View(), k);
      Record(k, StopRejected, StepRejected);
      job := job.(status := JobRejected);
      assert DecidedOne(old(View()), steps, approvals, k, StopRejected, StepRejected);
      r := None;
    }

    method Rework() returns (r: Option<Error>)
      requires Valid()
      modifies this`job, this`steps
      ensures Valid() && Commits(old(View()), View(), r, ReworkStop(old(View())))
      ensures old(job.status) == JobRejected <==> r == None
      ensures r == None ==> job.status == if old(job.cycle) == 1 then InProgress else Reopened
      ensures r == None ==> exists i: nat :: WorkedAgain(old(steps), steps, i)
    {
      GoesBack(h, View());
      ReworkReached(h, View());
      RejectedIsThere(h, View());
      if job.status != JobRejected { return Some(JobNotRejected); }
      if checklist.None? { return Some(NoChecklist); }
      var i := FirstRejected(steps);
      if i.None? { return Some(NoRejectedStep); }
      steps := steps[i.value := StepRow(Pending, steps[i.value].attempt + 1)];
      job := job.(status := WorkingStatus(job.status, job.closedAt, job.reopenedAt));
      assert WorkedAgain(old(steps), steps, i.value);
      r := None;
    }

    // -------------------------------------------------------------- photos.service

    method StartUpload(i: nat, size: nat, hash: Hex) returns (r: Option<Error>)
      requires Valid()
      modifies this`photos
      ensures Valid() && Commits(old(View()), View(), r, RegisterPhoto(old(View()), i, size, hash))
    {
      RegisterPhotoReached(h, View(), i, size, hash);
      if !IsWorkable(job.status) { return Some(JobNotInProgress); }
      if checklist.None? || i >= |steps| { return Some(NotFound); }
      if steps[i].status != Pending { return Some(StepNotPending); }
      var attempt := steps[i].attempt;
      if Count(photos, IsActive(i, attempt)) >= MAX_PHOTOS_PER_ATTEMPT { return Some(PhotoLimit); }
      photos := photos + [Photo(i, attempt, InFlight, size, hash, None, Writing, None)];
      r := None;
    }

    method WritePhoto(id: nat, put: PutResult) returns (r: Option<Error>)
      requires Valid()
      modifies this`photos, this`objects
      ensures Valid() && Commits(old(View()), View(), r, PutPhoto(old(View()), id, put))
    {
      PutPhotoReached(h, View(), id, put);
      if id >= |photos| || photos[id].upload != Writing { return Some(NoSuchUpload); }
      var x := photos[id];
      if put.Wrote? {
        objects := objects[PhotoObject(id) := put.size];
        x := x.(storedSize := Some(put.size), upload := if put.size == x.size then Written else WriteFailed);
      } else {
        x := x.(storedSize := None, upload := WriteFailed);
      }
      photos := photos[id := x];
      r := None;
    }

    method FinishUpload(id: nat) returns (r: Option<Error>)
      requires Valid()
      modifies this`photos, this`objects
      ensures Valid() && Commits(old(View()), View(), r, FinalizePhoto(old(View()), id))
    {
      FinalizePhotoReached(h, View(), id);
      if id >= |photos| || photos[id].upload != Written { return Some(NoSuchUpload); }
      var p := photos[id].(upload := Over);
      var accepted := false;
      if p.status == InFlight {
        accepted := IsWorkable(job.status) && p.step < |steps| && steps[p.step].status == Pending
          && steps[p.step].attempt == p.attempt;
        if accepted {
          p := p.(status := Ready, readyAt := Some(clock));
        } else {
          p := p.(status := Failed);
        }
      }
      photos := photos[id := p];
      if !accepted {
        objects := objects - {PhotoObject(id)};
      }
      r := None;
    }

    method MarkPhotoFailed(id: nat) returns (r: Option<Error>)
      requires Valid()
      modifies this`photos
      ensures Valid() && Commits(old(View()), View(), r, FailPhoto(old(View()), id))
    {
      FailPhotoReached(h, View(), id);
      if id >= |photos| || photos[id].upload != WriteFailed { return Some(NoSuchUpload); }
      photos := photos[id := photos[id].(upload := Over)];
      if photos[id].status == InFlight {
        photos := photos[id := photos[id].(status := Failed)];
      }
      r := None;
    }

    // -------------------------------------------------------------- reading: attempts, gate, objects, summary

    method RelevantAttempts() returns (latest: map<nat, nat>)
      requires Shaped()
      ensures forall i: nat :: Lookup(latest, i) == RelevantAttempt(approvals, i)
    {
      var rows := ByAttemptDesc(approvals);
      ByAttemptDescSorted(approvals);
      latest := map[];
      for n := 0 to |rows|
        invariant FirstOfEach(latest, rows[..n])
      {
        ghost var before := latest;
        if rows[n].step !in latest {
          latest := latest[rows[n].step := rows[n].attempt];
        } else {
          var k :| 0 <= k < n && rows[..n][k].step == rows[n].step && rows[..n][k].attempt == latest[rows[n].step];
        }
        Extended(before, latest, rows, n);
      }
      assert rows[..|rows|] == rows;
      forall i: nat ensures Lookup(latest, i) == RelevantAttempt(approvals, i) {
        LookupIsRelevant(approvals, latest, i);
      }
    }

    static lemma Extended(before: map<nat, nat>, after: map<nat, nat>, rows: seq<Approval>, n: nat)
      requires n < |rows| && FirstOfEach(before, rows[..n])
      requires after == if rows[n].step in before then before else before[rows[n].step := rows[n].attempt]
      requires rows[n].step in before ==> rows[n].attempt <= before[rows[n].step]
      ensures FirstOfEach(after, rows[..n + 1])
    {
      var q := rows[..n + 1];
      forall i | i in after ensures exists k :: 0 <= k < |q| && q[k].step == i && q[k].attempt == after[i] {
        if i in before {
          var k :| 0 <= k < n && rows[..n][k].step == i && rows[..n][k].attempt == before[i];
          assert q[k].step == i;
        } else {
          assert q[n].step == i;
        }
      }
      forall k | 0 <= k < |q| ensures q[k].step in after && q[k].attempt <= after[q[k].step] {
        if k < n { assert q[k] == rows[..n][k]; }
      }
    }

    /** `validateJobCompletion`: the conditions, and a reason for each failure. */
    method ValidateCompletion() returns (reasons: seq<Reason>, c: Conditions)
      requires Shaped()
      ensures checklist.None? ==> c == Conditions(false, false, false, false, false, false)
      ensures checklist.Some? ==>
        && (c.checklist <==> NoStepIs(View(), Pending))
        && (c.stops <==> NoStepIs(View(), WaitingApproval) && NoStepIs(View(), StepRejected))
        && (c.photos <==> PhotosOk(View()))
        && (c.measurements <==> MeasurementsOk(View()))
        && (c.risks <==> openRisks == [])
        && (c.signature <==> Signed(View()))
      ensures reasons == [] <==> CanComplete(View())
    {
      if checklist.None? {
        return [ChecklistNotAssigned], Conditions(false, false, false, false, false, false);
      }
      reasons, c := [], Conditions(true, true, true, true, true, true);
      if exists i :: 0 <= i < |steps| && steps[i].status == Pending {
        c := c.(checklist := false);
        reasons := reasons + [ChecklistUnfinished];
      }
      if exists i :: 0 <= i < |steps| && steps[i].status == WaitingApproval {
        c := c.(stops := false);
        reasons := reasons + [StopApprovalPending];
      }
      if exists i :: 0 <= i < |steps| && steps[i].status == StepRejected {
        c := c.(stops := false);
        reasons := reasons + [StopIsRejected];
      }
      var latest := RelevantAttempts();
      var missing := MissingPhotos(latest);
      if missing != [] {
        c := c.(photos := false);
        reasons := reasons + missing;
      }
      var invalid := InvalidMeasurements(latest);
      if invalid != [] {
        c := c.(measurements := false);
        reasons := reasons + invalid;
      }
      if openRisks != [] {
        c := c.(risks := false);
        reasons := reasons + [CriticalRiskUnresolved];
      }
      if LatestReady(signatures, job.cycle).None? {
        c := c.(signature := false);
        reasons := reasons + [CustomerSignatureRequired];
      }
    }

    /** The photo loop of the gate: one reason for each step short of READY photos. */
    method MissingPhotos(latest: map<nat, nat>) returns (reasons: seq<Reason>)
      requires Shaped() && checklist.Some? && forall i: nat :: Lookup(latest, i) == RelevantAttempt(approvals, i)
      ensures reasons == [] <==> PhotosOk(View())
      ensures forall i: nat :: i < |checklist.value.defs| ==> (RequiredPhotosMissing(i) in reasons <==> !StepPhotosOk(View(), i))
    {
      reasons := [];
      var defs := checklist.value.defs;
      for i := 0 to |defs|
        invariant reasons == [] <==> forall j :: 0 <= j < i ==> StepPhotosOk(View(), j)
        invariant forall j: nat :: j < i ==> (RequiredPhotosMissing(j) in reasons <==> !StepPhotosOk(View(), j))
        invariant forall j: nat :: i <= j ==> RequiredPhotosMissing(j) !in reasons
      {
        ghost var before := reasons;
        if defs[i].requiredPhotos > 0 {
          var n := Count(photos, IsReady(i, Lookup(latest, i)));
          if n < defs[i].requiredPhotos {
            reasons := reasons + [RequiredPhotosMissing(i)];
          }
        }
        assert StepPhotosOk(View(), i) <==> reasons == before;
      }
    }

    /** The measurement loops of the gate: every required rule has a stored value in range. */
    method InvalidMeasurements(latest: map<nat, nat>) returns (reasons: seq<Reason>)
      requires Shaped() && checklist.Some? && forall i: nat :: Lookup(latest, i) == RelevantAttempt(approvals, i)
      ensures reasons == [] <==> MeasurementsOk(View())
    {
      reasons := [];
      var defs := checklist.value.defs;
      for i := 0 to |defs|
        invariant reasons == [] <==> forall j :: 0 <= j < i ==> StepMeasurementsOk(View(), j)
      {
        var found := InvalidRules(i, Lookup(latest, i));
        reasons := reasons + found;
      }
    }

    method InvalidRules(i: nat, attempt: nat) returns (reasons: seq<Reason>)
      requires checklist.Some? && i < |checklist.value.defs| && attempt == RelevantAttempt(approvals, i)
      ensures reasons == [] <==> StepMeasurementsOk(View(), i)
    {
      reasons := [];
      var rules := checklist.value.defs[i].rules;
      for k := 0 to |rules|
        invariant reasons == [] <==> forall j :: 0 <= j < k ==> RuleOk(View(), i, rules[j])
      {
        if rules[k].required {
          var row := StoredRow(measurements, i, rules[k].id, attempt);
          if row.None? || !InRange(rules[k], row.value.value) {
            reasons := reasons + [InvalidMeasurementOf(i, rules[k].id)];
          }
        }
      }
    }

    /** `assertReadyEvidenceObjects`: the objects it looks at are exactly those behind what the gate counts. */
    method EvidenceObjectsOk() returns (ok: bool)
      requires Shaped()
      ensures ok <==> EvidenceIntact(View())
    {
      var targets := EvidenceTargets();
      for n := 0 to |targets|
        invariant forall m :: 0 <= m < n ==> ObjectMatches(objects, targets[m].key, targets[m].size)
      {
        if targets[n].key !in objects || objects[targets[n].key] != targets[n].size {
          assert targets[n] in targets;
          TargetsAre(View(), targets, targets[n]);
          return false;
        }
      }
      ok := true;
      forall k: nat | CountedByGate(View(), k) ensures ObjectMatches(objects, PhotoObject(k), photos[k].size) {
        TargetsAre(View(), targets, Target(PhotoObject(k), photos[k].size));
      }
      var g := LatestReady(signatures, job.cycle);
      if g.Some? {
        TargetsAre(View(), targets, Target(SignatureObject(g.value), signatures[g.value].size));
      }
    }

    static ghost predicate IsTarget(s: State, t: Target) {
      match t.key
      case PhotoObject(k) => CountedByGate(s, k) && t.size == s.photos[k].size
      case SignatureObject(g) => LatestReady(s.signatures, s.job.cycle) == Some(g) && t.size == s.signatures[g].size
    }

    static lemma TargetsAre(s: State, targets: seq<Target>, t: Target)
      requires forall x :: x in targets <==> IsTarget(s, x)
      ensures t in targets <==> IsTarget(s, t)
    {
    }

    method EvidenceTargets() returns (targets: seq<Target>)
      requires Shaped()
      ensures forall t :: t in targets <==> IsTarget(View(), t)
    {
      targets := [];
      if checklist.Some? {
        var latest := RelevantAttempts();
        var defs := checklist.value.defs;
        for i := 0 to |defs|
          invariant forall t :: t in targets <==> t.key.PhotoObject? && IsTarget(View(), t) && photos[t.key.id].step < i
        {
          if defs[i].requiredPhotos > 0 {
            var found := ReadyTargets(photos, i, Lookup(latest, i));
            forall t ensures t in found <==> t.key.PhotoObject? && IsTarget(View(), t) && photos[t.key.id].step == i {
              ReadyTargetsAre(photos, i, Lookup(latest, i), t);
            }
            targets := targets + found;
          }
        }
      }
      var g := LatestReady(signatures, job.cycle);
      if g.Some? {
        targets := targets + [Target(SignatureObject(g.value), signatures[g.value].size)];
      }
    }

    /** `collectMaterial`. */
    method CollectMaterial() returns (m: Summary)
      requires Shaped()
      ensures m == Material(View())
      ensures Describes(m, View())
      ensures Valid() ==> AttemptsJudged(m, View())
    {
      var summaries: seq<StepSummary> := [];
      if checklist.Some? {
        var latest := RelevantAttempts();
        for i := 0 to |steps|
          invariant summaries == StepSummaries(View(), i)
        {
          var d, attempt := checklist.value.defs[i], Lookup(latest, i);
          summaries := summaries + [StepSummary(d.stepId, i, d.name, d.isStop, steps[i].status, attempt, d.requiredPhotos,
            EvidenceOf(photos, i, attempt), MeasuredOf(measurements, i, attempt))];
        }
      }
      m := Summary(job.id, job.cycle, job.branchId, job.technician,
        if checklist.Some? then Some(checklist.value.templateId) else None,
        if checklist.Some? then Some(checklist.value.version) else None,
        job.installation, customer, vehicle, summaries, StopsOf(approvals), openRisks);
      MaterialDescribes(View());
      if Valid() {
        SummaryIsTrue(h, View());
      }
    }

    // -------------------------------------------------------------- completion.service

    /** The first transaction of `saveSignature`. */
    method RegisterLocked(size: nat, hash: Hex, shown: Option<string>) returns (r: Option<Error>)
      requires Shaped()
      modifies this`signatures
      ensures Commits(old(View()), View(), r, RegisterSignature(h, old(View()), size, hash, shown))
    {
      if !IsWorkable(job.status) { return Some(JobNotInProgress); }
      if checklist.None? || checklist.value.completedAt.None? { return Some(ChecklistIncomplete); }
      var m := CollectMaterial();
      var bound := h(m);
      if shown.Some? && shown.value != "" && shown.value != bound { return Some(SummaryStale); }
      var k := LatestActive(signatures, job.cycle);
      if k.Some? {
        var x := signatures[k.value];
        if x.status == InFlight || x.summaryDigest == bound { return Some(SignatureExists); }
        signatures := signatures[k.value := x.(superseded := true)];
      }
      signatures := signatures + [Signature(job.cycle, InFlight, false, size, hash, bound, m, Writing, None)];
      r := None;
    }

    method StartSignature(size: nat, hash: Hex, shown: Option<string>) returns (r: Option<Error>)
      requires Valid()
      modifies this`signatures
      ensures Valid() && Commits(old(View()), View(), r, RegisterSignature(h, old(View()), size, hash, shown))
      ensures old(Shaped())
      ensures r == Some(SummaryStale) <==> old(Signable(View()) && Stale(h, View(), shown))
      ensures r == Some(SignatureExists) <==> old(Signable(View()) && !Stale(h, View(), shown) && Occupied(h, View()))
      ensures r == None <==> old(Signable(View()) && !Stale(h, View(), shown) && !Occupied(h, View()))
      ensures r == None ==> SignedOver(h, old(View()), signatures, size, hash)
      ensures r == None && shown.Some? && shown.value != "" ==> signatures[|old(signatures)|].summaryDigest == shown.value
    {
      ValidIsShaped();
      AnswersExactly(h, View(), size, hash, shown);
      RegisterSignatureReached(h, View(), size, hash, shown);
      r := RegisterLocked(size, hash, shown);
    }

    method WriteSignature(id: nat, put: PutResult) returns (r: Option<Error>)
      requires Valid()
      modifies this`signatures, this`objects
      ensures Valid() && Commits(old(View()), View(), r, PutSignature(old(View()), id, put))
    {
      PutSignatureReached(h, View(), id, put);
      if id >= |signatures| || signatures[id].upload != Writing { return Some(NoSuchUpload); }
      var x := signatures[id];
      if put.Wrote? {
        objects := objects[SignatureObject(id) := put.size];
        x := x.(storedSize := Some(put.size), upload := if put.size == x.size then Written else WriteFailed);
      } else {
        x := x.(storedSize := None, upload := WriteFailed);
      }
      signatures := signatures[id := x];
      r := None;
    }

    method FinishSignature(id: nat) returns (r: Option<Error>)
      requires Valid()
      modifies this`signatures, this`objects
      ensures Valid() && Commits(old(View()), View(), r, FinalizeSignature(old(View()), id))
    {
      FinalizeSignatureReached(h, View(), id);
      if id >= |signatures| || signatures[id].upload != Written { return Some(NoSuchUpload); }
      var x := signatures[id].(upload := Over);
      var accepted := false;
      if x.status == InFlight {
        accepted := IsWorkable(job.status) && job.cycle == x.cycle;
        x := x.(status := if accepted then Ready else Failed);
      }
      signatures := signatures[id := x];
      if !accepted {
        objects := objects - {SignatureObject(id)};
      }
      r := None;
    }

    method MarkSignatureFailed(id: nat) returns (r: Option<Error>)
      requires Valid()
      modifies this`signatures
      ensures Valid() && Commits(old(View()), View(), r, FailSignature(old(View()), id))
    {
      FailSignatureReached(h, View(), id);
      if id >= |signatures| || signatures[id].upload != WriteFailed { return Some(NoSuchUpload); }
      signatures := signatures[id := signatures[id].(upload := Over)];
      if signatures[id].status == InFlight {
        signatures := signatures[id := signatures[id].(status := Failed)];
      }
      r := None;
    }

    /** The checks both closing transactions repeat under the lock. */
    method CheckClosing() returns (e: Option<Error>)
      requires Shaped()
      ensures e == ClosingError(h, View())
    {
      var reasons, _ := ValidateCompletion();
      if reasons != [] { return Some(CompletionBlocked); }
      if !policyApproved { return Some(RiskPolicyNotApproved); }
      var g := LatestReady(signatures, job.cycle);
      if g.Some? {
        var m := CollectMaterial();
        if signatures[g.value].summaryDigest != h(m) { return Some(SignatureStale); }
      }
      e := None;
    }

    method TakeSnapshot()
      requires Shaped()
      modifies this`snapshots
      ensures snapshots == FinalizeSnapshot(h, old(View()))
    {
      if exists k :: 0 <= k < |snapshots| && snapshots[k].cycle == job.cycle { return; }
      var m := CollectMaterial();
      var g := LatestReady(signatures, job.cycle);
      var hash := if g.Some? then Some(signatures[g.value].hash) else None;
      snapshots := snapshots + [Snapshot(job.cycle, m, h(m), g, hash)];
    }

    method FinishJob()
      requires Shaped()
      modifies this`job, this`snapshots
      ensures Shaped() && View() == Close(h, old(View()))
    {
      SnapshotIgnoresStatus(h, View(), Completed, Some(clock));
      job := job.(status := Completed, closedAt := Some(clock));
      TakeSnapshot();
    }

    method CloseTx() returns (r: Option<Error>)
      requires Valid()
      modifies this`job, this`snapshots
      ensures Valid() && Commits(old(View()), View(), r, CloseJob(h, old(View())))
      ensures r == None <==> old(job.status) in {InProgress, Reopened} && old(Closes(h, View()))
      ensures r == None && old(job.status) == Reopened ==>
        job == old(job).(status := QualityReview) && snapshots == old(snapshots)
      ensures r == None && old(job.status) == InProgress ==>
        job == old(job).(status := Completed, closedAt := Some(clock)) && Frozen(old(View()), snapshots)
    {
      ClosingKnown(h, View());
      ValidIsShaped();
      CloseReached(h, View());
      var reopenCycle := job.status == Reopened;
      if job.status != InProgress && !reopenCycle { return Some(JobNotClosable); }
      var e := CheckClosing();
      if e.Some? { return e; }
      if reopenCycle {
        job := job.(status := QualityReview);
        return None;
      }
      FinishJob();
      r := None;
    }

    /** The snapshot is built after the job row is updated; the update does not show in it. */
    static lemma SnapshotIgnoresStatus(h: Digester, s: State, status: JobStatus, closedAt: Option<nat>)
      requires ChecklistShape(s.checklist, s.steps)
      ensures FinalizeSnapshot(h, s.(job := s.job.(status := status, closedAt := closedAt))) == FinalizeSnapshot(h, s)
    {
      var t := s.(job := s.job.(status := status, closedAt := closedAt));
      SummariesIgnoreJob(s, t, |s.steps|);
    }

    static lemma {:induction false} SummariesIgnoreJob(s: State, t: State, n: nat)
      requires t == s.(job := t.job) && ChecklistShape(s.checklist, s.steps) && (n == 0 || s.checklist.Some?) && n <= |s.steps|
      ensures s.checklist.Some? ==> StepSummaries(s, n) == StepSummaries(t, n)
    {
      if n > 0 {
        SummariesIgnoreJob(s, t, n - 1);
      }
    }

    method Confirm() returns (r: Option<Error>)
      requires Valid()
      modifies this`job, this`snapshots
      ensures Valid() && Commits(old(View()), View(), r, ConfirmQuality(h, old(View())))
      ensures r == None <==> old(job.status) == QualityReview && old(Closes(h, View()))
      ensures r == None ==> job == old(job).(status := Completed, closedAt := Some(clock)) && Frozen(old(View()), snapshots)
    {
      ClosingKnown(h, View());
      ValidIsShaped();
      ConfirmReached(h, View());
      if job.status != QualityReview { return Some(JobNotInQualityReview); }
      var e := CheckClosing();
      if e.Some? { return e; }
      FinishJob();
      r := None;
    }

    method Reopen() returns (r: Option<Error>)
      requires Valid()
      modifies this`job, this`signatures
      ensures Valid() && Commits(old(View()), View(), r, ReopenJob(old(View())))
      ensures r == None <==> old(job.status) == Completed
      ensures r == None ==> job == old(job).(status := Reopened, cycle := old(job.cycle) + 1, reopenedAt := Some(clock))
      ensures r == None ==> |signatures| == |old(signatures)| && forall k :: 0 <= k < |signatures| ==>
        signatures[k] == var x := old(signatures)[k];
          if x.cycle == old(job.cycle) && x.status == Ready then x.(superseded := true) else x
    {
      ReopenReached(h, View());
      if job.status != Completed { return Some(JobNotCompleted); }
      var before := job.cycle;
      job := job.(status := Reopened, cycle := before + 1, reopenedAt := Some(clock));
      signatures := Supersede(signatures, before);
      r := None;
    }
  }
}
