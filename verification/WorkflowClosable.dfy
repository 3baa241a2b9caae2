/** Exactly which jobs that are being worked on can still be closed. */
module WorkflowClosable {
  import opened Prelude
  import opened Text
  import opened JobCycle
  import opened JobModel
  import opened Summaries
  import opened Workflow
  import opened WorkflowInv
  import opened WorkflowEvidence
  import opened WorkflowTheorems
  import opened WorkflowFrame
  import opened WorkflowGate
  import opened WorkflowHistory
  import opened WorkflowReview
  import opened WorkflowProgress
  import opened WorkflowFinish
  import opened WorkflowReached

  // ---------------------------------------------------------------- a STOP that waits or was rejected

  lemma RejectLeads(h: Digester, s: State)
    ensures RejectStop(s).Ok? ==> Leads(h, s, RejectStop(s).value)
  {
    LeadsBy(h, s, EvReject);
  }

  lemma ReworkLeads(h: Digester, s: State)
    ensures ReworkStop(s).Ok? ==> Leads(h, s, ReworkStop(s).value)
  {
    LeadsBy(h, s, EvRework);
  }

  /** t is s with STOP step j on a new pending attempt; the job is workable in its cycle. */
  ghost predicate Reopens(h: Digester, s: State, t: State, j: nat) {
    && Leads(h, s, t) && Inv(h, t) && Elsewhere(s, t, j, 0) && IsWorkable(t.job.status)
    && j < |s.steps| && s.checklist.value.defs[j].isStop && t.steps[j].status == Pending
  }

  lemma ReworkRejected(h: Digester, s: State) returns (t: State, j: nat)
    requires Inv(h, s) && s.job.status == JobRejected && s.checklist.Some?
    ensures Reopens(h, s, t, j)
  {
    RejectedStepIsThere(h, s);
    WorkingRight(h, s);
    j := FirstRejected(s.steps).value;
    t := ReworkStop(s).value;
    ReworkLeads(h, s);
    LeadsInv(h, s, t);
  }

  lemma RejectWaiting(h: Digester, s: State) returns (t: State, j: nat)
    requires Inv(h, s) && s.job.status == WaitingStopApproval && s.checklist.Some?
    ensures Leads(h, s, t) && Inv(h, t) && Elsewhere(s, t, j, 0) && t.job.status == JobRejected
    ensures j < |s.steps| && t.steps[j].status == StepRejected
  {
    PendingStopIsThere(h, s);
    var k := LockPendingStop(s).value;
    j := s.approvals[k].step;
    t := RejectStop(s).value;
    RejectLeads(h, s);
    LeadsInv(h, s, t);
    DecideElsewhere(s, k, StopRejected, StepRejected, t);
  }

  lemma ReworkWaiting(h: Digester, s: State) returns (t: State, j: nat)
    requires Inv(h, s) && s.job.status == WaitingStopApproval && s.checklist.Some?
    ensures Reopens(h, s, t, j)
  {
    var u, i := RejectWaiting(h, s);
    t, j := ReworkRejected(h, u);
    OneRejected(u, t, i, j);
    LeadsOn(h, s, u, t);
    ElsewhereOn(s, u, t, j, 0, 0);
  }

  /** The step reopened is the one that stood rejected. */
  lemma OneRejected(u: State, t: State, i: nat, j: nat)
    requires Elsewhere(u, t, j, 0) && i < |u.steps| && u.steps[i].status == StepRejected
    requires Coherent(t.job.status, t.steps) && IsWorkable(t.job.status)
    ensures i == j
  {
    assert t.steps[i].status == StepRejected ==> SomeStep(t.steps, StepRejected);
  }

  /** A workable job, no step stuck, from any job that is being worked on. */
  lemma Unblock(h: Digester, s: State) returns (t: State)
    requires Inv(h, s) && Worked(s) && FinishedUpTo(s, 0)
    ensures Leads(h, s, t) && Inv(h, t) && SameRules(s, t) && IsWorkable(t.job.status) && FinishedUpTo(t, 0)
  {
    if IsWorkable(s.job.status) {
      t := s;
      LeadsSelf(h, s);
    } else {
      var j: nat;
      if s.job.status == JobRejected {
        t, j := ReworkRejected(h, s);
      } else {
        t, j := ReworkWaiting(h, s);
      }
      forall i: nat | i < |t.steps| ensures !Stuck(t, i) {
        if i == j {
          assert !Stuck(s, i);
        } else {
          StepElsewhere(s, t, j, i);
        }
      }
    }
  }

  /** The job is in the hands of its technician, or waits for a decision on a STOP. */
  predicate Worked(s: State) {
    s.job.status in {InProgress, Reopened, WaitingStopApproval, JobRejected} && s.checklist.Some?
  }

  // ---------------------------------------------------------------- signing

  lemma RisksLead(h: Digester, s: State, ids: seq<nat>)
    ensures Leads(h, s, s.(openRisks := ids))
  {
    LeadsBy(h, s, EvRisks(ids));
  }

  lemma PolicyLeads(h: Digester, s: State, b: bool)
    ensures Leads(h, s, s.(policyApproved := b))
  {
    LeadsBy(h, s, EvPolicy(b));
  }

  lemma LoseSignatureLeads(h: Digester, s: State, k: nat)
    ensures LoseSignature(s, k).Ok? ==> Leads(h, s, LoseSignature(s, k).value)
  {
    LeadsBy(h, s, EvLoseSignature(k));
  }

  lemma RegisterSignatureLeads(h: Digester, s: State, size: nat, hash: Hex)
    ensures RegisterSignature(h, s, size, hash, None).Ok? ==> Leads(h, s, RegisterSignature(h, s, size, hash, None).value)
  {
    var e := EvRegisterSignature(size, hash, None);
    ApplyRegisterSignature(h, s, e);
    LeadsBy(h, s, e);
  }

  lemma PutSignatureLeads(h: Digester, s: State, id: nat, r: PutResult)
    ensures PutSignature(s, id, r).Ok? ==> Leads(h, s, PutSignature(s, id, r).value)
  {
    LeadsBy(h, s, EvPutSignature(id, r));
  }

  lemma FinalizeSignatureLeads(h: Digester, s: State, id: nat)
    ensures FinalizeSignature(s, id).Ok? ==> Leads(h, s, FinalizeSignature(s, id).value)
  {
    LeadsBy(h, s, EvFinalizeSignature(id));
  }

  /** Only signatures and their objects differ. */
  predicate SignaturesAside(s: State, t: State) {
    t == s.(signatures := t.signatures, objects := t.objects)
  }

  lemma OneActive(h: Digester, s: State, k: nat)
    requires SignatureRows(h, s.job.cycle, s.signatures) && LatestActive(s.signatures, s.job.cycle) == Some(k)
    ensures forall l :: 0 <= l < |s.signatures| && l != k && s.signatures[l].cycle == s.job.cycle ==> !ActiveSignature(s.signatures[l])
  {
  }

  /** Gives up the live signature of the cycle, if there is one. */
  lemma Unsign(h: Digester, s: State) returns (t: State)
    requires Inv(h, s)
    ensures Leads(h, s, t) && Inv(h, t) && SignaturesAside(s, t) && LatestActive(t.signatures, t.job.cycle).None?
  {
    var k := LatestActive(s.signatures, s.job.cycle);
    if k.None? {
      t := s;
      LeadsSelf(h, s);
    } else {
      t := LoseSignature(s, k.value).value;
      LoseSignatureLeads(h, s, k.value);
      LeadsInv(h, s, t);
      OneActive(h, s, k.value);
    }
  }

  /** The last signature is READY, for this cycle, and over the rows as they are. */
  ghost predicate SignedLast(h: Digester, s: State)
    requires ChecklistShape(s.checklist, s.steps)
  {
    && s.signatures != []
    && var x := s.signatures[|s.signatures| - 1];
      ReadySignature(x) && x.cycle == s.job.cycle && x.summaryDigest == CurrentDigest(h, s)
  }

  lemma SameMaterial(s: State, t: State)
    requires SignaturesAside(s, t) && ChecklistShape(s.checklist, s.steps)
    ensures Material(t) == Material(s)
  {
    if s.checklist.Some? {
      SameStepSummaries(s, t, |s.steps|);
    }
  }

  /** The signature rows after each of the three steps. */
  lemma SignSteps(h: Digester, s: State, size: nat, hash: Hex)
    requires IsWorkable(s.job.status) && s.checklist.Some? && s.checklist.value.completedAt.Some?
    requires ChecklistShape(s.checklist, s.steps) && LatestActive(s.signatures, s.job.cycle).None?
    ensures var id := |s.signatures|;
      var x := Signature(s.job.cycle, Ready, false, size, hash, CurrentDigest(h, s), Material(s), Over, Some(size));
      var r0 := RegisterSignature(h, s, size, hash, None);
      && r0.Ok? && var r1 := PutSignature(r0.value, id, Wrote(size));
      && r1.Ok? && var r2 := FinalizeSignature(r1.value, id);
      && r2.Ok? && SignaturesAside(s, r2.value) && r2.value.signatures == s.signatures + [x]
  {
    var id := |s.signatures|;
    var x := Signature(s.job.cycle, InFlight, false, size, hash, CurrentDigest(h, s), Material(s), Writing, None);
    var y := x.(upload := Written, storedSize := Some(size));
    assert (s.signatures + [x])[id := y] == s.signatures + [y];
    assert (s.signatures + [y])[id := y.(upload := Over, status := JobModel.Ready)]
      == s.signatures + [y.(upload := Over, status := JobModel.Ready)];
  }

  lemma SignLeads(h: Digester, s: State, hash: Hex) returns (t: State)
    requires IsWorkable(s.job.status) && s.checklist.Some? && s.checklist.value.completedAt.Some?
    requires ChecklistShape(s.checklist, s.steps) && LatestActive(s.signatures, s.job.cycle).None?
    ensures Leads(h, s, t) && SignaturesAside(s, t)
    ensures t.signatures == s.signatures + [Signature(s.job.cycle, JobModel.Ready, false, 1, hash, CurrentDigest(h, s), Material(s), Over, Some(1))]
  {
    var id := |s.signatures|;
    SignSteps(h, s, 1, hash);
    var s1 := RegisterSignature(h, s, 1, hash, None).value;
    var s2 := PutSignature(s1, id, Wrote(1)).value;
    t := FinalizeSignature(s2, id).value;
    RegisterSignatureLeads(h, s, 1, hash);
    PutSignatureLeads(h, s1, id, Wrote(1));
    FinalizeSignatureLeads(h, s2, id);
    LeadsOn(h, s, s1, s2);
    LeadsOn(h, s, s2, t);
  }

  lemma Sign(h: Digester, s: State, hash: Hex) returns (t: State)
    requires Inv(h, s) && IsWorkable(s.job.status) && s.checklist.Some? && AllDone(s.steps)
    requires LatestActive(s.signatures, s.job.cycle).None?
    ensures Leads(h, s, t) && Inv(h, t) && SignaturesAside(s, t) && SignedLast(h, t)
  {
    t := SignLeads(h, s, hash);
    LeadsInv(h, s, t);
    SameMaterial(s, t);
  }

  // ---------------------------------------------------------------- closing

  lemma CloseLeads(h: Digester, s: State)
    ensures CloseJob(h, s).Ok? ==> Leads(h, s, CloseJob(h, s).value)
  {
    ApplyClose(h, s, EvClose);
    LeadsBy(h, s, EvClose);
  }

  lemma ConfirmLeads(h: Digester, s: State)
    ensures ConfirmQuality(h, s).Ok? ==> Leads(h, s, ConfirmQuality(h, s).value)
  {
    ApplyConfirm(h, s, EvConfirm);
    LeadsBy(h, s, EvConfirm);
  }

  lemma FinishedPasses(h: Digester, s: State)
    requires Inv(h, s) && FinishedUpTo(s, |s.steps|)
    ensures AllDone(s.steps) && PhotosOk(s) && MeasurementsOk(s)
  {
    forall i: nat | i < |s.steps| ensures StepDone(s.steps[i].status) && StepPhotosOk(s, i) && StepMeasurementsOk(s, i) {
      assert Finished(s, i);
    }
  }

  lemma LastIsFresh(h: Digester, s: State)
    requires ChecklistShape(s.checklist, s.steps) && SignedLast(h, s)
    ensures Signed(s) && SignatureFresh(h, s)
  {
  }

  lemma NothingToRefuse(h: Digester, s: State)
    requires ChecklistShape(s.checklist, s.steps) && s.checklist.Some? && AllDone(s.steps) && PhotosOk(s) && MeasurementsOk(s)
    requires s.openRisks == [] && s.policyApproved && Signed(s) && SignatureFresh(h, s)
    ensures ClosingError(h, s).None?
  {
    FinishedCanComplete(s);
  }

  lemma GateInReview(s: State, t: State)
    requires CanComplete(s) && t == s.(job := s.job.(status := QualityReview))
    ensures CanComplete(t)
  {
    forall i | 0 <= i < |s.checklist.value.defs| ensures StepPhotosOk(t, i) && StepMeasurementsOk(t, i) {
      assert StepPhotosOk(s, i) && StepMeasurementsOk(s, i);
      forall k | 0 <= k < |s.checklist.value.defs[i].rules| ensures RuleOk(t, i, s.checklist.value.defs[i].rules[k]) {
        assert RuleOk(s, i, s.checklist.value.defs[i].rules[k]);
      }
    }
  }

  lemma MaterialInReview(s: State, t: State)
    requires ChecklistShape(s.checklist, s.steps) && t == s.(job := s.job.(status := QualityReview))
    ensures Material(t) == Material(s)
  {
    if s.checklist.Some? {
      SameStepSummaries(s, t, |s.steps|);
    }
  }

  /** The review refuses nothing the closing did not refuse. */
  lemma SameInReview(h: Digester, s: State)
    requires ClosingError(h, s).None?
    ensures ClosingError(h, s.(job := s.job.(status := QualityReview))).None?
  {
    var t := s.(job := s.job.(status := QualityReview));
    GateInReview(s, t);
    MaterialInReview(s, t);
    assert SignatureFresh(h, s);
    assert SignatureFresh(h, t);
  }

  lemma CloseWorkable(h: Digester, s: State) returns (t: State)
    requires Inv(h, s) && IsWorkable(s.job.status) && ClosingError(h, s).None?
    ensures Leads(h, s, t) && |t.snapshots| == |s.snapshots| + 1
  {
    CloseLeads(h, s);
    if s.job.status == InProgress {
      t := CloseJob(h, s).value;
      NewSnapshot(h, s);
    } else {
      var u := CloseJob(h, s).value;
      LeadsInv(h, s, u);
      SameInReview(h, s);
      t := ConfirmQuality(h, u).value;
      ConfirmLeads(h, u);
      LeadsOn(h, s, u, t);
      NewSnapshot(h, u);
    }
  }

  /** The risks are closed and the policy approved, as the risk module may at any time. */
  function Cleared(s: State): State {
    s.(openRisks := [], policyApproved := true)
  }

  lemma ClearLeads(h: Digester, s: State)
    ensures Leads(h, s, Cleared(s))
  {
    RisksLead(h, s, []);
    PolicyLeads(h, s.(openRisks := []), true);
    LeadsOn(h, s, s.(openRisks := []), Cleared(s));
  }

  /** Risks, policy and signatures play no part in whether a step is finished. */
  lemma FinishedAside(s: State, t: State, n: nat)
    requires FinishedUpTo(s, n)
    requires t == s.(openRisks := t.openRisks, policyApproved := t.policyApproved, signatures := t.signatures, objects := t.objects)
    ensures FinishedUpTo(t, n)
  {
    forall i: nat | i < |t.steps|
      ensures DistinctRules(t.checklist.value.defs[i].rules) && if i < n then Finished(t, i) else !Stuck(t, i)
    {
      ElsewhereSigned(s, t, i + 1);
      StepElsewhere(s, t, i + 1, i);
    }
  }

  lemma ElsewhereSigned(s: State, t: State, j: nat)
    requires s.checklist.Some?
    requires t == s.(openRisks := t.openRisks, policyApproved := t.policyApproved, signatures := t.signatures, objects := t.objects)
    ensures Elsewhere(s, t, j, 0)
  {
  }

  /** With every step finished the job is signed and closed. */
  lemma CloseFinished(h: Digester, s: State, hash: Hex) returns (t: State)
    requires Inv(h, s) && IsWorkable(s.job.status) && FinishedUpTo(s, |s.steps|)
    ensures Leads(h, s, t) && |t.snapshots| == |s.snapshots| + 1
  {
    var c := Cleared(s);
    ClearLeads(h, s);
    LeadsInv(h, s, c);
    FinishedPasses(h, s);
    var u := Unsign(h, c);
    var v := Sign(h, u, hash);
    FinishedAside(s, v, |s.steps|);
    FinishedPasses(h, v);
    LastIsFresh(h, v);
    NothingToRefuse(h, v);
    t := CloseWorkable(h, v);
    LeadsOn(h, s, c, u);
    LeadsOn(h, s, u, v);
    LeadsOn(h, s, v, t);
  }

  /** Unblocks the job, finishes its steps in order, signs and closes. */
  lemma CanClose(h: Digester, s: State, hash: Hex) returns (t: State)
    requires Inv(h, s) && Worked(s) && FinishedUpTo(s, 0)
    ensures Leads(h, s, t) && |t.snapshots| == |s.snapshots| + 1
  {
    var u := Unblock(h, s);
    var v := FinishSteps(h, u, |u.steps|, hash);
    t := CloseFinished(h, v, hash);
    LeadsOn(h, s, u, v);
    LeadsOn(h, s, v, t);
  }

  // ---------------------------------------------------------------- stuck jobs

  lemma FeasibleIfPassed(h: Digester, s: State, i: nat)
    requires Inv(h, s) && s.checklist.Some? && i < |s.checklist.value.defs| && GateOk(s, i)
    ensures Feasible(s.checklist.value.defs[i])
  {
    var d, a := s.checklist.value.defs[i], RelevantAttempt(s.approvals, i);
    CountMono(s.photos, IsReady(i, a), IsActive(i, a));
    forall k | 0 <= k < |d.rules| && d.rules[k].required ensures HasValue(d.rules[k]) {
      assert RuleOk(s, i, d.rules[k]);
      StoredRowIsRow(s.measurements, i, d.rules[k].id, a);
      var row := StoredRow(s.measurements, i, d.rules[k].id, a).value;
      assert RoundedAlike(row);
      HasValueIs(d.rules[k]);
    }
  }

  /** Step i fails the gate, now and for as long as its job is not closed: no attempt can pass, or the
      submitted attempt the gate looks at failed and no other can take its place. */
  ghost predicate Hopeless(s: State, i: nat) {
    && s.checklist.Some? && i < |s.checklist.value.defs| && i < |s.steps| && s.job.status != Completed && Stuck(s, i)
  }

  lemma HopelessFails(h: Digester, s: State, i: nat)
    requires Inv(h, s) && Hopeless(s, i)
    ensures !GateOk(s, i) && !CanComplete(s)
  {
    if GateOk(s, i) {
      FeasibleIfPassed(h, s, i);
    }
  }

  lemma LostPhotosStay(h: Digester, s: State, e: Event, i: nat, a: nat)
    requires Inv(h, s) && s.checklist.Some? && i < |s.checklist.value.defs| && !StepPhotosOk(s, i) && Submitted(s.steps, i, a)
    requires RelevantAttempt(s.approvals, i) == RelevantAttempt(Step(h, s, e).approvals, i) == a
    requires var t := Step(h, s, e); t.checklist.Some? && t.checklist.value.defs == s.checklist.value.defs
    ensures !StepPhotosOk(Step(h, s, e), i)
  {
    FreezeStep(h, s, e, i, a);
    FewerReady(s.photos, Step(h, s, e).photos, i, a);
  }

  lemma BadValueStays(h: Digester, s: State, e: Event, i: nat, a: nat, r: Rule)
    requires Inv(h, s) && !RuleOk(s, i, r) && Submitted(s.steps, i, a)
    requires RelevantAttempt(s.approvals, i) == RelevantAttempt(Step(h, s, e).approvals, i) == a
    ensures !RuleOk(Step(h, s, e), i, r)
  {
    StoredStays(h, s, e, i, r.id, a);
  }

  /** A submitted attempt that fails the gate goes on failing while the gate looks at it. */
  lemma FailureStays(h: Digester, s: State, e: Event, i: nat, a: nat)
    requires Inv(h, s) && s.checklist.Some? && i < |s.checklist.value.defs| && !GateOk(s, i) && Submitted(s.steps, i, a)
    requires RelevantAttempt(s.approvals, i) == RelevantAttempt(Step(h, s, e).approvals, i) == a
    requires var t := Step(h, s, e); t.checklist.Some? && t.checklist.value.defs == s.checklist.value.defs
    ensures !GateOk(Step(h, s, e), i)
  {
    if !StepPhotosOk(s, i) {
      LostPhotosStay(h, s, e, i, a);
    } else {
      var k :| 0 <= k < |s.checklist.value.defs[i].rules| && !RuleOk(s, i, s.checklist.value.defs[i].rules[k]);
      BadValueStays(h, s, e, i, a, s.checklist.value.defs[i].rules[k]);
    }
  }

  lemma SameDefs(h: Digester, s: State, e: Event)
    requires Inv(h, s) && s.checklist.Some?
    ensures var t := Step(h, s, e);
      t.checklist.Some? && t.checklist.value.defs == s.checklist.value.defs && |t.steps| == |s.steps|
  {
    StepsAdvanceStep(h, s, e);
    ChecklistStays(h, s, e);
    StepKeeps(h, s, e);
  }

  /** Before the first completion an approved step stays as it is. */
  lemma WorkKeepsApproved(h: Digester, s: State, e: Event, i: nat)
    requires Inv(h, s) && i < |s.steps| && s.steps[i].status == Approved && s.job.cycle == 1 && TouchesSteps(e)
    ensures var t := Step(h, s, e); i < |t.steps| && t.steps[i] == s.steps[i] && t.job.cycle == 1
  {
    if (e.EvApprove? || e.EvReject?) && s.job.status == WaitingStopApproval {
      PendingStopIsThere(h, s);
    }
  }

  lemma ApprovedStays(h: Digester, s: State, e: Event, i: nat)
    requires Inv(h, s) && i < |s.steps| && s.steps[i].status == Approved && s.job.cycle == 1 && s.job.status != Completed
    ensures var t := Step(h, s, e); i < |t.steps| && t.steps[i] == s.steps[i] && t.job.cycle == 1
  {
    if TouchesSteps(e) {
      WorkKeepsApproved(h, s, e, i);
    } else {
      Frames(h, s, e);
      CycleStays(h, s, e);
    }
  }

  lemma CycleStays(h: Digester, s: State, e: Event)
    requires s.job.status != Completed && !TouchesSteps(e)
    ensures Step(h, s, e).job.cycle == s.job.cycle
  {
  }

  lemma NotClosed(h: Digester, s: State, e: Event)
    requires !CanComplete(s) && s.job.status != Completed
    ensures Step(h, s, e).job.status != Completed
  {
    if Step(h, s, e).job.status == Completed {
      CompletesThroughClose(h, s, e);
    }
  }

  lemma HopelessStays(h: Digester, s: State, e: Event, i: nat)
    requires Inv(h, s) && Hopeless(s, i)
    ensures Hopeless(Step(h, s, e), i)
  {
    var t, d := Step(h, s, e), s.checklist.value.defs[i];
    HopelessFails(h, s, i);
    NotClosed(h, s, e);
    SameDefs(h, s, e);
    StepKeeps(h, s, e);
    if Feasible(d) {
      RelevantOfInv(h, s, i);
      RelevantOfInv(h, t, i);
      if d.isStop {
        ApprovedStays(h, s, e, i);
        FailureStays(h, s, e, i, s.steps[i].attempt);
      } else {
        StepsAdvanceStep(h, s, e);
        FailureStays(h, s, e, i, 1);
      }
    }
  }

  lemma {:induction false} HopelessRun(h: Digester, s: State, events: seq<Event>, i: nat)
    requires Inv(h, s) && Hopeless(s, i)
    ensures Run(h, s, events).snapshots == s.snapshots
    decreases |events|
  {
    if events != [] {
      HopelessFails(h, s, i);
      ClosedNothing(h, s, events[0]);
      HopelessStays(h, s, events[0], i);
      StepKeeps(h, s, events[0]);
      HopelessRun(h, Step(h, s, events[0]), events[1..], i);
    }
  }

  // ---------------------------------------------------------------- the exact condition

  /** A job that is being worked on, in whatever state, can be closed with one more snapshot if and only
      if none of its steps is stuck: every step must be feasible, no ordinary step may fail the gate on
      its first attempt once that was submitted, and no STOP step may fail it once approved in the first cycle. */
  lemma ClosableExactly(h: Digester, s: State, hash: Hex)
    requires Reachable(h, s) && Worked(s)
    requires forall d <- s.checklist.value.defs :: DistinctRules(d.rules)
    ensures |s.steps| == |s.checklist.value.defs|
    ensures (exists t: State :: Leads(h, s, t) && |t.snapshots| > |s.snapshots|)
      <==> forall i: nat :: i < |s.steps| ==> !Stuck(s, i)
  {
    ReachableInv(h, s);
    if forall i: nat :: i < |s.steps| ==> !Stuck(s, i) {
      var t := CanClose(h, s, hash);
    } else {
      var i: nat :| i < |s.steps| && Stuck(s, i);
      forall t: State | Leads(h, s, t) ensures t.snapshots == s.snapshots {
        var events: seq<Event> :| Run(h, s, events) == t;
        HopelessRun(h, s, events, i);
      }
    }
  }
}
