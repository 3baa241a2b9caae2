/** When a job in quality review can still be completed. */
module WorkflowReview {
  import opened Prelude
  import opened Text
  import opened JobCycle
  import opened JobModel
  import opened Summaries
  import opened Workflow
  import opened WorkflowFrame
  import opened WorkflowInv
  import opened WorkflowEvidence
  import opened WorkflowTheorems
  import opened WorkflowGate
  import opened WorkflowHistory
  import opened WorkflowReached

  // ---------------------------------------------------------------- what was signed bounds what is left

  predicate EvidenceWithin(s: State, i: nat, es: seq<Evidence>) {
    var a := RelevantAttempt(s.approvals, i);
    Submitted(s.steps, i, a) && forall e <- EvidenceOf(s.photos, i, a) :: e in es
  }

  /** As long as no STOP approval was added since x was signed, the evidence of every step is among
      what x lists for it. */
  ghost predicate WithinSigned(s: State, x: Signature) {
    && s.checklist.Some?
    && |x.signed.stops| <= |s.approvals|
    && (|x.signed.stops| == |s.approvals| ==>
      |x.signed.steps| == |s.steps| && forall i: nat :: i < |s.steps| ==> EvidenceWithin(s, i, x.signed.steps[i].evidence))
  }

  ghost predicate AllWithin(s: State) {
    forall k :: 0 <= k < |s.signatures| ==> WithinSigned(s, s.signatures[k])
  }

  lemma EvidenceShrinks(ps: seq<Photo>, qs: seq<Photo>, i: nat, a: nat)
    requires NoNewEvidence(ps, qs, i, a)
    ensures forall e :: e in EvidenceOf(qs, i, a) ==> e in EvidenceOf(ps, i, a)
  {
    forall e | e in EvidenceOf(qs, i, a) ensures e in EvidenceOf(ps, i, a) {
      EvidenceMembers(qs, i, a, e);
      EvidenceMembers(ps, i, a, e);
    }
  }

  /** Approvals are appended or decided. */
  predicate ApprovalsAdvance(aps: seq<Approval>, bps: seq<Approval>) {
    && |aps| <= |bps|
    && forall k :: 0 <= k < |aps| ==> aps[k].step == bps[k].step && aps[k].attempt == bps[k].attempt
  }

  lemma {:induction false} RelevantSame(aps: seq<Approval>, bps: seq<Approval>, i: nat)
    requires ApprovalsAdvance(aps, bps) && |aps| == |bps|
    ensures RelevantAttempt(aps, i) == RelevantAttempt(bps, i)
  {
    LatestSame(aps, bps, i);
  }

  lemma {:induction false} LatestSame(aps: seq<Approval>, bps: seq<Approval>, i: nat)
    requires ApprovalsAdvance(aps, bps) && |aps| == |bps|
    ensures LatestAttempt(aps, i) == LatestAttempt(bps, i)
  {
    if aps != [] {
      LatestSame(aps[..|aps| - 1], bps[..|bps| - 1], i);
    }
  }

  lemma ApprovalsStep(h: Digester, s: State, e: Event)
    ensures ApprovalsAdvance(s.approvals, Step(h, s, e).approvals)
  {
    if !TouchesSteps(e) {
      Frames(h, s, e);
    } else if e.EvApprove? || e.EvReject? {
      DecisionApprovals(s);
    } else {
      WorkApprovals(h, s, e);
    }
  }

  lemma DecisionApprovals(s: State)
    ensures ApproveStop(s).Ok? ==> ApprovalsAdvance(s.approvals, ApproveStop(s).value.approvals)
    ensures RejectStop(s).Ok? ==> ApprovalsAdvance(s.approvals, RejectStop(s).value.approvals)
  {
  }

  lemma WorkApprovals(h: Digester, s: State, e: Event)
    requires e.EvAssign? || e.EvComplete? || e.EvRedo? || e.EvRework?
    ensures ApprovalsAdvance(s.approvals, Step(h, s, e).approvals)
  {
  }

  lemma ChecklistStays(h: Digester, s: State, e: Event)
    requires Inv(h, s) && s.checklist.Some?
    ensures var t := Step(h, s, e); t.checklist.Some? && |t.steps| == |s.steps|
  {
    if !TouchesSteps(e) {
      Frames(h, s, e);
    }
  }

  lemma WithinStep(h: Digester, s: State, e: Event, x: Signature)
    requires Inv(h, s) && WithinSigned(s, x)
    ensures WithinSigned(Step(h, s, e), x)
  {
    var t := Step(h, s, e);
    ApprovalsStep(h, s, e);
    ChecklistStays(h, s, e);
    StepsAdvanceStep(h, s, e);
    if |x.signed.stops| == |t.approvals| {
      forall i: nat | i < |t.steps| ensures EvidenceWithin(t, i, x.signed.steps[i].evidence) {
        assert EvidenceWithin(s, i, x.signed.steps[i].evidence);
        RelevantSame(s.approvals, t.approvals, i);
        FreezeStep(h, s, e, i, RelevantAttempt(s.approvals, i));
        EvidenceShrinks(s.photos, t.photos, i, RelevantAttempt(s.approvals, i));
      }
    }
  }

  /** A summary taken with every step done lists all the evidence there is. */
  lemma FreshWithin(h: Digester, s: State, x: Signature)
    requires Inv(h, s) && s.checklist.Some? && AllDone(s.steps) && x.signed == Material(s)
    ensures WithinSigned(s, x)
  {
    StopsAre(s.approvals);
    assert |x.signed.stops| == |multiset(x.signed.stops)| == |s.approvals|;
    StepSummariesAt(s, |s.steps|);
    forall i: nat | i < |s.steps| ensures EvidenceWithin(s, i, x.signed.steps[i].evidence) {
      RelevantOfInv(h, s, i);
    }
  }

  lemma WithinSameSigned(s: State, x: Signature, y: Signature)
    requires WithinSigned(s, x) && y.signed == x.signed
    ensures WithinSigned(s, y)
  {
  }

  /** A registration supersedes at most one signature and adds one over the rows as they are. */
  lemma RegisteredIsFresh(h: Digester, s: State, size: nat, hash: Hex, shown: Option<string>)
    requires StampedRight(s.checklist, s.steps) && RegisterSignature(h, s, size, hash, shown).Ok?
    ensures var t := RegisterSignature(h, s, size, hash, shown).value;
      && t == s.(signatures := t.signatures) && s.checklist.Some? && AllDone(s.steps)
      && |t.signatures| == |s.signatures| + 1 && t.signatures[|s.signatures|].signed == Material(s)
      && forall k :: 0 <= k < |s.signatures| ==> t.signatures[k].signed == s.signatures[k].signed
  {
  }

  lemma GrownWithin(h: Digester, s: State, t: State)
    requires Inv(h, s) && AllWithin(s) && t == s.(signatures := t.signatures) && s.checklist.Some? && AllDone(s.steps)
    requires |t.signatures| == |s.signatures| + 1 && t.signatures[|s.signatures|].signed == Material(s)
    requires forall k :: 0 <= k < |s.signatures| ==> t.signatures[k].signed == s.signatures[k].signed
    ensures AllWithin(t)
  {
    forall k | 0 <= k < |t.signatures| ensures WithinSigned(t, t.signatures[k]) {
      if k < |s.signatures| {
        assert WithinSigned(s, s.signatures[k]);
        WithinSameSigned(s, s.signatures[k], t.signatures[k]);
      } else {
        FreshWithin(h, s, t.signatures[k]);
      }
      WithinSameRows(s, t, t.signatures[k]);
    }
  }

  lemma RegisterWithin(h: Digester, s: State, size: nat, hash: Hex, shown: Option<string>)
    requires Inv(h, s) && AllWithin(s) && RegisterSignature(h, s, size, hash, shown).Ok?
    ensures AllWithin(RegisterSignature(h, s, size, hash, shown).value)
  {
    RegisteredIsFresh(h, s, size, hash, shown);
    GrownWithin(h, s, RegisterSignature(h, s, size, hash, shown).value);
  }

  lemma WithinSameRows(s: State, t: State, x: Signature)
    requires WithinSigned(s, x) && t == s.(signatures := t.signatures)
    ensures WithinSigned(t, x)
  {
    if |x.signed.stops| == |t.approvals| {
      forall i: nat | i < |t.steps| ensures EvidenceWithin(t, i, x.signed.steps[i].evidence) {
        assert EvidenceWithin(s, i, x.signed.steps[i].evidence);
      }
    }
  }

  lemma RegisterStep(h: Digester, s: State, e: Event)
    requires e.EvRegisterSignature?
    ensures var o := RegisterSignature(h, s, e.size, e.hash, e.shown);
      Step(h, s, e) == if o.Ok? then o.value else s
  {
    ApplyRegisterSignature(h, s, e);
  }

  lemma NoNewSignature(h: Digester, s: State, e: Event)
    requires !e.EvRegisterSignature?
    ensures |Step(h, s, e).signatures| == |s.signatures|
  {
    if !TouchesSignatures(e) {
      Frames(h, s, e);
    }
  }

  lemma AllWithinStep(h: Digester, s: State, e: Event)
    requires Inv(h, s) && AllWithin(s)
    ensures AllWithin(Step(h, s, e))
  {
    if e.EvRegisterSignature? {
      RegisterStep(h, s, e);
      if RegisterSignature(h, s, e.size, e.hash, e.shown).Ok? {
        RegisterWithin(h, s, e.size, e.hash, e.shown);
      }
    } else {
      var t := Step(h, s, e);
      SignaturesAdvanceStep(h, s, e);
      NoNewSignature(h, s, e);
      forall k | 0 <= k < |t.signatures| ensures WithinSigned(t, t.signatures[k]) {
        assert WithinSigned(s, s.signatures[k]) && SignatureAdvances(s.signatures[k], t.signatures[k]);
        WithinSameSigned(s, s.signatures[k], t.signatures[k]);
        WithinStep(h, s, e, t.signatures[k]);
      }
    }
  }

  lemma {:induction false} AllWithinRun(h: Digester, s: State, events: seq<Event>)
    requires Inv(h, s) && AllWithin(s)
    ensures AllWithin(Run(h, s, events))
    decreases |events|
  {
    if events != [] {
      AllWithinStep(h, s, events[0]);
      StepKeeps(h, s, events[0]);
      AllWithinRun(h, Step(h, s, events[0]), events[1..]);
    }
  }

  lemma ReachableWithin(h: Digester, s: State)
    requires Reachable(h, s)
    ensures AllWithin(s)
  {
    var start: State, events: seq<Event> :| IsNewJob(start) && s == Run(h, start, events);
    NewJobInv(h, start.job.id, start.job.branchId, start.job.technician, start.customer, start.vehicle, start.clock);
    AllWithinRun(h, start, events);
  }

  // ---------------------------------------------------------------- what can happen in quality review

  /** t is s after some time in quality review: the technician, the parties, the risks and the policy
      may have changed, uploads may have ended, and evidence and signatures may have been lost. */
  ghost predicate StillInReview(s: State, t: State) {
    && s.job.status == QualityReview
    && t.job == s.job.(technician := t.job.technician)
    && t.checklist == s.checklist && t.steps == s.steps && t.approvals == s.approvals
    && t.measurements == s.measurements && t.snapshots == s.snapshots
    && SignaturesAdvance(s.signatures, t.signatures) && |t.signatures| == |s.signatures|
    && (forall k :: 0 <= k < |t.signatures| && ReadySignature(t.signatures[k]) ==> ReadySignature(s.signatures[k]))
    && (forall i: nat, a: nat :: Submitted(s.steps, i, a) ==> NoNewEvidence(s.photos, t.photos, i, a))
  }

  lemma StillReflexive(s: State)
    requires s.job.status == QualityReview
    ensures StillInReview(s, s)
  {
  }

  lemma StillTransitive(s: State, t: State, u: State)
    requires StillInReview(s, t) && StillInReview(t, u)
    ensures StillInReview(s, u)
  {
    forall i: nat, a: nat | Submitted(s.steps, i, a) ensures NoNewEvidence(s.photos, u.photos, i, a) {
      assert NoNewEvidence(s.photos, t.photos, i, a) && NoNewEvidence(t.photos, u.photos, i, a);
    }
    forall k | 0 <= k < |u.signatures| && ReadySignature(u.signatures[k]) ensures ReadySignature(s.signatures[k]) {
      assert ReadySignature(t.signatures[k]);
    }
    forall k | 0 <= k < |s.signatures| ensures SignatureAdvances(s.signatures[k], u.signatures[k]) {
      assert SignatureAdvances(s.signatures[k], t.signatures[k]) && SignatureAdvances(t.signatures[k], u.signatures[k]);
    }
  }

  lemma NoWorkInReview(h: Digester, s: State, e: Event)
    requires s.job.status == QualityReview && (TouchesSteps(e) || e.EvClose? || e.EvReopen?)
    ensures Step(h, s, e) == s
  {
  }

  lemma RowInReview(h: Digester, s: State, e: Event)
    requires s.job.status == QualityReview && TouchesRowOnly(e)
    ensures Step(h, s, e).job == s.job.(technician := Step(h, s, e).job.technician)
  {
  }

  /** The rows no event but the confirmation changes. */
  lemma ReviewRows(h: Digester, s: State, e: Event)
    requires s.job.status == QualityReview && !e.EvConfirm?
    ensures var t := Step(h, s, e);
      && t.job == s.job.(technician := t.job.technician)
      && t.checklist == s.checklist && t.steps == s.steps && t.approvals == s.approvals
      && t.measurements == s.measurements && t.snapshots == s.snapshots
  {
    if TouchesSteps(e) || e.EvClose? || e.EvReopen? {
      NoWorkInReview(h, s, e);
    } else if TouchesPhotos(e) {
      PhotoFrame(h, s, e);
    } else if TouchesRowOnly(e) {
      RowFrame(h, s, e);
      RowInReview(h, s, e);
    } else {
      SignatureFrame(h, s, e);
    }
  }

  lemma ReviewSignatures(h: Digester, s: State, e: Event)
    requires s.job.status == QualityReview
    ensures var t := Step(h, s, e);
      && |t.signatures| == |s.signatures|
      && forall k :: 0 <= k < |t.signatures| && ReadySignature(t.signatures[k]) ==> ReadySignature(s.signatures[k])
  {
    if !TouchesSignatures(e) {
      Frames(h, s, e);
    } else if Apply(h, s, e).Ok? {
      ReviewSignatureEvent(h, s, e);
    }
  }

  lemma ReviewSignatureEvent(h: Digester, s: State, e: Event)
    requires s.job.status == QualityReview && TouchesSignatures(e)
    ensures var t := Step(h, s, e);
      && |t.signatures| == |s.signatures|
      && forall k :: 0 <= k < |t.signatures| && ReadySignature(t.signatures[k]) ==> ReadySignature(s.signatures[k])
  {
  }

  lemma ReviewStep(h: Digester, s: State, e: Event)
    requires Inv(h, s) && s.job.status == QualityReview && (e.EvConfirm? ==> ConfirmQuality(h, s).Err?)
    ensures StillInReview(s, Step(h, s, e))
  {
    if e.EvConfirm? {
      StillReflexive(s);
    } else {
      ReviewRows(h, s, e);
      ReviewSignatures(h, s, e);
      SignaturesAdvanceStep(h, s, e);
      forall i: nat, a: nat | Submitted(s.steps, i, a) ensures NoNewEvidence(s.photos, Step(h, s, e).photos, i, a) {
        FreezeStep(h, s, e, i, a);
      }
    }
  }

  lemma RunPrefix(h: Digester, s: State, events: seq<Event>, m: nat)
    requires m < |events|
    ensures Run(h, s, events[..m + 1]) == Run(h, Step(h, s, events[0]), events[1..][..m])
  {
    assert events[..m + 1][0] == events[0] && events[..m + 1][1..] == events[1..][..m];
  }

  /** Run(h, s, events[..n]) was reached in quality review, and the next event confirms it. */
  ghost predicate LeavesAt(h: Digester, s: State, events: seq<Event>, n: nat) {
    && n < |events| && events[n].EvConfirm?
    && var u := Run(h, s, events[..n]);
      Inv(h, u) && StillInReview(s, u) && ClosingError(h, u).None?
  }

  lemma LeavesNow(h: Digester, s: State, events: seq<Event>)
    requires Inv(h, s) && s.job.status == QualityReview && events != [] && events[0].EvConfirm? && ConfirmQuality(h, s).Ok?
    ensures LeavesAt(h, s, events, 0)
  {
    StillReflexive(s);
    ConfirmCompletes(h, s);
  }

  lemma LeavesLater(h: Digester, s: State, events: seq<Event>, m: nat)
    requires events != [] && StillInReview(s, Step(h, s, events[0]))
    requires LeavesAt(h, Step(h, s, events[0]), events[1..], m)
    ensures LeavesAt(h, s, events, m + 1)
  {
    RunPrefix(h, s, events, m);
    StillTransitive(s, Step(h, s, events[0]), Run(h, Step(h, s, events[0]), events[1..][..m]));
  }

  /** A run that leaves quality review does so by a confirmation that finds nothing to refuse. */
  lemma {:induction false} LeavingReview(h: Digester, s: State, events: seq<Event>) returns (n: nat)
    requires Inv(h, s) && s.job.status == QualityReview && Run(h, s, events).job.status != QualityReview
    ensures LeavesAt(h, s, events, n)
    decreases |events|
  {
    if events[0].EvConfirm? && ConfirmQuality(h, s).Ok? {
      n := 0;
      LeavesNow(h, s, events);
    } else {
      ReviewStep(h, s, events[0]);
      StepKeeps(h, s, events[0]);
      var m := LeavingReview(h, Step(h, s, events[0]), events[1..]);
      n := m + 1;
      LeavesLater(h, s, events, m);
    }
  }

  // ---------------------------------------------------------------- the exact condition

  /** The two summaries agree on all the work: they may differ in technician, parties and open risks
      only, and y lists no risk. */
  predicate SameWork(x: Summary, y: Summary) {
    y == x.(technician := y.technician, customer := y.customer, vehicle := y.vehicle, openRisks := [])
  }

  /** The cycle has a READY signature, the gate's photo and measurement tests pass, and the work that
      was signed is the work on record. */
  predicate Confirmable(s: State) {
    && ChecklistShape(s.checklist, s.steps) && PhotosOk(s) && MeasurementsOk(s)
    && var k := LatestReady(s.signatures, s.job.cycle);
      k.Some? && SameWork(Material(s), s.signatures[k.value].signed)
  }

  /** The summary of the rows and the different one that was signed for the cycle have one digest. */
  ghost predicate Forged(h: Digester, s: State) {
    && ChecklistShape(s.checklist, s.steps)
    && var k := LatestReady(s.signatures, s.job.cycle);
      k.Some? && SameDigest(h, Material(s), s.signatures[k.value].signed)
  }

  /** Back to the technician and the parties that were signed for, the risks closed, the policy
      approved; then the confirmation. */
  function Restore(x: Summary): seq<Event> {
    [EvReassign(x.technician), EvParties(x.customer, x.vehicle), EvRisks([]), EvPolicy(true), EvConfirm]
  }

  function Restored(s: State, x: Summary): State {
    s.(job := s.job.(technician := x.technician), customer := x.customer, vehicle := x.vehicle,
       openRisks := [], policyApproved := true)
  }

  lemma RestoreRun(h: Digester, s: State, x: Summary)
    requires s.job.status == QualityReview
    ensures Run(h, s, Restore(x)) == Step(h, Restored(s, x), EvConfirm)
  {
    var e0, e1, e2, e3 := EvReassign(x.technician), EvParties(x.customer, x.vehicle), EvRisks([]), EvPolicy(true);
    RestoreSteps(h, s, x);
    assert Restore(x) == [e0] + [e1, e2, e3, EvConfirm];
    RunCons(h, s, e0, [e1, e2, e3, EvConfirm]);
    RunFour(h, Step(h, s, e0), e1, e2, e3, EvConfirm);
  }

  lemma RestoreSteps(h: Digester, s: State, x: Summary)
    requires s.job.status == QualityReview
    ensures Step(h, Step(h, Step(h, Step(h, s, EvReassign(x.technician)), EvParties(x.customer, x.vehicle)), EvRisks([])), EvPolicy(true))
      == Restored(s, x)
  {
    ReassignIs(h, s, x.technician);
    var s1 := s.(job := s.job.(technician := x.technician));
    PartiesIs(h, s1, x.customer, x.vehicle);
    var s2 := s1.(customer := x.customer, vehicle := x.vehicle);
    RisksIs(h, s2, []);
    PolicyIs(h, s2.(openRisks := []), true);
  }

  lemma ReassignIs(h: Digester, s: State, t: Option<nat>)
    requires s.job.status == QualityReview
    ensures Step(h, s, EvReassign(t)) == s.(job := s.job.(technician := t))
  {
  }

  lemma PartiesIs(h: Digester, s: State, c: Customer, v: Vehicle)
    ensures Step(h, s, EvParties(c, v)) == s.(customer := c, vehicle := v)
  {
  }

  lemma RisksIs(h: Digester, s: State, ids: seq<nat>)
    ensures Step(h, s, EvRisks(ids)) == s.(openRisks := ids)
  {
  }

  lemma PolicyIs(h: Digester, s: State, b: bool)
    ensures Step(h, s, EvPolicy(b)) == s.(policyApproved := b)
  {
  }

  lemma {:induction false} SameStepSummaries(s: State, t: State, n: nat)
    requires s.checklist.Some? && t.checklist == s.checklist && t.steps == s.steps && t.approvals == s.approvals
    requires t.measurements == s.measurements && n <= |s.checklist.value.defs| && n <= |s.steps|
    requires forall i: nat :: i < n ==>
      EvidenceOf(t.photos, i, RelevantAttempt(s.approvals, i)) == EvidenceOf(s.photos, i, RelevantAttempt(s.approvals, i))
    ensures StepSummaries(t, n) == StepSummaries(s, n)
  {
    if n > 0 {
      SameStepSummaries(s, t, n - 1);
    }
  }

  lemma RestoredMaterial(s: State, x: Summary)
    requires ChecklistShape(s.checklist, s.steps) && s.checklist.Some? && SameWork(Material(s), x)
    ensures Material(Restored(s, x)) == x
  {
    SameStepSummaries(s, Restored(s, x), |s.steps|);
  }

  lemma RestoredGate(s: State, x: Summary)
    requires s.checklist.Some? && AllDone(s.steps) && PhotosOk(s) && MeasurementsOk(s) && Signed(s)
    ensures CanComplete(Restored(s, x))
  {
    var t := Restored(s, x);
    forall i | 0 <= i < |s.checklist.value.defs| ensures StepPhotosOk(t, i) && StepMeasurementsOk(t, i) {
      assert StepPhotosOk(s, i) && StepMeasurementsOk(s, i);
      forall k | 0 <= k < |s.checklist.value.defs[i].rules| ensures RuleOk(t, i, s.checklist.value.defs[i].rules[k]) {
        assert RuleOk(s, i, s.checklist.value.defs[i].rules[k]);
      }
    }
  }

  lemma RestoredCloses(h: Digester, s: State, k: nat)
    requires Inv(h, s) && s.job.status == QualityReview && Confirmable(s) && LatestReady(s.signatures, s.job.cycle) == Some(k)
    ensures ClosingError(h, Restored(s, s.signatures[k].signed)).None?
  {
    var x := s.signatures[k].signed;
    RestoredGate(s, x);
    RestoredMaterial(s, x);
    assert SignatureRow(h, s.job.cycle, s.signatures[k]);
  }

  lemma ConfirmableCompletes(h: Digester, s: State)
    requires Inv(h, s) && s.job.status == QualityReview && Confirmable(s)
    ensures Run(h, s, Restore(s.signatures[LatestReady(s.signatures, s.job.cycle).value].signed)).job.status == Completed
  {
    var k := LatestReady(s.signatures, s.job.cycle).value;
    RestoredCloses(h, s, k);
    RestoreRun(h, s, s.signatures[k].signed);
    ConfirmSucceeds(h, Restored(s, s.signatures[k].signed));
  }

  lemma ConfirmIs(h: Digester, s: State)
    requires s.job.status == QualityReview && ClosingError(h, s).None?
    ensures ConfirmQuality(h, s) == Ok(Close(h, s))
  {
  }

  lemma ConfirmSucceeds(h: Digester, s: State)
    requires s.job.status == QualityReview && ClosingError(h, s).None?
    ensures Step(h, s, EvConfirm) == Close(h, s)
  {
    assert Apply(h, s, EvConfirm) == Ok(Close(h, s)) by {
      ApplyConfirm(h, s, EvConfirm);
      ConfirmIs(h, s);
    }
  }

  // ---------------------------------------------------------------- nothing else completes it

  lemma {:induction false} SameEvidence(ps: seq<Photo>, qs: seq<Photo>, i: nat, a: nat)
    requires |ps| == |qs|
    requires forall k :: 0 <= k < |ps| ==> (IsReady(i, a)(ps[k]) <==> IsReady(i, a)(qs[k]))
    requires forall k :: 0 <= k < |ps| && IsReady(i, a)(qs[k]) ==> qs[k].hash == ps[k].hash && qs[k].size == ps[k].size
    ensures EvidenceOf(ps, i, a) == EvidenceOf(qs, i, a)
  {
    if ps != [] {
      SameEvidence(ps[..|ps| - 1], qs[..|qs| - 1], i, a);
    }
  }

  lemma {:induction false} MoreUnready(ps: seq<Photo>, qs: seq<Photo>, i: nat, a: nat)
    requires |ps| <= |qs| && forall k :: |ps| <= k < |qs| ==> !IsReady(i, a)(qs[k])
    ensures EvidenceOf(qs[..|ps|], i, a) == EvidenceOf(qs, i, a)
    decreases |qs|
  {
    if |ps| == |qs| {
      assert qs[..|ps|] == qs;
    } else {
      MoreUnready(ps, qs[..|qs| - 1], i, a);
      assert qs[..|qs| - 1][..|ps|] == qs[..|ps|];
    }
  }

  /** Evidence that only shrank, and of which all is still listed, is the same. */
  lemma NothingLost(ps: seq<Photo>, qs: seq<Photo>, i: nat, a: nat)
    requires NoNewEvidence(ps, qs, i, a)
    requires forall e <- EvidenceOf(ps, i, a) :: e in EvidenceOf(qs, i, a)
    ensures EvidenceOf(ps, i, a) == EvidenceOf(qs, i, a)
  {
    forall k | 0 <= k < |ps| && IsReady(i, a)(ps[k]) ensures IsReady(i, a)(qs[k]) {
      var e := Evidence(k, ps[k].hash, ps[k].size);
      EvidenceMembers(ps, i, a, e);
      EvidenceMembers(qs, i, a, e);
    }
    MoreUnready(ps, qs, i, a);
    SameEvidence(ps, qs[..|ps|], i, a);
  }

  lemma GateWasOk(s: State, t: State)
    requires StillInReview(s, t) && ChecklistShape(s.checklist, s.steps) && s.checklist.Some? && PhotosOk(t) && MeasurementsOk(t)
    requires forall i: nat :: i < |s.steps| ==> Submitted(s.steps, i, RelevantAttempt(s.approvals, i))
    ensures PhotosOk(s) && MeasurementsOk(s)
  {
    forall i: nat | i < |s.steps| ensures StepPhotosOk(s, i) && StepMeasurementsOk(s, i) {
      assert StepPhotosOk(t, i) && StepMeasurementsOk(t, i);
      FewerReady(s.photos, t.photos, i, RelevantAttempt(s.approvals, i));
      forall k | 0 <= k < |s.checklist.value.defs[i].rules| ensures RuleOk(s, i, s.checklist.value.defs[i].rules[k]) {
        assert RuleOk(t, i, s.checklist.value.defs[i].rules[k]);
      }
    }
  }

  /** The READY signature of the cycle is the one it was. */
  lemma SameReady(h: Digester, s: State, t: State)
    requires Inv(h, s) && StillInReview(s, t) && Signed(t)
    ensures LatestReady(s.signatures, s.job.cycle) == LatestReady(t.signatures, t.job.cycle)
    ensures var k := LatestReady(s.signatures, s.job.cycle); k.Some? && s.signatures[k.value].signed == t.signatures[k.value].signed
  {
    var k := LatestReady(t.signatures, t.job.cycle).value;
    assert SignatureAdvances(s.signatures[k], t.signatures[k]) && ReadySignature(s.signatures[k]);
    assert s.signatures[k].cycle == s.job.cycle;
    var l := LatestReady(s.signatures, s.job.cycle);
    assert l.Some?;
    assert ActiveSignature(s.signatures[k]) && ActiveSignature(s.signatures[l.value]);
  }

  lemma StepEvidenceSame(h: Digester, s: State, t: State, x: Signature, i: nat)
    requires Inv(h, s) && WithinSigned(s, x) && StillInReview(s, t) && i < |s.steps|
    requires ChecklistShape(t.checklist, t.steps) && Material(t) == x.signed
    ensures var a := RelevantAttempt(s.approvals, i); EvidenceOf(s.photos, i, a) == EvidenceOf(t.photos, i, a)
  {
    var a := RelevantAttempt(s.approvals, i);
    StopsAre(t.approvals);
    assert |x.signed.stops| == |multiset(x.signed.stops)| == |s.approvals|;
    StepSummariesAt(t, |t.steps|);
    assert EvidenceWithin(s, i, x.signed.steps[i].evidence);
    assert x.signed.steps[i].evidence == EvidenceOf(t.photos, i, a);
    NothingLost(s.photos, t.photos, i, a);
  }

  lemma WorkSame(h: Digester, s: State, t: State, x: Signature)
    requires Inv(h, s) && WithinSigned(s, x) && StillInReview(s, t)
    requires ChecklistShape(t.checklist, t.steps) && Material(t) == x.signed && t.openRisks == []
    ensures SameWork(Material(s), x.signed)
  {
    forall i: nat | i < |s.steps|
      ensures EvidenceOf(t.photos, i, RelevantAttempt(s.approvals, i)) == EvidenceOf(s.photos, i, RelevantAttempt(s.approvals, i))
    {
      StepEvidenceSame(h, s, t, x, i);
    }
    SameStepSummaries(s, t, |s.steps|);
  }

  lemma ConfirmedWasConfirmable(h: Digester, s: State, t: State)
    requires Inv(h, s) && AllWithin(s) && StillInReview(s, t) && Inv(h, t) && ClosingError(h, t).None?
    ensures Confirmable(s) || Forged(h, t)
  {
    CompleteMeansDone(h, t);
    forall i: nat | i < |s.steps| ensures Submitted(s.steps, i, RelevantAttempt(s.approvals, i)) {
      RelevantOfInv(h, s, i);
    }
    GateWasOk(s, t);
    SameReady(h, s, t);
    var k := LatestReady(t.signatures, t.job.cycle).value;
    SignedNow(h, t, k);
    if Material(t) == t.signatures[k].signed {
      WithinSameSigned(s, s.signatures[k], t.signatures[k]);
      WorkSame(h, s, t, t.signatures[k]);
    }
  }

  /** Some state of the run has a forged signature. */
  ghost predicate ForgedOn(h: Digester, s: State, events: seq<Event>) {
    exists n :: 0 <= n < |events| && Forged(h, Run(h, s, events[..n]))
  }

  /** A job in quality review can be completed exactly if it is confirmable, and then five events
      complete it. No other run takes it anywhere else, unless it comes to two summaries of one digest. */
  lemma ReviewCompletesExactly(h: Digester, s: State)
    requires Reachable(h, s) && s.job.status == QualityReview
    ensures Confirmable(s) ==>
      Run(h, s, Restore(s.signatures[LatestReady(s.signatures, s.job.cycle).value].signed)).job.status == Completed
    ensures !Confirmable(s) ==>
      forall events: seq<Event> :: Run(h, s, events).job.status == QualityReview || ForgedOn(h, s, events)
  {
    ReachableInv(h, s);
    ReachableWithin(h, s);
    if Confirmable(s) {
      ConfirmableCompletes(h, s);
    } else {
      forall events: seq<Event> | Run(h, s, events).job.status != QualityReview ensures ForgedOn(h, s, events) {
        var n := LeavingReview(h, s, events);
        ConfirmedWasConfirmable(h, s, Run(h, s, events[..n]));
      }
    }
  }

  // ---------------------------------------------------------------- any loss is final

  /** Photo k is evidence of the attempt the summary lists, required by the gate or not. */
  predicate ListedPhoto(s: State, k: nat) {
    k < |s.photos| && s.photos[k].step < |s.steps| && IsReady(s.photos[k].step, RelevantAttempt(s.approvals, s.photos[k].step))(s.photos[k])
  }

  lemma LosePhotoIs(h: Digester, s: State, e: Event)
    requires e.EvLosePhoto? && LosePhoto(s, e.id).Ok?
    ensures Step(h, s, e) == LosePhoto(s, e.id).value
  {
  }

  lemma LoseSignatureIs(h: Digester, s: State, e: Event)
    requires e.EvLoseSignature? && LoseSignature(s, e.id).Ok?
    ensures Step(h, s, e) == LoseSignature(s, e.id).value
  {
  }

  /** The event loses a listed photo, or the READY signature of the cycle. */
  predicate Loses(s: State, e: Event) {
    (e.EvLosePhoto? && ListedPhoto(s, e.id)) || (e.EvLoseSignature? && LatestReady(s.signatures, s.job.cycle) == Some(e.id))
  }

  /** If in quality review any listed photo is lost, even one the gate could spare, or the READY
      signature is, the job can no longer be completed. */
  lemma LossStrandsTheReview(h: Digester, s: State, e: Event)
    requires Reachable(h, s) && s.job.status == QualityReview && Loses(s, e)
    ensures Step(h, s, e).job.status == QualityReview && !Confirmable(Step(h, s, e))
  {
    ReachableInv(h, s);
    ReachableWithin(h, s);
    if e.EvLosePhoto? {
      LostPhotoStrands(h, s, e.id);
      LosePhotoIs(h, s, e);
    } else {
      LostSignatureStrands(h, s, e.id);
      LoseSignatureIs(h, s, e);
    }
  }

  lemma LostSignatureStrands(h: Digester, s: State, k: nat)
    requires Inv(h, s) && LatestReady(s.signatures, s.job.cycle) == Some(k)
    ensures LoseSignature(s, k).Ok? && !Confirmable(LoseSignature(s, k).value)
    ensures LoseSignature(s, k).value.job == s.job
  {
    var t := LoseSignature(s, k).value;
    var l := LatestReady(t.signatures, t.job.cycle);
    if l.Some? {
      assert ActiveSignature(s.signatures[l.value]) && ActiveSignature(s.signatures[k]);
    }
  }

  lemma LostPhotoStrands(h: Digester, s: State, k: nat)
    requires Inv(h, s) && AllWithin(s) && ListedPhoto(s, k)
    ensures LosePhoto(s, k).Ok? && !Confirmable(LosePhoto(s, k).value)
    ensures LosePhoto(s, k).value.job == s.job
  {
    var t := LosePhoto(s, k).value;
    if Confirmable(t) {
      var x := t.signatures[LatestReady(t.signatures, t.job.cycle).value];
      var i := s.photos[k].step;
      var a := RelevantAttempt(s.approvals, i);
      var e := Evidence(k, s.photos[k].hash, s.photos[k].size);
      assert WithinSigned(s, x);
      StopsAre(t.approvals);
      assert |x.signed.stops| == |multiset(x.signed.stops)| == |s.approvals|;
      assert EvidenceWithin(s, i, x.signed.steps[i].evidence);
      EvidenceMembers(s.photos, i, a, e);
      StepSummariesAt(t, |t.steps|);
      EvidenceMembers(t.photos, i, a, e);
      assert false;
    }
  }
}
