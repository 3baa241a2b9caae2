/** What later transactions can never change: submitted evidence, signed summaries, snapshots. */
module WorkflowHistory {
  import opened Prelude
  import opened Text
  import opened JobCycle
  import opened JobModel
  import opened Summaries
  import opened Workflow
  import opened WorkflowFrame
  import opened WorkflowInv
  import opened WorkflowEvidence
  import opened WorkflowTheorems
  import opened WorkflowGate

  // ---------------------------------------------------------------- submitted attempts stay submitted

  ghost predicate StepsAdvance(s: State, t: State) {
    && |s.steps| <= |t.steps|
    && (forall i: nat, a: nat :: Submitted(s.steps, i, a) ==> Submitted(t.steps, i, a))
    && Defs(s.checklist) <= Defs(t.checklist)
  }

  lemma StepsAdvanceStep(h: Digester, s: State, e: Event)
    requires Inv(h, s)
    ensures StepsAdvance(s, Step(h, s, e))
  {
    if !TouchesSteps(e) {
      Frames(h, s, e);
    } else if e.EvApprove? || e.EvReject? {
      if s.job.status == WaitingStopApproval {
        PendingStopIsThere(h, s);
        DecisionAdvances(h, s, e);
      }
    } else {
      WorkAdvances(h, s, e);
    }
  }

  lemma DecisionAdvances(h: Digester, s: State, e: Event)
    requires (e.EvApprove? || e.EvReject?) && LockPendingStop(s).Ok?
    requires s.steps[s.approvals[LockPendingStop(s).value].step].status == WaitingApproval
    ensures StepsAdvance(s, Step(h, s, e))
  {
    var i := s.approvals[LockPendingStop(s).value].step;
    DecideSameSubmitted(s.steps, i, Approved);
    DecideSameSubmitted(s.steps, i, StepRejected);
  }

  lemma NextAttemptAdvances(s: State)
    requires forall i :: 0 <= i < |s.steps| ==> s.steps[i].attempt >= 1
    ensures ReworkStop(s).Ok? ==> StepsAdvance(s, ReworkStop(s).value)
    ensures forall i: nat :: RedoStep(s, i).Ok? ==> StepsAdvance(s, RedoStep(s, i).value)
  {
    if ReworkStop(s).Ok? {
      NextAttemptSameSubmitted(s.steps, FirstRejected(s.steps).value);
    }
    forall i: nat | RedoStep(s, i).Ok? ensures StepsAdvance(s, RedoStep(s, i).value) {
      NextAttemptSameSubmitted(s.steps, i);
    }
  }

  lemma SubmitAdvances(s: State)
    requires ChecklistShape(s.checklist, s.steps)
    ensures forall p :: AssignChecklist(s, p).Ok? ==> StepsAdvance(s, AssignChecklist(s, p).value)
    ensures forall i: nat, input :: CompleteStep(s, i, input).Ok? ==> StepsAdvance(s, CompleteStep(s, i, input).value)
  {
  }

  lemma WorkAdvances(h: Digester, s: State, e: Event)
    requires Inv(h, s) && (e.EvAssign? || e.EvComplete? || e.EvRedo? || e.EvRework?)
    ensures StepsAdvance(s, Step(h, s, e))
  {
    NextAttemptAdvances(s);
    SubmitAdvances(s);
  }

  // ---------------------------------------------------------------- evidence freezes at submission

  /** No photo of step i and attempt a is READY, or was ever accepted, in qs that was not in ps, and
      what is READY has the hash and size it had. */
  ghost predicate NoNewEvidence(ps: seq<Photo>, qs: seq<Photo>, i: nat, a: nat) {
    && |ps| <= |qs|
    && (forall k :: 0 <= k < |qs| && IsReady(i, a)(qs[k]) ==>
      k < |ps| && IsReady(i, a)(ps[k]) && qs[k].hash == ps[k].hash && qs[k].size == ps[k].size)
    && (forall k :: 0 <= k < |qs| && WasReady(i, a)(qs[k]) ==> k < |ps| && WasReady(i, a)(ps[k]))
  }

  lemma FreezeStep(h: Digester, s: State, e: Event, i: nat, a: nat)
    requires Inv(h, s) && Submitted(s.steps, i, a)
    ensures NoNewEvidence(s.photos, Step(h, s, e).photos, i, a)
  {
    if TouchesPhotos(e) {
      UploadFreezes(h, s, e, i, a);
    } else {
      Frames(h, s, e);
    }
  }

  lemma UpdateFreezes(ps: seq<Photo>, k: nat, x: Photo, i: nat, a: nat)
    requires k < |ps|
    requires IsReady(i, a)(x) ==> IsReady(i, a)(ps[k]) && x.hash == ps[k].hash && x.size == ps[k].size
    requires WasReady(i, a)(x) ==> WasReady(i, a)(ps[k])
    ensures NoNewEvidence(ps, ps[k := x], i, a)
  {
  }

  lemma FinalizeFreezes(s: State, id: nat, i: nat, a: nat)
    requires FinalizePhoto(s, id).Ok? && Submitted(s.steps, i, a)
    ensures NoNewEvidence(s.photos, FinalizePhoto(s, id).value.photos, i, a)
  {
    UpdateFreezes(s.photos, id, FinalizePhoto(s, id).value.photos[id], i, a);
  }

  lemma WriteFreezes(s: State, id: nat, r: PutResult, i: nat, a: nat)
    ensures PutPhoto(s, id, r).Ok? ==> NoNewEvidence(s.photos, PutPhoto(s, id, r).value.photos, i, a)
    ensures FailPhoto(s, id).Ok? ==> NoNewEvidence(s.photos, FailPhoto(s, id).value.photos, i, a)
    ensures LosePhoto(s, id).Ok? ==> NoNewEvidence(s.photos, LosePhoto(s, id).value.photos, i, a)
  {
  }

  lemma UploadFreezes(h: Digester, s: State, e: Event, i: nat, a: nat)
    requires TouchesPhotos(e) && Submitted(s.steps, i, a)
    ensures NoNewEvidence(s.photos, Step(h, s, e).photos, i, a)
  {
    if Apply(h, s, e).Ok? {
      match e
      case EvRegisterPhoto(_, _, _) =>
      case EvPutPhoto(id, r) => WriteFreezes(s, id, r, i, a);
      case EvFinalizePhoto(id) => FinalizeFreezes(s, id, i, a);
      case EvFailPhoto(id) => WriteFreezes(s, id, PutError, i, a);
      case EvLosePhoto(id) => WriteFreezes(s, id, PutError, i, a);
    }
  }

  lemma {:induction false} FreezeRun(h: Digester, s: State, events: seq<Event>, i: nat, a: nat)
    requires Inv(h, s) && Submitted(s.steps, i, a)
    ensures NoNewEvidence(s.photos, Run(h, s, events).photos, i, a)
    decreases |events|
  {
    if events != [] {
      var t := Step(h, s, events[0]);
      FreezeStep(h, s, events[0], i, a);
      StepsAdvanceStep(h, s, events[0]);
      StepKeeps(h, s, events[0]);
      FreezeRun(h, t, events[1..], i, a);
    }
  }

  /** Whatever follows, once a step has left PENDING on an attempt no photo of that step and attempt
      becomes READY: the accepted photos of the attempt are those it was submitted with, unchanged. */
  lemma EvidenceFreezes(h: Digester, s: State, events: seq<Event>, i: nat, a: nat)
    requires Reachable(h, s) && Submitted(s.steps, i, a)
    ensures NoNewEvidence(s.photos, Run(h, s, events).photos, i, a)
  {
    ReachableInv(h, s);
    FreezeRun(h, s, events, i, a);
  }

  /** At most ten live photos for a step and attempt, and every READY photo was stored at its recorded size. */
  lemma EvidenceLimits(h: Digester, s: State, i: nat, a: nat)
    requires Reachable(h, s)
    ensures Count(s.photos, IsActive(i, a)) <= 10
    ensures forall k :: 0 <= k < |s.photos| && s.photos[k].status == Ready ==> s.photos[k].storedSize == Some(s.photos[k].size)
  {
    ReachableInv(h, s);
    forall k | 0 <= k < |s.photos| && s.photos[k].status == Ready ensures s.photos[k].storedSize == Some(s.photos[k].size) {
      assert PhotoRow(s.steps, s.photos[k]);
    }
  }

  // ---------------------------------------------------------------- the objects behind the evidence

  ghost predicate PhotoStored(s: State, k: nat)
    requires k < |s.photos|
  {
    (s.photos[k].status == Ready || (s.photos[k].upload == Written && s.photos[k].status == InFlight)) ==>
      ObjectMatches(s.objects, PhotoObject(k), s.photos[k].size)
  }

  ghost predicate SignatureStored(s: State, k: nat)
    requires k < |s.signatures|
  {
    (s.signatures[k].status == Ready || (s.signatures[k].upload == Written && s.signatures[k].status == InFlight)) ==>
      ObjectMatches(s.objects, SignatureObject(k), s.signatures[k].size)
  }

  ghost predicate AllStored(s: State) {
    && (forall k :: 0 <= k < |s.photos| ==> PhotoStored(s, k))
    && (forall k :: 0 <= k < |s.signatures| ==> SignatureStored(s, k))
  }

  lemma PhotoEventLeavesSignatures(h: Digester, s: State, e: Event, k: nat)
    requires TouchesPhotos(e) && k < |s.signatures| && SignatureStored(s, k)
    ensures Step(h, s, e).signatures == s.signatures && SignatureStored(Step(h, s, e), k)
  {
  }

  lemma PhotoEventStores(h: Digester, s: State, e: Event, k: nat)
    requires TouchesPhotos(e) && k < |Step(h, s, e).photos|
    requires k < |s.photos| ==> PhotoStored(s, k) && PhotoRow(s.steps, s.photos[k])
    ensures PhotoStored(Step(h, s, e), k)
  {
  }

  lemma PutSignatureStores(h: Digester, s: State, id: nat, r: PutResult, k: nat)
    requires k < |s.signatures| && SignatureStored(s, k) && SignatureRow(h, s.job.cycle, s.signatures[k]) && PutSignature(s, id, r).Ok?
    ensures var t := PutSignature(s, id, r).value; |t.signatures| == |s.signatures| && SignatureStored(t, k)
  {
  }

  lemma FinalizeSignatureStores(h: Digester, s: State, id: nat, k: nat)
    requires k < |s.signatures| && SignatureStored(s, k) && SignatureRow(h, s.job.cycle, s.signatures[k]) && FinalizeSignature(s, id).Ok?
    ensures var t := FinalizeSignature(s, id).value; |t.signatures| == |s.signatures| && SignatureStored(t, k)
  {
  }

  lemma FailSignatureStores(s: State, id: nat, k: nat)
    requires k < |s.signatures| && SignatureStored(s, k)
    ensures FailSignature(s, id).Ok? ==> |FailSignature(s, id).value.signatures| == |s.signatures| && SignatureStored(FailSignature(s, id).value, k)
    ensures LoseSignature(s, id).Ok? ==> |LoseSignature(s, id).value.signatures| == |s.signatures| && SignatureStored(LoseSignature(s, id).value, k)
  {
  }

  lemma SignatureEventStores(h: Digester, s: State, e: Event, k: nat)
    requires WritesSignature(e) && k < |s.signatures| && SignatureStored(s, k) && SignatureRow(h, s.job.cycle, s.signatures[k])
    ensures var t := Step(h, s, e); |t.signatures| == |s.signatures| && SignatureStored(t, k)
  {
    if Apply(h, s, e).Ok? {
      match e
      case EvPutSignature(id, r) => PutSignatureStores(h, s, id, r, k);
      case EvFinalizeSignature(id) => FinalizeSignatureStores(h, s, id, k);
      case EvFailSignature(id) => FailSignatureStores(s, id, k);
      case EvLoseSignature(id) => FailSignatureStores(s, id, k);
    }
  }

  lemma SameLength(h: Digester, s: State, e: Event)
    requires WritesSignature(e)
    ensures |Step(h, s, e).signatures| == |s.signatures|
  {
  }

  lemma SignatureListStores(h: Digester, s: State, e: Event, k: nat)
    requires (e.EvRegisterSignature? || e.EvReopen?) && k < |Step(h, s, e).signatures|
    requires forall j :: 0 <= j < |s.signatures| ==> SignatureStored(s, j)
    ensures SignatureStored(Step(h, s, e), k)
  {
    if k < |s.signatures| {
      assert SignatureStored(s, k);
    }
  }

  lemma SignatureEventLeavesPhotos(h: Digester, s: State, e: Event, k: nat)
    requires TouchesSignatures(e) && k < |s.photos| && PhotoStored(s, k)
    ensures Step(h, s, e).photos == s.photos && PhotoStored(Step(h, s, e), k)
  {
  }

  lemma {:induction false} RunStores(h: Digester, s: State, events: seq<Event>)
    requires Inv(h, s) && AllStored(s)
    ensures AllStored(Run(h, s, events))
    decreases |events|
  {
    if events != [] {
      StoredStep(h, s, events[0]);
      StepKeeps(h, s, events[0]);
      RunStores(h, Step(h, s, events[0]), events[1..]);
    }
  }

  lemma PhotoEventKeepsStored(h: Digester, s: State, e: Event)
    requires Inv(h, s) && AllStored(s) && TouchesPhotos(e)
    ensures AllStored(Step(h, s, e))
  {
    var t := Step(h, s, e);
    Frames(h, s, e);
    forall k | 0 <= k < |t.signatures| ensures SignatureStored(t, k) {
      PhotoEventLeavesSignatures(h, s, e, k);
    }
    forall k | 0 <= k < |t.photos| ensures PhotoStored(t, k) {
      if k < |s.photos| {
        assert PhotoStored(s, k) && PhotoRow(s.steps, s.photos[k]);
      }
      PhotoEventStores(h, s, e, k);
    }
  }

  lemma StoredStep(h: Digester, s: State, e: Event)
    requires Inv(h, s) && AllStored(s)
    ensures AllStored(Step(h, s, e))
  {
    if TouchesPhotos(e) {
      PhotoEventKeepsStored(h, s, e);
    } else if TouchesSignatures(e) {
      var t := Step(h, s, e);
      Frames(h, s, e);
      forall k | 0 <= k < |t.photos| ensures PhotoStored(t, k) {
        SignatureEventLeavesPhotos(h, s, e, k);
      }
      forall k | 0 <= k < |t.signatures| ensures SignatureStored(t, k) {
        if WritesSignature(e) {
          SameLength(h, s, e);
          SignatureEventStores(h, s, e, k);
        } else {
          SignatureListStores(h, s, e, k);
        }
      }
    } else {
      Frames(h, s, e);
      var t := Step(h, s, e);
      forall k | 0 <= k < |t.photos| ensures PhotoStored(t, k) { assert PhotoStored(s, k); }
      forall k | 0 <= k < |t.signatures| ensures SignatureStored(t, k) { assert SignatureStored(s, k); }
    }
  }

  /** No transaction deletes an object that evidence relies on: unless the storage itself loses or
      changes one, the object check of the closing transactions passes in every reachable state. */
  lemma ObjectCheckPasses(h: Digester, s: State)
    requires Reachable(h, s)
    ensures EvidenceIntact(s)
  {
    var start: State, events: seq<Event> :| IsNewJob(start) && s == Run(h, start, events);
    NewJobInv(h, start.job.id, start.job.branchId, start.job.technician, start.customer, start.vehicle, start.clock);
    RunStores(h, start, events);
    forall k: nat | CountedByGate(s, k) ensures ObjectMatches(s.objects, PhotoObject(k), s.photos[k].size) {
      assert PhotoStored(s, k);
    }
    var g := LatestReady(s.signatures, s.job.cycle);
    if g.Some? {
      assert SignatureStored(s, g.value);
    }
  }

  // ---------------------------------------------------------------- losses nothing can repair

  lemma {:induction false} FewerReady(ps: seq<Photo>, qs: seq<Photo>, i: nat, a: nat)
    requires NoNewEvidence(ps, qs, i, a)
    ensures Count(qs, IsReady(i, a)) <= Count(ps, IsReady(i, a))
    decreases |qs|
  {
    if |qs| > |ps| {
      assert NoNewEvidence(ps, qs[..|qs| - 1], i, a);
      FewerReady(ps, qs[..|qs| - 1], i, a);
    } else if qs != [] {
      assert NoNewEvidence(ps[..|ps| - 1], qs[..|qs| - 1], i, a);
      FewerReady(ps[..|ps| - 1], qs[..|qs| - 1], i, a);
    }
  }

  /** The stored value of a submitted attempt stays. */
  lemma StoredStays(h: Digester, s: State, e: Event, i: nat, rule: nat, a: nat)
    requires Inv(h, s) && Submitted(s.steps, i, a)
    ensures StoredRow(Step(h, s, e).measurements, i, rule, a) == StoredRow(s.measurements, i, rule, a)
  {
    if e.EvComplete? && Apply(h, s, e).Ok? {
      var rows := RowsFor(s.checklist.value.defs[e.step].rules, e.input, e.step, s.steps[e.step].attempt);
      RowsForStored([], s.checklist.value.defs[e.step].rules, e.input, e.step, s.steps[e.step].attempt);
      StoredRowAppend(s.measurements, rows, i, rule, a);
    } else if !e.EvComplete? {
      Frames(h, s, e);
    }
  }

  /** An ordinary step that was submitted once and no longer passes the gate. */
  ghost predicate OrdinaryStepFails(s: State, i: nat) {
    && s.checklist.Some? && i < |s.checklist.value.defs| && !s.checklist.value.defs[i].isStop
    && Submitted(s.steps, i, 1)
    && !(StepPhotosOk(s, i) && StepMeasurementsOk(s, i))
  }

  lemma ClosedNothing(h: Digester, s: State, e: Event)
    requires !CanComplete(s)
    ensures Step(h, s, e).snapshots == s.snapshots
  {
  }

  lemma PhotoFailureStays(h: Digester, s: State, e: Event, i: nat)
    requires Inv(h, s) && OrdinaryStepFails(s, i) && !StepPhotosOk(s, i)
    requires var t := Step(h, s, e); t.checklist.Some? && Defs(s.checklist) <= Defs(t.checklist)
    requires RelevantAttempt(s.approvals, i) == RelevantAttempt(Step(h, s, e).approvals, i) == 1
    ensures !StepPhotosOk(Step(h, s, e), i)
  {
    FreezeStep(h, s, e, i, 1);
    FewerReady(s.photos, Step(h, s, e).photos, i, 1);
  }

  lemma MeasurementFailureStays(h: Digester, s: State, e: Event, i: nat)
    requires Inv(h, s) && OrdinaryStepFails(s, i) && !StepMeasurementsOk(s, i)
    requires var t := Step(h, s, e); t.checklist.Some? && Defs(s.checklist) <= Defs(t.checklist)
    requires RelevantAttempt(s.approvals, i) == RelevantAttempt(Step(h, s, e).approvals, i) == 1
    ensures !StepMeasurementsOk(Step(h, s, e), i)
  {
    var k :| 0 <= k < |s.checklist.value.defs[i].rules| && !RuleOk(s, i, s.checklist.value.defs[i].rules[k]);
    StoredStays(h, s, e, i, s.checklist.value.defs[i].rules[k].id, 1);
    assert !RuleOk(Step(h, s, e), i, s.checklist.value.defs[i].rules[k]);
  }

  lemma OrdinaryFailureStays(h: Digester, s: State, e: Event, i: nat)
    requires Inv(h, s) && OrdinaryStepFails(s, i)
    ensures OrdinaryStepFails(Step(h, s, e), i)
  {
    StepKeeps(h, s, e);
    StepsAdvanceStep(h, s, e);
    RelevantOfInv(h, s, i);
    RelevantOfInv(h, Step(h, s, e), i);
    if StepPhotosOk(s, i) {
      MeasurementFailureStays(h, s, e, i);
    } else {
      PhotoFailureStays(h, s, e, i);
    }
  }

  lemma {:induction false} OrdinaryFailureRun(h: Digester, s: State, events: seq<Event>, i: nat)
    requires Inv(h, s) && OrdinaryStepFails(s, i)
    ensures Run(h, s, events).snapshots == s.snapshots
    decreases |events|
  {
    if events != [] {
      var t := Step(h, s, events[0]);
      assert !CanComplete(s);
      ClosedNothing(h, s, events[0]);
      OrdinaryFailureStays(h, s, events[0], i);
      StepKeeps(h, s, events[0]);
      OrdinaryFailureRun(h, t, events[1..], i);
    }
  }

  /** The gate judges an ordinary step by its first attempt for ever. If that attempt lost evidence, or
      one of its values fell to the rounding gap, no redo helps: no further cycle of the job is closed. */
  lemma OrdinaryFailureIsFinal(h: Digester, s: State, events: seq<Event>, i: nat)
    requires Reachable(h, s) && OrdinaryStepFails(s, i)
    ensures Run(h, s, events).snapshots == s.snapshots
  {
    ReachableInv(h, s);
    OrdinaryFailureRun(h, s, events, i);
  }

  // ---------------------------------------------------------------- signed equals frozen

  /** The summary frozen in a snapshot is the one its signature is over, or two different summaries
      have one digest. */
  ghost predicate FrozenAsSigned(h: Digester, x: Snapshot, y: Signature) {
    x.summary == y.signed || SameDigest(h, x.summary, y.signed)
  }

  ghost predicate OneLivePerCycle(sigs: seq<Signature>) {
    forall k, l :: 0 <= k < l < |sigs| && sigs[k].cycle == sigs[l].cycle ==> !ActiveSignature(sigs[k]) || !ActiveSignature(sigs[l])
  }

  /** A cycle has at most one live signature. A completed job has one snapshot for each of its cycles,
      any other job for each earlier one; each cites a signature of its cycle, carries that
      signature's digest and hash, and freezes the summary that was signed. */
  lemma SignedEqualsFrozen(h: Digester, s: State)
    requires Reachable(h, s)
    ensures OneLivePerCycle(s.signatures)
    ensures |s.snapshots| == if s.job.status == Completed then s.job.cycle else s.job.cycle - 1
    ensures forall c: nat :: c < |s.snapshots| ==>
      var x := s.snapshots[c];
      && x.cycle == c + 1 && x.summary.cycle == c + 1
      && x.signature.Some? && x.signature.value < |s.signatures|
      && s.signatures[x.signature.value].cycle == x.cycle
      && x.summaryDigest == s.signatures[x.signature.value].summaryDigest
      && x.signatureHash == Some(s.signatures[x.signature.value].hash)
      && FrozenAsSigned(h, x, s.signatures[x.signature.value])
  {
    ReachableInv(h, s);
    forall c: nat | c < |s.snapshots|
      ensures SnapshotRow(h, s.signatures, s.snapshots[c])
      ensures FrozenAsSigned(h, s.snapshots[c], s.signatures[s.snapshots[c].signature.value])
    {
      var x := s.snapshots[c];
      assert SnapshotRow(h, s.signatures, x);
      assert SignatureRow(h, s.job.cycle, s.signatures[x.signature.value]);
    }
  }

  /** A job is completed only with every step done and a READY signature over the rows as they are,
      and what is frozen is exactly those rows. */
  lemma ClosingFreezesTheWork(h: Digester, s: State, e: Event)
    requires Reachable(h, s) && s.job.status != Completed && Step(h, s, e).job.status == Completed
    ensures ChecklistShape(s.checklist, s.steps) && AllDone(s.steps) && s.openRisks == [] && s.policyApproved
    ensures exists k: nat, x: Snapshot :: ClosedWith(h, s, Step(h, s, e), k, x)
  {
    ReachableInv(h, s);
    CompletesThroughClose(h, s, e);
    CompleteMeansDone(h, s);
    ClosingWitness(h, s);
  }

  lemma ClosingWitness(h: Digester, s: State)
    requires Inv(h, s) && ClosingError(h, s).None? && s.job.status != Completed
    ensures exists k: nat, x: Snapshot :: ClosedWith(h, s, Close(h, s), k, x)
  {
    NewSnapshot(h, s);
    var k := LatestReady(s.signatures, s.job.cycle).value;
    SignedNow(h, s, k);
    assert ClosedWith(h, s, Close(h, s), k,
      Snapshot(s.job.cycle, Material(s), CurrentDigest(h, s), Some(k), Some(s.signatures[k].hash)));
  }

  lemma SignedNow(h: Digester, s: State, k: nat)
    requires SignatureRows(h, s.job.cycle, s.signatures) && k < |s.signatures| && ChecklistShape(s.checklist, s.steps)
    requires s.signatures[k].summaryDigest == CurrentDigest(h, s)
    ensures Material(s) == s.signatures[k].signed || SameDigest(h, Material(s), s.signatures[k].signed)
  {
    assert SignatureRow(h, s.job.cycle, s.signatures[k]);
  }

  ghost predicate ClosedWith(h: Digester, s: State, t: State, k: nat, x: Snapshot)
    requires ChecklistShape(s.checklist, s.steps)
  {
    && k < |s.signatures| && ReadySignature(s.signatures[k]) && s.signatures[k].cycle == s.job.cycle
    && t.snapshots == s.snapshots + [x]
    && x.cycle == s.job.cycle && x.summary == Material(s) && x.signature == Some(k)
    && FrozenAsSigned(h, x, s.signatures[k])
  }

  lemma OnlyClosingCompletes(h: Digester, s: State, e: Event)
    requires s.job.status != Completed && !e.EvClose? && !e.EvConfirm?
    ensures Step(h, s, e).job.status != Completed
  {
  }

  lemma CloseCompletes(h: Digester, s: State)
    requires s.job.status != Completed && CloseJob(h, s).Ok? && CloseJob(h, s).value.job.status == Completed
    ensures ClosingError(h, s).None? && CloseJob(h, s).value == Close(h, s)
  {
  }

  lemma ConfirmCompletes(h: Digester, s: State)
    requires ConfirmQuality(h, s).Ok?
    ensures ClosingError(h, s).None? && ConfirmQuality(h, s).value == Close(h, s)
  {
  }

  lemma CompletesThroughClose(h: Digester, s: State, e: Event)
    requires s.job.status != Completed && Step(h, s, e).job.status == Completed
    ensures ClosingError(h, s).None? && Step(h, s, e) == Close(h, s)
  {
    if e.EvClose? {
      CloseCompletes(h, s);
    } else if e.EvConfirm? {
      ConfirmCompletes(h, s);
    } else {
      OnlyClosingCompletes(h, s, e);
    }
  }

  lemma ClosingGrows(h: Digester, s: State)
    ensures CloseJob(h, s).Ok? ==> s.snapshots <= CloseJob(h, s).value.snapshots
    ensures ConfirmQuality(h, s).Ok? ==> s.snapshots <= ConfirmQuality(h, s).value.snapshots
  {
  }

  lemma SnapshotsGrow(h: Digester, s: State, e: Event)
    ensures s.snapshots <= Step(h, s, e).snapshots
  {
    if e.EvClose? || e.EvConfirm? {
      ClosingGrows(h, s);
    } else {
      Frames(h, s, e);
    }
  }

  lemma RegisterAdvances(h: Digester, s: State, size: nat, hash: Hex, shown: Option<string>)
    requires RegisterSignature(h, s, size, hash, shown).Ok?
    ensures SignaturesAdvance(s.signatures, RegisterSignature(h, s, size, hash, shown).value.signatures)
  {
  }

  lemma WriteAdvances(s: State, id: nat, r: PutResult)
    ensures PutSignature(s, id, r).Ok? ==> SignaturesAdvance(s.signatures, PutSignature(s, id, r).value.signatures)
    ensures FinalizeSignature(s, id).Ok? ==> SignaturesAdvance(s.signatures, FinalizeSignature(s, id).value.signatures)
  {
  }

  lemma LossAdvances(s: State, id: nat)
    ensures FailSignature(s, id).Ok? ==> SignaturesAdvance(s.signatures, FailSignature(s, id).value.signatures)
    ensures LoseSignature(s, id).Ok? ==> SignaturesAdvance(s.signatures, LoseSignature(s, id).value.signatures)
  {
  }

  lemma ReopenAdvances(s: State)
    requires ReopenJob(s).Ok?
    ensures SignaturesAdvance(s.signatures, ReopenJob(s).value.signatures)
  {
  }

  lemma SignaturesAdvanceStep(h: Digester, s: State, e: Event)
    ensures SignaturesAdvance(s.signatures, Step(h, s, e).signatures)
  {
    if !TouchesSignatures(e) {
      Frames(h, s, e);
    } else if Apply(h, s, e).Ok? {
      if e.EvRegisterSignature? {
        RegisterAdvances(h, s, e.size, e.hash, e.shown);
      } else if e.EvReopen? {
        ReopenAdvances(s);
      } else if e.EvPutSignature? {
        WriteAdvances(s, e.id, e.put);
      } else if e.EvFinalizeSignature? {
        WriteAdvances(s, e.id, PutError);
      } else {
        LossAdvances(s, e.id);
      }
    }
  }

  /** Snapshots are never changed or removed, and a signature never changes what it is over. */
  lemma {:induction false} FrozenForever(h: Digester, s: State, events: seq<Event>)
    ensures s.snapshots <= Run(h, s, events).snapshots
    ensures SignaturesAdvance(s.signatures, Run(h, s, events).signatures)
    decreases |events|
  {
    if events != [] {
      SnapshotsGrow(h, s, events[0]);
      SignaturesAdvanceStep(h, s, events[0]);
      FrozenForever(h, Step(h, s, events[0]), events[1..]);
    }
  }

  // ---------------------------------------------------------------- what every snapshot holds

  /** A summary of finished work: every step done with the photos it requires, no open blocking risk. */
  predicate FinishedSummary(x: Summary) {
    && x.steps != [] && x.openRisks == []
    && forall k :: 0 <= k < |x.steps| ==> StepDone(x.steps[k].status) && |x.steps[k].evidence| >= x.steps[k].requiredPhotos
  }

  lemma ClosedIsFinished(h: Digester, s: State)
    requires Inv(h, s) && ClosingError(h, s).None?
    ensures FinishedSummary(Material(s))
  {
    CompleteMeansDone(h, s);
    StepSummariesAt(s, |s.steps|);
    forall k | 0 <= k < |s.steps|
      ensures StepDone(Material(s).steps[k].status) && |Material(s).steps[k].evidence| >= Material(s).steps[k].requiredPhotos
    {
      EvidenceCounts(s.photos, k, RelevantAttempt(s.approvals, k));
      assert StepPhotosOk(s, k);
    }
  }

  ghost predicate AllFinished(snaps: seq<Snapshot>) {
    forall k :: 0 <= k < |snaps| ==> FinishedSummary(snaps[k].summary)
  }

  lemma SnapshotIsFinished(h: Digester, s: State)
    requires ChecklistShape(s.checklist, s.steps) && FinishedSummary(Material(s)) && AllFinished(s.snapshots)
    ensures AllFinished(FinalizeSnapshot(h, s))
  {
    if !HasSnapshot(s.snapshots, s.job.cycle) {
      var new' := FinalizeSnapshot(h, s);
      assert new'[..|s.snapshots|] == s.snapshots && new'[|s.snapshots|].summary == Material(s);
      forall k | 0 <= k < |new'| ensures FinishedSummary(new'[k].summary) {
        if k < |s.snapshots| {
          assert new'[k] == s.snapshots[k];
        }
      }
    }
  }

  lemma CloseStaysFinished(h: Digester, s: State)
    requires Inv(h, s) && ClosingError(h, s).None? && AllFinished(s.snapshots)
    ensures AllFinished(Close(h, s).snapshots)
  {
    ClosedIsFinished(h, s);
    SnapshotIsFinished(h, s);
  }

  /** What a successful closing transaction leaves: the closed job, or the job in review. */
  lemma CloseOutcome(h: Digester, s: State)
    requires CloseJob(h, s).Ok?
    ensures ClosingError(h, s).None?
    ensures CloseJob(h, s).value == Close(h, s) || CloseJob(h, s).value.snapshots == s.snapshots
  {
  }

  lemma ClosingStaysFinished(h: Digester, s: State, e: Event)
    requires Inv(h, s) && AllFinished(s.snapshots) && (e.EvClose? || e.EvConfirm?)
    ensures AllFinished(Step(h, s, e).snapshots)
  {
    if Apply(h, s, e).Ok? {
      if e.EvClose? {
        CloseOutcome(h, s);
      } else {
        ConfirmCompletes(h, s);
      }
      CloseStaysFinished(h, s);
    }
  }

  lemma {:induction false} FinishedRun(h: Digester, s: State, events: seq<Event>)
    requires Inv(h, s) && AllFinished(s.snapshots)
    ensures AllFinished(Run(h, s, events).snapshots)
    decreases |events|
  {
    if events != [] {
      var e := events[0];
      if e.EvClose? || e.EvConfirm? {
        ClosingStaysFinished(h, s, e);
      } else {
        Frames(h, s, e);
      }
      StepKeeps(h, s, e);
      FinishedRun(h, Step(h, s, e), events[1..]);
    }
  }

  /** Every snapshot ever taken freezes finished work: all steps done, at least the required photos
      listed for each, and no blocking risk open. */
  lemma SnapshotsAreFinished(h: Digester, s: State, k: nat)
    requires Reachable(h, s) && k < |s.snapshots|
    ensures FinishedSummary(s.snapshots[k].summary)
  {
    var start: State, events: seq<Event> :| IsNewJob(start) && s == Run(h, start, events);
    NewJobInv(h, start.job.id, start.job.branchId, start.job.technician, start.customer, start.vehicle, start.clock);
    FinishedRun(h, start, events);
  }
}
