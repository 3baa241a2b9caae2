/** What uploads, closing and the surroundings keep; then any step and any run. */
module WorkflowEvidence {
  import opened Prelude
  import opened Text
  import opened JobCycle
  import opened JobModel
  import opened Summaries
  import opened Workflow
  import opened WorkflowInv

  // ---------------------------------------------------------------- photos

  lemma EvidencedGrows(c: Option<Checklist>, steps: seq<StepRow>, ms: seq<Measurement>, photos: seq<Photo>, photos': seq<Photo>)
    requires Shape(c, steps) && Evidenced(c, steps, ms, photos)
    requires forall i: nat, a: nat :: Count(photos', WasReady(i, a)) >= Count(photos, WasReady(i, a))
    ensures Evidenced(c, steps, ms, photos')
  {
    forall i: nat, a: nat | Submitted(steps, i, a) ensures AttemptOk(Defs(c)[i], ms, photos', i, a) {
      assert AttemptOk(Defs(c)[i], ms, photos, i, a);
    }
  }

  /** Photo x is photo p further along: it never gets active again and keeps its acceptance. */
  ghost predicate PhotoAdvances(p: Photo, x: Photo) {
    && x.step == p.step && x.attempt == p.attempt
    && (p.readyAt.Some? ==> x.readyAt.Some?)
    && (x.status != Failed ==> p.status != Failed)
  }

  lemma PhotoUpdateKeeps(c: Option<Checklist>, steps: seq<StepRow>, ms: seq<Measurement>, photos: seq<Photo>, k: nat, x: Photo)
    requires Shape(c, steps) && Evidenced(c, steps, ms, photos) && PhotoRows(steps, photos)
    requires k < |photos| && PhotoRow(steps, x) && PhotoAdvances(photos[k], x)
    ensures Evidenced(c, steps, ms, photos[k := x]) && PhotoRows(steps, photos[k := x])
  {
    forall i: nat, a: nat ensures Count(photos[k := x], WasReady(i, a)) >= Count(photos, WasReady(i, a)) {
      CountUpdate(photos, k, x, WasReady(i, a));
    }
    EvidencedGrows(c, steps, ms, photos, photos[k := x]);
    forall i: nat, a: nat ensures Count(photos[k := x], IsActive(i, a)) <= MAX_PHOTOS_PER_ATTEMPT {
      CountUpdate(photos, k, x, IsActive(i, a));
    }
  }

  lemma PhotoAppendKeeps(c: Option<Checklist>, steps: seq<StepRow>, ms: seq<Measurement>, photos: seq<Photo>, x: Photo)
    requires Shape(c, steps) && Evidenced(c, steps, ms, photos) && PhotoRows(steps, photos)
    requires PhotoRow(steps, x) && Count(photos, IsActive(x.step, x.attempt)) < MAX_PHOTOS_PER_ATTEMPT
    ensures Evidenced(c, steps, ms, photos + [x]) && PhotoRows(steps, photos + [x])
  {
    forall i: nat, a: nat ensures Count(photos + [x], WasReady(i, a)) >= Count(photos, WasReady(i, a)) {
      CountAppend(photos, x, WasReady(i, a));
    }
    EvidencedGrows(c, steps, ms, photos, photos + [x]);
    forall i: nat, a: nat ensures Count(photos + [x], IsActive(i, a)) <= MAX_PHOTOS_PER_ATTEMPT {
      CountAppend(photos, x, IsActive(i, a));
    }
  }

  lemma PhotosOnly(h: Digester, s: State, t: State)
    requires Inv(h, s) && t == s.(photos := t.photos, objects := t.objects)
    requires Evidenced(s.checklist, s.steps, s.measurements, t.photos) && PhotoRows(s.steps, t.photos)
    ensures Inv(h, t)
  {
  }

  lemma RegisterPhotoKeeps(h: Digester, s: State, i: nat, size: nat, hash: Hex)
    requires Inv(h, s) && RegisterPhoto(s, i, size, hash).Ok?
    ensures Inv(h, RegisterPhoto(s, i, size, hash).value)
  {
    var x := Photo(i, s.steps[i].attempt, InFlight, size, hash, None, Writing, None);
    PhotoAppendKeeps(s.checklist, s.steps, s.measurements, s.photos, x);
    PhotosOnly(h, s, RegisterPhoto(s, i, size, hash).value);
  }

  lemma PutPhotoKeeps(h: Digester, s: State, id: nat, r: PutResult)
    requires Inv(h, s) && PutPhoto(s, id, r).Ok?
    ensures Inv(h, PutPhoto(s, id, r).value)
  {
    var t := PutPhoto(s, id, r).value;
    assert PhotoRow(s.steps, s.photos[id]);
    PhotoUpdateKeeps(s.checklist, s.steps, s.measurements, s.photos, id, t.photos[id]);
    PhotosOnly(h, s, t);
  }

  lemma FinalizePhotoKeeps(h: Digester, s: State, id: nat)
    requires Inv(h, s) && FinalizePhoto(s, id).Ok?
    ensures Inv(h, FinalizePhoto(s, id).value)
  {
    var t := FinalizePhoto(s, id).value;
    assert PhotoRow(s.steps, s.photos[id]);
    PhotoUpdateKeeps(s.checklist, s.steps, s.measurements, s.photos, id, t.photos[id]);
    PhotosOnly(h, s, t);
  }

  lemma FailPhotoKeeps(h: Digester, s: State, id: nat)
    requires Inv(h, s) && FailPhoto(s, id).Ok?
    ensures Inv(h, FailPhoto(s, id).value)
  {
    var t := FailPhoto(s, id).value;
    assert PhotoRow(s.steps, s.photos[id]);
    PhotoUpdateKeeps(s.checklist, s.steps, s.measurements, s.photos, id, t.photos[id]);
    PhotosOnly(h, s, t);
  }

  lemma LosePhotoKeeps(h: Digester, s: State, id: nat)
    requires Inv(h, s) && LosePhoto(s, id).Ok?
    ensures Inv(h, LosePhoto(s, id).value)
  {
    var t := LosePhoto(s, id).value;
    assert PhotoRow(s.steps, s.photos[id]);
    PhotoUpdateKeeps(s.checklist, s.steps, s.measurements, s.photos, id, t.photos[id]);
    PhotosOnly(h, s, t);
  }

  // ---------------------------------------------------------------- signatures

  /** Signature x is signature y further along: what was signed stays, and it never gets active again. */
  ghost predicate SignatureAdvances(y: Signature, x: Signature) {
    && x.cycle == y.cycle && x.summaryDigest == y.summaryDigest && x.signed == y.signed && x.hash == y.hash
    && (ActiveSignature(x) ==> ActiveSignature(y))
  }

  ghost predicate SignaturesAdvance(sigs: seq<Signature>, t: seq<Signature>) {
    |sigs| <= |t| && forall k :: 0 <= k < |sigs| ==> SignatureAdvances(sigs[k], t[k])
  }

  lemma SnapshotsStay(h: Digester, job: Job, sigs: seq<Signature>, t: seq<Signature>, snaps: seq<Snapshot>)
    requires SnapshotRows(h, job, sigs, snaps) && SignaturesAdvance(sigs, t)
    ensures SnapshotRows(h, job, t, snaps)
  {
    forall k | 0 <= k < |snaps| ensures SnapshotRow(h, t, snaps[k]) {
      assert SnapshotRow(h, sigs, snaps[k]);
    }
  }

  lemma SignatureUpdateKeeps(h: Digester, s: State, k: nat, x: Signature)
    requires SignatureRows(h, s.job.cycle, s.signatures) && SnapshotRows(h, s.job, s.signatures, s.snapshots)
    requires k < |s.signatures| && SignatureRow(h, s.job.cycle, x) && SignatureAdvances(s.signatures[k], x)
    ensures SignatureRows(h, s.job.cycle, s.signatures[k := x])
    ensures SnapshotRows(h, s.job, s.signatures[k := x], s.snapshots)
  {
    SnapshotsStay(h, s.job, s.signatures, s.signatures[k := x], s.snapshots);
  }

  lemma SignatureAppendKeeps(h: Digester, job: Job, sigs: seq<Signature>, snaps: seq<Snapshot>, x: Signature)
    requires SignatureRows(h, job.cycle, sigs) && SnapshotRows(h, job, sigs, snaps)
    requires SignatureRow(h, job.cycle, x)
    requires forall k :: 0 <= k < |sigs| && sigs[k].cycle == x.cycle ==> !ActiveSignature(sigs[k])
    ensures SignatureRows(h, job.cycle, sigs + [x]) && SnapshotRows(h, job, sigs + [x], snaps)
  {
    SnapshotsStay(h, job, sigs, sigs + [x], snaps);
  }

  lemma SignaturesOnly(h: Digester, s: State, t: State)
    requires Inv(h, s) && t == s.(signatures := t.signatures, objects := t.objects)
    requires SignatureRows(h, s.job.cycle, t.signatures) && SnapshotRows(h, s.job, t.signatures, s.snapshots)
    ensures Inv(h, t)
  {
  }

  /** The signature list of a registration: an outdated live signature is superseded, the new one added. */
  lemma RegisteredSignatures(h: Digester, s: State, x: Signature)
    requires Inv(h, s) && SignatureRow(h, s.job.cycle, x) && x.cycle == s.job.cycle
    ensures var k := LatestActive(s.signatures, s.job.cycle);
      var old' := if k.Some? then s.signatures[k.value := s.signatures[k.value].(superseded := true)] else s.signatures;
      SignatureRows(h, s.job.cycle, old' + [x]) && SnapshotRows(h, s.job, old' + [x], s.snapshots)
  {
    var k := LatestActive(s.signatures, s.job.cycle);
    if k.None? {
      SignatureAppendKeeps(h, s.job, s.signatures, s.snapshots, x);
    } else {
      var y := s.signatures[k.value].(superseded := true);
      assert SignatureRow(h, s.job.cycle, s.signatures[k.value]);
      SignatureUpdateKeeps(h, s, k.value, y);
      SignatureAppendKeeps(h, s.job, s.signatures[k.value := y], s.snapshots, x);
    }
  }

  lemma RegisterSignatureKeeps(h: Digester, s: State, size: nat, hash: Hex, shown: Option<string>)
    requires Inv(h, s) && RegisterSignature(h, s, size, hash, shown).Ok?
    ensures Inv(h, RegisterSignature(h, s, size, hash, shown).value)
  {
    var x := Signature(s.job.cycle, InFlight, false, size, hash, CurrentDigest(h, s), Material(s), Writing, None);
    RegisteredSignatures(h, s, x);
    SignaturesOnly(h, s, RegisterSignature(h, s, size, hash, shown).value);
  }

  lemma PutSignatureKeeps(h: Digester, s: State, id: nat, r: PutResult)
    requires Inv(h, s) && PutSignature(s, id, r).Ok?
    ensures Inv(h, PutSignature(s, id, r).value)
  {
    var t := PutSignature(s, id, r).value;
    assert SignatureRow(h, s.job.cycle, s.signatures[id]);
    SignatureUpdateKeeps(h, s, id, t.signatures[id]);
    SignaturesOnly(h, s, t);
  }

  /** Signature k as the second transaction leaves it. */
  lemma FinalizedSignature(h: Digester, s: State, id: nat)
    requires SignatureRows(h, s.job.cycle, s.signatures) && FinalizeSignature(s, id).Ok?
    ensures var t := FinalizeSignature(s, id).value;
      && id < |s.signatures| && t.signatures == s.signatures[id := t.signatures[id]]
      && SignatureRow(h, s.job.cycle, t.signatures[id]) && SignatureAdvances(s.signatures[id], t.signatures[id])
      && t == s.(signatures := t.signatures, objects := t.objects)
  {
    assert SignatureRow(h, s.job.cycle, s.signatures[id]);
  }

  lemma FinalizeSignatureKeeps(h: Digester, s: State, id: nat)
    requires Inv(h, s) && FinalizeSignature(s, id).Ok?
    ensures Inv(h, FinalizeSignature(s, id).value)
  {
    var t := FinalizeSignature(s, id).value;
    FinalizedSignature(h, s, id);
    SignatureUpdateKeeps(h, s, id, t.signatures[id]);
    SignaturesOnly(h, s, t);
  }

  lemma FailSignatureKeeps(h: Digester, s: State, id: nat)
    requires Inv(h, s) && FailSignature(s, id).Ok?
    ensures Inv(h, FailSignature(s, id).value)
  {
    var t := FailSignature(s, id).value;
    assert SignatureRow(h, s.job.cycle, s.signatures[id]);
    SignatureUpdateKeeps(h, s, id, t.signatures[id]);
    SignaturesOnly(h, s, t);
  }

  lemma LoseSignatureKeeps(h: Digester, s: State, id: nat)
    requires Inv(h, s) && LoseSignature(s, id).Ok?
    ensures Inv(h, LoseSignature(s, id).value)
  {
    var t := LoseSignature(s, id).value;
    assert SignatureRow(h, s.job.cycle, s.signatures[id]);
    SignatureUpdateKeeps(h, s, id, t.signatures[id]);
    SignaturesOnly(h, s, t);
  }

  // ---------------------------------------------------------------- closing and reopening

  /** The gate lets a job through only when every step is done. */
  lemma CompleteMeansDone(h: Digester, s: State)
    requires Inv(h, s) && CanComplete(s)
    ensures s.steps != [] && AllDone(s.steps)
  {
  }

  lemma ClosedCoherent(steps: seq<StepRow>, status: JobStatus)
    requires steps != [] && AllDone(steps) && (status == Completed || status == QualityReview)
    ensures Coherent(status, steps)
  {
  }

  lemma ReviewKeeps(h: Digester, s: State)
    requires Inv(h, s) && s.job.status == Reopened && CanComplete(s)
    ensures Inv(h, s.(job := s.job.(status := QualityReview)))
  {
    CompleteMeansDone(h, s);
    ClosedCoherent(s.steps, QualityReview);
  }

  lemma NewSnapshot(h: Digester, s: State)
    requires Inv(h, s) && ClosingError(h, s).None? && s.job.status != Completed
    ensures var x := Snapshot(s.job.cycle, Material(s), CurrentDigest(h, s), LatestReady(s.signatures, s.job.cycle),
                              Some(s.signatures[LatestReady(s.signatures, s.job.cycle).value].hash));
      FinalizeSnapshot(h, s) == s.snapshots + [x] && SnapshotRow(h, s.signatures, x)
  {
    assert !HasSnapshot(s.snapshots, s.job.cycle);
  }

  lemma SnapshotAppended(h: Digester, job: Job, sigs: seq<Signature>, snaps: seq<Snapshot>, x: Snapshot, closed: Job)
    requires SnapshotRows(h, job, sigs, snaps) && SnapshotRow(h, sigs, x) && x.cycle == job.cycle
    requires job.status != Completed && closed.status == Completed && closed.cycle == job.cycle
    ensures SnapshotRows(h, closed, sigs, snaps + [x])
  {
  }

  lemma SnapshotTaken(h: Digester, s: State)
    requires Inv(h, s) && ClosingError(h, s).None? && s.job.status != Completed
    ensures SnapshotRows(h, Close(h, s).job, s.signatures, FinalizeSnapshot(h, s))
  {
    NewSnapshot(h, s);
    var x := Snapshot(s.job.cycle, Material(s), CurrentDigest(h, s), LatestReady(s.signatures, s.job.cycle),
                      Some(s.signatures[LatestReady(s.signatures, s.job.cycle).value].hash));
    SnapshotAppended(h, s.job, s.signatures, s.snapshots, x, Close(h, s).job);
  }

  lemma ClosedOnly(h: Digester, s: State, t: State)
    requires Inv(h, s) && t == s.(job := t.job, snapshots := t.snapshots)
    requires t.job == s.job.(status := Completed, closedAt := Some(s.clock))
    requires Coherent(Completed, s.steps) && SnapshotRows(h, t.job, s.signatures, t.snapshots)
    ensures Inv(h, t)
  {
    assert Clocked(t.job, s.clock);
  }

  lemma CloseKeeps(h: Digester, s: State)
    requires Inv(h, s) && ClosingError(h, s).None?
    requires s.job.status == InProgress || s.job.status == QualityReview
    ensures Inv(h, Close(h, s))
  {
    CompleteMeansDone(h, s);
    ClosedCoherent(s.steps, Completed);
    SnapshotTaken(h, s);
    ClosedOnly(h, s, Close(h, s));
  }

  lemma SupersedeKeeps(h: Digester, cycle: nat, sigs: seq<Signature>)
    requires SignatureRows(h, cycle, sigs)
    ensures SignatureRows(h, cycle + 1, Supersede(sigs, cycle)) && SignaturesAdvance(sigs, Supersede(sigs, cycle))
  {
    forall k | 0 <= k < |sigs| ensures SignatureRow(h, cycle + 1, Supersede(sigs, cycle)[k]) {
      assert SignatureRow(h, cycle, sigs[k]);
    }
  }

  lemma ReopenKeeps(h: Digester, s: State)
    requires Inv(h, s) && ReopenJob(s).Ok?
    ensures Inv(h, ReopenJob(s).value)
  {
    var t := ReopenJob(s).value;
    SupersedeKeeps(h, s.job.cycle, s.signatures);
    SnapshotsStay(h, s.job, s.signatures, t.signatures, s.snapshots);
    assert Coherent(Reopened, s.steps);
    assert Clocked(t.job, t.clock);
  }

  // ---------------------------------------------------------------- runs

  lemma NoneSubmitted(steps: seq<StepRow>)
    requires steps == []
    ensures forall i: nat, a: nat :: !Submitted(steps, i, a)
  {
  }

  lemma NoRows(c: Option<Checklist>, steps: seq<StepRow>)
    requires c.None? && steps == []
    ensures Shape(c, steps) && StampedRight(c, steps) && DonePrefix(1, steps)
  {
  }

  lemma NoApprovals(c: Option<Checklist>, steps: seq<StepRow>)
    requires c.None? && steps == [] && Shape(c, steps)
    ensures Ledger(c, steps, [])
  {
    NoneSubmitted(steps);
  }

  lemma NoEvidence(c: Option<Checklist>, steps: seq<StepRow>)
    requires c.None? && steps == [] && Shape(c, steps)
    ensures Evidenced(c, steps, [], [])
  {
    NoneSubmitted(steps);
  }

  lemma NoPhotos(steps: seq<StepRow>)
    ensures PhotoRows(steps, [])
  {
  }

  lemma NoSignatures(h: Digester, job: Job, sigs: seq<Signature>, snaps: seq<Snapshot>)
    requires sigs == [] && snaps == [] && job.cycle == 1 && job.status == Draft
    ensures SignatureRows(h, job.cycle, sigs) && SnapshotRows(h, job, sigs, snaps)
  {
  }

  lemma NewJobStatus(s: State)
    requires s.steps == [] && s.job.status == Draft && s.job.cycle == 1 && s.job.closedAt.None? && s.job.reopenedAt.None?
    ensures Coherent(s.job.status, s.steps) && Clocked(s.job, s.clock)
  {
  }

  lemma NewJobInv(h: Digester, id: nat, branchId: nat, technician: Option<nat>, customer: Customer, vehicle: Vehicle, clock: nat)
    ensures Inv(h, NewJob(id, branchId, technician, customer, vehicle, clock))
  {
    var s := NewJob(id, branchId, technician, customer, vehicle, clock);
    NoRows(s.checklist, s.steps);
    NoApprovals(s.checklist, s.steps);
    NewJobStatus(s);
    NoEvidence(s.checklist, s.steps);
    NoPhotos(s.steps);
    NoSignatures(h, s.job, s.signatures, s.snapshots);
  }

  lemma SurroundingsKeep(h: Digester, s: State, e: Event)
    requires Inv(h, s) && (e.EvTick? || e.EvPolicy? || e.EvRisks? || e.EvParties? || e.EvReassign?)
    ensures Inv(h, Step(h, s, e))
  {
  }

  lemma WorkKeeps(h: Digester, s: State, e: Event)
    requires Inv(h, s) && Apply(h, s, e).Ok?
    requires e.EvStart? || e.EvCancel? || e.EvInstallation? || e.EvAssign? || e.EvComplete? || e.EvRedo? || e.EvApprove?
      || e.EvReject? || e.EvRework?
    ensures Inv(h, Apply(h, s, e).value)
  {
    match e
    case EvStart => StartKeeps(h, s);
    case EvCancel => CancelKeeps(h, s);
    case EvInstallation(p) => InstallationKeeps(h, s, p);
    case EvAssign(p) => AssignKeeps(h, s, p);
    case EvComplete(i, input) => CompleteKeeps(h, s, i, input);
    case EvRedo(i) => RedoKeeps(h, s, i);
    case EvApprove => ApproveKeeps(h, s);
    case EvReject => RejectKeeps(h, s);
    case EvRework => ReworkKeeps(h, s);
  }

  lemma PhotoEventKeeps(h: Digester, s: State, e: Event)
    requires Inv(h, s) && Apply(h, s, e).Ok?
    requires e.EvRegisterPhoto? || e.EvPutPhoto? || e.EvFinalizePhoto? || e.EvFailPhoto? || e.EvLosePhoto?
    ensures Inv(h, Apply(h, s, e).value)
  {
    match e
    case EvRegisterPhoto(i, size, hash) => RegisterPhotoKeeps(h, s, i, size, hash);
    case EvPutPhoto(id, r) => PutPhotoKeeps(h, s, id, r);
    case EvFinalizePhoto(id) => FinalizePhotoKeeps(h, s, id);
    case EvFailPhoto(id) => FailPhotoKeeps(h, s, id);
    case EvLosePhoto(id) => LosePhotoKeeps(h, s, id);
  }

  lemma SignatureWriteKeeps(h: Digester, s: State, e: Event)
    requires Inv(h, s) && Apply(h, s, e).Ok? && (e.EvPutSignature? || e.EvFinalizeSignature?)
    ensures Inv(h, Apply(h, s, e).value)
  {
    if e.EvPutSignature? {
      PutSignatureKeeps(h, s, e.id, e.put);
    } else {
      FinalizeSignatureKeeps(h, s, e.id);
    }
  }

  lemma SignatureLossKeeps(h: Digester, s: State, e: Event)
    requires Inv(h, s) && Apply(h, s, e).Ok? && (e.EvFailSignature? || e.EvLoseSignature?)
    ensures Inv(h, Apply(h, s, e).value)
  {
    if e.EvFailSignature? {
      FailSignatureKeeps(h, s, e.id);
    } else {
      LoseSignatureKeeps(h, s, e.id);
    }
  }

  lemma CloseJobKeeps(h: Digester, s: State)
    requires Inv(h, s) && CloseJob(h, s).Ok?
    ensures Inv(h, CloseJob(h, s).value)
  {
    if s.job.status == Reopened {
      ReviewKeeps(h, s);
    } else {
      CloseKeeps(h, s);
    }
  }

  lemma ConfirmKeeps(h: Digester, s: State)
    requires Inv(h, s) && ConfirmQuality(h, s).Ok?
    ensures Inv(h, ConfirmQuality(h, s).value)
  {
    CloseKeeps(h, s);
  }

  lemma ClosingKeeps(h: Digester, s: State, e: Event)
    requires Inv(h, s) && Apply(h, s, e).Ok? && (e.EvClose? || e.EvConfirm? || e.EvReopen?)
    ensures Inv(h, Apply(h, s, e).value)
  {
    match e
    case EvClose => CloseJobKeeps(h, s);
    case EvConfirm => ConfirmKeeps(h, s);
    case EvReopen => ReopenKeeps(h, s);
  }

  predicate IsPhotoEvent(e: Event) {
    e.EvRegisterPhoto? || e.EvPutPhoto? || e.EvFinalizePhoto? || e.EvFailPhoto? || e.EvLosePhoto?
  }

  predicate IsSignatureEvent(e: Event) {
    e.EvRegisterSignature? || e.EvPutSignature? || e.EvFinalizeSignature? || e.EvFailSignature? || e.EvLoseSignature?
  }

  lemma UploadKeeps(h: Digester, s: State, e: Event)
    requires Inv(h, s) && Apply(h, s, e).Ok? && (IsPhotoEvent(e) || IsSignatureEvent(e))
    ensures Inv(h, Apply(h, s, e).value)
  {
    if IsPhotoEvent(e) {
      PhotoEventKeeps(h, s, e);
    } else if e.EvRegisterSignature? {
      RegisterSignatureKeeps(h, s, e.size, e.hash, e.shown);
    } else if e.EvPutSignature? || e.EvFinalizeSignature? {
      SignatureWriteKeeps(h, s, e);
    } else {
      SignatureLossKeeps(h, s, e);
    }
  }

  lemma StepKeeps(h: Digester, s: State, e: Event)
    requires Inv(h, s)
    ensures Inv(h, Step(h, s, e))
  {
    if Apply(h, s, e).Ok? {
      if e.EvTick? || e.EvPolicy? || e.EvRisks? || e.EvParties? || e.EvReassign? {
        SurroundingsKeep(h, s, e);
      } else if e.EvClose? || e.EvConfirm? || e.EvReopen? {
        ClosingKeeps(h, s, e);
      } else if IsPhotoEvent(e) || IsSignatureEvent(e) {
        UploadKeeps(h, s, e);
      } else {
        WorkKeeps(h, s, e);
      }
    }
  }

  lemma {:induction false} RunKeeps(h: Digester, s: State, events: seq<Event>)
    requires Inv(h, s)
    ensures Inv(h, Run(h, s, events))
    decreases |events|
  {
    if events != [] {
      StepKeeps(h, s, events[0]);
      RunKeeps(h, Step(h, s, events[0]), events[1..]);
    }
  }
}
