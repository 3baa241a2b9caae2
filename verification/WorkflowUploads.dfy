/** The evidence tables under any event: photos, signatures, stored objects, snapshots. */
module WorkflowUploads {
  import opened Prelude
  import opened Text
  import opened JobCycle
  import opened JobModel
  import opened Summaries
  import opened Workflow
  import opened WorkflowFrame
  import opened WorkflowInv
  import opened WorkflowEvidence
  import opened WorkflowTheorems
  import opened WorkflowReached
  import opened WorkflowRows
  import opened WorkflowMoves

  // ---------------------------------------------------------------- photos

  /** The step still waits on the attempt the photo was taken for, and work goes on. */
  ghost predicate StillWanted(s: State, x: Photo) {
    && s.job.status in {InProgress, Reopened} && x.step < |s.steps|
    && s.steps[x.step].status == Pending && s.steps[x.step].attempt == x.attempt
  }

  ghost function NextPhoto(s: State, e: Event, k: nat): Photo
    requires k < |s.photos|
  {
    var x := s.photos[k];
    if e.EvPutPhoto? && e.id == k && x.upload == Writing then
      match e.put
      case Wrote(n) => x.(storedSize := Some(n), upload := if n == x.size then Written else WriteFailed)
      case PutError => x.(storedSize := None, upload := WriteFailed)
    else if e.EvFinalizePhoto? && e.id == k && x.upload == Written then
      if x.status != InFlight then x.(upload := Over)
      else if StillWanted(s, x) then x.(upload := Over, status := Ready, readyAt := Some(s.clock))
      else x.(upload := Over, status := Failed)
    else if e.EvFailPhoto? && e.id == k && x.upload == WriteFailed then
      x.(upload := Over, status := if x.status == InFlight then Failed else x.status)
    else if e.EvLosePhoto? && e.id == k then x.(status := Failed)
    else x
  }

  /** At most nine other live photos, and a step that waits: then the photo is registered for the
      attempt the step is on. */
  ghost predicate PhotosMove(s: State, e: Event, ps: seq<Photo>) {
    && |ps| == |s.photos| + (if Uploads(s, e) then 1 else 0)
    && (forall k :: 0 <= k < |s.photos| ==> ps[k] == NextPhoto(s, e, k))
    && (Uploads(s, e) ==> ps[|s.photos|] == Photo(e.step, s.steps[e.step].attempt, InFlight, e.size, e.hash, None, Writing, None))
  }

  lemma RegisterMovesPhotos(s: State, e: Event)
    requires e.EvRegisterPhoto?
    ensures PhotosMove(s, e, After(s, RegisterPhoto(s, e.step, e.size, e.hash)).photos)
  {
    if s.checklist.Some? && e.step < |s.steps| {
      CountIsLive(s.photos, e.step, s.steps[e.step].attempt);
    }
  }

  lemma PutMovesPhotos(s: State, e: Event)
    requires e.EvPutPhoto?
    ensures PhotosMove(s, e, After(s, PutPhoto(s, e.id, e.put)).photos)
  {
  }

  lemma FinalizeMovesPhotos(s: State, e: Event)
    requires e.EvFinalizePhoto?
    ensures PhotosMove(s, e, After(s, FinalizePhoto(s, e.id)).photos)
  {
  }

  lemma FailMovesPhotos(s: State, e: Event)
    ensures e.EvFailPhoto? ==> PhotosMove(s, e, After(s, FailPhoto(s, e.id)).photos)
    ensures e.EvLosePhoto? ==> PhotosMove(s, e, After(s, LosePhoto(s, e.id)).photos)
  {
  }

  lemma OthersLeavePhotos(s: State, e: Event)
    requires !TouchesPhotos(e)
    ensures PhotosMove(s, e, s.photos)
  {
  }

  lemma PhotoIs(h: Digester, s: State, e: Event)
    ensures e.EvRegisterPhoto? ==> Apply(h, s, e) == RegisterPhoto(s, e.step, e.size, e.hash)
    ensures e.EvPutPhoto? ==> Apply(h, s, e) == PutPhoto(s, e.id, e.put)
    ensures e.EvFinalizePhoto? ==> Apply(h, s, e) == FinalizePhoto(s, e.id)
    ensures e.EvFailPhoto? ==> Apply(h, s, e) == FailPhoto(s, e.id)
    ensures e.EvLosePhoto? ==> Apply(h, s, e) == LosePhoto(s, e.id)
  {
  }

  /** The photos under any event. */
  lemma PhotoRowsMove(h: Digester, s: State, e: Event)
    ensures PhotosMove(s, e, Step(h, s, e).photos)
  {
    if TouchesPhotos(e) {
      PhotoIs(h, s, e);
      match e
      case EvRegisterPhoto(_, _, _) => RegisterMovesPhotos(s, e);
      case EvPutPhoto(_, _) => PutMovesPhotos(s, e);
      case EvFinalizePhoto(_) => FinalizeMovesPhotos(s, e);
      case _ => FailMovesPhotos(s, e);
    } else {
      Frames(h, s, e);
      OthersLeavePhotos(s, e);
    }
  }

  // ---------------------------------------------------------------- signatures

  ghost function NextSignature(h: Digester, s: State, e: Event, k: nat): Signature
    requires k < |s.signatures|
  {
    var x := s.signatures[k];
    if (Registers(h, s, e) && Live(s, k)) || (Reopens(s, e) && x.cycle == s.job.cycle && x.status == Ready) then x.(superseded := true)
    else if e.EvPutSignature? && e.id == k && x.upload == Writing then
      match e.put
      case Wrote(n) => x.(storedSize := Some(n), upload := if n == x.size then Written else WriteFailed)
      case PutError => x.(storedSize := None, upload := WriteFailed)
    else if e.EvFinalizeSignature? && e.id == k && x.upload == Written then
      if x.status != InFlight then x.(upload := Over)
      else x.(upload := Over, status := if s.job.status in {InProgress, Reopened} && s.job.cycle == x.cycle then Ready else Failed)
    else if e.EvFailSignature? && e.id == k && x.upload == WriteFailed then
      x.(upload := Over, status := if x.status == InFlight then Failed else x.status)
    else if e.EvLoseSignature? && e.id == k then x.(status := Failed)
    else x
  }

  /** A registered signature is over the rows as they are, of the current cycle, under way; the one that
      was live is superseded. */
  ghost predicate SignaturesMove(h: Digester, s: State, e: Event, sigs: seq<Signature>) {
    && |sigs| == |s.signatures| + (if Registers(h, s, e) then 1 else 0)
    && (forall k :: 0 <= k < |s.signatures| ==> sigs[k] == NextSignature(h, s, e, k))
    && (Registers(h, s, e) ==>
      sigs[|s.signatures|] == Signature(s.job.cycle, InFlight, false, e.size, e.hash, h(Material(s)), Material(s), Writing, None))
  }

  lemma SignableIs(s: State)
    requires ChecklistShape(s.checklist, s.steps) && StampedRight(s.checklist, s.steps)
    ensures Signable(s) <==> IsWorkable(s.job.status) && s.checklist.Some? && s.checklist.value.completedAt.Some?
  {
    OpenIs(s.steps);
  }

  /** The newest live signature is the only one. */
  lemma LiveIsOne(h: Digester, s: State)
    requires SignatureRows(h, s.job.cycle, s.signatures)
    ensures var g := LatestActive(s.signatures, s.job.cycle);
      forall k: nat :: Live(s, k) <==> g == Some(k)
  {
    var g := LatestActive(s.signatures, s.job.cycle);
    forall k: nat ensures Live(s, k) <==> g == Some(k) {
      if Live(s, k) {
        assert ActiveSignature(s.signatures[k]);
        assert g.Some?;
        assert ActiveSignature(s.signatures[g.value]);
      }
    }
  }

  lemma OccupiedIs(h: Digester, s: State)
    requires SignatureRows(h, s.job.cycle, s.signatures) && ChecklistShape(s.checklist, s.steps)
    ensures var g := LatestActive(s.signatures, s.job.cycle);
      Occupied(h, s) <==>
        g.Some? && (s.signatures[g.value].status == InFlight || s.signatures[g.value].summaryDigest == CurrentDigest(h, s))
  {
    LiveIsOne(h, s);
  }

  /** What the first transaction of a signature answers: refused because work does not go on, because
      a step is open, because the client displayed another summary, because a live signature already
      covers the rows; otherwise registered. */
  lemma RegistersExactly(h: Digester, s: State, size: nat, hash: Hex, shown: Option<string>)
    requires Inv(h, s)
    ensures var o := RegisterSignature(h, s, size, hash, shown);
      && (o == Err(JobNotInProgress) <==> s.job.status !in {InProgress, Reopened})
      && (o == Err(ChecklistIncomplete) <==> s.job.status in {InProgress, Reopened} && !AllStepsDone(s))
      && (o == Err(SummaryStale) <==> Signable(s) && Stale(h, s, shown))
      && (o == Err(SignatureExists) <==> Signable(s) && !Stale(h, s, shown) && Occupied(h, s))
      && (o.Ok? <==> Signable(s) && !Stale(h, s, shown) && !Occupied(h, s))
  {
    SignableIs(s);
    OpenIs(s.steps);
    OccupiedIs(h, s);
  }

  /** Where a registration leaves every row that was there. */
  lemma RegisteredRows(h: Digester, s: State, size: nat, hash: Hex, shown: Option<string>, k: nat)
    requires Inv(h, s) && RegisterSignature(h, s, size, hash, shown).Ok? && k < |s.signatures|
    ensures k < |RegisterSignature(h, s, size, hash, shown).value.signatures|
    ensures RegisterSignature(h, s, size, hash, shown).value.signatures[k]
      == if Live(s, k) then s.signatures[k].(superseded := true) else s.signatures[k]
  {
    LiveIsOne(h, s);
  }

  lemma RegisteredRow(h: Digester, s: State, size: nat, hash: Hex, shown: Option<string>)
    requires RegisterSignature(h, s, size, hash, shown).Ok?
    ensures var t := RegisterSignature(h, s, size, hash, shown).value;
      && |t.signatures| == |s.signatures| + 1
      && t.signatures[|s.signatures|] == Signature(s.job.cycle, InFlight, false, size, hash, h(Material(s)), Material(s), Writing, None)
  {
  }

  lemma RegisterMovesSignatures(h: Digester, s: State, e: Event)
    requires Inv(h, s) && e.EvRegisterSignature?
    ensures SignaturesMove(h, s, e, After(s, RegisterSignature(h, s, e.size, e.hash, e.shown)).signatures)
  {
    var o := RegisterSignature(h, s, e.size, e.hash, e.shown);
    assert o.Ok? <==> Registers(h, s, e) by {
      RegistersExactly(h, s, e.size, e.hash, e.shown);
    }
    if o.Ok? {
      RegisteredRow(h, s, e.size, e.hash, e.shown);
      forall k | 0 <= k < |s.signatures| ensures o.value.signatures[k] == NextSignature(h, s, e, k) {
        RegisteredRows(h, s, e.size, e.hash, e.shown, k);
      }
    }
  }

  lemma PutMovesSignatures(h: Digester, s: State, e: Event)
    requires e.EvPutSignature?
    ensures SignaturesMove(h, s, e, After(s, PutSignature(s, e.id, e.put)).signatures)
  {
  }

  lemma FinalizeMovesSignatures(h: Digester, s: State, e: Event)
    requires e.EvFinalizeSignature?
    ensures SignaturesMove(h, s, e, After(s, FinalizeSignature(s, e.id)).signatures)
  {
  }

  lemma FailMovesSignatures(h: Digester, s: State, e: Event)
    ensures e.EvFailSignature? ==> SignaturesMove(h, s, e, After(s, FailSignature(s, e.id)).signatures)
    ensures e.EvLoseSignature? ==> SignaturesMove(h, s, e, After(s, LoseSignature(s, e.id)).signatures)
  {
  }

  lemma ReopenMovesSignatures(h: Digester, s: State, e: Event)
    requires e.EvReopen?
    ensures SignaturesMove(h, s, e, After(s, ReopenJob(s)).signatures)
  {
  }

  lemma OthersLeaveSignatures(h: Digester, s: State, e: Event)
    requires !TouchesSignatures(e)
    ensures SignaturesMove(h, s, e, s.signatures)
  {
  }

  lemma SignatureIs(h: Digester, s: State, e: Event)
    ensures e.EvPutSignature? ==> Apply(h, s, e) == PutSignature(s, e.id, e.put)
    ensures e.EvFinalizeSignature? ==> Apply(h, s, e) == FinalizeSignature(s, e.id)
    ensures e.EvFailSignature? ==> Apply(h, s, e) == FailSignature(s, e.id)
    ensures e.EvLoseSignature? ==> Apply(h, s, e) == LoseSignature(s, e.id)
  {
  }

  /** The signatures under any event. */
  lemma SignatureRowsMove(h: Digester, s: State, e: Event)
    requires Reachable(h, s)
    ensures SignaturesMove(h, s, e, Step(h, s, e).signatures)
  {
    ReachableInv(h, s);
    if e.EvReopen? {
      ApplyReopen(h, s, e);
      ReopenMovesSignatures(h, s, e);
    } else if e.EvRegisterSignature? {
      ApplyRegisterSignature(h, s, e);
      RegisterMovesSignatures(h, s, e);
    } else if TouchesSignatures(e) {
      SignatureIs(h, s, e);
      match e
      case EvPutSignature(_, _) => PutMovesSignatures(h, s, e);
      case EvFinalizeSignature(_) => FinalizeMovesSignatures(h, s, e);
      case _ => FailMovesSignatures(h, s, e);
    } else {
      Frames(h, s, e);
      OthersLeaveSignatures(h, s, e);
    }
  }

  // ---------------------------------------------------------------- snapshots

  /** Finishing a cycle freezes the summary of the rows, its digest and the signature that covers it. */
  ghost predicate SnapshotsMove(h: Digester, s: State, e: Event, snaps: seq<Snapshot>) {
    if Finishes(h, s, e) then
      exists k: nat :: Signs(h, s, k)
        && snaps == s.snapshots + [Snapshot(s.job.cycle, Material(s), h(Material(s)), Some(k), Some(s.signatures[k].hash))]
    else snaps == s.snapshots
  }

  lemma SignerIs(h: Digester, s: State)
    requires Inv(h, s) && ClosingError(h, s).None?
    ensures LatestReady(s.signatures, s.job.cycle).Some? && Signs(h, s, LatestReady(s.signatures, s.job.cycle).value)
  {
  }

  lemma CloseMovesSnapshots(h: Digester, s: State, e: Event)
    requires Inv(h, s) && Finishes(h, s, e) && ClosingError(h, s).None?
    ensures SnapshotsMove(h, s, e, FinalizeSnapshot(h, s))
  {
    SignerIs(h, s);
    NewSnapshot(h, s);
  }

  lemma OthersLeaveSnapshots(h: Digester, s: State, e: Event)
    requires !Finishes(h, s, e)
    ensures SnapshotsMove(h, s, e, s.snapshots)
  {
  }

  lemma ClosingSnapshots(h: Digester, s: State, e: Event)
    requires Inv(h, s) && (e.EvClose? || e.EvConfirm?)
    ensures Step(h, s, e).snapshots == if Finishes(h, s, e) then FinalizeSnapshot(h, s) else s.snapshots
  {
    ClosesExactly(h, s);
    ClosedSnapshots(h, s);
    if e.EvClose? {
      ApplyClose(h, s, e);
    } else {
      ApplyConfirm(h, s, e);
    }
  }

  lemma ClosedSnapshots(h: Digester, s: State)
    requires ChecklistShape(s.checklist, s.steps)
    ensures After(s, CloseJob(h, s)).snapshots
      == if s.job.status == InProgress && ClosingError(h, s).None? then FinalizeSnapshot(h, s) else s.snapshots
    ensures After(s, ConfirmQuality(h, s)).snapshots
      == if s.job.status == QualityReview && ClosingError(h, s).None? then FinalizeSnapshot(h, s) else s.snapshots
  {
  }

  /** The snapshots under any event. */
  lemma SnapshotRowsMove(h: Digester, s: State, e: Event)
    requires Reachable(h, s)
    ensures SnapshotsMove(h, s, e, Step(h, s, e).snapshots)
  {
    ReachableInv(h, s);
    if e.EvClose? || e.EvConfirm? {
      ClosingSnapshots(h, s, e);
      if Finishes(h, s, e) {
        ClosesExactly(h, s);
        CloseMovesSnapshots(h, s, e);
      } else {
        OthersLeaveSnapshots(h, s, e);
      }
    } else {
      Frames(h, s, e);
      OthersLeaveSnapshots(h, s, e);
    }
  }

  // ---------------------------------------------------------------- stored objects and surroundings

  /** The object an event writes, with its size. */
  ghost predicate WritesObject(s: State, e: Event, key: ObjectKey, n: nat) {
    || (e.EvPutPhoto? && e.id < |s.photos| && s.photos[e.id].upload == Writing && e.put == Wrote(n) && key == PhotoObject(e.id))
    || (e.EvPutSignature? && e.id < |s.signatures| && s.signatures[e.id].upload == Writing && e.put == Wrote(n)
        && key == SignatureObject(e.id))
  }

  /** The object an event deletes: the one of a finished upload whose row did not become READY with it. */
  ghost predicate DeletesObject(s: State, e: Event, key: ObjectKey) {
    || (e.EvFinalizePhoto? && e.id < |s.photos| && s.photos[e.id].upload == Written && key == PhotoObject(e.id)
        && !(s.photos[e.id].status == InFlight && StillWanted(s, s.photos[e.id])))
    || (e.EvFinalizeSignature? && e.id < |s.signatures| && s.signatures[e.id].upload == Written && key == SignatureObject(e.id)
        && !(s.signatures[e.id].status == InFlight && s.job.status in {InProgress, Reopened} && s.job.cycle == s.signatures[e.id].cycle))
  }

  ghost predicate ObjectMoves(s: State, e: Event, objects: map<ObjectKey, nat>, key: ObjectKey) {
    && (forall n: nat :: WritesObject(s, e, key, n) ==> key in objects && objects[key] == n)
    && (DeletesObject(s, e, key) ==> key !in objects)
    && ((forall n: nat :: !WritesObject(s, e, key, n)) && !DeletesObject(s, e, key) ==>
      (key in objects <==> key in s.objects) && (key in objects ==> objects[key] == s.objects[key]))
  }

  lemma PhotoMovesObject(s: State, e: Event, key: ObjectKey)
    ensures e.EvPutPhoto? ==> ObjectMoves(s, e, After(s, PutPhoto(s, e.id, e.put)).objects, key)
    ensures e.EvFinalizePhoto? ==> ObjectMoves(s, e, After(s, FinalizePhoto(s, e.id)).objects, key)
  {
    if e.EvPutPhoto? && e.put.Wrote? && e.id < |s.photos| && s.photos[e.id].upload == Writing && key == PhotoObject(e.id) {
      assert WritesObject(s, e, key, e.put.size);
    }
  }

  lemma SignatureMovesObject(s: State, e: Event, key: ObjectKey)
    ensures e.EvPutSignature? ==> ObjectMoves(s, e, After(s, PutSignature(s, e.id, e.put)).objects, key)
    ensures e.EvFinalizeSignature? ==> ObjectMoves(s, e, After(s, FinalizeSignature(s, e.id)).objects, key)
  {
    if e.EvPutSignature? && e.put.Wrote? && e.id < |s.signatures| && s.signatures[e.id].upload == Writing && key == SignatureObject(e.id) {
      assert WritesObject(s, e, key, e.put.size);
    }
  }

  lemma OthersLeaveObject(s: State, e: Event, key: ObjectKey)
    requires !e.EvPutPhoto? && !e.EvFinalizePhoto? && !e.EvPutSignature? && !e.EvFinalizeSignature?
    ensures ObjectMoves(s, e, s.objects, key)
  {
  }

  lemma SameObjects(h: Digester, s: State, e: Event)
    requires !e.EvPutPhoto? && !e.EvFinalizePhoto? && !e.EvPutSignature? && !e.EvFinalizeSignature?
    ensures Step(h, s, e).objects == s.objects
  {
    if !TouchesPhotos(e) && !TouchesSignatures(e) {
      Frames(h, s, e);
    } else if TouchesPhotos(e) {
      PhotoIs(h, s, e);
    } else if e.EvRegisterSignature? {
      ApplyRegisterSignature(h, s, e);
    } else if e.EvReopen? {
      ApplyReopen(h, s, e);
    } else {
      SignatureIs(h, s, e);
    }
  }

  /** Each stored object under any event. */
  lemma ObjectsMove(h: Digester, s: State, e: Event, key: ObjectKey)
    ensures ObjectMoves(s, e, Step(h, s, e).objects, key)
  {
    if e.EvPutPhoto? || e.EvFinalizePhoto? {
      PhotoIs(h, s, e);
      PhotoMovesObject(s, e, key);
    } else if e.EvPutSignature? || e.EvFinalizeSignature? {
      SignatureIs(h, s, e);
      SignatureMovesObject(s, e, key);
    } else {
      SameObjects(h, s, e);
      OthersLeaveObject(s, e, key);
    }
  }

  /** The clock, the risk module and the parties change only by their own events. */
  lemma SurroundingsMove(h: Digester, s: State, e: Event)
    ensures var t := Step(h, s, e);
      && t.clock == s.clock + (if e.EvTick? then e.seconds else 0)
      && t.policyApproved == (if e.EvPolicy? then e.approved else s.policyApproved)
      && t.openRisks == (if e.EvRisks? then e.open else s.openRisks)
      && t.customer == (if e.EvParties? then e.customer else s.customer)
      && t.vehicle == (if e.EvParties? then e.vehicle else s.vehicle)
  {
    if TouchesSteps(e) {
      WorkFrame(h, s, e);
    } else if TouchesPhotos(e) {
      PhotoFrame(h, s, e);
    } else if e.EvRegisterSignature? || WritesSignature(e) {
      SignatureFrame(h, s, e);
    } else if e.EvClose? || e.EvConfirm? || e.EvReopen? {
      ClosingFrame(h, s, e);
    }
  }
}
