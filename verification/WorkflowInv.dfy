/** What every transaction of the workflow keeps. */
module WorkflowInv {
  import opened Prelude
  import opened Text
  import opened JobCycle
  import opened JobModel
  import opened Summaries
  import opened Workflow

  // ---------------------------------------------------------------- lists

  lemma CountAppend(ps: seq<Photo>, x: Photo, p: Photo -> bool)
    ensures Count(ps + [x], p) == Count(ps, p) + if p(x) then 1 else 0
  {
    assert (ps + [x])[..|ps|] == ps;
  }

  lemma {:induction false} CountUpdate(ps: seq<Photo>, k: nat, x: Photo, p: Photo -> bool)
    requires k < |ps|
    ensures Count(ps[k := x], p) + (if p(ps[k]) then 1 else 0) == Count(ps, p) + if p(x) then 1 else 0
  {
    var n := |ps| - 1;
    if k == n {
      assert ps[k := x][..n] == ps[..n];
    } else {
      assert ps[k := x][..n] == ps[..n][k := x];
      CountUpdate(ps[..n], k, x, p);
    }
  }

  lemma {:induction false} CountMono(ps: seq<Photo>, p: Photo -> bool, q: Photo -> bool)
    requires forall k :: 0 <= k < |ps| && p(ps[k]) ==> q(ps[k])
    ensures Count(ps, p) <= Count(ps, q)
  {
    if ps != [] {
      CountMono(ps[..|ps| - 1], p, q);
    }
  }

  lemma {:induction false} StoredRowAppend(ms: seq<Measurement>, rows: seq<Measurement>, i: nat, rule: nat, a: nat)
    requires forall k :: 0 <= k < |rows| ==> !(rows[k].step == i && rows[k].rule == rule && rows[k].attempt == a)
    ensures StoredRow(ms + rows, i, rule, a) == StoredRow(ms, i, rule, a)
  {
    if rows == [] {
      assert ms + rows == ms;
    } else {
      var n := |rows| - 1;
      assert (ms + rows)[..|ms + rows| - 1] == ms + rows[..n];
      StoredRowAppend(ms, rows[..n], i, rule, a);
    }
  }

  // ---------------------------------------------------------------- two roundings of one value

  /** The value is at least a thousandth of a thousandth away from the middle between two thousandths:
      so is every decimal with at most three places. */
  predicate ClearOfTies(v: real) {
    var f := v * 1000.0 - (v * 1000.0).Floor as real;
    f <= 0.499 || f >= 0.501
  }

  /** The stored thousandths fit the column; the accepted ones differ from them by at most one, and not at
      all clear of ties. */
  predicate RoundedAlike(m: Measurement) {
    && m.value == ColumnThousandths(m.submitted) && FitsColumn(m.value)
    && m.accepted - 1 <= m.value <= m.accepted + 1
    && (ClearOfTies(m.submitted) ==> m.accepted == m.value)
  }

  lemma FittingIsSmall(v: real)
    requires FitsColumn(ColumnThousandths(v))
    ensures -1_000_000_000.0 <= v <= 1_000_000_000.0
  {
    var t := ColumnThousandths(v);
    if v >= 0.0 {
      assert v * 1000.0 + 0.5 < t as real + 1.0;
    } else {
      assert -v * 1000.0 + 0.5 < -t as real + 1.0;
    }
  }

  lemma RoundingsAlike(x: Submission, m: Measurement)
    requires m.submitted == x.value && m.accepted == ToThousandths(x.product) && m.value == ColumnThousandths(x.value)
    requires FitsColumn(m.value)
    ensures RoundedAlike(m)
  {
    FittingIsSmall(x.value);
    NearProduct(x.value * 1000.0, x.product, m.accepted);
    ColumnRounds(x.value, m.value);
  }

  /** What rounding the product can yield, given the exact thousandths y. */
  lemma NearProduct(y: real, product: real, t: int)
    requires -0.001 < product - y < 0.001 && t == ToThousandths(product)
    ensures y.Floor <= t <= y.Floor + 1
    ensures y - y.Floor as real <= 0.499 ==> t == y.Floor
    ensures y - y.Floor as real >= 0.501 ==> t == y.Floor + 1
  {
    assert t as real <= product + 0.5 < t as real + 1.0;
    assert y.Floor as real <= y < y.Floor as real + 1.0;
  }

  lemma ColumnRounds(v: real, t: int)
    requires t == ColumnThousandths(v)
    ensures var y := v * 1000.0;
      && y.Floor <= t <= y.Floor + 1
      && (y - y.Floor as real <= 0.499 ==> t == y.Floor)
      && (y - y.Floor as real >= 0.501 ==> t == y.Floor + 1)
  {
    var y := v * 1000.0;
    assert y.Floor as real <= y < y.Floor as real + 1.0;
    if v >= 0.0 {
      assert t as real <= y + 0.5 < t as real + 1.0;
    } else {
      assert -v * 1000.0 == -y;
      assert -t as real <= -y + 0.5 < -t as real + 1.0;
    }
  }

  /** The stored rows of a completed step: one for each rule with a value, and nothing else. */
  lemma {:induction false} RowsForStored(ms: seq<Measurement>, rules: seq<Rule>, input: seq<Submission>, i: nat, a: nat)
    ensures forall m <- RowsFor(rules, input, i, a) :: m.step == i && m.attempt == a && (FitsColumn(m.value) ==> RoundedAlike(m))
    ensures forall k :: 0 <= k < |rules| && SubmittedValue(input, rules[k].id).Some? ==>
      var x := SubmittedValue(input, rules[k].id).value;
      StoredRow(ms + RowsFor(rules, input, i, a), i, rules[k].id, a)
        == Some(Measurement(i, rules[k].id, a, x.value, ToThousandths(x.product), ColumnThousandths(x.value)))
  {
    if rules != [] {
      var n := |rules| - 1;
      RowsForStored(ms, rules[..n], input, i, a);
      var rest := RowsFor(rules[..n], input, i, a);
      match SubmittedValue(input, rules[n].id)
      case None =>
      case Some(x) =>
        var m := Measurement(i, rules[n].id, a, x.value, ToThousandths(x.product), ColumnThousandths(x.value));
        if FitsColumn(m.value) {
          RoundingsAlike(x, m);
        }
        var all := ms + (rest + [m]);
        assert all[|all| - 1] == m && all[..|all| - 1] == ms + rest;
    }
  }

  lemma {:induction false} StoredRowIsRow(ms: seq<Measurement>, i: nat, rule: nat, a: nat)
    ensures StoredRow(ms, i, rule, a).Some? ==> StoredRow(ms, i, rule, a).value in ms
  {
    if ms != [] {
      StoredRowIsRow(ms[..|ms| - 1], i, rule, a);
    }
  }

  // ---------------------------------------------------------------- the invariant

  function Defs(c: Option<Checklist>): seq<StepDef> {
    if c.Some? then c.value.defs else []
  }

  /** Step i has been submitted on attempt a: the attempt is over or its result stands. */
  predicate Submitted(steps: seq<StepRow>, i: nat, a: nat) {
    i < |steps| && a >= 1 && (a < steps[i].attempt || (a == steps[i].attempt && steps[i].status != Pending))
  }

  ghost predicate Shape(c: Option<Checklist>, steps: seq<StepRow>) {
    && ChecklistShape(c, steps)
    && (forall i :: 0 <= i < |steps| ==> steps[i].attempt >= 1)
    && forall i :: 0 <= i < |steps| ==>
      if Defs(c)[i].isStop then steps[i].status != StepCompleted
      else steps[i].status == Pending || steps[i].status == StepCompleted
  }

  ghost predicate AtMostOne(steps: seq<StepRow>, st: StepStatus) {
    forall i, j :: 0 <= i < |steps| && 0 <= j < |steps| && steps[i].status == st && steps[j].status == st ==> i == j
  }

  ghost predicate SomeStep(steps: seq<StepRow>, st: StepStatus) {
    exists i :: 0 <= i < |steps| && steps[i].status == st
  }

  /** The job status says whether a step waits for a decision or stands rejected. */
  ghost predicate Coherent(status: JobStatus, steps: seq<StepRow>) {
    && (status == WaitingStopApproval <==> SomeStep(steps, WaitingApproval))
    && (status == JobRejected <==> SomeStep(steps, StepRejected))
    && AtMostOne(steps, WaitingApproval)
    && AtMostOne(steps, StepRejected)
    && (status == Completed || status == QualityReview ==> steps != [] && AllDone(steps))
  }

  ghost predicate StampedRight(c: Option<Checklist>, steps: seq<StepRow>) {
    c.Some? ==> (c.value.completedAt.Some? <==> AllDone(steps))
  }

  /** In the first cycle every step before a submitted one is done. */
  ghost predicate DonePrefix(cycle: nat, steps: seq<StepRow>) {
    cycle == 1 ==> forall i, j :: 0 <= i < j < |steps| && steps[j].status != Pending ==> StepDone(steps[i].status)
  }

  function DecisionOf(st: StepStatus): Decision {
    if st == WaitingApproval then Undecided else if st == Approved then StopApproved else StopRejected
  }

  ghost predicate HasApproval(aps: seq<Approval>, i: nat, a: nat) {
    exists k :: 0 <= k < |aps| && aps[k].step == i && aps[k].attempt == a
  }

  /** Approvals are exactly the submitted attempts of STOP steps, each once; all but the current
      one are decided, and the current one matches the step. */
  ghost predicate Ledger(c: Option<Checklist>, steps: seq<StepRow>, aps: seq<Approval>)
    requires Shape(c, steps)
  {
    && (forall k :: 0 <= k < |aps| ==>
      && Submitted(steps, aps[k].step, aps[k].attempt)
      && Defs(c)[aps[k].step].isStop
      && if aps[k].attempt < steps[aps[k].step].attempt then aps[k].decision != Undecided
         else aps[k].decision == DecisionOf(steps[aps[k].step].status))
    && (forall k, l :: 0 <= k < l < |aps| ==> !(aps[k].step == aps[l].step && aps[k].attempt == aps[l].attempt))
    && (forall i: nat, a: nat :: Submitted(steps, i, a) && Defs(c)[i].isStop ==> HasApproval(aps, i, a))
  }

  /** Close and reopen times against the cycle and the clock. */
  ghost predicate Clocked(job: Job, clock: nat) {
    && job.cycle >= 1
    && (job.closedAt.Some? ==> job.closedAt.value <= clock)
    && (job.reopenedAt.Some? ==> job.reopenedAt.value <= clock)
    && (job.reopenedAt.Some? <==> job.cycle > 1)
    && (job.closedAt.Some? <==> job.cycle > 1 || job.status == Completed)
    && (job.cycle > 1 && job.status != Completed ==> job.reopenedAt.value >= job.closedAt.value)
    && (job.status in {Draft, InProgress, Cancelled} ==> job.cycle == 1)
    && (job.status in {Reopened, QualityReview} ==> job.cycle > 1)
  }

  /** A submitted attempt had its photos and its measurements. */
  ghost predicate AttemptOk(d: StepDef, ms: seq<Measurement>, photos: seq<Photo>, i: nat, a: nat) {
    && Count(photos, WasReady(i, a)) >= d.requiredPhotos
    && d.requiredPhotos <= MAX_PHOTOS_PER_ATTEMPT
    && forall k :: 0 <= k < |d.rules| && d.rules[k].required ==> RuleWasMet(d.rules[k], ms, i, a)
  }

  ghost predicate RuleWasMet(r: Rule, ms: seq<Measurement>, i: nat, a: nat) {
    var row := StoredRow(ms, i, r.id, a);
    row.Some? && InRange(r, row.value.accepted)
  }

  ghost predicate Evidenced(c: Option<Checklist>, steps: seq<StepRow>, ms: seq<Measurement>, photos: seq<Photo>)
    requires Shape(c, steps)
  {
    && (forall i: nat, a: nat :: Submitted(steps, i, a) ==> AttemptOk(Defs(c)[i], ms, photos, i, a))
    && (forall m <- ms :: Submitted(steps, m.step, m.attempt) && RoundedAlike(m))
  }

  ghost predicate PhotoRow(steps: seq<StepRow>, p: Photo) {
    && p.step < |steps| && 1 <= p.attempt <= steps[p.step].attempt
    && (p.status == Ready ==> p.readyAt.Some?)
    && (p.readyAt.Some? ==> p.upload == Over && p.status != InFlight && p.storedSize == Some(p.size))
    && (p.upload == Written ==> p.storedSize == Some(p.size))
  }

  ghost predicate PhotoRows(steps: seq<StepRow>, photos: seq<Photo>) {
    && (forall k :: 0 <= k < |photos| ==> PhotoRow(steps, photos[k]))
    && forall i: nat, a: nat :: Count(photos, IsActive(i, a)) <= MAX_PHOTOS_PER_ATTEMPT
  }

  ghost predicate SignatureRow(h: Digester, cycle: nat, x: Signature) {
    && 1 <= x.cycle <= cycle
    && x.summaryDigest == h(x.signed)
    && (x.upload == Written ==> x.storedSize == Some(x.size))
    && (x.status == Ready ==> x.upload == Over && x.storedSize == Some(x.size))
  }

  ghost predicate SignatureRows(h: Digester, cycle: nat, sigs: seq<Signature>) {
    && (forall k :: 0 <= k < |sigs| ==> SignatureRow(h, cycle, sigs[k]))
    && forall k, l :: 0 <= k < l < |sigs| && ActiveSignature(sigs[k]) && ActiveSignature(sigs[l]) ==> sigs[k].cycle != sigs[l].cycle
  }

  ghost predicate SnapshotRow(h: Digester, sigs: seq<Signature>, x: Snapshot) {
    && x.summaryDigest == h(x.summary)
    && x.summary.cycle == x.cycle
    && x.signature.Some? && x.signature.value < |sigs|
    && sigs[x.signature.value].cycle == x.cycle
    && sigs[x.signature.value].summaryDigest == x.summaryDigest
    && x.signatureHash == Some(sigs[x.signature.value].hash)
  }

  ghost predicate SnapshotRows(h: Digester, job: Job, sigs: seq<Signature>, snaps: seq<Snapshot>) {
    && |snaps| == (if job.status == Completed then job.cycle else job.cycle - 1)
    && (forall k :: 0 <= k < |snaps| ==> snaps[k].cycle == k + 1 && SnapshotRow(h, sigs, snaps[k]))
  }

  ghost predicate Inv(h: Digester, s: State) {
    && Shape(s.checklist, s.steps)
    && Coherent(s.job.status, s.steps)
    && StampedRight(s.checklist, s.steps)
    && DonePrefix(s.job.cycle, s.steps)
    && Ledger(s.checklist, s.steps, s.approvals)
    && Clocked(s.job, s.clock)
    && Evidenced(s.checklist, s.steps, s.measurements, s.photos)
    && PhotoRows(s.steps, s.photos)
    && SignatureRows(h, s.job.cycle, s.signatures)
    && SnapshotRows(h, s.job, s.signatures, s.snapshots)
  }

  // ---------------------------------------------------------------- changes to one step

  /** The three ways a transaction changes a step row: submit it, decide it, open the next attempt. */
  ghost predicate SameSubmitted(steps: seq<StepRow>, t: seq<StepRow>) {
    && |t| == |steps|
    && (forall i: nat, a: nat :: Submitted(t, i, a) <==> Submitted(steps, i, a))
    && (forall i :: 0 <= i < |steps| ==> steps[i].attempt <= t[i].attempt)
  }

  lemma NextAttemptSameSubmitted(steps: seq<StepRow>, i: nat)
    requires i < |steps| && steps[i].status != Pending && steps[i].attempt >= 1
    ensures SameSubmitted(steps, steps[i := StepRow(Pending, steps[i].attempt + 1)])
  {
  }

  lemma DecideSameSubmitted(steps: seq<StepRow>, i: nat, st: StepStatus)
    requires i < |steps| && steps[i].status != Pending && st != Pending
    ensures SameSubmitted(steps, steps[i := steps[i].(status := st)])
  {
  }

  lemma EvidencedSame(c: Option<Checklist>, steps: seq<StepRow>, c': Option<Checklist>, t: seq<StepRow>, ms: seq<Measurement>, photos: seq<Photo>)
    requires Shape(c, steps) && Shape(c', t) && Defs(c) == Defs(c') && SameSubmitted(steps, t) && Evidenced(c, steps, ms, photos)
    ensures Evidenced(c', t, ms, photos)
  {
  }

  lemma PhotoRowsSame(steps: seq<StepRow>, t: seq<StepRow>, photos: seq<Photo>)
    requires |steps| == |t| && (forall i :: 0 <= i < |steps| ==> steps[i].attempt <= t[i].attempt) && PhotoRows(steps, photos)
    ensures PhotoRows(t, photos)
  {
  }

  lemma AllDoneUpdate(steps: seq<StepRow>, i: nat, x: StepRow)
    requires i < |steps| && !StepDone(x.status)
    ensures !AllDone(steps[i := x])
  {
    assert steps[i := x][i] == x;
  }

  /** No step but i waits for a decision or stands rejected. */
  ghost predicate QuietBut(steps: seq<StepRow>, i: nat) {
    forall j :: 0 <= j < |steps| && j != i ==> steps[j].status != WaitingApproval && steps[j].status != StepRejected
  }

  lemma OthersQuiet(status: JobStatus, steps: seq<StepRow>, i: nat)
    requires Coherent(status, steps) && i < |steps|
    requires IsWorkable(status) || steps[i].status == WaitingApproval || steps[i].status == StepRejected
    ensures QuietBut(steps, i)
  {
    forall j | 0 <= j < |steps| && j != i ensures steps[j].status != WaitingApproval && steps[j].status != StepRejected {
      assert steps[i].status == WaitingApproval ==> SomeStep(steps, WaitingApproval);
      assert steps[i].status == StepRejected ==> SomeStep(steps, StepRejected);
      assert steps[j].status == WaitingApproval ==> SomeStep(steps, WaitingApproval);
      assert steps[j].status == StepRejected ==> SomeStep(steps, StepRejected);
    }
  }

  lemma CoherentUpdate(steps: seq<StepRow>, i: nat, x: StepRow, status: JobStatus)
    requires i < |steps| && QuietBut(steps, i)
    requires status == WaitingStopApproval <==> x.status == WaitingApproval
    requires status == JobRejected <==> x.status == StepRejected
    requires status != Completed && status != QualityReview
    ensures Coherent(status, steps[i := x])
  {
    assert steps[i := x][i] == x;
  }

  lemma DonePrefixUpdate(cycle: nat, steps: seq<StepRow>, i: nat, x: StepRow)
    requires DonePrefix(cycle, steps) && i < |steps|
    requires cycle == 1 ==> !StepDone(steps[i].status) && (x.status != Pending ==> EarlierDone(steps, i))
    ensures DonePrefix(cycle, steps[i := x])
  {
  }

  // ---------------------------------------------------------------- job row transitions

  lemma StartKeeps(h: Digester, s: State)
    requires Inv(h, s) && StartJob(s).Ok?
    ensures Inv(h, StartJob(s).value)
  {
  }

  lemma CancelKeeps(h: Digester, s: State)
    requires Inv(h, s) && CancelJob(s).Ok?
    ensures Inv(h, CancelJob(s).value)
  {
  }

  lemma InstallationKeeps(h: Digester, s: State, p: InstallationPatch)
    requires Inv(h, s) && UpdateInstallation(s, p).Ok?
    ensures Inv(h, UpdateInstallation(s, p).value)
  {
  }

  lemma AssignKeeps(h: Digester, s: State, p: Option<Published>)
    requires Inv(h, s) && AssignChecklist(s, p).Ok?
    ensures Inv(h, AssignChecklist(s, p).value)
  {
    var t := AssignChecklist(s, p).value;
    assert !StepDone(t.steps[0].status);
  }

  // ---------------------------------------------------------------- completing a step

  lemma SubmitShape(s: State, i: nat, st: StepStatus)
    requires Shape(s.checklist, s.steps) && s.checklist.Some? && i < |s.steps| && s.steps[i].status == Pending
    requires st == if Defs(s.checklist)[i].isStop then WaitingApproval else StepCompleted
    ensures var t := s.steps[i := StepRow(st, s.steps[i].attempt)];
      && Shape(s.checklist, t) && Shape(Stamped(s.checklist, t, s.clock), t)
      && forall j: nat, b: nat :: Submitted(t, j, b) <==> Submitted(s.steps, j, b) || (j == i && b == s.steps[i].attempt)
  {
  }

  lemma SubmitEvidence(s: State, c: Option<Checklist>, i: nat, st: StepStatus, input: seq<Submission>)
    requires Shape(s.checklist, s.steps) && s.checklist.Some? && i < |s.steps| && s.steps[i].status == Pending
    requires Evidenced(s.checklist, s.steps, s.measurements, s.photos) && PhotoRows(s.steps, s.photos)
    requires Defs(c) == Defs(s.checklist)
    requires var t := s.steps[i := StepRow(st, s.steps[i].attempt)];
      && Shape(c, t)
      && forall j: nat, b: nat :: Submitted(t, j, b) <==> Submitted(s.steps, j, b) || (j == i && b == s.steps[i].attempt)
    requires var d := Defs(s.checklist)[i];
      && (d.requiredPhotos > 0 ==> Count(s.photos, IsReady(i, s.steps[i].attempt)) >= d.requiredPhotos)
      && RulesMet(d.rules, input) && RowsFit(RowsFor(d.rules, input, i, s.steps[i].attempt))
    ensures Evidenced(c, s.steps[i := StepRow(st, s.steps[i].attempt)],
                      s.measurements + RowsFor(Defs(s.checklist)[i].rules, input, i, s.steps[i].attempt), s.photos)
  {
    var d, a := Defs(s.checklist)[i], s.steps[i].attempt;
    var t := s.steps[i := StepRow(st, a)];
    var rows := RowsFor(d.rules, input, i, a);
    RowsForStored(s.measurements, d.rules, input, i, a);
    SubmitPhotos(s, i, d.requiredPhotos);
    SubmitRules(s, d, i, a, input);
    forall j: nat, b: nat | Submitted(t, j, b)
      ensures AttemptOk(Defs(c)[j], s.measurements + rows, s.photos, j, b)
    {
      if !(j == i && b == a) {
        assert AttemptOk(Defs(c)[j], s.measurements, s.photos, j, b);
        forall k | 0 <= k < |Defs(c)[j].rules| && Defs(c)[j].rules[k].required
          ensures RuleWasMet(Defs(c)[j].rules[k], s.measurements + rows, j, b)
        {
          assert RuleWasMet(Defs(c)[j].rules[k], s.measurements, j, b);
          StoredRowAppend(s.measurements, rows, j, Defs(c)[j].rules[k].id, b);
        }
      }
    }
  }

  lemma SubmitPhotos(s: State, i: nat, need: nat)
    requires i < |s.steps| && PhotoRows(s.steps, s.photos)
    requires need > 0 ==> Count(s.photos, IsReady(i, s.steps[i].attempt)) >= need
    ensures Count(s.photos, WasReady(i, s.steps[i].attempt)) >= need && need <= MAX_PHOTOS_PER_ATTEMPT
  {
    var a := s.steps[i].attempt;
    CountMono(s.photos, IsReady(i, a), WasReady(i, a));
    CountMono(s.photos, IsReady(i, a), IsActive(i, a));
  }

  lemma SubmitRules(s: State, d: StepDef, i: nat, a: nat, input: seq<Submission>)
    requires RulesMet(d.rules, input)
    ensures forall k :: 0 <= k < |d.rules| && d.rules[k].required ==>
      RuleWasMet(d.rules[k], s.measurements + RowsFor(d.rules, input, i, a), i, a)
  {
    RowsForStored(s.measurements, d.rules, input, i, a);
    forall k | 0 <= k < |d.rules| && d.rules[k].required
      ensures RuleWasMet(d.rules[k], s.measurements + RowsFor(d.rules, input, i, a), i, a)
    {
      assert !RuleViolated(d.rules[k], input);
    }
  }

  lemma SubmitLedger(s: State, i: nat)
    requires Shape(s.checklist, s.steps) && s.checklist.Some? && i < |s.steps| && s.steps[i].status == Pending
    requires Ledger(s.checklist, s.steps, s.approvals)
    requires Shape(s.checklist, s.steps[i := StepRow(WaitingApproval, s.steps[i].attempt)])
    requires Defs(s.checklist)[i].isStop
    ensures Ledger(s.checklist, s.steps[i := StepRow(WaitingApproval, s.steps[i].attempt)],
                   s.approvals + [Approval(i, s.steps[i].attempt, Undecided)])
  {
    var a := s.steps[i].attempt;
    var t, aps := s.steps[i := StepRow(WaitingApproval, a)], s.approvals + [Approval(i, a, Undecided)];
    forall j: nat, b: nat | Submitted(t, j, b) && Defs(s.checklist)[j].isStop ensures HasApproval(aps, j, b) {
      if j == i && b == a {
        assert aps[|s.approvals|].step == i;
      } else {
        assert Submitted(s.steps, j, b) && HasApproval(s.approvals, j, b);
        var k :| 0 <= k < |s.approvals| && s.approvals[k].step == j && s.approvals[k].attempt == b;
        assert aps[k] == s.approvals[k];
      }
    }
    forall k | 0 <= k < |s.approvals| ensures !(s.approvals[k].step == i && s.approvals[k].attempt == a) {
      assert Submitted(s.steps, s.approvals[k].step, s.approvals[k].attempt);
    }
  }

  /** Completing an ordinary step leaves the approvals of STOP steps as they are. */
  lemma CompletedLedger(s: State, c: Option<Checklist>, i: nat)
    requires Shape(s.checklist, s.steps) && s.checklist.Some? && i < |s.steps| && s.steps[i].status == Pending
    requires Ledger(s.checklist, s.steps, s.approvals) && !Defs(s.checklist)[i].isStop && Defs(c) == Defs(s.checklist)
    requires Shape(c, s.steps[i := StepRow(StepCompleted, s.steps[i].attempt)])
    ensures Ledger(c, s.steps[i := StepRow(StepCompleted, s.steps[i].attempt)], s.approvals)
  {
    var t := s.steps[i := StepRow(StepCompleted, s.steps[i].attempt)];
    forall j: nat, b: nat | Submitted(t, j, b) && Defs(c)[j].isStop ensures HasApproval(s.approvals, j, b) {
      assert Submitted(s.steps, j, b);
    }
  }

  /** What submitting a step keeps, whichever kind it is. */
  lemma SubmitKeeps(h: Digester, s: State, i: nat, input: seq<Submission>)
    requires Inv(h, s) && CompleteStep(s, i, input).Ok?
    ensures var r := CompleteStep(s, i, input).value;
      && Shape(r.checklist, r.steps)
      && Evidenced(r.checklist, r.steps, r.measurements, r.photos)
      && PhotoRows(r.steps, r.photos)
  {
    var r := CompleteStep(s, i, input).value;
    var st := if Defs(s.checklist)[i].isStop then WaitingApproval else StepCompleted;
    SubmitShape(s, i, st);
    SubmitEvidence(s, r.checklist, i, st, input);
    PhotoRowsSame(s.steps, r.steps, s.photos);
  }

  lemma SubmitStatus(h: Digester, s: State, i: nat, st: StepStatus, status: JobStatus)
    requires Inv(h, s) && IsWorkable(s.job.status) && i < |s.steps| && s.steps[i].status == Pending && EarlierDone(s.steps, i)
    requires (st == WaitingApproval && status == WaitingStopApproval) || (st == StepCompleted && status == s.job.status)
    ensures var t := s.steps[i := StepRow(st, s.steps[i].attempt)];
      Coherent(status, t) && DonePrefix(s.job.cycle, t)
  {
    OthersQuiet(s.job.status, s.steps, i);
    CoherentUpdate(s.steps, i, StepRow(st, s.steps[i].attempt), status);
    DonePrefixUpdate(s.job.cycle, s.steps, i, StepRow(st, s.steps[i].attempt));
  }

  lemma CompleteStopKeeps(h: Digester, s: State, i: nat, input: seq<Submission>)
    requires Inv(h, s) && CompleteStep(s, i, input).Ok? && Defs(s.checklist)[i].isStop
    ensures Inv(h, CompleteStep(s, i, input).value)
  {
    SubmitKeeps(h, s, i, input);
    SubmitStatus(h, s, i, WaitingApproval, WaitingStopApproval);
    SubmitLedger(s, i);
    AllDoneUpdate(s.steps, i, StepRow(WaitingApproval, s.steps[i].attempt));
    assert !StepDone(s.steps[i].status);
  }

  lemma CompleteOrdinaryKeeps(h: Digester, s: State, i: nat, input: seq<Submission>)
    requires Inv(h, s) && CompleteStep(s, i, input).Ok? && !Defs(s.checklist)[i].isStop
    ensures Inv(h, CompleteStep(s, i, input).value)
  {
    SubmitKeeps(h, s, i, input);
    SubmitStatus(h, s, i, StepCompleted, s.job.status);
    CompletedLedger(s, CompleteStep(s, i, input).value.checklist, i);
    assert !StepDone(s.steps[i].status);
  }

  lemma CompleteKeeps(h: Digester, s: State, i: nat, input: seq<Submission>)
    requires Inv(h, s) && CompleteStep(s, i, input).Ok?
    ensures Inv(h, CompleteStep(s, i, input).value)
  {
    if Defs(s.checklist)[i].isStop {
      CompleteStopKeeps(h, s, i, input);
    } else {
      CompleteOrdinaryKeeps(h, s, i, input);
    }
  }

  // ---------------------------------------------------------------- the next attempt

  lemma NextAttemptLedger(c: Option<Checklist>, steps: seq<StepRow>, c': Option<Checklist>, i: nat, aps: seq<Approval>)
    requires Shape(c, steps) && i < |steps| && steps[i].status != Pending && Ledger(c, steps, aps)
    requires steps[i].status != WaitingApproval && Defs(c) == Defs(c')
    requires Shape(c', steps[i := StepRow(Pending, steps[i].attempt + 1)])
    ensures Ledger(c', steps[i := StepRow(Pending, steps[i].attempt + 1)], aps)
  {
    NextAttemptSameSubmitted(steps, i);
  }

  lemma NextAttemptKeeps(h: Digester, s: State, c: Option<Checklist>, i: nat)
    requires Inv(h, s) && i < |s.steps| && s.steps[i].status != Pending && s.steps[i].status != WaitingApproval
    requires Defs(c) == Defs(s.checklist) && s.checklist.Some? && c.Some?
    ensures var t := s.steps[i := StepRow(Pending, s.steps[i].attempt + 1)];
      && Shape(c, t) && !AllDone(t)
      && Ledger(c, t, s.approvals) && Evidenced(c, t, s.measurements, s.photos) && PhotoRows(t, s.photos)
  {
    var t := s.steps[i := StepRow(Pending, s.steps[i].attempt + 1)];
    assert Shape(c, t);
    NextAttemptSameSubmitted(s.steps, i);
    NextAttemptLedger(s.checklist, s.steps, c, i, s.approvals);
    EvidencedSame(s.checklist, s.steps, c, t, s.measurements, s.photos);
    PhotoRowsSame(s.steps, t, s.photos);
    AllDoneUpdate(s.steps, i, t[i]);
  }

  lemma NextAttemptStatus(s: State, i: nat, status: JobStatus)
    requires Coherent(s.job.status, s.steps) && DonePrefix(s.job.cycle, s.steps) && i < |s.steps|
    requires (IsWorkable(s.job.status) && s.job.cycle > 1) || s.steps[i].status == StepRejected
    requires IsWorkable(status)
    ensures var t := s.steps[i := StepRow(Pending, s.steps[i].attempt + 1)];
      Coherent(status, t) && DonePrefix(s.job.cycle, t)
  {
    OthersQuiet(s.job.status, s.steps, i);
    CoherentUpdate(s.steps, i, StepRow(Pending, s.steps[i].attempt + 1), status);
    DonePrefixUpdate(s.job.cycle, s.steps, i, StepRow(Pending, s.steps[i].attempt + 1));
  }

  lemma OpenNotStamped(c: Option<Checklist>, steps: seq<StepRow>)
    requires c.Some? && c.value.completedAt.None? && !AllDone(steps)
    ensures StampedRight(c, steps)
  {
  }

  lemma RedoKeeps(h: Digester, s: State, i: nat)
    requires Inv(h, s) && RedoStep(s, i).Ok?
    ensures Inv(h, RedoStep(s, i).value)
  {
    var r := RedoStep(s, i).value;
    NextAttemptKeeps(h, s, r.checklist, i);
    NextAttemptStatus(s, i, Reopened);
    OpenNotStamped(r.checklist, r.steps);
    assert Clocked(r.job, r.clock) && SignatureRows(h, r.job.cycle, r.signatures);
  }

  lemma ReworkKeeps(h: Digester, s: State)
    requires Inv(h, s) && ReworkStop(s).Ok?
    ensures Inv(h, ReworkStop(s).value)
  {
    var r := ReworkStop(s).value;
    var i := FirstRejected(s.steps).value;
    NextAttemptKeeps(h, s, s.checklist, i);
    WorkingRight(h, s);
    NextAttemptStatus(s, i, Working(s));
    assert !AllDone(s.steps) by { assert !StepDone(s.steps[i].status); }
    OpenNotStamped(r.checklist, r.steps);
    assert Clocked(r.job, r.clock) && SnapshotRows(h, r.job, r.signatures, r.snapshots);
  }

  /** In a state that waits for a STOP or stands rejected, the working status is that of the cycle. */
  lemma WorkingRight(h: Digester, s: State)
    requires Inv(h, s) && (s.job.status == WaitingStopApproval || s.job.status == JobRejected)
    ensures Working(s) == if s.job.cycle > 1 then Reopened else InProgress
  {
  }

  // ---------------------------------------------------------------- STOP decisions

  lemma PendingStopIsThere(h: Digester, s: State)
    requires Inv(h, s) && s.job.status == WaitingStopApproval
    ensures LockPendingStop(s).Ok?
    ensures var k := LockPendingStop(s).value;
      && s.approvals[k].decision == Undecided
      && s.approvals[k].attempt == s.steps[s.approvals[k].step].attempt
      && s.steps[s.approvals[k].step].status == WaitingApproval
  {
    var i :| 0 <= i < |s.steps| && s.steps[i].status == WaitingApproval;
    assert Submitted(s.steps, i, s.steps[i].attempt);
    assert HasApproval(s.approvals, i, s.steps[i].attempt);
    var k :| 0 <= k < |s.approvals| && s.approvals[k].step == i && s.approvals[k].attempt == s.steps[i].attempt;
    assert s.approvals[k].decision == Undecided;
    var f := FirstUndecided(s.approvals);
    assert f.Some?;
  }

  lemma DecideLedger(c: Option<Checklist>, steps: seq<StepRow>, c': Option<Checklist>, aps: seq<Approval>, k: nat, d: Decision, st: StepStatus)
    requires Shape(c, steps) && Ledger(c, steps, aps) && k < |aps| && Defs(c) == Defs(c')
    requires aps[k].attempt == steps[aps[k].step].attempt && steps[aps[k].step].status == WaitingApproval
    requires (d == StopApproved && st == Approved) || (d == StopRejected && st == StepRejected)
    requires Shape(c', steps[aps[k].step := steps[aps[k].step].(status := st)])
    ensures Ledger(c', steps[aps[k].step := steps[aps[k].step].(status := st)], aps[k := aps[k].(decision := d)])
  {
    var i := aps[k].step;
    var t, q := steps[i := steps[i].(status := st)], aps[k := aps[k].(decision := d)];
    DecideSameSubmitted(steps, i, st);
    forall l | 0 <= l < |q| ensures q[l].step == aps[l].step && q[l].attempt == aps[l].attempt {}
    forall j: nat, b: nat | Submitted(t, j, b) && Defs(c')[j].isStop ensures HasApproval(q, j, b) {
      assert HasApproval(aps, j, b);
      var l :| 0 <= l < |aps| && aps[l].step == j && aps[l].attempt == b;
      assert q[l].step == j && q[l].attempt == b;
    }
    forall l | 0 <= l < |q|
      ensures if q[l].attempt < t[q[l].step].attempt then q[l].decision != Undecided
              else q[l].decision == DecisionOf(t[q[l].step].status)
    {
      if l != k && aps[l].step == i {
        assert aps[l].attempt != aps[k].attempt;
      }
    }
  }

  lemma DecideEvidence(s: State, c: Option<Checklist>, i: nat, st: StepStatus)
    requires Shape(s.checklist, s.steps) && i < |s.steps| && s.steps[i].status == WaitingApproval
    requires Evidenced(s.checklist, s.steps, s.measurements, s.photos) && PhotoRows(s.steps, s.photos)
    requires Shape(c, s.steps[i := s.steps[i].(status := st)]) && Defs(c) == Defs(s.checklist) && st != Pending
    ensures var t := s.steps[i := s.steps[i].(status := st)];
      Evidenced(c, t, s.measurements, s.photos) && PhotoRows(t, s.photos)
  {
    var t := s.steps[i := s.steps[i].(status := st)];
    DecideSameSubmitted(s.steps, i, st);
    EvidencedSame(s.checklist, s.steps, c, t, s.measurements, s.photos);
    PhotoRowsSame(s.steps, t, s.photos);
  }

  lemma DecideStatus(s: State, i: nat, st: StepStatus, status: JobStatus)
    requires Coherent(s.job.status, s.steps) && DonePrefix(s.job.cycle, s.steps)
    requires i < |s.steps| && s.steps[i].status == WaitingApproval
    requires (st == Approved && IsWorkable(status)) || (st == StepRejected && status == JobRejected)
    ensures var t := s.steps[i := s.steps[i].(status := st)];
      Coherent(status, t) && DonePrefix(s.job.cycle, t)
  {
    OthersQuiet(s.job.status, s.steps, i);
    CoherentUpdate(s.steps, i, s.steps[i].(status := st), status);
    DonePrefixUpdate(s.job.cycle, s.steps, i, s.steps[i].(status := st));
  }

  lemma DecideShape(c: Option<Checklist>, steps: seq<StepRow>, c': Option<Checklist>, i: nat, st: StepStatus)
    requires Shape(c, steps) && i < |steps| && steps[i].status == WaitingApproval && (st == Approved || st == StepRejected)
    requires c'.Some? && c.Some? && Defs(c') == Defs(c)
    ensures Shape(c', steps[i := steps[i].(status := st)])
    ensures !AllDone(steps)
  {
    assert !StepDone(steps[i].status);
  }

  lemma ApproveKeeps(h: Digester, s: State)
    requires Inv(h, s) && ApproveStop(s).Ok?
    ensures Inv(h, ApproveStop(s).value)
  {
    PendingStopIsThere(h, s);
    WorkingRight(h, s);
    var k := LockPendingStop(s).value;
    var i := s.approvals[k].step;
    var t := s.steps[i := s.steps[i].(status := Approved)];
    var c := Stamped(s.checklist, t, s.clock);
    assert Submitted(s.steps, i, s.steps[i].attempt);
    DecideShape(s.checklist, s.steps, c, i, Approved);
    DecideLedger(s.checklist, s.steps, c, s.approvals, k, StopApproved, Approved);
    DecideEvidence(s, c, i, Approved);
    DecideStatus(s, i, Approved, Working(s));
  }

  lemma RejectKeeps(h: Digester, s: State)
    requires Inv(h, s) && RejectStop(s).Ok?
    ensures Inv(h, RejectStop(s).value)
  {
    PendingStopIsThere(h, s);
    var k := LockPendingStop(s).value;
    var i := s.approvals[k].step;
    var t := s.steps[i := s.steps[i].(status := StepRejected)];
    DecideShape(s.checklist, s.steps, s.checklist, i, StepRejected);
    DecideLedger(s.checklist, s.steps, s.checklist, s.approvals, k, StopRejected, StepRejected);
    DecideEvidence(s, s.checklist, i, StepRejected);
    DecideStatus(s, i, StepRejected, JobRejected);
    AllDoneUpdate(s.steps, i, t[i]);
  }
}
