/** The rows of one job: the job itself, its checklist, STOP approvals, measurements, photos,
    signatures and completion snapshots. */
module JobModel {
  import opened Prelude
  import opened Text
  import opened JobCycle

  // ---------------------------------------------------------------- template rules

  /** A measurement definition; bounds are DECIMAL(12,3) columns, in thousandths. */
  datatype Rule = Rule(id: nat, required: bool, min: Option<int>, max: Option<int>)

  datatype StepDef = StepDef(stepId: nat, name: string, isStop: bool, requiredPhotos: nat, rules: seq<Rule>)

  /** The steps of the assigned template version, in sort order: step i has order i + 1. */
  datatype Checklist = Checklist(templateId: nat, version: nat, defs: seq<StepDef>, completedAt: Option<nat>)

  // ---------------------------------------------------------------- execution rows

  datatype StepStatus = Pending | StepCompleted | WaitingApproval | Approved | StepRejected

  /** A row of `job_steps`, addressed by the position of its template step. */
  datatype StepRow = StepRow(status: StepStatus, attempt: nat)

  datatype Decision = Undecided | StopApproved | StopRejected

  datatype Approval = Approval(step: nat, attempt: nat, decision: Decision)

  /** A stored measurement: the DECIMAL(12,3) column in thousandths. No column keeps `submitted`, the
      decimal of the request, or `accepted`, the thousandths its range check used. */
  datatype Measurement = Measurement(step: nat, rule: nat, attempt: nat, submitted: real, accepted: int, value: int)

  /** A value of a request: the decimal it writes and the double `value * 1000` the server computes. */
  datatype RequestValue = RequestValue(rule: nat, value: real, product: real)

  /** The nearest double of the value and the double product are each off by at most one part in
      2^53: together less than a thousandth for every value that could fit its column. */
  predicate ProductSound(value: real, product: real) {
    -1_000_000_000.0 <= value <= 1_000_000_000.0 ==> -0.001 < product - value * 1000.0 < 0.001
  }

  type Submission = x: RequestValue | ProductSound(x.value, x.product) witness RequestValue(0, 0.0, 0.0)

  // ---------------------------------------------------------------- evidence

  datatype EvidenceStatus = InFlight | Ready | Failed

  /** How far the request that uploads an object has come. */
  datatype Upload = Writing | Written | WriteFailed | Over

  datatype PutResult = Wrote(size: nat) | PutError

  /** `storedSize` is the size the storage provider reported for the written object. */
  datatype Photo = Photo(
    step: nat, attempt: nat, status: EvidenceStatus, size: nat, hash: Hex, readyAt: Option<nat>,
    upload: Upload, storedSize: Option<nat>)

  datatype ObjectKey = PhotoObject(id: nat) | SignatureObject(id: nat)

  // ---------------------------------------------------------------- job row and surroundings

  datatype Installation = Installation(
    gasType: Option<string>, kit: Option<string>, ecu: Option<string>, cylinder: Option<string>, note: Option<string>)

  /** A field left out of the request keeps its value; a null clears it. */
  datatype InstallationPatch = InstallationPatch(
    gasType: Option<Option<string>>, kit: Option<Option<string>>, ecu: Option<Option<string>>,
    cylinder: Option<Option<string>>, note: Option<Option<string>>)

  datatype Customer = Customer(id: nat, name: string, phoneMasked: Option<string>)

  datatype Vehicle = Vehicle(
    id: nat, plate: string, vin: Option<string>, make: Option<string>, model: Option<string>, year: Option<nat>)

  datatype Job = Job(
    id: nat, branchId: nat, status: JobStatus, cycle: nat, closedAt: Option<nat>, reopenedAt: Option<nat>,
    technician: Option<nat>, installation: Installation)

  // ---------------------------------------------------------------- signable summary

  datatype Evidence = Evidence(photoId: nat, sha256: Hex, size: nat)

  datatype MeasuredValue = MeasuredValue(rule: nat, value: int)

  datatype StepSummary = StepSummary(
    stepId: nat, jobStep: nat, name: string, isStop: bool, status: StepStatus, attempt: nat, requiredPhotos: nat,
    evidence: seq<Evidence>, measurements: seq<MeasuredValue>)

  datatype Summary = Summary(
    jobId: nat, cycle: nat, branchId: nat, technician: Option<nat>, templateId: Option<nat>, version: Option<nat>,
    installation: Installation, customer: Customer, vehicle: Vehicle,
    steps: seq<StepSummary>, stops: seq<Approval>, openRisks: seq<nat>)

  /** A signature row keeps the digest of the summary that was signed; `signed` is that summary,
      which no column keeps. */
  datatype Signature = Signature(
    cycle: nat, status: EvidenceStatus, superseded: bool, size: nat, hash: Hex, summaryDigest: Hex, signed: Summary,
    upload: Upload, storedSize: Option<nat>)

  datatype Snapshot = Snapshot(cycle: nat, summary: Summary, summaryDigest: Hex, signature: Option<nat>, signatureHash: Option<Hex>)

  /** Everything the workflow of one job reads or writes. `openRisks` are the open blocking risks of
      the current cycle and `policyApproved` the risk policy: both are set from outside. */
  datatype State = State(
    job: Job,
    customer: Customer,
    vehicle: Vehicle,
    clock: nat,
    policyApproved: bool,
    openRisks: seq<nat>,
    checklist: Option<Checklist>,
    steps: seq<StepRow>,
    approvals: seq<Approval>,
    measurements: seq<Measurement>,
    photos: seq<Photo>,
    signatures: seq<Signature>,
    snapshots: seq<Snapshot>,
    objects: map<ObjectKey, nat>)

  datatype Error =
    | InvalidTransition
    | RiskPolicyNotApproved
    | JobStateInvalid
    | ChecklistExists
    | NoPublishedVersion
    | EmptyVersion
    | JobNotInProgress
    | NotFound
    | StepAlreadyCompleted
    | PhotosRequired
    | PreviousStepIncomplete
    | InvalidMeasurement
    | OutOfRange
    | ColumnOverflow
    | JobNotReopened
    | StepNotDone
    | JobNotWaitingStop
    | NoPendingStop
    | StopStepStateInvalid
    | JobNotRejected
    | NoChecklist
    | NoRejectedStep
    | StepNotPending
    | PhotoLimit
    | ChecklistIncomplete
    | SummaryStale
    | SignatureExists
    | SignatureStale
    | JobNotClosable
    | CompletionBlocked
    | JobNotCompleted
    | JobNotInQualityReview
    | JobTerminal
    | NoSuchUpload

  const MAX_PHOTOS_PER_ATTEMPT := 10

  predicate StepDone(st: StepStatus) {
    st == StepCompleted || st == Approved
  }

  predicate AllDone(steps: seq<StepRow>) {
    forall i :: 0 <= i < |steps| ==> StepDone(steps[i].status)
  }

  // ---------------------------------------------------------------- measurement values

  /** `Math.round` of the double product: ties go up. */
  function ToThousandths(product: real): int {
    (product + 0.5).Floor
  }

  /** What a DECIMAL(12,3) column stores: ties go away from zero. */
  function ColumnThousandths(v: real): int {
    if v >= 0.0 then (v * 1000.0 + 0.5).Floor else -(-v * 1000.0 + 0.5).Floor
  }

  predicate FitsColumn(t: int) {
    -999_999_999_999 <= t <= 999_999_999_999
  }

  predicate InRange(r: Rule, t: int) {
    && (r.min.Some? ==> t >= r.min.value)
    && (r.max.Some? ==> t <= r.max.value)
  }

  /** The value submitted for a rule; a repeated id keeps the last value. */
  function SubmittedValue(input: seq<Submission>, rule: nat): Option<Submission> {
    if input == [] then None
    else if input[|input| - 1].rule == rule then Some(input[|input| - 1])
    else SubmittedValue(input[..|input| - 1], rule)
  }

  predicate RuleViolated(r: Rule, input: seq<Submission>) {
    match SubmittedValue(input, r.id)
    case None => r.required
    case Some(x) => !InRange(r, ToThousandths(x.product))
  }

  predicate KnownRule(rules: seq<Rule>, id: nat) {
    exists k :: 0 <= k < |rules| && rules[k].id == id
  }

  /** The rows a completed step stores, one for each rule that received a value. */
  function RowsFor(rules: seq<Rule>, input: seq<Submission>, step: nat, attempt: nat): seq<Measurement> {
    if rules == [] then []
    else
      var rest := RowsFor(rules[..|rules| - 1], input, step, attempt);
      var r := rules[|rules| - 1];
      match SubmittedValue(input, r.id)
      case None => rest
      case Some(x) =>
        rest + [Measurement(step, r.id, attempt, x.value, ToThousandths(x.product), ColumnThousandths(x.value))]
  }

  /** The row of one step, rule and attempt; the last one wins, as in the lookup map of the gate. */
  function StoredRow(ms: seq<Measurement>, step: nat, rule: nat, attempt: nat): Option<Measurement> {
    if ms == [] then None
    else
      var m := ms[|ms| - 1];
      if m.step == step && m.rule == rule && m.attempt == attempt then Some(m)
      else StoredRow(ms[..|ms| - 1], step, rule, attempt)
  }

  // ---------------------------------------------------------------- counting photos

  function Count(ps: seq<Photo>, p: Photo -> bool): nat {
    if ps == [] then 0 else Count(ps[..|ps| - 1], p) + if p(ps[|ps| - 1]) then 1 else 0
  }

  function IsReady(step: nat, attempt: nat): Photo -> bool {
    (x: Photo) => x.step == step && x.attempt == attempt && x.status == Ready
  }

  function IsActive(step: nat, attempt: nat): Photo -> bool {
    (x: Photo) => x.step == step && x.attempt == attempt && x.status != Failed
  }

  function WasReady(step: nat, attempt: nat): Photo -> bool {
    (x: Photo) => x.step == step && x.attempt == attempt && x.readyAt.Some?
  }

  // ---------------------------------------------------------------- approvals

  /** The highest attempt with an approval, 0 if the step has none. */
  function LatestAttempt(aps: seq<Approval>, step: nat): (r: nat)
    ensures forall k :: 0 <= k < |aps| && aps[k].step == step ==> aps[k].attempt <= r
    ensures r > 0 ==> exists k :: 0 <= k < |aps| && aps[k].step == step && aps[k].attempt == r
  {
    if aps == [] then 0
    else
      var rest := LatestAttempt(aps[..|aps| - 1], step);
      var a := aps[|aps| - 1];
      if a.step == step && a.attempt > rest then a.attempt else rest
  }

  /** The attempt the gate, the object check and the summary look at. */
  function RelevantAttempt(aps: seq<Approval>, step: nat): nat {
    var a := LatestAttempt(aps, step);
    if a == 0 then 1 else a
  }

  function FirstUndecided(aps: seq<Approval>): (r: Option<nat>)
    ensures r.Some? ==> r.value < |aps| && aps[r.value].decision == Undecided
    ensures forall k :: 0 <= k < (if r.Some? then r.value else |aps|) ==> aps[k].decision != Undecided
  {
    if aps == [] then None
    else
      var rest := FirstUndecided(aps[..|aps| - 1]);
      if rest.Some? then rest else if aps[|aps| - 1].decision == Undecided then Some(|aps| - 1) else None
  }

  function FirstRejected(steps: seq<StepRow>): (r: Option<nat>)
    ensures r.Some? ==> r.value < |steps| && steps[r.value].status == StepRejected
    ensures forall k :: 0 <= k < (if r.Some? then r.value else |steps|) ==> steps[k].status != StepRejected
  {
    if steps == [] then None
    else
      var rest := FirstRejected(steps[..|steps| - 1]);
      if rest.Some? then rest else if steps[|steps| - 1].status == StepRejected then Some(|steps| - 1) else None
  }

  // ---------------------------------------------------------------- signatures

  predicate ActiveSignature(x: Signature) {
    x.status != Failed && !x.superseded
  }

  predicate ReadySignature(x: Signature) {
    x.status == Ready && !x.superseded
  }

  /** Newest active signature of a cycle. */
  function LatestActive(sigs: seq<Signature>, cycle: nat): (r: Option<nat>)
    ensures r.Some? ==> r.value < |sigs| && ActiveSignature(sigs[r.value]) && sigs[r.value].cycle == cycle
    ensures forall k :: (if r.Some? then r.value + 1 else 0) <= k < |sigs| ==> !(ActiveSignature(sigs[k]) && sigs[k].cycle == cycle)
  {
    if sigs == [] then None
    else if ActiveSignature(sigs[|sigs| - 1]) && sigs[|sigs| - 1].cycle == cycle then Some(|sigs| - 1)
    else LatestActive(sigs[..|sigs| - 1], cycle)
  }

  /** Newest READY signature of a cycle that is not superseded. */
  function LatestReady(sigs: seq<Signature>, cycle: nat): (r: Option<nat>)
    ensures r.Some? ==> r.value < |sigs| && ReadySignature(sigs[r.value]) && sigs[r.value].cycle == cycle
    ensures forall k :: (if r.Some? then r.value + 1 else 0) <= k < |sigs| ==> !(ReadySignature(sigs[k]) && sigs[k].cycle == cycle)
  {
    if sigs == [] then None
    else
      var x := sigs[|sigs| - 1];
      if ReadySignature(x) && x.cycle == cycle then Some(|sigs| - 1)
      else LatestReady(sigs[..|sigs| - 1], cycle)
  }
}
