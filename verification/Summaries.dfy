/** The signable work summary: how it is collected from the rows and what its digest covers. */
module Summaries {
  import opened Prelude
  import opened Text
  import opened Canonical
  import opened JobCycle
  import opened JobModel

  // ---------------------------------------------------------------- collecting the material

  /** READY photos of one step and attempt, by id. */
  function EvidenceOf(ps: seq<Photo>, step: nat, attempt: nat): seq<Evidence> {
    if ps == [] then []
    else
      var id := |ps| - 1;
      EvidenceOf(ps[..id], step, attempt)
      + if IsReady(step, attempt)(ps[id]) then [Evidence(id, ps[id].hash, ps[id].size)] else []
  }

  function InsertByRule(m: MeasuredValue, ms: seq<MeasuredValue>): seq<MeasuredValue> {
    if ms == [] || m.rule < ms[0].rule then [m] + ms else [ms[0]] + InsertByRule(m, ms[1..])
  }

  /** Values of one step and attempt, ordered by measurement id. */
  function MeasuredOf(ms: seq<Measurement>, step: nat, attempt: nat): seq<MeasuredValue> {
    if ms == [] then []
    else
      var m := ms[|ms| - 1];
      var rest := MeasuredOf(ms[..|ms| - 1], step, attempt);
      if m.step == step && m.attempt == attempt then InsertByRule(MeasuredValue(m.rule, m.value), rest) else rest
  }

  function InsertStop(a: Approval, aps: seq<Approval>): seq<Approval> {
    if aps == [] || a.step < aps[0].step || (a.step == aps[0].step && a.attempt < aps[0].attempt) then [a] + aps
    else [aps[0]] + InsertStop(a, aps[1..])
  }

  /** Approvals ordered by step and attempt. */
  function StopsOf(aps: seq<Approval>): seq<Approval> {
    if aps == [] then [] else InsertStop(aps[|aps| - 1], StopsOf(aps[..|aps| - 1]))
  }

  function StepSummaryOf(s: State, i: nat): StepSummary
    requires s.checklist.Some? && i < |s.checklist.value.defs| && i < |s.steps|
  {
    var d := s.checklist.value.defs[i];
    var attempt := RelevantAttempt(s.approvals, i);
    StepSummary(d.stepId, i, d.name, d.isStop, s.steps[i].status, attempt, d.requiredPhotos,
                EvidenceOf(s.photos, i, attempt), MeasuredOf(s.measurements, i, attempt))
  }

  function StepSummaries(s: State, n: nat): seq<StepSummary>
    requires s.checklist.Some? && n <= |s.checklist.value.defs| && n <= |s.steps|
  {
    if n == 0 then [] else StepSummaries(s, n - 1) + [StepSummaryOf(s, n - 1)]
  }

  predicate ChecklistShape(checklist: Option<Checklist>, steps: seq<StepRow>) {
    if checklist.None? then steps == []
    else |steps| == |checklist.value.defs| && |steps| > 0
  }

  /** `collectMaterial`. */
  function Material(s: State): Summary
    requires ChecklistShape(s.checklist, s.steps)
  {
    Summary(s.job.id, s.job.cycle, s.job.branchId, s.job.technician,
            if s.checklist.Some? then Some(s.checklist.value.templateId) else None,
            if s.checklist.Some? then Some(s.checklist.value.version) else None,
            s.job.installation, s.customer, s.vehicle,
            if s.checklist.Some? then StepSummaries(s, |s.steps|) else [],
            StopsOf(s.approvals), s.openRisks)
  }

  // ---------------------------------------------------------------- serialized form

  const EVIDENCE_KEYS: seq<string> := ["photoId", "sha256", "size"]
  const MEASURED_KEYS: seq<string> := ["measurementId", "value", "withinRange"]
  const STOP_KEYS: seq<string> := ["jobStepId", "attempt", "status"]
  const INSTALLATION_KEYS: seq<string> := ["gasType", "kit", "ecu", "cylinder", "note"]
  const CUSTOMER_KEYS: seq<string> := ["id", "name", "phoneMasked"]
  const VEHICLE_KEYS: seq<string> := ["id", "plate", "vin", "make", "model", "year"]
  const STEP_KEYS: seq<string> :=
    [ "stepId", "jobStepId", "order", "name", "isStop", "status", "attempt", "requiredPhotos", "evidence", "measurements" ]
  const SUMMARY_KEYS: seq<string> :=
    [ "schemaVersion", "jobId", "cycle", "branchId", "assignedTechnicianId", "checklistTemplateId", "checklistVersion",
      "installation", "customer", "vehicle", "steps", "stops", "openBlockingRiskIds" ]

  function EvidenceValue(e: Evidence, i: nat): Json {
    if i == 0 then NatJson(e.photoId) else if i == 1 then Str(e.sha256) else NatJson(e.size)
  }

  function EvidenceValues(e: Evidence): nat -> Json { (i: nat) => EvidenceValue(e, i) }

  /** `is_within_range` is stored only for values inside their range. */
  function MeasuredField(m: MeasuredValue, i: nat): Json {
    if i == 0 then NatJson(m.rule) else if i == 1 then Str(DecimalText(m.value)) else Bool(true)
  }

  function MeasuredValues(m: MeasuredValue): nat -> Json { (i: nat) => MeasuredField(m, i) }

  function StepStatusText(st: StepStatus): string {
    match st
    case Pending => "PENDING"
    case StepCompleted => "COMPLETED"
    case WaitingApproval => "WAITING_APPROVAL"
    case Approved => "APPROVED"
    case StepRejected => "REJECTED"
  }

  function DecisionText(d: Decision): string {
    match d
    case Undecided => "PENDING"
    case StopApproved => "APPROVED"
    case StopRejected => "REJECTED"
  }

  function StopValue(a: Approval, i: nat): Json {
    if i == 0 then NatJson(a.step) else if i == 1 then NatJson(a.attempt) else Str(DecisionText(a.decision))
  }

  function StopValues(a: Approval): nat -> Json { (i: nat) => StopValue(a, i) }

  function InstallationValue(x: Installation, i: nat): Json {
    if i == 0 then OptStr(x.gasType) else if i == 1 then OptStr(x.kit) else if i == 2 then OptStr(x.ecu)
      else if i == 3 then OptStr(x.cylinder) else OptStr(x.note)
  }

  function InstallationValues(x: Installation): nat -> Json { (i: nat) => InstallationValue(x, i) }

  function CustomerValue(x: Customer, i: nat): Json {
    if i == 0 then NatJson(x.id) else if i == 1 then Str(x.name) else OptStr(x.phoneMasked)
  }

  function CustomerValues(x: Customer): nat -> Json { (i: nat) => CustomerValue(x, i) }

  function VehicleValue(x: Vehicle, i: nat): Json {
    if i == 0 then NatJson(x.id) else if i == 1 then Str(x.plate) else if i == 2 then OptStr(x.vin)
      else if i == 3 then OptStr(x.make) else if i == 4 then OptStr(x.model) else OptNat(x.year)
  }

  function VehicleValues(x: Vehicle): nat -> Json { (i: nat) => VehicleValue(x, i) }

  function EvidenceJson(e: Evidence): Json { Record(EVIDENCE_KEYS, EvidenceValues(e)) }
  function MeasuredJson(m: MeasuredValue): Json { Record(MEASURED_KEYS, MeasuredValues(m)) }
  function StopJson(a: Approval): Json { Record(STOP_KEYS, StopValues(a)) }
  function InstallationJson(x: Installation): Json { Record(INSTALLATION_KEYS, InstallationValues(x)) }
  function CustomerJson(x: Customer): Json { Record(CUSTOMER_KEYS, CustomerValues(x)) }
  function VehicleJson(x: Vehicle): Json { Record(VEHICLE_KEYS, VehicleValues(x)) }

  function EvidenceList(xs: seq<Evidence>): Json { List(xs, (e: Evidence) => EvidenceJson(e)) }
  function MeasuredList(xs: seq<MeasuredValue>): Json { List(xs, (m: MeasuredValue) => MeasuredJson(m)) }
  function StopList(xs: seq<Approval>): Json { List(xs, (a: Approval) => StopJson(a)) }
  function RiskList(xs: seq<nat>): Json { List(xs, (n: nat) => NatJson(n)) }

  function StepValue(x: StepSummary, i: nat): Json {
    if i == 0 then NatJson(x.stepId)
    else if i == 1 then NatJson(x.jobStep)
    else if i == 2 then NatJson(x.jobStep + 1)
    else if i == 3 then Str(x.name)
    else if i == 4 then Bool(x.isStop)
    else if i == 5 then Str(StepStatusText(x.status))
    else if i == 6 then NatJson(x.attempt)
    else if i == 7 then NatJson(x.requiredPhotos)
    else if i == 8 then EvidenceList(x.evidence)
    else MeasuredList(x.measurements)
  }

  function StepValues(x: StepSummary): nat -> Json { (i: nat) => StepValue(x, i) }
  function StepJson(x: StepSummary): Json { Record(STEP_KEYS, StepValues(x)) }
  function StepList(xs: seq<StepSummary>): Json { List(xs, (t: StepSummary) => StepJson(t)) }

  function SummaryValue(x: Summary, i: nat): Json {
    if i == 0 then Str("summary-v1")
    else if i == 1 then NatJson(x.jobId)
    else if i == 2 then NatJson(x.cycle)
    else if i == 3 then NatJson(x.branchId)
    else if i == 4 then OptNat(x.technician)
    else if i == 5 then OptNat(x.templateId)
    else if i == 6 then OptNat(x.version)
    else if i == 7 then InstallationJson(x.installation)
    else if i == 8 then CustomerJson(x.customer)
    else if i == 9 then VehicleJson(x.vehicle)
    else if i == 10 then StepList(x.steps)
    else if i == 11 then StopList(x.stops)
    else RiskList(x.openRisks)
  }

  function SummaryValues(x: Summary): nat -> Json { (i: nat) => SummaryValue(x, i) }
  function SummaryJson(x: Summary): Json { Record(SUMMARY_KEYS, SummaryValues(x)) }

  function SummaryText(x: Summary): string {
    Stringify(SummaryJson(x))
  }

  /** Any digest of summaries. The workflow is proved for every one of them. */
  type Digester = Summary -> Hex

  /** The digest the server takes: the hash of the canonical text. */
  function DigestOfText(h: Hash): Digester {
    (x: Summary) => h(SummaryText(x))
  }

  /** `currentSummaryDigest`. */
  function CurrentDigest(h: Digester, s: State): Hex
    requires ChecklistShape(s.checklist, s.steps)
  {
    h(Material(s))
  }

  // ---------------------------------------------------------------- the text determines the summary

  lemma KeysDistinct()
    ensures DistinctTexts(EVIDENCE_KEYS) && DistinctTexts(MEASURED_KEYS) && DistinctTexts(STOP_KEYS)
    ensures DistinctTexts(INSTALLATION_KEYS) && DistinctTexts(CUSTOMER_KEYS) && DistinctTexts(VEHICLE_KEYS)
  {
  }

  lemma StepKeysDistinct()
    ensures DistinctTexts(STEP_KEYS)
  {
  }

  lemma SummaryKeysDistinct()
    ensures DistinctTexts(SUMMARY_KEYS)
  {
  }

  lemma EvidenceSame(a: Evidence, b: Evidence)
    requires Same(EvidenceJson(a), EvidenceJson(b))
    ensures a == b
  {
    KeysDistinct();
    RecordSameAt(EVIDENCE_KEYS, EvidenceValues(a), EvidenceValues(b), 0);
    RecordSameAt(EVIDENCE_KEYS, EvidenceValues(a), EvidenceValues(b), 1);
    RecordSameAt(EVIDENCE_KEYS, EvidenceValues(a), EvidenceValues(b), 2);
    NatJsonSame(a.photoId, b.photoId);
    StrSame(a.sha256, b.sha256);
    NatJsonSame(a.size, b.size);
  }

  lemma MeasuredSame(a: MeasuredValue, b: MeasuredValue)
    requires Same(MeasuredJson(a), MeasuredJson(b))
    ensures a == b
  {
    KeysDistinct();
    RecordSameAt(MEASURED_KEYS, MeasuredValues(a), MeasuredValues(b), 0);
    RecordSameAt(MEASURED_KEYS, MeasuredValues(a), MeasuredValues(b), 1);
    NatJsonSame(a.rule, b.rule);
    StrSame(DecimalText(a.value), DecimalText(b.value));
    DecimalTextInjective(a.value, b.value);
  }

  lemma DecisionTextInjective(a: Decision, b: Decision)
    requires DecisionText(a) == DecisionText(b)
    ensures a == b
  {
    assert DecisionText(a)[0] == DecisionText(b)[0];
  }

  lemma StepStatusTextInjective(a: StepStatus, b: StepStatus)
    requires StepStatusText(a) == StepStatusText(b)
    ensures a == b
  {
    assert StepStatusText(a)[0] == StepStatusText(b)[0];
  }

  lemma StopSame(a: Approval, b: Approval)
    requires Same(StopJson(a), StopJson(b))
    ensures a == b
  {
    KeysDistinct();
    RecordSameAt(STOP_KEYS, StopValues(a), StopValues(b), 0);
    RecordSameAt(STOP_KEYS, StopValues(a), StopValues(b), 1);
    RecordSameAt(STOP_KEYS, StopValues(a), StopValues(b), 2);
    NatJsonSame(a.step, b.step);
    NatJsonSame(a.attempt, b.attempt);
    StrSame(DecisionText(a.decision), DecisionText(b.decision));
    DecisionTextInjective(a.decision, b.decision);
  }

  lemma InstallationSame(a: Installation, b: Installation)
    requires Same(InstallationJson(a), InstallationJson(b))
    ensures a == b
  {
    KeysDistinct();
    var f, g := InstallationValues(a), InstallationValues(b);
    RecordSameAt(INSTALLATION_KEYS, f, g, 0);
    RecordSameAt(INSTALLATION_KEYS, f, g, 1);
    RecordSameAt(INSTALLATION_KEYS, f, g, 2);
    RecordSameAt(INSTALLATION_KEYS, f, g, 3);
    RecordSameAt(INSTALLATION_KEYS, f, g, 4);
    OptStrSame(a.gasType, b.gasType);
    OptStrSame(a.kit, b.kit);
    OptStrSame(a.ecu, b.ecu);
    OptStrSame(a.cylinder, b.cylinder);
    OptStrSame(a.note, b.note);
  }

  lemma CustomerSame(a: Customer, b: Customer)
    requires Same(CustomerJson(a), CustomerJson(b))
    ensures a == b
  {
    KeysDistinct();
    RecordSameAt(CUSTOMER_KEYS, CustomerValues(a), CustomerValues(b), 0);
    RecordSameAt(CUSTOMER_KEYS, CustomerValues(a), CustomerValues(b), 1);
    RecordSameAt(CUSTOMER_KEYS, CustomerValues(a), CustomerValues(b), 2);
    NatJsonSame(a.id, b.id);
    StrSame(a.name, b.name);
    OptStrSame(a.phoneMasked, b.phoneMasked);
  }

  lemma VehicleSame(a: Vehicle, b: Vehicle)
    requires Same(VehicleJson(a), VehicleJson(b))
    ensures a == b
  {
    KeysDistinct();
    var f, g := VehicleValues(a), VehicleValues(b);
    RecordSameAt(VEHICLE_KEYS, f, g, 0);
    RecordSameAt(VEHICLE_KEYS, f, g, 1);
    RecordSameAt(VEHICLE_KEYS, f, g, 2);
    RecordSameAt(VEHICLE_KEYS, f, g, 3);
    RecordSameAt(VEHICLE_KEYS, f, g, 4);
    RecordSameAt(VEHICLE_KEYS, f, g, 5);
    NatJsonSame(a.id, b.id);
    StrSame(a.plate, b.plate);
    OptStrSame(a.vin, b.vin);
    OptStrSame(a.make, b.make);
    OptStrSame(a.model, b.model);
    OptNatSame(a.year, b.year);
  }

  lemma EvidenceListSame(xs: seq<Evidence>, ys: seq<Evidence>)
    requires Same(EvidenceList(xs), EvidenceList(ys))
    ensures xs == ys
  {
    forall a, b | Same(EvidenceJson(a), EvidenceJson(b)) ensures a == b { EvidenceSame(a, b); }
    ListSame(xs, ys, (e: Evidence) => EvidenceJson(e));
  }

  lemma MeasuredListSame(xs: seq<MeasuredValue>, ys: seq<MeasuredValue>)
    requires Same(MeasuredList(xs), MeasuredList(ys))
    ensures xs == ys
  {
    forall a, b | Same(MeasuredJson(a), MeasuredJson(b)) ensures a == b { MeasuredSame(a, b); }
    ListSame(xs, ys, (m: MeasuredValue) => MeasuredJson(m));
  }

  lemma StopListSame(xs: seq<Approval>, ys: seq<Approval>)
    requires Same(StopList(xs), StopList(ys))
    ensures xs == ys
  {
    forall a, b | Same(StopJson(a), StopJson(b)) ensures a == b { StopSame(a, b); }
    ListSame(xs, ys, (a: Approval) => StopJson(a));
  }

  lemma RiskListSame(xs: seq<nat>, ys: seq<nat>)
    requires Same(RiskList(xs), RiskList(ys))
    ensures xs == ys
  {
    forall a: nat, b: nat | Same(NatJson(a), NatJson(b)) ensures a == b { NatJsonSame(a, b); }
    ListSame(xs, ys, (n: nat) => NatJson(n));
  }

  lemma StepSameAt(a: StepSummary, b: StepSummary, i: nat)
    requires i < 10 && Same(StepJson(a), StepJson(b))
    ensures Same(StepValue(a, i), StepValue(b, i))
  {
    StepKeysDistinct();
    RecordSameAt(STEP_KEYS, StepValues(a), StepValues(b), i);
  }

  lemma StepSame(a: StepSummary, b: StepSummary)
    requires Same(StepJson(a), StepJson(b))
    ensures a == b
  {
    StepSameAt(a, b, 0); NatJsonSame(a.stepId, b.stepId);
    StepSameAt(a, b, 1); NatJsonSame(a.jobStep, b.jobStep);
    StepSameAt(a, b, 3); StrSame(a.name, b.name);
    StepSameAt(a, b, 4);
    StepSameAt(a, b, 5); StrSame(StepStatusText(a.status), StepStatusText(b.status));
    StepStatusTextInjective(a.status, b.status);
    StepSameAt(a, b, 6); NatJsonSame(a.attempt, b.attempt);
    StepSameAt(a, b, 7); NatJsonSame(a.requiredPhotos, b.requiredPhotos);
    StepSameAt(a, b, 8); EvidenceListSame(a.evidence, b.evidence);
    StepSameAt(a, b, 9); MeasuredListSame(a.measurements, b.measurements);
  }

  lemma StepListSame(xs: seq<StepSummary>, ys: seq<StepSummary>)
    requires Same(StepList(xs), StepList(ys))
    ensures xs == ys
  {
    forall a, b | Same(StepJson(a), StepJson(b)) ensures a == b { StepSame(a, b); }
    ListSame(xs, ys, (t: StepSummary) => StepJson(t));
  }

  lemma SummarySameAt(a: Summary, b: Summary, i: nat)
    requires i < 13 && Same(SummaryJson(a), SummaryJson(b))
    ensures Same(SummaryValue(a, i), SummaryValue(b, i))
  {
    SummaryKeysDistinct();
    RecordSameAt(SUMMARY_KEYS, SummaryValues(a), SummaryValues(b), i);
  }

  lemma SummarySame(a: Summary, b: Summary)
    requires Same(SummaryJson(a), SummaryJson(b))
    ensures a == b
  {
    SummarySameAt(a, b, 1); NatJsonSame(a.jobId, b.jobId);
    SummarySameAt(a, b, 2); NatJsonSame(a.cycle, b.cycle);
    SummarySameAt(a, b, 3); NatJsonSame(a.branchId, b.branchId);
    SummarySameAt(a, b, 4); OptNatSame(a.technician, b.technician);
    SummarySameAt(a, b, 5); OptNatSame(a.templateId, b.templateId);
    SummarySameAt(a, b, 6); OptNatSame(a.version, b.version);
    SummarySameAt(a, b, 7); InstallationSame(a.installation, b.installation);
    SummarySameAt(a, b, 8); CustomerSame(a.customer, b.customer);
    SummarySameAt(a, b, 9); VehicleSame(a.vehicle, b.vehicle);
    SummarySameAt(a, b, 10); StepListSame(a.steps, b.steps);
    SummarySameAt(a, b, 11); StopListSame(a.stops, b.stops);
    SummarySameAt(a, b, 12); RiskListSame(a.openRisks, b.openRisks);
  }

  lemma EvidenceValid(x: Evidence)
    ensures Valid(EvidenceJson(x)) && Defined(EvidenceJson(x))
  {
    KeysDistinct();
    forall i: nat | i < |EVIDENCE_KEYS| ensures Valid(EvidenceValues(x)(i)) && Defined(EvidenceValues(x)(i)) {}
    RecordValid(EVIDENCE_KEYS, EvidenceValues(x));
  }

  lemma MeasuredValid(x: MeasuredValue)
    ensures Valid(MeasuredJson(x)) && Defined(MeasuredJson(x))
  {
    KeysDistinct();
    forall i: nat | i < |MEASURED_KEYS| ensures Valid(MeasuredValues(x)(i)) && Defined(MeasuredValues(x)(i)) {}
    RecordValid(MEASURED_KEYS, MeasuredValues(x));
  }

  lemma StopValid(x: Approval)
    ensures Valid(StopJson(x)) && Defined(StopJson(x))
  {
    KeysDistinct();
    forall i: nat | i < |STOP_KEYS| ensures Valid(StopValues(x)(i)) && Defined(StopValues(x)(i)) {}
    RecordValid(STOP_KEYS, StopValues(x));
  }

  lemma InstallationValid(x: Installation)
    ensures Valid(InstallationJson(x)) && Defined(InstallationJson(x))
  {
    KeysDistinct();
    forall i: nat | i < |INSTALLATION_KEYS| ensures Valid(InstallationValues(x)(i)) && Defined(InstallationValues(x)(i)) {}
    RecordValid(INSTALLATION_KEYS, InstallationValues(x));
  }

  lemma CustomerValid(x: Customer)
    ensures Valid(CustomerJson(x)) && Defined(CustomerJson(x))
  {
    KeysDistinct();
    forall i: nat | i < |CUSTOMER_KEYS| ensures Valid(CustomerValues(x)(i)) && Defined(CustomerValues(x)(i)) {}
    RecordValid(CUSTOMER_KEYS, CustomerValues(x));
  }

  lemma VehicleValid(x: Vehicle)
    ensures Valid(VehicleJson(x)) && Defined(VehicleJson(x))
  {
    KeysDistinct();
    forall i: nat | i < |VEHICLE_KEYS| ensures Valid(VehicleValues(x)(i)) && Defined(VehicleValues(x)(i)) {}
    RecordValid(VEHICLE_KEYS, VehicleValues(x));
  }

  lemma ListsValid(x: Summary, t: StepSummary)
    ensures Valid(StopList(x.stops)) && Defined(StopList(x.stops))
    ensures Valid(RiskList(x.openRisks)) && Defined(RiskList(x.openRisks))
    ensures Valid(EvidenceList(t.evidence)) && Defined(EvidenceList(t.evidence))
    ensures Valid(MeasuredList(t.measurements)) && Defined(MeasuredList(t.measurements))
  {
    forall e ensures Valid(EvidenceJson(e)) && Defined(EvidenceJson(e)) { EvidenceValid(e); }
    forall m ensures Valid(MeasuredJson(m)) && Defined(MeasuredJson(m)) { MeasuredValid(m); }
    forall a ensures Valid(StopJson(a)) && Defined(StopJson(a)) { StopValid(a); }
    ListValid(x.stops, (a: Approval) => StopJson(a));
    ListValid(x.openRisks, (n: nat) => NatJson(n));
    ListValid(t.evidence, (e: Evidence) => EvidenceJson(e));
    ListValid(t.measurements, (m: MeasuredValue) => MeasuredJson(m));
  }

  lemma StepValid(x: Summary, t: StepSummary)
    ensures Valid(StepJson(t)) && Defined(StepJson(t))
  {
    ListsValid(x, t);
    StepKeysDistinct();
    forall i: nat | i < 10 ensures Valid(StepValues(t)(i)) && Defined(StepValues(t)(i)) {}
    RecordValid(STEP_KEYS, StepValues(t));
  }

  lemma StepListValid(x: Summary)
    ensures Valid(StepList(x.steps)) && Defined(StepList(x.steps))
  {
    forall t ensures Valid(StepJson(t)) && Defined(StepJson(t)) { StepValid(x, t); }
    ListValid(x.steps, (t: StepSummary) => StepJson(t));
  }

  lemma SummaryValueValid(x: Summary, i: nat)
    ensures Valid(SummaryValue(x, i)) && Defined(SummaryValue(x, i))
  {
    if i == 7 { InstallationValid(x.installation); }
    else if i == 8 { CustomerValid(x.customer); }
    else if i == 9 { VehicleValid(x.vehicle); }
    else if i == 10 { StepListValid(x); }
    else if i >= 11 { ListsValid(x, StepSummary(0, 0, "", false, Pending, 0, 0, [], [])); }
  }

  lemma SummaryValid(x: Summary)
    ensures Valid(SummaryJson(x)) && Defined(SummaryJson(x))
  {
    SummaryKeysDistinct();
    forall i: nat | i < 13 ensures Valid(SummaryValues(x)(i)) && Defined(SummaryValues(x)(i)) {
      SummaryValueValid(x, i);
    }
    RecordValid(SUMMARY_KEYS, SummaryValues(x));
  }

  /** Two summaries with one canonical text are the same summary. */
  lemma SummaryTextInjective(a: Summary, b: Summary)
    requires SummaryText(a) == SummaryText(b)
    ensures a == b
  {
    SummaryValid(a);
    SummaryValid(b);
    StringifyInjective(SummaryJson(a), SummaryJson(b));
    PruneKeepsDefined(SummaryJson(a));
    PruneKeepsDefined(SummaryJson(b));
    SummarySame(a, b);
  }

  /** Two different summaries with one digest. */
  ghost predicate SameDigest(h: Digester, a: Summary, b: Summary) {
    a != b && h(a) == h(b)
  }

  /** Under the digest of the server these are two different texts with one hash. */
  lemma SameDigestCollides(h: Hash, a: Summary, b: Summary)
    requires SameDigest(DigestOfText(h), a, b)
    ensures Collision(h, SummaryText(a), SummaryText(b))
  {
    if SummaryText(a) == SummaryText(b) {
      SummaryTextInjective(a, b);
    }
  }

  // ---------------------------------------------------------------- what the text says under which name

  lemma SummaryValueAt(x: Summary, i: nat)
    requires i < |SUMMARY_KEYS|
    ensures Get(SummaryJson(x).fields, SUMMARY_KEYS[i]) == SummaryValue(x, i)
  {
    SummaryKeysDistinct();
    RecordGet(SUMMARY_KEYS, SummaryValues(x), i);
  }

  /** Each scalar of the summary stands under its own name. */
  lemma ScalarsAreNamed(x: Summary)
    ensures var fs := SummaryJson(x).fields;
      && Get(fs, "schemaVersion") == Str("summary-v1")
      && Get(fs, "jobId") == NatJson(x.jobId) && Get(fs, "cycle") == NatJson(x.cycle) && Get(fs, "branchId") == NatJson(x.branchId)
      && Get(fs, "assignedTechnicianId") == OptNat(x.technician)
      && Get(fs, "checklistTemplateId") == OptNat(x.templateId) && Get(fs, "checklistVersion") == OptNat(x.version)
  {
    SummaryValueAt(x, 0);
    SummaryValueAt(x, 1);
    SummaryValueAt(x, 2);
    SummaryValueAt(x, 3);
    SummaryValueAt(x, 4);
    SummaryValueAt(x, 5);
    SummaryValueAt(x, 6);
  }

  /** So do its installation and its parties. */
  lemma PartiesAreNamed(x: Summary)
    ensures var fs := SummaryJson(x).fields;
      && Get(fs, "installation") == InstallationJson(x.installation)
      && Get(fs, "customer") == CustomerJson(x.customer) && Get(fs, "vehicle") == VehicleJson(x.vehicle)
  {
    SummaryValueAt(x, 7);
    SummaryValueAt(x, 8);
    SummaryValueAt(x, 9);
  }

  /** So do its steps, its STOP decisions and its open risks. */
  lemma ListsAreNamed(x: Summary)
    ensures var fs := SummaryJson(x).fields;
      && Get(fs, "steps") == StepList(x.steps) && Get(fs, "stops") == StopList(x.stops)
      && Get(fs, "openBlockingRiskIds") == RiskList(x.openRisks)
  {
    SummaryValueAt(x, 10);
    SummaryValueAt(x, 11);
    SummaryValueAt(x, 12);
  }

  lemma StepValueAt(x: StepSummary, i: nat)
    requires i < |STEP_KEYS|
    ensures Get(StepJson(x).fields, STEP_KEYS[i]) == StepValue(x, i)
  {
    StepKeysDistinct();
    RecordGet(STEP_KEYS, StepValues(x), i);
  }

  /** And each field of a step, its order counted from one and its status by name. */
  lemma StepsAreNamed(x: StepSummary)
    ensures var fs := StepJson(x).fields;
      && Get(fs, "stepId") == NatJson(x.stepId) && Get(fs, "jobStepId") == NatJson(x.jobStep) && Get(fs, "order") == NatJson(x.jobStep + 1)
      && Get(fs, "name") == Str(x.name) && Get(fs, "isStop") == Bool(x.isStop)
      && (x.status == Approved ==> Get(fs, "status") == Str("APPROVED"))
      && (x.status == StepCompleted ==> Get(fs, "status") == Str("COMPLETED"))
      && Get(fs, "attempt") == NatJson(x.attempt) && Get(fs, "requiredPhotos") == NatJson(x.requiredPhotos)
      && Get(fs, "evidence") == EvidenceList(x.evidence) && Get(fs, "measurements") == MeasuredList(x.measurements)
  {
    StepValueAt(x, 0);
    StepValueAt(x, 1);
    StepValueAt(x, 2);
    StepValueAt(x, 3);
    StepValueAt(x, 4);
    StepValueAt(x, 5);
    StepValueAt(x, 6);
    StepValueAt(x, 7);
    StepValueAt(x, 8);
    StepValueAt(x, 9);
  }

  // ---------------------------------------------------------------- what the summary collects

  lemma {:induction false} EvidenceCounts(ps: seq<Photo>, step: nat, attempt: nat)
    ensures |EvidenceOf(ps, step, attempt)| == Count(ps, IsReady(step, attempt))
  {
    if ps != [] {
      EvidenceCounts(ps[..|ps| - 1], step, attempt);
    }
  }

  lemma {:induction false} EvidenceMembers(ps: seq<Photo>, step: nat, attempt: nat, e: Evidence)
    ensures e in EvidenceOf(ps, step, attempt) <==>
      e.photoId < |ps| && IsReady(step, attempt)(ps[e.photoId]) && e == Evidence(e.photoId, ps[e.photoId].hash, ps[e.photoId].size)
  {
    if ps != [] {
      EvidenceMembers(ps[..|ps| - 1], step, attempt, e);
    }
  }

  lemma {:induction false} EvidenceById(ps: seq<Photo>, step: nat, attempt: nat)
    ensures forall k, l :: 0 <= k < l < |EvidenceOf(ps, step, attempt)| ==>
      EvidenceOf(ps, step, attempt)[k].photoId < EvidenceOf(ps, step, attempt)[l].photoId
  {
    if ps != [] {
      var rest := EvidenceOf(ps[..|ps| - 1], step, attempt);
      EvidenceById(ps[..|ps| - 1], step, attempt);
      forall k | 0 <= k < |rest| ensures rest[k].photoId < |ps| - 1 {
        EvidenceMembers(ps[..|ps| - 1], step, attempt, rest[k]);
      }
    }
  }

  /** The evidence of a step in the summary is exactly what the gate counts for it: its READY photos
      of the attempt, by id, each once with its hash and size. */
  lemma EvidenceIs(ps: seq<Photo>, step: nat, attempt: nat)
    ensures var es := EvidenceOf(ps, step, attempt);
      && |es| == Count(ps, IsReady(step, attempt))
      && (forall k, l :: 0 <= k < l < |es| ==> es[k].photoId < es[l].photoId)
      && forall e :: e in es <==>
           e.photoId < |ps| && IsReady(step, attempt)(ps[e.photoId]) && e == Evidence(e.photoId, ps[e.photoId].hash, ps[e.photoId].size)
  {
    EvidenceCounts(ps, step, attempt);
    EvidenceById(ps, step, attempt);
    forall e ensures e in EvidenceOf(ps, step, attempt) <==>
      e.photoId < |ps| && IsReady(step, attempt)(ps[e.photoId]) && e == Evidence(e.photoId, ps[e.photoId].hash, ps[e.photoId].size)
    {
      EvidenceMembers(ps, step, attempt, e);
    }
  }

  ghost predicate ByRule(ms: seq<MeasuredValue>) {
    forall k, l :: 0 <= k < l < |ms| ==> ms[k].rule <= ms[l].rule
  }

  lemma {:induction false} InsertByRuleElements(m: MeasuredValue, ms: seq<MeasuredValue>)
    ensures multiset(InsertByRule(m, ms)) == multiset(ms) + multiset{m}
  {
    if ms != [] && m.rule >= ms[0].rule {
      InsertByRuleElements(m, ms[1..]);
      assert ms == [ms[0]] + ms[1..];
    }
  }

  lemma {:induction false} InsertByRuleSorted(m: MeasuredValue, ms: seq<MeasuredValue>)
    requires ByRule(ms)
    ensures ByRule(InsertByRule(m, ms))
    ensures ms != [] ==> forall k :: 0 <= k < |InsertByRule(m, ms)| ==>
      InsertByRule(m, ms)[k].rule >= if m.rule < ms[0].rule then m.rule else ms[0].rule
    ensures ms == [] ==> InsertByRule(m, ms) == [m]
  {
    if ms != [] && m.rule >= ms[0].rule {
      InsertByRuleSorted(m, ms[1..]);
    }
  }

  function ValuesOf(ms: seq<Measurement>, step: nat, attempt: nat): multiset<MeasuredValue> {
    if ms == [] then multiset{}
    else
      var m := ms[|ms| - 1];
      ValuesOf(ms[..|ms| - 1], step, attempt)
      + if m.step == step && m.attempt == attempt then multiset{MeasuredValue(m.rule, m.value)} else multiset{}
  }

  /** The values of a step in the summary are those stored for its attempt, ordered by rule. */
  lemma {:induction false} MeasuredIs(ms: seq<Measurement>, step: nat, attempt: nat)
    ensures ByRule(MeasuredOf(ms, step, attempt))
    ensures multiset(MeasuredOf(ms, step, attempt)) == ValuesOf(ms, step, attempt)
  {
    if ms != [] {
      var m, rest := ms[|ms| - 1], MeasuredOf(ms[..|ms| - 1], step, attempt);
      MeasuredIs(ms[..|ms| - 1], step, attempt);
      InsertByRuleSorted(MeasuredValue(m.rule, m.value), rest);
      InsertByRuleElements(MeasuredValue(m.rule, m.value), rest);
    }
  }

  predicate Before(a: Approval, b: Approval) {
    a.step < b.step || (a.step == b.step && a.attempt <= b.attempt)
  }

  ghost predicate ByStep(aps: seq<Approval>) {
    forall k, l :: 0 <= k < l < |aps| ==> Before(aps[k], aps[l])
  }

  lemma {:induction false} InsertStopElements(a: Approval, aps: seq<Approval>)
    ensures multiset(InsertStop(a, aps)) == multiset(aps) + multiset{a}
  {
    if aps != [] {
      assert aps == [aps[0]] + aps[1..];
      InsertStopElements(a, aps[1..]);
    }
  }

  lemma {:induction false} InsertStopSorted(a: Approval, aps: seq<Approval>)
    requires ByStep(aps)
    ensures ByStep(InsertStop(a, aps))
    ensures forall k :: 0 <= k < |InsertStop(a, aps)| ==>
      InsertStop(a, aps)[k] == a || exists l :: 0 <= l < |aps| && aps[l] == InsertStop(a, aps)[k]
  {
    if aps != [] && Before(aps[0], a) {
      InsertStopSorted(a, aps[1..]);
    }
  }

  /** The summary lists every approval once, ordered by step and attempt. */
  lemma {:induction false} StopsAre(aps: seq<Approval>)
    ensures ByStep(StopsOf(aps)) && multiset(StopsOf(aps)) == multiset(aps)
  {
    if aps != [] {
      StopsAre(aps[..|aps| - 1]);
      InsertStopSorted(aps[|aps| - 1], StopsOf(aps[..|aps| - 1]));
      InsertStopElements(aps[|aps| - 1], StopsOf(aps[..|aps| - 1]));
      assert aps == aps[..|aps| - 1] + [aps[|aps| - 1]];
    }
  }

  lemma {:induction false} StepSummariesAt(s: State, n: nat)
    requires s.checklist.Some? && n <= |s.checklist.value.defs| && n <= |s.steps|
    ensures |StepSummaries(s, n)| == n && forall k :: 0 <= k < n ==> StepSummaries(s, n)[k] == StepSummaryOf(s, k)
  {
    if n > 0 {
      StepSummariesAt(s, n - 1);
    }
  }
}
