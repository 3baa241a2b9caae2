/** What one event makes of every row, told from the rows alone and table by table. */
module WorkflowRows {
  import opened Prelude
  import opened Text
  import opened JobCycle
  import opened JobModel
  import opened Summaries
  import opened Workflow
  import opened WorkflowFrame
  import opened WorkflowInv
  import opened WorkflowTheorems
  import opened WorkflowEvidence
  import opened WorkflowReached

  // ---------------------------------------------------------------- evidence on the rows

  /** The READY photos of a step and attempt. */
  ghost function ReadyIds(ps: seq<Photo>, i: nat, a: nat): set<nat> {
    set k: nat | k < |ps| && ps[k].step == i && ps[k].attempt == a && ps[k].status == Ready
  }

  /** Those that are READY or under way. */
  ghost function LiveIds(ps: seq<Photo>, i: nat, a: nat): set<nat> {
    set k: nat | k < |ps| && ps[k].step == i && ps[k].attempt == a && ps[k].status in {InFlight, Ready}
  }

  lemma {:induction false} CountIsReady(ps: seq<Photo>, i: nat, a: nat)
    ensures Count(ps, IsReady(i, a)) == |ReadyIds(ps, i, a)|
  {
    if ps != [] {
      var n := |ps| - 1;
      CountIsReady(ps[..n], i, a);
      assert ReadyIds(ps, i, a) == ReadyIds(ps[..n], i, a) + if IsReady(i, a)(ps[n]) then {n} else {};
    }
  }

  lemma {:induction false} CountIsLive(ps: seq<Photo>, i: nat, a: nat)
    ensures Count(ps, IsActive(i, a)) == |LiveIds(ps, i, a)|
  {
    if ps != [] {
      var n := |ps| - 1;
      CountIsLive(ps[..n], i, a);
      assert LiveIds(ps, i, a) == LiveIds(ps[..n], i, a) + if IsActive(i, a)(ps[n]) then {n} else {};
    }
  }

  // ---------------------------------------------------------------- values on the rows

  /** Value k of a request is the one that counts for a rule: the last that names it. */
  predicate Counts(input: seq<Submission>, id: nat, k: nat) {
    k < |input| && input[k].rule == id && forall l :: k < l < |input| ==> input[l].rule != id
  }

  /** t is the nearest whole number, the upper one of two. */
  predicate RoundsUp(x: real, t: int) {
    t as real - 0.5 <= x < t as real + 0.5
  }

  /** t are the nearest thousandths, of two those away from zero. */
  predicate ThousandthsAway(v: real, t: int) {
    var x := v * 1000.0;
    if x >= 0.0 then t as real - 0.5 <= x < t as real + 0.5 else t as real - 0.5 < x <= t as real + 0.5
  }

  predicate Within(r: Rule, t: int) {
    (r.min.Some? ==> r.min.value <= t) && (r.max.Some? ==> t <= r.max.value)
  }

  ghost predicate RoundedWithin(r: Rule, product: real) {
    forall t: int :: RoundsUp(product, t) ==> Within(r, t)
  }

  ghost predicate ColumnHolds(v: real) {
    forall t: int :: ThousandthsAway(v, t) ==> -1_000_000_000_000 < t < 1_000_000_000_000
  }

  /** A value may be stored for a rule: its thousandths lie in the range and its column holds it. */
  ghost predicate Storable(r: Rule, x: Submission) {
    RoundedWithin(r, x.product) && ColumnHolds(x.value)
  }

  ghost predicate Meets(r: Rule, input: seq<Submission>) {
    && (r.required ==> exists k: nat :: Counts(input, r.id, k))
    && forall k: nat :: Counts(input, r.id, k) ==> Storable(r, input[k])
  }

  lemma RoundsUpIs(x: real, t: int)
    ensures RoundsUp(x, t) <==> t == ToThousandths(x)
  {
  }

  lemma ThousandthsAwayIs(v: real, t: int)
    ensures ThousandthsAway(v, t) <==> t == ColumnThousandths(v)
  {
    var y, c := v * 1000.0, ColumnThousandths(v);
    if v >= 0.0 {
      assert c as real <= y + 0.5 < c as real + 1.0;
    } else {
      assert -v * 1000.0 == -y;
      assert -c as real <= -y + 0.5 < -c as real + 1.0;
    }
  }

  lemma WithinIs(r: Rule, x: real)
    ensures RoundedWithin(r, x) <==> InRange(r, ToThousandths(x))
  {
    RoundsUpIs(x, ToThousandths(x));
    forall t: int | RoundsUp(x, t) ensures t == ToThousandths(x) { RoundsUpIs(x, t); }
  }

  lemma FitsIs(v: real)
    ensures ColumnHolds(v) <==> FitsColumn(ColumnThousandths(v))
  {
    ThousandthsAwayIs(v, ColumnThousandths(v));
    forall t: int | ThousandthsAway(v, t) ensures t == ColumnThousandths(v) { ThousandthsAwayIs(v, t); }
  }

  lemma StorableIs(r: Rule, x: Submission)
    ensures Storable(r, x) <==> InRange(r, ToThousandths(x.product)) && FitsColumn(ColumnThousandths(x.value))
  {
    WithinIs(r, x.product);
    FitsIs(x.value);
  }

  lemma {:induction false} SubmittedCounts(input: seq<Submission>, id: nat, k: nat)
    ensures Counts(input, id, k) ==> SubmittedValue(input, id) == Some(input[k])
    ensures SubmittedValue(input, id).Some? <==> exists k: nat :: Counts(input, id, k)
  {
    if input != [] {
      var n := |input| - 1;
      if input[n].rule == id {
        assert Counts(input, id, n);
      } else {
        SubmittedCounts(input[..n], id, k);
        forall l: nat ensures Counts(input, id, l) <==> Counts(input[..n], id, l) {}
      }
    }
  }

  lemma MeetsIs(r: Rule, input: seq<Submission>)
    ensures Meets(r, input) <==>
      !RuleViolated(r, input) && (SubmittedValue(input, r.id).Some? ==> FitsColumn(ColumnThousandths(SubmittedValue(input, r.id).value.value)))
  {
    SubmittedCounts(input, r.id, 0);
    forall k: nat | Counts(input, r.id, k) ensures SubmittedValue(input, r.id) == Some(input[k]) {
      SubmittedCounts(input, r.id, k);
      StorableIs(r, input[k]);
    }
    if SubmittedValue(input, r.id).Some? {
      StorableIs(r, SubmittedValue(input, r.id).value);
    }
  }

  /** The row a rule receives from value x. */
  function ValueRow(i: nat, a: nat, r: Rule, x: Submission): Measurement {
    Measurement(i, r.id, a, x.value, ToThousandths(x.product), ColumnThousandths(x.value))
  }

  /** Row m is the row of some rule with a value. */
  ghost predicate OfSomeRule(rules: seq<Rule>, input: seq<Submission>, i: nat, a: nat, m: Measurement) {
    exists j :: 0 <= j < |rules| && OfRule(rules[j], input, i, a, m)
  }

  ghost predicate OfRule(r: Rule, input: seq<Submission>, i: nat, a: nat, m: Measurement) {
    SubmittedValue(input, r.id).Some? && m == ValueRow(i, a, r, SubmittedValue(input, r.id).value)
  }

  lemma {:induction false} RowsForAre(rules: seq<Rule>, input: seq<Submission>, i: nat, a: nat)
    ensures forall j :: 0 <= j < |rules| && SubmittedValue(input, rules[j].id).Some? ==>
      ValueRow(i, a, rules[j], SubmittedValue(input, rules[j].id).value) in RowsFor(rules, input, i, a)
    ensures forall m <- RowsFor(rules, input, i, a) :: OfSomeRule(rules, input, i, a, m)
  {
    if rules != [] {
      var n := |rules| - 1;
      RowsForAre(rules[..n], input, i, a);
      var rest := RowsFor(rules[..n], input, i, a);
      forall m | m in RowsFor(rules, input, i, a) ensures OfSomeRule(rules, input, i, a, m) {
        if m in rest {
          var j :| 0 <= j < n && OfRule(rules[..n][j], input, i, a, m);
          assert OfRule(rules[j], input, i, a, m);
        } else {
          assert OfRule(rules[n], input, i, a, m);
        }
      }
      forall j | 0 <= j < |rules| && SubmittedValue(input, rules[j].id).Some?
        ensures ValueRow(i, a, rules[j], SubmittedValue(input, rules[j].id).value) in RowsFor(rules, input, i, a)
      {
        if j < n { assert rules[..n][j] == rules[j]; }
      }
    }
  }

  /** Row m stores value x for a rule: rounded twice, and the thousandths of its column. */
  predicate Stores(m: Measurement, i: nat, id: nat, a: nat, x: Submission) {
    && m.step == i && m.rule == id && m.attempt == a && m.submitted == x.value
    && RoundsUp(x.product, m.accepted) && ThousandthsAway(x.value, m.value)
  }

  ghost predicate StoresSome(rules: seq<Rule>, input: seq<Submission>, i: nat, a: nat, m: Measurement) {
    exists j, k: nat :: 0 <= j < |rules| && Counts(input, rules[j].id, k) && Stores(m, i, rules[j].id, a, input[k])
  }

  ghost predicate IsStored(rows: seq<Measurement>, i: nat, id: nat, a: nat, x: Submission) {
    exists m :: m in rows && Stores(m, i, id, a, x)
  }

  ghost predicate DistinctRules(rules: seq<Rule>) {
    forall j, l :: 0 <= j < l < |rules| ==> rules[j].id != rules[l].id
  }

  ghost predicate OnePerRule(rows: seq<Measurement>) {
    forall p, q :: 0 <= p < q < |rows| ==> rows[p].rule != rows[q].rule
  }

  /** The rows are the values of the request, each under the rule it names. */
  ghost predicate StoresAll(rows: seq<Measurement>, rules: seq<Rule>, input: seq<Submission>, i: nat, a: nat) {
    && (forall m <- rows :: StoresSome(rules, input, i, a, m))
    && (forall j, k: nat :: 0 <= j < |rules| && Counts(input, rules[j].id, k) ==> IsStored(rows, i, rules[j].id, a, input[k]))
    && (DistinctRules(rules) ==> OnePerRule(rows))
  }

  lemma ValueRowStores(i: nat, a: nat, r: Rule, x: Submission)
    ensures Stores(ValueRow(i, a, r, x), i, r.id, a, x)
  {
    RoundsUpIs(x.product, ToThousandths(x.product));
    ThousandthsAwayIs(x.value, ColumnThousandths(x.value));
  }

  lemma RowsStoreAll(rules: seq<Rule>, input: seq<Submission>, i: nat, a: nat)
    ensures StoresAll(RowsFor(rules, input, i, a), rules, input, i, a)
  {
    var rows := RowsFor(rules, input, i, a);
    RowsForAre(rules, input, i, a);
    forall m | m in rows ensures StoresSome(rules, input, i, a, m) {
      var j :| 0 <= j < |rules| && OfRule(rules[j], input, i, a, m);
      SubmittedCounts(input, rules[j].id, 0);
      var k: nat :| Counts(input, rules[j].id, k);
      SubmittedCounts(input, rules[j].id, k);
      ValueRowStores(i, a, rules[j], input[k]);
    }
    forall j, k: nat | 0 <= j < |rules| && Counts(input, rules[j].id, k)
      ensures IsStored(rows, i, rules[j].id, a, input[k])
    {
      SubmittedCounts(input, rules[j].id, k);
      ValueRowStores(i, a, rules[j], input[k]);
    }
    if DistinctRules(rules) {
      RowsForDistinct(rules, input, i, a);
    }
  }

  /** Rules with different ids get rows with different ids. */
  lemma {:induction false} RowsForDistinct(rules: seq<Rule>, input: seq<Submission>, i: nat, a: nat)
    requires DistinctRules(rules)
    ensures OnePerRule(RowsFor(rules, input, i, a))
  {
    if rules != [] {
      var n := |rules| - 1;
      RowsForDistinct(rules[..n], input, i, a);
      RowsForAre(rules[..n], input, i, a);
      var rest := RowsFor(rules[..n], input, i, a);
      forall p | 0 <= p < |rest| ensures rest[p].rule != rules[n].id {
        assert rest[p] in rest;
      }
    }
  }

  // ---------------------------------------------------------------- submitting a step

  ghost predicate Known(rules: seq<Rule>, id: nat) {
    exists j :: 0 <= j < |rules| && rules[j].id == id
  }

  ghost predicate ValuesAccepted(rules: seq<Rule>, input: seq<Submission>) {
    && (forall k :: 0 <= k < |input| ==> Known(rules, input[k].rule))
    && (forall j :: 0 <= j < |rules| ==> Meets(rules[j], input))
  }

  /** The step waits, every earlier one is done, its photos are there, and its values are accepted. */
  ghost predicate Submittable(s: State, i: nat, input: seq<Submission>) {
    && s.job.status in {InProgress, Reopened}
    && s.checklist.Some? && i < |s.steps| && i < |s.checklist.value.defs|
    && s.steps[i].status == Pending
    && (forall j :: 0 <= j < i ==> s.steps[j].status in {StepCompleted, Approved})
    && |ReadyIds(s.photos, i, s.steps[i].attempt)| >= s.checklist.value.defs[i].requiredPhotos
    && ValuesAccepted(s.checklist.value.defs[i].rules, input)
  }

  lemma ValuesAcceptedIs(rules: seq<Rule>, input: seq<Submission>, i: nat, a: nat)
    ensures ValuesAccepted(rules, input) <==> RulesKnown(rules, input) && RulesMet(rules, input) && RowsFit(RowsFor(rules, input, i, a))
  {
    var rows := RowsFor(rules, input, i, a);
    RowsForAre(rules, input, i, a);
    forall j | 0 <= j < |rules| ensures Meets(rules[j], input) <==>
      !RuleViolated(rules[j], input)
      && (SubmittedValue(input, rules[j].id).Some? ==> FitsColumn(ColumnThousandths(SubmittedValue(input, rules[j].id).value.value)))
    {
      MeetsIs(rules[j], input);
    }
    if RowsFit(rows) {
      forall j | 0 <= j < |rules| && SubmittedValue(input, rules[j].id).Some?
        ensures FitsColumn(ColumnThousandths(SubmittedValue(input, rules[j].id).value.value))
      {
        var m := ValueRow(i, a, rules[j], SubmittedValue(input, rules[j].id).value);
        var p :| 0 <= p < |rows| && rows[p] == m;
      }
    }
    if ValuesAccepted(rules, input) {
      forall p | 0 <= p < |rows| ensures FitsColumn(rows[p].value) {
        assert rows[p] in rows;
      }
    }
    assert RulesKnown(rules, input) <==> forall k :: 0 <= k < |input| ==> Known(rules, input[k].rule) by {
      forall k | 0 <= k < |input| ensures Known(rules, input[k].rule) <==> KnownRule(rules, input[k].rule) {}
    }
  }

  /** A submission is accepted exactly if the rows allow it. */
  lemma AcceptedExactly(s: State, i: nat, input: seq<Submission>)
    ensures CompleteStep(s, i, input).Ok? <==> Submittable(s, i, input)
  {
    if s.checklist.Some? && i < |s.steps| && i < |s.checklist.value.defs| {
      CountIsReady(s.photos, i, s.steps[i].attempt);
      ValuesAcceptedIs(s.checklist.value.defs[i].rules, input, i, s.steps[i].attempt);
      assert EarlierDone(s.steps, i) <==> forall j :: 0 <= j < i ==> s.steps[j].status in {StepCompleted, Approved};
    }
  }

  // ---------------------------------------------------------------- closing

  /** Row p holds the stored value of a rule: the last one for its step, rule and attempt. */
  ghost predicate HoldsValue(ms: seq<Measurement>, i: nat, id: nat, a: nat, p: nat) {
    && p < |ms| && ms[p].step == i && ms[p].rule == id && ms[p].attempt == a
    && forall q :: p < q < |ms| ==> !(ms[q].step == i && ms[q].rule == id && ms[q].attempt == a)
  }

  ghost predicate ValueInRange(ms: seq<Measurement>, i: nat, r: Rule, a: nat) {
    exists p: nat :: HoldsValue(ms, i, r.id, a, p) && Within(r, ms[p].value)
  }

  /** The attempt the gate judges a finished step by: the current one of a STOP step, the first of any other. */
  ghost function JudgedAttempt(s: State, i: nat): nat
    requires s.checklist.Some? && i < |s.checklist.value.defs| && i < |s.steps|
  {
    if s.checklist.value.defs[i].isStop then s.steps[i].attempt else 1
  }

  ghost predicate StepCloses(s: State, i: nat)
    requires s.checklist.Some? && i < |s.checklist.value.defs| && i < |s.steps|
  {
    var d, a := s.checklist.value.defs[i], JudgedAttempt(s, i);
    && s.steps[i].status in {StepCompleted, Approved}
    && |ReadyIds(s.photos, i, a)| >= d.requiredPhotos
    && forall j :: 0 <= j < |d.rules| && d.rules[j].required ==> ValueInRange(s.measurements, i, d.rules[j], a)
  }

  /** Signature k is READY, not superseded, of the current cycle and over the summary of the rows. */
  ghost predicate Signs(h: Digester, s: State, k: nat)
    requires ChecklistShape(s.checklist, s.steps)
  {
    && k < |s.signatures| && s.signatures[k].status == Ready && !s.signatures[k].superseded
    && s.signatures[k].cycle == s.job.cycle && s.signatures[k].summaryDigest == h(Material(s))
  }

  /** Nothing stands against closing: every step passes, no risk is open, the risk policy is approved
      and the customer has signed what is on record. */
  ghost predicate Closes(h: Digester, s: State) {
    && s.checklist.Some? && |s.steps| == |s.checklist.value.defs| && s.steps != []
    && (forall i: nat :: i < |s.steps| ==> StepCloses(s, i))
    && s.openRisks == [] && s.policyApproved
    && exists k: nat :: Signs(h, s, k)
  }

  lemma {:induction false} StoredHolds(ms: seq<Measurement>, i: nat, id: nat, a: nat)
    ensures var row := StoredRow(ms, i, id, a);
      if row.Some? then exists p: nat :: HoldsValue(ms, i, id, a, p) && ms[p] == row.value
      else forall p: nat :: !HoldsValue(ms, i, id, a, p)
  {
    if ms != [] {
      var n := |ms| - 1;
      StoredHolds(ms[..n], i, id, a);
      if ms[n].step == i && ms[n].rule == id && ms[n].attempt == a {
        assert HoldsValue(ms, i, id, a, n);
      } else {
        forall p: nat ensures HoldsValue(ms, i, id, a, p) <==> HoldsValue(ms[..n], i, id, a, p) {}
      }
    }
  }

  lemma OneHolds(ms: seq<Measurement>, i: nat, id: nat, a: nat, p: nat, q: nat)
    requires HoldsValue(ms, i, id, a, p) && HoldsValue(ms, i, id, a, q)
    ensures p == q
  {
  }

  lemma ValueInRangeIs(ms: seq<Measurement>, i: nat, r: Rule, a: nat)
    ensures var row := StoredRow(ms, i, r.id, a);
      ValueInRange(ms, i, r, a) <==> row.Some? && InRange(r, row.value.value)
  {
    StoredHolds(ms, i, r.id, a);
    var row := StoredRow(ms, i, r.id, a);
    if row.Some? {
      var p: nat :| HoldsValue(ms, i, r.id, a, p) && ms[p] == row.value;
      if ValueInRange(ms, i, r, a) {
        var q: nat :| HoldsValue(ms, i, r.id, a, q) && Within(r, ms[q].value);
        OneHolds(ms, i, r.id, a, p, q);
      }
    }
  }

  lemma StepClosesIs(h: Digester, s: State, i: nat)
    requires Inv(h, s) && s.checklist.Some? && i < |s.steps| && StepDone(s.steps[i].status)
    ensures StepCloses(s, i) <==> StepPhotosOk(s, i) && StepMeasurementsOk(s, i)
  {
    RelevantOfInv(h, s, i);
    var d, a := s.checklist.value.defs[i], JudgedAttempt(s, i);
    assert RelevantAttempt(s.approvals, i) == a;
    CountIsReady(s.photos, i, a);
    forall j | 0 <= j < |d.rules| ensures RuleOk(s, i, d.rules[j]) <==> (d.rules[j].required ==> ValueInRange(s.measurements, i, d.rules[j], a)) {
      ValueInRangeIs(s.measurements, i, d.rules[j], a);
    }
  }

  lemma SignsIs(h: Digester, s: State)
    requires Inv(h, s)
    ensures (exists k: nat :: Signs(h, s, k)) <==> Signed(s) && SignatureFresh(h, s)
  {
    var g := LatestReady(s.signatures, s.job.cycle);
    if g.Some? && SignatureFresh(h, s) {
      assert Signs(h, s, g.value);
    }
    if k: nat :| Signs(h, s, k) {
      assert ReadySignature(s.signatures[k]) && g.Some?;
      assert ActiveSignature(s.signatures[k]) && ActiveSignature(s.signatures[g.value]);
      assert k == g.value;
    }
  }

  lemma GateIs(h: Digester, s: State)
    requires Inv(h, s)
    ensures CanComplete(s) <==>
      && s.checklist.Some? && AllDone(s.steps) && (forall i: nat :: i < |s.steps| ==> StepCloses(s, i))
      && s.openRisks == [] && Signed(s)
  {
    if s.checklist.Some? {
      if AllDone(s.steps) {
        forall i: nat | i < |s.steps| ensures StepCloses(s, i) <==> StepPhotosOk(s, i) && StepMeasurementsOk(s, i) {
          StepClosesIs(h, s, i);
        }
      } else if CanComplete(s) {
        CompleteMeansDone(h, s);
      }
    }
  }

  /** The closing transactions refuse nothing exactly if the rows allow to close. */
  lemma ClosesExactly(h: Digester, s: State)
    requires Inv(h, s)
    ensures ClosingError(h, s).None? <==> Closes(h, s)
  {
    GateIs(h, s);
    SignsIs(h, s);
    if Closes(h, s) {
      forall i | 0 <= i < |s.steps| ensures StepDone(s.steps[i].status) {
        assert StepCloses(s, i);
      }
    }
  }

  // ---------------------------------------------------------------- what a summary says of the rows

  /** a is the highest attempt with a STOP approval for the step, 1 if there is none. */
  ghost predicate NewestAttempt(aps: seq<Approval>, i: nat, a: nat) {
    && (forall k :: 0 <= k < |aps| && aps[k].step == i ==> aps[k].attempt <= a)
    && (a == 1 || exists k :: 0 <= k < |aps| && aps[k].step == i && aps[k].attempt == a)
  }

  /** The READY photos of the attempt, by id, each with its hash and size. */
  ghost predicate EvidenceListed(ps: seq<Photo>, i: nat, a: nat, es: seq<Evidence>) {
    && (forall k, l :: 0 <= k < l < |es| ==> es[k].photoId < es[l].photoId)
    && forall e :: e in es <==>
         e.photoId in ReadyIds(ps, i, a) && e.sha256 == ps[e.photoId].hash && e.size == ps[e.photoId].size
  }

  /** The values stored for the attempt, ordered by rule. */
  ghost predicate ValuesListed(ms: seq<Measurement>, i: nat, a: nat, vs: seq<MeasuredValue>) {
    ByRule(vs) && multiset(vs) == ValuesOf(ms, i, a)
  }

  ghost predicate StepDescribed(s: State, i: nat, x: StepSummary)
    requires s.checklist.Some? && i < |s.checklist.value.defs| && i < |s.steps|
  {
    var d := s.checklist.value.defs[i];
    && x.stepId == d.stepId && x.jobStep == i && x.name == d.name && x.isStop == d.isStop
    && x.requiredPhotos == d.requiredPhotos && x.status == s.steps[i].status
    && NewestAttempt(s.approvals, i, x.attempt)
    && EvidenceListed(s.photos, i, x.attempt, x.evidence)
    && ValuesListed(s.measurements, i, x.attempt, x.measurements)
  }

  /** Everything the summary says is what the rows say. */
  ghost predicate Describes(m: Summary, s: State) {
    && m.jobId == s.job.id && m.cycle == s.job.cycle && m.branchId == s.job.branchId && m.technician == s.job.technician
    && m.installation == s.job.installation && m.customer == s.customer && m.vehicle == s.vehicle
    && m.openRisks == s.openRisks
    && ByStep(m.stops) && multiset(m.stops) == multiset(s.approvals)
    && |m.steps| == |s.steps|
    && if s.checklist.None? then m.templateId.None? && m.version.None? && m.steps == []
       else
         && m.templateId == Some(s.checklist.value.templateId) && m.version == Some(s.checklist.value.version)
         && |s.checklist.value.defs| == |s.steps| && forall i: nat :: i < |s.steps| ==> StepDescribed(s, i, m.steps[i])
  }

  /** In a summary of reachable rows a done STOP step shows its current attempt, any other kind of step
      its first. */
  ghost predicate AttemptsJudged(m: Summary, s: State) {
    && |m.steps| == |s.steps|
    && (s.checklist.Some? ==> |s.checklist.value.defs| == |s.steps|)
    && (s.checklist.Some? ==> forall i: nat :: i < |s.steps| ==>
         if s.checklist.value.defs[i].isStop
         then s.steps[i].status in {StepCompleted, Approved} ==> m.steps[i].attempt == s.steps[i].attempt
         else m.steps[i].attempt == 1)
  }

  lemma NewestIs(aps: seq<Approval>, i: nat)
    requires forall k :: 0 <= k < |aps| ==> aps[k].attempt >= 1
    ensures NewestAttempt(aps, i, RelevantAttempt(aps, i))
  {
    var r := LatestAttempt(aps, i);
  }

  lemma EvidenceIsListed(ps: seq<Photo>, i: nat, a: nat)
    ensures EvidenceListed(ps, i, a, EvidenceOf(ps, i, a))
  {
    EvidenceIs(ps, i, a);
  }

  lemma StepIsDescribed(s: State, i: nat)
    requires s.checklist.Some? && i < |s.checklist.value.defs| && i < |s.steps|
    requires forall k :: 0 <= k < |s.approvals| ==> s.approvals[k].attempt >= 1
    ensures StepDescribed(s, i, StepSummaryOf(s, i))
  {
    var a := RelevantAttempt(s.approvals, i);
    NewestIs(s.approvals, i);
    EvidenceIsListed(s.photos, i, a);
    MeasuredIs(s.measurements, i, a);
  }

  /** The collected material describes the rows. */
  lemma MaterialDescribes(s: State)
    requires ChecklistShape(s.checklist, s.steps)
    requires forall k :: 0 <= k < |s.approvals| ==> s.approvals[k].attempt >= 1
    ensures Describes(Material(s), s)
  {
    StopsAre(s.approvals);
    if s.checklist.Some? {
      StepSummariesAt(s, |s.steps|);
      forall i: nat | i < |s.steps| ensures StepDescribed(s, i, Material(s).steps[i]) {
        StepIsDescribed(s, i);
      }
    }
  }

  lemma AttemptsShown(s: State, i: nat)
    requires ChecklistShape(s.checklist, s.steps) && i < |s.steps|
    ensures i < |Material(s).steps| == |s.steps| && Material(s).steps[i].attempt == RelevantAttempt(s.approvals, i)
  {
    StepSummariesAt(s, |s.steps|);
  }

  lemma MaterialJudges(h: Digester, s: State)
    requires Inv(h, s)
    ensures AttemptsJudged(Material(s), s)
  {
    forall i: nat | i < |s.steps|
      ensures |Material(s).steps| == |s.steps|
      ensures !s.checklist.value.defs[i].isStop ==> Material(s).steps[i].attempt == 1
      ensures s.checklist.value.defs[i].isStop && StepDone(s.steps[i].status) ==> Material(s).steps[i].attempt == s.steps[i].attempt
    {
      AttemptsShown(s, i);
      RelevantOfInv(h, s, i);
    }
  }

  /** The summary the customer signs and the snapshot freezes describes the rows of every reachable state. */
  lemma SummaryIsTrue(h: Digester, s: State)
    requires Reachable(h, s)
    ensures ChecklistShape(s.checklist, s.steps)
    ensures Describes(Material(s), s) && AttemptsJudged(Material(s), s)
  {
    StepsAreShaped(h, s);
    MaterialDescribes(s);
    assert AttemptsJudged(Material(s), s) by {
      ReachableInv(h, s);
      MaterialJudges(h, s);
    }
  }
}
