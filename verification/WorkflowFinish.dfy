/** Taking a job that is being worked on to the end: every step finished, signed and closed. */
module WorkflowFinish {
  import opened Prelude
  import opened Text
  import opened JobCycle
  import opened JobModel
  import opened Summaries
  import opened Workflow
  import opened WorkflowInv
  import opened WorkflowEvidence
  import opened WorkflowTheorems
  import opened WorkflowGate
  import opened WorkflowHistory
  import opened WorkflowReview
  import opened WorkflowProgress

  // ---------------------------------------------------------------- rules that can be met

  /** The lowest value in range that fits the column, if any does. */
  function Lowest(r: Rule): int {
    if r.min.Some? && r.min.value > -999_999_999_999 then r.min.value else -999_999_999_999
  }

  predicate HasValue(r: Rule) {
    Lowest(r) <= 999_999_999_999 && (r.max.Some? ==> Lowest(r) <= r.max.value)
  }

  lemma HasValueIs(r: Rule)
    ensures HasValue(r) <==> exists t: int :: InRange(r, t) && FitsColumn(t)
  {
    if HasValue(r) {
      assert InRange(r, Lowest(r)) && FitsColumn(Lowest(r));
    }
  }

  /** A step an attempt of which can pass: no more photos than an attempt may hold, and a value for every required rule. */
  predicate Feasible(d: StepDef) {
    d.requiredPhotos <= MAX_PHOTOS_PER_ATTEMPT && forall k :: 0 <= k < |d.rules| && d.rules[k].required ==> HasValue(d.rules[k])
  }

  /** Rules have ids of their own. */
  predicate DistinctRules(rules: seq<Rule>) {
    forall k, l :: 0 <= k < l < |rules| ==> rules[k].id != rules[l].id
  }

  function Exactly(id: nat, t: int): Submission {
    RequestValue(id, t as real / 1000.0, t as real)
  }

  /** The lowest value for every required rule, nothing for the others. */
  function GoodInput(rules: seq<Rule>): seq<Submission> {
    if rules == [] then []
    else
      var n := |rules| - 1;
      GoodInput(rules[..n]) + if rules[n].required then [Exactly(rules[n].id, Lowest(rules[n]))] else []
  }

  lemma {:induction false} GoodInputFrom(rules: seq<Rule>)
    ensures forall x <- GoodInput(rules) ::
      exists k :: 0 <= k < |rules| && rules[k].required && x == Exactly(rules[k].id, Lowest(rules[k]))
  {
    if rules != [] {
      var n := |rules| - 1;
      GoodInputFrom(rules[..n]);
      forall x <- GoodInput(rules)
        ensures exists k :: 0 <= k < |rules| && rules[k].required && x == Exactly(rules[k].id, Lowest(rules[k]))
      {
        if x in GoodInput(rules[..n]) {
          var k :| 0 <= k < n && rules[..n][k].required && x == Exactly(rules[..n][k].id, Lowest(rules[..n][k]));
          assert rules[k] == rules[..n][k];
        } else {
          assert x == Exactly(rules[n].id, Lowest(rules[n]));
        }
      }
    }
  }

  lemma {:induction false} NothingSubmitted(input: seq<Submission>, id: nat)
    requires forall x <- input :: x.rule != id
    ensures SubmittedValue(input, id).None?
  {
    if input != [] {
      NothingSubmitted(input[..|input| - 1], id);
    }
  }

  lemma {:induction false} GoodInputAt(rules: seq<Rule>, k: nat)
    requires DistinctRules(rules) && k < |rules|
    ensures SubmittedValue(GoodInput(rules), rules[k].id)
      == if rules[k].required then Some(Exactly(rules[k].id, Lowest(rules[k]))) else None
  {
    var n := |rules| - 1;
    var init := GoodInput(rules[..n]);
    GoodInputFrom(rules[..n]);
    if k < n {
      GoodInputAt(rules[..n], k);
    } else if !rules[n].required {
      NothingSubmitted(init, rules[n].id);
    }
    if rules[n].required {
      assert GoodInput(rules)[..|init|] == init;
    } else {
      assert GoodInput(rules) == init;
    }
  }

  lemma {:induction false} RowsForFit(rules: seq<Rule>, input: seq<Submission>, i: nat, a: nat)
    requires forall x <- input :: FitsColumn(ColumnThousandths(x.value))
    ensures RowsFit(RowsFor(rules, input, i, a))
  {
    if rules != [] {
      RowsForFit(rules[..|rules| - 1], input, i, a);
      SubmittedIsInput(input, rules[|rules| - 1].id);
    }
  }

  /** The good input of a feasible step is accepted and stored. */
  lemma GoodInputTaken(d: StepDef, i: nat, a: nat)
    requires Feasible(d) && DistinctRules(d.rules)
    ensures RulesKnown(d.rules, GoodInput(d.rules)) && RulesMet(d.rules, GoodInput(d.rules))
    ensures RowsFit(RowsFor(d.rules, GoodInput(d.rules), i, a))
  {
    var input := GoodInput(d.rules);
    GoodInputFrom(d.rules);
    forall x <- input ensures KnownRule(d.rules, x.rule) && FitsColumn(ColumnThousandths(x.value)) {
      var k :| 0 <= k < |d.rules| && d.rules[k].required && x == Exactly(d.rules[k].id, Lowest(d.rules[k]));
      WholeThousandthsAreExact(Lowest(d.rules[k]), x);
    }
    RowsForFit(d.rules, input, i, a);
    forall k | 0 <= k < |d.rules| ensures !RuleViolated(d.rules[k], input) {
      GoodInputAt(d.rules, k);
      WholeThousandthsAreExact(Lowest(d.rules[k]), Exactly(d.rules[k].id, Lowest(d.rules[k])));
    }
  }

  /** Its stored rows are in range. */
  lemma GoodRows(ms: seq<Measurement>, d: StepDef, i: nat, a: nat, k: nat)
    requires Feasible(d) && DistinctRules(d.rules) && k < |d.rules| && d.rules[k].required
    ensures var row := StoredRow(ms + RowsFor(d.rules, GoodInput(d.rules), i, a), i, d.rules[k].id, a);
      row.Some? && InRange(d.rules[k], row.value.value)
  {
    RowsForStored(ms, d.rules, GoodInput(d.rules), i, a);
    GoodInputAt(d.rules, k);
    WholeThousandthsAreExact(Lowest(d.rules[k]), Exactly(d.rules[k].id, Lowest(d.rules[k])));
  }

  // ---------------------------------------------------------------- changes to one step

  predicate GateOk(s: State, i: nat)
    requires s.checklist.Some? && i < |s.checklist.value.defs|
  {
    StepPhotosOk(s, i) && StepMeasurementsOk(s, i)
  }

  ghost predicate SameRules(s: State, t: State) {
    && s.checklist.Some? && t.checklist.Some? && t.checklist.value.defs == s.checklist.value.defs
    && t.job.cycle == s.job.cycle && |t.steps| == |s.steps| && t.snapshots == s.snapshots
  }

  /** t differs from s only in step j, and there only in attempts from a on. */
  ghost predicate Elsewhere(s: State, t: State, j: nat, a: nat) {
    && SameRules(s, t)
    && (forall k :: 0 <= k < |s.steps| && k != j ==> t.steps[k] == s.steps[k])
    && (forall k: nat, b: nat :: k != j || b < a ==> Count(t.photos, IsReady(k, b)) == Count(s.photos, IsReady(k, b)))
    && (forall k: nat, rule: nat, b: nat :: k != j || b < a ==> StoredRow(t.measurements, k, rule, b) == StoredRow(s.measurements, k, rule, b))
    && (forall k: nat :: k != j ==> LatestAttempt(t.approvals, k) == LatestAttempt(s.approvals, k))
  }

  lemma ElsewhereSelf(s: State, j: nat, a: nat)
    requires s.checklist.Some?
    ensures Elsewhere(s, s, j, a)
  {
  }

  lemma ElsewhereOn(s: State, t: State, u: State, j: nat, a: nat, b: nat)
    requires Elsewhere(s, t, j, a) && Elsewhere(t, u, j, b)
    ensures Elsewhere(s, u, j, if a < b then a else b)
  {
  }

  lemma GateElsewhere(s: State, t: State, j: nat, a: nat, k: nat)
    requires Elsewhere(s, t, j, a) && k < |s.checklist.value.defs|
    requires RelevantAttempt(t.approvals, k) == RelevantAttempt(s.approvals, k)
    requires k != j || RelevantAttempt(s.approvals, k) < a
    ensures GateOk(t, k) <==> GateOk(s, k)
  {
    var rules := s.checklist.value.defs[k].rules;
    forall m | 0 <= m < |rules| ensures RuleOk(t, k, rules[m]) <==> RuleOk(s, k, rules[m]) {}
  }

  lemma LatestAppend(aps: seq<Approval>, x: Approval, k: nat)
    requires x.step != k
    ensures LatestAttempt(aps + [x], k) == LatestAttempt(aps, k)
  {
    assert (aps + [x])[..|aps|] == aps;
  }

  /** Supplying photos and completing step i touches only its current attempt. */
  lemma CompleteElsewhere(s: State, u: State, i: nat, input: seq<Submission>)
    requires s.checklist.Some? && i < |s.steps| && PhotosAside(s, u) && SameReadyBut(s.photos, u.photos, i, s.steps[i].attempt)
    requires CompleteStep(u, i, input).Ok?
    ensures Elsewhere(s, CompleteStep(u, i, input).value, i, s.steps[i].attempt)
  {
    var t, a := CompleteStep(u, i, input).value, s.steps[i].attempt;
    var rows := RowsFor(s.checklist.value.defs[i].rules, input, i, a);
    RowsForStored([], s.checklist.value.defs[i].rules, input, i, a);
    forall k: nat, rule: nat, b: nat | k != i || b < a
      ensures StoredRow(t.measurements, k, rule, b) == StoredRow(s.measurements, k, rule, b)
    {
      StoredRowAppend(s.measurements, rows, k, rule, b);
    }
    forall k: nat | k != i ensures LatestAttempt(t.approvals, k) == LatestAttempt(s.approvals, k) {
      if t.approvals != s.approvals {
        LatestAppend(s.approvals, Approval(i, a, Undecided), k);
      }
    }
  }

  /** What was submitted with the good input passes the gate on its attempt. */
  ghost predicate AttemptGood(s: State, i: nat, a: nat)
    requires s.checklist.Some? && i < |s.checklist.value.defs|
  {
    var d := s.checklist.value.defs[i];
    && Count(s.photos, IsReady(i, a)) >= d.requiredPhotos
    && forall k :: 0 <= k < |d.rules| && d.rules[k].required ==>
      var row := StoredRow(s.measurements, i, d.rules[k].id, a); row.Some? && InRange(d.rules[k], row.value.value)
  }

  lemma GoodPasses(s: State, i: nat, a: nat)
    requires s.checklist.Some? && i < |s.checklist.value.defs| && AttemptGood(s, i, a) && RelevantAttempt(s.approvals, i) == a
    ensures GateOk(s, i)
  {
    var rules := s.checklist.value.defs[i].rules;
    forall k | 0 <= k < |rules| ensures RuleOk(s, i, rules[k]) {}
  }

  /** A step that is pending and whose turn it is. */
  ghost predicate Ready(h: Digester, s: State, j: nat) {
    && Inv(h, s) && IsWorkable(s.job.status) && s.checklist.Some? && j < |s.steps| && EarlierDone(s.steps, j)
    && Feasible(s.checklist.value.defs[j]) && DistinctRules(s.checklist.value.defs[j].rules)
  }

  lemma SubmitStep(h: Digester, s: State, j: nat, hash: Hex) returns (t: State)
    requires Ready(h, s, j) && s.steps[j].status == Pending
    ensures Leads(h, s, t) && Inv(h, t) && Elsewhere(s, t, j, s.steps[j].attempt)
    ensures AttemptGood(t, j, s.steps[j].attempt)
    ensures var stop := s.checklist.value.defs[j].isStop;
      && t.steps[j] == StepRow(if stop then WaitingApproval else StepCompleted, s.steps[j].attempt)
      && t.job == if stop then s.job.(status := WaitingStopApproval) else s.job
  {
    var d, a := s.checklist.value.defs[j], s.steps[j].attempt;
    var input := GoodInput(d.rules);
    GoodInputTaken(d, j, a);
    var u := Submit(h, s, j, input, 1, hash);
    t := CompleteStep(u, j, input).value;
    LeadsInv(h, s, t);
    CompleteElsewhere(s, u, j, input);
    forall k | 0 <= k < |d.rules| && d.rules[k].required
      ensures var row := StoredRow(t.measurements, j, d.rules[k].id, a); row.Some? && InRange(d.rules[k], row.value.value)
    {
      GoodRows(s.measurements, d, j, a, k);
    }
  }

  lemma ApproveLeads(h: Digester, s: State)
    ensures ApproveStop(s).Ok? ==> Leads(h, s, ApproveStop(s).value)
  {
    LeadsBy(h, s, EvApprove);
  }

  lemma RedoLeads(h: Digester, s: State, i: nat)
    ensures RedoStep(s, i).Ok? ==> Leads(h, s, RedoStep(s, i).value)
  {
    LeadsBy(h, s, EvRedo(i));
  }

  /** Deciding the pending STOP touches its step only. */
  lemma DecideElsewhere(s: State, k: nat, d: Decision, st: StepStatus, t: State)
    requires s.checklist.Some? && k < |s.approvals| && s.approvals[k].step < |s.steps|
    requires SameRules(s, t) && t.photos == s.photos && t.measurements == s.measurements
    requires t.approvals == Decide(s, k, d, st).approvals && t.steps == Decide(s, k, d, st).steps
    ensures forall a: nat :: Elsewhere(s, t, s.approvals[k].step, a)
  {
    forall i: nat ensures LatestAttempt(t.approvals, i) == LatestAttempt(s.approvals, i) {
      LatestSame(s.approvals, t.approvals, i);
    }
  }

  /** The pending STOP is the step that waits. */
  lemma WaitingIsPending(h: Digester, s: State, j: nat)
    requires Inv(h, s) && s.job.status == WaitingStopApproval && j < |s.steps| && s.steps[j].status == WaitingApproval
    ensures LockPendingStop(s).Ok? && s.approvals[LockPendingStop(s).value].step == j
  {
    PendingIsUnique(h, s);
  }

  lemma ApproveStep(h: Digester, s: State, j: nat) returns (t: State)
    requires Inv(h, s) && s.job.status == WaitingStopApproval && s.checklist.Some? && j < |s.steps|
    requires s.steps[j].status == WaitingApproval && AttemptGood(s, j, s.steps[j].attempt)
    ensures Leads(h, s, t) && Inv(h, t) && Elsewhere(s, t, j, 0)
    ensures t.steps[j] == StepRow(Approved, s.steps[j].attempt) && AttemptGood(t, j, s.steps[j].attempt)
    ensures t.job.status == if s.job.cycle > 1 then Reopened else InProgress
  {
    WaitingIsPending(h, s, j);
    WorkingRight(h, s);
    t := ApproveStop(s).value;
    ApproveLeads(h, s);
    LeadsInv(h, s, t);
    DecideElsewhere(s, LockPendingStop(s).value, StopApproved, Approved, t);
  }

  // ---------------------------------------------------------------- finishing every step

  /** No run can get the step past the gate: no attempt can pass; or the gate looks at a submitted attempt
      that fails and, the step being ordinary or approved in the first cycle, at no other ever again. */
  ghost predicate Stuck(s: State, i: nat)
    requires s.checklist.Some? && i < |s.checklist.value.defs| && i < |s.steps|
  {
    var d := s.checklist.value.defs[i];
    || !Feasible(d)
    || (!GateOk(s, i) && if d.isStop then s.steps[i].status == Approved && s.job.cycle == 1 else Submitted(s.steps, i, 1))
  }

  ghost predicate Finished(s: State, i: nat)
    requires s.checklist.Some? && i < |s.checklist.value.defs| && i < |s.steps|
  {
    StepDone(s.steps[i].status) && GateOk(s, i)
  }

  lemma FinishOrdinary(h: Digester, s: State, j: nat, hash: Hex) returns (t: State)
    requires Ready(h, s, j) && s.steps[j].status == Pending && !s.checklist.value.defs[j].isStop && !Stuck(s, j)
    ensures Leads(h, s, t) && Inv(h, t) && Elsewhere(s, t, j, 0) && t.job.status == s.job.status && Finished(t, j)
  {
    var a := s.steps[j].attempt;
    t := SubmitStep(h, s, j, hash);
    RelevantOfInv(h, s, j);
    RelevantOfInv(h, t, j);
    if a == 1 {
      GoodPasses(t, j, 1);
    } else {
      assert Submitted(s.steps, j, 1);
      GateElsewhere(s, t, j, a, j);
    }
  }

  lemma FinishStop(h: Digester, s: State, j: nat, hash: Hex) returns (t: State)
    requires Ready(h, s, j) && s.steps[j].status == Pending && s.checklist.value.defs[j].isStop
    ensures Leads(h, s, t) && Inv(h, t) && Elsewhere(s, t, j, 0) && t.job.status == s.job.status && Finished(t, j)
  {
    var u := SubmitStep(h, s, j, hash);
    t := ApproveStep(h, u, j);
    LeadsOn(h, s, u, t);
    ElsewhereOn(s, u, t, j, s.steps[j].attempt, 0);
    RelevantOfInv(h, t, j);
    GoodPasses(t, j, s.steps[j].attempt);
  }

  lemma RedoElsewhere(h: Digester, s: State, j: nat)
    requires Inv(h, s) && s.job.status == Reopened && s.checklist.Some? && j < |s.steps| && StepDone(s.steps[j].status)
    ensures RedoStep(s, j).Ok?
    ensures var t := RedoStep(s, j).value; Elsewhere(s, t, j, 0) && t.job == s.job && t.steps[j].status == Pending
  {
  }

  lemma FinishStep(h: Digester, s: State, j: nat, hash: Hex) returns (t: State)
    requires Ready(h, s, j) && !Stuck(s, j)
    ensures Leads(h, s, t) && Inv(h, t) && Elsewhere(s, t, j, 0) && t.job.status == s.job.status && Finished(t, j)
  {
    var d := s.checklist.value.defs[j];
    OnlyPendingOrDone(h, s, j);
    if s.steps[j].status == Pending {
      if d.isStop {
        t := FinishStop(h, s, j, hash);
      } else {
        t := FinishOrdinary(h, s, j, hash);
      }
    } else if GateOk(s, j) {
      t := s;
      LeadsSelf(h, s);
      ElsewhereSelf(s, j, 0);
    } else {
      RedoElsewhere(h, s, j);
      var u := RedoStep(s, j).value;
      RedoLeads(h, s, j);
      LeadsInv(h, s, u);
      t := FinishStop(h, u, j, hash);
      LeadsOn(h, s, u, t);
      ElsewhereOn(s, u, t, j, 0, 0);
    }
  }

  /** While the job is workable no step waits or stands rejected; an approved step of a later cycle can be redone. */
  lemma OnlyPendingOrDone(h: Digester, s: State, j: nat)
    requires Inv(h, s) && IsWorkable(s.job.status) && j < |s.steps|
    ensures s.steps[j].status == Pending || StepDone(s.steps[j].status)
    ensures s.job.cycle > 1 ==> s.job.status == Reopened
    ensures StepDone(s.steps[j].status) && !Defs(s.checklist)[j].isStop ==> Submitted(s.steps, j, 1)
    ensures StepDone(s.steps[j].status) && Defs(s.checklist)[j].isStop ==> s.steps[j].status == Approved
  {
    assert s.steps[j].status == WaitingApproval ==> SomeStep(s.steps, WaitingApproval);
    assert s.steps[j].status == StepRejected ==> SomeStep(s.steps, StepRejected);
  }

  /** Nothing about a step changes when another one is finished. */
  lemma StepElsewhere(s: State, t: State, j: nat, k: nat)
    requires Elsewhere(s, t, j, 0) && k != j && k < |s.steps| && k < |s.checklist.value.defs|
    ensures Stuck(t, k) <==> Stuck(s, k)
    ensures Finished(t, k) <==> Finished(s, k)
  {
    GateElsewhere(s, t, j, 0, k);
  }

  /** The first n steps are finished, and no later one is stuck. */
  ghost predicate FinishedUpTo(s: State, n: nat) {
    && s.checklist.Some? && |s.steps| == |s.checklist.value.defs|
    && forall i: nat :: i < |s.steps| ==>
      && DistinctRules(s.checklist.value.defs[i].rules)
      && if i < n then Finished(s, i) else !Stuck(s, i)
  }

  lemma FinishNext(h: Digester, s: State, n: nat, hash: Hex) returns (t: State)
    requires Inv(h, s) && IsWorkable(s.job.status) && FinishedUpTo(s, n) && n < |s.steps|
    ensures Leads(h, s, t) && Inv(h, t) && SameRules(s, t) && t.job.status == s.job.status && FinishedUpTo(t, n + 1)
  {
    assert !Stuck(s, n);
    assert EarlierDone(s.steps, n) by {
      forall k: nat | k < n ensures StepDone(s.steps[k].status) { assert Finished(s, k); }
    }
    t := FinishStep(h, s, n, hash);
    forall i: nat | i < |t.steps| && i != n ensures if i < n then Finished(t, i) else !Stuck(t, i) {
      StepElsewhere(s, t, n, i);
    }
  }

  lemma {:induction false} FinishSteps(h: Digester, s: State, n: nat, hash: Hex) returns (t: State)
    requires Inv(h, s) && IsWorkable(s.job.status) && FinishedUpTo(s, 0) && n <= |s.steps|
    ensures Leads(h, s, t) && Inv(h, t) && SameRules(s, t) && t.job.status == s.job.status && FinishedUpTo(t, n)
  {
    if n == 0 {
      t := s;
      LeadsSelf(h, s);
    } else {
      var u := FinishSteps(h, s, n - 1, hash);
      t := FinishNext(h, u, n - 1, hash);
      LeadsOn(h, s, u, t);
    }
  }
}
