/** When a finished checklist passes the completion gate, and what can still stop it. */
module WorkflowGate {
  import opened Prelude
  import opened Text
  import opened JobCycle
  import opened JobModel
  import opened Summaries
  import opened Workflow
  import opened WorkflowFrame
  import opened WorkflowInv
  import opened WorkflowEvidence
  import opened WorkflowTheorems

  // ---------------------------------------------------------------- two roundings of one value

  /** The accepted thousandths are the minimum and the column holds one less, or they are the maximum
      and the column holds one more. */
  predicate RoundedOut(r: Rule, accepted: int, stored: int) {
    (r.min == Some(accepted) && stored == accepted - 1) || (r.max == Some(accepted) && stored == accepted + 1)
  }

  /** A value accepted at submission is out of range when read back from its column exactly if one of
      its two roundings is on a bound and the other just beyond it. */
  lemma AcceptedValueReadsBack(r: Rule, x: Submission)
    requires InRange(r, ToThousandths(x.product)) && FitsColumn(ColumnThousandths(x.value))
    ensures InRange(r, ColumnThousandths(x.value)) <==> !RoundedOut(r, ToThousandths(x.product), ColumnThousandths(x.value))
  {
    RoundingsAlike(x, Measurement(0, 0, 0, x.value, ToThousandths(x.product), ColumnThousandths(x.value)));
  }

  /** A value clear of ties always reads back as it was accepted. */
  lemma ClearValueReadsBack(x: Submission)
    requires ClearOfTies(x.value) && FitsColumn(ColumnThousandths(x.value))
    ensures ColumnThousandths(x.value) == ToThousandths(x.product)
  {
    RoundingsAlike(x, Measurement(0, 0, 0, x.value, ToThousandths(x.product), ColumnThousandths(x.value)));
  }

  /** Whole thousandths are clear of ties. So a column, whose value is t thousandths, is read back by
      the gate as t whatever the double product is, and the model compares columns directly. */
  lemma WholeThousandthsAreExact(t: int, x: Submission)
    requires x.value == t as real / 1000.0
    ensures ClearOfTies(x.value) && ColumnThousandths(x.value) == t
    ensures FitsColumn(t) ==> ToThousandths(x.product) == t
  {
    assert x.value * 1000.0 == t as real;
    if FitsColumn(t) {
      ClearValueReadsBack(x);
    }
  }

  /** The value the gate reads for a required rule was rounded out of its range. */
  predicate RoundingGap(s: State, i: nat, r: Rule) {
    var row := StoredRow(s.measurements, i, r.id, RelevantAttempt(s.approvals, i));
    r.required && row.Some? && RoundedOut(r, row.value.accepted, row.value.value)
  }

  ghost predicate StepHasGap(s: State, i: nat)
    requires s.checklist.Some? && i < |s.checklist.value.defs|
  {
    exists k :: 0 <= k < |s.checklist.value.defs[i].rules| && RoundingGap(s, i, s.checklist.value.defs[i].rules[k])
  }

  /** With step i submitted on the relevant attempt, the gate's measurement test of the step fails
      exactly on a rounding gap. */
  lemma StepMeasurementGate(h: Digester, s: State, i: nat)
    requires Inv(h, s) && s.checklist.Some? && i < |s.steps|
    requires Submitted(s.steps, i, RelevantAttempt(s.approvals, i))
    ensures StepMeasurementsOk(s, i) <==> !StepHasGap(s, i)
  {
    var a := RelevantAttempt(s.approvals, i);
    var d := Defs(s.checklist)[i];
    assert AttemptOk(d, s.measurements, s.photos, i, a);
    forall k | 0 <= k < |d.rules| ensures RuleOk(s, i, d.rules[k]) <==> !RoundingGap(s, i, d.rules[k]) {
      if d.rules[k].required {
        RuleGate(h, s, i, d.rules[k]);
      }
    }
  }

  lemma RuleGate(h: Digester, s: State, i: nat, r: Rule)
    requires Inv(h, s) && r.required && RuleWasMet(r, s.measurements, i, RelevantAttempt(s.approvals, i))
    ensures RuleOk(s, i, r) <==> !RoundingGap(s, i, r)
  {
    var a := RelevantAttempt(s.approvals, i);
    var row := StoredRow(s.measurements, i, r.id, a);
    StoredRowIsRow(s.measurements, i, r.id, a);
    assert RoundedAlike(row.value);
  }

  // ---------------------------------------------------------------- photos

  /** Accepted once and marked FAILED since. */
  function IsLost(step: nat, attempt: nat): Photo -> bool {
    (x: Photo) => x.step == step && x.attempt == attempt && x.readyAt.Some? && x.status == Failed
  }

  /** Every accepted photo is still READY or was lost. */
  lemma {:induction false} AcceptedIsReadyOrLost(steps: seq<StepRow>, ps: seq<Photo>, i: nat, a: nat)
    requires forall k :: 0 <= k < |ps| ==> PhotoRow(steps, ps[k])
    ensures Count(ps, WasReady(i, a)) == Count(ps, IsReady(i, a)) + Count(ps, IsLost(i, a))
  {
    if ps != [] {
      var n := |ps| - 1;
      forall k | 0 <= k < n ensures PhotoRow(steps, ps[..n][k]) { assert PhotoRow(steps, ps[k]); }
      AcceptedIsReadyOrLost(steps, ps[..n], i, a);
      assert PhotoRow(steps, ps[n]);
    }
  }

  /** More accepted photos of the attempt the gate looks at are lost than the attempt had to spare. */
  predicate TooManyLost(s: State, i: nat)
    requires s.checklist.Some? && i < |s.checklist.value.defs|
  {
    var a := RelevantAttempt(s.approvals, i);
    Count(s.photos, IsLost(i, a)) > Count(s.photos, WasReady(i, a)) - s.checklist.value.defs[i].requiredPhotos
  }

  /** With step i submitted on the relevant attempt, enough photos were accepted, and the gate's photo
      test of the step fails exactly if too many of them were lost since. */
  lemma StepPhotoGate(h: Digester, s: State, i: nat)
    requires Inv(h, s) && s.checklist.Some? && i < |s.steps|
    requires Submitted(s.steps, i, RelevantAttempt(s.approvals, i))
    ensures Count(s.photos, WasReady(i, RelevantAttempt(s.approvals, i))) >= s.checklist.value.defs[i].requiredPhotos
    ensures StepPhotosOk(s, i) <==> !TooManyLost(s, i)
  {
    var a := RelevantAttempt(s.approvals, i);
    assert AttemptOk(Defs(s.checklist)[i], s.measurements, s.photos, i, a);
    AcceptedIsReadyOrLost(s.steps, s.photos, i, a);
  }

  // ---------------------------------------------------------------- the gate

  lemma FinishedCanComplete(s: State)
    requires s.checklist.Some? && AllDone(s.steps)
    ensures CanComplete(s) <==> PhotosOk(s) && MeasurementsOk(s) && s.openRisks == [] && Signed(s)
  {
  }

  /** A finished checklist passes the photo test exactly when no step lost more accepted photos than it
      had to spare, and the measurement test exactly when no value of a relevant attempt was rounded
      out of its range. So it can only be refused for risks, the signature, lost evidence or that rounding. */
  lemma FinishedChecklistGate(h: Digester, s: State)
    requires Reachable(h, s) && s.checklist.Some? && AllDone(s.steps)
    ensures |s.checklist.value.defs| == |s.steps|
    ensures PhotosOk(s) <==> forall i: nat :: i < |s.steps| ==> !TooManyLost(s, i)
    ensures MeasurementsOk(s) <==> forall i: nat :: i < |s.steps| ==> !StepHasGap(s, i)
    ensures CanComplete(s) <==> PhotosOk(s) && MeasurementsOk(s) && s.openRisks == [] && Signed(s)
  {
    ReachableInv(h, s);
    FinishedCanComplete(s);
    forall i: nat | i < |s.steps|
      ensures StepPhotosOk(s, i) <==> !TooManyLost(s, i)
      ensures StepMeasurementsOk(s, i) <==> !StepHasGap(s, i)
    {
      RelevantOfInv(h, s, i);
      StepPhotoGate(h, s, i);
      StepMeasurementGate(h, s, i);
    }
  }

  predicate ClearInput(input: seq<Submission>) {
    forall l :: 0 <= l < |input| ==> ClearOfTies(input[l].value)
  }

  /** Every submitted value of the run is clear of ties. */
  predicate ClearRun(events: seq<Event>) {
    forall k :: 0 <= k < |events| && events[k].EvComplete? ==> ClearInput(events[k].input)
  }

  predicate ClearRows(ms: seq<Measurement>) {
    forall k :: 0 <= k < |ms| ==> ClearOfTies(ms[k].submitted)
  }

  lemma {:induction false} ClearRowsFor(rules: seq<Rule>, input: seq<Submission>, i: nat, a: nat)
    requires ClearInput(input)
    ensures ClearRows(RowsFor(rules, input, i, a))
  {
    if rules != [] {
      ClearRowsFor(rules[..|rules| - 1], input, i, a);
      SubmittedIsInput(input, rules[|rules| - 1].id);
    }
  }

  lemma {:induction false} SubmittedIsInput(input: seq<Submission>, rule: nat)
    ensures SubmittedValue(input, rule).Some? ==> SubmittedValue(input, rule).value in input
  {
    if input != [] {
      SubmittedIsInput(input[..|input| - 1], rule);
    }
  }

  lemma {:induction false} ClearRunRows(h: Digester, s: State, events: seq<Event>)
    requires ClearRun(events) && ClearRows(s.measurements)
    ensures ClearRows(Run(h, s, events).measurements)
    decreases |events|
  {
    if events != [] {
      var e := events[0];
      if e.EvComplete? {
        ClearStep(s, e.step, e.input);
      } else {
        Frames(h, s, e);
      }
      assert forall k :: 0 <= k < |events[1..]| ==> events[1..][k] == events[k + 1];
      ClearRunRows(h, Step(h, s, e), events[1..]);
    }
  }

  lemma ClearStep(s: State, i: nat, input: seq<Submission>)
    requires ClearRows(s.measurements) && ClearInput(input)
    ensures CompleteStep(s, i, input).Ok? ==> ClearRows(CompleteStep(s, i, input).value.measurements)
  {
    if CompleteStep(s, i, input).Ok? {
      ClearRowsFor(s.checklist.value.defs[i].rules, input, i, s.steps[i].attempt);
    }
  }

  /** In every run whose submitted values are clear of ties, as all decimals of at most three places
      are, the measurement test of a finished checklist passes. */
  lemma MeasurementsAlwaysPass(h: Digester, start: State, events: seq<Event>)
    requires IsNewJob(start) && ClearRun(events)
    requires var s := Run(h, start, events); s.checklist.Some? && AllDone(s.steps)
    ensures MeasurementsOk(Run(h, start, events))
  {
    var s := Run(h, start, events);
    FinishedChecklistGate(h, s);
    ReachableInv(h, s);
    ClearRunRows(h, start, events);
    forall i: nat | i < |s.steps| ensures !StepHasGap(s, i) {
      if k :| 0 <= k < |s.checklist.value.defs[i].rules| && RoundingGap(s, i, s.checklist.value.defs[i].rules[k]) {
        ClearRowHasNoGap(h, s, i, s.checklist.value.defs[i].rules[k]);
      }
    }
  }

  lemma ClearRowHasNoGap(h: Digester, s: State, i: nat, r: Rule)
    requires Inv(h, s) && ClearRows(s.measurements)
    ensures !RoundingGap(s, i, r)
  {
    var a := RelevantAttempt(s.approvals, i);
    StoredRowIsRow(s.measurements, i, r.id, a);
    var row := StoredRow(s.measurements, i, r.id, a);
    assert row.Some? ==> RoundedAlike(row.value);
  }

  lemma SubmittedFits(h: Digester, s: State)
    requires Inv(h, s)
    ensures forall i: nat, a: nat :: Submitted(s.steps, i, a) ==> Defs(s.checklist)[i].requiredPhotos <= MAX_PHOTOS_PER_ATTEMPT
  {
    forall i: nat, a: nat | Submitted(s.steps, i, a)
      ensures Defs(s.checklist)[i].requiredPhotos <= MAX_PHOTOS_PER_ATTEMPT
    {
      assert AttemptOk(Defs(s.checklist)[i], s.measurements, s.photos, i, a);
    }
  }

  /** A step that demands more photos than one attempt may hold is never submitted, so its job never
      gets to quality review or completion. */
  lemma TooManyRequiredPhotos(h: Digester, s: State, i: nat)
    requires Reachable(h, s) && s.checklist.Some? && i < |s.checklist.value.defs|
    requires s.checklist.value.defs[i].requiredPhotos > MAX_PHOTOS_PER_ATTEMPT
    ensures i < |s.steps| && s.steps[i] == StepRow(Pending, 1)
    ensures s.job.status != QualityReview && s.job.status != Completed
  {
    ReachableInv(h, s);
    SubmittedFits(h, s);
    assert !Submitted(s.steps, i, 1);
  }

  // ---------------------------------------------------------------- the rounding gap is real

  /** An ordinary step with one rule and no photos. */
  function OneRule(r: Rule): StepDef {
    StepDef(3, "Leak test", false, 0, [r])
  }

  /** A started job whose one step has the one rule. */
  function Started(start: State, r: Rule): State {
    start.(policyApproved := true,
           checklist := Some(Checklist(1, 1, [OneRule(r)], None)),
           steps := [StepRow(Pending, 1)],
           job := start.job.(status := InProgress))
  }

  function OneValue(r: Rule, x: Submission): seq<Event> {
    [EvPolicy(true), EvAssign(Some(Published(1, 1, [OneRule(r)]))), EvStart, EvComplete(0, [x])]
  }

  lemma RunCons(h: Digester, s: State, e: Event, events: seq<Event>)
    ensures Run(h, s, [e] + events) == Run(h, Step(h, s, e), events)
  {
    assert ([e] + events)[1..] == events;
  }

  lemma StartedSteps(h: Digester, start: State, r: Rule)
    requires IsNewJob(start)
    ensures var s1 := Step(h, start, EvPolicy(true));
      Step(h, Step(h, s1, EvAssign(Some(Published(1, 1, [OneRule(r)])))), EvStart) == Started(start, r)
  {
    assert seq(|[OneRule(r)]|, _ => StepRow(Pending, 1)) == [StepRow(Pending, 1)];
  }

  lemma RunFour(h: Digester, s: State, e0: Event, e1: Event, e2: Event, e3: Event)
    ensures Run(h, s, [e0, e1, e2, e3]) == Step(h, Step(h, Step(h, Step(h, s, e0), e1), e2), e3)
  {
    var s1 := Step(h, s, e0);
    var s2 := Step(h, s1, e1);
    var s3 := Step(h, s2, e2);
    assert [e0, e1, e2, e3] == [e0] + [e1, e2, e3] && [e1, e2, e3] == [e1] + [e2, e3] && [e2, e3] == [e2] + [e3] && [e3] == [e3] + [];
    RunCons(h, s, e0, [e1, e2, e3]);
    RunCons(h, s1, e1, [e2, e3]);
    RunCons(h, s2, e2, [e3]);
    RunCons(h, s3, e3, []);
  }

  lemma OneValueRun(h: Digester, start: State, r: Rule, x: Submission)
    requires IsNewJob(start)
    ensures Run(h, start, OneValue(r, x)) == Step(h, Started(start, r), EvComplete(0, [x]))
  {
    RunFour(h, start, EvPolicy(true), EvAssign(Some(Published(1, 1, [OneRule(r)]))), EvStart, EvComplete(0, [x]));
    StartedSteps(h, start, r);
  }

  lemma OneValueAccepted(start: State, r: Rule, x: Submission)
    requires IsNewJob(start) && x.rule == r.id
    requires InRange(r, ToThousandths(x.product)) && FitsColumn(ColumnThousandths(x.value))
    ensures var t := CompleteStep(Started(start, r), 0, [x]);
      && t.Ok? && AllDone(t.value.steps) && t.value.checklist.Some? && t.value.checklist.value.defs == [OneRule(r)]
      && t.value.approvals == []
      && t.value.measurements == [Measurement(0, r.id, 1, x.value, ToThousandths(x.product), ColumnThousandths(x.value))]
  {
    var s, row := Started(start, r), Measurement(0, r.id, 1, x.value, ToThousandths(x.product), ColumnThousandths(x.value));
    assert SubmittedValue([x], r.id) == Some(x);
    assert [r][..0] == [];
    assert RowsFor([r], [x], 0, 1) == [row];
    assert KnownRule([r], r.id) by { assert [r][0].id == r.id; }
    assert RulesKnown([r], [x]);
    assert RulesMet([r], [x]);
  }

  /** Any value the check accepts for a required rule, and whose column can hold it, finishes this
      checklist; the gate then passes the checklist exactly if the value was not rounded out. */
  lemma OneValueGate(h: Digester, start: State, r: Rule, x: Submission)
    requires IsNewJob(start) && r.required && x.rule == r.id
    requires InRange(r, ToThousandths(x.product)) && FitsColumn(ColumnThousandths(x.value))
    ensures var s := Run(h, start, OneValue(r, x));
      && s.checklist.Some? && AllDone(s.steps)
      && (MeasurementsOk(s) <==> !RoundedOut(r, ToThousandths(x.product), ColumnThousandths(x.value)))
      && (RoundedOut(r, ToThousandths(x.product), ColumnThousandths(x.value)) ==> !CanComplete(s))
  {
    OneValueRun(h, start, r, x);
    OneValueAccepted(start, r, x);
    AcceptedValueReadsBack(r, x);
    var s := Run(h, start, OneValue(r, x));
    var row := Measurement(0, r.id, 1, x.value, ToThousandths(x.product), ColumnThousandths(x.value));
    assert StoredRow(s.measurements, 0, r.id, 1) == Some(row);
    assert s.checklist.value.defs[0].rules[0] == r;
    assert RuleOk(s, 0, r) <==> InRange(r, row.value);
    assert StepMeasurementsOk(s, 0) <==> RuleOk(s, 0, r);
  }

  /** -0.0005 is accepted against a minimum of zero and stored as -0.001. 4.0005, whose double product
      is 4000.4999999999995, is accepted against a maximum of 4 and stored as 4.001. Both finish a
      checklist that the gate then refuses. */
  lemma TieBlocksCompletion(h: Digester, start: State)
    requires IsNewJob(start)
    ensures var s := Run(h, start, OneValue(Rule(7, true, Some(0), None), RequestValue(7, -0.0005, -0.5)));
      s.checklist.Some? && AllDone(s.steps) && !CanComplete(s)
    ensures var s := Run(h, start, OneValue(Rule(7, true, None, Some(4000)), RequestValue(7, 4.0005, 4000.4999999999995)));
      s.checklist.Some? && AllDone(s.steps) && !CanComplete(s)
  {
    assert -0.0005 * 1000.0 == -0.5 && 0.0005 * 1000.0 + 0.5 == 1.0 && (1.0).Floor == 1;
    assert ToThousandths(-0.5) == 0 && ColumnThousandths(-0.0005) == -1;
    OneValueGate(h, start, Rule(7, true, Some(0), None), RequestValue(7, -0.0005, -0.5));
    assert 4.0005 * 1000.0 == 4000.5 && (4001.0).Floor == 4001;
    assert ToThousandths(4000.4999999999995) == 4000 && ColumnThousandths(4.0005) == 4001;
    OneValueGate(h, start, Rule(7, true, None, Some(4000)), RequestValue(7, 4.0005, 4000.4999999999995));
  }
}
