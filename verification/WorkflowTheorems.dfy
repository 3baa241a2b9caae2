/** What holds in every state a job can reach from its creation, whatever happens in between. */
module WorkflowTheorems {
  import opened Prelude
  import opened Text
  import opened JobCycle
  import opened JobModel
  import opened Summaries
  import opened Workflow
  import opened WorkflowInv
  import opened WorkflowEvidence

  predicate IsNewJob(s: State) {
    s == NewJob(s.job.id, s.job.branchId, s.job.technician, s.customer, s.vehicle, s.clock)
  }

  /** Some run of transactions, uploads and outside changes leads from a new job to s. */
  ghost predicate Reachable(h: Digester, s: State) {
    exists start: State, events: seq<Event> :: IsNewJob(start) && s == Run(h, start, events)
  }

  lemma ReachableInv(h: Digester, s: State)
    requires Reachable(h, s)
    ensures Inv(h, s)
  {
    var start: State, events: seq<Event> :| IsNewJob(start) && s == Run(h, start, events);
    NewJobInv(h, start.job.id, start.job.branchId, start.job.technician, start.customer, start.vehicle, start.clock);
    RunKeeps(h, start, events);
  }

  // ---------------------------------------------------------------- attempt ledger

  function ApprovalCount(aps: seq<Approval>, i: nat, a: nat): nat {
    if aps == [] then 0
    else
      var x := aps[|aps| - 1];
      ApprovalCount(aps[..|aps| - 1], i, a) + if x.step == i && x.attempt == a then 1 else 0
  }

  lemma {:induction false} CountIsOne(aps: seq<Approval>, i: nat, a: nat)
    requires forall k, l :: 0 <= k < l < |aps| ==> !(aps[k].step == aps[l].step && aps[k].attempt == aps[l].attempt)
    ensures ApprovalCount(aps, i, a) == if HasApproval(aps, i, a) then 1 else 0
  {
    if aps != [] {
      var n := |aps| - 1;
      CountIsOne(aps[..n], i, a);
      if HasApproval(aps[..n], i, a) {
        var k :| 0 <= k < n && aps[..n][k].step == i && aps[..n][k].attempt == a;
        assert aps[k].step == i && aps[k].attempt == a;
      }
      assert forall k :: 0 <= k < n ==> aps[..n][k] == aps[k];
    }
  }

  /** A STOP step has one approval for every attempt before the current one, decided, and one for the
      current attempt exactly when it is no longer pending, with the matching decision. There are no others. */
  lemma AttemptLedger(h: Digester, s: State, i: nat, a: nat)
    requires Reachable(h, s) && i < |s.steps|
    ensures s.checklist.Some? && i < |s.checklist.value.defs|
    ensures var current := s.steps[i].attempt;
      ApprovalCount(s.approvals, i, a) ==
        if s.checklist.value.defs[i].isStop && (1 <= a < current || (a == current && s.steps[i].status != Pending)) then 1 else 0
    ensures forall k :: 0 <= k < |s.approvals| && s.approvals[k].step == i ==>
      if s.approvals[k].attempt < s.steps[i].attempt then s.approvals[k].decision != Undecided
      else match s.steps[i].status
        case WaitingApproval => s.approvals[k].decision == Undecided
        case Approved => s.approvals[k].decision == StopApproved
        case StepRejected => s.approvals[k].decision == StopRejected
        case _ => false
  {
    ReachableInv(h, s);
    CountIsOne(s.approvals, i, a);
    assert Submitted(s.steps, i, a) && Defs(s.checklist)[i].isStop ==> HasApproval(s.approvals, i, a);
    if HasApproval(s.approvals, i, a) {
      var k :| 0 <= k < |s.approvals| && s.approvals[k].step == i && s.approvals[k].attempt == a;
      assert Submitted(s.steps, s.approvals[k].step, s.approvals[k].attempt);
    }
    forall k | 0 <= k < |s.approvals| && s.approvals[k].step == i ensures Submitted(s.steps, i, s.approvals[k].attempt) {}
  }

  /** The attempt the gate, the object check and the summary look at is the current attempt of a done
      step exactly for STOP steps and for ordinary steps that were never redone. */
  lemma RelevantIsCurrent(h: Digester, s: State, i: nat)
    requires Reachable(h, s) && i < |s.steps|
    ensures s.checklist.Some? && i < |s.checklist.value.defs|
    ensures !s.checklist.value.defs[i].isStop ==> RelevantAttempt(s.approvals, i) == 1
    ensures StepDone(s.steps[i].status) ==>
      (RelevantAttempt(s.approvals, i) == s.steps[i].attempt <==> s.checklist.value.defs[i].isStop || s.steps[i].attempt == 1)
  {
    ReachableInv(h, s);
    RelevantOfInv(h, s, i);
  }

  lemma RelevantOfInv(h: Digester, s: State, i: nat)
    requires Inv(h, s) && i < |s.steps|
    ensures !Defs(s.checklist)[i].isStop ==> RelevantAttempt(s.approvals, i) == 1
    ensures StepDone(s.steps[i].status) && Defs(s.checklist)[i].isStop ==> RelevantAttempt(s.approvals, i) == s.steps[i].attempt
    ensures StepDone(s.steps[i].status) ==> Submitted(s.steps, i, RelevantAttempt(s.approvals, i))
  {
    var r := LatestAttempt(s.approvals, i);
    if r > 0 {
      var k :| 0 <= k < |s.approvals| && s.approvals[k].step == i && s.approvals[k].attempt == r;
      assert Submitted(s.steps, i, r);
    }
    if StepDone(s.steps[i].status) && Defs(s.checklist)[i].isStop {
      assert Submitted(s.steps, i, s.steps[i].attempt);
      assert HasApproval(s.approvals, i, s.steps[i].attempt);
    }
  }

  // ---------------------------------------------------------------- coherence

  ghost predicate ExactlyOne(steps: seq<StepRow>, st: StepStatus) {
    exists i :: 0 <= i < |steps| && steps[i].status == st && forall j :: 0 <= j < |steps| && j != i ==> steps[j].status != st
  }

  lemma OneStep(steps: seq<StepRow>, st: StepStatus)
    requires AtMostOne(steps, st)
    ensures SomeStep(steps, st) <==> ExactlyOne(steps, st)
  {
  }

  /** Approval k is the one undecided approval; its step waits on its attempt. */
  ghost predicate ThePendingStop(s: State, k: nat) {
    && k < |s.approvals| && s.approvals[k].decision == Undecided
    && (forall l :: 0 <= l < |s.approvals| && l != k ==> s.approvals[l].decision != Undecided)
    && s.approvals[k].step < |s.steps| && s.steps[s.approvals[k].step] == StepRow(WaitingApproval, s.approvals[k].attempt)
  }

  /** The job waits for a STOP exactly when one step waits, and then one undecided approval refers to
      it on its attempt; it stands rejected exactly when one step does. The checklist is stamped
      complete exactly when every step is done, and in the first cycle the done steps come first. */
  lemma WorkflowCoherence(h: Digester, s: State)
    requires Reachable(h, s)
    ensures s.job.status == WaitingStopApproval <==> ExactlyOne(s.steps, WaitingApproval)
    ensures s.job.status == WaitingStopApproval <==> exists k: nat :: ThePendingStop(s, k)
    ensures s.job.status == JobRejected <==> ExactlyOne(s.steps, StepRejected)
    ensures s.checklist.Some? ==> (s.checklist.value.completedAt.Some? <==> AllDone(s.steps))
    ensures s.job.cycle == 1 ==> forall i, j :: 0 <= i < j < |s.steps| && StepDone(s.steps[j].status) ==> StepDone(s.steps[i].status)
  {
    ReachableInv(h, s);
    OneStep(s.steps, WaitingApproval);
    OneStep(s.steps, StepRejected);
    if s.job.status == WaitingStopApproval {
      PendingIsUnique(h, s);
    }
    if k: nat :| ThePendingStop(s, k) {
      assert s.steps[s.approvals[k].step].status == WaitingApproval;
      assert SomeStep(s.steps, WaitingApproval);
    }
  }

  lemma PendingIsUnique(h: Digester, s: State)
    requires Inv(h, s) && s.job.status == WaitingStopApproval
    ensures LockPendingStop(s).Ok? && ThePendingStop(s, LockPendingStop(s).value)
  {
    PendingStopIsThere(h, s);
    var k := LockPendingStop(s).value;
    forall l | 0 <= l < |s.approvals| && s.approvals[l].decision == Undecided ensures l == k {
      SamePending(h, s, k, l);
    }
  }

  lemma UndecidedWaits(h: Digester, s: State, l: nat)
    requires Inv(h, s) && l < |s.approvals| && s.approvals[l].decision == Undecided
    ensures s.approvals[l].step < |s.steps| && s.steps[s.approvals[l].step] == StepRow(WaitingApproval, s.approvals[l].attempt)
  {
    assert Submitted(s.steps, s.approvals[l].step, s.approvals[l].attempt);
  }

  lemma SamePending(h: Digester, s: State, k: nat, l: nat)
    requires Inv(h, s) && k < |s.approvals| && l < |s.approvals|
    requires s.approvals[k].decision == Undecided && s.approvals[l].decision == Undecided
    ensures k == l
  {
    UndecidedWaits(h, s, k);
    UndecidedWaits(h, s, l);
  }

  /** The consistency errors of the STOP transactions are never raised. */
  lemma ConsistencyErrorsUnreachable(h: Digester, s: State, e: Event)
    requires Reachable(h, s) && Apply(h, s, e).Err?
    ensures Apply(h, s, e).error !in {NoPendingStop, StopStepStateInvalid, NoRejectedStep, NoChecklist}
  {
    ReachableInv(h, s);
    if e.EvApprove? || e.EvReject? {
      if s.job.status == WaitingStopApproval {
        PendingStopIsThere(h, s);
      }
    } else if e.EvRework? {
      RejectedStepIsThere(h, s);
    } else {
      OthersRaiseNone(h, s, e);
    }
  }

  lemma RejectedStepIsThere(h: Digester, s: State)
    requires Inv(h, s)
    ensures s.job.status == JobRejected ==> s.checklist.Some? && FirstRejected(s.steps).Some?
  {
    if s.job.status == JobRejected {
      assert SomeStep(s.steps, StepRejected);
    }
  }

  lemma OthersRaiseNone(h: Digester, s: State, e: Event)
    requires !e.EvApprove? && !e.EvReject? && !e.EvRework? && Apply(h, s, e).Err?
    ensures Apply(h, s, e).error !in {NoPendingStop, StopStepStateInvalid, NoRejectedStep, NoChecklist}
  {
  }

  // ---------------------------------------------------------------- the cycle

  /** Wherever the code asks, the reopen test on the two timestamps says whether the cycle is a later one. */
  lemma ReopenCycleAgrees(h: Digester, s: State)
    requires Reachable(h, s)
    requires IsWorkable(s.job.status) || s.job.status == WaitingStopApproval || s.job.status == JobRejected
    ensures IsReopenCycle(s.job.status, s.job.closedAt, s.job.reopenedAt) <==> s.job.cycle > 1
  {
    ReachableInv(h, s);
  }

  lemma {:induction false} ClosedStays(h: Digester, s: State, events: seq<Event>)
    requires s.job.closedAt.Some?
    ensures Run(h, s, events).job.closedAt.Some?
    decreases |events|
  {
    if events != [] {
      ClosedStaysStep(h, s, events[0]);
      ClosedStays(h, Step(h, s, events[0]), events[1..]);
    }
  }

  lemma ClosedStaysStep(h: Digester, s: State, e: Event)
    requires s.job.closedAt.Some?
    ensures Step(h, s, e).job.closedAt.Some?
  {
  }

  /** Once completed, a job is never in its first working state again. */
  lemma NeverInProgressAgain(h: Digester, s: State, events: seq<Event>)
    requires Reachable(h, s) && s.job.status == Completed
    ensures Run(h, s, events).job.status !in {Draft, InProgress, Cancelled}
  {
    ReachableInv(h, s);
    RunKeeps(h, s, events);
    ClosedStays(h, s, events);
  }
}
