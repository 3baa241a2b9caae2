/** Each transaction leads from a reachable state to a reachable state. */
module WorkflowReached {
  import opened Prelude
  import opened Text
  import opened JobCycle
  import opened JobModel
  import opened Summaries
  import opened Workflow
  import opened WorkflowInv
  import opened WorkflowTheorems

  lemma {:induction false} RunAppend(h: Digester, s: State, events: seq<Event>, more: seq<Event>)
    ensures Run(h, s, events + more) == Run(h, Run(h, s, events), more)
    decreases |events|
  {
    if events == [] {
      assert events + more == more;
    } else {
      assert (events + more)[0] == events[0] && (events + more)[1..] == events[1..] + more;
      RunAppend(h, Step(h, s, events[0]), events[1..], more);
    }
  }

  lemma RunOne(h: Digester, s: State, e: Event)
    ensures Run(h, s, [e]) == Step(h, s, e)
  {
    assert [e][1..] == [];
  }

  lemma Reached(h: Digester, s: State, e: Event)
    requires Reachable(h, s)
    ensures Reachable(h, Step(h, s, e))
  {
    var start: State, events: seq<Event> :| IsNewJob(start) && s == Run(h, start, events);
    RunAppend(h, start, events, [e]);
    RunOne(h, s, e);
  }

  lemma Committed(h: Digester, s: State, e: Event)
    requires Reachable(h, s)
    ensures Apply(h, s, e).Ok? ==> Reachable(h, Apply(h, s, e).value)
  {
    Reached(h, s, e);
  }

  lemma CommittedAs(h: Digester, s: State, e: Event, o: Outcome)
    requires Reachable(h, s) && Apply(h, s, e) == o
    ensures o.Ok? ==> Reachable(h, o.value)
  {
    Committed(h, s, e);
  }

  lemma StartReached(h: Digester, s: State)
    requires Reachable(h, s)
    ensures StartJob(s).Ok? ==> Reachable(h, StartJob(s).value)
  {
    Committed(h, s, EvStart);
  }

  lemma CancelReached(h: Digester, s: State)
    requires Reachable(h, s)
    ensures CancelJob(s).Ok? ==> Reachable(h, CancelJob(s).value)
  {
    Committed(h, s, EvCancel);
  }

  lemma InstallationReached(h: Digester, s: State, p: InstallationPatch)
    requires Reachable(h, s)
    ensures UpdateInstallation(s, p).Ok? ==> Reachable(h, UpdateInstallation(s, p).value)
  {
    Committed(h, s, EvInstallation(p));
  }

  lemma ReassignedReached(h: Digester, s: State, t: Option<nat>)
    requires Reachable(h, s)
    ensures Reassign(s, t).Ok? ==> Reachable(h, Reassign(s, t).value)
  {
    Committed(h, s, EvReassign(t));
  }

  lemma AssignReached(h: Digester, s: State, p: Option<Published>)
    requires Reachable(h, s)
    ensures AssignChecklist(s, p).Ok? ==> Reachable(h, AssignChecklist(s, p).value)
  {
    Committed(h, s, EvAssign(p));
  }

  lemma CompleteReached(h: Digester, s: State, i: nat, input: seq<Submission>)
    requires Reachable(h, s)
    ensures CompleteStep(s, i, input).Ok? ==> Reachable(h, CompleteStep(s, i, input).value)
  {
    Committed(h, s, EvComplete(i, input));
  }

  lemma RedoReached(h: Digester, s: State, i: nat)
    requires Reachable(h, s)
    ensures RedoStep(s, i).Ok? ==> Reachable(h, RedoStep(s, i).value)
  {
    Committed(h, s, EvRedo(i));
  }

  lemma ApproveReached(h: Digester, s: State)
    requires Reachable(h, s)
    ensures ApproveStop(s).Ok? ==> Reachable(h, ApproveStop(s).value)
  {
    Committed(h, s, EvApprove);
  }

  lemma RejectReached(h: Digester, s: State)
    requires Reachable(h, s)
    ensures RejectStop(s).Ok? ==> Reachable(h, RejectStop(s).value)
  {
    Committed(h, s, EvReject);
  }

  lemma ReworkReached(h: Digester, s: State)
    requires Reachable(h, s)
    ensures ReworkStop(s).Ok? ==> Reachable(h, ReworkStop(s).value)
  {
    Committed(h, s, EvRework);
  }

  lemma RegisterPhotoReached(h: Digester, s: State, i: nat, size: nat, hash: Hex)
    requires Reachable(h, s)
    ensures RegisterPhoto(s, i, size, hash).Ok? ==> Reachable(h, RegisterPhoto(s, i, size, hash).value)
  {
    Committed(h, s, EvRegisterPhoto(i, size, hash));
  }

  lemma PutPhotoReached(h: Digester, s: State, id: nat, r: PutResult)
    requires Reachable(h, s)
    ensures PutPhoto(s, id, r).Ok? ==> Reachable(h, PutPhoto(s, id, r).value)
  {
    Committed(h, s, EvPutPhoto(id, r));
  }

  lemma FinalizePhotoReached(h: Digester, s: State, id: nat)
    requires Reachable(h, s)
    ensures FinalizePhoto(s, id).Ok? ==> Reachable(h, FinalizePhoto(s, id).value)
  {
    Committed(h, s, EvFinalizePhoto(id));
  }

  lemma FailPhotoReached(h: Digester, s: State, id: nat)
    requires Reachable(h, s)
    ensures FailPhoto(s, id).Ok? ==> Reachable(h, FailPhoto(s, id).value)
  {
    Committed(h, s, EvFailPhoto(id));
  }

  lemma ApplyRegisterSignature(h: Digester, s: State, e: Event)
    requires e.EvRegisterSignature?
    ensures Apply(h, s, e) == RegisterSignature(h, s, e.size, e.hash, e.shown)
  {
  }

  lemma RegisterSignatureReached(h: Digester, s: State, size: nat, hash: Hex, shown: Option<string>)
    requires Reachable(h, s)
    ensures RegisterSignature(h, s, size, hash, shown).Ok? ==> Reachable(h, RegisterSignature(h, s, size, hash, shown).value)
  {
    var o, e := RegisterSignature(h, s, size, hash, shown), EvRegisterSignature(size, hash, shown);
    assert Apply(h, s, e) == o by {
      ApplyRegisterSignature(h, s, e);
    }
    CommittedAs(h, s, e, o);
  }

  lemma PutSignatureReached(h: Digester, s: State, id: nat, r: PutResult)
    requires Reachable(h, s)
    ensures PutSignature(s, id, r).Ok? ==> Reachable(h, PutSignature(s, id, r).value)
  {
    Committed(h, s, EvPutSignature(id, r));
  }

  lemma FinalizeSignatureReached(h: Digester, s: State, id: nat)
    requires Reachable(h, s)
    ensures FinalizeSignature(s, id).Ok? ==> Reachable(h, FinalizeSignature(s, id).value)
  {
    Committed(h, s, EvFinalizeSignature(id));
  }

  lemma FailSignatureReached(h: Digester, s: State, id: nat)
    requires Reachable(h, s)
    ensures FailSignature(s, id).Ok? ==> Reachable(h, FailSignature(s, id).value)
  {
    Committed(h, s, EvFailSignature(id));
  }

  lemma ApplyClose(h: Digester, s: State, e: Event)
    requires e.EvClose?
    ensures Apply(h, s, e) == CloseJob(h, s)
  {
  }

  lemma CloseReached(h: Digester, s: State)
    requires Reachable(h, s)
    ensures CloseJob(h, s).Ok? ==> Reachable(h, CloseJob(h, s).value)
  {
    var o := CloseJob(h, s);
    assert Apply(h, s, EvClose) == o by {
      ApplyClose(h, s, EvClose);
    }
    CommittedAs(h, s, EvClose, o);
  }

  lemma ApplyConfirm(h: Digester, s: State, e: Event)
    requires e.EvConfirm?
    ensures Apply(h, s, e) == ConfirmQuality(h, s)
  {
  }

  lemma ConfirmReached(h: Digester, s: State)
    requires Reachable(h, s)
    ensures ConfirmQuality(h, s).Ok? ==> Reachable(h, ConfirmQuality(h, s).value)
  {
    var o := ConfirmQuality(h, s);
    assert Apply(h, s, EvConfirm) == o by {
      ApplyConfirm(h, s, EvConfirm);
    }
    CommittedAs(h, s, EvConfirm, o);
  }

  lemma ReopenReached(h: Digester, s: State)
    requires Reachable(h, s)
    ensures ReopenJob(s).Ok? ==> Reachable(h, ReopenJob(s).value)
  {
    Committed(h, s, EvReopen);
  }

  lemma TickReached(h: Digester, s: State, seconds: nat)
    requires Reachable(h, s)
    ensures Reachable(h, s.(clock := s.clock + seconds))
  {
    Committed(h, s, EvTick(seconds));
  }

  lemma PolicyReached(h: Digester, s: State, approved: bool)
    requires Reachable(h, s)
    ensures Reachable(h, s.(policyApproved := approved))
  {
    Committed(h, s, EvPolicy(approved));
  }

  lemma RisksReached(h: Digester, s: State, risks: seq<nat>)
    requires Reachable(h, s)
    ensures Reachable(h, s.(openRisks := risks))
  {
    Committed(h, s, EvRisks(risks));
  }

  // ---------------------------------------------------------------- what a transaction may rely on

  lemma StepsAreShaped(h: Digester, s: State)
    requires Reachable(h, s)
    ensures ChecklistShape(s.checklist, s.steps)
    ensures forall i :: 0 <= i < |s.steps| ==> s.steps[i].attempt >= 1
    ensures forall k :: 0 <= k < |s.approvals| ==> s.approvals[k].attempt >= 1
  {
    ReachableInv(h, s);
    forall k | 0 <= k < |s.approvals| ensures s.approvals[k].attempt >= 1 {
      assert Submitted(s.steps, s.approvals[k].step, s.approvals[k].attempt);
    }
  }

  lemma LockedIsPending(h: Digester, s: State)
    requires Reachable(h, s) && s.job.status == WaitingStopApproval
    ensures LockPendingStop(s).Ok? && ThePendingStop(s, LockPendingStop(s).value)
  {
    ReachableInv(h, s);
    PendingIsUnique(h, s);
  }

  lemma PendingIsLocked(h: Digester, s: State, k: nat)
    requires Reachable(h, s) && s.job.status == WaitingStopApproval && ThePendingStop(s, k)
    ensures LockPendingStop(s) == Ok(k)
  {
    LockedIsPending(h, s);
  }

  lemma RejectedIsThere(h: Digester, s: State)
    requires Reachable(h, s)
    ensures s.job.status == JobRejected ==> s.checklist.Some? && FirstRejected(s.steps).Some?
  {
    ReachableInv(h, s);
    RejectedStepIsThere(h, s);
  }
}
