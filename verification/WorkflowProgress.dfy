/** Which pending steps can be submitted. */
module WorkflowProgress {
  import opened Prelude
  import opened Text
  import opened JobCycle
  import opened JobModel
  import opened Summaries
  import opened Workflow
  import opened WorkflowInv
  import opened WorkflowEvidence
  import opened WorkflowTheorems
  import opened WorkflowGate
  import opened WorkflowHistory
  import opened WorkflowReached

  // ---------------------------------------------------------------- one state leads to another

  ghost predicate Leads(h: Digester, s: State, t: State) {
    exists events: seq<Event> :: Run(h, s, events) == t
  }

  lemma LeadsSelf(h: Digester, s: State)
    ensures Leads(h, s, s)
  {
    assert Run(h, s, []) == s;
  }

  lemma LeadsOn(h: Digester, s: State, t: State, u: State)
    requires Leads(h, s, t) && Leads(h, t, u)
    ensures Leads(h, s, u)
  {
    var events: seq<Event> :| Run(h, s, events) == t;
    var more: seq<Event> :| Run(h, t, more) == u;
    RunAppend(h, s, events, more);
  }

  lemma LeadsBy(h: Digester, s: State, e: Event)
    ensures Apply(h, s, e).Ok? ==> Leads(h, s, Apply(h, s, e).value)
  {
    WorkflowReached.RunOne(h, s, e);
  }

  lemma LeadsInv(h: Digester, s: State, t: State)
    requires Inv(h, s) && Leads(h, s, t)
    ensures Inv(h, t)
  {
    var events: seq<Event> :| Run(h, s, events) == t;
    RunKeeps(h, s, events);
  }

  lemma LoseLeads(h: Digester, s: State, k: nat)
    ensures LosePhoto(s, k).Ok? ==> Leads(h, s, LosePhoto(s, k).value)
  {
    LeadsBy(h, s, EvLosePhoto(k));
  }

  lemma RegisterLeads(h: Digester, s: State, i: nat, size: nat, hash: Hex)
    ensures RegisterPhoto(s, i, size, hash).Ok? ==> Leads(h, s, RegisterPhoto(s, i, size, hash).value)
  {
    LeadsBy(h, s, EvRegisterPhoto(i, size, hash));
  }

  lemma PutLeads(h: Digester, s: State, id: nat, r: PutResult)
    ensures PutPhoto(s, id, r).Ok? ==> Leads(h, s, PutPhoto(s, id, r).value)
  {
    LeadsBy(h, s, EvPutPhoto(id, r));
  }

  lemma FinalizeLeads(h: Digester, s: State, id: nat)
    ensures FinalizePhoto(s, id).Ok? ==> Leads(h, s, FinalizePhoto(s, id).value)
  {
    LeadsBy(h, s, EvFinalizePhoto(id));
  }

  lemma CompleteLeads(h: Digester, s: State, i: nat, input: seq<Submission>)
    ensures CompleteStep(s, i, input).Ok? ==> Leads(h, s, CompleteStep(s, i, input).value)
  {
    LeadsBy(h, s, EvComplete(i, input));
  }

  // ---------------------------------------------------------------- uploads that do not finish

  /** Only photos and their objects differ. */
  predicate PhotosAside(s: State, t: State) {
    t == s.(photos := t.photos, objects := t.objects)
  }

  /** READY photos of other steps and attempts are as many as before. */
  ghost predicate SameReadyBut(ps: seq<Photo>, qs: seq<Photo>, i: nat, a: nat) {
    forall k: nat, b: nat :: k != i || b != a ==> Count(qs, IsReady(k, b)) == Count(ps, IsReady(k, b))
  }

  lemma UnreadyUpdate(ps: seq<Photo>, k: nat, x: Photo, i: nat, a: nat)
    requires k < |ps| && ps[k].status != Ready && x.status != Ready
    ensures Count(ps[k := x], IsReady(i, a)) == Count(ps, IsReady(i, a))
  {
    CountUpdate(ps, k, x, IsReady(i, a));
  }

  /** Gives up the first n photos of the attempt that are still under way. */
  lemma {:induction false} GiveUp(h: Digester, s: State, i: nat, a: nat, n: nat) returns (t: State)
    requires n <= |s.photos|
    ensures Leads(h, s, t) && PhotosAside(s, t) && |t.photos| == |s.photos| && t.photos[n..] == s.photos[n..]
    ensures Count(t.photos, IsReady(i, a)) == Count(s.photos, IsReady(i, a)) && SameReadyBut(s.photos, t.photos, i, a)
    ensures forall k :: 0 <= k < n && IsActive(i, a)(t.photos[k]) ==> IsReady(i, a)(t.photos[k])
  {
    if n == 0 {
      t := s;
      LeadsSelf(h, s);
    } else {
      var u := GiveUp(h, s, i, a, n - 1);
      assert u.photos[n - 1] == u.photos[n - 1..][0] == s.photos[n - 1..][0];
      assert u.photos[n..] == u.photos[n - 1..][1..] && s.photos[n..] == s.photos[n - 1..][1..];
      var p := u.photos[n - 1];
      if IsActive(i, a)(p) && !IsReady(i, a)(p) {
        t := LosePhoto(u, n - 1).value;
        LoseLeads(h, u, n - 1);
        LeadsOn(h, s, u, t);
        forall k: nat, b: nat ensures Count(t.photos, IsReady(k, b)) == Count(u.photos, IsReady(k, b)) {
          UnreadyUpdate(u.photos, n - 1, p.(status := Failed), k, b);
        }
      } else {
        t := u;
      }
    }
  }

  lemma ActiveAreReady(ps: seq<Photo>, i: nat, a: nat)
    requires forall k :: 0 <= k < |ps| && IsActive(i, a)(ps[k]) ==> IsReady(i, a)(ps[k])
    ensures Count(ps, IsActive(i, a)) == Count(ps, IsReady(i, a))
  {
    CountMono(ps, IsActive(i, a), IsReady(i, a));
    CountMono(ps, IsReady(i, a), IsActive(i, a));
  }

  // ---------------------------------------------------------------- uploads that do

  predicate CanUpload(s: State, i: nat) {
    IsWorkable(s.job.status) && s.checklist.Some? && i < |s.steps| && s.steps[i].status == Pending
  }

  /** The rows after each of the three steps of an upload. */
  lemma UploadSteps(s: State, i: nat, size: nat, hash: Hex)
    requires CanUpload(s, i) && Count(s.photos, IsActive(i, s.steps[i].attempt)) < MAX_PHOTOS_PER_ATTEMPT
    ensures var id, a := |s.photos|, s.steps[i].attempt;
      var r0 := RegisterPhoto(s, i, size, hash);
      && r0.Ok? && var r1 := PutPhoto(r0.value, id, Wrote(size));
      && r1.Ok? && var r2 := FinalizePhoto(r1.value, id);
      && r2.Ok? && PhotosAside(s, r2.value)
      && r2.value.photos == s.photos + [Photo(i, a, Ready, size, hash, Some(s.clock), Over, Some(size))]
  {
    var id, a := |s.photos|, s.steps[i].attempt;
    var x := Photo(i, a, InFlight, size, hash, None, Writing, None);
    var y := x.(upload := Written, storedSize := Some(size));
    assert (s.photos + [x])[id := y] == s.photos + [y];
    assert (s.photos + [y])[id := y.(upload := Over, status := Ready, readyAt := Some(s.clock))]
      == s.photos + [y.(upload := Over, status := Ready, readyAt := Some(s.clock))];
  }

  lemma UploadRun(h: Digester, s: State, i: nat, size: nat, hash: Hex) returns (t: State)
    requires CanUpload(s, i) && Count(s.photos, IsActive(i, s.steps[i].attempt)) < MAX_PHOTOS_PER_ATTEMPT
    ensures Leads(h, s, t) && PhotosAside(s, t)
    ensures var a := s.steps[i].attempt;
      && Count(t.photos, IsReady(i, a)) == Count(s.photos, IsReady(i, a)) + 1
      && Count(t.photos, IsActive(i, a)) == Count(s.photos, IsActive(i, a)) + 1
      && SameReadyBut(s.photos, t.photos, i, a)
  {
    var id, a := |s.photos|, s.steps[i].attempt;
    UploadSteps(s, i, size, hash);
    var s1 := RegisterPhoto(s, i, size, hash).value;
    var s2 := PutPhoto(s1, id, Wrote(size)).value;
    t := FinalizePhoto(s2, id).value;
    RegisterLeads(h, s, i, size, hash);
    PutLeads(h, s1, id, Wrote(size));
    FinalizeLeads(h, s2, id);
    LeadsOn(h, s, s1, s2);
    LeadsOn(h, s, s2, t);
    var x := Photo(i, a, Ready, size, hash, Some(s.clock), Over, Some(size));
    CountAppend(s.photos, x, IsReady(i, a));
    CountAppend(s.photos, x, IsActive(i, a));
    forall k: nat, b: nat | k != i || b != a ensures Count(t.photos, IsReady(k, b)) == Count(s.photos, IsReady(k, b)) {
      CountAppend(s.photos, x, IsReady(k, b));
    }
  }

  lemma {:induction false} UploadMany(h: Digester, s: State, i: nat, size: nat, hash: Hex, n: nat) returns (t: State)
    requires CanUpload(s, i) && Count(s.photos, IsActive(i, s.steps[i].attempt)) + n <= MAX_PHOTOS_PER_ATTEMPT
    ensures Leads(h, s, t) && PhotosAside(s, t)
    ensures Count(t.photos, IsReady(i, s.steps[i].attempt)) == Count(s.photos, IsReady(i, s.steps[i].attempt)) + n
    ensures SameReadyBut(s.photos, t.photos, i, s.steps[i].attempt)
    decreases n
  {
    if n == 0 {
      t := s;
      LeadsSelf(h, s);
    } else {
      var u := UploadRun(h, s, i, size, hash);
      t := UploadMany(h, u, i, size, hash, n - 1);
      LeadsOn(h, s, u, t);
    }
  }

  /** Gives up what is under way for the attempt and uploads what it is short of. */
  lemma Supply(h: Digester, s: State, i: nat, need: nat, size: nat, hash: Hex) returns (t: State)
    requires CanUpload(s, i) && need <= MAX_PHOTOS_PER_ATTEMPT
    ensures Leads(h, s, t) && PhotosAside(s, t)
    ensures Count(t.photos, IsReady(i, s.steps[i].attempt)) >= need
    ensures SameReadyBut(s.photos, t.photos, i, s.steps[i].attempt)
  {
    var a := s.steps[i].attempt;
    var u := GiveUp(h, s, i, a, |s.photos|);
    ActiveAreReady(u.photos, i, a);
    var have := Count(u.photos, IsReady(i, a));
    if have < need {
      t := UploadMany(h, u, i, size, hash, need - have);
      LeadsOn(h, s, u, t);
    } else {
      t := u;
    }
  }

  // ---------------------------------------------------------------- submitting

  /** It is the turn of step i, and its rules and columns take the input: only photos may be missing. */
  predicate Turn(s: State, i: nat, input: seq<Submission>) {
    && IsWorkable(s.job.status) && s.checklist.Some? && i < |s.steps| && i < |s.checklist.value.defs|
    && s.steps[i].status == Pending && EarlierDone(s.steps, i)
    && var rules := s.checklist.value.defs[i].rules;
      RulesKnown(rules, input) && RulesMet(rules, input) && RowsFit(RowsFor(rules, input, i, s.steps[i].attempt))
  }

  lemma CompleteSubmits(s: State, i: nat, input: seq<Submission>)
    requires Turn(s, i, input) && s.steps[i].attempt >= 1
    requires Count(s.photos, IsReady(i, s.steps[i].attempt)) >= s.checklist.value.defs[i].requiredPhotos
    ensures CompleteStep(s, i, input).Ok? && Submitted(CompleteStep(s, i, input).value.steps, i, s.steps[i].attempt)
  {
  }

  /** Supplies the photos and submits: u is the state the step is completed in. */
  lemma Submit(h: Digester, s: State, i: nat, input: seq<Submission>, size: nat, hash: Hex) returns (u: State)
    requires Turn(s, i, input) && s.steps[i].attempt >= 1
    requires s.checklist.value.defs[i].requiredPhotos <= MAX_PHOTOS_PER_ATTEMPT
    ensures PhotosAside(s, u) && SameReadyBut(s.photos, u.photos, i, s.steps[i].attempt)
    ensures Count(u.photos, IsReady(i, s.steps[i].attempt)) >= s.checklist.value.defs[i].requiredPhotos
    ensures CompleteStep(u, i, input).Ok? && Leads(h, s, CompleteStep(u, i, input).value)
    ensures Submitted(CompleteStep(u, i, input).value.steps, i, s.steps[i].attempt)
  {
    u := Supply(h, s, i, s.checklist.value.defs[i].requiredPhotos, size, hash);
    CompleteSubmits(u, i, input);
    CompleteLeads(h, u, i, input);
    LeadsOn(h, s, u, CompleteStep(u, i, input).value);
  }

  lemma {:induction false} DefsStay(h: Digester, s: State, events: seq<Event>)
    requires Inv(h, s)
    ensures Defs(s.checklist) <= Defs(Run(h, s, events).checklist)
    decreases |events|
  {
    if events != [] {
      StepsAdvanceStep(h, s, events[0]);
      StepKeeps(h, s, events[0]);
      DefsStay(h, Step(h, s, events[0]), events[1..]);
    }
  }

  /** When it is the turn of a pending step and its input would be taken, some run submits its attempt
      exactly if the step requires no more photos than one attempt may hold. */
  lemma SubmittableExactly(h: Digester, s: State, i: nat, input: seq<Submission>, hash: Hex)
    requires Reachable(h, s) && Turn(s, i, input)
    ensures s.checklist.value.defs[i].requiredPhotos <= 10
      <==> exists t: State :: Leads(h, s, t) && Submitted(t.steps, i, s.steps[i].attempt)
  {
    ReachableInv(h, s);
    if s.checklist.value.defs[i].requiredPhotos <= 10 {
      var u := Submit(h, s, i, input, 1, hash);
    }
    if t: State :| Leads(h, s, t) && Submitted(t.steps, i, s.steps[i].attempt) {
      LeadsInv(h, s, t);
      SubmittedFits(h, t);
      var events: seq<Event> :| Run(h, s, events) == t;
      DefsStay(h, s, events);
    }
  }
}
