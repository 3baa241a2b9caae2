/** Which tables each kind of event can change. */
module WorkflowFrame {
  import opened Prelude
  import opened Text
  import opened JobModel
  import opened Summaries
  import opened Workflow

  predicate TouchesSteps(e: Event) {
    e.EvAssign? || e.EvComplete? || e.EvRedo? || e.EvApprove? || e.EvReject? || e.EvRework?
  }

  predicate TouchesPhotos(e: Event) {
    e.EvRegisterPhoto? || e.EvPutPhoto? || e.EvFinalizePhoto? || e.EvFailPhoto? || e.EvLosePhoto?
  }

  predicate WritesSignature(e: Event) {
    e.EvPutSignature? || e.EvFinalizeSignature? || e.EvFailSignature? || e.EvLoseSignature?
  }

  predicate TouchesSignatures(e: Event) {
    e.EvRegisterSignature? || WritesSignature(e) || e.EvReopen?
  }

  lemma WorkFrame(h: Digester, s: State, e: Event)
    requires TouchesSteps(e)
    ensures var t := Step(h, s, e);
      t == s.(job := t.job, checklist := t.checklist, steps := t.steps, approvals := t.approvals, measurements := t.measurements)
    ensures e.EvComplete? || Step(h, s, e).measurements == s.measurements
  {
  }

  lemma PhotoFrame(h: Digester, s: State, e: Event)
    requires TouchesPhotos(e)
    ensures var t := Step(h, s, e); t == s.(photos := t.photos, objects := t.objects)
  {
  }

  lemma SignatureFrame(h: Digester, s: State, e: Event)
    requires e.EvRegisterSignature? || WritesSignature(e)
    ensures var t := Step(h, s, e); t == s.(signatures := t.signatures, objects := t.objects)
  {
  }

  lemma ClosingFrame(h: Digester, s: State, e: Event)
    requires e.EvClose? || e.EvConfirm? || e.EvReopen?
    ensures var t := Step(h, s, e);
      t == if e.EvReopen? then s.(job := t.job, signatures := t.signatures) else s.(job := t.job, snapshots := t.snapshots)
  {
  }

  /** The events on the job row, and the changes from outside. */
  predicate TouchesRowOnly(e: Event) {
    && !TouchesSteps(e) && !TouchesPhotos(e) && !TouchesSignatures(e) && !e.EvClose? && !e.EvConfirm?
  }

  lemma RowFrame(h: Digester, s: State, e: Event)
    requires TouchesRowOnly(e)
    ensures var t := Step(h, s, e);
      t == s.(job := t.job, clock := t.clock, policyApproved := t.policyApproved, openRisks := t.openRisks,
              customer := t.customer, vehicle := t.vehicle)
  {
  }

  /** Each table is changed only by the events that touch it. */
  lemma Frames(h: Digester, s: State, e: Event)
    ensures var t := Step(h, s, e);
      && (!TouchesSteps(e) ==> t.steps == s.steps && t.checklist == s.checklist && t.approvals == s.approvals)
      && (!e.EvComplete? ==> t.measurements == s.measurements)
      && (!TouchesPhotos(e) ==> t.photos == s.photos)
      && (!TouchesSignatures(e) ==> t.signatures == s.signatures)
      && (!TouchesPhotos(e) && !TouchesSignatures(e) ==> t.objects == s.objects)
      && (!e.EvClose? && !e.EvConfirm? ==> t.snapshots == s.snapshots)
  {
    if TouchesSteps(e) {
      WorkFrame(h, s, e);
    } else if TouchesPhotos(e) {
      PhotoFrame(h, s, e);
    } else if TouchesRowOnly(e) {
      RowFrame(h, s, e);
    } else if e.EvClose? || e.EvConfirm? || e.EvReopen? {
      ClosingFrame(h, s, e);
    } else {
      SignatureFrame(h, s, e);
    }
  }
}
