/** The outbox rows and the deliveries under any event. */
module SmsLaws {
  import opened Prelude
  import opened SmsOutbox

  /** `last_error` keeps the text, cut after 60 characters. */
  ghost predicate Noted(error: Option<string>, text: string) {
    error.Some? && error.value <= text && |error.value| == if |text| <= 60 then |text| else 60
  }

  /** d is the waiting time in whole seconds: the base, doubled with each attempt up to five minutes,
      scaled by 0.8 to 1.2, in milliseconds rounded down, then rounded up. */
  ghost predicate WaitsFor(attempts: nat, jitter: real, d: int) {
    var ms := (BackoffExp(attempts) as real * (0.8 + jitter * 0.4)).Floor;
    1000 * (d - 1) < ms <= 1000 * d
  }

  lemma DelayIs(attempts: nat, jitter: real)
    ensures WaitsFor(attempts, jitter, RetryDelay(attempts, jitter))
  {
    var ms := BackoffMs(attempts, jitter);
    assert ms + 999 == 1000 * ((ms + 999) / 1000) + (ms + 999) % 1000;
  }

  // ---------------------------------------------------------------- the rows

  /** Delivery k is of row id and at the given point of its call. */
  ghost predicate Delivers(s: State, k: nat, id: nat, sending: bool) {
    k < |s.deliveries| && s.deliveries[k].id == id && s.deliveries[k].sending == sending
  }

  ghost predicate Claims(s: State, e: Event) {
    && e.EvClaim? && e.id < |s.rows| && s.rows[e.id].status in {Pending, Retry} && s.rows[e.id].nextAttemptAt <= s.clock
  }

  ghost predicate InSomeHand(s: State, id: nat) {
    exists k: nat :: k < |s.deliveries| && s.deliveries[k].id == id
  }

  /** The row after a delivery ended with these attempts: it is free, and the calls that the new count does
      not show are uncounted. */
  ghost predicate LetGo(x: Row, sending: bool, y: Row, st: Status, attempts: nat) {
    var calls := x.attempts + if sending then 1 else 0;
    && y == x.(status := st, attempts := attempts, lastError := y.lastError, leaseOwner := None, leaseExpiresAt := None,
               nextAttemptAt := y.nextAttemptAt, uncounted := y.uncounted)
    && y.uncounted == x.uncounted + (if calls > attempts then calls - attempts else 0)
  }

  /** What the answer of the provider makes of the row. */
  ghost predicate Answered(s: State, d: Delivery, r: SendResult, x: Row, y: Row) {
    match r
    case Accepted(delivered) =>
      LetGo(x, true, y, if delivered then Delivered else Sent, d.attempts + 1) && y.lastError == None && y.nextAttemptAt == x.nextAttemptAt
    case Ambiguous(code) =>
      LetGo(x, true, y, Failed, d.attempts + 1) && Noted(y.lastError, "AMBIGUOUS:" + code) && y.nextAttemptAt == x.nextAttemptAt
    case Permanent(code) =>
      LetGo(x, true, y, Failed, d.attempts + 1) && Noted(y.lastError, "PERMANENT:" + code) && y.nextAttemptAt == x.nextAttemptAt
    case Retryable(code, jitter) =>
      && Noted(y.lastError, "RETRYABLE:" + code)
      && if d.attempts + 1 >= d.maxAttempts then LetGo(x, true, y, Failed, d.attempts + 1) && y.nextAttemptAt == x.nextAttemptAt
         else LetGo(x, true, y, Retry, d.attempts + 1)
              && (0.0 <= jitter < 1.0 ==> WaitsFor(d.attempts + 1, jitter, y.nextAttemptAt - s.clock))
  }

  /** Row id under an event: x before, y after. */
  ghost predicate RowMoves(s: State, e: Event, id: nat, y: Row)
    requires id < |s.rows|
  {
    var x := s.rows[id];
    match e
    case EvEnqueue(r, m, _) =>
      y == if m > 0 && x.recipient == r && x.status in {Pending, Retry} then x.(status := Cancelled, lastError := Some("SUPERSEDED")) else x
    case EvClaim(w, i, lease) =>
      y == if i == id && Claims(s, e) then x.(status := Processing, leaseOwner := Some(w), leaseExpiresAt := Some(s.clock + lease)) else x
    case EvRecover =>
      y == if x.status == Processing && x.leaseExpiresAt.Some? && x.leaseExpiresAt.value < s.clock
           then x.(status := Retry, leaseOwner := None, disturbed := x.disturbed || InSomeHand(s, id)) else x
    case EvBegin(k, deciphers) =>
      if !Delivers(s, k, id, false) then y == x
      else if s.deliveries[k].notAfter <= s.clock then
        LetGo(x, false, y, Cancelled, x.attempts) && y.lastError == Some("EXPIRED_BEFORE_SEND") && y.nextAttemptAt == x.nextAttemptAt
      else if !deciphers then
        LetGo(x, false, y, Failed, s.deliveries[k].attempts + 1) && y.lastError == Some("PAYLOAD_DECRYPT") && y.nextAttemptAt == x.nextAttemptAt
      else y == x.(sends := x.sends + 1)
    case EvConclude(k, r) => if !Delivers(s, k, id, true) then y == x else Answered(s, s.deliveries[k], r, x, y)
    case EvCrash(k) => y == if Delivers(s, k, id, true) then x.(uncounted := x.uncounted + 1, disturbed := true) else x
    case EvTick(_) => y == x
  }

  ghost predicate Queues(e: Event) {
    e.EvEnqueue? && e.maxAttempts > 0
  }

  ghost predicate RowsMove(s: State, e: Event, rows: seq<Row>) {
    && |rows| == |s.rows| + (if Queues(e) then 1 else 0)
    && (forall id: nat :: id < |s.rows| ==> RowMoves(s, e, id, rows[id]))
    && (Queues(e) ==>
      rows[|s.rows|] == Row(e.recipient, Pending, 0, e.maxAttempts, s.clock, s.clock + e.maxAge, None, None, None, 0, 0, false))
  }

  lemma ConcludeMovesRows(s: State, e: Event)
    requires Inv(s) && e.EvConclude?
    ensures RowsMove(s, e, Conclude(s, e.k, e.result).rows)
  {
    if e.k < |s.deliveries| {
      var d := s.deliveries[e.k];
      assert Holds(s, d);
      if d.sending {
        ConcludedRow(s, e.k, e.result);
      }
    }
  }

  lemma ConcludedRow(s: State, k: nat, r: SendResult)
    requires k < |s.deliveries| && s.deliveries[k].sending && s.deliveries[k].id < |s.rows|
    ensures var d, t := s.deliveries[k], Conclude(s, k, r);
      && |t.rows| == |s.rows| && (forall id: nat :: id < |s.rows| && id != d.id ==> t.rows[id] == s.rows[id])
      && Answered(s, d, r, s.rows[d.id], t.rows[d.id])
  {
    if r.Retryable? {
      DelayIs(s.deliveries[k].attempts + 1, r.jitter);
      if 0.0 <= r.jitter < 1.0 {
        RetryDelayBounds(s.deliveries[k].attempts + 1, r.jitter);
      }
    }
  }

  lemma BeginMovesRows(s: State, e: Event)
    requires Inv(s) && e.EvBegin?
    ensures RowsMove(s, e, Begin(s, e.k, e.deciphers).rows)
  {
    if e.k < |s.deliveries| {
      assert Holds(s, s.deliveries[e.k]);
    }
  }

  lemma OthersMoveRows(s: State, e: Event)
    requires Inv(s) && !e.EvConclude? && !e.EvBegin?
    ensures RowsMove(s, e, Step(s, e).rows)
  {
    if e.EvCrash? && e.k < |s.deliveries| {
      assert Holds(s, s.deliveries[e.k]);
    }
  }

  /** The outbox rows under any event: above all, an ambiguous answer ends FAILED and is never queued again,
      a retryable one is queued again exactly while attempts are left. */
  lemma OutboxRowsMove(s: State, e: Event)
    requires Reachable(s)
    ensures RowsMove(s, e, Step(s, e).rows)
  {
    ReachableInv(s);
    match e
    case EvConclude(_, _) => ConcludeMovesRows(s, e);
    case EvBegin(_, _) => BeginMovesRows(s, e);
    case _ => OthersMoveRows(s, e);
  }

  // ---------------------------------------------------------------- the deliveries

  /** A claim takes the row as it reads it; a delivery ends when its message is too old or undecipherable,
      when the provider has answered, or when its worker dies. */
  ghost predicate DeliveriesMove(s: State, e: Event, ds: seq<Delivery>) {
    match e
    case EvClaim(w, id, _) =>
      ds == if Claims(s, e)
            then s.deliveries + [Delivery(w, id, s.rows[id].attempts, s.rows[id].maxAttempts, s.rows[id].notAfter, false)]
            else s.deliveries
    case EvBegin(k, deciphers) =>
      if k >= |s.deliveries| || s.deliveries[k].sending then ds == s.deliveries
      else if s.deliveries[k].notAfter <= s.clock || !deciphers then Ends(s.deliveries, k, ds)
      else ds == s.deliveries[k := s.deliveries[k].(sending := true)]
    case EvConclude(k, _) => if k < |s.deliveries| && s.deliveries[k].sending then Ends(s.deliveries, k, ds) else ds == s.deliveries
    case EvCrash(k) => if k < |s.deliveries| then Ends(s.deliveries, k, ds) else ds == s.deliveries
    case _ => ds == s.deliveries
  }

  ghost predicate Ends(before: seq<Delivery>, k: nat, after: seq<Delivery>) {
    k < |before| && after == before[..k] + before[k + 1..]
  }

  lemma DeliveryRowsMove(s: State, e: Event)
    requires Reachable(s)
    ensures DeliveriesMove(s, e, Step(s, e).deliveries) && Step(s, e).clock == s.clock + if e.EvTick? then e.seconds else 0
  {
    ReachableInv(s);
    if (e.EvBegin? || e.EvConclude? || e.EvCrash?) && e.k < |s.deliveries| {
      assert Holds(s, s.deliveries[e.k]);
    }
  }
}
