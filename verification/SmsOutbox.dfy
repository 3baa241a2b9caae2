/** The leased SMS outbox: any number of workers claim, deliver, retry and recover rows. */
module SmsOutbox {
  import opened Prelude

  datatype Status = Pending | Retry | Processing | Sent | Delivered | Failed | Cancelled

  /** A row of `sms_outbox`, addressed by position; times are seconds. The last three fields are the
      history of the row, which no column keeps: how often it was handed to the provider, how many of
      these calls `attempts` does not show, and whether any of its deliveries was overtaken by lease
      recovery or died during its call. */
  datatype Row = Row(
    recipient: string, status: Status, attempts: nat, maxAttempts: nat, nextAttemptAt: nat, notAfter: nat,
    leaseOwner: Option<nat>, leaseExpiresAt: Option<nat>, lastError: Option<string>,
    sends: nat, uncounted: nat, disturbed: bool)

  /** A claimed row in the hands of a worker, as it was read; `sending` while the provider call runs. */
  datatype Delivery = Delivery(worker: nat, id: nat, attempts: nat, maxAttempts: nat, notAfter: nat, sending: bool)

  datatype State = State(rows: seq<Row>, clock: nat, deliveries: seq<Delivery>)

  datatype SendResult =
    | Accepted(delivered: bool)
    | Ambiguous(code: string)
    | Permanent(code: string)
    | Retryable(code: string, jitter: real)

  predicate Queued(st: Status) {
    st == Pending || st == Retry
  }

  predicate Terminal(st: Status) {
    st == Sent || st == Delivered || st == Failed || st == Cancelled
  }

  /** `last_error` keeps 60 characters. */
  function Clip(error: string): string {
    if |error| <= 60 then error else error[..60]
  }

  // ---------------------------------------------------------------- backoff

  const BASE_BACKOFF_MS := 5_000
  const MAX_BACKOFF_MS := 300_000

  function Pow2(n: nat): (r: nat)
    ensures r >= 1
  {
    if n == 0 then 1 else 2 * Pow2(n - 1)
  }

  function BackoffExp(attempts: nat): nat {
    var e := BASE_BACKOFF_MS * Pow2(if attempts >= 1 then attempts - 1 else 0);
    if e < MAX_BACKOFF_MS then e else MAX_BACKOFF_MS
  }

  /** `jitter` is the random number, at least 0 and less than 1. */
  function BackoffMs(attempts: nat, jitter: real): int {
    (BackoffExp(attempts) as real * (0.8 + jitter * 0.4)).Floor
  }

  /** `Math.ceil(ms / 1000)`. */
  function CeilSeconds(ms: int): int {
    (ms + 999) / 1000
  }

  function RetryDelay(attempts: nat, jitter: real): int {
    CeilSeconds(BackoffMs(attempts, jitter))
  }

  /** Every retry waits at least 4 and at most 360 seconds. */
  lemma RetryDelayBounds(attempts: nat, jitter: real)
    requires 0.0 <= jitter < 1.0
    ensures 4 <= RetryDelay(attempts, jitter) <= 360
  {
    var e := BackoffExp(attempts) as real;
    assert 5_000.0 <= e <= 300_000.0;
    var f := 0.8 + jitter * 0.4;
    assert 0.8 <= f < 1.2;
    ScaleBounds(e, f);
    var b := BackoffMs(attempts, jitter);
    assert b == (e * f).Floor;
    assert b as real < 360_000.0;
  }

  lemma ScaleBounds(e: real, f: real)
    requires 5_000.0 <= e <= 300_000.0 && 0.8 <= f < 1.2
    ensures 4_000.0 <= e * f < 360_000.0
  {
    assert e * f >= 5_000.0 * f;
    assert e * f <= 300_000.0 * f;
  }

  /** The base of the delay doubles with each failed attempt until it stays at five minutes. */
  lemma BackoffDoubles(attempts: nat)
    requires attempts >= 1
    ensures BackoffExp(1) == 5_000
    ensures BackoffExp(attempts + 1) == if 2 * BackoffExp(attempts) < MAX_BACKOFF_MS then 2 * BackoffExp(attempts) else MAX_BACKOFF_MS
  {
  }

  // ---------------------------------------------------------------- transitions

  function Supersede(row: Row, recipient: string): Row {
    if row.recipient == recipient && Queued(row.status) then row.(status := Cancelled, lastError := Some("SUPERSEDED")) else row
  }

  /** `enqueueOtpSms`: cancel what is still queued for the recipient, then insert. */
  function Enqueue(s: State, recipient: string, maxAttempts: nat, maxAge: nat): State {
    s.(rows := seq(|s.rows|, k requires 0 <= k < |s.rows| => Supersede(s.rows[k], recipient))
               + [Row(recipient, Pending, 0, maxAttempts, s.clock, s.clock + maxAge, None, None, None, 0, 0, false)])
  }

  /** The conditional UPDATE of `claim`: only one worker's WHERE matches. */
  function Claim(s: State, w: nat, id: nat, lease: nat): State {
    if id >= |s.rows| || !Queued(s.rows[id].status) || s.rows[id].nextAttemptAt > s.clock then s
    else
      var row := s.rows[id].(status := Processing, leaseOwner := Some(w), leaseExpiresAt := Some(s.clock + lease));
      s.(rows := s.rows[id := row],
         deliveries := s.deliveries + [Delivery(w, id, row.attempts, row.maxAttempts, row.notAfter, false)])
  }

  /** Delivery of row id by some worker is under way. */
  predicate InHand(s: State, id: nat) {
    exists k :: 0 <= k < |s.deliveries| && s.deliveries[k].id == id
  }

  predicate LeaseOver(row: Row, clock: nat) {
    row.status == Processing && row.leaseExpiresAt.Some? && row.leaseExpiresAt.value < clock
  }

  /** `recoverStaleLeases`, whether the worker died or is only slow. */
  function Recover(s: State): State {
    s.(rows := seq(|s.rows|, id requires 0 <= id < |s.rows| =>
      if LeaseOver(s.rows[id], s.clock)
      then s.rows[id].(status := Retry, leaseOwner := None, disturbed := s.rows[id].disturbed || InHand(s, id))
      else s.rows[id]))
  }

  function Drop(ds: seq<Delivery>, k: nat): seq<Delivery>
    requires k < |ds|
  {
    ds[..k] + ds[k + 1..]
  }

  /** The row when a delivery ends with `attempts`: calls the new count does not show are uncounted. */
  function Ended(row: Row, d: Delivery, st: Status, attempts: nat, error: Option<string>): Row {
    var calls := row.attempts + if d.sending then 1 else 0;
    row.(status := st, attempts := attempts, lastError := error, leaseOwner := None, leaseExpiresAt := None,
         uncounted := row.uncounted + if calls > attempts then calls - attempts else 0)
  }

  /** `markTerminal`: by id alone, whatever the row holds. */
  function Finish(s: State, k: nat, st: Status, attempts: nat, error: Option<string>): State
    requires k < |s.deliveries|
  {
    var d := s.deliveries[k];
    if d.id >= |s.rows| then s
    else s.(rows := s.rows[d.id := Ended(s.rows[d.id], d, st, attempts, error)], deliveries := Drop(s.deliveries, k))
  }

  /** First half of `deliver`: too old, undecipherable, or handed to the provider. */
  function Begin(s: State, k: nat, deciphers: bool): State {
    if k >= |s.deliveries| || s.deliveries[k].sending || s.deliveries[k].id >= |s.rows| then s
    else
      var d := s.deliveries[k];
      if d.notAfter <= s.clock then Finish(s, k, Cancelled, s.rows[d.id].attempts, Some("EXPIRED_BEFORE_SEND"))
      else if !deciphers then Finish(s, k, Failed, d.attempts + 1, Some("PAYLOAD_DECRYPT"))
      else s.(rows := s.rows[d.id := s.rows[d.id].(sends := s.rows[d.id].sends + 1)],
              deliveries := s.deliveries[k := d.(sending := true)])
  }

  /** Second half: what becomes of the row when the provider has answered. */
  function Conclude(s: State, k: nat, r: SendResult): State {
    if k >= |s.deliveries| || !s.deliveries[k].sending || s.deliveries[k].id >= |s.rows| then s
    else
      var d := s.deliveries[k];
      var attempts := d.attempts + 1;
      match r
      case Accepted(delivered) => Finish(s, k, if delivered then Delivered else Sent, attempts, None)
      case Ambiguous(code) => Finish(s, k, Failed, attempts, Some(Clip("AMBIGUOUS:" + code)))
      case Permanent(code) => Finish(s, k, Failed, attempts, Some(Clip("PERMANENT:" + code)))
      case Retryable(code, jitter) =>
        if attempts >= d.maxAttempts then Finish(s, k, Failed, attempts, Some(Clip("RETRYABLE:" + code)))
        else
          var t := Finish(s, k, Retry, attempts, Some(Clip("RETRYABLE:" + code)));
          var delay := RetryDelay(attempts, jitter);
          t.(rows := t.rows[d.id := t.rows[d.id].(nextAttemptAt := s.clock + if delay < 0 then 0 else delay)])
  }

  /** A worker that dies leaves its row to lease recovery. A provider call under way is then never recorded. */
  function Crash(s: State, k: nat): State {
    if k >= |s.deliveries| || s.deliveries[k].id >= |s.rows| then s
    else
      var d := s.deliveries[k];
      var row := s.rows[d.id];
      s.(rows := if d.sending then s.rows[d.id := row.(uncounted := row.uncounted + 1, disturbed := true)] else s.rows,
         deliveries := Drop(s.deliveries, k))
  }

  datatype Event =
    | EvEnqueue(recipient: string, maxAttempts: nat, maxAge: nat)
    | EvClaim(worker: nat, id: nat, lease: nat)
    | EvRecover
    | EvBegin(k: nat, deciphers: bool)
    | EvConclude(k: nat, result: SendResult)
    | EvCrash(k: nat)
    | EvTick(seconds: nat)

  /** `SMS_MAX_ATTEMPTS` is positive. */
  function Step(s: State, e: Event): State {
    match e
    case EvEnqueue(r, m, age) => if m == 0 then s else Enqueue(s, r, m, age)
    case EvClaim(w, id, lease) => Claim(s, w, id, lease)
    case EvRecover => Recover(s)
    case EvBegin(k, ok) => Begin(s, k, ok)
    case EvConclude(k, r) => Conclude(s, k, r)
    case EvCrash(k) => Crash(s, k)
    case EvTick(n) => s.(clock := s.clock + n)
  }

  function Run(s: State, events: seq<Event>): State
    decreases |events|
  {
    if events == [] then s else Run(Step(s, events[0]), events[1..])
  }

  ghost predicate Reachable(s: State) {
    exists clock: nat, events: seq<Event> :: s == Run(State([], clock, []), events)
  }

  // ---------------------------------------------------------------- the invariant

  /** How many provider calls for row id are under way. */
  function InFlight(ds: seq<Delivery>, id: nat): nat {
    if ds == [] then 0
    else
      var d := ds[|ds| - 1];
      InFlight(ds[..|ds| - 1], id) + if d.id == id && d.sending then 1 else 0
  }

  /** A delivery was read from its row; while the row is undisturbed it is leased to that worker. */
  ghost predicate Holds(s: State, d: Delivery) {
    && d.id < |s.rows|
    && var row := s.rows[d.id];
      && d.attempts < d.maxAttempts == row.maxAttempts && d.notAfter == row.notAfter
      && (!row.disturbed ==> row.status == Processing && row.leaseOwner == Some(d.worker) && row.attempts == d.attempts)
  }

  ghost predicate RowOk(s: State, id: nat)
    requires id < |s.rows|
  {
    var row := s.rows[id];
    && row.attempts <= row.maxAttempts
    && (!Terminal(row.status) ==> row.attempts < row.maxAttempts)
    && (row.status == Processing ==> row.leaseExpiresAt.Some? && row.nextAttemptAt <= s.clock)
    && (!row.disturbed ==> row.uncounted == 0)
    && row.sends <= row.attempts + row.uncounted + InFlight(s.deliveries, id)
  }

  ghost predicate Inv(s: State) {
    && (forall k :: 0 <= k < |s.deliveries| ==> Holds(s, s.deliveries[k]))
    && (forall k, l :: 0 <= k < l < |s.deliveries| && s.deliveries[k].id == s.deliveries[l].id ==> s.rows[s.deliveries[k].id].disturbed)
    && forall id: nat :: id < |s.rows| ==> RowOk(s, id)
  }

  // ---------------------------------------------------------------- counting calls under way

  lemma InFlightAppend(ds: seq<Delivery>, d: Delivery, id: nat)
    ensures InFlight(ds + [d], id) == InFlight(ds, id) + if d.id == id && d.sending then 1 else 0
  {
    assert (ds + [d])[..|ds|] == ds;
  }

  lemma {:induction false} InFlightUpdate(ds: seq<Delivery>, k: nat, d: Delivery, id: nat)
    requires k < |ds|
    ensures InFlight(ds[k := d], id) + (if ds[k].id == id && ds[k].sending then 1 else 0)
      == InFlight(ds, id) + if d.id == id && d.sending then 1 else 0
  {
    var n := |ds| - 1;
    if k == n {
      assert ds[k := d][..n] == ds[..n];
    } else {
      assert ds[k := d][..n] == ds[..n][k := d];
      InFlightUpdate(ds[..n], k, d, id);
    }
  }

  lemma {:induction false} InFlightDrop(ds: seq<Delivery>, k: nat, id: nat)
    requires k < |ds|
    ensures InFlight(Drop(ds, k), id) + (if ds[k].id == id && ds[k].sending then 1 else 0) == InFlight(ds, id)
  {
    var n := |ds| - 1;
    if k == n {
      assert Drop(ds, k) == ds[..n];
    } else {
      assert Drop(ds, k)[..n - 1] == Drop(ds[..n], k);
      InFlightDrop(ds[..n], k, id);
    }
  }

  lemma {:induction false} InFlightIsInHand(ds: seq<Delivery>, id: nat)
    ensures InFlight(ds, id) > 0 ==> exists k :: 0 <= k < |ds| && ds[k].id == id && ds[k].sending
  {
    if ds != [] {
      var rest := ds[..|ds| - 1];
      InFlightIsInHand(rest, id);
      if k :| 0 <= k < |rest| && rest[k].id == id && rest[k].sending {
        assert ds[k] == rest[k];
      }
    }
  }

  lemma {:induction false} InFlightAtMostOne(ds: seq<Delivery>, id: nat)
    requires forall k, l :: 0 <= k < l < |ds| ==> !(ds[k].id == id && ds[l].id == id)
    ensures InFlight(ds, id) <= 1
  {
    if ds != [] {
      InFlightAtMostOne(ds[..|ds| - 1], id);
      InFlightIsInHand(ds[..|ds| - 1], id);
    }
  }

  // ---------------------------------------------------------------- what each step keeps

  lemma EnqueueKeeps(s: State, r: string, m: nat, age: nat)
    requires Inv(s) && m > 0
    ensures Inv(Enqueue(s, r, m, age))
  {
    var t := Enqueue(s, r, m, age);
    forall k | 0 <= k < |t.deliveries| ensures Holds(t, t.deliveries[k]) {
      assert Holds(s, s.deliveries[k]);
    }
    forall id: nat | id < |t.rows| ensures RowOk(t, id) {
      if id < |s.rows| {
        assert RowOk(s, id);
      }
    }
  }

  lemma RecoverKeeps(s: State)
    requires Inv(s)
    ensures Inv(Recover(s))
  {
    var t := Recover(s);
    forall k | 0 <= k < |t.deliveries| ensures Holds(t, t.deliveries[k]) {
      assert Holds(s, s.deliveries[k]);
      assert InHand(s, s.deliveries[k].id);
    }
    forall id: nat | id < |t.rows| ensures RowOk(t, id) {
      assert RowOk(s, id);
    }
  }

  lemma ClaimKeeps(s: State, w: nat, id: nat, lease: nat)
    requires Inv(s)
    ensures Inv(Claim(s, w, id, lease))
  {
    var t := Claim(s, w, id, lease);
    if t != s {
      assert RowOk(s, id);
      forall k | 0 <= k < |s.deliveries| ensures s.deliveries[k].id == id ==> s.rows[id].disturbed {
        assert Holds(s, s.deliveries[k]);
      }
      forall k | 0 <= k < |t.deliveries| ensures Holds(t, t.deliveries[k]) {
        if k < |s.deliveries| {
          assert Holds(s, s.deliveries[k]);
        }
      }
      forall j: nat | j < |t.rows| ensures RowOk(t, j) {
        assert RowOk(s, j);
        InFlightAppend(s.deliveries, t.deliveries[|s.deliveries|], j);
      }
    }
  }

  /** Delivery k is gone and its row has the given content. */
  lemma EndKeeps(s: State, k: nat, row: Row, t: State)
    requires Inv(s) && k < |s.deliveries|
    requires s.deliveries[k].id < |s.rows| && t == s.(rows := s.rows[s.deliveries[k].id := row], deliveries := Drop(s.deliveries, k))
    requires var d, old' := s.deliveries[k], s.rows[s.deliveries[k].id];
      && row.maxAttempts == old'.maxAttempts && row.notAfter == old'.notAfter && (old'.disturbed ==> row.disturbed)
      && row.attempts <= row.maxAttempts && (!Terminal(row.status) ==> row.attempts < row.maxAttempts)
      && (row.status == Processing ==> row.leaseExpiresAt.Some? && row.nextAttemptAt <= s.clock)
      && (!row.disturbed ==> row.uncounted == 0)
      && row.sends == old'.sends
      && row.attempts + row.uncounted >= old'.attempts + old'.uncounted + if d.sending then 1 else 0
    ensures Inv(t)
  {
    var id := s.deliveries[k].id;
    assert Holds(s, s.deliveries[k]);
    forall l | 0 <= l < |t.deliveries| ensures Holds(t, t.deliveries[l]) {
      var m := if l < k then l else l + 1;
      assert t.deliveries[l] == s.deliveries[m] && Holds(s, s.deliveries[m]);
    }
    forall l, m | 0 <= l < m < |t.deliveries| && t.deliveries[l].id == t.deliveries[m].id ensures t.rows[t.deliveries[l].id].disturbed {
      var l', m' := if l < k then l else l + 1, if m < k then m else m + 1;
      assert t.deliveries[l] == s.deliveries[l'] && t.deliveries[m] == s.deliveries[m'];
    }
    forall j: nat | j < |t.rows| ensures RowOk(t, j) {
      assert RowOk(s, j);
      InFlightDrop(s.deliveries, k, j);
    }
  }

  lemma FinishKeeps(s: State, k: nat, st: Status, attempts: nat, error: Option<string>)
    requires Inv(s) && k < |s.deliveries| && s.deliveries[k].id < |s.rows|
    requires attempts <= s.deliveries[k].maxAttempts && st != Processing
    requires Terminal(st) || attempts < s.deliveries[k].maxAttempts
    requires attempts == s.deliveries[k].attempts + 1 || (attempts == s.rows[s.deliveries[k].id].attempts && !s.deliveries[k].sending)
    ensures Inv(Finish(s, k, st, attempts, error))
  {
    var d := s.deliveries[k];
    assert Holds(s, d) && RowOk(s, d.id);
    EndKeeps(s, k, Ended(s.rows[d.id], d, st, attempts, error), Finish(s, k, st, attempts, error));
  }

  lemma SendingKeeps(s: State, k: nat, t: State)
    requires Inv(s) && k < |s.deliveries| && !s.deliveries[k].sending && s.deliveries[k].id < |s.rows|
    requires var d := s.deliveries[k];
      t == s.(rows := s.rows[d.id := s.rows[d.id].(sends := s.rows[d.id].sends + 1)],
              deliveries := s.deliveries[k := d.(sending := true)])
    ensures Inv(t)
  {
    var d := s.deliveries[k];
    assert Holds(s, d) && RowOk(s, d.id);
    forall l | 0 <= l < |t.deliveries| ensures Holds(t, t.deliveries[l]) {
      assert Holds(s, s.deliveries[l]);
    }
    forall j: nat | j < |t.rows| ensures RowOk(t, j) {
      assert RowOk(s, j);
      InFlightUpdate(s.deliveries, k, d.(sending := true), j);
    }
  }

  lemma BeginKeeps(s: State, k: nat, deciphers: bool)
    requires Inv(s)
    ensures Inv(Begin(s, k, deciphers))
  {
    if k < |s.deliveries| && !s.deliveries[k].sending && s.deliveries[k].id < |s.rows| {
      var d := s.deliveries[k];
      assert Holds(s, d) && RowOk(s, d.id);
      if d.notAfter <= s.clock {
        FinishKeeps(s, k, Cancelled, s.rows[d.id].attempts, Some("EXPIRED_BEFORE_SEND"));
      } else if !deciphers {
        FinishKeeps(s, k, Failed, d.attempts + 1, Some("PAYLOAD_DECRYPT"));
      } else {
        SendingKeeps(s, k, Begin(s, k, deciphers));
      }
    }
  }

  /** A later attempt time on a queued row disturbs nothing. */
  lemma DelayKeeps(s: State, id: nat, at: nat)
    requires Inv(s) && id < |s.rows| && s.rows[id].status != Processing
    ensures Inv(s.(rows := s.rows[id := s.rows[id].(nextAttemptAt := at)]))
  {
    var t := s.(rows := s.rows[id := s.rows[id].(nextAttemptAt := at)]);
    forall l | 0 <= l < |t.deliveries| ensures Holds(t, t.deliveries[l]) {
      assert Holds(s, s.deliveries[l]);
    }
    forall j: nat | j < |t.rows| ensures RowOk(t, j) {
      assert RowOk(s, j);
    }
  }

  lemma ConcludeKeeps(s: State, k: nat, r: SendResult)
    requires Inv(s)
    ensures Inv(Conclude(s, k, r))
  {
    if k < |s.deliveries| && s.deliveries[k].sending && s.deliveries[k].id < |s.rows| {
      var d := s.deliveries[k];
      var attempts := d.attempts + 1;
      assert Holds(s, d);
      match r
      case Accepted(delivered) => FinishKeeps(s, k, if delivered then Delivered else Sent, attempts, None);
      case Ambiguous(code) => FinishKeeps(s, k, Failed, attempts, Some(Clip("AMBIGUOUS:" + code)));
      case Permanent(code) => FinishKeeps(s, k, Failed, attempts, Some(Clip("PERMANENT:" + code)));
      case Retryable(code, jitter) =>
        if attempts >= d.maxAttempts {
          FinishKeeps(s, k, Failed, attempts, Some(Clip("RETRYABLE:" + code)));
        } else {
          FinishKeeps(s, k, Retry, attempts, Some(Clip("RETRYABLE:" + code)));
          DelayKeeps(Finish(s, k, Retry, attempts, Some(Clip("RETRYABLE:" + code))), d.id, Conclude(s, k, r).rows[d.id].nextAttemptAt);
        }
    }
  }

  lemma CrashKeeps(s: State, k: nat)
    requires Inv(s)
    ensures Inv(Crash(s, k))
  {
    if k < |s.deliveries| && s.deliveries[k].id < |s.rows| {
      var d := s.deliveries[k];
      var row := s.rows[d.id];
      assert Holds(s, d) && RowOk(s, d.id);
      assert s.rows == s.rows[d.id := row];
      EndKeeps(s, k, if d.sending then row.(uncounted := row.uncounted + 1, disturbed := true) else row, Crash(s, k));
    }
  }

  lemma TickKeeps(s: State, n: nat)
    requires Inv(s)
    ensures Inv(s.(clock := s.clock + n))
  {
    var t := s.(clock := s.clock + n);
    forall k | 0 <= k < |t.deliveries| ensures Holds(t, t.deliveries[k]) {
      assert Holds(s, s.deliveries[k]);
    }
    forall id: nat | id < |t.rows| ensures RowOk(t, id) {
      assert RowOk(s, id);
    }
  }

  lemma StepKeeps(s: State, e: Event)
    requires Inv(s)
    ensures Inv(Step(s, e))
  {
    match e
    case EvEnqueue(r, m, age) => if m > 0 { EnqueueKeeps(s, r, m, age); }
    case EvClaim(w, id, lease) => ClaimKeeps(s, w, id, lease);
    case EvRecover => RecoverKeeps(s);
    case EvBegin(k, ok) => BeginKeeps(s, k, ok);
    case EvConclude(k, r) => ConcludeKeeps(s, k, r);
    case EvCrash(k) => CrashKeeps(s, k);
    case EvTick(n) => TickKeeps(s, n);
  }

  lemma {:induction false} RunKeeps(s: State, events: seq<Event>)
    requires Inv(s)
    ensures Inv(Run(s, events))
    decreases |events|
  {
    if events != [] {
      StepKeeps(s, events[0]);
      RunKeeps(Step(s, events[0]), events[1..]);
    }
  }

  lemma ReachableInv(s: State)
    requires Reachable(s)
    ensures Inv(s)
  {
    var clock: nat, events: seq<Event> :| s == Run(State([], clock, []), events);
    RunKeeps(State([], clock, []), events);
  }

  // ---------------------------------------------------------------- how often a row is sent

  /** Every provider call is in the attempts of its row, uncounted or under way, and a row never has more
      than `max_attempts` attempts. As long as none of its deliveries was overtaken by lease recovery or
      died during its call, a row has one delivery at most, no uncounted call, and no more than
      `max_attempts` calls in all, and it is in hand only while PROCESSING. */
  lemma SendsAreBounded(s: State, id: nat)
    requires Reachable(s) && id < |s.rows|
    ensures var row := s.rows[id];
      && row.sends <= row.attempts + row.uncounted + InFlight(s.deliveries, id)
      && row.attempts <= row.maxAttempts
      && (!row.disturbed ==> row.uncounted == 0 && row.sends <= row.maxAttempts)
      && (!row.disturbed && InHand(s, id) ==> row.status == Processing)
    ensures !s.rows[id].disturbed ==> forall k, l :: 0 <= k < l < |s.deliveries| ==> !(s.deliveries[k].id == id && s.deliveries[l].id == id)
  {
    ReachableInv(s);
    assert RowOk(s, id);
    forall k | 0 <= k < |s.deliveries| && s.deliveries[k].id == id ensures Holds(s, s.deliveries[k]) {}
    if !s.rows[id].disturbed {
      InFlightAtMostOne(s.deliveries, id);
      InFlightIsInHand(s.deliveries, id);
    }
  }

  /** A row in PROCESSING has a lease, and once the lease is over recovery frees the row for any worker. */
  lemma NoRowIsStuck(s: State, id: nat, later: nat, w: nat, lease: nat)
    requires Reachable(s) && id < |s.rows| && s.rows[id].status == Processing
    ensures s.rows[id].leaseExpiresAt.Some?
    ensures later >= s.clock && later > s.rows[id].leaseExpiresAt.value ==>
      var t := Claim(Recover(s.(clock := later)), w, id, lease);
      && t.rows[id].status == Processing && t.rows[id].leaseOwner == Some(w) && t.rows[id].leaseExpiresAt == Some(later + lease)
      && |t.deliveries| == |s.deliveries| + 1 && t.deliveries[|s.deliveries|].id == id
  {
    ReachableInv(s);
    assert RowOk(s, id);
  }

  lemma RunOne(s: State, e: Event)
    ensures Run(s, [e]) == Step(s, e)
  {
    assert [e][1..] == [];
  }

  lemma RunTwo(s: State, e: Event, f: Event)
    ensures Run(s, [e, f]) == Step(Step(s, e), f)
  {
    assert [e, f][1..] == [f];
    RunOne(Step(s, e), f);
  }

  lemma RunThree(s: State, e: Event, f: Event, g: Event)
    ensures Run(s, [e, f, g]) == Step(Step(Step(s, e), f), g)
  {
    assert [e, f, g][1..] == [f, g];
    RunTwo(Step(s, e), f, g);
  }

  predicate Due(s: State, id: nat) {
    id < |s.rows| && Queued(s.rows[id].status) && s.rows[id].nextAttemptAt <= s.clock < s.rows[id].notAfter
  }

  /** A claimed row that is young enough is sent. */
  lemma ClaimedIsSent(s: State, w: nat, id: nat, lease: nat)
    requires Due(s, id)
    ensures var t := Begin(Claim(s, w, id, lease), |s.deliveries|, true);
      && |t.rows| == |s.rows|
      && t.deliveries == s.deliveries + [Delivery(w, id, s.rows[id].attempts, s.rows[id].maxAttempts, s.rows[id].notAfter, true)]
      && t.rows[id] == s.rows[id].(status := Processing, leaseOwner := Some(w), leaseExpiresAt := Some(s.clock + lease),
                                   sends := s.rows[id].sends + 1)
  {
  }

  /** Whenever a delivery is still under way after its lease, the row can be recovered, claimed and sent
      a second time beside it, without an attempt: the one-delivery rule ends with the lease. */
  lemma OvertakenIsSentAgain(s: State, k: nat, w: nat, lease: nat)
    requires Reachable(s) && k < |s.deliveries| && s.deliveries[k].id < |s.rows|
    requires LeaseOver(s.rows[s.deliveries[k].id], s.clock) && s.clock < s.rows[s.deliveries[k].id].notAfter
    ensures var id, n := s.deliveries[k].id, |s.deliveries|;
      var t := Run(s, [EvRecover, EvClaim(w, id, lease), EvBegin(n, true)]);
      && |t.deliveries| == n + 1 && t.deliveries[k] == s.deliveries[k] && t.deliveries[n].id == id && t.deliveries[n].sending
      && id < |t.rows|
      && t.rows[id].sends == s.rows[id].sends + 1 && t.rows[id].attempts == s.rows[id].attempts && t.rows[id].disturbed
  {
    var id, n := s.deliveries[k].id, |s.deliveries|;
    RunThree(s, EvRecover, EvClaim(w, id, lease), EvBegin(n, true));
    ReachableInv(s);
    assert RowOk(s, id) && InHand(s, id);
    ClaimedIsSent(Recover(s), w, id, lease);
  }

  // ---------------------------------------------------------------- workers that die during the call

  /** A worker claims the row, dies during the provider call, and the lease runs out. */
  function Death(s: State, w: nat, id: nat, lease: nat): seq<Event> {
    [EvClaim(w, id, lease), EvBegin(|s.deliveries|, true), EvCrash(|s.deliveries|), EvTick(lease + 1), EvRecover]
  }

  lemma {:induction false} RunAppend(s: State, events: seq<Event>, more: seq<Event>)
    ensures Run(s, events + more) == Run(Run(s, events), more)
    decreases |events|
  {
    if events == [] {
      assert events + more == more;
    } else {
      assert (events + more)[0] == events[0] && (events + more)[1..] == events[1..] + more;
      RunAppend(Step(s, events[0]), events[1..], more);
    }
  }

  lemma DeathCall(s: State, w: nat, id: nat, lease: nat)
    requires Due(s, id)
    ensures var t := Step(Step(Step(s, EvClaim(w, id, lease)), EvBegin(|s.deliveries|, true)), EvCrash(|s.deliveries|));
      && t.deliveries == s.deliveries && t.clock == s.clock && |t.rows| == |s.rows|
      && t.rows[id] == s.rows[id].(status := Processing, leaseOwner := Some(w), leaseExpiresAt := Some(s.clock + lease),
        sends := s.rows[id].sends + 1, uncounted := s.rows[id].uncounted + 1, disturbed := true)
  {
    var n := |s.deliveries|;
    var s1 := Claim(s, w, id, lease);
    assert s1.deliveries[n].id == id && !s1.deliveries[n].sending && s1.deliveries[n].notAfter == s.rows[id].notAfter;
    var s2 := Begin(s1, n, true);
    assert Drop(s2.deliveries, n) == s.deliveries;
  }

  lemma DeathRound(s: State, w: nat, id: nat, lease: nat)
    requires Due(s, id)
    ensures var t := Run(s, Death(s, w, id, lease));
      && t.deliveries == s.deliveries && t.clock == s.clock + lease + 1 && |t.rows| == |s.rows|
      && t.rows[id].status == Retry && t.rows[id].attempts == s.rows[id].attempts && t.rows[id].sends == s.rows[id].sends + 1
      && t.rows[id].nextAttemptAt == s.rows[id].nextAttemptAt && t.rows[id].notAfter == s.rows[id].notAfter
      && t.rows[id].maxAttempts == s.rows[id].maxAttempts
  {
    var n := |s.deliveries|;
    DeathCall(s, w, id, lease);
    var u := Step(Step(Step(s, EvClaim(w, id, lease)), EvBegin(n, true)), EvCrash(n));
    RunThree(s, EvClaim(w, id, lease), EvBegin(n, true), EvCrash(n));
    RunTwo(u, EvTick(lease + 1), EvRecover);
    RunAppend(s, [EvClaim(w, id, lease), EvBegin(n, true), EvCrash(n)], [EvTick(lease + 1), EvRecover]);
    assert Death(s, w, id, lease) == [EvClaim(w, id, lease), EvBegin(n, true), EvCrash(n)] + [EvTick(lease + 1), EvRecover];
  }

  /** If workers keep dying during the call, a queued row is sent n times without one attempt, for every n
      for which the message is young enough: `max_attempts` does not bound it. */
  lemma {:induction false} DyingSendsRepeat(s: State, w: nat, id: nat, lease: nat, n: nat) returns (events: seq<Event>)
    requires Due(s, id) && s.clock + n * (lease + 1) < s.rows[id].notAfter
    ensures var t := Run(s, events);
      && id < |t.rows| && t.rows[id].sends == s.rows[id].sends + n && t.rows[id].attempts == s.rows[id].attempts
      && t.rows[id].maxAttempts == s.rows[id].maxAttempts
    decreases n
  {
    if n == 0 {
      events := [];
    } else {
      var round := Death(s, w, id, lease);
      DeathRound(s, w, id, lease);
      var t := Run(s, round);
      var m: nat := n - 1;
      assert n * (lease + 1) == (lease + 1) + m * (lease + 1);
      assert m * (lease + 1) >= 0;
      var more := DyingSendsRepeat(t, w, id, lease, m);
      events := round + more;
      RunAppend(s, round, more);
    }
  }

  // ---------------------------------------------------------------- terminal rows

  lemma DropLeavesOut(ds: seq<Delivery>, k: nat, id: nat)
    requires k < |ds| && forall l :: 0 <= l < |ds| ==> ds[l].id != id
    ensures forall l :: 0 <= l < |Drop(ds, k)| ==> Drop(ds, k)[l].id != id
  {
  }

  lemma TerminalStep(s: State, e: Event, id: nat)
    requires id < |s.rows| && Terminal(s.rows[id].status) && !InHand(s, id)
    ensures var t := Step(s, e); id < |t.rows| && t.rows[id] == s.rows[id] && !InHand(t, id)
  {
    if e.EvBegin? && e.k < |s.deliveries| {
      DropLeavesOut(s.deliveries, e.k, id);
    } else if e.EvConclude? && e.k < |s.deliveries| {
      DropLeavesOut(s.deliveries, e.k, id);
    } else if e.EvCrash? && e.k < |s.deliveries| {
      DropLeavesOut(s.deliveries, e.k, id);
    }
  }

  /** A row that is SENT, DELIVERED, FAILED or CANCELLED and in no worker's hands never changes again. */
  lemma {:induction false} TerminalForever(s: State, events: seq<Event>, id: nat)
    requires id < |s.rows| && Terminal(s.rows[id].status) && !InHand(s, id)
    ensures var t := Run(s, events); id < |t.rows| && t.rows[id] == s.rows[id]
    decreases |events|
  {
    if events != [] {
      TerminalStep(s, events[0], id);
      TerminalForever(Step(s, events[0]), events[1..], id);
    }
  }

  /** No worker can still change the status of the terminal row: those that hold it can only find it expired. */
  ghost predicate Settled(s: State, id: nat) {
    && id < |s.rows| && Terminal(s.rows[id].status)
    && forall k :: 0 <= k < |s.deliveries| && s.deliveries[k].id == id ==>
      !s.deliveries[k].sending && s.deliveries[k].notAfter <= s.clock && s.rows[id].status == Cancelled
  }

  lemma SettledStep(s: State, e: Event, id: nat)
    requires Settled(s, id)
    ensures Settled(Step(s, e), id) && Step(s, e).rows[id].status == s.rows[id].status
  {
    var t := Step(s, e);
    forall k | 0 <= k < |t.deliveries| && t.deliveries[k].id == id
      ensures !t.deliveries[k].sending && t.deliveries[k].notAfter <= t.clock && s.rows[id].status == Cancelled
    {
      if (e.EvBegin? || e.EvConclude? || e.EvCrash?) && e.k < |s.deliveries| {
        assert t.deliveries[k] == s.deliveries[k] || k >= e.k;
        assert k >= e.k && k + 1 < |s.deliveries| && |t.deliveries| < |s.deliveries| ==> t.deliveries[k] == s.deliveries[k + 1];
      }
    }
  }

  lemma {:induction false} SettledRun(s: State, events: seq<Event>, id: nat)
    requires Settled(s, id)
    ensures Settled(Run(s, events), id) && Run(s, events).rows[id].status == s.rows[id].status
    decreases |events|
  {
    if events != [] {
      SettledStep(s, events[0], id);
      SettledRun(Step(s, events[0]), events[1..], id);
    }
  }

  ghost predicate StatusStays(s: State, events: seq<Event>, id: nat)
    requires id < |s.rows|
  {
    var t := Run(s, events);
    id < |t.rows| && t.rows[id].status == s.rows[id].status
  }

  /** The answer a row does not show yet. */
  function OtherAnswer(row: Row): SendResult {
    Accepted(row.status != Delivered)
  }

  lemma AnswerRewrites(s: State, k: nat)
    requires k < |s.deliveries| && s.deliveries[k].sending && s.deliveries[k].id < |s.rows|
    ensures var id := s.deliveries[k].id;
      Step(s, EvConclude(k, OtherAnswer(s.rows[id]))).rows[id].status != s.rows[id].status
  {
  }

  lemma UnsettledChanges(s: State, k: nat) returns (events: seq<Event>)
    requires Inv(s) && k < |s.deliveries| && s.deliveries[k].id < |s.rows|
    requires s.deliveries[k].sending || s.deliveries[k].notAfter > s.clock || s.rows[s.deliveries[k].id].status != Cancelled
    ensures !StatusStays(s, events, s.deliveries[k].id)
  {
    var id := s.deliveries[k].id;
    if s.deliveries[k].sending {
      events := [EvConclude(k, OtherAnswer(s.rows[id]))];
      RunOne(s, events[0]);
      AnswerRewrites(s, k);
    } else if s.deliveries[k].notAfter > s.clock {
      var t := Step(s, EvBegin(k, true));
      events := [EvBegin(k, true), EvConclude(k, OtherAnswer(s.rows[id]))];
      RunTwo(s, events[0], events[1]);
      assert t.deliveries[k].sending && t.rows[id].status == s.rows[id].status;
      AnswerRewrites(t, k);
    } else {
      events := [EvBegin(k, true)];
      RunOne(s, events[0]);
    }
  }

  /** A terminal row keeps its status in every run exactly if it is settled. A late answer, for example,
      turns a FAILED row into DELIVERED, or a SENT one back into RETRY. */
  lemma TerminalExactly(s: State, id: nat)
    requires Reachable(s) && id < |s.rows| && Terminal(s.rows[id].status)
    ensures Settled(s, id) <==> forall events: seq<Event> :: StatusStays(s, events, id)
  {
    ReachableInv(s);
    if Settled(s, id) {
      forall events: seq<Event> ensures StatusStays(s, events, id) {
        SettledRun(s, events, id);
      }
    } else {
      var k :| 0 <= k < |s.deliveries| && s.deliveries[k].id == id
        && (s.deliveries[k].sending || s.deliveries[k].notAfter > s.clock || s.rows[id].status != Cancelled);
      var events := UnsettledChanges(s, k);
    }
  }

  /** A new code cancels the codes still queued for its recipient: unless a worker holds such a row, it is
      never sent from then on, whatever happens. Rows of others, and those a worker has claimed, stay. */
  lemma SupersededIsNeverSent(s: State, r: string, m: nat, age: nat, events: seq<Event>, id: nat)
    requires id < |s.rows|
    ensures s.rows[id].recipient == r && Queued(s.rows[id].status) && !InHand(s, id) ==>
      var t := Run(Enqueue(s, r, m, age), events);
      id < |t.rows| && t.rows[id] == s.rows[id].(status := Cancelled, lastError := Some("SUPERSEDED"))
    ensures s.rows[id].recipient != r || !Queued(s.rows[id].status) ==> Enqueue(s, r, m, age).rows[id] == s.rows[id]
  {
    if s.rows[id].recipient == r && Queued(s.rows[id].status) && !InHand(s, id) {
      TerminalForever(Enqueue(s, r, m, age), events, id);
    }
  }

  /** A retried row is not claimed by anyone before its delay of 4 to 360 seconds is over. */
  lemma RetryWaits(s: State, k: nat, code: string, jitter: real, later: nat, w: nat, lease: nat)
    requires Reachable(s) && k < |s.deliveries| && s.deliveries[k].sending && 0.0 <= jitter < 1.0
    requires s.deliveries[k].attempts + 1 < s.deliveries[k].maxAttempts
    ensures var t := Conclude(s, k, Retryable(code, jitter));
      var id := s.deliveries[k].id;
      && id < |t.rows| && t.rows[id].status == Retry && s.clock + 4 <= t.rows[id].nextAttemptAt <= s.clock + 360
      && (later < t.rows[id].nextAttemptAt ==> Claim(t.(clock := later), w, id, lease) == t.(clock := later))
  {
    ReachableInv(s);
    assert Holds(s, s.deliveries[k]);
    RetryDelayBounds(s.deliveries[k].attempts + 1, jitter);
  }

  // ---------------------------------------------------------------- the table in place

  lemma StepReachable(s: State, e: Event)
    requires Reachable(s)
    ensures Reachable(Step(s, e))
  {
    var clock: nat, events: seq<Event> :| s == Run(State([], clock, []), events);
    RunAppend(State([], clock, []), events, [e]);
    RunOne(s, e);
    assert Step(s, e) == Run(State([], clock, []), events + [e]);
  }

  /** The claims of one worker over a list of candidates. */
  function ClaimAll(s: State, w: nat, ids: seq<nat>, lease: nat): State {
    if ids == [] then s else Claim(ClaimAll(s, w, ids[..|ids| - 1], lease), w, ids[|ids| - 1], lease)
  }

  lemma {:induction false} ClaimAllReachable(s: State, w: nat, ids: seq<nat>, lease: nat)
    requires Reachable(s)
    ensures Reachable(ClaimAll(s, w, ids, lease))
  {
    if ids != [] {
      ClaimAllReachable(s, w, ids[..|ids| - 1], lease);
      StepReachable(ClaimAll(s, w, ids[..|ids| - 1], lease), EvClaim(w, ids[|ids| - 1], lease));
    }
  }

  /** Recovery frees every row whose lease is over and leaves every other row as it is. */
  lemma RecoverFrees(s: State, id: nat)
    requires Reachable(s) && id < |s.rows|
    ensures var x, y := s.rows[id], Recover(s).rows[id];
      && (y.status == Processing ==> y == x && y.leaseExpiresAt.Some? && y.leaseExpiresAt.value >= s.clock)
      && (y != x ==> LeaseOver(x, s.clock) && y.status == Retry && y.leaseOwner.None? && y.attempts == x.attempts)
  {
    ReachableInv(s);
    assert RowOk(s, id);
  }

  class Outbox {
    var rows: seq<Row>
    var clock: nat
    var deliveries: seq<Delivery>

    ghost function View(): State
      reads this
    {
      State(rows, clock, deliveries)
    }

    /** Any interleaving of workers, deaths and time may have led here. */
    ghost predicate Valid()
      reads this
    {
      Reachable(View())
    }

    constructor (clock: nat)
      ensures Valid() && View() == State([], clock, [])
    {
      rows, this.clock, deliveries := [], clock, [];
      new;
      assert View() == Run(State([], clock, []), []);
    }

    method EnqueueOtp(recipient: string, maxAttempts: nat, maxAge: nat) returns (id: nat)
      requires Valid() && maxAttempts > 0
      modifies this`rows
      ensures Valid() && View() == Enqueue(old(View()), recipient, maxAttempts, maxAge) && id == |rows| - 1
    {
      StepReachable(View(), EvEnqueue(recipient, maxAttempts, maxAge));
      rows := seq(|rows|, k requires 0 <= k < |rows| reads this =>
        if rows[k].recipient == recipient && Queued(rows[k].status)
        then rows[k].(status := Cancelled, lastError := Some("SUPERSEDED")) else rows[k]);
      rows := rows + [Row(recipient, Pending, 0, maxAttempts, clock, clock + maxAge, None, None, None, 0, 0, false)];
      id := |rows| - 1;
    }

    /** `recoverStaleLeases`: afterwards every PROCESSING row has a lease that still runs. */
    method RecoverStale()
      requires Valid()
      modifies this`rows
      ensures Valid() && |rows| == |old(rows)|
      ensures forall id :: 0 <= id < |rows| && rows[id].status == Processing ==>
        rows[id] == old(rows)[id] && rows[id].leaseExpiresAt.Some? && rows[id].leaseExpiresAt.value >= clock
      ensures forall id :: 0 <= id < |rows| && rows[id] != old(rows)[id] ==>
        old(rows)[id].status == Processing && rows[id].status == Retry && rows[id].leaseOwner.None?
        && rows[id].attempts == old(rows)[id].attempts
    {
      ghost var s := View();
      StepReachable(s, EvRecover);
      rows := seq(|rows|, id requires 0 <= id < |rows| reads this =>
        if LeaseOver(rows[id], clock)
        then rows[id].(status := Retry, leaseOwner := None,
                       disturbed := rows[id].disturbed || exists k :: 0 <= k < |deliveries| && deliveries[k].id == id)
        else rows[id]);
      assert View() == Recover(s);
      forall id | 0 <= id < |rows|
        ensures rows[id].status == Processing ==> rows[id] == s.rows[id] && rows[id].leaseExpiresAt.Some? && rows[id].leaseExpiresAt.value >= clock
        ensures rows[id] != s.rows[id] ==>
          LeaseOver(s.rows[id], clock) && rows[id].status == Retry && rows[id].leaseOwner.None? && rows[id].attempts == s.rows[id].attempts
      {
        RecoverFrees(s, id);
      }
    }

    /** `claim`: one conditional update for each candidate, in order. */
    method ClaimBatch(w: nat, candidates: seq<nat>, lease: nat) returns (claimed: seq<nat>)
      requires Valid()
      modifies this`rows, this`deliveries
      ensures Valid() && View() == ClaimAll(old(View()), w, candidates, lease)
      ensures |deliveries| == |old(deliveries)| + |claimed|
      ensures forall n :: 0 <= n < |claimed| ==> deliveries[|old(deliveries)| + n].id == claimed[n]
    {
      ClaimAllReachable(View(), w, candidates, lease);
      claimed := [];
      for n := 0 to |candidates|
        invariant View() == ClaimAll(old(View()), w, candidates[..n], lease)
        invariant |deliveries| == |old(deliveries)| + |claimed|
        invariant forall m :: 0 <= m < |claimed| ==> deliveries[|old(deliveries)| + m].id == claimed[m]
      {
        var id := candidates[n];
        assert candidates[..n + 1][..n] == candidates[..n];
        if id < |rows| && Queued(rows[id].status) && rows[id].nextAttemptAt <= clock {
          rows := rows[id := rows[id].(status := Processing, leaseOwner := Some(w), leaseExpiresAt := Some(clock + lease))];
          deliveries := deliveries + [Delivery(w, id, rows[id].attempts, rows[id].maxAttempts, rows[id].notAfter, false)];
          claimed := claimed + [id];
        }
      }
      assert candidates[..|candidates|] == candidates;
    }

    lemma InTable(k: nat)
      requires Valid() && k < |deliveries|
      ensures deliveries[k].id < |rows|
    {
      ReachableInv(View());
      assert Holds(View(), View().deliveries[k]);
    }

    /** `markTerminal` of a delivery. */
    method MarkTerminal(k: nat, st: Status, attempts: nat, error: Option<string>)
      requires k < |deliveries| && deliveries[k].id < |rows|
      modifies this`rows, this`deliveries
      ensures View() == Finish(old(View()), k, st, attempts, error)
    {
      var d := deliveries[k];
      var row := rows[d.id];
      var calls := row.attempts + if d.sending then 1 else 0;
      if calls > attempts {
        row := row.(uncounted := row.uncounted + (calls - attempts));
      }
      rows := rows[d.id := row.(status := st, attempts := attempts, lastError := error, leaseOwner := None, leaseExpiresAt := None)];
      deliveries := Drop(deliveries, k);
    }

    /** `deliver` up to the provider call. */
    method BeginDelivery(k: nat, deciphers: bool)
      requires Valid() && k < |deliveries| && !deliveries[k].sending
      modifies this`rows, this`deliveries
      ensures Valid() && View() == Begin(old(View()), k, deciphers)
    {
      InTable(k);
      StepReachable(View(), EvBegin(k, deciphers));
      var d := deliveries[k];
      if d.notAfter <= clock {
        MarkTerminal(k, Cancelled, rows[d.id].attempts, Some("EXPIRED_BEFORE_SEND"));
        return;
      }
      if !deciphers {
        MarkTerminal(k, Failed, d.attempts + 1, Some("PAYLOAD_DECRYPT"));
        return;
      }
      rows := rows[d.id := rows[d.id].(sends := rows[d.id].sends + 1)];
      deliveries := deliveries[k := d.(sending := true)];
    }

    /** `deliver` after the provider call. */
    method ConcludeDelivery(k: nat, r: SendResult)
      requires Valid() && k < |deliveries| && deliveries[k].sending
      requires r.Retryable? ==> 0.0 <= r.jitter < 1.0
      modifies this`rows, this`deliveries
      ensures Valid() && View() == Conclude(old(View()), k, r)
    {
      InTable(k);
      StepReachable(View(), EvConclude(k, r));
      var d := deliveries[k];
      var attempts := d.attempts + 1;
      match r {
        case Accepted(delivered) => MarkTerminal(k, if delivered then Delivered else Sent, attempts, None);
        case Ambiguous(code) => MarkTerminal(k, Failed, attempts, Some(Clip("AMBIGUOUS:" + code)));
        case Permanent(code) => MarkTerminal(k, Failed, attempts, Some(Clip("PERMANENT:" + code)));
        case Retryable(code, jitter) =>
          if attempts >= d.maxAttempts {
            MarkTerminal(k, Failed, attempts, Some(Clip("RETRYABLE:" + code)));
          } else {
            MarkTerminal(k, Retry, attempts, Some(Clip("RETRYABLE:" + code)));
            RetryDelayBounds(attempts, jitter);
            rows := rows[d.id := rows[d.id].(nextAttemptAt := clock + RetryDelay(attempts, jitter))];
          }
      }
    }

    /** The worker of a delivery dies. */
    method Die(k: nat)
      requires Valid() && k < |deliveries|
      modifies this`rows, this`deliveries
      ensures Valid() && View() == Crash(old(View()), k)
    {
      InTable(k);
      StepReachable(View(), EvCrash(k));
      var d := deliveries[k];
      if d.sending {
        rows := rows[d.id := rows[d.id].(uncounted := rows[d.id].uncounted + 1, disturbed := true)];
      }
      deliveries := Drop(deliveries, k);
    }

    /** The database clock goes on. */
    method Pass(seconds: nat)
      requires Valid()
      modifies this`clock
      ensures Valid() && View() == old(View()).(clock := old(clock) + seconds)
    {
      StepReachable(View(), EvTick(seconds));
      clock := clock + seconds;
    }
  }
}
