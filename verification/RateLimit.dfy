/** The fixed-window limiter over the in-memory counter store. */
module RateLimit {
  import opened Prelude

  /** A counter; no expiry means the key was stored without one. Times are milliseconds. */
  datatype Entry = Entry(value: nat, expiresAt: Option<nat>)

  /** `live`: an entry at or past its expiry is gone. */
  function Live(e: Option<Entry>, now: nat): Option<Entry> {
    if e.Some? && e.value.expiresAt.Some? && e.value.expiresAt.value <= now then None else e
  }

  /** `incrWindow`: open a window, or count within the open one; a missing expiry is repaired. */
  function Incr(e: Option<Entry>, windowMs: nat, now: nat): Entry {
    match Live(e, now)
    case None => Entry(1, Some(now + windowMs))
    case Some(x) => Entry(x.value + 1, if x.expiresAt.None? then Some(now + windowMs) else x.expiresAt)
  }

  /** The entry of one key after requests at the given times. */
  function After(e: Option<Entry>, windowMs: nat, times: seq<nat>): Option<Entry> {
    if times == [] then e
    else Some(Incr(After(e, windowMs, times[..|times| - 1]), windowMs, times[|times| - 1]))
  }

  /** The entry after request k. */
  function EntryAt(e: Option<Entry>, windowMs: nat, times: seq<nat>, k: nat): Entry
    requires k < |times|
  {
    Incr(After(e, windowMs, times[..k]), windowMs, times[k])
  }

  predicate Admitted(e: Option<Entry>, windowMs: nat, limit: nat, times: seq<nat>, k: nat)
    requires k < |times|
  {
    EntryAt(e, windowMs, times, k).value <= limit
  }

  /** Request k opens a new window. */
  predicate Opens(e: Option<Entry>, windowMs: nat, times: seq<nat>, k: nat)
    requires k < |times|
  {
    Live(After(e, windowMs, times[..k]), times[k]).None?
  }

  ghost predicate Ordered(times: seq<nat>) {
    forall k, l :: 0 <= k < l < |times| ==> times[k] <= times[l]
  }

  /** How many of the requests lo..hi-1 are admitted. */
  function AdmittedCount(e: Option<Entry>, windowMs: nat, limit: nat, times: seq<nat>, lo: nat, hi: nat): nat
    requires lo <= hi <= |times|
    decreases hi - lo
  {
    if lo == hi then 0
    else AdmittedCount(e, windowMs, limit, times, lo, hi - 1) + if Admitted(e, windowMs, limit, times, hi - 1) then 1 else 0
  }

  /** How many requests of the closed time interval [from, from + windowMs] are admitted, among the first n. */
  function AdmittedWithin(e: Option<Entry>, windowMs: nat, limit: nat, times: seq<nat>, from: nat, n: nat): nat
    requires n <= |times|
  {
    if n == 0 then 0
    else
      var hit := from <= times[n - 1] <= from + windowMs && Admitted(e, windowMs, limit, times, n - 1);
      AdmittedWithin(e, windowMs, limit, times, from, n - 1) + if hit then 1 else 0
  }

  // ---------------------------------------------------------------- one window

  /** Request k + 1 meets the entry request k left. */
  lemma NextEntry(e: Option<Entry>, windowMs: nat, times: seq<nat>, k: nat)
    requires k + 1 < |times|
    ensures After(e, windowMs, times[..k + 1]) == Some(EntryAt(e, windowMs, times, k))
  {
    assert times[..k + 1][..k] == times[..k];
  }

  /** Within a window the counter goes up by one with each request and the expiry stays. */
  lemma {:induction false} WindowCounts(e: Option<Entry>, windowMs: nat, times: seq<nat>, lo: nat, k: nat)
    requires lo <= k < |times| && forall j :: lo < j <= k ==> !Opens(e, windowMs, times, j)
    ensures EntryAt(e, windowMs, times, k).value == EntryAt(e, windowMs, times, lo).value + (k - lo)
    ensures EntryAt(e, windowMs, times, k).expiresAt == EntryAt(e, windowMs, times, lo).expiresAt
    decreases k
  {
    if lo < k {
      WindowCounts(e, windowMs, times, lo, k - 1);
      NextEntry(e, windowMs, times, k - 1);
      assert !Opens(e, windowMs, times, k);
    }
  }

  /** In a window that request r opened, request r + j is admitted exactly when j is less than the limit. */
  lemma WindowAdmitsFirst(e: Option<Entry>, windowMs: nat, limit: nat, times: seq<nat>, r: nat, k: nat)
    requires r <= k < |times| && Opens(e, windowMs, times, r) && forall j :: r < j <= k ==> !Opens(e, windowMs, times, j)
    ensures Admitted(e, windowMs, limit, times, k) <==> k - r < limit
  {
    WindowCounts(e, windowMs, times, r, k);
  }

  /** No window admits more than the limit. */
  lemma {:induction false} WindowBound(e: Option<Entry>, windowMs: nat, limit: nat, times: seq<nat>, lo: nat, hi: nat)
    requires lo < hi <= |times| && forall j :: lo < j < hi ==> !Opens(e, windowMs, times, j)
    ensures AdmittedCount(e, windowMs, limit, times, lo, hi) <= limit
    ensures AdmittedCount(e, windowMs, limit, times, lo, hi) <= hi - lo
    decreases hi
  {
    if lo + 1 < hi {
      WindowBound(e, windowMs, limit, times, lo, hi - 1);
      WindowCounts(e, windowMs, times, lo, hi - 1);
    } else {
      assert AdmittedCount(e, windowMs, limit, times, lo, lo) == 0;
    }
  }

  // ---------------------------------------------------------------- any interval of one window's length

  /** An entry just written is live at the time it was written. */
  lemma LiveWhenWritten(e: Option<Entry>, windowMs: nat, now: nat)
    requires windowMs > 0
    ensures Incr(e, windowMs, now).expiresAt.Some? && Incr(e, windowMs, now).expiresAt.value > now
  {
  }

  /** Two openings after request lo lie more than a window's length after it. */
  lemma OpeningsAreApart(e: Option<Entry>, windowMs: nat, times: seq<nat>, lo: nat, r: nat, q: nat)
    requires windowMs > 0 && Ordered(times) && lo < r < q < |times|
    requires Opens(e, windowMs, times, r) && Opens(e, windowMs, times, q)
    requires forall j :: lo < j < r ==> !Opens(e, windowMs, times, j)
    requires forall j :: r < j < q ==> !Opens(e, windowMs, times, j)
    ensures times[q] > times[lo] + windowMs
  {
    WindowCounts(e, windowMs, times, lo, r - 1);
    NextEntry(e, windowMs, times, r - 1);
    LiveWhenWritten(After(e, windowMs, times[..lo]), windowMs, times[lo]);
    assert times[r] > times[lo];
    WindowCounts(e, windowMs, times, r, q - 1);
    NextEntry(e, windowMs, times, q - 1);
    assert EntryAt(e, windowMs, times, r).expiresAt == Some(times[r] + windowMs);
  }

  lemma {:induction false} CountSplits(e: Option<Entry>, windowMs: nat, limit: nat, times: seq<nat>, lo: nat, mid: nat, hi: nat)
    requires lo <= mid <= hi <= |times|
    ensures AdmittedCount(e, windowMs, limit, times, lo, hi) ==
      AdmittedCount(e, windowMs, limit, times, lo, mid) + AdmittedCount(e, windowMs, limit, times, mid, hi)
    decreases hi
  {
    if mid < hi {
      CountSplits(e, windowMs, limit, times, lo, mid, hi - 1);
    }
  }

  /** The first opening in lo+1..hi-1, or hi. */
  function NextOpening(e: Option<Entry>, windowMs: nat, times: seq<nat>, lo: nat, hi: nat): (r: nat)
    requires lo < hi <= |times|
    ensures lo < r <= hi && (r < hi ==> Opens(e, windowMs, times, r)) && forall j :: lo < j < r ==> !Opens(e, windowMs, times, j)
    decreases hi - lo
  {
    if lo + 1 == hi then hi
    else if Opens(e, windowMs, times, lo + 1) then lo + 1
    else NextOpening(e, windowMs, times, lo + 1, hi)
  }

  /** Within one window's length there is at most one opening after the first request. */
  lemma NoThirdWindow(e: Option<Entry>, windowMs: nat, times: seq<nat>, lo: nat, r: nat, q: nat, hi: nat)
    requires windowMs > 0 && Ordered(times) && lo < r < q <= hi <= |times| && times[hi - 1] <= times[lo] + windowMs
    requires Opens(e, windowMs, times, r) && forall j :: lo < j < r ==> !Opens(e, windowMs, times, j)
    requires (q < hi ==> Opens(e, windowMs, times, q)) && forall j :: r < j < q ==> !Opens(e, windowMs, times, j)
    ensures q == hi
  {
    if q < hi {
      OpeningsAreApart(e, windowMs, times, lo, r, q);
    }
  }

  lemma RangeBound(e: Option<Entry>, windowMs: nat, limit: nat, times: seq<nat>, lo: nat, hi: nat)
    requires windowMs > 0 && Ordered(times) && lo < hi <= |times| && times[hi - 1] <= times[lo] + windowMs
    ensures AdmittedCount(e, windowMs, limit, times, lo, hi) <= 2 * limit
  {
    var r := NextOpening(e, windowMs, times, lo, hi);
    WindowBound(e, windowMs, limit, times, lo, r);
    if r < hi {
      NoThirdWindow(e, windowMs, times, lo, r, NextOpening(e, windowMs, times, r, hi), hi);
      WindowBound(e, windowMs, limit, times, r, hi);
      CountSplits(e, windowMs, limit, times, lo, r, hi);
    }
  }

  /** The requests of a time interval are consecutive. */
  lemma {:induction false} WithinIsRange(e: Option<Entry>, windowMs: nat, limit: nat, times: seq<nat>, from: nat, lo: nat, n: nat)
    requires Ordered(times) && lo <= n <= |times|
    requires forall k :: 0 <= k < lo ==> times[k] < from
    requires forall k :: lo <= k < n ==> from <= times[k] <= from + windowMs
    ensures AdmittedWithin(e, windowMs, limit, times, from, n) == AdmittedCount(e, windowMs, limit, times, lo, n)
    decreases n
  {
    if n > lo {
      WithinIsRange(e, windowMs, limit, times, from, lo, n - 1);
    } else if n > 0 {
      WithinIsRange(e, windowMs, limit, times, from, lo - 1, n - 1);
    }
  }

  lemma {:induction false} LaterAddsNothing(e: Option<Entry>, windowMs: nat, limit: nat, times: seq<nat>, from: nat, hi: nat, n: nat)
    requires hi <= n <= |times| && forall k :: hi <= k < n ==> times[k] > from + windowMs
    ensures AdmittedWithin(e, windowMs, limit, times, from, n) == AdmittedWithin(e, windowMs, limit, times, from, hi)
    decreases n
  {
    if n > hi {
      LaterAddsNothing(e, windowMs, limit, times, from, hi, n - 1);
    }
  }

  /** How many of the first n times are at most t. */
  function UpTo(times: seq<nat>, t: int, n: nat): (r: nat)
    requires n <= |times|
    ensures r <= n
    ensures Ordered(times) ==> forall k :: 0 <= k < n ==> (times[k] <= t <==> k < r)
  {
    if n == 0 then 0 else if times[n - 1] <= t && UpTo(times, t, n - 1) == n - 1 then n else UpTo(times, t, n - 1)
  }

  /** With a clock that does not go back, no interval of one window's length admits more than twice the
      limit for a key, whatever the key held before. */
  lemma AnyIntervalAdmitsTwiceTheLimit(e: Option<Entry>, windowMs: nat, limit: nat, times: seq<nat>, from: nat)
    requires windowMs > 0 && Ordered(times)
    ensures AdmittedWithin(e, windowMs, limit, times, from, |times|) <= 2 * limit
  {
    var lo, hi := UpTo(times, from - 1, |times|), UpTo(times, from + windowMs, |times|);
    LaterAddsNothing(e, windowMs, limit, times, from, hi, |times|);
    if lo < hi {
      WithinIsRange(e, windowMs, limit, times, from, lo, hi);
      RangeBound(e, windowMs, limit, times, lo, hi);
    } else {
      WithinIsRange(e, windowMs, limit, times, from, hi, hi);
    }
  }

  /** One request at a, the rest of the limit at b, and the limit again when the window of a expires. */
  function Burst(windowMs: nat, limit: nat, a: nat, b: nat): seq<nat> {
    seq(2 * limit, k => if k == 0 then a else if k < limit then b else a + windowMs)
  }

  lemma {:induction false} BurstEntries(e: Option<Entry>, windowMs: nat, limit: nat, a: nat, b: nat, k: nat)
    requires windowMs >= 1 && Live(e, a).None? && a <= b < a + windowMs && k < 2 * limit
    ensures EntryAt(e, windowMs, Burst(windowMs, limit, a, b), k) ==
      if k < limit then Entry(k + 1, Some(a + windowMs)) else Entry(k + 1 - limit, Some(a + 2 * windowMs))
  {
    var times := Burst(windowMs, limit, a, b);
    if k == 0 {
      assert times[..0] == [];
    } else {
      BurstEntries(e, windowMs, limit, a, b, k - 1);
      NextEntry(e, windowMs, times, k - 1);
    }
  }

  lemma {:induction false} BurstWithin(e: Option<Entry>, windowMs: nat, limit: nat, a: nat, b: nat, n: nat)
    requires windowMs >= 1 && Live(e, a).None? && a <= b < a + windowMs && n <= 2 * limit
    ensures AdmittedWithin(e, windowMs, limit, Burst(windowMs, limit, a, b), b, n) == if n > 0 && a < b then n - 1 else n
  {
    if n > 0 {
      BurstWithin(e, windowMs, limit, a, b, n - 1);
      BurstEntries(e, windowMs, limit, a, b, n - 1);
    }
  }

  /** For every window and limit the bound is reached: the limit at the opening of a window and the limit
      at its expiry are all admitted. All but the opening request may come as late in the window as one
      likes, so that twice the limit but one are admitted within any b..a + windowMs, down to a millisecond. */
  lemma TwiceTheLimitIsReached(e: Option<Entry>, windowMs: nat, limit: nat, a: nat, b: nat)
    requires windowMs >= 1 && limit >= 1 && Live(e, a).None? && a <= b < a + windowMs
    ensures Ordered(Burst(windowMs, limit, a, b))
    ensures AdmittedWithin(e, windowMs, limit, Burst(windowMs, limit, a, b), b, 2 * limit) == if a < b then 2 * limit - 1 else 2 * limit
    ensures forall k :: 0 <= k < 2 * limit ==> Burst(windowMs, limit, a, b)[k] <= a + windowMs
  {
    BurstWithin(e, windowMs, limit, a, b, 2 * limit);
  }

  // ---------------------------------------------------------------- the store and the limiter

  datatype Decision = Pass | Admit(remaining: nat) | Reject(retryAfterSeconds: nat)

  function EntryOf(store: map<string, Entry>, key: string): Option<Entry> {
    if key in store then Some(store[key]) else None
  }

  /** `Math.max(1, Math.ceil(ttlMs / 1000))`. */
  function RetryAfter(ttlMs: nat): nat {
    var s := (ttlMs + 999) / 1000;
    if s < 1 then 1 else s
  }

  /** The fewest whole seconds, at least one, after which the window is over. */
  predicate WaitsOut(expiresAt: nat, now: nat, seconds: nat) {
    now + 1000 * seconds >= expiresAt && seconds >= 1 && (seconds == 1 || now + 1000 * (seconds - 1) < expiresAt)
  }

  /** A client that waits as long as its rejection says meets a new window. */
  lemma RetryAfterIsEnough(e: Option<Entry>, windowMs: nat, now: nat, later: nat)
    requires var x := Incr(e, windowMs, now);
      later >= now + 1000 * RetryAfter(if x.expiresAt.value > now then x.expiresAt.value - now else 0)
    ensures Incr(Some(Incr(e, windowMs, now)), windowMs, later).value == 1
  {
  }

  class MemoryRedis {
    var store: map<string, Entry>

    constructor ()
      ensures store == map[]
    {
      store := map[];
    }

    method LiveEntry(key: string, now: nat) returns (e: Option<Entry>)
      modifies this
      ensures e == Live(old(EntryOf(store, key)), now) && EntryOf(store, key) == e
      ensures forall k :: k != key ==> EntryOf(store, k) == old(EntryOf(store, k))
    {
      if key !in store { return None; }
      var x := store[key];
      if x.expiresAt.Some? && x.expiresAt.value <= now {
        store := store - {key};
        return None;
      }
      e := Some(x);
    }

    method IncrWindow(key: string, windowMs: nat, now: nat) returns (count: nat, ttlMs: nat)
      modifies this
      ensures EntryOf(store, key) == Some(Incr(old(EntryOf(store, key)), windowMs, now))
      ensures forall k :: k != key ==> EntryOf(store, k) == old(EntryOf(store, k))
      ensures count == store[key].value && store[key].expiresAt.Some?
      ensures ttlMs == if store[key].expiresAt.value > now then store[key].expiresAt.value - now else 0
    {
      var existing := LiveEntry(key, now);
      if existing.None? {
        store := store[key := Entry(1, Some(now + windowMs))];
        return 1, windowMs;
      }
      var x := existing.value.(value := existing.value.value + 1);
      if x.expiresAt.None? {
        x := x.(expiresAt := Some(now + windowMs));
      }
      store := store[key := x];
      ttlMs := if x.expiresAt.value > now then x.expiresAt.value - now else 0;
      count := x.value;
    }

    /** `createRateLimiter`: no key skips the limiter; an unreachable store follows the failure mode. */
    method Limit(name: string, dim: Option<string>, windowMs: nat, limit: nat, failClosed: bool, reachable: bool, now: nat)
      returns (d: Decision)
      modifies this
      ensures dim.None? ==> d == Pass && store == old(store)
      ensures dim.Some? && !reachable ==> d == (if failClosed then Reject(RetryAfter(windowMs)) else Pass) && store == old(store)
      ensures dim.Some? && reachable ==>
        var key := "rl:" + name + ":" + dim.value;
        var x := Incr(old(EntryOf(store, key)), windowMs, now);
        && EntryOf(store, key) == Some(x)
        && (d.Admit? <==> x.value <= limit) && (d.Admit? ==> d.remaining == limit - x.value)
        && (d.Reject? <==> x.value > limit)
        && (d.Reject? ==> x.expiresAt.Some? && WaitsOut(x.expiresAt.value, now, d.retryAfterSeconds))
    {
      if dim.None? { return Pass; }
      if !reachable {
        return if failClosed then Reject(RetryAfter(windowMs)) else Pass;
      }
      var count, ttlMs := IncrWindow("rl:" + name + ":" + dim.value, windowMs, now);
      if count > limit { return Reject(RetryAfter(ttlMs)); }
      d := Admit(limit - count);
    }
  }
}
