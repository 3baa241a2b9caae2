/** The bounded worker pool, with its workers scheduled in any order. */
module MapPool {
  import opened Prelude

  /** A worker is between items, waits for the result of one, or has returned. */
  datatype Worker = Idle | Running(item: nat) | Finished

  function InFlight(ws: seq<Worker>): nat {
    if ws == [] then 0 else InFlight(ws[..|ws| - 1]) + if ws[|ws| - 1].Running? then 1 else 0
  }

  /** Moves a worker has left before it takes another item. */
  function Cost(w: Worker): nat {
    match w case Idle => 1 case Running(_) => 2 case Finished => 0
  }

  function Weight(ws: seq<Worker>): nat {
    if ws == [] then 0 else Weight(ws[..|ws| - 1]) + Cost(ws[|ws| - 1])
  }

  lemma {:induction false} WeightUpdate(ws: seq<Worker>, k: nat, w: Worker)
    requires k < |ws|
    ensures Weight(ws[k := w]) + Cost(ws[k]) == Weight(ws) + Cost(w)
  {
    var n := |ws| - 1;
    if k == n {
      assert ws[k := w][..n] == ws[..n];
    } else {
      assert ws[k := w][..n] == ws[..n][k := w];
      WeightUpdate(ws[..n], k, w);
    }
  }

  lemma {:induction false} InFlightBound(ws: seq<Worker>)
    ensures InFlight(ws) <= |ws|
  {
    if ws != [] {
      InFlightBound(ws[..|ws| - 1]);
    }
  }

  function Mapped<T, R>(items: seq<T>, f: T -> R): seq<R> {
    seq(|items|, i requires 0 <= i < |items| => f(items[i]))
  }

  function PoolSize(limit: int, items: nat): nat {
    var most := if limit > 1 then limit else 1;
    var useful := if items == 0 then 1 else items;
    if most < useful then most else useful
  }

  ghost predicate Held(ws: seq<Worker>, i: nat) {
    exists w :: 0 <= w < |ws| && ws[w] == Running(i)
  }

  /** Every item before `next` is stored or held by exactly one worker; a worker stops only at the end. */
  ghost predicate PoolInv<T, R>(items: seq<T>, f: T -> R, slots: seq<Option<R>>, next: nat, ws: seq<Worker>) {
    && |slots| == |items| && next <= |items|
    && (forall w :: 0 <= w < |ws| && ws[w].Running? ==> ws[w].item < next)
    && (forall w, x :: 0 <= w < x < |ws| && ws[w].Running? && ws[x].Running? ==> ws[w].item != ws[x].item)
    && (forall i: nat :: i < next ==> slots[i] == Some(f(items[i])) || Held(ws, i))
    && (forall w :: 0 <= w < |ws| && ws[w] == Finished ==> next == |items|)
  }

  lemma TakeKeeps<T, R>(items: seq<T>, f: T -> R, slots: seq<Option<R>>, next: nat, ws: seq<Worker>, w: nat)
    requires PoolInv(items, f, slots, next, ws) && w < |ws| && ws[w] == Idle && next < |items|
    ensures PoolInv(items, f, slots, next + 1, ws[w := Running(next)])
  {
    var t := ws[w := Running(next)];
    forall i: nat | i < next + 1 && slots[i] != Some(f(items[i])) ensures Held(t, i) {
      if i == next {
        assert t[w] == Running(i);
      } else {
        var x :| 0 <= x < |ws| && ws[x] == Running(i);
        assert t[x] == Running(i);
      }
    }
  }

  lemma StopKeeps<T, R>(items: seq<T>, f: T -> R, slots: seq<Option<R>>, next: nat, ws: seq<Worker>, w: nat)
    requires PoolInv(items, f, slots, next, ws) && w < |ws| && ws[w] == Idle && next == |items|
    ensures PoolInv(items, f, slots, next, ws[w := Finished])
  {
    var t := ws[w := Finished];
    forall i: nat | i < next && slots[i] != Some(f(items[i])) ensures Held(t, i) {
      var x :| 0 <= x < |ws| && ws[x] == Running(i);
      assert t[x] == Running(i);
    }
  }

  lemma StoreKeeps<T, R>(items: seq<T>, f: T -> R, slots: seq<Option<R>>, next: nat, ws: seq<Worker>, w: nat)
    requires PoolInv(items, f, slots, next, ws) && w < |ws| && ws[w].Running?
    ensures PoolInv(items, f, slots[ws[w].item := Some(f(items[ws[w].item]))], next, ws[w := Idle])
  {
    var i, t := ws[w].item, ws[w := Idle];
    forall j: nat | j < next && j != i && slots[j] != Some(f(items[j])) ensures Held(t, j) {
      var x :| 0 <= x < |ws| && ws[x] == Running(j);
      assert t[x] == Running(j);
    }
  }

  lemma AllStored<T, R>(items: seq<T>, f: T -> R, slots: seq<Option<R>>, next: nat, ws: seq<Worker>)
    requires PoolInv(items, f, slots, next, ws) && |ws| > 0 && forall w :: 0 <= w < |ws| ==> ws[w] == Finished
    ensures next == |items| && forall i :: 0 <= i < |items| ==> slots[i] == Some(f(items[i]))
  {
    assert ws[0] == Finished;
    forall i: nat | i < |items| ensures slots[i] == Some(f(items[i])) {
      assert !Held(ws, i);
    }
  }

  /** Whichever worker moves next, each item is started once and in order, its result lands in its own
      slot, and never more than the limit are in flight. `starts` lists the items in the order they
      were started and `peak` is the most that were in flight at once. */
  method Run<T, R>(items: seq<T>, limit: int, f: T -> R) returns (results: seq<R>, starts: seq<nat>, peak: nat)
    ensures results == Mapped(items, f)
    ensures starts == seq(|items|, i => i)
    ensures peak <= (if limit > 1 then limit else 1)
  {
    var slots := new Option<R>[|items|](_ => None);
    var next := 0;
    var n := PoolSize(limit, |items|);
    var ws: seq<Worker> := seq(n, _ => Idle);
    starts, peak := [], 0;
    while exists w :: 0 <= w < |ws| && ws[w] != Finished
      invariant |ws| == n && PoolInv(items, f, slots[..], next, ws)
      invariant starts == seq(next, i => i)
      invariant peak <= n
      decreases 2 * (|items| - next) + Weight(ws)
    {
      var w :| 0 <= w < |ws| && ws[w] != Finished;
      if ws[w] == Idle && next >= |items| {
        StopKeeps(items, f, slots[..], next, ws, w);
        WeightUpdate(ws, w, Finished);
        ws := ws[w := Finished];
      } else if ws[w] == Idle {
        TakeKeeps(items, f, slots[..], next, ws, w);
        WeightUpdate(ws, w, Running(next));
        ws := ws[w := Running(next)];
        starts := starts + [next];
        next := next + 1;
      } else {
        var i := ws[w].item;
        StoreKeeps(items, f, slots[..], next, ws, w);
        WeightUpdate(ws, w, Idle);
        ghost var was := slots[..];
        slots[i] := Some(f(items[i]));
        assert slots[..] == was[i := Some(f(items[i]))];
        ws := ws[w := Idle];
      }
      InFlightBound(ws);
      peak := if InFlight(ws) > peak then InFlight(ws) else peak;
    }
    AllStored(items, f, slots[..], next, ws);
    results := seq(|items|, i requires 0 <= i < |items| && slots[i].Some? reads slots => slots[i].value);
  }
}
