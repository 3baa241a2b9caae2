/** The template tables row by row under any event. */
module TemplateLaws {
  import opened Prelude
  import opened Templates

  // ---------------------------------------------------------------- when a transaction is accepted

  ghost predicate VersionIs(s: State, v: nat, t: nat, st: VersionStatus) {
    v < |s.versions| && s.versions[v].Some? && s.versions[v].value.template == t && s.versions[v].value.status == st
  }

  ghost predicate VersionOf(s: State, v: nat, t: nat) {
    v < |s.versions| && s.versions[v].Some? && s.versions[v].value.template == t
  }

  ghost predicate StepOf(s: State, id: nat, v: nat) {
    id < |s.steps| && s.steps[id].Some? && s.steps[id].value.version == v
  }

  ghost predicate TemplateIs(s: State, t: nat) {
    t < |s.templates| && s.templates[t].Some?
  }

  ghost predicate Drafts(s: State, e: Event) {
    e.EvCreateVersion? && TemplateIs(s, e.template) && forall v: nat :: !VersionIs(s, v, e.template, Draft)
  }

  ghost predicate Adds(s: State, e: Event) {
    e.EvAddStep? && VersionIs(s, e.version, e.template, Draft)
  }

  ghost predicate Updates(s: State, e: Event) {
    e.EvUpdateStep? && VersionIs(s, e.version, e.template, Draft) && StepOf(s, e.step, e.version)
  }

  ghost predicate Deletes(s: State, e: Event) {
    e.EvDeleteStep? && VersionIs(s, e.version, e.template, Draft) && StepOf(s, e.step, e.version)
  }

  ghost predicate Moves(s: State, e: Event) {
    e.EvMoveStep? && VersionIs(s, e.version, e.template, Draft) && StepOf(s, e.step, e.version)
  }

  ghost predicate Publishes(s: State, e: Event) {
    && e.EvPublish? && TemplateIs(s, e.template) && VersionIs(s, e.version, e.template, Draft)
    && exists id: nat :: StepOf(s, id, e.version)
  }

  ghost predicate Archives(s: State, e: Event) {
    e.EvArchive? && TemplateIs(s, e.template) && VersionIs(s, e.version, e.template, Published)
  }

  ghost predicate Drops(s: State, e: Event) {
    e.EvDeleteTemplate? && TemplateIs(s, e.template) && forall v: nat :: VersionOf(s, v, e.template) ==> VersionIs(s, v, e.template, Draft)
  }

  // ---------------------------------------------------------------- versions

  /** A published version takes the place of the one before, which goes to the archive. */
  ghost function NextVersion(s: State, e: Event, v: nat): Option<Version>
    requires v < |s.versions|
  {
    if s.versions[v].None? then None
    else
      var x := s.versions[v].value;
      if Publishes(s, e) && v == e.version then Some(x.(status := Published))
      else if Publishes(s, e) && x.template == e.template && x.status == Published then Some(x.(status := Archived))
      else if Archives(s, e) && v == e.version then Some(x.(status := Archived))
      else if Drops(s, e) && x.template == e.template then None
      else Some(x)
  }

  /** n is one more than the highest number of a version of the template, 1 if there is none. */
  ghost predicate NextNumber(s: State, t: nat, n: nat) {
    && (forall v: nat :: VersionOf(s, v, t) ==> s.versions[v].value.number < n)
    && (n == 1 || exists v: nat :: VersionOf(s, v, t) && s.versions[v].value.number + 1 == n)
  }

  ghost predicate NewVersion(s: State, e: Event, x: Option<Version>) {
    && x.Some? && x.value.status == Draft
    && if e.EvCreateTemplate? then x.value.template == |s.templates| && x.value.number == 1
       else e.EvCreateVersion? && x.value.template == e.template && NextNumber(s, e.template, x.value.number)
  }

  ghost predicate VersionsMove(s: State, e: Event, versions: seq<Option<Version>>) {
    var new' := e.EvCreateTemplate? || Drafts(s, e);
    && |versions| == |s.versions| + (if new' then 1 else 0)
    && (forall v: nat :: v < |s.versions| ==> versions[v] == NextVersion(s, e, v))
    && (new' ==> NewVersion(s, e, versions[|s.versions|]))
  }

  lemma CreateMovesVersions(s: State, e: Event)
    requires e.EvCreateVersion?
    ensures VersionsMove(s, e, Step(s, e).versions)
  {
    var found := FindVersion(s.versions, e.template, Draft);
    assert Drafts(s, e) <==> CreateVersion(s, e.template).Ok? by {
      if found.Some? {
        assert VersionIs(s, found.value, e.template, Draft);
      } else {
        forall v: nat ensures !VersionIs(s, v, e.template, Draft) {
          assert !IsVersion(s.versions, v, e.template, Draft);
        }
      }
    }
    if Drafts(s, e) {
      NumberIsNext(s, e.template);
    }
  }

  lemma NumberIsNext(s: State, t: nat)
    ensures var latest := LatestVersion(s.versions, t);
      NextNumber(s, t, if latest.Some? then s.versions[latest.value].value.number + 1 else 1)
  {
    var latest := LatestVersion(s.versions, t);
    forall v: nat | VersionOf(s, v, t) ensures OfTemplate(s.versions, v, t) {}
    if latest.Some? {
      assert VersionOf(s, latest.value, t);
    }
  }

  lemma OrderedEmpty(s: State, v: nat)
    ensures Ordered(s.steps, v) == [] <==> forall id: nat :: !StepOf(s, id, v)
  {
    OrderedIs(s.steps, v);
    var ids := Ordered(s.steps, v);
    if ids != [] {
      assert ids[0] in ids;
      assert StepOf(s, ids[0], v);
    }
    forall id: nat | StepOf(s, id, v) ensures ids != [] {
      assert InVersion(s.steps, id, v);
    }
  }

  lemma OnePublished(s: State, t: nat, v: nat, w: nat)
    requires Inv(s) && IsVersion(s.versions, v, t, Published) && IsVersion(s.versions, w, t, Published)
    ensures v == w
  {
    var x, y := s.versions[v].value, s.versions[w].value;
    assert v != w ==> Distinguished(x, y);
  }

  lemma PublishedRows(s: State, e: Event)
    requires e.EvPublish? && Publishes(s, e) && Publish(s, e.template, e.version).Ok?
    requires var previous := FindVersion(s.versions, e.template, Published);
      forall v: nat :: IsVersion(s.versions, v, e.template, Published) ==> previous == Some(v)
    ensures VersionsMove(s, e, Publish(s, e.template, e.version).value.versions)
  {
    var t := Publish(s, e.template, e.version).value;
    forall v: nat | v < |s.versions| ensures t.versions[v] == NextVersion(s, e, v) {
      assert IsVersion(s.versions, v, e.template, Published) ==> FindVersion(s.versions, e.template, Published) == Some(v);
    }
  }

  lemma PublishMovesVersions(s: State, e: Event)
    requires Inv(s) && e.EvPublish?
    ensures VersionsMove(s, e, Step(s, e).versions)
  {
    OrderedEmpty(s, e.version);
    if Publishes(s, e) {
      var previous := FindVersion(s.versions, e.template, Published);
      forall v: nat | IsVersion(s.versions, v, e.template, Published) ensures previous == Some(v) {
        OnePublished(s, e.template, v, previous.value);
      }
      PublishedRows(s, e);
    }
  }

  lemma DropIs(s: State, t: nat)
    requires Reachable(s)
    ensures DeleteTemplate(s, t).Ok? <==> TemplateIs(s, t) && forall v: nat :: VersionOf(s, v, t) ==> VersionIs(s, v, t, Draft)
  {
    DeletableExactly(s, t);
    assert forall v: nat :: VersionOf(s, v, t) <==> OfTemplate(s.versions, v, t);
  }

  lemma DropMovesVersions(s: State, e: Event)
    requires Reachable(s) && e.EvDeleteTemplate?
    ensures VersionsMove(s, e, Step(s, e).versions)
  {
    DropIs(s, e.template);
  }

  lemma OthersMoveVersions(s: State, e: Event)
    requires !e.EvCreateVersion? && !e.EvPublish? && !e.EvDeleteTemplate?
    ensures VersionsMove(s, e, Step(s, e).versions)
  {
  }

  /** The versions under any event: publishing publishes the named version and archives the published
      one before it, whatever else. */
  lemma VersionRowsMove(s: State, e: Event)
    requires Reachable(s)
    ensures VersionsMove(s, e, Step(s, e).versions)
  {
    ReachableInv(s);
    match e
    case EvCreateVersion(_) => CreateMovesVersions(s, e);
    case EvPublish(_, _) => PublishMovesVersions(s, e);
    case EvDeleteTemplate(_) => DropMovesVersions(s, e);
    case _ => OthersMoveVersions(s, e);
  }

  // ---------------------------------------------------------------- steps

  ghost predicate HasOrder(s: State, v: nat, order: int) {
    exists id: nat :: StepOf(s, id, v) && s.steps[id].value.order == order
  }

  /** The place a moved step goes to: one up or one down. */
  ghost function Target(s: State, e: Event): int
    requires e.EvMoveStep? && StepOf(s, e.step, e.version)
  {
    if e.up then s.steps[e.step].value.order - 1 else s.steps[e.step].value.order + 1
  }

  /** A moved step changes places with the one before or behind it, if there is one; a deleted step
      closes its gap. */
  ghost function NextStepRow(s: State, e: Event, id: nat): Option<StepRow>
    requires id < |s.steps|
  {
    if s.steps[id].None? then None
    else
      var x := s.steps[id].value;
      if Updates(s, e) && id == e.step then Some(x.(input := e.input))
      else if Deletes(s, e) && id == e.step then None
      else if Deletes(s, e) && x.version == e.version && x.order > s.steps[e.step].value.order && x.order >= 1 then Some(x.(order := x.order - 1))
      else if Moves(s, e) && HasOrder(s, e.version, Target(s, e)) && x.version == e.version && Target(s, e) >= 0 then
        if id == e.step then Some(x.(order := Target(s, e)))
        else if x.order == Target(s, e) then Some(x.(order := s.steps[e.step].value.order))
        else Some(x)
      else if Drops(s, e) && VersionOf(s, x.version, e.template) then None
      else Some(x)
  }

  /** n is one more than the highest order of a step of the version, 1 if it has none. */
  ghost predicate NextOrder(s: State, v: nat, n: nat) {
    && (forall id: nat :: StepOf(s, id, v) ==> s.steps[id].value.order < n)
    && (n == 1 || HasOrder(s, v, n - 1))
  }

  /** Version v has the highest number of its template. */
  ghost predicate Latest(s: State, v: nat, t: nat) {
    VersionOf(s, v, t) && forall w: nat :: VersionOf(s, w, t) ==> s.versions[w].value.number <= s.versions[v].value.number
  }

  ghost predicate CopyOf(s: State, id: nat, v: nat, w: nat, k: nat, x: Option<StepRow>) {
    StepOf(s, id, v) && s.steps[id].value.order == k + 1 && x == Some(s.steps[id].value.(version := w))
  }

  ghost predicate IsCopied(s: State, v: nat, w: nat, k: nat, x: Option<StepRow>) {
    exists id: nat :: CopyOf(s, id, v, w, k, x)
  }

  /** The rows are the steps of version v in order, now of version w. */
  ghost predicate CopiesOf(s: State, v: nat, w: nat, rows: seq<Option<StepRow>>) {
    && (forall k: nat :: k < |rows| ==> IsCopied(s, v, w, k, rows[k]))
    && forall id: nat :: StepOf(s, id, v) ==> 1 <= s.steps[id].value.order <= |rows|
  }

  ghost predicate NewSteps(s: State, e: Event, rows: seq<Option<StepRow>>) {
    if Adds(s, e) then
      |rows| == 1 && rows[0].Some? && rows[0].value.version == e.version && rows[0].value.input == e.input
      && NextOrder(s, e.version, rows[0].value.order)
    else if Drafts(s, e) && exists v: nat :: VersionOf(s, v, e.template) then
      exists v: nat :: Latest(s, v, e.template) && CopiesOf(s, v, |s.versions|, rows)
    else rows == []
  }

  ghost predicate StepsMove(s: State, e: Event, steps: seq<Option<StepRow>>) {
    && |s.steps| <= |steps|
    && (forall id: nat :: id < |s.steps| ==> steps[id] == NextStepRow(s, e, id))
    && NewSteps(s, e, steps[|s.steps|..])
  }

  lemma AddMovesSteps(s: State, e: Event)
    requires e.EvAddStep?
    ensures StepsMove(s, e, Step(s, e).steps)
  {
    if Adds(s, e) {
      var m := MaxOrder(s.steps, e.version);
      forall id: nat | StepOf(s, id, e.version) ensures s.steps[id].value.order <= m {
        assert InVersion(s.steps, id, e.version);
      }
      if m > 0 {
        var id: nat :| InVersion(s.steps, id, e.version) && s.steps[id].value.order == m;
        assert StepOf(s, id, e.version);
      }
      assert Step(s, e).steps[|s.steps|..] == [Some(StepRow(e.version, m + 1, e.input))];
    }
  }

  lemma UpdateMovesSteps(s: State, e: Event)
    requires e.EvUpdateStep?
    ensures StepsMove(s, e, Step(s, e).steps)
  {
  }

  lemma OneOrder(s: State, v: nat, id: nat, other: nat)
    requires WellOrdered(s.steps) && StepOf(s, id, v) && StepOf(s, other, v) && s.steps[id].value.order == s.steps[other].value.order
    ensures id == other
  {
    var ids := Ordered(s.steps, v);
    assert Listing(s.steps, v, ids);
    assert InVersion(s.steps, id, v) && InVersion(s.steps, other, v);
  }

  lemma MoveMovesSteps(s: State, e: Event)
    requires Inv(s) && e.EvMoveStep?
    ensures StepsMove(s, e, Step(s, e).steps)
  {
    if Moves(s, e) {
      var neighbor := FindOrder(s.steps, e.version, Target(s, e));
      if neighbor.None? {
        forall id: nat | StepOf(s, id, e.version) ensures s.steps[id].value.order != Target(s, e) {
          assert InVersion(s.steps, id, e.version);
        }
      } else {
        assert StepOf(s, neighbor.value, e.version);
        forall id: nat | StepOf(s, id, e.version) && s.steps[id].value.order == Target(s, e) ensures id == neighbor.value {
          OneOrder(s, e.version, id, neighbor.value);
        }
      }
    }
  }

  lemma EmptyTogether(a: seq<nat>, b: seq<nat>)
    requires forall x: nat :: x in a <==> x in b
    ensures a == [] <==> b == []
  {
    if a != [] { assert a[0] in b; }
    if b != [] { assert b[0] in a; }
  }

  /** Two lists in strictly ascending order with the same members are one list. */
  lemma {:induction false} SameSorted(steps: seq<Option<StepRow>>, a: seq<nat>, b: seq<nat>)
    requires AllLive(steps, a) && AllLive(steps, b)
    requires forall k, l :: 0 <= k < l < |a| ==> steps[a[k]].value.order < steps[a[l]].value.order
    requires forall k, l :: 0 <= k < l < |b| ==> steps[b[k]].value.order < steps[b[l]].value.order
    requires forall x: nat :: x in a <==> x in b
    ensures a == b
  {
    if a != [] && b != [] {
      var p, q := a[|a| - 1], b[|b| - 1];
      assert p in b && q in a;
      assert p == q;
      var a', b' := a[..|a| - 1], b[..|b| - 1];
      forall x: nat ensures x in a' <==> x in b' {
        if x in a' { assert x in b && x != q; }
        if x in b' { assert x in a && x != p; }
      }
      SameSorted(steps, a', b');
    } else {
      EmptyTogether(a, b);
    }
  }

  /** Row x after step id of its version was deleted. */
  ghost function Closed(steps: seq<Option<StepRow>>, v: nat, id: nat, x: nat): Option<StepRow>
    requires InVersion(steps, id, v) && x < |steps|
  {
    if x == id || steps[x].None? then None
    else
      var y := steps[x].value;
      if y.version == v && y.order > steps[id].value.order && y.order >= 1 then Some(y.(order := y.order - 1)) else Some(y)
  }

  /** The listing of a version without one of its steps. */
  lemma RemainingAre(steps: seq<Option<StepRow>>, v: nat, id: nat, ids: seq<nat>, p: nat)
    requires Listing(steps, v, ids) && p < |ids| && ids[p] == id
    ensures var left := steps[id := None]; Ordered(left, v) == ids[..p] + ids[p + 1..]
  {
    var left := steps[id := None];
    var a, b := Ordered(left, v), ids[..p] + ids[p + 1..];
    OrderedIs(left, v);
    forall k | 0 <= k < |b| ensures LiveStep(left, b[k]) && left[b[k]] == steps[b[k]] && InVersion(left, b[k], v) {
      var j := if k < p then k else k + 1;
      assert b[k] == ids[j] && InVersion(steps, ids[j], v) && steps[ids[j]].value.order == j + 1;
    }
    forall x: nat ensures x in a <==> x in b {
      if x in a {
        assert InVersion(steps, x, v);
        var j :| 0 <= j < |ids| && ids[j] == x;
        assert j != p;
        assert b[if j < p then j else j - 1] == x;
      }
    }
    forall k, l | 0 <= k < l < |a| ensures left[a[k]].value.order < left[a[l]].value.order {
      StrictlyOrdered(steps, v, ids, a[k], a[l]);
    }
    SameSorted(left, a, b);
  }

  lemma StrictlyOrdered(steps: seq<Option<StepRow>>, v: nat, ids: seq<nat>, x: nat, y: nat)
    requires Listing(steps, v, ids) && InVersion(steps, x, v) && InVersion(steps, y, v) && x != y
    requires steps[x].value.order <= steps[y].value.order
    ensures steps[x].value.order < steps[y].value.order
  {
    var j :| 0 <= j < |ids| && ids[j] == x;
    var k :| 0 <= k < |ids| && ids[k] == y;
    assert steps[ids[j]].value.order == j + 1 && steps[ids[k]].value.order == k + 1;
  }

  lemma ClosedRow(steps: seq<Option<StepRow>>, v: nat, ids: seq<nat>, p: nat, q: seq<nat>, t: seq<Option<StepRow>>, x: nat)
    requires Listing(steps, v, ids) && p < |ids| && q == ids[..p] + ids[p + 1..] && |t| == |steps| && x < |steps|
    requires forall k :: 0 <= k < |q| ==> LiveStep(steps, q[k]) && t[q[k]] == Some(steps[q[k]].value.(order := k + 1))
    requires forall y: nat :: y < |steps| && y !in q ==> t[y] == if y == ids[p] then None else steps[y]
    ensures InVersion(steps, ids[p], v) && t[x] == Closed(steps, v, ids[p], x)
  {
    assert InVersion(steps, ids[p], v) && steps[ids[p]].value.order == p + 1;
    if InVersion(steps, x, v) {
      var j :| 0 <= j < |ids| && ids[j] == x;
      assert steps[ids[j]].value.order == j + 1;
      if j < p {
        assert q[j] == x;
      } else if j > p {
        assert q[j - 1] == x;
      } else {
        NotInRest(steps, v, ids, p);
      }
    } else {
      NoneInRest(steps, v, ids, p, x);
    }
  }

  lemma NoneInRest(steps: seq<Option<StepRow>>, v: nat, ids: seq<nat>, p: nat, x: nat)
    requires Listing(steps, v, ids) && p < |ids| && !InVersion(steps, x, v)
    ensures x !in ids[..p] + ids[p + 1..]
  {
    forall k | 0 <= k < |ids| ensures ids[k] != x {
      assert InVersion(steps, ids[k], v);
    }
  }

  lemma NotInRest(steps: seq<Option<StepRow>>, v: nat, ids: seq<nat>, p: nat)
    requires Listing(steps, v, ids) && p < |ids|
    ensures ids[p] !in ids[..p] + ids[p + 1..]
  {
    var q := ids[..p] + ids[p + 1..];
    forall k | 0 <= k < |q| ensures q[k] != ids[p] {
      var j := if k < p then k else k + 1;
      assert q[k] == ids[j] && steps[ids[j]].value.order == j + 1 && steps[ids[p]].value.order == p + 1;
    }
  }

  lemma DeletedRows(steps: seq<Option<StepRow>>, v: nat, id: nat)
    requires WellOrdered(steps) && InVersion(steps, id, v)
    ensures var left := steps[id := None]; AllLive(left, Ordered(left, v))
    ensures var left := steps[id := None];
      forall x: nat :: x < |steps| ==> Renumbered(left, Ordered(left, v), 0)[x] == Closed(steps, v, id, x)
  {
    var left, ids := steps[id := None], Ordered(steps, v);
    assert Listing(steps, v, ids) && id in ids;
    var p :| 0 <= p < |ids| && ids[p] == id;
    var q := ids[..p] + ids[p + 1..];
    RemainingAre(steps, v, id, ids, p);
    OrderedIs(left, v);
    RenumberedRest(steps, id, q);
    forall x: nat | x < |steps| ensures Renumbered(left, q, 0)[x] == Closed(steps, v, id, x) {
      ClosedRow(steps, v, ids, p, q, Renumbered(left, q, 0), x);
    }
  }

  lemma RenumberedRest(steps: seq<Option<StepRow>>, id: nat, q: seq<nat>)
    requires id < |steps| && AllLive(steps[id := None], q) && forall k, l :: 0 <= k < l < |q| ==> q[k] != q[l]
    ensures var t := Renumbered(steps[id := None], q, 0);
      && (forall k :: 0 <= k < |q| ==> LiveStep(steps, q[k]) && t[q[k]] == Some(steps[q[k]].value.(order := k + 1)))
      && forall y: nat :: y < |steps| && y !in q ==> t[y] == if y == id then None else steps[y]
  {
    var left := steps[id := None];
    RenumberedAt(left, q, 0);
    assert q[0..] == q;
    forall k | 0 <= k < |q| ensures LiveStep(steps, q[k]) && left[q[k]] == steps[q[k]] {
      assert LiveStep(left, q[k]);
    }
  }

  lemma DeleteMovesSteps(s: State, e: Event)
    requires Inv(s) && e.EvDeleteStep?
    ensures StepsMove(s, e, Step(s, e).steps)
  {
    if Deletes(s, e) {
      assert InVersion(s.steps, e.step, e.version);
      DeletedRows(s.steps, e.version, e.step);
    }
  }

  lemma ListedCopies(s: State, from: nat, ids: seq<nat>, w: nat, rows: seq<Option<StepRow>>)
    requires Listing(s.steps, from, ids) && |rows| == |ids|
    requires forall k :: 0 <= k < |ids| ==> LiveStep(s.steps, ids[k]) && rows[k] == Some(s.steps[ids[k]].value.(version := w))
    ensures CopiesOf(s, from, w, rows)
  {
    forall k: nat | k < |rows| ensures IsCopied(s, from, w, k, rows[k]) {
      assert InVersion(s.steps, ids[k], from);
      assert CopyOf(s, ids[k], from, w, k, rows[k]);
    }
    forall id: nat | StepOf(s, id, from) ensures 1 <= s.steps[id].value.order <= |rows| {
      assert InVersion(s.steps, id, from);
      var k :| 0 <= k < |ids| && ids[k] == id;
      assert s.steps[ids[k]].value.order == k + 1;
    }
  }

  lemma CopiesAre(s: State, from: nat)
    requires Inv(s)
    ensures AllLive(s.steps, Ordered(s.steps, from))
    ensures CopiesOf(s, from, |s.versions|, Copied(s.steps, Ordered(s.steps, from), |s.versions|)[|s.steps|..])
  {
    var ids := Ordered(s.steps, from);
    OrderedIs(s.steps, from);
    assert Listing(s.steps, from, ids);
    ListedCopies(s, from, ids, |s.versions|, Copied(s.steps, ids, |s.versions|)[|s.steps|..]);
  }

  lemma DraftMovesSteps(s: State, e: Event)
    requires Inv(s) && e.EvCreateVersion?
    ensures StepsMove(s, e, Step(s, e).steps)
  {
    CreateMovesVersions(s, e);
    var latest := LatestVersion(s.versions, e.template);
    if Drafts(s, e) {
      if latest.Some? {
        CopiesAre(s, latest.value);
        LatestIs(s, e.template);
      } else {
        forall v: nat ensures !VersionOf(s, v, e.template) {
          assert !OfTemplate(s.versions, v, e.template);
        }
      }
    }
  }

  lemma LatestIs(s: State, t: nat)
    requires LatestVersion(s.versions, t).Some?
    ensures Latest(s, LatestVersion(s.versions, t).value, t)
  {
    forall w: nat | VersionOf(s, w, t) ensures OfTemplate(s.versions, w, t) {}
  }

  lemma DropMovesSteps(s: State, e: Event)
    requires Reachable(s) && e.EvDeleteTemplate?
    ensures StepsMove(s, e, Step(s, e).steps)
  {
    DropIs(s, e.template);
  }

  lemma OthersMoveSteps(s: State, e: Event)
    requires e.EvCreateTemplate? || e.EvPublish? || e.EvArchive? || e.EvAssign?
    ensures StepsMove(s, e, Step(s, e).steps)
  {
  }

  /** The steps under any event. */
  lemma StepRowsMove(s: State, e: Event)
    requires Reachable(s)
    ensures StepsMove(s, e, Step(s, e).steps)
  {
    ReachableInv(s);
    match e
    case EvAddStep(_, _, _) => AddMovesSteps(s, e);
    case EvUpdateStep(_, _, _, _) => UpdateMovesSteps(s, e);
    case EvDeleteStep(_, _, _) => DeleteMovesSteps(s, e);
    case EvMoveStep(_, _, _, _) => MoveMovesSteps(s, e);
    case EvCreateVersion(_) => DraftMovesSteps(s, e);
    case EvDeleteTemplate(_) => DropMovesSteps(s, e);
    case _ => OthersMoveSteps(s, e);
  }

  // ---------------------------------------------------------------- templates and jobs

  /** The template names and the references of jobs under any event: a job takes the published version
      and one row for each of its steps, in order. */
  ghost predicate RefsMove(s: State, e: Event, t: State) {
    && t.templates == (if e.EvCreateTemplate? then s.templates + [Some(e.name)]
                       else if Drops(s, e) then s.templates[e.template := None] else s.templates)
    && if e.EvAssign? && exists v: nat :: VersionIs(s, v, e.template, Published) then
         exists v: nat, ids: seq<nat> :: Taken(s, e.template, v, ids)
           && t.checklists == s.checklists + [v] && t.jobSteps == s.jobSteps + ids
       else t.checklists == s.checklists && t.jobSteps == s.jobSteps
  }

  ghost predicate Taken(s: State, t: nat, v: nat, ids: seq<nat>) {
    && VersionIs(s, v, t, Published) && ids != []
    && (forall k: nat :: k < |ids| ==> StepOf(s, ids[k], v) && s.steps[ids[k]].value.order == k + 1)
    && forall id: nat :: StepOf(s, id, v) ==> id in ids
  }

  lemma AssignMovesRefs(s: State, e: Event)
    requires Inv(s) && e.EvAssign?
    ensures RefsMove(s, e, Step(s, e))
  {
    var found := FindVersion(s.versions, e.template, Published);
    if found.Some? {
      var ids := Ordered(s.steps, found.value);
      assert Listing(s.steps, found.value, ids);
      forall k: nat | k < |ids| ensures StepOf(s, ids[k], found.value) && s.steps[ids[k]].value.order == k + 1 {
        assert InVersion(s.steps, ids[k], found.value);
      }
      forall id: nat | StepOf(s, id, found.value) ensures id in ids {
        assert InVersion(s.steps, id, found.value);
      }
      assert Taken(s, e.template, found.value, ids);
    } else {
      forall v: nat ensures !VersionIs(s, v, e.template, Published) {
        assert !IsVersion(s.versions, v, e.template, Published);
      }
    }
  }

  lemma ReferencesMove(s: State, e: Event)
    requires Reachable(s)
    ensures RefsMove(s, e, Step(s, e))
  {
    ReachableInv(s);
    if e.EvAssign? {
      AssignMovesRefs(s, e);
    } else if e.EvDeleteTemplate? {
      DropIs(s, e.template);
    }
  }
}
