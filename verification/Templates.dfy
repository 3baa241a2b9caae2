/** Checklist templates: versions, ordered steps, publication and deletion. */
module Templates {
  import opened Prelude

  // ---------------------------------------------------------------- tables

  datatype VersionStatus = Draft | Published | Archived

  datatype Version = Version(template: nat, number: nat, status: VersionStatus)

  datatype Measure = Measure(name: string, unit: string, min: Option<int>, max: Option<int>, expected: Option<int>, required: bool)

  /** What an administrator enters for a step; the rules live and die with their step. */
  datatype StepInput = StepInput(
    name: string, description: Option<string>, requirements: Option<string>, isStop: bool, riskWeight: nat,
    requiredPhotos: nat, measurements: seq<Measure>)

  datatype StepRow = StepRow(version: nat, order: nat, input: StepInput)

  /** Rows are addressed by position; a deleted row leaves a gap and its id is never used again.
      `checklists` and `jobSteps` are the references jobs hold to versions and steps. */
  datatype State = State(
    templates: seq<Option<string>>, versions: seq<Option<Version>>, steps: seq<Option<StepRow>>,
    checklists: seq<nat>, jobSteps: seq<nat>)

  datatype Error =
    | NotFound
    | DraftExists
    | VersionNotDraft
    | VersionNotPublished
    | EmptyVersion
    | TemplateHasHistory
    | TemplateInUse
    | NoPublishedVersion

  type Outcome = Result<State, Error>

  predicate LiveTemplate(rows: seq<Option<string>>, id: nat) {
    id < |rows| && rows[id].Some?
  }

  predicate LiveVersion(rows: seq<Option<Version>>, id: nat) {
    id < |rows| && rows[id].Some?
  }

  predicate LiveStep(rows: seq<Option<StepRow>>, id: nat) {
    id < |rows| && rows[id].Some?
  }

  predicate AllLive(rows: seq<Option<StepRow>>, ids: seq<nat>) {
    forall k :: 0 <= k < |ids| ==> LiveStep(rows, ids[k])
  }

  // ---------------------------------------------------------------- queries

  predicate InVersion(steps: seq<Option<StepRow>>, id: nat, v: nat) {
    LiveStep(steps, id) && steps[id].value.version == v
  }

  function InsertByOrder(steps: seq<Option<StepRow>>, id: nat, ids: seq<nat>): seq<nat>
    requires LiveStep(steps, id) && AllLive(steps, ids)
  {
    if ids == [] || steps[id].value.order < steps[ids[0]].value.order then [id] + ids
    else [ids[0]] + InsertByOrder(steps, id, ids[1..])
  }

  /** The steps of a version ordered by `sort_order`, among the first n rows. */
  function OrderedUpTo(steps: seq<Option<StepRow>>, v: nat, n: nat): (ids: seq<nat>)
    requires n <= |steps|
    ensures forall k :: 0 <= k < |ids| ==> InVersion(steps, ids[k], v) && ids[k] < n
  {
    if n == 0 then []
    else
      var rest := OrderedUpTo(steps, v, n - 1);
      if !InVersion(steps, n - 1, v) then rest
      else
        InsertMembers(steps, n - 1, rest);
        var ids := InsertByOrder(steps, n - 1, rest);
        assert forall k :: 0 <= k < |ids| ==> ids[k] in ids;
        ids
  }

  function Ordered(steps: seq<Option<StepRow>>, v: nat): seq<nat> {
    OrderedUpTo(steps, v, |steps|)
  }

  function MaxOrder(steps: seq<Option<StepRow>>, v: nat): (r: nat)
    ensures forall id: nat :: InVersion(steps, id, v) ==> steps[id].value.order <= r
    ensures r > 0 ==> exists id: nat :: InVersion(steps, id, v) && steps[id].value.order == r
  {
    if steps == [] then 0
    else
      var n := |steps| - 1;
      var rest := MaxOrder(steps[..n], v);
      assert forall id: nat :: id < n && InVersion(steps, id, v) ==> InVersion(steps[..n], id, v);
      assert forall id: nat :: InVersion(steps[..n], id, v) ==> InVersion(steps, id, v) && steps[id] == steps[..n][id];
      if InVersion(steps, n, v) && steps[n].value.order > rest then steps[n].value.order else rest
  }

  function FindOrder(steps: seq<Option<StepRow>>, v: nat, order: int): (r: Option<nat>)
    ensures r.Some? ==> InVersion(steps, r.value, v) && steps[r.value].value.order == order
    ensures r.None? ==> forall id: nat :: InVersion(steps, id, v) ==> steps[id].value.order != order
  {
    if steps == [] then None
    else
      var n := |steps| - 1;
      var rest := FindOrder(steps[..n], v, order);
      if rest.Some? then rest
      else
        assert forall id: nat :: id < n && InVersion(steps, id, v) ==> InVersion(steps[..n], id, v);
        if InVersion(steps, n, v) && steps[n].value.order == order then Some(n) else None
  }

  predicate IsVersion(versions: seq<Option<Version>>, id: nat, t: nat, st: VersionStatus) {
    LiveVersion(versions, id) && versions[id].value.template == t && versions[id].value.status == st
  }

  function FindVersion(versions: seq<Option<Version>>, t: nat, st: VersionStatus): (r: Option<nat>)
    ensures r.Some? ==> IsVersion(versions, r.value, t, st)
    ensures r.None? ==> forall id: nat :: !IsVersion(versions, id, t, st)
  {
    if versions == [] then None
    else
      var n := |versions| - 1;
      var rest := FindVersion(versions[..n], t, st);
      if rest.Some? then rest
      else
        assert forall id: nat :: id < n && IsVersion(versions, id, t, st) ==> IsVersion(versions[..n], id, t, st);
        if IsVersion(versions, n, t, st) then Some(n) else None
  }

  predicate OfTemplate(versions: seq<Option<Version>>, id: nat, t: nat) {
    LiveVersion(versions, id) && versions[id].value.template == t
  }

  /** The version of a template with the highest number. */
  function LatestVersion(versions: seq<Option<Version>>, t: nat): (r: Option<nat>)
    ensures r.Some? ==> OfTemplate(versions, r.value, t)
    ensures r.Some? ==> forall id: nat :: OfTemplate(versions, id, t) ==> versions[id].value.number <= versions[r.value].value.number
    ensures r.None? ==> forall id: nat :: !OfTemplate(versions, id, t)
  {
    if versions == [] then None
    else
      var n := |versions| - 1;
      var rest := LatestVersion(versions[..n], t);
      assert forall id: nat :: id < n && OfTemplate(versions, id, t) ==> OfTemplate(versions[..n], id, t);
      assert forall id: nat :: OfTemplate(versions[..n], id, t) ==> versions[..n][id] == versions[id];
      if !OfTemplate(versions, n, t) then rest
      else if rest.Some? && versions[rest.value].value.number > versions[n].value.number then rest
      else Some(n)
  }

  // ---------------------------------------------------------------- transactions

  function CreateTemplate(s: State, name: string): Outcome {
    Ok(s.(templates := s.templates + [Some(name)], versions := s.versions + [Some(Version(|s.templates|, 1, Draft))]))
  }

  /** The copies of the steps `ids`, appended for version v in that order. */
  function Copied(steps: seq<Option<StepRow>>, ids: seq<nat>, v: nat): seq<Option<StepRow>>
    requires AllLive(steps, ids)
  {
    steps + seq(|ids|, k requires 0 <= k < |ids| => Some(steps[ids[k]].value.(version := v)))
  }

  function CreateVersion(s: State, t: nat): Outcome {
    if !LiveTemplate(s.templates, t) then Err(NotFound)
    else if FindVersion(s.versions, t, Draft).Some? then Err(DraftExists)
    else
      var latest := LatestVersion(s.versions, t);
      var v := |s.versions|;
      if latest.None? then Ok(s.(versions := s.versions + [Some(Version(t, 1, Draft))]))
      else Ok(s.(
        versions := s.versions + [Some(Version(t, s.versions[latest.value].value.number + 1, Draft))],
        steps := Copied(s.steps, Ordered(s.steps, latest.value), v)))
  }

  function LockDraft(s: State, t: nat, v: nat): Option<Error> {
    if !OfTemplate(s.versions, v, t) then Some(NotFound)
    else if s.versions[v].value.status != Draft then Some(VersionNotDraft)
    else None
  }

  function AddStep(s: State, t: nat, v: nat, input: StepInput): Outcome {
    var e := LockDraft(s, t, v);
    if e.Some? then Err(e.value)
    else Ok(s.(steps := s.steps + [Some(StepRow(v, MaxOrder(s.steps, v) + 1, input))]))
  }

  function UpdateStep(s: State, t: nat, v: nat, id: nat, input: StepInput): Outcome {
    var e := LockDraft(s, t, v);
    if e.Some? then Err(e.value)
    else if !InVersion(s.steps, id, v) then Err(NotFound)
    else Ok(s.(steps := s.steps[id := Some(s.steps[id].value.(input := input))]))
  }

  /** Step ids[k] gets order k + 1, for all k from i on. */
  function Renumbered(steps: seq<Option<StepRow>>, ids: seq<nat>, i: nat): (r: seq<Option<StepRow>>)
    requires i <= |ids| && AllLive(steps, ids)
    ensures |r| == |steps|
    decreases |ids| - i
  {
    if i == |ids| then steps
    else Renumbered(steps[ids[i] := Some(steps[ids[i]].value.(order := i + 1))], ids, i + 1)
  }

  function DeleteStep(s: State, t: nat, v: nat, id: nat): Outcome {
    var e := LockDraft(s, t, v);
    if e.Some? then Err(e.value)
    else if !InVersion(s.steps, id, v) then Err(NotFound)
    else
      var left := s.steps[id := None];
      Ok(s.(steps := Renumbered(left, Ordered(left, v), 0)))
  }

  function Swapped(steps: seq<Option<StepRow>>, id: nat, other: nat): seq<Option<StepRow>>
    requires LiveStep(steps, id) && LiveStep(steps, other)
  {
    var a, b := steps[id].value, steps[other].value;
    steps[id := Some(a.(order := b.order))][other := Some(b.(order := a.order))]
  }

  function MoveStep(s: State, t: nat, v: nat, id: nat, up: bool): Outcome {
    var e := LockDraft(s, t, v);
    if e.Some? then Err(e.value)
    else if !InVersion(s.steps, id, v) then Err(NotFound)
    else
      var neighbor := FindOrder(s.steps, v, if up then s.steps[id].value.order - 1 else s.steps[id].value.order + 1);
      if neighbor.None? then Ok(s) else Ok(s.(steps := Swapped(s.steps, id, neighbor.value)))
  }

  function SetStatus(versions: seq<Option<Version>>, v: nat, st: VersionStatus): seq<Option<Version>>
    requires LiveVersion(versions, v)
  {
    versions[v := Some(versions[v].value.(status := st))]
  }

  function Publish(s: State, t: nat, v: nat): Outcome {
    if !LiveTemplate(s.templates, t) || !OfTemplate(s.versions, v, t) then Err(NotFound)
    else if s.versions[v].value.status != Draft then Err(VersionNotDraft)
    else if Ordered(s.steps, v) == [] then Err(EmptyVersion)
    else
      var previous := FindVersion(s.versions, t, Published);
      var vs := if previous.Some? then SetStatus(s.versions, previous.value, Archived) else s.versions;
      Ok(s.(versions := SetStatus(vs, v, Published)))
  }

  function Archive(s: State, t: nat, v: nat): Outcome {
    if !LiveTemplate(s.templates, t) || !OfTemplate(s.versions, v, t) then Err(NotFound)
    else if s.versions[v].value.status != Published then Err(VersionNotPublished)
    else Ok(s.(versions := SetStatus(s.versions, v, Archived)))
  }

  predicate StepOfTemplate(s: State, id: nat, t: nat) {
    LiveStep(s.steps, id) && OfTemplate(s.versions, s.steps[id].value.version, t)
  }

  function DeleteTemplate(s: State, t: nat): Outcome {
    if !LiveTemplate(s.templates, t) then Err(NotFound)
    else if exists v: nat :: v < |s.versions| && OfTemplate(s.versions, v, t) && s.versions[v].value.status != Draft
    then Err(TemplateHasHistory)
    else if exists k :: 0 <= k < |s.checklists| && OfTemplate(s.versions, s.checklists[k], t) then Err(TemplateInUse)
    else if exists k :: 0 <= k < |s.jobSteps| && StepOfTemplate(s, s.jobSteps[k], t) then Err(TemplateInUse)
    else Ok(s.(
      templates := s.templates[t := None],
      versions := seq(|s.versions|, v requires 0 <= v < |s.versions| => if OfTemplate(s.versions, v, t) then None else s.versions[v]),
      steps := seq(|s.steps|, k requires 0 <= k < |s.steps| => if StepOfTemplate(s, k, t) then None else s.steps[k])))
  }

  /** `assignChecklist`: a job takes the published version and one row for each of its steps. */
  function Assign(s: State, t: nat): Outcome {
    var v := FindVersion(s.versions, t, Published);
    if v.None? then Err(NoPublishedVersion)
    else if Ordered(s.steps, v.value) == [] then Err(EmptyVersion)
    else Ok(s.(checklists := s.checklists + [v.value], jobSteps := s.jobSteps + Ordered(s.steps, v.value)))
  }

  // ---------------------------------------------------------------- runs

  datatype Event =
    | EvCreateTemplate(name: string)
    | EvCreateVersion(template: nat)
    | EvAddStep(template: nat, version: nat, input: StepInput)
    | EvUpdateStep(template: nat, version: nat, step: nat, input: StepInput)
    | EvDeleteStep(template: nat, version: nat, step: nat)
    | EvMoveStep(template: nat, version: nat, step: nat, up: bool)
    | EvPublish(template: nat, version: nat)
    | EvArchive(template: nat, version: nat)
    | EvDeleteTemplate(template: nat)
    | EvAssign(template: nat)

  function Apply(s: State, e: Event): Outcome {
    match e
    case EvCreateTemplate(name) => CreateTemplate(s, name)
    case EvCreateVersion(t) => CreateVersion(s, t)
    case EvAddStep(t, v, x) => AddStep(s, t, v, x)
    case EvUpdateStep(t, v, id, x) => UpdateStep(s, t, v, id, x)
    case EvDeleteStep(t, v, id) => DeleteStep(s, t, v, id)
    case EvMoveStep(t, v, id, up) => MoveStep(s, t, v, id, up)
    case EvPublish(t, v) => Publish(s, t, v)
    case EvArchive(t, v) => Archive(s, t, v)
    case EvDeleteTemplate(t) => DeleteTemplate(s, t)
    case EvAssign(t) => Assign(s, t)
  }

  function Step(s: State, e: Event): State {
    match Apply(s, e)
    case Ok(t) => t
    case Err(_) => s
  }

  function Run(s: State, events: seq<Event>): State
    decreases |events|
  {
    if events == [] then s else Run(Step(s, events[0]), events[1..])
  }

  const EMPTY := State([], [], [], [], [])

  ghost predicate Reachable(s: State) {
    exists events: seq<Event> :: s == Run(EMPTY, events)
  }

  // ---------------------------------------------------------------- the order query

  lemma {:induction false} InsertMembers(steps: seq<Option<StepRow>>, id: nat, ids: seq<nat>)
    requires LiveStep(steps, id) && AllLive(steps, ids)
    ensures forall x: nat :: x in InsertByOrder(steps, id, ids) <==> x == id || x in ids
  {
    if ids != [] && steps[id].value.order >= steps[ids[0]].value.order {
      InsertMembers(steps, id, ids[1..]);
      assert ids == [ids[0]] + ids[1..];
    }
  }

  ghost predicate Ascending(steps: seq<Option<StepRow>>, ids: seq<nat>)
    requires AllLive(steps, ids)
  {
    forall k, l :: 0 <= k < l < |ids| ==> ids[k] != ids[l] && steps[ids[k]].value.order <= steps[ids[l]].value.order
  }

  lemma {:induction false} InsertAscending(steps: seq<Option<StepRow>>, id: nat, ids: seq<nat>)
    requires LiveStep(steps, id) && AllLive(steps, ids) && Ascending(steps, ids) && id !in ids
    ensures AllLive(steps, InsertByOrder(steps, id, ids))
    ensures Ascending(steps, InsertByOrder(steps, id, ids))
  {
    InsertMembers(steps, id, ids);
    var r := InsertByOrder(steps, id, ids);
    forall k | 0 <= k < |r| ensures LiveStep(steps, r[k]) {
      assert r[k] in r;
    }
    if ids != [] && steps[id].value.order >= steps[ids[0]].value.order {
      InsertAscending(steps, id, ids[1..]);
      InsertMembers(steps, id, ids[1..]);
      var t := InsertByOrder(steps, id, ids[1..]);
      forall l | 0 <= l < |t| ensures ids[0] != t[l] && steps[ids[0]].value.order <= steps[t[l]].value.order {
        assert t[l] in t;
      }
    }
  }

  lemma {:induction false} OrderedMembers(steps: seq<Option<StepRow>>, v: nat, n: nat)
    requires n <= |steps|
    ensures forall id: nat :: id in OrderedUpTo(steps, v, n) <==> id < n && InVersion(steps, id, v)
  {
    if n > 0 {
      OrderedMembers(steps, v, n - 1);
      if InVersion(steps, n - 1, v) {
        InsertMembers(steps, n - 1, OrderedUpTo(steps, v, n - 1));
      }
    }
  }

  lemma {:induction false} OrderedAscending(steps: seq<Option<StepRow>>, v: nat, n: nat)
    requires n <= |steps|
    ensures AllLive(steps, OrderedUpTo(steps, v, n)) && Ascending(steps, OrderedUpTo(steps, v, n))
  {
    if n > 0 {
      OrderedAscending(steps, v, n - 1);
      if InVersion(steps, n - 1, v) {
        OrderedMembers(steps, v, n - 1);
        InsertAscending(steps, n - 1, OrderedUpTo(steps, v, n - 1));
      }
    }
  }

  lemma OrderedIs(steps: seq<Option<StepRow>>, v: nat)
    ensures AllLive(steps, Ordered(steps, v)) && Ascending(steps, Ordered(steps, v))
    ensures forall id: nat :: id in Ordered(steps, v) <==> InVersion(steps, id, v)
  {
    OrderedAscending(steps, v, |steps|);
    OrderedMembers(steps, v, |steps|);
  }

  /** The steps of version v are ids, and step ids[k] has order k + 1. */
  ghost predicate Listing(steps: seq<Option<StepRow>>, v: nat, ids: seq<nat>) {
    && (forall k :: 0 <= k < |ids| ==> InVersion(steps, ids[k], v) && steps[ids[k]].value.order == k + 1)
    && forall id: nat :: InVersion(steps, id, v) ==> id in ids
  }

  /** A listing is what the order query returns. */
  lemma ListingIsOrdered(steps: seq<Option<StepRow>>, v: nat, ids: seq<nat>)
    requires Listing(steps, v, ids)
    ensures Ordered(steps, v) == ids
  {
    var q := Ordered(steps, v);
    OrderedIs(steps, v);
    ListingLength(steps, v, ids, q);
    ListingPrefix(steps, v, ids, q, |q|);
  }

  function Elements(a: seq<nat>): set<nat> {
    set x | x in a
  }

  lemma {:induction false} SetSize(a: seq<nat>)
    requires forall k, l :: 0 <= k < l < |a| ==> a[k] != a[l]
    ensures |Elements(a)| == |a|
  {
    if a != [] {
      SetSize(a[1..]);
      assert a == [a[0]] + a[1..];
      assert a[0] !in a[1..];
      assert Elements(a) == {a[0]} + Elements(a[1..]);
    }
  }

  lemma ListingLength(steps: seq<Option<StepRow>>, v: nat, ids: seq<nat>, q: seq<nat>)
    requires Listing(steps, v, ids)
    requires forall id: nat :: id in q <==> InVersion(steps, id, v)
    requires AllLive(steps, q) && Ascending(steps, q)
    ensures |q| == |ids|
  {
    SetSize(q);
    SetSize(ids);
    forall x: nat ensures x in q <==> x in ids {
      if x in ids {
        var k :| 0 <= k < |ids| && ids[k] == x;
      }
    }
    assert Elements(q) == Elements(ids);
  }

  lemma {:induction false} ListingPrefix(steps: seq<Option<StepRow>>, v: nat, ids: seq<nat>, q: seq<nat>, n: nat)
    requires Listing(steps, v, ids) && n <= |ids| && n <= |q|
    requires forall id: nat :: id in q <==> InVersion(steps, id, v)
    requires AllLive(steps, q) && Ascending(steps, q)
    ensures forall m :: 0 <= m < n ==> q[m] == ids[m]
  {
    if n > 0 {
      var k := n - 1;
      ListingPrefix(steps, v, ids, q, k);
      assert ids[k] in q && q[k] in ids;
      var j :| 0 <= j < |q| && q[j] == ids[k];
      var m :| 0 <= m < |ids| && ids[m] == q[k];
      assert j >= k;
      assert m <= k;
      assert m == k;
    }
  }

  // ---------------------------------------------------------------- the invariant

  ghost predicate WellOrdered(steps: seq<Option<StepRow>>) {
    forall v: nat :: Listing(steps, v, Ordered(steps, v))
  }

  /** Versions of one template differ in number, and in status unless archived. */
  ghost predicate Distinguished(v: Version, w: Version) {
    v.template == w.template ==> v.number != w.number && (v.status == w.status ==> v.status == Archived)
  }

  ghost predicate VersionsOk(versions: seq<Option<Version>>, steps: seq<Option<StepRow>>) {
    && (forall v: nat, w: nat :: LiveVersion(versions, v) && LiveVersion(versions, w) && v != w ==>
         Distinguished(versions[v].value, versions[w].value))
    && (forall v: nat :: LiveVersion(versions, v) && versions[v].value.status != Draft ==> Ordered(steps, v) != [])
  }

  ghost predicate RefsOk(s: State) {
    && (forall id: nat :: LiveStep(s.steps, id) ==> LiveVersion(s.versions, s.steps[id].value.version))
    && (forall v: nat :: LiveVersion(s.versions, v) ==> LiveTemplate(s.templates, s.versions[v].value.template))
    && (forall k :: 0 <= k < |s.checklists| ==>
         LiveVersion(s.versions, s.checklists[k]) && s.versions[s.checklists[k]].value.status != Draft)
    && (forall k :: 0 <= k < |s.jobSteps| ==>
         && LiveStep(s.steps, s.jobSteps[k]) && LiveVersion(s.versions, s.steps[s.jobSteps[k]].value.version)
         && s.versions[s.steps[s.jobSteps[k]].value.version].value.status != Draft)
  }

  ghost predicate Inv(s: State) {
    WellOrdered(s.steps) && VersionsOk(s.versions, s.steps) && RefsOk(s)
  }

  // ---------------------------------------------------------------- changes to the steps of one version

  /** Version w has the same rows in both tables. */
  ghost predicate SameRows(steps: seq<Option<StepRow>>, t: seq<Option<StepRow>>, w: nat) {
    && (forall id: nat :: InVersion(steps, id, w) <==> InVersion(t, id, w))
    && (forall id: nat :: InVersion(steps, id, w) ==> steps[id] == t[id])
  }

  lemma SameRowsOrdered(steps: seq<Option<StepRow>>, t: seq<Option<StepRow>>, w: nat)
    requires Listing(steps, w, Ordered(steps, w)) && SameRows(steps, t, w)
    ensures Ordered(t, w) == Ordered(steps, w) && Listing(t, w, Ordered(t, w))
  {
    ListingIsOrdered(t, w, Ordered(steps, w));
  }

  /** A table that lists version v anew and leaves every other version alone is well ordered. */
  lemma RelistedWellOrdered(steps: seq<Option<StepRow>>, t: seq<Option<StepRow>>, v: nat, ids: seq<nat>)
    requires WellOrdered(steps) && Listing(t, v, ids)
    requires forall w: nat :: w != v ==> SameRows(steps, t, w)
    ensures WellOrdered(t) && Ordered(t, v) == ids
    ensures forall w: nat :: w != v ==> Ordered(t, w) == Ordered(steps, w)
  {
    forall w: nat ensures Listing(t, w, Ordered(t, w)) && (w != v ==> Ordered(t, w) == Ordered(steps, w)) {
      if w == v {
        ListingIsOrdered(t, v, ids);
      } else {
        SameRowsOrdered(steps, t, w);
      }
    }
    ListingIsOrdered(t, v, ids);
  }

  lemma MaxIsLength(steps: seq<Option<StepRow>>, v: nat)
    requires WellOrdered(steps)
    ensures MaxOrder(steps, v) == |Ordered(steps, v)|
  {
    var ids, m := Ordered(steps, v), MaxOrder(steps, v);
    assert Listing(steps, v, ids);
    if ids != [] {
      assert InVersion(steps, ids[|ids| - 1], v);
    }
    if m > 0 {
      var id: nat :| InVersion(steps, id, v) && steps[id].value.order == m;
      assert id in ids;
    }
  }

  lemma AddLists(steps: seq<Option<StepRow>>, v: nat, ids: seq<nat>, input: StepInput)
    requires Listing(steps, v, ids)
    ensures Listing(steps + [Some(StepRow(v, |ids| + 1, input))], v, ids + [|steps|])
  {
    var t := steps + [Some(StepRow(v, |ids| + 1, input))];
    forall k | 0 <= k < |ids| ensures t[ids[k]] == steps[ids[k]] {
      assert InVersion(steps, ids[k], v);
    }
    forall id: nat | InVersion(t, id, v) ensures id in ids + [|steps|] {
      if id < |steps| {
        assert InVersion(steps, id, v);
      }
    }
  }

  lemma AppendSameRows(steps: seq<Option<StepRow>>, x: StepRow, w: nat)
    requires w != x.version
    ensures SameRows(steps, steps + [Some(x)], w)
  {
  }

  lemma AddRelists(steps: seq<Option<StepRow>>, v: nat, input: StepInput)
    requires WellOrdered(steps)
    ensures var t := steps + [Some(StepRow(v, MaxOrder(steps, v) + 1, input))];
      && WellOrdered(t) && Ordered(t, v) == Ordered(steps, v) + [|steps|]
      && forall w: nat :: w != v ==> SameRows(steps, t, w) && Ordered(t, w) == Ordered(steps, w)
  {
    var ids := Ordered(steps, v);
    var x := StepRow(v, MaxOrder(steps, v) + 1, input);
    assert Listing(steps, v, ids);
    MaxIsLength(steps, v);
    AddLists(steps, v, ids, input);
    forall w: nat | w != v ensures SameRows(steps, steps + [Some(x)], w) {
      AppendSameRows(steps, x, w);
    }
    RelistedWellOrdered(steps, steps + [Some(x)], v, ids + [|steps|]);
  }

  lemma UpdateRelists(steps: seq<Option<StepRow>>, v: nat, id: nat, input: StepInput)
    requires WellOrdered(steps) && InVersion(steps, id, v)
    ensures var t := steps[id := Some(steps[id].value.(input := input))];
      && WellOrdered(t) && Ordered(t, v) == Ordered(steps, v)
      && forall w: nat :: w != v ==> SameRows(steps, t, w) && Ordered(t, w) == Ordered(steps, w)
  {
    var t := steps[id := Some(steps[id].value.(input := input))];
    forall x: nat ensures InVersion(t, x, v) <==> InVersion(steps, x, v) {}
    RelistedWellOrdered(steps, t, v, Ordered(steps, v));
  }

  lemma SwapRelists(steps: seq<Option<StepRow>>, v: nat, id: nat, other: nat)
    requires WellOrdered(steps) && InVersion(steps, id, v) && InVersion(steps, other, v)
    ensures var t := Swapped(steps, id, other);
      && WellOrdered(t)
      && forall w: nat :: w != v ==> SameRows(steps, t, w) && Ordered(t, w) == Ordered(steps, w)
  {
    var ids := Ordered(steps, v);
    assert Listing(steps, v, ids);
    assert id in ids && other in ids;
    var i :| 0 <= i < |ids| && ids[i] == id;
    var j :| 0 <= j < |ids| && ids[j] == other;
    SwapLists(steps, v, ids, i, j);
    RelistedWellOrdered(steps, Swapped(steps, id, other), v, ids[i := other][j := id]);
  }

  lemma SwapLists(steps: seq<Option<StepRow>>, v: nat, ids: seq<nat>, i: nat, j: nat)
    requires Listing(steps, v, ids) && i < |ids| && j < |ids|
    ensures var t := Swapped(steps, ids[i], ids[j]);
      Listing(t, v, ids[i := ids[j]][j := ids[i]]) && forall w: nat :: w != v ==> SameRows(steps, t, w)
  {
    var t := Swapped(steps, ids[i], ids[j]);
    var q := ids[i := ids[j]][j := ids[i]];
    forall k | 0 <= k < |q| ensures InVersion(t, q[k], v) && t[q[k]].value.order == k + 1 {
      assert InVersion(steps, ids[k], v) && steps[ids[k]].value.order == k + 1;
    }
    forall x: nat | InVersion(t, x, v) ensures x in q {
      assert InVersion(steps, x, v);
      var k :| 0 <= k < |ids| && ids[k] == x;
      assert k == i ==> q[j] == x;
      assert k == j ==> q[i] == x;
      assert k != i && k != j ==> q[k] == x;
    }
  }

  // ---------------------------------------------------------------- renumbering after a deletion

  lemma {:induction false} RenumberedAt(steps: seq<Option<StepRow>>, ids: seq<nat>, i: nat)
    requires i <= |ids| && AllLive(steps, ids) && forall k, l :: 0 <= k < l < |ids| ==> ids[k] != ids[l]
    ensures var t := Renumbered(steps, ids, i);
      && (forall k :: i <= k < |ids| ==> t[ids[k]] == Some(steps[ids[k]].value.(order := k + 1)))
      && (forall x: nat :: x < |steps| && x !in ids[i..] ==> t[x] == steps[x])
    decreases |ids| - i
  {
    if i < |ids| {
      var next := steps[ids[i] := Some(steps[ids[i]].value.(order := i + 1))];
      RenumberedAt(next, ids, i + 1);
      assert ids[i..] == [ids[i]] + ids[i + 1..];
    }
  }

  lemma DeleteRelists(steps: seq<Option<StepRow>>, v: nat, id: nat)
    requires WellOrdered(steps) && InVersion(steps, id, v)
    ensures var left := steps[id := None];
      var t := Renumbered(left, Ordered(left, v), 0);
      && WellOrdered(t) && Ordered(t, v) == Ordered(left, v)
      && (forall x: nat :: x in Ordered(t, v) <==> x in Ordered(steps, v) && x != id)
      && forall w: nat :: w != v ==> SameRows(steps, t, w) && Ordered(t, w) == Ordered(steps, w)
  {
    var left := steps[id := None];
    var ids := Ordered(left, v);
    OrderedIs(left, v);
    OrderedIs(steps, v);
    RenumberedAt(left, ids, 0);
    var t := Renumbered(left, ids, 0);
    assert ids[0..] == ids;
    forall k | 0 <= k < |ids| ensures InVersion(t, ids[k], v) && t[ids[k]].value.order == k + 1 {}
    forall x: nat | InVersion(t, x, v) ensures x in ids {
      if x !in ids {
        assert t[x] == left[x] && InVersion(left, x, v);
      }
    }
    forall w: nat | w != v ensures SameRows(steps, t, w) {
      DeleteOthers(steps, left, t, ids, id, v, w);
    }
    RelistedWellOrdered(steps, t, v, ids);
  }

  lemma DeleteOthers(steps: seq<Option<StepRow>>, left: seq<Option<StepRow>>, t: seq<Option<StepRow>>, ids: seq<nat>, id: nat, v: nat, w: nat)
    requires InVersion(steps, id, v) && left == steps[id := None] && |t| == |left| && w != v
    requires forall k :: 0 <= k < |ids| ==> InVersion(left, ids[k], v) && t[ids[k]].Some? && t[ids[k]].value.version == v
    requires forall x: nat :: x < |left| && x !in ids ==> t[x] == left[x]
    ensures SameRows(steps, t, w)
  {
    forall x: nat ensures InVersion(steps, x, w) <==> InVersion(t, x, w) {
      if x in ids {
        var k :| 0 <= k < |ids| && ids[k] == x;
      }
    }
  }

  // ---------------------------------------------------------------- copying a version

  /** The ids base, base + 1, ... of n appended rows. */
  function Appended(base: nat, n: nat): seq<nat> {
    seq(n, k requires 0 <= k < n => base + k)
  }

  lemma CopyLists(steps: seq<Option<StepRow>>, ids: seq<nat>, from: nat, v: nat)
    requires Listing(steps, from, ids) && AllLive(steps, ids) && forall id: nat :: !InVersion(steps, id, v)
    ensures Listing(Copied(steps, ids, v), v, Appended(|steps|, |ids|))
  {
    var t, q := Copied(steps, ids, v), Appended(|steps|, |ids|);
    forall k | 0 <= k < |q| ensures InVersion(t, q[k], v) && t[q[k]].value.order == k + 1 {
      assert InVersion(steps, ids[k], from);
    }
    forall x: nat | InVersion(t, x, v) ensures x in q {
      assert x < |steps| ==> InVersion(steps, x, v);
      assert q[x - |steps|] == x;
    }
  }

  lemma CopySameRows(steps: seq<Option<StepRow>>, ids: seq<nat>, v: nat, w: nat)
    requires AllLive(steps, ids) && w != v
    ensures SameRows(steps, Copied(steps, ids, v), w)
  {
  }

  lemma CopyRelists(steps: seq<Option<StepRow>>, from: nat, v: nat)
    requires WellOrdered(steps) && from != v && forall id: nat :: !InVersion(steps, id, v)
    ensures var t := Copied(steps, Ordered(steps, from), v);
      && WellOrdered(t) && Ordered(t, v) == Appended(|steps|, |Ordered(steps, from)|)
      && forall w: nat :: w != v ==> SameRows(steps, t, w) && Ordered(t, w) == Ordered(steps, w)
  {
    var ids := Ordered(steps, from);
    CopyLists(steps, ids, from, v);
    forall w: nat | w != v ensures SameRows(steps, Copied(steps, ids, v), w) {
      CopySameRows(steps, ids, v, w);
    }
    RelistedWellOrdered(steps, Copied(steps, ids, v), v, Appended(|steps|, |ids|));
  }

  // ---------------------------------------------------------------- what each transaction keeps

  lemma StepsOnly(s: State, t: State, v: nat)
    requires Inv(s) && t == s.(steps := t.steps) && WellOrdered(t.steps)
    requires LiveVersion(s.versions, v) && s.versions[v].value.status == Draft
    requires forall w: nat :: w != v ==> SameRows(s.steps, t.steps, w) && Ordered(t.steps, w) == Ordered(s.steps, w)
    ensures Inv(t)
  {
    forall id: nat | LiveStep(t.steps, id) ensures LiveVersion(t.versions, t.steps[id].value.version) {
      var w := t.steps[id].value.version;
      assert InVersion(t.steps, id, w);
      assert w != v ==> SameRows(s.steps, t.steps, w);
      assert w != v ==> InVersion(s.steps, id, w);
    }
    forall k | 0 <= k < |t.jobSteps|
      ensures LiveStep(t.steps, t.jobSteps[k]) && t.steps[t.jobSteps[k]] == s.steps[t.jobSteps[k]]
    {
      var w := s.steps[s.jobSteps[k]].value.version;
      assert InVersion(s.steps, s.jobSteps[k], w) && SameRows(s.steps, t.steps, w);
    }
  }

  /** A draft version that a step may be added to is live. */
  lemma DraftIsLive(s: State, t: nat, v: nat)
    requires LockDraft(s, t, v).None?
    ensures LiveVersion(s.versions, v) && s.versions[v].value.status == Draft
  {
  }

  lemma AddKeeps(s: State, t: nat, v: nat, x: StepInput)
    requires Inv(s) && AddStep(s, t, v, x).Ok?
    ensures Inv(AddStep(s, t, v, x).value)
  {
    DraftIsLive(s, t, v);
    AddedKeeps(s, v, s.steps + [Some(StepRow(v, MaxOrder(s.steps, v) + 1, x))], x);
  }

  lemma AddedKeeps(s: State, v: nat, steps: seq<Option<StepRow>>, x: StepInput)
    requires Inv(s) && LiveVersion(s.versions, v) && s.versions[v].value.status == Draft
    requires steps == s.steps + [Some(StepRow(v, MaxOrder(s.steps, v) + 1, x))]
    ensures Inv(s.(steps := steps))
  {
    AddRelists(s.steps, v, x);
    StepsOnly(s, s.(steps := steps), v);
  }

  lemma UpdateKeeps(s: State, t: nat, v: nat, id: nat, x: StepInput)
    requires Inv(s) && UpdateStep(s, t, v, id, x).Ok?
    ensures Inv(UpdateStep(s, t, v, id, x).value)
  {
    UpdateRelists(s.steps, v, id, x);
    StepsOnly(s, UpdateStep(s, t, v, id, x).value, v);
  }

  lemma DeleteKeeps(s: State, t: nat, v: nat, id: nat)
    requires Inv(s) && DeleteStep(s, t, v, id).Ok?
    ensures Inv(DeleteStep(s, t, v, id).value)
  {
    DeleteRelists(s.steps, v, id);
    StepsOnly(s, DeleteStep(s, t, v, id).value, v);
  }

  lemma MoveKeeps(s: State, t: nat, v: nat, id: nat, up: bool)
    requires Inv(s) && MoveStep(s, t, v, id, up).Ok?
    ensures Inv(MoveStep(s, t, v, id, up).value)
  {
    var neighbor := FindOrder(s.steps, v, if up then s.steps[id].value.order - 1 else s.steps[id].value.order + 1);
    if neighbor.Some? {
      SwapRelists(s.steps, v, id, neighbor.value);
      StepsOnly(s, MoveStep(s, t, v, id, up).value, v);
    }
  }

  lemma CreateVersionKeeps(s: State, t: nat)
    requires Inv(s) && CreateVersion(s, t).Ok?
    ensures Inv(CreateVersion(s, t).value)
  {
    var r := CreateVersion(s, t).value;
    var latest := LatestVersion(s.versions, t);
    var v := |s.versions|;
    assert forall id: nat :: !InVersion(s.steps, id, v);
    if latest.Some? {
      CopyRelists(s.steps, latest.value, v);
    }
    AppendedVersionOk(s, r, t);
  }

  /** A new draft with a fresh number, next to versions whose steps did not change. */
  lemma AppendedVersionOk(s: State, r: State, t: nat)
    requires Inv(s) && LiveTemplate(s.templates, t) && FindVersion(s.versions, t, Draft).None?
    requires r == s.(versions := r.versions, steps := r.steps) && WellOrdered(r.steps)
    requires |r.versions| == |s.versions| + 1 && r.versions[..|s.versions|] == s.versions && r.versions[|s.versions|].Some?
    requires var x := r.versions[|s.versions|].value;
      x.template == t && x.status == Draft && forall id: nat :: OfTemplate(s.versions, id, t) ==> s.versions[id].value.number < x.number
    requires forall w: nat :: w != |s.versions| ==> SameRows(s.steps, r.steps, w) && Ordered(r.steps, w) == Ordered(s.steps, w)
    ensures Inv(r)
  {
    assert forall w: nat :: w < |s.versions| ==> r.versions[w] == s.versions[w];
    forall w: nat | OfTemplate(s.versions, w, t) ensures s.versions[w].value.status != Draft {
      assert !IsVersion(s.versions, w, t, Draft);
    }
    forall id: nat | LiveStep(r.steps, id) ensures LiveVersion(r.versions, r.steps[id].value.version) {
      var w := r.steps[id].value.version;
      assert InVersion(r.steps, id, w);
      assert w != |s.versions| ==> SameRows(s.steps, r.steps, w);
      assert w != |s.versions| ==> InVersion(s.steps, id, w);
    }
    forall k | 0 <= k < |r.jobSteps|
      ensures LiveStep(r.steps, r.jobSteps[k]) && r.steps[r.jobSteps[k]] == s.steps[r.jobSteps[k]]
    {
      var w := s.steps[s.jobSteps[k]].value.version;
      assert InVersion(s.steps, s.jobSteps[k], w) && SameRows(s.steps, r.steps, w);
    }
  }

  lemma CreateTemplateKeeps(s: State, name: string)
    requires Inv(s)
    ensures Inv(CreateTemplate(s, name).value)
  {
    var r := CreateTemplate(s, name).value;
    forall v: nat | LiveVersion(s.versions, v) ensures s.versions[v].value.template < |s.templates| {}
  }

  lemma StatusKeeps(s: State, v: nat, st: VersionStatus)
    requires Inv(s) && LiveVersion(s.versions, v) && Ordered(s.steps, v) != []
    requires st == Archived || (st == Published && FindVersion(s.versions, s.versions[v].value.template, Published).None?)
    ensures Inv(s.(versions := SetStatus(s.versions, v, st)))
  {
    var r := s.(versions := SetStatus(s.versions, v, st));
    var t := s.versions[v].value.template;
    forall a: nat, b: nat | LiveVersion(r.versions, a) && LiveVersion(r.versions, b) && a != b
      ensures Distinguished(r.versions[a].value, r.versions[b].value)
    {
      assert LiveVersion(s.versions, a) && LiveVersion(s.versions, b) && Distinguished(s.versions[a].value, s.versions[b].value);
      assert st == Published ==> !IsVersion(s.versions, a, t, Published) && !IsVersion(s.versions, b, t, Published);
    }
    forall w: nat | LiveVersion(r.versions, w) ensures LiveVersion(s.versions, w) {}
  }

  /** With the one published version archived, the template has none. */
  lemma NonePublished(s: State, t: nat, p: nat)
    requires VersionsOk(s.versions, s.steps) && IsVersion(s.versions, p, t, Published)
    ensures FindVersion(SetStatus(s.versions, p, Archived), t, Published).None?
  {
    var vs := SetStatus(s.versions, p, Archived);
    var f := FindVersion(vs, t, Published);
    assert f.Some? ==> f.value != p && LiveVersion(s.versions, f.value);
  }

  lemma PublishKeeps(s: State, t: nat, v: nat)
    requires Inv(s) && Publish(s, t, v).Ok?
    ensures Inv(Publish(s, t, v).value)
  {
    var previous := FindVersion(s.versions, t, Published);
    if previous.Some? {
      StatusKeeps(s, previous.value, Archived);
      NonePublished(s, t, previous.value);
      StatusKeeps(s.(versions := SetStatus(s.versions, previous.value, Archived)), v, Published);
    } else {
      StatusKeeps(s, v, Published);
    }
  }

  lemma DeleteTemplateRows(s: State, t: nat, w: nat)
    requires Inv(s) && DeleteTemplate(s, t).Ok?
    ensures var r := DeleteTemplate(s, t).value;
      && (OfTemplate(s.versions, w, t) ==> Listing(r.steps, w, []))
      && (!OfTemplate(s.versions, w, t) ==> SameRows(s.steps, r.steps, w))
  {
  }

  lemma DeleteTemplateKeeps(s: State, t: nat)
    requires Inv(s) && DeleteTemplate(s, t).Ok?
    ensures Inv(DeleteTemplate(s, t).value)
  {
    var r := DeleteTemplate(s, t).value;
    forall w: nat
      ensures Listing(r.steps, w, Ordered(r.steps, w))
      ensures !OfTemplate(s.versions, w, t) ==> Ordered(r.steps, w) == Ordered(s.steps, w)
    {
      DeleteTemplateRows(s, t, w);
      if OfTemplate(s.versions, w, t) {
        ListingIsOrdered(r.steps, w, []);
      } else {
        SameRowsOrdered(s.steps, r.steps, w);
      }
    }
    DeleteTemplateRefs(s, t);
  }

  lemma DeleteTemplateRefs(s: State, t: nat)
    requires RefsOk(s) && DeleteTemplate(s, t).Ok?
    ensures RefsOk(DeleteTemplate(s, t).value)
  {
    var r := DeleteTemplate(s, t).value;
    forall id: nat | LiveStep(r.steps, id) ensures LiveVersion(r.versions, r.steps[id].value.version) {
      assert LiveStep(s.steps, id) && !StepOfTemplate(s, id, t);
    }
    forall v: nat | LiveVersion(r.versions, v) ensures LiveTemplate(r.templates, r.versions[v].value.template) {
      assert LiveVersion(s.versions, v) && !OfTemplate(s.versions, v, t);
    }
  }

  lemma AssignKeeps(s: State, t: nat)
    requires Inv(s) && Assign(s, t).Ok?
    ensures Inv(Assign(s, t).value)
  {
    var r := Assign(s, t).value;
    var v := FindVersion(s.versions, t, Published).value;
    forall k | 0 <= k < |r.jobSteps|
      ensures LiveStep(r.steps, r.jobSteps[k]) && LiveVersion(r.versions, r.steps[r.jobSteps[k]].value.version)
      ensures r.versions[r.steps[r.jobSteps[k]].value.version].value.status != Draft
    {
      if k >= |s.jobSteps| {
        assert InVersion(s.steps, Ordered(s.steps, v)[k - |s.jobSteps|], v);
      }
    }
  }

  lemma StepKeeps(s: State, e: Event)
    requires Inv(s)
    ensures Inv(Step(s, e))
  {
    if Apply(s, e).Ok? {
      match e
      case EvCreateTemplate(name) => CreateTemplateKeeps(s, name);
      case EvCreateVersion(t) => CreateVersionKeeps(s, t);
      case EvPublish(t, v) => PublishKeeps(s, t, v);
      case EvArchive(t, v) => StatusKeeps(s, v, Archived);
      case EvDeleteTemplate(t) => DeleteTemplateKeeps(s, t);
      case EvAssign(t) => AssignKeeps(s, t);
      case EvAddStep(t, v, x) => AddKeeps(s, t, v, x);
      case EvUpdateStep(t, v, id, x) => UpdateKeeps(s, t, v, id, x);
      case EvDeleteStep(t, v, id) => DeleteKeeps(s, t, v, id);
      case EvMoveStep(t, v, id, up) => MoveKeeps(s, t, v, id, up);
    }
  }

  lemma {:induction false} RunKeeps(s: State, events: seq<Event>)
    requires Inv(s)
    ensures Inv(Run(s, events))
    decreases |events|
  {
    if events != [] {
      StepKeeps(s, events[0]);
      RunKeeps(Step(s, events[0]), events[1..]);
    }
  }

  lemma {:induction false} RunAppend(s: State, events: seq<Event>, e: Event)
    ensures Run(s, events + [e]) == Step(Run(s, events), e)
    decreases |events|
  {
    if events == [] {
      assert events + [e] == [e] && [e][1..] == [];
    } else {
      assert (events + [e])[0] == events[0] && (events + [e])[1..] == events[1..] + [e];
      RunAppend(Step(s, events[0]), events[1..], e);
    }
  }

  /** A committed transaction leads from a reachable state to a reachable state. */
  lemma Committed(s: State, e: Event, o: Outcome)
    requires Reachable(s) && Apply(s, e) == o
    ensures o.Ok? ==> Reachable(o.value)
  {
    var events: seq<Event> :| s == Run(EMPTY, events);
    RunAppend(EMPTY, events, e);
    assert Step(s, e) == Run(EMPTY, events + [e]);
  }

  lemma ReachableInv(s: State)
    requires Reachable(s)
    ensures Inv(s)
  {
    var events: seq<Event> :| s == Run(EMPTY, events);
    RunKeeps(EMPTY, events);
  }

  // ---------------------------------------------------------------- theorems

  /** The steps of every version have the orders 1..N, each once, whatever edits came before. */
  lemma StepOrdersAreOneToN(s: State, v: nat)
    requires Reachable(s)
    ensures forall k :: 0 <= k < |Ordered(s.steps, v)| ==> s.steps[Ordered(s.steps, v)[k]].value.order == k + 1
    ensures forall id: nat :: InVersion(s.steps, id, v) <==> id in Ordered(s.steps, v)
  {
    ReachableInv(s);
    OrderedIs(s.steps, v);
  }

  /** At most one draft and one published version per template; version numbers do not repeat. */
  lemma OneDraftOnePublished(s: State, v: nat, w: nat)
    requires Reachable(s) && v != w && LiveVersion(s.versions, v) && LiveVersion(s.versions, w)
    requires s.versions[v].value.template == s.versions[w].value.template
    ensures s.versions[v].value.status == s.versions[w].value.status ==> s.versions[v].value.status == Archived
    ensures s.versions[v].value.number != s.versions[w].value.number
  {
    ReachableInv(s);
    assert Distinguished(s.versions[v].value, s.versions[w].value);
  }

  /** The refusal "in use" of `deleteTemplate` never fires, and a published version is never empty. */
  lemma DefensiveErrorsUnreachable(s: State, t: nat)
    requires Reachable(s)
    ensures DeleteTemplate(s, t) != Err(TemplateInUse)
    ensures Assign(s, t) != Err(EmptyVersion)
  {
    ReachableInv(s);
  }

  /** A template is deletable exactly while all its versions are drafts. */
  lemma DeletableExactly(s: State, t: nat)
    requires Reachable(s)
    ensures DeleteTemplate(s, t).Ok? <==>
      LiveTemplate(s.templates, t) && forall v: nat :: OfTemplate(s.versions, v, t) ==> s.versions[v].value.status == Draft
  {
    ReachableInv(s);
  }

  /** A new version starts with the steps of the latest one, in the same order. */
  lemma NewVersionCopies(s: State, t: nat)
    requires Reachable(s) && CreateVersion(s, t).Ok? && LatestVersion(s.versions, t).Some?
    ensures var r := CreateVersion(s, t).value;
      var from, to := Ordered(s.steps, LatestVersion(s.versions, t).value), Ordered(r.steps, |s.versions|);
      |from| == |to| && forall k :: 0 <= k < |to| ==> r.steps[to[k]].value.input == s.steps[from[k]].value.input
  {
    ReachableInv(s);
    assert forall id: nat :: !InVersion(s.steps, id, |s.versions|);
    CopyRelists(s.steps, LatestVersion(s.versions, t).value, |s.versions|);
  }

  /** Version v is out of draft and the same in both states: its rows, their order and its number. */
  ghost predicate Frozen(s: State, t: State, v: nat) {
    && LiveVersion(s.versions, v) && LiveVersion(t.versions, v)
    && s.versions[v].value.status != Draft && t.versions[v].value.status != Draft
    && (s.versions[v].value.status == Archived ==> t.versions[v].value.status == Archived)
    && t.versions[v].value.template == s.versions[v].value.template && t.versions[v].value.number == s.versions[v].value.number
    && SameRows(s.steps, t.steps, v) && Ordered(t.steps, v) == Ordered(s.steps, v)
  }

  lemma EditedFrozen(s: State, t: State, w: nat, v: nat)
    requires t == s.(steps := t.steps) && LiveVersion(s.versions, v) && s.versions[v].value.status != Draft && v != w
    requires forall x: nat :: x != w ==> SameRows(s.steps, t.steps, x) && Ordered(t.steps, x) == Ordered(s.steps, x)
    ensures Frozen(s, t, v)
  {
    assert SameRows(s.steps, t.steps, v) && Ordered(t.steps, v) == Ordered(s.steps, v);
  }

  lemma EditFreezes(s: State, e: Event, v: nat)
    requires Inv(s) && Apply(s, e).Ok? && LiveVersion(s.versions, v) && s.versions[v].value.status != Draft
    requires e.EvAddStep? || e.EvUpdateStep? || e.EvDeleteStep? || e.EvMoveStep?
    ensures Frozen(s, Apply(s, e).value, v)
  {
    match e
    case EvAddStep(t, w, x) => AddFreezes(s, t, w, x, v);
    case EvUpdateStep(t, w, id, x) =>
      UpdateRelists(s.steps, w, id, x);
      EditedFrozen(s, UpdateStep(s, t, w, id, x).value, w, v);
    case EvDeleteStep(t, w, id) =>
      DeleteRelists(s.steps, w, id);
      EditedFrozen(s, DeleteStep(s, t, w, id).value, w, v);
    case EvMoveStep(t, w, id, up) => MoveFreezes(s, t, w, id, up, v);
  }

  lemma AddFreezes(s: State, t: nat, w: nat, x: StepInput, v: nat)
    requires Inv(s) && AddStep(s, t, w, x).Ok? && LiveVersion(s.versions, v) && s.versions[v].value.status != Draft
    ensures Frozen(s, AddStep(s, t, w, x).value, v)
  {
    AddRelists(s.steps, w, x);
    EditedFrozen(s, AddStep(s, t, w, x).value, w, v);
  }

  lemma MoveFreezes(s: State, t: nat, w: nat, id: nat, up: bool, v: nat)
    requires Inv(s) && MoveStep(s, t, w, id, up).Ok? && LiveVersion(s.versions, v) && s.versions[v].value.status != Draft
    ensures Frozen(s, MoveStep(s, t, w, id, up).value, v)
  {
    var neighbor := FindOrder(s.steps, w, if up then s.steps[id].value.order - 1 else s.steps[id].value.order + 1);
    if neighbor.Some? {
      SwapRelists(s.steps, w, id, neighbor.value);
      EditedFrozen(s, MoveStep(s, t, w, id, up).value, w, v);
    }
  }

  lemma FreezesStep(s: State, e: Event, v: nat)
    requires Inv(s) && LiveVersion(s.versions, v) && s.versions[v].value.status != Draft
    ensures Frozen(s, Step(s, e), v)
  {
    if Apply(s, e).Ok? {
      if e.EvAddStep? || e.EvUpdateStep? || e.EvDeleteStep? || e.EvMoveStep? {
        EditFreezes(s, e, v);
      } else if e.EvCreateVersion? {
        VersionFreezes(s, e.template, v);
      } else if e.EvDeleteTemplate? {
        DeletionFreezes(s, e.template, v);
      }
    }
  }

  lemma VersionFreezes(s: State, t: nat, v: nat)
    requires Inv(s) && CreateVersion(s, t).Ok? && LiveVersion(s.versions, v) && s.versions[v].value.status != Draft
    ensures Frozen(s, CreateVersion(s, t).value, v)
  {
    if LatestVersion(s.versions, t).Some? {
      assert forall id: nat :: !InVersion(s.steps, id, |s.versions|);
      CopyRelists(s.steps, LatestVersion(s.versions, t).value, |s.versions|);
    }
  }

  lemma DeletionFreezes(s: State, t: nat, v: nat)
    requires Inv(s) && DeleteTemplate(s, t).Ok? && LiveVersion(s.versions, v) && s.versions[v].value.status != Draft
    ensures Frozen(s, DeleteTemplate(s, t).value, v)
  {
    assert !OfTemplate(s.versions, v, t);
    DeleteTemplateRows(s, t, v);
    SameRowsOrdered(s.steps, DeleteTemplate(s, t).value.steps, v);
  }

  lemma FrozenTransitive(a: State, b: State, c: State, v: nat)
    requires Frozen(a, b, v) && Frozen(b, c, v)
    ensures Frozen(a, c, v)
  {
  }

  lemma {:induction false} FrozenRun(s: State, events: seq<Event>, v: nat)
    requires Inv(s) && LiveVersion(s.versions, v) && s.versions[v].value.status != Draft
    ensures Frozen(s, Run(s, events), v)
    decreases |events|
  {
    if events != [] {
      var t := Step(s, events[0]);
      FreezesStep(s, events[0], v);
      StepKeeps(s, events[0]);
      FrozenRun(t, events[1..], v);
      FrozenTransitive(s, t, Run(t, events[1..]), v);
    }
  }

  /** Out of draft, a version never changes again and is never deleted, whatever follows. */
  lemma PublishedNeverChanges(s: State, events: seq<Event>, v: nat)
    requires Reachable(s) && LiveVersion(s.versions, v) && s.versions[v].value.status != Draft
    ensures Frozen(s, Run(s, events), v)
  {
    ReachableInv(s);
    FrozenRun(s, events, v);
  }

  /** So the rules a job was assigned are the rules it is judged by: every reference a job holds is to
      a version that never changes. */
  lemma JobRulesNeverChange(s: State, events: seq<Event>, k: nat)
    requires Reachable(s) && k < |s.checklists|
    ensures Frozen(s, Run(s, events), s.checklists[k])
  {
    ReachableInv(s);
    PublishedNeverChanges(s, events, s.checklists[k]);
  }
}
