/** The template transactions as they update the tables in place. */
module TemplateStore {
  import opened Prelude
  import opened Templates
  import opened TemplateLaws

  ghost predicate Commits(before: State, after: State, r: Option<Error>, o: Outcome) {
    match o
    case Ok(t) => r == None && after == t
    case Err(e) => r == Some(e) && after == before
  }

  class TemplateStore {
    var templates: seq<Option<string>>
    var versions: seq<Option<Version>>
    var steps: seq<Option<StepRow>>
    var checklists: seq<nat>
    var jobSteps: seq<nat>

    ghost function View(): State
      reads this
    {
      State(templates, versions, steps, checklists, jobSteps)
    }

    /** Some run of template and assignment transactions leads to these tables. */
    ghost predicate Valid()
      reads this
    {
      Reachable(View())
    }

    constructor ()
      ensures Valid() && View() == EMPTY
    {
      templates, versions, steps, checklists, jobSteps := [], [], [], [], [];
      new;
      assert View() == Run(EMPTY, []);
    }

    method NewTemplate(name: string) returns (r: Option<Error>)
      requires Valid()
      modifies this`templates, this`versions
      ensures Valid() && Commits(old(View()), View(), r, CreateTemplate(old(View()), name))
    {
      Committed(View(), EvCreateTemplate(name), CreateTemplate(View(), name));
      var id := |templates|;
      templates := templates + [Some(name)];
      versions := versions + [Some(Version(id, 1, Draft))];
      r := None;
    }

    /** The copy loop of `createVersion`. */
    method CopySteps(from: nat, v: nat)
      modifies this`steps
      ensures steps == Copied(old(steps), Ordered(old(steps), from), v)
    {
      ghost var before := steps;
      var ids := Ordered(steps, from);
      for k := 0 to |ids|
        invariant |steps| == |before| + k && steps[..|before|] == before
        invariant forall j :: 0 <= j < k ==> steps[|before| + j] == Some(before[ids[j]].value.(version := v))
      {
        assert before[ids[k]] == steps[..|before|][ids[k]];
        var step := steps[ids[k]].value;
        steps := steps + [Some(StepRow(v, step.order, step.input))];
      }
      assert steps == before + steps[|before|..];
      assert steps == Copied(before, ids, v);
    }

    method NewVersion(t: nat) returns (r: Option<Error>)
      requires Valid()
      modifies this`versions, this`steps
      ensures Valid() && Commits(old(View()), View(), r, CreateVersion(old(View()), t))
    {
      Committed(View(), EvCreateVersion(t), CreateVersion(View(), t));
      if !LiveTemplate(templates, t) { return Some(NotFound); }
      if FindVersion(versions, t, Draft).Some? { return Some(DraftExists); }
      var latest := LatestVersion(versions, t);
      var next := if latest.Some? then versions[latest.value].value.number + 1 else 1;
      var v := |versions|;
      versions := versions + [Some(Version(t, next, Draft))];
      if latest.Some? {
        CopySteps(latest.value, v);
      }
      r := None;
    }

    method Add(t: nat, v: nat, input: StepInput) returns (r: Option<Error>)
      requires Valid()
      modifies this`steps
      ensures Valid() && Commits(old(View()), View(), r, AddStep(old(View()), t, v, input))
    {
      Committed(View(), EvAddStep(t, v, input), AddStep(View(), t, v, input));
      var e := CheckDraft(t, v);
      if e.Some? { return e; }
      var maxOrder := MaxOrder(steps, v);
      steps := steps + [Some(StepRow(v, maxOrder + 1, input))];
      r := None;
    }

    /** `lockDraftVersion`. */
    method CheckDraft(t: nat, v: nat) returns (e: Option<Error>)
      ensures e == LockDraft(View(), t, v)
    {
      if !OfTemplate(versions, v, t) { return Some(NotFound); }
      if versions[v].value.status != Draft { return Some(VersionNotDraft); }
      e := None;
    }

    method Update(t: nat, v: nat, id: nat, input: StepInput) returns (r: Option<Error>)
      requires Valid()
      modifies this`steps
      ensures Valid() && Commits(old(View()), View(), r, UpdateStep(old(View()), t, v, id, input))
    {
      Committed(View(), EvUpdateStep(t, v, id, input), UpdateStep(View(), t, v, id, input));
      var e := CheckDraft(t, v);
      if e.Some? { return e; }
      if !InVersion(steps, id, v) { return Some(NotFound); }
      steps := steps[id := Some(StepRow(v, steps[id].value.order, input))];
      r := None;
    }

    /** Delete the row, then renumber the remaining ones that are out of place. */
    method Delete(t: nat, v: nat, id: nat) returns (r: Option<Error>)
      requires Valid()
      modifies this`steps
      ensures Valid() && Commits(old(View()), View(), r, DeleteStep(old(View()), t, v, id))
      ensures StepsMove(old(View()), EvDeleteStep(t, v, id), steps)
    {
      StepRowsMove(View(), EvDeleteStep(t, v, id));
      Committed(View(), EvDeleteStep(t, v, id), DeleteStep(View(), t, v, id));
      var e := CheckDraft(t, v);
      if e.Some? { return e; }
      if !InVersion(steps, id, v) { return Some(NotFound); }
      steps := steps[id := None];
      var remaining := Ordered(steps, v);
      ghost var left := steps;
      for i := 0 to |remaining|
        invariant |steps| == |left| && AllLive(steps, remaining)
        invariant Renumbered(steps, remaining, i) == Renumbered(left, remaining, 0)
      {
        var k := remaining[i];
        assert steps[k].value.order == i + 1 ==> steps[k := Some(steps[k].value.(order := i + 1))] == steps;
        if steps[k].value.order != i + 1 {
          steps := steps[k := Some(steps[k].value.(order := i + 1))];
        }
      }
      r := None;
    }

    method Move(t: nat, v: nat, id: nat, up: bool) returns (r: Option<Error>)
      requires Valid()
      modifies this`steps
      ensures Valid() && Commits(old(View()), View(), r, MoveStep(old(View()), t, v, id, up))
      ensures StepsMove(old(View()), EvMoveStep(t, v, id, up), steps)
    {
      StepRowsMove(View(), EvMoveStep(t, v, id, up));
      Committed(View(), EvMoveStep(t, v, id, up), MoveStep(View(), t, v, id, up));
      var e := CheckDraft(t, v);
      if e.Some? { return e; }
      if !InVersion(steps, id, v) { return Some(NotFound); }
      var step := steps[id].value;
      var neighborOrder := if up then step.order - 1 else step.order + 1;
      var neighbor := FindOrder(steps, v, neighborOrder);
      if neighbor.None? { return None; }
      var other := neighbor.value;
      var row := steps[other].value;
      steps := steps[id := Some(step.(order := row.order))];
      steps := steps[other := Some(row.(order := step.order))];
      r := None;
    }

    method PublishTx(t: nat, v: nat) returns (r: Option<Error>)
      requires Valid()
      modifies this`versions
      ensures Valid() && Commits(old(View()), View(), r, Publish(old(View()), t, v))
      ensures r == None <==> old(Publishes(View(), EvPublish(t, v)))
      ensures VersionsMove(old(View()), EvPublish(t, v), versions)
      ensures r == None ==> versions[v].Some? && versions[v].value.status == Published
    {
      VersionRowsMove(View(), EvPublish(t, v));
      OrderedEmpty(View(), v);
      Committed(View(), EvPublish(t, v), Publish(View(), t, v));
      if !LiveTemplate(templates, t) || !OfTemplate(versions, v, t) { return Some(NotFound); }
      if versions[v].value.status != Draft { return Some(VersionNotDraft); }
      if Ordered(steps, v) == [] { return Some(EmptyVersion); }
      var previous := FindVersion(versions, t, Published);
      if previous.Some? {
        versions := versions[previous.value := Some(versions[previous.value].value.(status := Archived))];
      }
      versions := versions[v := Some(versions[v].value.(status := Published))];
      r := None;
    }

    method ArchiveTx(t: nat, v: nat) returns (r: Option<Error>)
      requires Valid()
      modifies this`versions
      ensures Valid() && Commits(old(View()), View(), r, Archive(old(View()), t, v))
    {
      Committed(View(), EvArchive(t, v), Archive(View(), t, v));
      if !LiveTemplate(templates, t) || !OfTemplate(versions, v, t) { return Some(NotFound); }
      if versions[v].value.status != Published { return Some(VersionNotPublished); }
      versions := versions[v := Some(versions[v].value.(status := Archived))];
      r := None;
    }

    /** Children first: steps, then versions, then the template. */
    method DeleteTx(t: nat) returns (r: Option<Error>)
      requires Valid()
      modifies this`templates, this`versions, this`steps
      ensures Valid() && Commits(old(View()), View(), r, DeleteTemplate(old(View()), t))
      ensures LiveTemplate(old(templates), t) ==>
        (r == None <==> forall v: nat :: v < |versions| && OfTemplate(old(versions), v, t) ==> old(versions)[v].value.status == Draft)
      ensures r != Some(TemplateInUse)
    {
      Committed(View(), EvDeleteTemplate(t), DeleteTemplate(View(), t));
      DeletableExactly(View(), t);
      DefensiveErrorsUnreachable(View(), t);
      if !LiveTemplate(templates, t) { return Some(NotFound); }
      if exists v: nat :: v < |versions| && OfTemplate(versions, v, t) && versions[v].value.status != Draft {
        return Some(TemplateHasHistory);
      }
      if exists k :: 0 <= k < |checklists| && OfTemplate(versions, checklists[k], t) { return Some(TemplateInUse); }
      if exists k :: 0 <= k < |jobSteps| && LiveStep(steps, jobSteps[k]) && OfTemplate(versions, steps[jobSteps[k]].value.version, t) {
        return Some(TemplateInUse);
      }
      steps := seq(|steps|, k requires 0 <= k < |steps| reads this =>
        if LiveStep(steps, k) && OfTemplate(versions, steps[k].value.version, t) then None else steps[k]);
      versions := seq(|versions|, v requires 0 <= v < |versions| reads this =>
        if OfTemplate(versions, v, t) then None else versions[v]);
      templates := templates[t := None];
      r := None;
    }

    /** The insert loop of `assignChecklist`: one execution row for each step of the published version. */
    method AssignTx(t: nat) returns (r: Option<Error>)
      requires Valid()
      modifies this`checklists, this`jobSteps
      ensures Valid() && Commits(old(View()), View(), r, Assign(old(View()), t))
      ensures r == None <==> FindVersion(versions, t, Published).Some?
    {
      Committed(View(), EvAssign(t), Assign(View(), t));
      DefensiveErrorsUnreachable(View(), t);
      var v := FindVersion(versions, t, Published);
      if v.None? { return Some(NoPublishedVersion); }
      var ids := Ordered(steps, v.value);
      if ids == [] { return Some(EmptyVersion); }
      checklists := checklists + [v.value];
      for k := 0 to |ids|
        invariant jobSteps == old(jobSteps) + ids[..k]
        modifies this`jobSteps
      {
        jobSteps := jobSteps + [ids[k]];
      }
      assert ids[..|ids|] == ids;
      r := None;
    }
  }
}
