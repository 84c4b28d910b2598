/** The work breakdown handlers, updating the document in place. */
module WbsHandlers {
  import opened Models
  import opened Slices
  import opened StringIds
  import opened Wbs
  import opened Wrappers
  import Text

  /** What a handler leaves: the specified document and no error, or the error and the old document. */
  ghost predicate Meets(spec: Result<Snapshot>, was: Snapshot, now: Snapshot, r: Result<()>) {
    match spec
    case Ok(s) => r == Ok(()) && now == s
    case Err(e) => r == Err(e) && now == was
  }

  method FindRow<T>(rows: seq<T>, idOf: T -> string, id: string) returns (at: Option<nat>)
    ensures at == Find(Map(rows, idOf), id)
  {
    ghost var ids := Map(rows, idOf);
    for i := 0 to |rows|
      invariant forall j | 0 <= j < i :: ids[j] != id
    {
      if idOf(rows[i]) == id {
        return Some(i);
      }
    }
    return None;
  }

  method HasPhase(d: Document, id: string) returns (found: bool)
    ensures found <==> id in PhaseIds(d.phases)
  {
    var at := FindRow(d.phases, (p: Phase) => p.id, id);
    assert Map(d.phases, (p: Phase) => p.id) == PhaseIds(d.phases);
    found := at.Some?;
  }

  method HasActivity(d: Document, id: string) returns (found: bool)
    ensures found <==> id in ActivityIds(d.activities)
  {
    var at := FindRow(d.activities, (a: Activity) => a.id, id);
    assert Map(d.activities, (a: Activity) => a.id) == ActivityIds(d.activities);
    found := at.Some?;
  }

  method CreatePhase(d: Document, input: Phase, year: string) returns (r: Result<()>)
    modifies d`phases
    ensures Meets(Handle(old(d.Value()), Request.CreatePhase(input), year), old(d.Value()), d.Value(), r)
  {
    if Text.Trim(input.name) == "" {
      return Err("invalid body");
    }
    if !ValidStatus(input.status, PHASE_STATUSES) {
      return Err("invalid status");
    }
    if input.projectId != "" && input.projectId !in d.projects {
      return Err("project not found");
    }
    var row := input;
    if row.id == "" {
      var id := NextStringID("PH", year, d.phases, (p: Phase) => p.id);
      assert Map(d.phases, (p: Phase) => p.id) == PhaseIds(d.phases);
      row := row.(id := id);
    }
    row := row.(status := DefaultStatus(row.status, "Planned"));
    row := row.(progress := ClampProgress(row.progress));
    assert row == NewPhase(input, PhaseIds(d.phases), year);
    d.phases := d.phases + [row];
    r := Ok(());
  }

  method PatchPhase(d: Document, id: string, patch: PhasePatch) returns (r: Result<()>)
    modifies d`phases
    ensures Meets(Handle(old(d.Value()), Request.PatchPhase(id, patch), ""), old(d.Value()), d.Value(), r)
  {
    if !ValidStatus(Or(patch.status, ""), PHASE_STATUSES) {
      return Err("invalid status");
    }
    var i := FindRow(d.phases, (p: Phase) => p.id, id);
    assert Map(d.phases, (p: Phase) => p.id) == PhaseIds(d.phases);
    if i.None? {
      return Err("phase not found");
    }
    d.phases := d.phases[i.value := PatchedPhase(d.phases[i.value], patch)];
    r := Ok(());
  }

  /** The row goes; what hangs under it is detached row by row. */
  method DeletePhase(d: Document, id: string) returns (r: Result<()>)
    modifies d`phases, d`activities, d`workPrograms
    ensures Meets(Handle(old(d.Value()), Request.DeletePhase(id), ""), old(d.Value()), d.Value(), r)
  {
    var kept, dropped := FilterInPlace(d.phases, (p: Phase) => p.id != id);
    assert kept == DropPhase(d.phases, id);
    PhaseDropped(d.phases, id);
    if dropped == 0 {
      return Err("phase not found");
    }
    d.phases := kept;
    DetachPhase(d, id);
    r := Ok(());
  }

  method DetachPhase(d: Document, id: string)
    modifies d`activities, d`workPrograms
    ensures d.activities == DetachActivities(old(d.activities), id)
    ensures d.workPrograms == DetachPrograms(old(d.workPrograms), id)
  {
    ghost var activities := d.activities;
    for i := 0 to |d.activities|
      invariant |d.activities| == |activities| && d.workPrograms == old(d.workPrograms)
      invariant forall j | 0 <= j < i :: d.activities[j] == WithoutPhase(activities[j], id)
      invariant forall j | i <= j < |activities| :: d.activities[j] == activities[j]
    {
      if d.activities[i].phaseId == id {
        d.activities := d.activities[i := d.activities[i].(phaseId := "")];
      }
    }
    assert d.activities == DetachActivities(activities, id);
    ghost var programs := d.workPrograms;
    for i := 0 to |d.workPrograms|
      invariant d.activities == DetachActivities(activities, id) && |d.workPrograms| == |programs|
      invariant forall j | 0 <= j < i :: d.workPrograms[j] == ProgramWithoutPhase(programs[j], id)
      invariant forall j | i <= j < |programs| :: d.workPrograms[j] == programs[j]
    {
      if d.workPrograms[i].phaseId == id {
        d.workPrograms := d.workPrograms[i := d.workPrograms[i].(phaseId := "")];
      }
    }
    assert d.workPrograms == DetachPrograms(programs, id);
  }

  lemma PhaseDropped(phases: seq<Phase>, id: string)
    ensures |DropPhase(phases, id)| < |phases| <==> id in PhaseIds(phases)
  {
    FilterDrops(phases, (p: Phase) => p.id != id);
    var ids := PhaseIds(phases);
    assert forall i | 0 <= i < |phases| :: phases[i] in phases && ids[i] == phases[i].id;
  }

  method CreateActivity(d: Document, input: Activity, year: string) returns (r: Result<()>)
    modifies d`activities
    ensures Meets(Handle(old(d.Value()), Request.CreateActivity(input), year), old(d.Value()), d.Value(), r)
  {
    if Text.Trim(input.name) == "" {
      return Err("invalid body");
    }
    if !ValidStatus(input.status, ACTIVITY_STATUSES) {
      return Err("invalid status");
    }
    if input.projectId != "" && input.projectId !in d.projects {
      return Err("project not found");
    }
    var phaseKnown := HasPhase(d, input.phaseId);
    if input.phaseId != "" && !phaseKnown {
      return Err("phase not found");
    }
    var row := input;
    if row.id == "" {
      var id := NextStringID("ACT", year, d.activities, (a: Activity) => a.id);
      assert Map(d.activities, (a: Activity) => a.id) == ActivityIds(d.activities);
      row := row.(id := id);
    }
    row := row.(status := DefaultStatus(row.status, "Todo"));
    row := row.(progress := ClampProgress(row.progress));
    assert row == NewActivity(input, ActivityIds(d.activities), year);
    d.activities := d.activities + [row];
    r := Ok(());
  }

  method PatchActivity(d: Document, id: string, patch: ActivityPatch) returns (r: Result<()>)
    modifies d`activities
    ensures Meets(Handle(old(d.Value()), Request.PatchActivity(id, patch), ""), old(d.Value()), d.Value(), r)
  {
    if !ValidStatus(Or(patch.status, ""), ACTIVITY_STATUSES) {
      return Err("invalid status");
    }
    if patch.phaseId.Some? && patch.phaseId.value != "" {
      var known := HasPhase(d, patch.phaseId.value);
      if !known {
        return Err("phase not found");
      }
    }
    var i := FindRow(d.activities, (a: Activity) => a.id, id);
    assert Map(d.activities, (a: Activity) => a.id) == ActivityIds(d.activities);
    if i.None? {
      return Err("activity not found");
    }
    d.activities := d.activities[i.value := PatchedActivity(d.activities[i.value], patch)];
    r := Ok(());
  }

  method DeleteActivity(d: Document, id: string) returns (r: Result<()>)
    modifies d`activities, d`workPrograms
    ensures Meets(Handle(old(d.Value()), Request.DeleteActivity(id), ""), old(d.Value()), d.Value(), r)
  {
    var kept, dropped := FilterInPlace(d.activities, (a: Activity) => a.id != id);
    assert kept == DropActivity(d.activities, id);
    ActivityDropped(d.activities, id);
    if dropped == 0 {
      return Err("activity not found");
    }
    d.activities := kept;
    ghost var programs := d.workPrograms;
    for i := 0 to |d.workPrograms|
      invariant d.activities == kept && |d.workPrograms| == |programs|
      invariant forall j | 0 <= j < i :: d.workPrograms[j] == WithoutActivity(programs[j], id)
      invariant forall j | i <= j < |programs| :: d.workPrograms[j] == programs[j]
    {
      if d.workPrograms[i].activityId == id {
        d.workPrograms := d.workPrograms[i := d.workPrograms[i].(activityId := "")];
      }
    }
    assert d.workPrograms == DetachFromActivity(programs, id);
    r := Ok(());
  }

  lemma ActivityDropped(activities: seq<Activity>, id: string)
    ensures |DropActivity(activities, id)| < |activities| <==> id in ActivityIds(activities)
  {
    FilterDrops(activities, (a: Activity) => a.id != id);
    var ids := ActivityIds(activities);
    assert forall i | 0 <= i < |activities| :: activities[i] in activities && ids[i] == activities[i].id;
  }

  method CreateProgram(d: Document, input: WorkProgram, year: string) returns (r: Result<()>)
    modifies d`workPrograms
    ensures Meets(Handle(old(d.Value()), Request.CreateProgram(input), year), old(d.Value()), d.Value(), r)
  {
    if Text.Trim(input.name) == "" {
      return Err("invalid body");
    }
    if !ValidStatus(input.status, PROGRAM_STATUSES) {
      return Err("invalid status");
    }
    if input.projectId != "" && input.projectId !in d.projects {
      return Err("project not found");
    }
    var phaseKnown := HasPhase(d, input.phaseId);
    if input.phaseId != "" && !phaseKnown {
      return Err("phase not found");
    }
    var activityKnown := HasActivity(d, input.activityId);
    if input.activityId != "" && !activityKnown {
      return Err("activity not found");
    }
    var row := input;
    if row.id == "" {
      var id := NextStringID("WP", year, d.workPrograms, (w: WorkProgram) => w.id);
      assert Map(d.workPrograms, (w: WorkProgram) => w.id) == ProgramIds(d.workPrograms);
      row := row.(id := id);
    }
    row := row.(status := DefaultStatus(row.status, "Planned"));
    assert row == NewProgram(input, ProgramIds(d.workPrograms), year);
    d.workPrograms := d.workPrograms + [row];
    r := Ok(());
  }

  method PatchProgram(d: Document, id: string, patch: ProgramPatch) returns (r: Result<()>)
    modifies d`workPrograms
    ensures Meets(Handle(old(d.Value()), Request.PatchProgram(id, patch), ""), old(d.Value()), d.Value(), r)
  {
    if !ValidStatus(Or(patch.status, ""), PROGRAM_STATUSES) {
      return Err("invalid status");
    }
    if patch.activityId.Some? && patch.activityId.value != "" {
      var known := HasActivity(d, patch.activityId.value);
      if !known {
        return Err("activity not found");
      }
    }
    var i := FindRow(d.workPrograms, (w: WorkProgram) => w.id, id);
    assert Map(d.workPrograms, (w: WorkProgram) => w.id) == ProgramIds(d.workPrograms);
    if i.None? {
      return Err("work program not found");
    }
    d.workPrograms := d.workPrograms[i.value := PatchedProgram(d.workPrograms[i.value], patch)];
    r := Ok(());
  }

  method DeleteProgram(d: Document, id: string) returns (r: Result<()>)
    modifies d`workPrograms
    ensures Meets(Handle(old(d.Value()), Request.DeleteProgram(id), ""), old(d.Value()), d.Value(), r)
  {
    var kept, dropped := FilterInPlace(d.workPrograms, (w: WorkProgram) => w.id != id);
    assert kept == DropProgram(d.workPrograms, id);
    ProgramDropped(d.workPrograms, id);
    if dropped == 0 {
      return Err("work program not found");
    }
    d.workPrograms := kept;
    r := Ok(());
  }

  lemma ProgramDropped(programs: seq<WorkProgram>, id: string)
    ensures |DropProgram(programs, id)| < |programs| <==> id in ProgramIds(programs)
  {
    FilterDrops(programs, (w: WorkProgram) => w.id != id);
    var ids := ProgramIds(programs);
    assert forall i | 0 <= i < |programs| :: programs[i] in programs && ids[i] == programs[i].id;
  }
}
