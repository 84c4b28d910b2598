/** The work breakdown structure: phases, the activities under them, and scheduled work programs. */
module Wbs {
  import opened Integers
  import opened Models
  import opened Slices
  import opened StringIds
  import opened Wrappers
  import Text

  const PHASE_STATUSES := ["Planned", "In progress", "Completed", "On hold", "Cancelled"]
  const ACTIVITY_STATUSES := ["Todo", "In progress", "Blocked", "Done", "Cancelled"]
  const PROGRAM_STATUSES := ["Planned", "Scheduled", "In progress", "Completed", "Cancelled"]

  /** An empty status is accepted: creates replace it by the level's default. */
  predicate ValidStatus(status: string, allowed: seq<string>) {
    status == "" || status in allowed
  }

  function ClampProgress(progress: int): int {
    if progress < 0 then 0 else if progress > 100 then 100 else progress
  }

  function DefaultStatus(status: string, fallback: string): string {
    if Text.Trim(status) == "" then fallback else status
  }

  function PhaseIds(phases: seq<Phase>): (ids: seq<string>)
    ensures |ids| == |phases|
  {
    seq(|phases|, i requires 0 <= i < |phases| => phases[i].id)
  }

  function ActivityIds(activities: seq<Activity>): (ids: seq<string>)
    ensures |ids| == |activities|
  {
    seq(|activities|, i requires 0 <= i < |activities| => activities[i].id)
  }

  function ProgramIds(programs: seq<WorkProgram>): (ids: seq<string>)
    ensures |ids| == |programs|
  {
    seq(|programs|, i requires 0 <= i < |programs| => programs[i].id)
  }

  /** Where an identifier first occurs. */
  function Find(ids: seq<string>, id: string): (at: Option<nat>)
    ensures at.Some? ==> at.value < |ids| && ids[at.value] == id
    ensures at.Some? ==> forall j | 0 <= j < at.value :: ids[j] != id
    ensures at.None? <==> id !in ids
  {
    if ids == [] then None
    else if ids[0] == id then Some(0)
    else match Find(ids[1..], id)
      case None => None
      case Some(i) => Some(i + 1)
  }

  // ----- requests -----

  /** Absent members are left alone; numbers are given as converted to integers. */
  datatype PhasePatch = PhasePatch(
    name: Option<string>, projectId: Option<string>, progress: Option<int>, status: Option<string>)

  datatype ActivityPatch = ActivityPatch(
    name: Option<string>, projectId: Option<string>, phaseId: Option<string>, progress: Option<int>,
    status: Option<string>)

  datatype ProgramPatch = ProgramPatch(
    name: Option<string>, projectId: Option<string>, phaseId: Option<string>, activityId: Option<string>,
    status: Option<string>)

  datatype Request =
    | CreatePhase(phase: Phase)
    | PatchPhase(id: string, phasePatch: PhasePatch)
    | DeletePhase(id: string)
    | CreateActivity(activity: Activity)
    | PatchActivity(id: string, activityPatch: ActivityPatch)
    | DeleteActivity(id: string)
    | CreateProgram(program: WorkProgram)
    | PatchProgram(id: string, programPatch: ProgramPatch)
    | DeleteProgram(id: string)
    | Elsewhere(rest: Snapshot)  // any other writer: it leaves the three lists alone

  function Or<T>(patch: Option<T>, current: T): T {
    if patch.Some? then patch.value else current
  }

  function OrNonEmpty(patch: Option<string>, current: string): string {
    if patch.Some? && patch.value != "" then patch.value else current
  }

  function PatchedPhase(p: Phase, patch: PhasePatch): Phase {
    p.(name := OrNonEmpty(patch.name, p.name),
       projectId := Or(patch.projectId, p.projectId),
       status := OrNonEmpty(patch.status, p.status),
       progress := if patch.progress.Some? then ClampProgress(patch.progress.value) else p.progress)
  }

  function PatchedActivity(a: Activity, patch: ActivityPatch): Activity {
    a.(name := OrNonEmpty(patch.name, a.name),
       projectId := Or(patch.projectId, a.projectId),
       phaseId := Or(patch.phaseId, a.phaseId),
       status := OrNonEmpty(patch.status, a.status),
       progress := if patch.progress.Some? then ClampProgress(patch.progress.value) else a.progress)
  }

  function PatchedProgram(w: WorkProgram, patch: ProgramPatch): WorkProgram {
    w.(name := OrNonEmpty(patch.name, w.name),
       projectId := Or(patch.projectId, w.projectId),
       phaseId := Or(patch.phaseId, w.phaseId),
       activityId := Or(patch.activityId, w.activityId),
       status := OrNonEmpty(patch.status, w.status))
  }

  function IdOr(given: string, prefix: string, year: string, ids: seq<string>): string {
    if given == "" then NextCode(IdPattern(prefix, year), ids) else given
  }

  predicate KnownProject(d: Snapshot, projectId: string) {
    projectId == "" || projectId in d.projects
  }

  predicate KnownPhase(d: Snapshot, phaseId: string) {
    phaseId == "" || phaseId in PhaseIds(d.phases)
  }

  predicate KnownActivity(d: Snapshot, activityId: string) {
    activityId == "" || activityId in ActivityIds(d.activities)
  }

  function WithoutPhase(a: Activity, id: string): Activity {
    if a.phaseId == id then a.(phaseId := "") else a
  }

  function ProgramWithoutPhase(w: WorkProgram, id: string): WorkProgram {
    if w.phaseId == id then w.(phaseId := "") else w
  }

  function WithoutActivity(w: WorkProgram, id: string): WorkProgram {
    if w.activityId == id then w.(activityId := "") else w
  }

  function NewPhase(p: Phase, ids: seq<string>, year: string): Phase {
    p.(id := IdOr(p.id, "PH", year, ids),
       status := DefaultStatus(p.status, "Planned"),
       progress := ClampProgress(p.progress))
  }

  function NewActivity(a: Activity, ids: seq<string>, year: string): Activity {
    a.(id := IdOr(a.id, "ACT", year, ids),
       status := DefaultStatus(a.status, "Todo"),
       progress := ClampProgress(a.progress))
  }

  function NewProgram(w: WorkProgram, ids: seq<string>, year: string): WorkProgram {
    w.(id := IdOr(w.id, "WP", year, ids), status := DefaultStatus(w.status, "Planned"))
  }

  function DropPhase(phases: seq<Phase>, id: string): seq<Phase> {
    Filter(phases, (p: Phase) => p.id != id)
  }

  function DropActivity(activities: seq<Activity>, id: string): seq<Activity> {
    Filter(activities, (a: Activity) => a.id != id)
  }

  function DropProgram(programs: seq<WorkProgram>, id: string): seq<WorkProgram> {
    Filter(programs, (w: WorkProgram) => w.id != id)
  }

  function DetachActivities(activities: seq<Activity>, phaseId: string): seq<Activity> {
    seq(|activities|, i requires 0 <= i < |activities| => WithoutPhase(activities[i], phaseId))
  }

  function DetachPrograms(programs: seq<WorkProgram>, phaseId: string): seq<WorkProgram> {
    seq(|programs|, i requires 0 <= i < |programs| => ProgramWithoutPhase(programs[i], phaseId))
  }

  function DetachFromActivity(programs: seq<WorkProgram>, activityId: string): seq<WorkProgram> {
    seq(|programs|, i requires 0 <= i < |programs| => WithoutActivity(programs[i], activityId))
  }

  function Handle(d: Snapshot, r: Request, year: string): Result<Snapshot> {
    match r
    case CreatePhase(p) =>
      if Text.Trim(p.name) == "" then Err("invalid body")
      else if !ValidStatus(p.status, PHASE_STATUSES) then Err("invalid status")
      else if !KnownProject(d, p.projectId) then Err("project not found")
      else Ok(d.(phases := d.phases + [NewPhase(p, PhaseIds(d.phases), year)]))
    case PatchPhase(id, patch) =>
      if !ValidStatus(Or(patch.status, ""), PHASE_STATUSES) then Err("invalid status")
      else (match Find(PhaseIds(d.phases), id)
            case None => Err("phase not found")
            case Some(i) => Ok(d.(phases := d.phases[i := PatchedPhase(d.phases[i], patch)])))
    case DeletePhase(id) =>
      if id !in PhaseIds(d.phases) then Err("phase not found")
      else Ok(d.(phases := DropPhase(d.phases, id),
                 activities := DetachActivities(d.activities, id),
                 workPrograms := DetachPrograms(d.workPrograms, id)))
    case CreateActivity(a) =>
      if Text.Trim(a.name) == "" then Err("invalid body")
      else if !ValidStatus(a.status, ACTIVITY_STATUSES) then Err("invalid status")
      else if !KnownProject(d, a.projectId) then Err("project not found")
      else if !KnownPhase(d, a.phaseId) then Err("phase not found")
      else Ok(d.(activities := d.activities + [NewActivity(a, ActivityIds(d.activities), year)]))
    case PatchActivity(id, patch) =>
      if !ValidStatus(Or(patch.status, ""), ACTIVITY_STATUSES) then Err("invalid status")
      else if !KnownPhase(d, Or(patch.phaseId, "")) then Err("phase not found")
      else (match Find(ActivityIds(d.activities), id)
            case None => Err("activity not found")
            case Some(i) => Ok(d.(activities := d.activities[i := PatchedActivity(d.activities[i], patch)])))
    case DeleteActivity(id) =>
      if id !in ActivityIds(d.activities) then Err("activity not found")
      else Ok(d.(activities := DropActivity(d.activities, id),
                 workPrograms := DetachFromActivity(d.workPrograms, id)))
    case CreateProgram(w) =>
      if Text.Trim(w.name) == "" then Err("invalid body")
      else if !ValidStatus(w.status, PROGRAM_STATUSES) then Err("invalid status")
      else if !KnownProject(d, w.projectId) then Err("project not found")
      else if !KnownPhase(d, w.phaseId) then Err("phase not found")
      else if !KnownActivity(d, w.activityId) then Err("activity not found")
      else Ok(d.(workPrograms := d.workPrograms + [NewProgram(w, ProgramIds(d.workPrograms), year)]))
    case PatchProgram(id, patch) =>
      if !ValidStatus(Or(patch.status, ""), PROGRAM_STATUSES) then Err("invalid status")
      else if !KnownActivity(d, Or(patch.activityId, "")) then Err("activity not found")
      else (match Find(ProgramIds(d.workPrograms), id)
            case None => Err("work program not found")
            case Some(i) => Ok(d.(workPrograms := d.workPrograms[i := PatchedProgram(d.workPrograms[i], patch)])))
    case DeleteProgram(id) =>
      if id !in ProgramIds(d.workPrograms) then Err("work program not found")
      else Ok(d.(workPrograms := DropProgram(d.workPrograms, id)))
    case Elsewhere(rest) =>
      Ok(rest.(phases := d.phases, activities := d.activities, workPrograms := d.workPrograms))
  }

  /** The document after a request; a refused one leaves it as it was. */
  function After(d: Snapshot, r: Request, year: string): Snapshot {
    match Handle(d, r, year)
    case Ok(s) => s
    case Err(_) => d
  }

  function Run(d: Snapshot, requests: seq<Request>, years: seq<string>): Snapshot
    requires |years| == |requests|
  {
    if requests == [] then d
    else
      var k := |requests| - 1;
      After(Run(d, requests[..k], years[..k]), requests[k], years[k])
  }

  // ----- integrity -----

  ghost predicate PhaseSound(p: Phase) {
    p.status in PHASE_STATUSES && 0 <= p.progress <= 100
  }

  ghost predicate ActivitySound(d: Snapshot, a: Activity) {
    a.status in ACTIVITY_STATUSES && 0 <= a.progress <= 100 && KnownPhase(d, a.phaseId)
  }

  ghost predicate ProgramSound(d: Snapshot, w: WorkProgram) {
    w.status in PROGRAM_STATUSES && KnownActivity(d, w.activityId)
  }

  /** Statuses in their closed sets, progress a percentage, and no reference to a row that is gone. */
  ghost predicate Sound(d: Snapshot) {
    && (forall p | p in d.phases :: PhaseSound(p))
    && (forall a | a in d.activities :: ActivitySound(d, a))
    && (forall w | w in d.workPrograms :: ProgramSound(d, w))
  }

  /** The reference that patches do not check. */
  ghost predicate PhasesOfProgramsLive(d: Snapshot) {
    forall w | w in d.workPrograms :: KnownPhase(d, w.phaseId)
  }

  lemma ValidMeansListed(status: string, allowed: seq<string>, fallback: string)
    requires ValidStatus(status, allowed) && fallback in allowed
    ensures DefaultStatus(status, fallback) in allowed
    ensures OrNonEmpty(Some(status), fallback) in allowed
  {
    if status == "" {
      assert Text.Trim(status) == "";
    }
  }

  /** The identifiers left after a delete: every one but the deleted, however often it occurred. */
  lemma PhasesLeft(phases: seq<Phase>, id: string)
    ensures forall x :: x in PhaseIds(DropPhase(phases, id)) <==> x in PhaseIds(phases) && x != id
  {
    var kept := DropPhase(phases, id);
    forall x ensures x in PhaseIds(kept) <==> x in PhaseIds(phases) && x != id {
      if x in PhaseIds(phases) && x != id {
        var i :| 0 <= i < |phases| && PhaseIds(phases)[i] == x;
        assert phases[i] in kept;
        var j :| 0 <= j < |kept| && kept[j] == phases[i];
        assert PhaseIds(kept)[j] == x;
      }
      if x in PhaseIds(kept) {
        var j :| 0 <= j < |kept| && PhaseIds(kept)[j] == x;
        assert kept[j] in kept;
        var i :| 0 <= i < |phases| && phases[i] == kept[j];
        assert PhaseIds(phases)[i] == x;
      }
    }
  }

  lemma ActivitiesLeft(activities: seq<Activity>, id: string)
    ensures forall x :: x in ActivityIds(DropActivity(activities, id)) <==>
                        x in ActivityIds(activities) && x != id
  {
    var kept := DropActivity(activities, id);
    forall x ensures x in ActivityIds(kept) <==> x in ActivityIds(activities) && x != id {
      if x in ActivityIds(activities) && x != id {
        var i :| 0 <= i < |activities| && ActivityIds(activities)[i] == x;
        assert activities[i] in kept;
        var j :| 0 <= j < |kept| && kept[j] == activities[i];
        assert ActivityIds(kept)[j] == x;
      }
      if x in ActivityIds(kept) {
        var j :| 0 <= j < |kept| && ActivityIds(kept)[j] == x;
        assert kept[j] in kept;
        var i :| 0 <= i < |activities| && activities[i] == kept[j];
        assert ActivityIds(activities)[i] == x;
      }
    }
  }

  lemma CreatePhaseSound(d: Snapshot, p: Phase, year: string)
    requires Sound(d)
    ensures Sound(After(d, CreatePhase(p), year))
  {
    var d' := After(d, CreatePhase(p), year);
    if Handle(d, CreatePhase(p), year).Ok? {
      ValidMeansListed(p.status, PHASE_STATUSES, PHASE_STATUSES[0]);
      assert PhaseIds(d.phases) <= PhaseIds(d'.phases);
    }
  }

  lemma PatchedPhaseSound(p: Phase, patch: PhasePatch)
    requires PhaseSound(p) && ValidStatus(Or(patch.status, ""), PHASE_STATUSES)
    ensures PhaseSound(PatchedPhase(p, patch))
  {
  }

  lemma PatchPhaseSound(d: Snapshot, id: string, patch: PhasePatch, year: string)
    requires Sound(d)
    ensures var d' := After(d, PatchPhase(id, patch), year);
            Sound(d') && PhaseIds(d'.phases) == PhaseIds(d.phases)
  {
    if Handle(d, PatchPhase(id, patch), year).Ok? {
      var d' := After(d, PatchPhase(id, patch), year);
      var i := Find(PhaseIds(d.phases), id).value;
      var patched := PatchedPhase(d.phases[i], patch);
      assert d'.phases == d.phases[i := patched];
      assert d.phases[i] in d.phases;
      PatchedPhaseSound(d.phases[i], patch);
      assert PhaseIds(d'.phases) == PhaseIds(d.phases);
      forall p | p in d'.phases ensures PhaseSound(p) {
        assert p in d.phases || p == patched;
      }
      forall a | a in d'.activities ensures ActivitySound(d', a) {
        assert ActivitySound(d, a);
      }
      forall w | w in d'.workPrograms ensures ProgramSound(d', w) {
        assert ProgramSound(d, w);
      }
    }
  }

  lemma DeletePhaseSound(d: Snapshot, id: string, year: string)
    requires Sound(d)
    ensures Sound(After(d, DeletePhase(id), year))
  {
    var d' := After(d, DeletePhase(id), year);
    if Handle(d, DeletePhase(id), year).Ok? {
      PhasesLeft(d.phases, id);
      assert ActivityIds(d'.activities) == ActivityIds(d.activities);
      forall a | a in d'.activities ensures ActivitySound(d', a) {
        var i :| 0 <= i < |d'.activities| && d'.activities[i] == a;
        assert ActivitySound(d, d.activities[i]);
      }
      forall w | w in d'.workPrograms ensures ProgramSound(d', w) {
        var i :| 0 <= i < |d'.workPrograms| && d'.workPrograms[i] == w;
        assert ProgramSound(d, d.workPrograms[i]);
      }
    }
  }

  lemma CreateActivitySound(d: Snapshot, a: Activity, year: string)
    requires Sound(d)
    ensures Sound(After(d, CreateActivity(a), year))
  {
    var d' := After(d, CreateActivity(a), year);
    if Handle(d, CreateActivity(a), year).Ok? {
      ValidMeansListed(a.status, ACTIVITY_STATUSES, ACTIVITY_STATUSES[0]);
      assert ActivityIds(d.activities) <= ActivityIds(d'.activities);
    }
  }

  lemma PatchedActivitySound(d: Snapshot, a: Activity, patch: ActivityPatch)
    requires ActivitySound(d, a)
    requires ValidStatus(Or(patch.status, ""), ACTIVITY_STATUSES) && KnownPhase(d, Or(patch.phaseId, ""))
    ensures ActivitySound(d, PatchedActivity(a, patch))
  {
  }

  lemma PatchActivitySound(d: Snapshot, id: string, patch: ActivityPatch, year: string)
    requires Sound(d)
    ensures var d' := After(d, PatchActivity(id, patch), year);
            Sound(d') && ActivityIds(d'.activities) == ActivityIds(d.activities)
  {
    if Handle(d, PatchActivity(id, patch), year).Ok? {
      var d' := After(d, PatchActivity(id, patch), year);
      var i := Find(ActivityIds(d.activities), id).value;
      var patched := PatchedActivity(d.activities[i], patch);
      assert d'.activities == d.activities[i := patched];
      assert d.activities[i] in d.activities;
      PatchedActivitySound(d, d.activities[i], patch);
      SamePhasesSound(d, d', patched);
      assert ActivityIds(d'.activities) == ActivityIds(d.activities);
      forall w | w in d'.workPrograms ensures ProgramSound(d', w) {
        assert ProgramSound(d, w);
      }
    }
  }

  lemma SamePhasesSound(d: Snapshot, d': Snapshot, changed: Activity)
    requires Sound(d) && d'.phases == d.phases && ActivitySound(d, changed)
    requires forall a | a in d'.activities :: a in d.activities || a == changed
    ensures forall a | a in d'.activities :: ActivitySound(d', a)
  {
    forall a | a in d'.activities ensures ActivitySound(d', a) {
      assert ActivitySound(d, a);
    }
  }

  lemma DeleteActivitySound(d: Snapshot, id: string, year: string)
    requires Sound(d)
    ensures Sound(After(d, DeleteActivity(id), year))
  {
    var d' := After(d, DeleteActivity(id), year);
    if Handle(d, DeleteActivity(id), year).Ok? {
      ActivitiesLeft(d.activities, id);
      forall a | a in d'.activities ensures ActivitySound(d', a) {
        assert ActivitySound(d, a);
      }
      forall w | w in d'.workPrograms ensures ProgramSound(d', w) {
        var i :| 0 <= i < |d'.workPrograms| && d'.workPrograms[i] == w;
        assert ProgramSound(d, d.workPrograms[i]);
      }
    }
  }

  lemma SameParentsSound(d: Snapshot, d': Snapshot)
    requires Sound(d) && d'.phases == d.phases && d'.activities == d.activities
    requires forall w | w in d'.workPrograms :: ProgramSound(d, w)
    ensures Sound(d')
  {
    forall a | a in d'.activities ensures ActivitySound(d', a) {
      assert ActivitySound(d, a);
    }
    forall w | w in d'.workPrograms ensures ProgramSound(d', w) {
      assert ProgramSound(d, w);
    }
  }

  lemma CreateProgramSound(d: Snapshot, w: WorkProgram, year: string)
    requires Sound(d)
    ensures Sound(After(d, CreateProgram(w), year))
  {
    if Handle(d, CreateProgram(w), year).Ok? {
      ValidMeansListed(w.status, PROGRAM_STATUSES, PROGRAM_STATUSES[0]);
      SameParentsSound(d, After(d, CreateProgram(w), year));
    }
  }

  lemma PatchedProgramSound(d: Snapshot, w: WorkProgram, patch: ProgramPatch)
    requires ProgramSound(d, w)
    requires ValidStatus(Or(patch.status, ""), PROGRAM_STATUSES) && KnownActivity(d, Or(patch.activityId, ""))
    ensures ProgramSound(d, PatchedProgram(w, patch))
  {
  }

  lemma PatchProgramSound(d: Snapshot, id: string, patch: ProgramPatch, year: string)
    requires Sound(d)
    ensures Sound(After(d, PatchProgram(id, patch), year))
  {
    if Handle(d, PatchProgram(id, patch), year).Ok? {
      var d' := After(d, PatchProgram(id, patch), year);
      var i := Find(ProgramIds(d.workPrograms), id).value;
      assert d.workPrograms[i] in d.workPrograms;
      PatchedProgramSound(d, d.workPrograms[i], patch);
      assert d'.workPrograms == d.workPrograms[i := PatchedProgram(d.workPrograms[i], patch)];
      SameParentsSound(d, d');
    }
  }

  lemma RequestKeepsSound(d: Snapshot, r: Request, year: string)
    requires Sound(d)
    ensures Sound(After(d, r, year))
  {
    match r
    case CreatePhase(p) => CreatePhaseSound(d, p, year);
    case PatchPhase(id, patch) => PatchPhaseSound(d, id, patch, year);
    case DeletePhase(id) => DeletePhaseSound(d, id, year);
    case CreateActivity(a) => CreateActivitySound(d, a, year);
    case PatchActivity(id, patch) => PatchActivitySound(d, id, patch, year);
    case DeleteActivity(id) => DeleteActivitySound(d, id, year);
    case CreateProgram(w) => CreateProgramSound(d, w, year);
    case PatchProgram(id, patch) => PatchProgramSound(d, id, patch, year);
    case DeleteProgram(id) => SameParentsSound(d, After(d, r, year));
    case Elsewhere(rest) => SameParentsSound(d, After(d, r, year));
  }

  /** Every run of the handlers, with any other writers in between, keeps the breakdown sound. */
  lemma {:induction false} RunKeepsSound(d: Snapshot, requests: seq<Request>, years: seq<string>)
    requires Sound(d) && |years| == |requests|
    ensures Sound(Run(d, requests, years))
  {
    if requests != [] {
      var k := |requests| - 1;
      RunKeepsSound(d, requests[..k], years[..k]);
      RequestKeepsSound(Run(d, requests[..k], years[..k]), requests[k], years[k]);
    }
  }

  // ----- what a delete leaves -----

  /** The rows that name a phase that is being removed are the only ones that change, and only in that name. */
  lemma DeletePhaseDetaches(d: Snapshot, id: string, year: string)
    requires id in PhaseIds(d.phases) && id != ""
    ensures var d' := After(d, DeletePhase(id), year);
            && d'.projects == d.projects
            && (forall x :: x in PhaseIds(d'.phases) <==> x in PhaseIds(d.phases) && x != id)
            && |d'.activities| == |d.activities| && |d'.workPrograms| == |d.workPrograms|
            && (forall i | 0 <= i < |d.activities| ::
                  && d'.activities[i].(phaseId := d.activities[i].phaseId) == d.activities[i]
                  && (d'.activities[i] != d.activities[i] <==> d.activities[i].phaseId == id))
            && (forall i | 0 <= i < |d.workPrograms| ::
                  && d'.workPrograms[i].(phaseId := d.workPrograms[i].phaseId) == d.workPrograms[i]
                  && (d'.workPrograms[i] != d.workPrograms[i] <==> d.workPrograms[i].phaseId == id))
            && (forall a | a in d'.activities :: a.phaseId != id)
            && (forall w | w in d'.workPrograms :: w.phaseId != id)
  {
    PhasesLeft(d.phases, id);
  }

  // ----- the reference that patches leave unchecked -----

  predicate PatchesInDeadPhase(d: Snapshot, r: Request) {
    r.PatchProgram? && r.programPatch.phaseId.Some? && !KnownPhase(d, r.programPatch.phaseId.value)
  }

  lemma PatchedPhaseLive(d: Snapshot, id: string, patch: ProgramPatch, year: string)
    requires PhasesOfProgramsLive(d) && Handle(d, PatchProgram(id, patch), year).Ok?
    ensures PhasesOfProgramsLive(After(d, PatchProgram(id, patch), year)) <==>
              !PatchesInDeadPhase(d, PatchProgram(id, patch))
  {
    var d' := After(d, PatchProgram(id, patch), year);
    var i := Find(ProgramIds(d.workPrograms), id).value;
    assert d'.workPrograms[i] in d'.workPrograms && d.workPrograms[i] in d.workPrograms;
    assert forall w | w in d'.workPrograms :: w in d.workPrograms || w == d'.workPrograms[i];
  }

  lemma DetachedPhasesLive(d: Snapshot, r: Request, year: string)
    requires PhasesOfProgramsLive(d) && Handle(d, r, year).Ok? && (r.DeletePhase? || r.DeleteActivity?)
    ensures PhasesOfProgramsLive(After(d, r, year))
  {
    var d' := After(d, r, year);
    if r.DeletePhase? {
      PhasesLeft(d.phases, r.id);
    }
    forall w | w in d'.workPrograms ensures KnownPhase(d', w.phaseId) {
      var i :| 0 <= i < |d'.workPrograms| && d'.workPrograms[i] == w;
      assert KnownPhase(d, d.workPrograms[i].phaseId);
    }
  }

  /**
   * A request that goes through keeps every work program's phase live unless it patches in a
   * phase that does not exist: creates check it, deletes clear it, that patch does neither.
   */
  lemma ProgramPhasesStayLive(d: Snapshot, r: Request, year: string)
    requires Sound(d) && PhasesOfProgramsLive(d) && Handle(d, r, year).Ok?
    ensures PhasesOfProgramsLive(After(d, r, year)) <==> !PatchesInDeadPhase(d, r)
  {
    var d' := After(d, r, year);
    match r
    case CreatePhase(p) => assert PhaseIds(d.phases) <= PhaseIds(d'.phases);
    case PatchPhase(id, patch) => PatchPhaseSound(d, id, patch, year);
    case DeletePhase(_) => DetachedPhasesLive(d, r, year);
    case DeleteActivity(_) => DetachedPhasesLive(d, r, year);
    case PatchProgram(id, patch) => PatchedPhaseLive(d, id, patch, year);
    case _ =>
  }

  // ----- identifiers -----

  /** The generated code is new unless the numbers have run out and the wrapped one is taken. */
  predicate GeneratedIsFree(prefix: string, year: string, ids: seq<string>) {
    var pattern := IdPattern(prefix, year);
    !(MaxSuffix(pattern, ids) == MAX_INT && pattern + Format04(MIN_INT) in ids)
  }

  lemma AppendedDistinct(ids: seq<string>, id: string)
    requires NoDup(ids)
    ensures NoDup(ids + [id]) <==> id !in ids
  {
    if id in ids {
      var i :| 0 <= i < |ids| && ids[i] == id;
      assert (ids + [id])[i] == (ids + [id])[|ids|];
    }
  }

  /** A created row keeps identifiers distinct exactly when the identifier it ends up with was free. */
  lemma CreatedPhaseIds(d: Snapshot, p: Phase, year: string)
    requires NoDup(PhaseIds(d.phases)) && Handle(d, CreatePhase(p), year).Ok?
    ensures NoDup(PhaseIds(After(d, CreatePhase(p), year).phases)) <==>
            if p.id != "" then p.id !in PhaseIds(d.phases)
            else GeneratedIsFree("PH", year, PhaseIds(d.phases))
  {
    var ids := PhaseIds(d.phases);
    assert PhaseIds(After(d, CreatePhase(p), year).phases) == ids + [IdOr(p.id, "PH", year, ids)];
    AppendedDistinct(ids, IdOr(p.id, "PH", year, ids));
    NextCodeFresh(IdPattern("PH", year), ids);
  }

  lemma CreatedActivityIds(d: Snapshot, a: Activity, year: string)
    requires NoDup(ActivityIds(d.activities)) && Handle(d, CreateActivity(a), year).Ok?
    ensures NoDup(ActivityIds(After(d, CreateActivity(a), year).activities)) <==>
            if a.id != "" then a.id !in ActivityIds(d.activities)
            else GeneratedIsFree("ACT", year, ActivityIds(d.activities))
  {
    var ids := ActivityIds(d.activities);
    assert ActivityIds(After(d, CreateActivity(a), year).activities) == ids + [IdOr(a.id, "ACT", year, ids)];
    AppendedDistinct(ids, IdOr(a.id, "ACT", year, ids));
    NextCodeFresh(IdPattern("ACT", year), ids);
  }

  lemma CreatedProgramIds(d: Snapshot, w: WorkProgram, year: string)
    requires NoDup(ProgramIds(d.workPrograms)) && Handle(d, CreateProgram(w), year).Ok?
    ensures NoDup(ProgramIds(After(d, CreateProgram(w), year).workPrograms)) <==>
            if w.id != "" then w.id !in ProgramIds(d.workPrograms)
            else GeneratedIsFree("WP", year, ProgramIds(d.workPrograms))
  {
    var ids := ProgramIds(d.workPrograms);
    assert ProgramIds(After(d, CreateProgram(w), year).workPrograms) == ids + [IdOr(w.id, "WP", year, ids)];
    AppendedDistinct(ids, IdOr(w.id, "WP", year, ids));
    NextCodeFresh(IdPattern("WP", year), ids);
  }
}
