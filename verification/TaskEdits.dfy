/** Patching tasks, one or many at a time, and the comments that handlers post. */
module TaskEdits {
  import opened Dates
  import opened Ids
  import opened Integers
  import opened Models
  import opened Slices
  import opened TaskProjects
  import opened Wrappers
  import NameLists
  import RecurrenceJob
  import TaskCreation
  import Text

  /** Absent members are left alone; `interval` is the number as converted to an integer. */
  datatype RecurrencePatch =
    | Clear
    | Spec(pattern: Pattern, interval: Option<Int64>, endDate: DateText, nextDueAt: DateText)

  datatype TaskPatch = TaskPatch(
    name: Option<string>, desc: Option<string>, assignee: Option<string>,
    due: Option<DateText>, startDate: Option<DateText>, endDate: Option<DateText>,
    priority: Option<string>, project: Option<string>, projects: Option<seq<string>>,
    status: Option<string>, done: Option<bool>, kind: Option<string>, recurrence: Option<RecurrencePatch>)

  function Or<T>(patch: Option<T>, current: T): T {
    if patch.Some? then patch.value else current
  }

  function WithRecurrence(t: Task, p: RecurrencePatch): Task {
    match p
    case Clear => t.(recurrence := None)
    case Spec(pattern, interval, endDate, nextDueAt) =>
      if pattern.UnknownPattern? then t.(recurrence := None)
      else
        var every := if interval.Some? && interval.value > 0 then interval.value else 1;
        var cursor :=
          if nextDueAt.Blank? then RecurrenceJob.FirstNonEmpty(t.endDate, t.due, t.startDate) else nextDueAt;
        t.(recurrence := Some(Recurrence(pattern, every, endDate, cursor)))
  }

  function PatchFields(t: Task, p: TaskPatch): Task {
    t.(name := Or(p.name, t.name), desc := Or(p.desc, t.desc), assignee := Or(p.assignee, t.assignee),
       due := Or(p.due, t.due), startDate := Or(p.startDate, t.startDate), endDate := Or(p.endDate, t.endDate),
       priority := if p.priority.Some? then TaskCreation.NormalizePriority(p.priority.value) else t.priority)
  }

  function PatchState(t: Task, p: TaskPatch): Task {
    t.(status := Or(p.status, t.status), done := Or(p.done, t.done),
       kind := if p.kind.Some? then TaskCreation.NormalizeType(p.kind.value) else t.kind)
  }

  function PatchRecurrence(t: Task, p: TaskPatch): Task {
    if p.recurrence.Some? then WithRecurrence(t, p.recurrence.value) else t
  }

  /** `applyTaskPatch`. */
  function Patched(t: Task, p: TaskPatch): Task {
    PatchRecurrence(PatchState(Patch(PatchFields(t, p), p.project, p.projects), p), p)
  }

  function PatchTask(d: Snapshot, id: Int64, p: TaskPatch): Result<Snapshot> {
    match FindTask(d.tasks, id)
    case None => Err("task not found")
    case Some(i) => Ok(d.(tasks := d.tasks[i := Patched(d.tasks[i], p)]))
  }

  /** The first `n` positions of a bulk patch: every task with an entry, audited one by one. */
  function PatchFirst(d: Snapshot, patches: map<Int64, TaskPatch>, n: nat, actor: string, now: int): (d': Snapshot)
    requires n <= |d.tasks|
    ensures |d'.tasks| == |d.tasks|
  {
    if n == 0 then d
    else PatchAt(PatchFirst(d, patches, n - 1, actor, now), patches, n - 1, actor, now)
  }

  function PatchAt(d: Snapshot, patches: map<Int64, TaskPatch>, i: nat, actor: string, now: int): (d': Snapshot)
    requires i < |d.tasks|
    ensures |d'.tasks| == |d.tasks|
  {
    var t := d.tasks[i];
    if t.id in patches then
      d.(tasks := d.tasks[i := Patched(t, patches[t.id])],
         audit := Audited(d.audit, actor, "task.updated", Some(t.id), now))
    else d
  }

  /** Entries for identifier 0 do not count. */
  function PatchTasks(d: Snapshot, patches: map<Int64, TaskPatch>, actor: string, now: int): Result<Snapshot> {
    var valid := patches - {0};
    if valid == map[] then Err("no valid patches") else Ok(PatchFirst(d, valid, |d.tasks|, actor, now))
  }

  function AddComment(d: Snapshot, taskId: Int64, actor: string, text: string): Result<Snapshot> {
    if text == "" then Err("invalid body")
    else
      var c := TaskComment(NextId(CommentIds(d.taskComments)), taskId, actor, text);
      Ok(d.(taskComments := d.taskComments + [c]))
  }

  function OtherComments(comments: seq<TaskComment>, id: Int64): seq<TaskComment> {
    Filter(comments, (c: TaskComment) => c.id != id)
  }

  function DeleteComment(d: Snapshot, id: Int64): Snapshot {
    d.(taskComments := OtherComments(d.taskComments, id))
  }

  // ----- in place -----

  method ApplyTaskPatch(t: Task, p: TaskPatch) returns (t': Task)
    ensures t' == Patched(t, p)
  {
    var cell := new TaskCell(PatchFields(t, p));
    cell.PatchInPlace(p.project, p.projects);
    t' := PatchRecurrence(PatchState(cell.task, p), p);
  }

  method PatchTasksInPlace(d: Document, patches: map<Int64, TaskPatch>, actor: string, now: int) returns (r: Result<()>)
    modifies d`tasks, d`audit
    ensures match PatchTasks(old(d.Value()), patches, actor, now)
            case Ok(s) => r == Ok(()) && d.Value() == s
            case Err(e) => r == Err(e) && d.Value() == old(d.Value())
  {
    var valid := patches - {0};
    if valid == map[] {
      return Err("no valid patches");
    }
    ghost var was := d.Value();
    for i := 0 to |d.tasks|
      invariant d.Value() == PatchFirst(was, valid, i, actor, now) && |d.tasks| == |was.tasks|
    {
      PatchPosition(d, valid, i, actor, now);
    }
    r := Ok(());
  }

  method PatchPosition(d: Document, patches: map<Int64, TaskPatch>, i: nat, actor: string, now: int)
    requires i < |d.tasks|
    modifies d`tasks, d`audit
    ensures d.Value() == PatchAt(old(d.Value()), patches, i, actor, now)
  {
    var t := d.tasks[i];
    if t.id !in patches {
      return;
    }
    var t' := ApplyTaskPatch(t, patches[t.id]);
    d.tasks := d.tasks[i := t'];
    AppendAudit(d, actor, "task.updated", Some(t.id), now);
  }

  method DeleteTaskComment(d: Document, id: Int64)
    modifies d`taskComments
    ensures d.Value() == DeleteComment(old(d.Value()), id)
  {
    var kept, _ := FilterInPlace(d.taskComments, (c: TaskComment) => c.id != id);
    assert kept == OtherComments(d.taskComments, id);
    d.taskComments := kept;
  }

  // ----- what a patch keeps -----

  /** Apart from homes, what a patch cannot touch. */
  predicate SameTask(t: Task, t': Task) {
    && t'.id == t.id && t'.approvers == t.approvers && t'.approvedBy == t.approvedBy
    && t'.subtasks == t.subtasks && t'.dependsOn == t.dependsOn && t'.deletedAt == t.deletedAt
  }

  lemma FieldsKeep(t: Task, p: TaskPatch)
    ensures SameTask(t, PatchFields(t, p)) && (HomeOk(t) ==> HomeOk(PatchFields(t, p)))
  {
  }

  lemma HomesKeep(t: Task, p: TaskPatch)
    ensures SameTask(t, Patch(t, p.project, p.projects)) && (HomeOk(t) ==> HomeOk(Patch(t, p.project, p.projects)))
  {
    if HomeOk(t) {
      PatchKeepsHomes(t, p.project, p.projects);
    }
  }

  lemma StateKeeps(t: Task, p: TaskPatch)
    ensures SameTask(t, PatchRecurrence(PatchState(t, p), p))
    ensures HomeOk(t) ==> HomeOk(PatchRecurrence(PatchState(t, p), p))
  {
  }

  /** A patch keeps identity, sign-offs and the home invariant, whatever else it changes. */
  lemma PatchedKeeps(t: Task, p: TaskPatch)
    ensures SameTask(t, Patched(t, p)) && (HomeOk(t) ==> HomeOk(Patched(t, p)))
  {
    FieldsKeep(t, p);
    HomesKeep(PatchFields(t, p), p);
    StateKeeps(Patch(PatchFields(t, p), p.project, p.projects), p);
  }

  // ----- what a patch sets -----

  /** A value that a patch gives, or the old one. */
  ghost predicate Sets<T>(patch: Option<T>, was: T, is_: T) {
    match patch
    case Some(value) => is_ == value
    case None => is_ == was
  }

  /** Every given field is read back, and every other is as it was. */
  ghost predicate FieldsMean(t: Task, p: TaskPatch, t': Task) {
    && Sets(p.name, t.name, t'.name) && Sets(p.desc, t.desc, t'.desc) && Sets(p.assignee, t.assignee, t'.assignee)
    && Sets(p.due, t.due, t'.due) && Sets(p.startDate, t.startDate, t'.startDate)
    && Sets(p.endDate, t.endDate, t'.endDate) && Sets(p.status, t.status, t'.status) && Sets(p.done, t.done, t'.done)
    && (p.priority.None? ==> t'.priority == t.priority)
    && (p.priority.Some? ==> TaskCreation.Reads(p.priority.value, {"", "low", "medium", "high"}, "medium", t'.priority))
    && (p.kind.None? ==> t'.kind == t.kind)
    && (p.kind.Some? ==> TaskCreation.Reads(p.kind.value, {"", "milestone", "approval"}, "task", t'.kind))
    && t'.tags == t.tags && SameTask(t, t')
  }

  /** The first of three dates that is not white space. */
  ghost predicate FirstDate(a: DateText, b: DateText, c: DateText, first: DateText) {
    && (!RecurrenceJob.OnlySpace(a) ==> first == a)
    && (RecurrenceJob.OnlySpace(a) && !RecurrenceJob.OnlySpace(b) ==> first == b)
    && (RecurrenceJob.OnlySpace(a) && RecurrenceJob.OnlySpace(b) && !RecurrenceJob.OnlySpace(c) ==> first == c)
    && (RecurrenceJob.OnlySpace(a) && RecurrenceJob.OnlySpace(b) && RecurrenceJob.OnlySpace(c) ==> first == Blank)
  }

  /**
   * A recurrence is at least one step long, and starts at the cursor it is given or at the
   * first date of the task as patched. A pattern that is not known takes it away.
   */
  ghost predicate RecurrenceMeans(t: Task, p: TaskPatch, t': Task) {
    match p.recurrence
    case None => t'.recurrence == t.recurrence
    case Some(Clear) => t'.recurrence == None
    case Some(Spec(pattern, interval, endDate, cursor)) =>
      t'.recurrence.Some? == !pattern.UnknownPattern?
      && (t'.recurrence.Some? ==>
            var r := t'.recurrence.value;
            && r.pattern == pattern && r.endDate == endDate
            && (interval.Some? && interval.value > 0 ==> r.interval == interval.value)
            && (interval.None? || interval.value <= 0 ==> r.interval == 1)
            && (!cursor.Blank? ==> r.nextDueAt == cursor)
            && (cursor.Blank? ==> FirstDate(t'.endDate, t'.due, t'.startDate, r.nextDueAt)))
  }

  lemma HomesOnly(t: Task, project: Option<string>, projects: Option<seq<string>>)
    ensures var t' := Patch(t, project, projects); t' == t.(project := t'.project, projects := t'.projects)
  {
  }

  lemma FieldsFrom(t: Task, p: TaskPatch, t2: Task)
    requires t2 == PatchFields(t, p).(project := t2.project, projects := t2.projects)
    ensures FieldsMean(t, p, PatchRecurrence(PatchState(t2, p), p))
  {
    var t3 := PatchState(t2, p);
    assert PatchRecurrence(t3, p) == t3.(recurrence := PatchRecurrence(t3, p).recurrence);
    if p.priority.Some? {
      TaskCreation.PriorityReads(p.priority.value);
    }
    if p.kind.Some? {
      TaskCreation.TypeReads(p.kind.value);
    }
  }

  lemma RecurrenceFrom(t: Task, p: TaskPatch)
    ensures RecurrenceMeans(t, p, PatchRecurrence(t, p))
  {
  }

  lemma RecurrenceKept(t: Task, p: TaskPatch, t2: Task)
    requires t2 == PatchFields(t, p).(project := t2.project, projects := t2.projects)
    ensures PatchState(t2, p).recurrence == t.recurrence
  {
  }

  /** What a patch reads back. */
  lemma PatchedMeans(t: Task, p: TaskPatch)
    ensures FieldsMean(t, p, Patched(t, p)) && RecurrenceMeans(t, p, Patched(t, p))
  {
    var t2 := Patch(PatchFields(t, p), p.project, p.projects);
    HomesOnly(PatchFields(t, p), p.project, p.projects);
    FieldsFrom(t, p, t2);
    RecurrenceKept(t, p, t2);
    RecurrenceFrom(PatchState(t2, p), p);
  }

  /** The given list, cleaned; or the one project that is given, or stays if the list is emptied, unless empty. */
  ghost predicate HomesMean(t: Task, project: Option<string>, projects: Option<seq<string>>, t': Task) {
    var only := if project.Some? then project.value else t.project;
    if projects.None? && project.None? then t'.project == t.project && t'.projects == t.projects
    else if projects.None? || projects.value == [] then
      t'.project == only && t'.projects == if only == "" then [] else [only]
    else
      && NoDup(t'.projects) && t'.project == (if t'.projects == [] then "" else t'.projects[0])
      && forall x :: x in t'.projects <==> x != "" && exists n | n in projects.value :: Text.Trim(n) == x
  }

  lemma PatchHomes(t: Task, project: Option<string>, projects: Option<seq<string>>)
    ensures HomesMean(t, project, projects, Patch(t, project, projects))
  {
    if projects.Some? {
      NameLists.DedupeMeans(projects.value);
    }
    if project.Some? && project.value != "" {
      NameLists.DedupeMeans([project.value]);
    }
  }

  lemma StateKeepsHomes(t: Task, p: TaskPatch)
    ensures var t' := PatchRecurrence(PatchState(t, p), p); t'.project == t.project && t'.projects == t.projects
  {
  }

  /** The homes after a patch. */
  lemma PatchedHomes(t: Task, p: TaskPatch)
    ensures HomesMean(t, p.project, p.projects, Patched(t, p))
  {
    var t1 := PatchFields(t, p);
    PatchHomes(t1, p.project, p.projects);
    StateKeepsHomes(Patch(t1, p.project, p.projects), p);
  }

  lemma PatchHomesTwice(t: Task, project: Option<string>, projects: Option<seq<string>>)
    ensures var t' := Patch(t, project, projects); Patch(t', project, projects) == t'
  {
  }

  lemma HomesFrom(t: Task, u: Task, project: Option<string>, projects: Option<seq<string>>)
    requires t.project == u.project && t.projects == u.projects
    ensures var t', u' := Patch(t, project, projects), Patch(u, project, projects);
            t'.project == u'.project && t'.projects == u'.projects
  {
  }

  lemma FieldsAgain(t: Task, p: TaskPatch, t2: Task)
    requires t2 == PatchFields(t, p).(project := t2.project, projects := t2.projects)
    ensures var t' := PatchRecurrence(PatchState(t2, p), p); PatchFields(t', p) == t'
  {
  }

  lemma StateAgain(t: Task, p: TaskPatch)
    ensures var t' := PatchRecurrence(PatchState(t, p), p); PatchRecurrence(PatchState(t', p), p) == t'
  {
  }

  /** A patch that is sent again changes nothing more. */
  lemma PatchedTwice(t: Task, p: TaskPatch)
    ensures Patched(Patched(t, p), p) == Patched(t, p)
  {
    var t1 := PatchFields(t, p);
    var t2 := Patch(t1, p.project, p.projects);
    var t' := Patched(t, p);
    HomesOnly(t1, p.project, p.projects);
    FieldsAgain(t, p, t2);
    PatchHomesTwice(t1, p.project, p.projects);
    StateKeepsHomes(t2, p);
    HomesFrom(t2, t', p.project, p.projects);
    HomesOnly(t', p.project, p.projects);
    StateAgain(t2, p);
  }

  // ----- many tasks at once -----

  /** The first `n` tasks are what `each` says, the others are as they were. */
  ghost predicate UpTo(d: Snapshot, d': Snapshot, each: seq<Task>, n: nat) {
    && |each| == |d'.tasks| == |d.tasks|
    && d' == d.(tasks := d'.tasks, audit := d'.audit) && d.audit <= d'.audit
    && forall j | 0 <= j < |d.tasks| :: d'.tasks[j] == if j < n then each[j] else d.tasks[j]
  }

  lemma OneMore(d: Snapshot, b: Snapshot, b': Snapshot, each: seq<Task>, n: nat)
    requires n < |d.tasks| && UpTo(d, b, each, n) && b.audit <= b'.audit
    requires b' == b.(tasks := b.tasks[n := each[n]], audit := b'.audit)
    ensures UpTo(d, b', each, n + 1)
  {
  }

  lemma PatchOne(d: Snapshot, patches: map<Int64, TaskPatch>, i: nat, t': Task, actor: string, now: int)
    requires i < |d.tasks|
    requires t' == if d.tasks[i].id in patches then Patched(d.tasks[i], patches[d.tasks[i].id]) else d.tasks[i]
    ensures var d' := PatchAt(d, patches, i, actor, now);
            d' == d.(tasks := d.tasks[i := t'], audit := d'.audit) && d.audit <= d'.audit
  {
    assert d.tasks[i := d.tasks[i]] == d.tasks;
  }

  lemma FirstPatched(d: Snapshot, patches: map<Int64, TaskPatch>, each: seq<Task>, actor: string, now: int)
    requires |each| == |d.tasks|
    requires forall j: nat | j < |d.tasks| ::
               each[j] == if d.tasks[j].id in patches then Patched(d.tasks[j], patches[d.tasks[j].id]) else d.tasks[j]
    ensures UpTo(d, PatchFirst(d, patches, |d.tasks|, actor, now), each, |d.tasks|)
  {
    for k := 0 to |d.tasks|
      invariant UpTo(d, PatchFirst(d, patches, k, actor, now), each, k)
    {
      var b := PatchFirst(d, patches, k, actor, now);
      PatchOne(b, patches, k, each[k], actor, now);
      OneMore(d, b, PatchAt(b, patches, k, actor, now), each, k);
    }
  }

  /** Every task with an entry is patched by it, whatever the other entries are, and nothing else is. */
  lemma BulkMeans(d: Snapshot, patches: map<Int64, TaskPatch>, actor: string, now: int)
    ensures var r := PatchTasks(d, patches, actor, now);
            && (r.Ok? <==> exists id :: id in patches && id != 0)
            && (r.Ok? ==>
                  && |r.value.tasks| == |d.tasks|
                  && r.value == d.(tasks := r.value.tasks, audit := r.value.audit) && d.audit <= r.value.audit
                  && forall j | 0 <= j < |d.tasks| ::
                       var id := d.tasks[j].id;
                       r.value.tasks[j]
                       == if id in patches && id != 0 then Patched(d.tasks[j], patches[id]) else d.tasks[j])
  {
    var valid := patches - {0};
    assert forall id :: id in valid <==> id in patches && id != 0;
    var each := seq(|d.tasks|, j requires 0 <= j < |d.tasks| =>
      if d.tasks[j].id in valid then Patched(d.tasks[j], valid[d.tasks[j].id]) else d.tasks[j]);
    if valid != map[] {
      FirstPatched(d, valid, each, actor, now);
    }
  }
}
