/**
 * Every writer of a workspace over the one shared row: mutations with the automation engine
 * behind them, the recurrence and archive jobs, and full-document writes.
 */
module Workspace {
  import opened Ids
  import opened Integers
  import opened Models
  import opened OptimisticLock
  import opened Slices
  import opened Wrappers
  import Approvals
  import Archive
  import FinanceBooking
  import LateInserts
  import RecurrenceJob
  import RuleEngine
  import RuleEngineTheorems
  import Serializability
  import StringIds
  import Subtasks
  import TaskCreation
  import TaskDelete
  import TaskEdits
  import TaskProjects
  import Wbs

  datatype Request =
    | NewTask(input: TaskCreation.TaskInput, actor: string)
    | NewTasks(inputs: seq<TaskCreation.TaskInput>, actor: string)
    | RemoveTask(id: Int64, permanent: bool, actor: string, stamp: string)
    | RestoreTask(id: Int64, actor: string)
    | PatchTask(id: Int64, patch: TaskEdits.TaskPatch)
    | PatchTasks(patches: map<Int64, TaskEdits.TaskPatch>, actor: string)
    | PostComment(taskId: Int64, actor: string, text: string)
    | DropComment(id: Int64)
    | Approval(approval: Approvals.Request)
    | Subtask(subtask: Subtasks.Request)
    | AddHome(id: Int64, project: string)
    | RemoveHome(id: Int64, project: string)
    | DropProject(project: string)
    | Breakdown(breakdown: Wbs.Request, year: string)
    | Submit(requisition: Requisition)
    | Withdraw(id: Int64, actor: string)
    | Decision(id: Int64, outcome: string, actor: string)
    | Reference(id: Int64, ref: string)

  function Value<T>(r: Result<T>): Option<T> {
    match r
    case Ok(value) => Some(value)
    case Err(_) => None
  }

  /**
   * The creators of breakdown rows store a generated identifier in the request they captured,
   * so a second attempt goes on with the identifier that the first computed from `seen`.
   */
  function Captured(r: Wbs.Request, seen: seq<Snapshot>, year: string): Wbs.Request {
    if seen == [] then r
    else
      match r
      case CreatePhase(p) => Wbs.CreatePhase(p.(id := Wbs.IdOr(p.id, "PH", year, Wbs.PhaseIds(seen[0].phases))))
      case CreateActivity(a) =>
        Wbs.CreateActivity(a.(id := Wbs.IdOr(a.id, "ACT", year, Wbs.ActivityIds(seen[0].activities))))
      case CreateProgram(w) =>
        Wbs.CreateProgram(w.(id := Wbs.IdOr(w.id, "WP", year, Wbs.ProgramIds(seen[0].workPrograms))))
      case _ => r
  }

  /** What a request's closure makes of the document in hand. */
  function Perform(r: Request, seen: seq<Snapshot>, now: nat, d: Snapshot): Option<Snapshot> {
    match r
    case NewTask(input, actor) => Value(TaskCreation.Create(d, input, actor, now))
    case NewTasks(inputs, actor) => Value(TaskCreation.CreateBulk(d, inputs, actor, now))
    case RemoveTask(id, permanent, actor, stamp) => Value(TaskDelete.DeleteTask(d, id, permanent, actor, stamp, now))
    case RestoreTask(id, actor) => Value(TaskDelete.RestoreTask(d, id, actor, now))
    case PatchTask(id, patch) => Value(TaskEdits.PatchTask(d, id, patch))
    case PatchTasks(patches, actor) => Value(TaskEdits.PatchTasks(d, patches, actor, now))
    case PostComment(taskId, actor, text) => Value(TaskEdits.AddComment(d, taskId, actor, text))
    case DropComment(id) => Some(TaskEdits.DeleteComment(d, id))
    case Approval(approval) => Value(Approvals.Handle(d, approval, now))
    case Subtask(subtask) => Value(Subtasks.Handle(d, subtask, now))
    case AddHome(id, project) => Value(TaskProjects.AddProject(d, id, project))
    case RemoveHome(id, project) => Value(TaskProjects.RemoveProject(d, id, project))
    case DropProject(project) => Value(TaskProjects.DeleteProject(d, project))
    case Breakdown(breakdown, year) => Value(Wbs.Handle(d, Captured(breakdown, seen, year), year))
    case Submit(r) => Some(d.(requisitions := FinanceBooking.Created(d.requisitions, r)))
    case Withdraw(id, actor) =>
      (match FinanceBooking.Removed(d.requisitions, id)
       case Ok(rs) => Some(d.(requisitions := rs, audit := Audited(d.audit, actor, "requisition.deleted", None, now)))
       case Err(_) => None)
    case Decision(id, outcome, actor) => Some(FinanceBooking.DecidedDocument(d, id, outcome, actor, now))
    case Reference(id, ref) => Some(FinanceBooking.ReferredDocument(d, id, ref, now))
  }

  datatype Writer =
    | Mutation(request: Request)
    | Sweep(cfg: Archive.Config, cut: Archive.Cutoffs)
    | Recur
    | FullWrite(data: Snapshot, version: int, allowed: Snapshot -> bool)

  function JobOf(w: Writer): Job<Snapshot> {
    match w
    case Mutation(r) => Mutate((seen: seq<Snapshot>, now: nat, d: Snapshot) => Perform(r, seen, now, d))
    case Sweep(cfg, cut) => Job.Archive((now: nat, d: Snapshot) => Archive.ArchivePass(d, cfg, cut, now))
    case Recur =>
      RecurrencePass((now: nat, d: Snapshot) =>
        if RecurrenceJob.Busy(d, now) then Some(RecurrenceJob.Pass(d, now)) else None)
    case FullWrite(data, version, allowed) => Put(data, version, allowed)
  }

  function Rules(prev: Snapshot, d: Snapshot, now: nat): Computed<Snapshot, RuleEngine.Notice> {
    var o := RuleEngine.DiffAndRun(prev, d, now);
    Computed(o.doc, o.notices)
  }

  function ServiceOf(initial: Snapshot): Service<Snapshot, RuleEngine.Notice> {
    Service(initial, (prev: Snapshot, d: Snapshot, now: nat) => Rules(prev, d, now))
  }

  // ----- late inserts -----

  lemma CapturedAtFirst(r: Wbs.Request, d: Snapshot, year: string)
    ensures Wbs.Handle(d, Captured(r, [d], year), year) == Wbs.Handle(d, r, year)
  {
    var phases := StringIds.NextCode(StringIds.IdPattern("PH", year), Wbs.PhaseIds(d.phases));
    var activities := StringIds.NextCode(StringIds.IdPattern("ACT", year), Wbs.ActivityIds(d.activities));
    var programs := StringIds.NextCode(StringIds.IdPattern("WP", year), Wbs.ProgramIds(d.workPrograms));
    assert phases != "" && activities != "" && programs != "";
  }

  lemma PerformAtFirst(r: Request, d: Snapshot, now: nat)
    ensures Perform(r, [d], now, d) == Perform(r, [], now, d)
  {
    if r.Breakdown? {
      CapturedAtFirst(r.breakdown, d, r.year);
    }
  }

  /**
   * The service's writers meet the condition under which reaching a late insert is decided by
   * the writers alone, unless a full-document write asks for a version above 1.
   */
  lemma WritersArePlain(initial: Snapshot, w: Writer)
    requires w.FullWrite? ==> w.version <= 1
    ensures LateInserts.Plainly(ServiceOf(initial), JobOf(w))
  {
    forall now: nat
      ensures Attempt(ServiceOf(initial), JobOf(w), [initial], now, initial)
              == Attempt(ServiceOf(initial), JobOf(w), [], now, initial)
    {
      if w.Mutation? {
        PerformAtFirst(w.request, initial, now);
      }
    }
  }

  // ----- the document invariant -----

  ghost predicate TaskSound(t: Task) {
    TaskProjects.HomeOk(t) && Approvals.Consistent(t)
  }

  ghost predicate TasksTidy(tasks: seq<Task>) {
    NoDup(TaskIds(tasks)) && forall t | t in tasks :: TaskSound(t)
  }

  /**
   * Identifiers are distinct within each list, every task's homes and approvals are
   * consistent, and the work breakdown is sound.
   */
  ghost predicate Tidy(d: Snapshot) {
    && TasksTidy(d.tasks)
    && NoDup(SubtaskIds(d.subtasks)) && NoDup(CommentIds(d.taskComments)) && NoDup(AuditIds(d.audit))
    && NoDup(FinanceBooking.RequisitionIds(d.requisitions))
    && Wbs.Sound(d)
  }

  /** No list has used up the integers. */
  ghost predicate Roomy(d: Snapshot) {
    && MAX_INT !in TaskIds(d.tasks) && MAX_INT !in SubtaskIds(d.subtasks)
    && MAX_INT !in CommentIds(d.taskComments) && MAX_INT !in AuditIds(d.audit)
    && MAX_INT !in FinanceBooking.RequisitionIds(d.requisitions)
  }

  // ----- parts -----

  lemma AuditPrefix(audit: seq<AuditEntry>, audit': seq<AuditEntry>)
    requires audit <= audit' && MAX_INT !in AuditIds(audit')
    ensures MAX_INT !in AuditIds(audit)
  {
    assert AuditIds(audit) <= AuditIds(audit');
  }

  lemma SoundCarries(d: Snapshot, d': Snapshot)
    requires Wbs.Sound(d)
    requires d'.phases == d.phases && d'.activities == d.activities && d'.workPrograms == d.workPrograms
    ensures Wbs.Sound(d')
  {
    forall a | a in d'.activities ensures Wbs.ActivitySound(d', a) {
      assert Wbs.ActivitySound(d, a);
    }
    forall w | w in d'.workPrograms ensures Wbs.ProgramSound(d', w) {
      assert Wbs.ProgramSound(d, w);
    }
  }

  lemma OneTaskTidy(tasks: seq<Task>, i: nat, t: Task)
    requires TasksTidy(tasks) && i < |tasks| && t.id == tasks[i].id && TaskSound(t)
    ensures TasksTidy(tasks[i := t])
  {
    assert TaskIds(tasks[i := t]) == TaskIds(tasks);
  }

  lemma SameIdsTidy(tasks: seq<Task>, tasks': seq<Task>)
    requires TasksTidy(tasks) && |tasks'| == |tasks|
    requires forall i | 0 <= i < |tasks| :: tasks'[i].id == tasks[i].id && TaskSound(tasks'[i])
    ensures TasksTidy(tasks')
  {
    assert TaskIds(tasks') == TaskIds(tasks);
  }

  lemma MoreTasksTidy(tasks: seq<Task>, t: Task)
    requires TasksTidy(tasks) && TaskSound(t) && t.id == NextId(TaskIds(tasks)) && MAX_INT !in TaskIds(tasks)
    ensures TasksTidy(tasks + [t])
  {
    assert TaskIds(tasks + [t]) == TaskIds(tasks) + [t.id];
    AppendFresh(TaskIds(tasks));
  }

  /** Dropping rows from a list keeps the identifiers that are left distinct. */
  lemma {:induction false} FilteredIds<T>(rows: seq<T>, idOf: T -> Int64, keep: T -> bool)
    requires NoDup(Map(rows, idOf))
    ensures NoDup(Map(Filter(rows, keep), idOf))
  {
    if rows != [] {
      var init, last := rows[..|rows| - 1], rows[|rows| - 1];
      var ids := Map(rows, idOf);
      assert Map(init, idOf) == ids[..|init|];
      FilteredIds(init, idOf, keep);
      var kept := Filter(init, keep);
      forall i | 0 <= i < |kept| ensures idOf(kept[i]) != idOf(last) {
        assert kept[i] in init;
        var k :| 0 <= k < |init| && init[k] == kept[i];
        assert ids[k] != ids[|init|];
      }
      assert Filter(rows, keep) == if keep(last) then kept + [last] else kept;
      assert Map(kept + [last], idOf) == Map(kept, idOf) + [idOf(last)];
    }
  }

  lemma FilteredTasksTidy(tasks: seq<Task>, keep: Task -> bool)
    requires TasksTidy(tasks)
    ensures TasksTidy(Filter(tasks, keep))
  {
    var idOf := (t: Task) => t.id;
    assert Map(tasks, idOf) == TaskIds(tasks);
    FilteredIds(tasks, idOf, keep);
    assert Map(Filter(tasks, keep), idOf) == TaskIds(Filter(tasks, keep));
  }

  lemma FilteredSubtaskIds(subtasks: seq<Models.Subtask>, keep: Models.Subtask -> bool)
    requires NoDup(SubtaskIds(subtasks))
    ensures NoDup(SubtaskIds(Filter(subtasks, keep)))
  {
    var idOf := (s: Models.Subtask) => s.id;
    assert Map(subtasks, idOf) == SubtaskIds(subtasks);
    FilteredIds(subtasks, idOf, keep);
    assert Map(Filter(subtasks, keep), idOf) == SubtaskIds(Filter(subtasks, keep));
  }

  lemma FilteredCommentIds(comments: seq<TaskComment>, keep: TaskComment -> bool)
    requires NoDup(CommentIds(comments))
    ensures NoDup(CommentIds(Filter(comments, keep)))
  {
    var idOf := (c: TaskComment) => c.id;
    assert Map(comments, idOf) == CommentIds(comments);
    FilteredIds(comments, idOf, keep);
    assert Map(Filter(comments, keep), idOf) == CommentIds(Filter(comments, keep));
  }

  lemma FilteredAuditIds(audit: seq<AuditEntry>, keep: AuditEntry -> bool)
    requires NoDup(AuditIds(audit))
    ensures NoDup(AuditIds(Filter(audit, keep)))
  {
    var idOf := (e: AuditEntry) => e.id;
    assert Map(audit, idOf) == AuditIds(audit);
    FilteredIds(audit, idOf, keep);
    assert Map(Filter(audit, keep), idOf) == AuditIds(Filter(audit, keep));
  }

  // ----- requests -----

  lemma AppendTidy(d: Snapshot, input: TaskCreation.TaskInput, priority: string, actor: string, now: int)
    requires Tidy(d) && Roomy(TaskCreation.Append(d, input, priority, actor, now))
    ensures Tidy(TaskCreation.Append(d, input, priority, actor, now)) && Roomy(d)
  {
    var d' := TaskCreation.Append(d, input, priority, actor, now);
    var id := NextId(TaskIds(d.tasks));
    var draft := TaskCreation.Draft(input, id, priority);
    TaskCreation.AppendIds(d, input, priority, actor, now);
    TaskProjects.NormalizeHomes(draft);
    assert Approvals.Consistent(TaskProjects.Normalize(draft));
    assert MAX_INT !in TaskIds(d.tasks);
    MoreTasksTidy(d.tasks, TaskProjects.Normalize(draft));
    AuditPrefix(d.audit, d'.audit);
    RuleEngineTheorems.AuditedDistinct(d.audit, actor, "task.created", Some(id), now);
    SoundCarries(d, d');
  }

  lemma AllButLast(d: Snapshot, inputs: seq<TaskCreation.TaskInput>, n: nat, actor: string, now: int)
    requires 0 < n <= |inputs| && Roomy(TaskCreation.AppendAll(d, inputs, n, actor, now))
    ensures var before := TaskCreation.AppendAll(d, inputs, n - 1, actor, now);
            Roomy(before) && (Tidy(before) ==> Tidy(TaskCreation.AppendAll(d, inputs, n, actor, now)))
  {
    var before, input := TaskCreation.AppendAll(d, inputs, n - 1, actor, now), inputs[n - 1];
    AppendRoom(before, input, input.priority, actor, now);
    if Tidy(before) {
      AppendTidy(before, input, input.priority, actor, now);
    }
  }

  /** Room at the end means room all along, and with it each task keeps the document as it should be. */
  lemma {:induction false} Along(
    d: Snapshot, inputs: seq<TaskCreation.TaskInput>, n: nat, actor: string, now: int, keep: Snapshot -> bool,
    room: Snapshot -> bool)
    requires n <= |inputs| && keep(d) && room(TaskCreation.AppendAll(d, inputs, n, actor, now))
    requires forall k | 0 < k <= n && room(TaskCreation.AppendAll(d, inputs, k, actor, now)) ::
               var before := TaskCreation.AppendAll(d, inputs, k - 1, actor, now);
               room(before) && (keep(before) ==> keep(TaskCreation.AppendAll(d, inputs, k, actor, now)))
    ensures keep(TaskCreation.AppendAll(d, inputs, n, actor, now))
  {
    if n > 0 {
      Along(d, inputs, n - 1, actor, now, keep, room);
    }
  }

  lemma AppendAllTidy(d: Snapshot, inputs: seq<TaskCreation.TaskInput>, n: nat, actor: string, now: int)
    requires n <= |inputs| && Tidy(d) && Roomy(TaskCreation.AppendAll(d, inputs, n, actor, now))
    ensures Tidy(TaskCreation.AppendAll(d, inputs, n, actor, now))
  {
    forall k | 0 < k <= n && RoomyTest()(TaskCreation.AppendAll(d, inputs, k, actor, now))
      ensures var before := TaskCreation.AppendAll(d, inputs, k - 1, actor, now);
              RoomyTest()(before)
              && (TidyTest()(before) ==> TidyTest()(TaskCreation.AppendAll(d, inputs, k, actor, now)))
    {
      AllButLast(d, inputs, k, actor, now);
    }
    Along(d, inputs, n, actor, now, TidyTest(), RoomyTest());
  }

  lemma AppendRoom(d: Snapshot, input: TaskCreation.TaskInput, priority: string, actor: string, now: int)
    requires Roomy(TaskCreation.Append(d, input, priority, actor, now))
    ensures Roomy(d)
  {
    TaskCreation.AppendIds(d, input, priority, actor, now);
    AuditPrefix(d.audit, TaskCreation.Append(d, input, priority, actor, now).audit);
  }

  lemma CascadeTidy(d: Snapshot, ids: set<Int64>)
    requires Tidy(d)
    ensures Tidy(TaskDelete.Cascade(d, ids))
  {
    var kept := Filter(d.tasks, (t: Task) => t.id !in ids);
    FilteredTasksTidy(d.tasks, (t: Task) => t.id !in ids);
    assert forall i | 0 <= i < |kept| :: kept[i] in kept;
    SameIdsTidy(kept, TaskDelete.KeptTasks(d.tasks, ids));
    FilteredSubtaskIds(d.subtasks, (s: Models.Subtask) => s.parentTaskId !in ids);
    FilteredCommentIds(d.taskComments, (c: TaskComment) => c.taskId !in ids);
    SoundCarries(d, TaskDelete.Cascade(d, ids));
  }

  lemma RemovalTidy(d: Snapshot, id: Int64, permanent: bool, actor: string, stamp: string, now: int)
    requires Tidy(d)
    requires var r := TaskDelete.DeleteTask(d, id, permanent, actor, stamp, now); r.Ok? && Roomy(r.value)
    ensures Tidy(TaskDelete.DeleteTask(d, id, permanent, actor, stamp, now).value)
  {
    var i := FindTask(d.tasks, id).value;
    assert d.tasks[i] in d.tasks;
    if permanent {
      CascadeTidy(d, {id});
      RuleEngineTheorems.AuditedDistinct(d.audit, actor, "task.deleted", Some(id), now);
      SoundCarries(d, TaskDelete.DeleteTask(d, id, permanent, actor, stamp, now).value);
    } else {
      OneTaskTidy(d.tasks, i, d.tasks[i].(deletedAt := stamp));
      RuleEngineTheorems.AuditedDistinct(d.audit, actor, "task.soft_deleted", Some(id), now);
      SoundCarries(d, TaskDelete.DeleteTask(d, id, permanent, actor, stamp, now).value);
    }
  }

  lemma RestoreTidy(d: Snapshot, id: Int64, actor: string, now: int)
    requires Tidy(d)
    requires var r := TaskDelete.RestoreTask(d, id, actor, now); r.Ok? && Roomy(r.value)
    ensures Tidy(TaskDelete.RestoreTask(d, id, actor, now).value)
  {
    var i := FindTask(d.tasks, id).value;
    assert d.tasks[i] in d.tasks;
    if d.tasks[i].deletedAt != "" {
      OneTaskTidy(d.tasks, i, d.tasks[i].(deletedAt := ""));
      RuleEngineTheorems.AuditedDistinct(d.audit, actor, "task.restored", Some(id), now);
      SoundCarries(d, TaskDelete.RestoreTask(d, id, actor, now).value);
    }
  }

  lemma EntriesDistinct(r: Approvals.Request, t: Task, t': Task, audit: seq<AuditEntry>, now: int)
    requires NoDup(AuditIds(audit)) && MAX_INT !in AuditIds(Approvals.Entries(r, t, t', audit, now))
    ensures NoDup(AuditIds(Approvals.Entries(r, t, t', audit, now)))
  {
    match r
    case Approve(id, actor) =>
      if t'.approvedBy != t.approvedBy {
        var signed := Audited(audit, actor, "task.approved", Some(id), now);
        AuditPrefix(signed, Approvals.Entries(r, t, t', audit, now));
        RuleEngineTheorems.AuditedDistinct(audit, actor, "task.approved", Some(id), now);
        if |t'.approvedBy| >= |t'.approvers| {
          RuleEngineTheorems.AuditedDistinct(signed, actor, "task.completed", Some(id), now);
        }
      }
    case Reject(id, actor) => RuleEngineTheorems.AuditedDistinct(audit, actor, "task.rejected", Some(id), now);
    case SetApprovers(_, _) =>
  }

  lemma ApprovalTidy(d: Snapshot, r: Approvals.Request, now: int)
    requires Tidy(d)
    requires var a := Approvals.Handle(d, r, now); a.Ok? && Roomy(a.value)
    ensures Tidy(Approvals.Handle(d, r, now).value)
  {
    var i := FindTask(d.tasks, r.id).value;
    assert d.tasks[i] in d.tasks;
    var t := Approvals.Decide(d.tasks[i], r).value;
    Approvals.DecideKeeps(d.tasks[i], r);
    OneTaskTidy(d.tasks, i, t);
    EntriesDistinct(r, d.tasks[i], t, d.audit, now);
    SoundCarries(d, Approvals.Handle(d, r, now).value);
  }

  lemma SubtaskTidy(d: Snapshot, r: Subtasks.Request, now: int)
    requires Tidy(d)
    requires var a := Subtasks.Handle(d, r, now); a.Ok? && Roomy(a.value)
    ensures Tidy(Subtasks.Handle(d, r, now).value)
  {
    var d' := Subtasks.Handle(d, r, now).value;
    match r
    case Create(parent, name, actor) =>
      var i, ids := FindTask(d.tasks, parent).value, SubtaskIds(d.subtasks);
      assert d.tasks[i] in d.tasks;
      OneTaskTidy(d.tasks, i, d'.tasks[i]);
      assert SubtaskIds(d'.subtasks) == ids + [NextId(ids)];
      AppendFresh(ids);
      RuleEngineTheorems.AuditedDistinct(d.audit, actor, "subtask.created", Some(NextId(ids)), now);
    case Rename(id, name) =>
      assert SubtaskIds(d'.subtasks) == SubtaskIds(d.subtasks);
      var s := d.subtasks[Subtasks.FindSubtask(d.subtasks, id).value];
      var p := FindTask(d.tasks, s.parentTaskId);
      if p.Some? && s.name != name {
        assert d.tasks[p.value] in d.tasks;
        OneTaskTidy(d.tasks, p.value, d'.tasks[p.value]);
      }
    case Delete(id) =>
      FilteredSubtaskIds(d.subtasks, (s: Models.Subtask) => s.id != id);
      var p := FindTask(d.tasks, Subtasks.LastSubtask(d.subtasks, id).value.parentTaskId);
      if p.Some? {
        assert d.tasks[p.value] in d.tasks;
        OneTaskTidy(d.tasks, p.value, d'.tasks[p.value]);
      }
    SoundCarries(d, d');
  }

  lemma HomesTidy(d: Snapshot, r: Request, seen: seq<Snapshot>, now: nat)
    requires Tidy(d) && (r.AddHome? || r.RemoveHome? || r.DropProject?) && Perform(r, seen, now, d).Some?
    ensures Tidy(Perform(r, seen, now, d).value)
  {
    var d' := Perform(r, seen, now, d).value;
    if r.DropProject? {
      forall i | 0 <= i < |d.tasks| ensures d'.tasks[i].id == d.tasks[i].id && TaskSound(d'.tasks[i]) {
        assert d.tasks[i] in d.tasks;
        DetachedSound(d.tasks[i], r.project);
      }
      SameIdsTidy(d.tasks, d'.tasks);
    } else {
      var i := FindTask(d.tasks, r.id).value;
      assert d.tasks[i] in d.tasks;
      if r.AddHome? {
        AddedSound(d.tasks[i], r.project);
      } else {
        TaskProjects.RemoveKeepsHomes(d.tasks[i], r.project);
      }
      OneTaskTidy(d.tasks, i, d'.tasks[i]);
    }
    SoundCarries(d, d');
  }

  lemma AddedSound(t: Task, project: string)
    requires TaskSound(t)
    ensures TaskSound(TaskProjects.Add(t, project)) && TaskProjects.Add(t, project).id == t.id
  {
    var t1 := TaskProjects.Normalize(t);
    TaskProjects.NormalizeHomes(t1.(projects := t1.projects + [project]));
  }

  lemma DetachedSound(t: Task, project: string)
    requires TaskSound(t)
    ensures TaskSound(TaskProjects.Detach(t, project)) && TaskProjects.Detach(t, project).id == t.id
  {
    var t1 := TaskProjects.Normalize(t);
    var t2 := t1.(projects := TaskProjects.Without(t1.projects, project));
    TaskProjects.NormalizeHomes(if t2.project == project then t2.(project := "") else t2);
  }

  lemma BreakdownTidy(d: Snapshot, r: Wbs.Request, year: string)
    requires Tidy(d) && Wbs.Handle(d, r, year).Ok? && !r.Elsewhere?
    ensures Tidy(Wbs.Handle(d, r, year).value)
  {
    Wbs.RequestKeepsSound(d, r, year);
  }

  lemma PatchedSound(t: Task, patch: TaskEdits.TaskPatch)
    requires TaskSound(t)
    ensures TaskSound(TaskEdits.Patched(t, patch)) && TaskEdits.Patched(t, patch).id == t.id
  {
    TaskEdits.PatchedKeeps(t, patch);
  }

  lemma PatchTidy(d: Snapshot, id: Int64, patch: TaskEdits.TaskPatch)
    requires Tidy(d) && TaskEdits.PatchTask(d, id, patch).Ok?
    ensures Tidy(TaskEdits.PatchTask(d, id, patch).value)
  {
    var i := FindTask(d.tasks, id).value;
    assert d.tasks[i] in d.tasks;
    PatchedSound(d.tasks[i], patch);
    OneTaskTidy(d.tasks, i, TaskEdits.Patched(d.tasks[i], patch));
    SoundCarries(d, TaskEdits.PatchTask(d, id, patch).value);
  }

  lemma PatchAtTidy(d: Snapshot, patches: map<Int64, TaskEdits.TaskPatch>, i: nat, actor: string, now: int)
    requires i < |d.tasks| && Tidy(d) && Roomy(TaskEdits.PatchAt(d, patches, i, actor, now))
    ensures Tidy(TaskEdits.PatchAt(d, patches, i, actor, now))
  {
    var t := d.tasks[i];
    if t.id in patches {
      assert t in d.tasks;
      PatchedSound(t, patches[t.id]);
      OneTaskTidy(d.tasks, i, TaskEdits.Patched(t, patches[t.id]));
      RuleEngineTheorems.AuditedDistinct(d.audit, actor, "task.updated", Some(t.id), now);
      SoundCarries(d, TaskEdits.PatchAt(d, patches, i, actor, now));
    }
  }

  lemma PatchAtRoom(d: Snapshot, patches: map<Int64, TaskEdits.TaskPatch>, i: nat, actor: string, now: int)
    requires i < |d.tasks| && Roomy(TaskEdits.PatchAt(d, patches, i, actor, now))
    ensures Roomy(d)
  {
    var d' := TaskEdits.PatchAt(d, patches, i, actor, now);
    var t := d.tasks[i];
    if t.id in patches {
      TaskEdits.PatchedKeeps(t, patches[t.id]);
    }
    assert TaskIds(d'.tasks) == TaskIds(d.tasks);
    AuditPrefix(d.audit, d'.audit);
  }

  lemma {:induction false} PatchFirstTidy(
    d: Snapshot, patches: map<Int64, TaskEdits.TaskPatch>, n: nat, actor: string, now: int)
    requires n <= |d.tasks| && Tidy(d) && Roomy(TaskEdits.PatchFirst(d, patches, n, actor, now))
    ensures Tidy(TaskEdits.PatchFirst(d, patches, n, actor, now))
  {
    if n > 0 {
      var before := TaskEdits.PatchFirst(d, patches, n - 1, actor, now);
      assert TaskEdits.PatchFirst(d, patches, n, actor, now) == TaskEdits.PatchAt(before, patches, n - 1, actor, now);
      PatchAtRoom(before, patches, n - 1, actor, now);
      PatchFirstTidy(d, patches, n - 1, actor, now);
      PatchAtTidy(before, patches, n - 1, actor, now);
    }
  }

  lemma CommentTidy(d: Snapshot, r: Request, seen: seq<Snapshot>, now: nat)
    requires Tidy(d) && (r.PostComment? || r.DropComment?)
    requires var d' := Perform(r, seen, now, d); d'.Some? && Roomy(d'.value)
    ensures Tidy(Perform(r, seen, now, d).value)
  {
    var d' := Perform(r, seen, now, d).value;
    if r.PostComment? {
      var ids := CommentIds(d.taskComments);
      assert CommentIds(d'.taskComments) == ids + [NextId(ids)];
      AppendFresh(ids);
    } else {
      FilteredCommentIds(d.taskComments, (c: TaskComment) => c.id != r.id);
    }
    SoundCarries(d, d');
  }

  lemma PutIds(rs: seq<Requisition>, id: Int64, r: Requisition)
    requires r.id == id
    ensures FinanceBooking.RequisitionIds(FinanceBooking.Put(rs, id, r)) == FinanceBooking.RequisitionIds(rs)
  {
  }

  lemma FinanceTidy(d: Snapshot, r: Request, seen: seq<Snapshot>, now: nat)
    requires Tidy(d) && (r.Decision? || r.Reference?) && Roomy(Perform(r, seen, now, d).value)
    ensures Tidy(Perform(r, seen, now, d).value)
  {
    var found := FinanceBooking.Get(d.requisitions, r.id);
    if found.Some? {
      if r.Decision? {
        PutIds(d.requisitions, r.id, found.value.(status := r.outcome));
        RuleEngineTheorems.AuditedDistinct(d.audit, r.actor, "procurement.requisition." + r.outcome, None, now);
      } else {
        PutIds(d.requisitions, r.id, found.value.(financeApRef := Some(r.ref)));
        RuleEngineTheorems.AuditedDistinct(d.audit, "finance", "finance.ap.created", None, now);
      }
    }
    SoundCarries(d, Perform(r, seen, now, d).value);
  }

  lemma RequisitionTidy(d: Snapshot, r: Request, seen: seq<Snapshot>, now: nat)
    requires Tidy(d) && (r.Submit? || r.Withdraw?)
    requires var d' := Perform(r, seen, now, d); d'.Some? && Roomy(d'.value)
    ensures Tidy(Perform(r, seen, now, d).value)
  {
    var d' := Perform(r, seen, now, d).value;
    var ids, ids' := FinanceBooking.RequisitionIds(d.requisitions), FinanceBooking.RequisitionIds(d'.requisitions);
    if r.Submit? {
      assert ids' == ids + [NextId(ids)];
      AppendFresh(ids);
    } else {
      var i := FinanceBooking.Find(d.requisitions, r.id).value;
      assert forall k | 0 <= k < |ids'| :: ids'[k] == ids[if k < i then k else k + 1];
      RuleEngineTheorems.AuditedDistinct(d.audit, r.actor, "requisition.deleted", None, now);
    }
    SoundCarries(d, d');
  }

  predicate OnTasks(r: Request) {
    r.NewTask? || r.NewTasks? || r.RemoveTask? || r.RestoreTask? || r.PatchTask? || r.PatchTasks?
  }

  lemma TaskRequestTidy(r: Request, seen: seq<Snapshot>, now: nat, d: Snapshot)
    requires Tidy(d) && OnTasks(r)
    requires var d' := Perform(r, seen, now, d); d'.Some? && Roomy(d'.value)
    ensures Tidy(Perform(r, seen, now, d).value)
  {
    match r
    case NewTask(input, actor) => AppendTidy(d, input, TaskCreation.NormalizePriority(input.priority), actor, now);
    case NewTasks(inputs, actor) => AppendAllTidy(d, inputs, |inputs|, actor, now);
    case RemoveTask(id, permanent, actor, stamp) => RemovalTidy(d, id, permanent, actor, stamp, now);
    case RestoreTask(id, actor) => RestoreTidy(d, id, actor, now);
    case PatchTask(id, patch) => PatchTidy(d, id, patch);
    case PatchTasks(patches, actor) => PatchFirstTidy(d, patches - {0}, |d.tasks|, actor, now);
  }

  /** Every request turns tidy documents into tidy documents, on a first attempt and on a retry. */
  lemma PerformTidy(r: Request, seen: seq<Snapshot>, now: nat, d: Snapshot)
    requires Tidy(d) && (r.Breakdown? ==> !r.breakdown.Elsewhere?)
    requires var d' := Perform(r, seen, now, d); d'.Some? && Roomy(d'.value)
    ensures Tidy(Perform(r, seen, now, d).value)
  {
    if OnTasks(r) {
      TaskRequestTidy(r, seen, now, d);
    } else if r.PostComment? || r.DropComment? {
      CommentTidy(d, r, seen, now);
    } else if r.Submit? || r.Withdraw? {
      RequisitionTidy(d, r, seen, now);
    } else if r.Decision? || r.Reference? {
      FinanceTidy(d, r, seen, now);
    } else if r.Approval? {
      ApprovalTidy(d, r.approval, now);
    } else if r.Subtask? {
      SubtaskTidy(d, r.subtask, now);
    } else if r.Breakdown? {
      BreakdownTidy(d, Captured(r.breakdown, seen, r.year), r.year);
    } else {
      HomesTidy(d, r, seen, now);
    }
  }

  // ----- rules and jobs -----

  lemma GrownRoom(d: Snapshot, d': Snapshot)
    requires RuleEngineTheorems.Grows(d, d') && Roomy(d')
    ensures Roomy(d)
  {
    AuditPrefix(d.audit, d'.audit);
    assert SubtaskIds(d.subtasks) <= SubtaskIds(d'.subtasks);
    assert CommentIds(d.taskComments) <= CommentIds(d'.taskComments);
  }

  lemma RulesTidy(prev: Snapshot, d: Snapshot, now: nat)
    requires Tidy(d) && Roomy(Rules(prev, d, now).document)
    ensures Tidy(Rules(prev, d, now).document)
  {
    var d' := Rules(prev, d, now).document;
    RuleEngineTheorems.EngineFrame(prev, d, now);
    forall i | 0 <= i < |d.tasks| ensures d'.tasks[i].id == d.tasks[i].id && TaskSound(d'.tasks[i]) {
      assert d.tasks[i] in d.tasks && RuleEngineTheorems.TaskFrame(d.tasks[i], d'.tasks[i]);
    }
    SameIdsTidy(d.tasks, d'.tasks);
    SoundCarries(d, d');
  }

  /** A visit that leaves sound tasks sound and clones sound ones. */
  ghost predicate SoundVisit(t: Task, outcome: RecurrenceJob.Advance) {
    TaskSound(t) ==>
      && TaskSound(RecurrenceJob.Leave(t, outcome)) && RecurrenceJob.Leave(t, outcome).id == t.id
      && (outcome.Next? ==> TaskSound(outcome.clone))
  }

  lemma VisitSound(t: Task, now: nat)
    ensures SoundVisit(t, RecurrenceJob.Visit(t, now))
  {
  }

  lemma CloneStepTidy(d: Snapshot, i: nat, outcome: RecurrenceJob.Advance, now: nat)
    requires i < |d.tasks| && SoundVisit(d.tasks[i], outcome)
    requires Tidy(d) && Roomy(RecurrenceJob.CloneStep(d, i, outcome, now))
    ensures Tidy(RecurrenceJob.CloneStep(d, i, outcome, now))
  {
    var d' := RecurrenceJob.CloneStep(d, i, outcome, now);
    var tasks := d.tasks[i := RecurrenceJob.Leave(d.tasks[i], outcome)];
    assert d.tasks[i] in d.tasks;
    OneTaskTidy(d.tasks, i, tasks[i]);
    if outcome.Next? {
      var ids := TaskIds(tasks);
      assert TaskIds(d'.tasks) == ids + [NextId(ids)];
      assert MAX_INT !in ids;
      MoreTasksTidy(tasks, d'.tasks[|tasks|]);
      RuleEngineTheorems.AuditedDistinct(d.audit, "system", "task.recurrence.cloned", Some(NextId(ids)), now);
    }
    SoundCarries(d, d');
  }

  lemma CloneStepRoom(d: Snapshot, i: nat, outcome: RecurrenceJob.Advance, now: nat)
    requires i < |d.tasks| && Roomy(RecurrenceJob.CloneStep(d, i, outcome, now))
    ensures Roomy(d)
  {
    var d' := RecurrenceJob.CloneStep(d, i, outcome, now);
    RecurrenceJob.CloneStepKeepsIds(d, i, outcome, now);
    AuditPrefix(d.audit, d'.audit);
  }

  lemma {:induction false} StepsTidy(d: Snapshot, n: nat, visit: Task -> RecurrenceJob.Advance, now: nat)
    requires forall t: Task :: SoundVisit(t, visit(t))
    requires n <= |d.tasks| && Tidy(d) && Roomy(RecurrenceJob.Steps(d, n, visit, now))
    ensures Tidy(RecurrenceJob.Steps(d, n, visit, now))
  {
    if n > 0 {
      var before := RecurrenceJob.Steps(d, n - 1, visit, now);
      var t := before.tasks[n - 1];
      assert SoundVisit(t, visit(t));
      CloneStepRoom(before, n - 1, visit(t), now);
      StepsTidy(d, n - 1, visit, now);
      CloneStepTidy(before, n - 1, visit(t), now);
    }
  }

  lemma PassTidy(d: Snapshot, now: nat)
    requires Tidy(d) && Roomy(RecurrenceJob.Pass(d, now))
    ensures Tidy(RecurrenceJob.Pass(d, now))
  {
    forall t: Task ensures SoundVisit(t, RecurrenceJob.VisitAt(now)(t)) {
      VisitSound(t, now);
    }
    StepsTidy(d, |d.tasks|, RecurrenceJob.VisitAt(now), now);
  }

  lemma SweepTidy(d: Snapshot, cfg: Archive.Config, cut: Archive.Cutoffs, now: nat)
    requires Tidy(d)
    requires var r := Archive.ArchivePass(d, cfg, cut, now); r.Some? && Roomy(r.value)
    ensures Tidy(Archive.ArchivePass(d, cfg, cut, now).value)
  {
    var kept := Archive.Retained(d, cfg, cut);
    FilteredAuditIds(d.audit, (e: AuditEntry) => !Archive.Before(e.time, cut.audit));
    RuleEngineTheorems.AuditedDistinct(kept.audit, "system", "system.archive", None, now);
    SoundCarries(d, Archive.ArchivePass(d, cfg, cut, now).value);
  }

  // ----- every interleaving -----

  ghost function TidyTest(): Snapshot -> bool {
    (d: Snapshot) => Tidy(d)
  }

  ghost function RoomyTest(): Snapshot -> bool {
    (d: Snapshot) => Roomy(d)
  }

  ghost predicate WriterOk(w: Writer) {
    && (w.FullWrite? ==> Tidy(w.data))
    && (w.Mutation? && w.request.Breakdown? ==> !w.request.breakdown.Elsewhere?)
  }

  /** A closure's result, with the rules run behind it. */
  lemma MutationTidy(r: Request, seen: seq<Snapshot>, now: nat, d: Snapshot)
    requires Tidy(d) && (r.Breakdown? ==> !r.breakdown.Elsewhere?)
    requires var d' := Perform(r, seen, now, d); d'.Some? && Roomy(Rules(d, d'.value, now).document)
    ensures Tidy(Rules(d, Perform(r, seen, now, d).value, now).document)
  {
    var d' := Perform(r, seen, now, d).value;
    RuleEngineTheorems.EngineGrows(d, d', now);
    GrownRoom(d', Rules(d, d', now).document);
    PerformTidy(r, seen, now, d);
    RulesTidy(d, d', now);
  }

  lemma WriterKeeps(initial: Snapshot, w: Writer, seen: seq<Snapshot>, now: nat, d: Snapshot)
    requires WriterOk(w) && Tidy(d)
    requires var result := Attempt(ServiceOf(initial), JobOf(w), seen, now, d);
             result.Some? && Roomy(result.value.document)
    ensures Tidy(Attempt(ServiceOf(initial), JobOf(w), seen, now, d).value.document)
  {
    match w
    case Mutation(r) => MutationTidy(r, seen, now, d);
    case Sweep(cfg, cut) => SweepTidy(d, cfg, cut, now);
    case Recur => PassTidy(d, now);
    case FullWrite(data, _, _) =>
  }

  lemma JobKeepsTidy(initial: Snapshot, w: Writer)
    requires WriterOk(w)
    ensures Serializability.JobKeeps(ServiceOf(initial), JobOf(w), TidyTest(), RoomyTest())
  {
    forall seen: seq<Snapshot>, now: nat, d: Snapshot | TidyTest()(d)
      ensures var result := Attempt(ServiceOf(initial), JobOf(w), seen, now, d);
              result.Some? && RoomyTest()(result.value.document) ==> TidyTest()(result.value.document)
    {
      var result := Attempt(ServiceOf(initial), JobOf(w), seen, now, d);
      if result.Some? && RoomyTest()(result.value.document) {
        WriterKeeps(initial, w, seen, now, d);
      }
    }
  }

  /** Every stored document of the first `n` steps leaves room for one more identifier. */
  ghost predicate AlwaysRoomy(initial: Snapshot, s0: State<Snapshot, RuleEngine.Notice>, steps: seq<Step>, n: nat)
    requires n <= |steps|
  {
    forall k | 0 <= k <= n ::
      var row := After(ServiceOf(initial), s0, steps, k).row;
      row.Some? ==> Roomy(row.value.document)
  }

  /**
   * In every interleaving of every number of these writers, conflicts, retries, crashes, lost
   * inserts and rule cascades included, every stored document is tidy: no two tasks,
   * subtasks, comments or audit entries share an identifier, every task's homes and approvals
   * are consistent, and no work breakdown row points at a parent that is gone.
   */
  lemma EveryDocumentIsTidy(
    initial: Snapshot, s0: State<Snapshot, RuleEngine.Notice>, writers: seq<Writer>, steps: seq<Step>, n: nat)
    requires Initial(s0) && n <= |steps| && |writers| == |s0.clients|
    requires forall i | 0 <= i < |writers| :: s0.clients[i].job == JobOf(writers[i]) && WriterOk(writers[i])
    requires Tidy(initial) && (s0.row.Some? ==> Tidy(s0.row.value.document))
    requires AlwaysRoomy(initial, s0, steps, n)
    ensures var row := After(ServiceOf(initial), s0, steps, n).row; row.Some? ==> Tidy(row.value.document)
  {
    forall i | 0 <= i < |s0.clients|
      ensures Serializability.JobKeeps(ServiceOf(initial), s0.clients[i].job, TidyTest(), RoomyTest())
    {
      JobKeepsTidy(initial, writers[i]);
    }
    Serializability.DocumentInvariant(ServiceOf(initial), s0, steps, n, TidyTest(), RoomyTest());
  }
}
