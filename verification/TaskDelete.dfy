/** Hard deletion of tasks with everything that hangs on them. */
module TaskDelete {
  import opened Ids
  import opened Integers
  import opened Models
  import opened Slices
  import opened Wrappers

  function KeptDeps(deps: seq<Int64>, ids: set<Int64>): seq<Int64> {
    Filter(deps, (dep: Int64) => dep !in ids)
  }

  function Strip(t: Task, ids: set<Int64>): Task {
    t.(dependsOn := KeptDeps(t.dependsOn, ids))
  }

  function KeptTasks(tasks: seq<Task>, ids: set<Int64>): seq<Task> {
    Map(Filter(tasks, (t: Task) => t.id !in ids), (t: Task) => Strip(t, ids))
  }

  function KeptComments(comments: seq<TaskComment>, ids: set<Int64>): seq<TaskComment> {
    Filter(comments, (c: TaskComment) => c.taskId !in ids)
  }

  function KeptSubtasks(subtasks: seq<Subtask>, ids: set<Int64>): seq<Subtask> {
    Filter(subtasks, (s: Subtask) => s.parentTaskId !in ids)
  }

  function Cascade(d: Snapshot, ids: set<Int64>): Snapshot {
    d.(tasks := KeptTasks(d.tasks, ids),
       taskComments := KeptComments(d.taskComments, ids),
       subtasks := KeptSubtasks(d.subtasks, ids))
  }

  /** Hard and soft deletion of one task. */
  function DeleteTask(
    d: Snapshot, id: Int64, permanent: bool, actor: string, stamp: string, now: int): Result<Snapshot> {
    match FindTask(d.tasks, id)
    case None => Err("task not found")
    case Some(i) =>
      if permanent then
        var d' := Cascade(d, {id});
        Ok(d'.(audit := Audited(d.audit, actor, "task.deleted", Some(id), now)))
      else
        Ok(d.(tasks := d.tasks[i := d.tasks[i].(deletedAt := stamp)],
              audit := Audited(d.audit, actor, "task.soft_deleted", Some(id), now)))
  }

  function RestoreTask(d: Snapshot, id: Int64, actor: string, now: int): Result<Snapshot> {
    match FindTask(d.tasks, id)
    case None => Err("task not found")
    case Some(i) =>
      if d.tasks[i].deletedAt == "" then Ok(d)
      else Ok(d.(tasks := d.tasks[i := d.tasks[i].(deletedAt := "")],
                 audit := Audited(d.audit, actor, "task.restored", Some(id), now)))
  }

  // ----- in place -----

  /**
   * One backing array for the tasks being read and the tasks being kept: the write cursor
   * stays behind the read cursor, so nothing is overwritten before it has been read.
   */
  method CompactTasks(buf: array<Task>, ids: set<Int64>) returns (k: nat)
    modifies buf
    ensures k <= buf.Length && buf[..k] == KeptTasks(old(buf[..]), ids)
  {
    ghost var was := buf[..];
    k := 0;
    for i := 0 to buf.Length
      invariant k <= i && buf[..k] == KeptTasks(was[..i], ids)
      invariant forall j | i <= j < buf.Length :: buf[j] == was[j]
    {
      KeptStep(was, i, ids);
      ghost var prefix := buf[..k];
      if buf[i].id in ids {
        assert KeptTasks(was[..i + 1], ids) == prefix;
        continue;
      }
      var t := DropDangling(buf[i], ids);
      buf[k] := t;
      k := k + 1;
      assert buf[..k] == prefix + [t];
    }
    assert was[..buf.Length] == was;
  }

  /** Drops the references a surviving task holds to removed ones. */
  method DropDangling(t: Task, ids: set<Int64>) returns (t': Task)
    ensures t' == Strip(t, ids)
  {
    t' := t;
    if |t.dependsOn| > 0 {
      var out, _ := FilterInPlace(t.dependsOn, (dep: Int64) => dep !in ids);
      t' := t.(dependsOn := out);
    }
  }

  method KeepTasks(tasks: seq<Task>, ids: set<Int64>) returns (kept: seq<Task>)
    ensures kept == KeptTasks(tasks, ids)
  {
    var buf := new Task[|tasks|](i requires 0 <= i < |tasks| => tasks[i]);
    assert buf[..] == tasks;
    var k := CompactTasks(buf, ids);
    kept := buf[..k];
  }

  lemma KeptStep(tasks: seq<Task>, i: nat, ids: set<Int64>)
    requires i < |tasks|
    ensures KeptTasks(tasks[..i + 1], ids)
            == KeptTasks(tasks[..i], ids) + if tasks[i].id in ids then [] else [Strip(tasks[i], ids)]
  {
    FilterStep(tasks, i, (t: Task) => t.id !in ids);
  }

  method CascadeInPlace(d: Document, ids: set<Int64>)
    modifies d`tasks, d`taskComments, d`subtasks
    ensures d.Value() == Cascade(old(d.Value()), ids)
  {
    if |ids| == 0 {
      NothingToRemove(d.Value());
      return;
    }
    var kept := KeepTasks(d.tasks, ids);
    d.tasks := kept;
    FilterComments(d, ids);
    FilterSubtasks(d, ids);
  }

  method FilterComments(d: Document, ids: set<Int64>)
    modifies d`taskComments
    ensures d.taskComments == KeptComments(old(d.taskComments), ids)
  {
    if |d.taskComments| > 0 {
      var kept, _ := FilterInPlace(d.taskComments, (c: TaskComment) => c.taskId !in ids);
      d.taskComments := kept;
    }
  }

  method FilterSubtasks(d: Document, ids: set<Int64>)
    modifies d`subtasks
    ensures d.subtasks == KeptSubtasks(old(d.subtasks), ids)
  {
    if |d.subtasks| > 0 {
      var kept, _ := FilterInPlace(d.subtasks, (s: Subtask) => s.parentTaskId !in ids);
      d.subtasks := kept;
    }
  }

  method DeleteInPlace(d: Document, id: Int64, permanent: bool, actor: string, stamp: string, now: int)
    returns (r: Result<()>)
    modifies d
    ensures match DeleteTask(old(d.Value()), id, permanent, actor, stamp, now)
            case Ok(s) => r == Ok(()) && d.Value() == s
            case Err(e) => r == Err(e) && d.Value() == old(d.Value())
  {
    var i := FindTaskIndex(d.tasks, id);
    if i.None? {
      return Err("task not found");
    }
    if permanent {
      CascadeInPlace(d, {id});
      AppendAudit(d, actor, "task.deleted", Some(id), now);
      return Ok(());
    }
    d.tasks := d.tasks[i.value := d.tasks[i.value].(deletedAt := stamp)];
    AppendAudit(d, actor, "task.soft_deleted", Some(id), now);
    r := Ok(());
  }

  // ----- what a cascade leaves -----

  /** Nothing in the document is, or refers to, one of the tasks. */
  ghost predicate Untraced(d: Snapshot, ids: set<Int64>) {
    && (forall t | t in d.tasks :: t.id !in ids && forall dep | dep in t.dependsOn :: dep !in ids)
    && (forall c | c in d.taskComments :: c.taskId !in ids)
    && (forall s | s in d.subtasks :: s.parentTaskId !in ids)
  }

  lemma CascadeUntraces(d: Snapshot, ids: set<Int64>)
    ensures Untraced(Cascade(d, ids), ids)
  {
    var alive := Filter(d.tasks, (t: Task) => t.id !in ids);
    forall t | t in KeptTasks(d.tasks, ids) ensures t.id !in ids && forall dep | dep in t.dependsOn :: dep !in ids {
      var k :| 0 <= k < |alive| && t == Strip(alive[k], ids);
      assert alive[k] in alive;
    }
  }

  /** A document without a trace of the tasks is left alone, so a second cascade is the identity. */
  lemma UntracedIsFixed(d: Snapshot, ids: set<Int64>)
    requires Untraced(d, ids)
    ensures Cascade(d, ids) == d
  {
    FilterAll(d.tasks, (t: Task) => t.id !in ids);
    FilterAll(d.taskComments, (c: TaskComment) => c.taskId !in ids);
    FilterAll(d.subtasks, (s: Subtask) => s.parentTaskId !in ids);
    forall i | 0 <= i < |d.tasks| ensures Strip(d.tasks[i], ids) == d.tasks[i] {
      FilterAll(d.tasks[i].dependsOn, (dep: Int64) => dep !in ids);
    }
    assert KeptTasks(d.tasks, ids) == d.tasks;
  }

  lemma NothingToRemove(d: Snapshot)
    ensures Cascade(d, {}) == d
  {
    UntracedIsFixed(d, {});
  }

  /** A cascade removes every trace of the tasks, and repeating it changes nothing more. */
  lemma CascadeIdempotent(d: Snapshot, ids: set<Int64>)
    ensures Untraced(Cascade(d, ids), ids) && Cascade(Cascade(d, ids), ids) == Cascade(d, ids)
  {
    CascadeUntraces(d, ids);
    UntracedIsFixed(Cascade(d, ids), ids);
  }

  /** It keeps every other row, in order, and changes a surviving task only in its dependencies. */
  lemma CascadeKeeps(d: Snapshot, ids: set<Int64>)
    ensures Subsequence(Cascade(d, ids).taskComments, d.taskComments)
    ensures Subsequence(Cascade(d, ids).subtasks, d.subtasks)
    ensures TaskIds(Cascade(d, ids).tasks) == Filter(TaskIds(d.tasks), (id: Int64) => id !in ids)
    ensures forall t | t in d.tasks && t.id !in ids :: Strip(t, ids) in Cascade(d, ids).tasks
    ensures UniqueTaskIds(d) ==> UniqueTaskIds(Cascade(d, ids))
  {
    FilterSubsequence(d.taskComments, (c: TaskComment) => c.taskId !in ids);
    FilterSubsequence(d.subtasks, (s: Subtask) => s.parentTaskId !in ids);
    KeptIds(d.tasks, ids);
    if UniqueTaskIds(d) {
      FilterNoDup(TaskIds(d.tasks), (id: Int64) => id !in ids);
    }
    forall t | t in d.tasks && t.id !in ids ensures Strip(t, ids) in Cascade(d, ids).tasks {
      SurvivorKept(d.tasks, ids, t);
    }
  }

  lemma SurvivorKept(tasks: seq<Task>, ids: set<Int64>, t: Task)
    requires t in tasks && t.id !in ids
    ensures Strip(t, ids) in KeptTasks(tasks, ids)
  {
    var alive := Filter(tasks, (x: Task) => x.id !in ids);
    var k :| 0 <= k < |alive| && alive[k] == t;
    assert KeptTasks(tasks, ids)[k] == Strip(t, ids);
  }

  lemma {:induction false} KeptIds(tasks: seq<Task>, ids: set<Int64>)
    ensures TaskIds(KeptTasks(tasks, ids)) == Filter(TaskIds(tasks), (id: Int64) => id !in ids)
  {
    if tasks != [] {
      var n := |tasks| - 1;
      KeptIds(tasks[..n], ids);
      assert tasks[..n + 1] == tasks;
      KeptStep(tasks, n, ids);
      assert TaskIds(tasks)[..n] == TaskIds(tasks[..n]);
    }
  }

  /** Deleting in two steps, in either order, is deleting at once. */
  lemma CascadeComposes(d: Snapshot, a: set<Int64>, b: set<Int64>)
    ensures Cascade(Cascade(d, a), b) == Cascade(d, a + b)
  {
    KeptTasksCompose(d.tasks, a, b);
    FilterBoth(d.taskComments, (c: TaskComment) => c.taskId !in a, (c: TaskComment) => c.taskId !in b,
               (c: TaskComment) => c.taskId !in (a + b));
    FilterBoth(d.subtasks, (s: Subtask) => s.parentTaskId !in a, (s: Subtask) => s.parentTaskId !in b,
               (s: Subtask) => s.parentTaskId !in (a + b));
    assert KeptComments(KeptComments(d.taskComments, a), b) == KeptComments(d.taskComments, a + b);
    assert KeptSubtasks(KeptSubtasks(d.subtasks, a), b) == KeptSubtasks(d.subtasks, a + b);
  }

  lemma KeptAppend(tasks: seq<Task>, t: Task, ids: set<Int64>)
    ensures KeptTasks(tasks + [t], ids) == KeptTasks(tasks, ids) + if t.id in ids then [] else [Strip(t, ids)]
  {
    KeptStep(tasks + [t], |tasks|, ids);
    assert (tasks + [t])[..|tasks| + 1] == tasks + [t] && (tasks + [t])[..|tasks|] == tasks;
  }

  lemma KeptAppendTwice(tasks: seq<Task>, t: Task, a: set<Int64>, b: set<Int64>)
    ensures KeptTasks(KeptTasks(tasks + [t], a), b)
            == KeptTasks(KeptTasks(tasks, a), b) + if t.id in a + b then [] else [Strip(t, a + b)]
  {
    KeptAppend(tasks, t, a);
    var kept := KeptTasks(tasks, a);
    assert kept + [] == kept && KeptTasks(kept, b) + [] == KeptTasks(kept, b);
    if t.id !in a {
      KeptAppend(KeptTasks(tasks, a), Strip(t, a), b);
      StripCompose(t, a, b);
    }
  }

  lemma {:induction false} KeptTasksCompose(tasks: seq<Task>, a: set<Int64>, b: set<Int64>)
    ensures KeptTasks(KeptTasks(tasks, a), b) == KeptTasks(tasks, a + b)
  {
    if tasks != [] {
      var init, t := tasks[..|tasks| - 1], tasks[|tasks| - 1];
      assert tasks == init + [t];
      KeptTasksCompose(init, a, b);
      KeptAppendTwice(init, t, a, b);
      KeptAppend(init, t, a + b);
    }
  }

  lemma StripCompose(t: Task, a: set<Int64>, b: set<Int64>)
    ensures Strip(Strip(t, a), b) == Strip(t, a + b)
  {
    FilterBoth(t.dependsOn, (dep: Int64) => dep !in a, (dep: Int64) => dep !in b, (dep: Int64) => dep !in (a + b));
    assert KeptDeps(KeptDeps(t.dependsOn, a), b) == KeptDeps(t.dependsOn, a + b);
  }

  /**
   * A soft deletion marks the first task with the identifier and touches no other task, comment
   * or subtask; a permanent one leaves no trace of the identifier.
   */
  lemma DeletionMeans(d: Snapshot, id: Int64, permanent: bool, actor: string, stamp: string, now: int)
    requires exists t | t in d.tasks :: t.id == id
    ensures var r := DeleteTask(d, id, permanent, actor, stamp, now);
            && r.Ok? && |r.value.audit| == |d.audit| + 1
            && (permanent ==> Untraced(r.value, {id}))
            && (!permanent ==>
                  var i := FindTask(d.tasks, id);
                  && i.Some? && |r.value.tasks| == |d.tasks|
                  && r.value.tasks[i.value].deletedAt == stamp
                  && r.value.tasks[i.value].(deletedAt := d.tasks[i.value].deletedAt) == d.tasks[i.value]
                  && (forall k | 0 <= k < |d.tasks| && k != i.value :: r.value.tasks[k] == d.tasks[k])
                  && r.value.taskComments == d.taskComments && r.value.subtasks == d.subtasks)
  {
    CascadeUntraces(d, {id});
  }

  /** A soft-deleted task can be brought back as it was. */
  lemma RestoreUndoesSoftDelete(d: Snapshot, id: Int64, actor: string, stamp: string, now: int)
    requires stamp != "" && DeleteTask(d, id, false, actor, stamp, now).Ok?
    requires d.tasks[FindTask(d.tasks, id).value].deletedAt == ""
    ensures var gone := DeleteTask(d, id, false, actor, stamp, now).value;
            RestoreTask(gone, id, actor, now).Ok? && RestoreTask(gone, id, actor, now).value.tasks == d.tasks
  {
    var i := FindTask(d.tasks, id).value;
    var gone := DeleteTask(d, id, false, actor, stamp, now).value;
    FindAfterUpdate(d.tasks, id, gone.tasks[i]);
  }

  lemma {:induction false} FindAfterUpdate(tasks: seq<Task>, id: Int64, t: Task)
    requires FindTask(tasks, id).Some? && t.id == id
    ensures FindTask(tasks[FindTask(tasks, id).value := t], id) == FindTask(tasks, id)
  {
    var i := FindTask(tasks, id).value;
    var after := tasks[i := t];
    assert after[i] in after;
    assert forall k | 0 <= k < i :: after[k] == tasks[k];
  }
}
