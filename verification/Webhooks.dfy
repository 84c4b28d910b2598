/** What subscribers of webhooks are told after a commit: the net change of the document. */
module Webhooks {
  import opened Ids
  import opened Integers
  import opened Models
  import opened Slices
  import opened Wrappers
  import opened RuleEngine
  import RuleEngineTheorems
  import RuleMeaning
  import RuleRunner

  datatype Hook =
    | Created(task: Task)
    | Status(id: Int64, from: string, to: string)
    | Assignee(id: Int64, from: string, to: string)
    | Completed(id: Int64, task: Task)
    | Commented(comment: TaskComment)

  function TaskHooks(prev: seq<Task>, t: Task): seq<Hook> {
    match LastTask(prev, t.id)
    case None => [Created(t)]
    case Some(was) =>
      (if was.status != t.status then [Status(t.id, was.status, t.status)] else [])
      + (if was.assignee != t.assignee then [Assignee(t.id, was.assignee, t.assignee)] else [])
      + (if was.done != t.done && t.done then [Completed(t.id, t)] else [])
  }

  function TasksHooks(prev: seq<Task>, tasks: seq<Task>, n: nat): seq<Hook>
    requires n <= |tasks|
  {
    if n == 0 then [] else TasksHooks(prev, tasks, n - 1) + TaskHooks(prev, tasks[n - 1])
  }

  function CommentHooks(prev: seq<TaskComment>, comments: seq<TaskComment>, n: nat): seq<Hook>
    requires n <= |comments|
  {
    if n == 0 then []
    else
      CommentHooks(prev, comments, n - 1)
      + if comments[n - 1].id in CommentIds(prev) then [] else [Commented(comments[n - 1])]
  }

  function Hooks(prev: Snapshot, d: Snapshot): seq<Hook> {
    TasksHooks(prev.tasks, d.tasks, |d.tasks|) + CommentHooks(prev.taskComments, d.taskComments, |d.taskComments|)
  }

  method EnqueueTask(was: Task, t: Task) returns (out: seq<Hook>)
    requires was.id == t.id
    ensures out == TaskHooks([was], t)
  {
    assert LastTask([was], t.id) == Some(was);
    out := [];
    if was.status != t.status {
      out := out + [Status(t.id, was.status, t.status)];
    }
    if was.assignee != t.assignee {
      out := out + [Assignee(t.id, was.assignee, t.assignee)];
    }
    if was.done != t.done && t.done {
      out := out + [Completed(t.id, t)];
    }
  }

  method DispatchTasks(prev: seq<Task>, tasks: seq<Task>) returns (out: seq<Hook>)
    ensures out == TasksHooks(prev, tasks, |tasks|)
  {
    var prevTasks := RuleRunner.IndexTasks(prev);
    out := [];
    for i := 0 to |tasks|
      invariant out == TasksHooks(prev, tasks, i)
    {
      var t := tasks[i];
      assert LastTask(prev, t.id) == if t.id in prevTasks then Some(prevTasks[t.id]) else None;
      if t.id !in prevTasks {
        out := out + [Created(t)];
        continue;
      }
      var changes := EnqueueTask(prevTasks[t.id], t);
      assert changes == TaskHooks(prev, t);
      out := out + changes;
    }
  }

  method DispatchComments(prev: seq<TaskComment>, comments: seq<TaskComment>) returns (out: seq<Hook>)
    ensures out == CommentHooks(prev, comments, |comments|)
  {
    out := [];
    for i := 0 to |comments|
      invariant out == CommentHooks(prev, comments, i)
    {
      if comments[i].id in CommentIds(prev) {
        continue;
      }
      out := out + [Commented(comments[i])];
    }
  }

  /** `dispatchWebhooks`, with the enqueued events as a list. */
  method Dispatch(prev: Snapshot, d: Snapshot, subscribed: bool) returns (out: seq<Hook>)
    ensures out == if subscribed then Hooks(prev, d) else []
  {
    if !subscribed {
      return [];
    }
    out := DispatchTasks(prev.tasks, d.tasks);
    var comments := DispatchComments(prev.taskComments, d.taskComments);
    out := out + comments;
  }

  // ----- what the events mean -----

  predicate About(h: Hook, id: Int64) {
    (h.Status? || h.Assignee?) && h.id == id
  }

  lemma TaskHooksOwn(prev: seq<Task>, t: Task, h: Hook)
    requires h in TaskHooks(prev, t)
    ensures !h.Commented? && (h.Status? || h.Assignee? ==> About(h, t.id))
  {
  }

  lemma HookParts(prev: seq<Task>, tasks: seq<Task>, n: nat, h: Hook)
    requires n <= |tasks|
    ensures h in TasksHooks(prev, tasks, n) <==> exists i: nat | i < n :: h in TaskHooks(prev, tasks[i])
  {
    var whole := (k: nat) => if k <= |tasks| then TasksHooks(prev, tasks, k) else [];
    var part := (i: nat) => if i < |tasks| then TaskHooks(prev, tasks[i]) else [];
    Collected(whole, part, n, h);
  }

  lemma NotFromElsewhere(prev: seq<Task>, tasks: seq<Task>, k: nat, i: nat, h: Hook)
    requires NoDup(TaskIds(tasks)) && k < |tasks| && i < |tasks| && k != i && About(h, tasks[i].id)
    ensures h !in TaskHooks(prev, tasks[k])
  {
    var ids := TaskIds(tasks);
    assert ids[k] == tasks[k].id && ids[i] == tasks[i].id;
    if h in TaskHooks(prev, tasks[k]) {
      TaskHooksOwn(prev, tasks[k], h);
    }
  }

  /** With distinct identifiers, events about a task come from its own position. */
  lemma FromOwnPosition(prev: seq<Task>, tasks: seq<Task>, n: nat, i: nat, h: Hook)
    requires NoDup(TaskIds(tasks)) && n <= |tasks| && i < |tasks| && About(h, tasks[i].id)
    ensures h in TasksHooks(prev, tasks, n) <==> i < n && h in TaskHooks(prev, tasks[i])
  {
    HookParts(prev, tasks, n, h);
    if h in TasksHooks(prev, tasks, n) {
      var k: nat :| k < n && h in TaskHooks(prev, tasks[k]);
      if k != i {
        NotFromElsewhere(prev, tasks, k, i, h);
      }
    }
  }

  lemma NoCommentsFromTasks(prev: seq<Task>, tasks: seq<Task>, h: Hook)
    requires h.Commented?
    ensures h !in TasksHooks(prev, tasks, |tasks|)
  {
    HookParts(prev, tasks, |tasks|, h);
    if h in TasksHooks(prev, tasks, |tasks|) {
      var k: nat :| k < |tasks| && h in TaskHooks(prev, tasks[k]);
      TaskHooksOwn(prev, tasks[k], h);
    }
  }

  lemma {:induction false} FromComments(prev: seq<TaskComment>, comments: seq<TaskComment>, n: nat, h: Hook)
    requires n <= |comments|
    ensures h in CommentHooks(prev, comments, n) <==>
            h.Commented? && h.comment in comments[..n] && h.comment.id !in CommentIds(prev)
  {
    if n > 0 {
      FromComments(prev, comments, n - 1, h);
      assert comments[..n] == comments[..n - 1] + [comments[n - 1]];
    }
  }

  /** With distinct task identifiers, an event about a task compares its two values and nothing else. */
  lemma HookMeans(prev: Snapshot, d: Snapshot, i: nat, h: Hook)
    requires UniqueTaskIds(d) && i < |d.tasks|
    requires About(h, d.tasks[i].id)
    ensures h in Hooks(prev, d) <==> h in TaskHooks(prev.tasks, d.tasks[i])
  {
    FromOwnPosition(prev.tasks, d.tasks, |d.tasks|, i, h);
    FromComments(prev.taskComments, d.taskComments, |d.taskComments|, h);
  }

  /** Exactly the comments that were not there before are announced, those that rules posted included. */
  lemma NewCommentsAnnounced(prev: Snapshot, d: Snapshot, c: TaskComment)
    ensures Commented(c) in Hooks(prev, d) <==> c in d.taskComments && c.id !in CommentIds(prev.taskComments)
  {
    NoCommentsFromTasks(prev.tasks, d.tasks, Commented(c));
    FromComments(prev.taskComments, d.taskComments, |d.taskComments|, Commented(c));
    assert d.taskComments[..|d.taskComments|] == d.taskComments;
  }

  /**
   * Exactly the tasks with a new identifier are announced as created, and as completed exactly
   * those that are done now and were not before; the two announce the task as it is now.
   */
  lemma LifecycleAnnounced(prev: Snapshot, d: Snapshot, t: Task, id: Int64)
    requires UniqueTaskIds(prev)
    ensures Created(t) in Hooks(prev, d) <==> t in d.tasks && t.id !in TaskIds(prev.tasks)
    ensures Completed(id, t) in Hooks(prev, d)
            <==> id == t.id && t in d.tasks && t.done && exists was | was in prev.tasks :: was.id == t.id && !was.done
  {
    OldTask(prev, t.id);
    FromComments(prev.taskComments, d.taskComments, |d.taskComments|, Created(t));
    FromComments(prev.taskComments, d.taskComments, |d.taskComments|, Completed(id, t));
    if t in d.tasks {
      var i :| 0 <= i < |d.tasks| && d.tasks[i] == t;
      Announced(prev.tasks, d.tasks, i, Created(t));
      Announced(prev.tasks, d.tasks, i, Completed(id, t));
    }
    OnlyPresent(prev.tasks, d.tasks, Created(t));
    OnlyPresent(prev.tasks, d.tasks, Completed(id, t));
  }

  lemma OldTask(prev: Snapshot, id: Int64)
    requires UniqueTaskIds(prev)
    ensures LastTask(prev.tasks, id).Some? <==> id in TaskIds(prev.tasks)
    ensures forall was | was in prev.tasks && was.id == id :: LastTask(prev.tasks, id) == Some(was)
  {
    forall was | was in prev.tasks && was.id == id ensures id in TaskIds(prev.tasks) {
      var j :| 0 <= j < |prev.tasks| && prev.tasks[j] == was;
      assert TaskIds(prev.tasks)[j] == id;
    }
    forall was | was in prev.tasks && was.id == id ensures LastTask(prev.tasks, id) == Some(was) {
      var j :| 0 <= j < |prev.tasks| && prev.tasks[j] == was;
      RuleMeaning.LastUnique(prev.tasks, j);
    }
    if id in TaskIds(prev.tasks) {
      var j :| 0 <= j < |prev.tasks| && TaskIds(prev.tasks)[j] == id;
      assert prev.tasks[j] in prev.tasks;
    }
  }

  lemma Announced(prev: seq<Task>, tasks: seq<Task>, i: nat, h: Hook)
    requires i < |tasks|
    ensures h in TaskHooks(prev, tasks[i]) ==> h in TasksHooks(prev, tasks, |tasks|)
  {
    HookParts(prev, tasks, |tasks|, h);
  }

  lemma OnlyPresent(prev: seq<Task>, tasks: seq<Task>, h: Hook)
    requires h.Created? || h.Completed?
    ensures h in TasksHooks(prev, tasks, |tasks|) ==> h.task in tasks && h in TaskHooks(prev, h.task)
  {
    HookParts(prev, tasks, |tasks|, h);
  }

  function HookOf(f: RuleEngineTheorems.Field, id: Int64, from: string, to: string): Hook {
    if f == RuleEngineTheorems.Status then Status(id, from, to) else Assignee(id, from, to)
  }

  lemma HookValues(prev: Snapshot, d: Snapshot, i: nat, f: RuleEngineTheorems.Field, x: string, y: string)
    requires UniqueTaskIds(d) && i < |d.tasks| && LastTask(prev.tasks, d.tasks[i].id).Some?
    ensures var was, t := LastTask(prev.tasks, d.tasks[i].id).value, d.tasks[i];
            HookOf(f, t.id, x, y) in Hooks(prev, d) <==> x != y && x == f.Of(was) && y == f.Of(t)
  {
    HookMeans(prev, d, i, HookOf(f, d.tasks[i].id, x, y));
  }

  /**
   * Subscribers see the summary of what the rules did. For a task that was there before, a
   * status event leads from one end of the chain of the engine's status events to the other,
   * and there is no such event if and only if that chain comes back to where it began. The
   * same holds of assignees.
   */
  lemma WebhooksSummarizeRules(
    prev: Snapshot, d: Snapshot, now: nat, i: nat, f: RuleEngineTheorems.Field, x: string, y: string)
    requires UniqueTaskIds(d) && i < |d.tasks| && d.rules != [] && LastTask(prev.tasks, d.tasks[i].id).Some?
    ensures var o, id := DiffAndRun(prev, d, now), d.tasks[i].id;
            var from, events := f.Of(LastTask(prev.tasks, id).value), RuleEngineTheorems.Flatten(o.rounds);
            && |o.doc.tasks| == |d.tasks|
            && (HookOf(f, id, x, y) in Hooks(prev, o.doc) ==> x != y && RuleEngineTheorems.Chain(events, f, id, x, y))
            && RuleEngineTheorems.Chain(events, f, id, from, f.Of(o.doc.tasks[i]))
            && (HookOf(f, id, from, f.Of(o.doc.tasks[i])) in Hooks(prev, o.doc) <==> f.Of(o.doc.tasks[i]) != from)
  {
    var o, id := DiffAndRun(prev, d, now), d.tasks[i].id;
    var from := f.Of(LastTask(prev.tasks, id).value);
    RuleEngineTheorems.EventChain(prev, d, now, i, f);
    RuleEngineTheorems.EngineFrame(prev, d, now);
    assert TaskIds(o.doc.tasks)[i] == TaskIds(d.tasks)[i];
    HookValues(prev, o.doc, i, f, x, y);
    HookValues(prev, o.doc, i, f, from, f.Of(o.doc.tasks[i]));
  }
}
