/** The automation engine as it runs: loops over events, rules and actions that update a document in place. */
module RuleRunner {
  import opened Ids
  import opened Integers
  import opened Models
  import opened RuleEngine
  import opened Wrappers

  method ActionAssignTo(d: Document, r: Rule, a: RuleAction, e: Event, now: nat) returns (follow: seq<Event>)
    modifies d`tasks, d`audit
    ensures Effect(d.Value(), follow, []) == DoAssignTo(old(d.Value()), r, a, e, now)
  {
    follow := [];
    var to := Param(a, "to");
    if to == "" || e.task.None? {
      return;
    }
    var i := FindTaskIndex(d.tasks, e.taskId);
    if i.None? || d.tasks[i.value].assignee == to {
      return;
    }
    var was := d.tasks[i.value];
    d.tasks := d.tasks[i.value := was.(assignee := to)];
    AppendAudit(d, "rule:" + r.name, "task.assigned", Some(e.taskId), now);
    follow := [TaskEvent(AssigneeChanged, e.taskId, Some(was), i.value, d.tasks[i.value])];
  }

  method ActionSetStatus(d: Document, r: Rule, a: RuleAction, e: Event, now: nat) returns (follow: seq<Event>)
    modifies d`tasks, d`audit
    ensures Effect(d.Value(), follow, []) == DoSetStatus(old(d.Value()), r, a, e, now)
  {
    follow := [];
    var status := Param(a, "status");
    if status == "" || e.task.None? {
      return;
    }
    var i := FindTaskIndex(d.tasks, e.taskId);
    if i.None? || d.tasks[i.value].status == status {
      return;
    }
    var was := d.tasks[i.value];
    d.tasks := d.tasks[i.value := was.(status := status)];
    if status == "completed" {
      d.tasks := d.tasks[i.value := d.tasks[i.value].(done := true)];
    }
    ghost var t := was.(status := status, done := was.done || status == "completed");
    assert d.tasks == old(d.tasks)[i.value := t];
    AppendAudit(d, "rule:" + r.name, "task.status_changed", Some(e.taskId), now);
    follow := [TaskEvent(StatusChanged, e.taskId, Some(was), i.value, d.tasks[i.value])];
  }

  method ActionSetDueOffset(d: Document, r: Rule, a: RuleAction, e: Event, now: nat)
    modifies d`tasks, d`audit
    ensures Effect(d.Value(), [], []) == DoSetDueOffset(old(d.Value()), r, a, e, now)
  {
    var days := ParseInt(Param(a, "days"));
    if days.None? || e.task.None? {
      return;
    }
    var i := FindTaskIndex(d.tasks, e.taskId);
    if i.Some? {
      var base: int := now;
      var anchor := Dates.Parse(d.tasks[i.value].due);
      if anchor.Some? {
        base := anchor.value;
      }
      d.tasks := d.tasks[i.value := d.tasks[i.value].(due := ShiftDays(base, days.value))];
      AppendAudit(d, "rule:" + r.name, "task.due_set", Some(e.taskId), now);
    }
  }

  method ActionAddTag(d: Document, r: Rule, a: RuleAction, e: Event, now: nat)
    modifies d`tasks, d`audit
    ensures Effect(d.Value(), [], []) == DoAddTag(old(d.Value()), r, a, e, now)
  {
    var tag := Param(a, "tag");
    if tag == "" || e.task.None? {
      return;
    }
    var i := FindTaskIndex(d.tasks, e.taskId);
    if i.None? || tag in d.tasks[i.value].tags {
      return;
    }
    d.tasks := d.tasks[i.value := d.tasks[i.value].(tags := d.tasks[i.value].tags + [tag])];
    AppendAudit(d, "rule:" + r.name, "task.tag_added", Some(e.taskId), now);
  }

  method NextSubtaskOrder(subtasks: seq<Subtask>, parent: Int64) returns (order: int)
    ensures order == NextOrder(subtasks, parent)
  {
    order := 0;
    for i := 0 to |subtasks|
      invariant order == NextOrder(subtasks[..i], parent)
    {
      assert subtasks[..i + 1][..i] == subtasks[..i];
      if subtasks[i].parentTaskId == parent && subtasks[i].order >= order {
        order := subtasks[i].order + 1;
      }
    }
    assert subtasks[..|subtasks|] == subtasks;
  }

  method ActionCreateSubtask(d: Document, r: Rule, a: RuleAction, e: Event, now: nat)
    modifies d`subtasks, d`audit
    ensures Effect(d.Value(), [], []) == DoCreateSubtask(old(d.Value()), r, a, e, now)
  {
    var name := Param(a, "name");
    if name == "" || e.task.None? {
      return;
    }
    var order := NextSubtaskOrder(d.subtasks, e.taskId);
    var id := NextIntID(SubtaskIds(d.subtasks));
    d.subtasks := d.subtasks + [Subtask(id, e.taskId, name, order)];
    AppendAudit(d, "rule:" + r.name, "subtask.created", Some(e.taskId), now);
  }

  method ActionPostComment(d: Document, r: Rule, a: RuleAction, e: Event)
    modifies d`taskComments
    ensures Effect(d.Value(), [], []) == DoPostComment(old(d.Value()), r, a, e)
  {
    var text := Param(a, "text");
    if text == "" || e.taskId == 0 {
      return;
    }
    var id := NextIntID(CommentIds(d.taskComments));
    d.taskComments := d.taskComments + [TaskComment(id, e.taskId, "rule:" + r.name, text)];
  }

  method PerformAction(d: Document, r: Rule, a: RuleAction, e: Event, now: nat) returns (follow: seq<Event>)
    modifies d`tasks, d`audit, d`subtasks, d`taskComments
    ensures Effect(d.Value(), follow, []) == ApplyAction(old(d.Value()), r, a, e, now)
  {
    follow := [];
    match a.kind {
      case AssignTo => follow := ActionAssignTo(d, r, a, e, now);
      case SetStatus => follow := ActionSetStatus(d, r, a, e, now);
      case SetDueOffset => ActionSetDueOffset(d, r, a, e, now);
      case AddTag => ActionAddTag(d, r, a, e, now);
      case CreateSubtask => ActionCreateSubtask(d, r, a, e, now);
      case PostComment => ActionPostComment(d, r, a, e);
      case _ =>
    }
  }

  method PerformActions(d: Document, r: Rule, e: Event, now: nat) returns (follow: seq<Event>)
    modifies d`tasks, d`audit, d`subtasks, d`taskComments
    ensures Effect(d.Value(), follow, []) == ApplyActions(old(d.Value()), r, e, now, |r.actions|)
  {
    follow := [];
    ghost var done := Unchanged(d.Value());
    for n := 0 to |r.actions|
      invariant done == ApplyActions(old(d.Value()), r, e, now, n)
      invariant done == Effect(d.Value(), follow, [])
    {
      var more := PerformAction(d, r, r.actions[n], e, now);
      follow := follow + more;
      done := Then(done, ApplyAction(done.doc, r, r.actions[n], e, now));
    }
  }

  method CollectNotices(r: Rule, e: Event) returns (notices: seq<Notice>)
    ensures notices == Notices(r, e, |r.actions|)
  {
    notices := [];
    for n := 0 to |r.actions|
      invariant notices == Notices(r, e, n)
    {
      if r.actions[n].kind == Notify {
        notices := notices + [Notice(r, r.actions[n], e)];
      }
    }
  }

  method ApplyRule(d: Document, r: Rule, e: Event, now: nat) returns (follow: seq<Event>, notices: seq<Notice>)
    modifies d`tasks, d`audit, d`subtasks, d`taskComments
    ensures Effect(d.Value(), follow, notices) == RunRule(old(d.Value()), r, e, now)
  {
    follow, notices := [], [];
    if r.enabled && r.trigger == e.kind {
      if MatchConditions(r.conditions, e, d.tasks) {
        follow := PerformActions(d, r, e, now);
        notices := CollectNotices(r, e);
      }
    }
  }

  /** What the first `n` rules of a document make of it on an event. */
  function Examined(was: Snapshot, e: Event, now: nat, n: nat): Effect
    requires n <= |was.rules|
  {
    RunRules(was, was.rules, e, now, n)
  }

  /** One more rule on an event. */
  method ExamineRule(
    d: Document, e: Event, now: nat, n: nat, before: seq<Event>, due: seq<Notice>, ghost was: Snapshot)
    returns (follow: seq<Event>, notices: seq<Notice>)
    requires n < |d.rules| && was.rules == d.rules
    requires Effect(d.Value(), before, due) == Examined(was, e, now, n)
    modifies d`tasks, d`audit, d`subtasks, d`taskComments
    ensures Effect(d.Value(), follow, notices) == Examined(was, e, now, n + 1)
  {
    ghost var done := RunRules(was, was.rules, e, now, n);
    var more, new_ := ApplyRule(d, d.rules[n], e, now);
    follow, notices := before + more, due + new_;
    assert RunRules(was, was.rules, e, now, n + 1) == Then(done, RunRule(done.doc, was.rules[n], e, now));
  }

  /** One event against the whole rule list, which is read from the document at every step. */
  method ExamineEvent(d: Document, e: Event, now: nat) returns (follow: seq<Event>, notices: seq<Notice>)
    modifies d`tasks, d`audit, d`subtasks, d`taskComments
    ensures Effect(d.Value(), follow, notices) == Examined(old(d.Value()), e, now, |old(d.rules)|)
  {
    follow, notices := [], [];
    ghost var was := d.Value();
    for n := 0 to |d.rules|
      invariant Effect(d.Value(), follow, notices) == Examined(was, e, now, n)
    {
      follow, notices := ExamineRule(d, e, now, n, follow, notices, was);
    }
  }

  ghost predicate Indexes(index: map<Int64, Task>, tasks: seq<Task>) {
    forall id: Int64 :: LastTask(tasks, id) == if id in index then Some(index[id]) else None
  }

  method IndexTasks(tasks: seq<Task>) returns (index: map<Int64, Task>)
    ensures Indexes(index, tasks)
  {
    index := map[];
    for i := 0 to |tasks|
      invariant Indexes(index, tasks[..i])
    {
      assert tasks[..i + 1][..i] == tasks[..i];
      index := index[tasks[i].id := tasks[i]];
    }
    assert tasks[..|tasks|] == tasks;
  }

  method DiffTask(prev: seq<Task>, prevTasks: map<Int64, Task>, t: Task, i: nat) returns (changes: seq<Event>)
    requires Indexes(prevTasks, prev)
    ensures changes == TaskDiff(prev, t, i)
  {
    assert LastTask(prev, t.id) == if t.id in prevTasks then Some(prevTasks[t.id]) else None;
    if t.id !in prevTasks {
      return [TaskEvent(TaskCreated, t.id, None, i, t)];
    }
    changes := [];
    var was := prevTasks[t.id];
    if was.status != t.status {
      changes := [TaskEvent(StatusChanged, t.id, Some(was), i, t)];
    }
    if was.assignee != t.assignee {
      changes := changes + [TaskEvent(AssigneeChanged, t.id, Some(was), i, t)];
    }
  }

  method DiffTasks(prev: seq<Task>, tasks: seq<Task>) returns (events: seq<Event>)
    ensures events == TasksDiff(prev, tasks, |tasks|)
  {
    var prevTasks := IndexTasks(prev);
    events := [];
    for i := 0 to |tasks|
      invariant events == TasksDiff(prev, tasks, i)
    {
      var changes := DiffTask(prev, prevTasks, tasks[i], i);
      events := events + changes;
    }
  }

  method DiffComments(prev: Snapshot, d: Snapshot) returns (events: seq<Event>)
    ensures events == CommentsDiff(prev.taskComments, d.taskComments, d.tasks, |d.taskComments|)
                      + EntityCommentsDiff(prev.entityComments, d.entityComments, |d.entityComments|)
  {
    events := [];
    for i := 0 to |d.taskComments|
      invariant events == CommentsDiff(prev.taskComments, d.taskComments, d.tasks, i)
    {
      var c := d.taskComments[i];
      if c.id in CommentIds(prev.taskComments) {
        continue;
      }
      var parent := FindTaskIndex(d.tasks, c.taskId);
      events := events + [Event(CommentCreated, c.taskId, None, parent,
                                if parent.Some? then Some(d.tasks[parent.value]) else None, Some(c), None)];
    }
    var entity := [];
    for i := 0 to |d.entityComments|
      invariant entity == EntityCommentsDiff(prev.entityComments, d.entityComments, i)
    {
      var c := d.entityComments[i];
      if c.id in EntityCommentIds(prev.entityComments) {
        continue;
      }
      entity := entity + [Event(CommentCreated, 0, None, None, None, None, Some(c))];
    }
    events := events + entity;
  }

  method PerformRound(d: Document, events: seq<Event>, now: nat) returns (nextEvents: seq<Event>, notices: seq<Notice>)
    modifies d`tasks, d`audit, d`subtasks, d`taskComments
    ensures Effect(d.Value(), nextEvents, notices) == RunRound(old(d.Value()), old(d.rules), events, now, |events|)
  {
    nextEvents, notices := [], [];
    ghost var done := Unchanged(d.Value());
    for n := 0 to |events|
      invariant done == RunRound(old(d.Value()), old(d.rules), events, now, n)
      invariant done == Effect(d.Value(), nextEvents, notices)
    {
      var follow, due := ExamineEvent(d, events[n], now);
      nextEvents := nextEvents + follow;
      notices := notices + due;
      done := Then(done, RunRules(done.doc, old(d.rules), events[n], now, |old(d.rules)|));
    }
  }

  /** The document and the notices that the loop over rounds ends with. */
  datatype Ending = Ending(doc: Snapshot, notices: seq<Notice>)

  function EndFrom(d: Snapshot, events: seq<Event>, pending: seq<Notice>, now: nat, depth: nat): Ending
    decreases depth
  {
    if depth == 0 || events == [] then Ending(d, pending)
    else
      var round := RunRound(d, d.rules, events, now, |events|);
      EndFrom(round.doc, round.events, pending + round.notices, now, depth - 1)
  }

  lemma EndStep(d: Snapshot, events: seq<Event>, pending: seq<Notice>, now: nat, depth: nat)
    requires depth > 0 && events != []
    ensures var round := RunRound(d, d.rules, events, now, |events|);
            EndFrom(d, events, pending, now, depth)
            == EndFrom(round.doc, round.events, pending + round.notices, now, depth - 1)
  {
  }

  /** The specification's ending, with what was pending before. */
  function Outcomes(d: Snapshot, events: seq<Event>, pending: seq<Notice>, now: nat, depth: nat): Ending {
    var o := RunRounds(d, events, now, depth);
    Ending(o.doc, pending + o.notices)
  }

  lemma OutcomeStep(d: Snapshot, events: seq<Event>, pending: seq<Notice>, now: nat, depth: nat)
    requires depth > 0 && events != []
    ensures var round := RunRound(d, d.rules, events, now, |events|);
            Outcomes(d, events, pending, now, depth)
            == Outcomes(round.doc, round.events, pending + round.notices, now, depth - 1)
  {
    var round := RunRound(d, d.rules, events, now, |events|);
    var rest := RunRounds(round.doc, round.events, now, depth - 1);
    Regroup(pending, round.notices, rest.notices);
  }

  lemma Regroup(a: seq<Notice>, b: seq<Notice>, c: seq<Notice>)
    ensures a + b + c == a + (b + c)
  {
  }

  /** The loop ends where the recursion does. */
  lemma {:induction false} EndIsOutcome(d: Snapshot, events: seq<Event>, pending: seq<Notice>, now: nat, depth: nat)
    ensures EndFrom(d, events, pending, now, depth) == Outcomes(d, events, pending, now, depth)
    decreases depth
  {
    if depth == 0 || events == [] {
      assert RunRounds(d, events, now, depth).notices == [];
      assert pending + [] == pending;
    } else {
      var round := RunRound(d, d.rules, events, now, |events|);
      EndStep(d, events, pending, now, depth);
      OutcomeStep(d, events, pending, now, depth);
      EndIsOutcome(round.doc, round.events, pending + round.notices, now, depth - 1);
    }
  }

  /** One round, on the way to the end. */
  method PerformNext(
    d: Document, events: seq<Event>, pending: seq<Notice>, now: nat, ghost end: Ending, ghost depth: nat)
    returns (nextEvents: seq<Event>, due: seq<Notice>)
    requires depth > 0 && events != [] && EndFrom(d.Value(), events, pending, now, depth) == end
    modifies d`tasks, d`audit, d`subtasks, d`taskComments
    ensures EndFrom(d.Value(), nextEvents, due, now, depth - 1) == end
  {
    EndStep(d.Value(), events, pending, now, depth);
    var notices;
    nextEvents, notices := PerformRound(d, events, now);
    due := pending + notices;
  }

  method PerformRounds(d: Document, initial: seq<Event>, now: nat, maxDepth: nat) returns (pending: seq<Notice>)
    modifies d`tasks, d`audit, d`subtasks, d`taskComments
    ensures Ending(d.Value(), pending) == EndFrom(old(d.Value()), initial, [], now, maxDepth)
  {
    pending := [];
    var events := initial;
    var depth := 0;
    ghost var end, left := EndFrom(d.Value(), initial, [], now, maxDepth), maxDepth;
    while depth < maxDepth && |events| > 0
      invariant depth + left == maxDepth
      invariant EndFrom(d.Value(), events, pending, now, left) == end
    {
      events, pending := PerformNext(d, events, pending, now, end, left);
      depth, left := depth + 1, left - 1;
    }
  }

  method DiffAndRunInPlace(prev: Snapshot, d: Document, now: nat) returns (pending: seq<Notice>)
    modifies d`tasks, d`audit, d`subtasks, d`taskComments
    ensures var o := DiffAndRun(prev, old(d.Value()), now); d.Value() == o.doc && pending == o.notices
  {
    pending := [];
    if |d.rules| == 0 {
      return;
    }
    var events := DiffTasks(prev.tasks, d.tasks);
    var more := DiffComments(prev, d.Value());
    assert events + more == DiffEvents(prev, d.Value());
    EndIsOutcome(d.Value(), events + more, [], now, MAX_DEPTH);
    pending := PerformRounds(d, events + more, now, MAX_DEPTH);
  }
}
