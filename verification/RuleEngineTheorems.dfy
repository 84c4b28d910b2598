/** What every run of the automation engine keeps. */
module RuleEngineTheorems {
  import Dates
  import opened Ids
  import opened Integers
  import opened Models
  import opened RuleEngine
  import opened Slices
  import opened Wrappers

  // ----- vocabulary -----

  datatype Field = Status | Assignee {
    function Of(t: Task): string {
      if this == Status then t.status else t.assignee
    }

    function Raises(): Trigger {
      if this == Status then StatusChanged else AssigneeChanged
    }
  }

  predicate Concerns(e: Event, f: Field, id: Int64) {
    e.kind == f.Raises() && e.taskId == id
  }

  /**
   * The events that concern one field of one task lead from one value to another: each
   * starts at the value the one before it left, and each is a genuine change.
   */
  ghost predicate Chain(events: seq<Event>, f: Field, id: Int64, from: string, to: string) {
    if events == [] then from == to
    else
      var init, e := events[..|events| - 1], events[|events| - 1];
      if Concerns(e, f, id) then
        && e.before.Some? && e.after.Some?
        && f.Of(e.after.value) == to
        && f.Of(e.before.value) != to
        && Chain(init, f, id, from, f.Of(e.before.value))
      else Chain(init, f, id, from, to)
  }

  lemma {:induction false} ChainConcat(
    a: seq<Event>, b: seq<Event>, f: Field, id: Int64, x: string, y: string, z: string)
    requires Chain(a, f, id, x, y) && Chain(b, f, id, y, z)
    ensures Chain(a + b, f, id, x, z)
  {
    if b == [] {
      assert a + b == a;
    } else {
      var init, e := b[..|b| - 1], b[|b| - 1];
      assert (a + b)[..|a + b| - 1] == a + init;
      ChainConcat(a, init, f, id, x, y, if Concerns(e, f, id) then f.Of(e.before.value) else z);
    }
  }

  lemma {:induction false} ChainSkips(events: seq<Event>, f: Field, id: Int64, x: string)
    requires forall e | e in events :: !Concerns(e, f, id)
    ensures Chain(events, f, id, x, x)
  {
    if events != [] {
      ChainSkips(events[..|events| - 1], f, id, x);
    }
  }

  lemma ChainOne(e: Event, f: Field, from: string, to: string)
    requires e.before.Some? && e.after.Some?
    requires e.kind == f.Raises() ==> f.Of(e.before.value) == from && f.Of(e.after.value) == to && from != to
    requires e.kind != f.Raises() ==> from == to
    ensures Chain([e], f, e.taskId, from, to)
  {
    assert [e][..0] == [];
  }

  /** What rules may change in a task; `done` is never cleared. */
  ghost predicate TaskFrame(t: Task, t': Task) {
    && t' == t.(status := t'.status, assignee := t'.assignee, done := t'.done, due := t'.due, tags := t'.tags)
    && (t.done ==> t'.done)
  }

  ghost predicate TasksFrame(tasks: seq<Task>, tasks': seq<Task>) {
    && |tasks'| == |tasks|
    && forall i | 0 <= i < |tasks| :: TaskFrame(tasks[i], tasks'[i])
  }

  /** What rules may change in a document: listed task fields, and appends to three lists. */
  ghost predicate Frame(d: Snapshot, d': Snapshot) {
    && TasksFrame(d.tasks, d'.tasks)
    && d.audit <= d'.audit && d.taskComments <= d'.taskComments && d.subtasks <= d'.subtasks
    && d' == d.(tasks := d'.tasks, audit := d'.audit, taskComments := d'.taskComments, subtasks := d'.subtasks)
  }

  ghost predicate DistinctIds(d: Snapshot) {
    NoDup(SubtaskIds(d.subtasks)) && NoDup(CommentIds(d.taskComments)) && NoDup(AuditIds(d.audit))
  }

  /** Some list the engine appends to already holds the largest identifier there is. */
  ghost predicate Saturated(d: Snapshot) {
    || MAX_INT in SubtaskIds(d.subtasks) || MAX_INT in CommentIds(d.taskComments) || MAX_INT in AuditIds(d.audit)
  }

  ghost predicate KeepsIdsDistinct(d: Snapshot, d': Snapshot) {
    DistinctIds(d) && !Saturated(d') ==> DistinctIds(d')
  }

  /** An event's pointer is a position in the task list that holds the event's task. */
  ghost predicate Live(e: Event, tasks: seq<Task>) {
    e.task.Some? ==> e.task.value < |tasks| && tasks[e.task.value].id == e.taskId
  }

  ghost predicate RuleMade(e: Event, tasks: seq<Task>) {
    e.kind in {StatusChanged, AssigneeChanged} && e.task.Some? && Live(e, tasks)
  }

  ghost predicate Links(tasks: seq<Task>, tasks': seq<Task>, events: seq<Event>)
    requires |tasks| == |tasks'|
  {
    forall i, f: Field | 0 <= i < |tasks| :: Chain(events, f, tasks[i].id, f.Of(tasks[i]), f.Of(tasks'[i]))
  }

  /** One document evolves into another while rules raise some follow-up events. */
  ghost predicate Evolves(d: Snapshot, d': Snapshot, events: seq<Event>) {
    && Frame(d, d')
    && KeepsIdsDistinct(d, d')
    && Links(d.tasks, d'.tasks, events)
    && forall e | e in events :: RuleMade(e, d.tasks)
  }

  // ----- single actions -----

  lemma Stutters(d: Snapshot)
    ensures Evolves(d, d, [])
  {
  }

  lemma AuditedDistinct(audit: seq<AuditEntry>, actor: string, kind: string, taskId: Option<Int64>, now: int)
    ensures var after := Audited(audit, actor, kind, taskId, now);
            && AuditIds(after) == AuditIds(audit) + [NextId(AuditIds(audit))]
            && audit <= after
            && (NoDup(AuditIds(audit)) && MAX_INT !in AuditIds(after) ==> NoDup(AuditIds(after)))
  {
    var ids := AuditIds(audit);
    assert AuditIds(Audited(audit, actor, kind, taskId, now)) == ids + [NextId(ids)];
    if NoDup(ids) && MAX_INT !in ids + [NextId(ids)] {
      AppendFresh(ids);
    }
  }

  lemma WriteTaskEvolves(d: Snapshot, i: nat, t: Task, r: Rule, kind: string, now: nat, events: seq<Event>)
    requires UniqueTaskIds(d) && i < |d.tasks| && TaskFrame(d.tasks[i], t)
    requires forall e | e in events :: RuleMade(e, d.tasks) && e.taskId == t.id
    requires forall f: Field :: Chain(events, f, t.id, f.Of(d.tasks[i]), f.Of(t))
    ensures Evolves(d, WriteTask(d, i, t, r, kind, now), events)
  {
    AuditedDistinct(d.audit, "rule:" + r.name, kind, Some(t.id), now);
    var ids := TaskIds(d.tasks);
    forall j, f: Field | 0 <= j < |d.tasks| && j != i
      ensures Chain(events, f, d.tasks[j].id, f.Of(d.tasks[j]), f.Of(d.tasks[j]))
    {
      assert ids[i] == d.tasks[i].id && ids[j] == d.tasks[j].id;
      ChainSkips(events, f, d.tasks[j].id, f.Of(d.tasks[j]));
    }
  }

  lemma TargetIsPointee(d: Snapshot, e: Event)
    requires UniqueTaskIds(d) && Live(e, d.tasks)
    ensures Target(d, e) == e.task
  {
    if e.task.Some? {
      FindUnique(d.tasks, e.task.value);
    }
  }

  lemma AppendsEvolve(d: Snapshot, d': Snapshot)
    requires d' == d.(audit := d'.audit, taskComments := d'.taskComments, subtasks := d'.subtasks)
    requires d.audit <= d'.audit && d.taskComments <= d'.taskComments && d.subtasks <= d'.subtasks
    requires KeepsIdsDistinct(d, d')
    ensures Evolves(d, d', [])
  {
  }

  lemma AssignToEvolves(d: Snapshot, r: Rule, a: RuleAction, e: Event, now: nat)
    requires UniqueTaskIds(d)
    ensures var x := DoAssignTo(d, r, a, e, now); Evolves(d, x.doc, x.events) && |x.events| <= 1
  {
    var x := DoAssignTo(d, r, a, e, now);
    if x == Unchanged(d) {
      Stutters(d);
    } else {
      var i := Target(d, e).value;
      var t, e' := x.doc.tasks[i], x.events[0];
      assert x.events == [e'] && e'.taskId == t.id;
      forall f: Field ensures Chain(x.events, f, t.id, f.Of(d.tasks[i]), f.Of(t)) {
        ChainOne(e', f, f.Of(d.tasks[i]), f.Of(t));
      }
      WriteTaskEvolves(d, i, t, r, "task.assigned", now, x.events);
    }
  }

  lemma SetStatusEvolves(d: Snapshot, r: Rule, a: RuleAction, e: Event, now: nat)
    requires UniqueTaskIds(d)
    ensures var x := DoSetStatus(d, r, a, e, now); Evolves(d, x.doc, x.events) && |x.events| <= 1
  {
    var x := DoSetStatus(d, r, a, e, now);
    if x == Unchanged(d) {
      Stutters(d);
    } else {
      var i := Target(d, e).value;
      var t, e' := x.doc.tasks[i], x.events[0];
      assert x.events == [e'] && e'.taskId == t.id;
      forall f: Field ensures Chain(x.events, f, t.id, f.Of(d.tasks[i]), f.Of(t)) {
        ChainOne(e', f, f.Of(d.tasks[i]), f.Of(t));
      }
      WriteTaskEvolves(d, i, t, r, "task.status_changed", now, x.events);
    }
  }

  lemma SetDueOffsetEvolves(d: Snapshot, r: Rule, a: RuleAction, e: Event, now: nat)
    requires UniqueTaskIds(d)
    ensures var x := DoSetDueOffset(d, r, a, e, now); Evolves(d, x.doc, x.events) && x.events == []
  {
    var x := DoSetDueOffset(d, r, a, e, now);
    if x == Unchanged(d) {
      Stutters(d);
    } else {
      var i := Target(d, e).value;
      WriteTaskEvolves(d, i, x.doc.tasks[i], r, "task.due_set", now, []);
    }
  }

  lemma AddTagEvolves(d: Snapshot, r: Rule, a: RuleAction, e: Event, now: nat)
    requires UniqueTaskIds(d)
    ensures var x := DoAddTag(d, r, a, e, now); Evolves(d, x.doc, x.events) && x.events == []
  {
    var x := DoAddTag(d, r, a, e, now);
    if x == Unchanged(d) {
      Stutters(d);
    } else {
      var i := Target(d, e).value;
      WriteTaskEvolves(d, i, x.doc.tasks[i], r, "task.tag_added", now, []);
    }
  }

  lemma CreateSubtaskEvolves(d: Snapshot, r: Rule, a: RuleAction, e: Event, now: nat)
    ensures var x := DoCreateSubtask(d, r, a, e, now); Evolves(d, x.doc, x.events) && x.events == []
  {
    var x := DoCreateSubtask(d, r, a, e, now);
    if x.doc != d {
      AuditedDistinct(d.audit, "rule:" + r.name, "subtask.created", Some(e.taskId), now);
      var ids := SubtaskIds(d.subtasks);
      assert SubtaskIds(x.doc.subtasks) == ids + [NextId(ids)];
      if NoDup(ids) && MAX_INT !in ids {
        AppendFresh(ids);
      }
    }
    AppendsEvolve(d, x.doc);
  }

  lemma PostCommentEvolves(d: Snapshot, r: Rule, a: RuleAction, e: Event)
    ensures var x := DoPostComment(d, r, a, e); Evolves(d, x.doc, x.events) && x.events == []
  {
    var x := DoPostComment(d, r, a, e);
    if x.doc != d {
      var ids := CommentIds(d.taskComments);
      assert CommentIds(x.doc.taskComments) == ids + [NextId(ids)];
      if NoDup(ids) && MAX_INT !in ids {
        AppendFresh(ids);
      }
    }
    AppendsEvolve(d, x.doc);
  }

  lemma ActionEvolves(d: Snapshot, r: Rule, a: RuleAction, e: Event, now: nat)
    requires UniqueTaskIds(d)
    ensures var x := ApplyAction(d, r, a, e, now);
            Evolves(d, x.doc, x.events) && |x.events| <= if Cascades(a) then 1 else 0
  {
    match a.kind
    case AssignTo => AssignToEvolves(d, r, a, e, now);
    case SetStatus => SetStatusEvolves(d, r, a, e, now);
    case SetDueOffset => SetDueOffsetEvolves(d, r, a, e, now);
    case AddTag => AddTagEvolves(d, r, a, e, now);
    case CreateSubtask => CreateSubtaskEvolves(d, r, a, e, now);
    case PostComment => PostCommentEvolves(d, r, a, e);
    case _ => Stutters(d);
  }

  // ----- composition -----

  lemma FrameKeepsIds(d: Snapshot, d': Snapshot)
    requires Frame(d, d')
    ensures TaskIds(d'.tasks) == TaskIds(d.tasks)
    ensures forall i | 0 <= i < |d.tasks| :: d'.tasks[i].id == d.tasks[i].id
  {
    forall i | 0 <= i < |d.tasks| ensures d'.tasks[i].id == d.tasks[i].id {
      assert TaskFrame(d.tasks[i], d'.tasks[i]);
    }
  }

  lemma FrameTransitive(a: Snapshot, b: Snapshot, c: Snapshot)
    requires Frame(a, b) && Frame(b, c)
    ensures Frame(a, c)
  {
    forall i | 0 <= i < |a.tasks| ensures TaskFrame(a.tasks[i], c.tasks[i]) {
      assert TaskFrame(a.tasks[i], b.tasks[i]) && TaskFrame(b.tasks[i], c.tasks[i]);
    }
  }

  lemma SaturationPersists(d: Snapshot, d': Snapshot)
    requires Frame(d, d') && Saturated(d)
    ensures Saturated(d')
  {
    assert SubtaskIds(d.subtasks) <= SubtaskIds(d'.subtasks);
    assert CommentIds(d.taskComments) <= CommentIds(d'.taskComments);
    assert AuditIds(d.audit) <= AuditIds(d'.audit);
  }

  lemma EvolvesTransitive(a: Snapshot, b: Snapshot, c: Snapshot, first: seq<Event>, second: seq<Event>)
    requires Evolves(a, b, first) && Evolves(b, c, second)
    ensures Evolves(a, c, first + second)
  {
    FrameKeepsIds(a, b);
    FrameTransitive(a, b, c);
    if Saturated(b) {
      SaturationPersists(b, c);
    }
    forall i, f: Field | 0 <= i < |a.tasks|
      ensures Chain(first + second, f, a.tasks[i].id, f.Of(a.tasks[i]), f.Of(c.tasks[i]))
    {
      assert Chain(first, f, a.tasks[i].id, f.Of(a.tasks[i]), f.Of(b.tasks[i]));
      assert Chain(second, f, b.tasks[i].id, f.Of(b.tasks[i]), f.Of(c.tasks[i]));
      ChainConcat(first, second, f, a.tasks[i].id, f.Of(a.tasks[i]), f.Of(b.tasks[i]), f.Of(c.tasks[i]));
    }
    forall e | e in first + second ensures RuleMade(e, a.tasks) {
    }
  }

  // ----- folds -----

  lemma ActionAfter(d: Snapshot, b: Effect, r: Rule, a: RuleAction, e: Event, now: nat)
    requires UniqueTaskIds(d) && Evolves(d, b.doc, b.events)
    ensures var x := Then(b, ApplyAction(b.doc, r, a, e, now));
            Evolves(d, x.doc, x.events)
  {
    FrameKeepsIds(d, b.doc);
    ActionEvolves(b.doc, r, a, e, now);
    var c := ApplyAction(b.doc, r, a, e, now);
    EvolvesTransitive(d, b.doc, c.doc, b.events, c.events);
  }

  lemma {:induction false} ActionsEvolve(d: Snapshot, r: Rule, e: Event, now: nat, n: nat)
    requires UniqueTaskIds(d) && n <= |r.actions|
    ensures var x := ApplyActions(d, r, e, now, n); Evolves(d, x.doc, x.events)
  {
    if n == 0 {
      Stutters(d);
    } else {
      ActionsEvolve(d, r, e, now, n - 1);
      var b, a := ApplyActions(d, r, e, now, n - 1), r.actions[n - 1];
      ActionAfter(d, b, r, a, e, now);
      assert ApplyActions(d, r, e, now, n) == Then(b, ApplyAction(b.doc, r, a, e, now));
    }
  }

  lemma {:induction false} RulesEvolve(d: Snapshot, rules: seq<Rule>, e: Event, now: nat, n: nat)
    requires UniqueTaskIds(d) && n <= |rules|
    ensures var x := RunRules(d, rules, e, now, n); Evolves(d, x.doc, x.events)
  {
    Stutters(d);
    if n > 0 {
      RulesEvolve(d, rules, e, now, n - 1);
      var b := RunRules(d, rules, e, now, n - 1);
      FrameKeepsIds(d, b.doc);
      Stutters(b.doc);
      ActionsEvolve(b.doc, rules[n - 1], e, now, |rules[n - 1].actions|);
      var c := RunRule(b.doc, rules[n - 1], e, now);
      EvolvesTransitive(d, b.doc, c.doc, b.events, c.events);
    }
  }

  lemma {:induction false} RoundEvolves(d: Snapshot, rules: seq<Rule>, events: seq<Event>, now: nat, n: nat)
    requires UniqueTaskIds(d) && n <= |events|
    ensures var x := RunRound(d, rules, events, now, n); Evolves(d, x.doc, x.events)
  {
    Stutters(d);
    if n > 0 {
      RoundEvolves(d, rules, events, now, n - 1);
      var b := RunRound(d, rules, events, now, n - 1);
      FrameKeepsIds(d, b.doc);
      RulesEvolve(b.doc, rules, events[n - 1], now, |rules|);
      var c := RunRules(b.doc, rules, events[n - 1], now, |rules|);
      EvolvesTransitive(d, b.doc, c.doc, b.events, c.events);
    }
  }

  function Flatten(rounds: seq<seq<Event>>): seq<Event> {
    if rounds == [] then [] else rounds[0] + Flatten(rounds[1..])
  }

  /** The first round's events aside, a run's events are those of its second round and what follows. */
  lemma RunSplits(d: Snapshot, events: seq<Event>, now: nat, depth: nat)
    requires depth > 0 && events != []
    ensures var o, round := RunRounds(d, events, now, depth), RunRound(d, d.rules, events, now, |events|);
            var rest := RunRounds(round.doc, round.events, now, depth - 1);
            o.doc == rest.doc && Flatten(o.rounds[1..]) == round.events + Flatten(rest.rounds[1..])
  {
    var o, round := RunRounds(d, events, now, depth), RunRound(d, d.rules, events, now, |events|);
    var rest := RunRounds(round.doc, round.events, now, depth - 1);
    assert o.rounds == [events] + rest.rounds;
    assert o.rounds[1..] == rest.rounds;
  }

  lemma {:induction false} RoundsEvolve(d: Snapshot, events: seq<Event>, now: nat, depth: nat)
    requires UniqueTaskIds(d)
    ensures Evolves(d, RunRounds(d, events, now, depth).doc, Flatten(RunRounds(d, events, now, depth).rounds[1..]))
    decreases depth
  {
    if depth == 0 || events == [] {
      Stutters(d);
    } else {
      var round := RunRound(d, d.rules, events, now, |events|);
      var rest := RunRounds(round.doc, round.events, now, depth - 1);
      RoundEvolves(d, d.rules, events, now, |events|);
      FrameKeepsIds(d, round.doc);
      RoundsEvolve(round.doc, round.events, now, depth - 1);
      EvolvesTransitive(d, round.doc, rest.doc, round.events, Flatten(rest.rounds[1..]));
      RunSplits(d, events, now, depth);
    }
  }

  // ----- the events of the change itself -----

  /** The value a task's chain starts at: what it was before the change, or what it was created with. */
  function Origin(prev: seq<Task>, t: Task, f: Field): string {
    match LastTask(prev, t.id)
    case Some(p) => f.Of(p)
    case None => f.Of(t)
  }

  lemma TaskDiffLinks(prev: seq<Task>, t: Task, index: nat, f: Field)
    ensures Chain(TaskDiff(prev, t, index), f, t.id, Origin(prev, t, f), f.Of(t))
    ensures forall e | e in TaskDiff(prev, t, index) :: e.taskId == t.id && e.task == Some(index)
  {
    var p := LastTask(prev, t.id);
    if p.Some? {
      var x, y := f.Of(p.value), f.Of(t);
      var a := if p.value.status != t.status then [TaskEvent(StatusChanged, t.id, p, index, t)] else [];
      var b := if p.value.assignee != t.assignee then [TaskEvent(AssigneeChanged, t.id, p, index, t)] else [];
      var m := if f == Status then y else x;
      if a != [] {
        ChainOne(a[0], f, x, m);
      }
      if b != [] {
        ChainOne(b[0], f, m, y);
      }
      ChainConcat(a, b, f, t.id, x, m, y);
    } else {
      ChainSkips(TaskDiff(prev, t, index), f, t.id, f.Of(t));
    }
  }

  lemma {:induction false} TasksDiffLive(prev: seq<Task>, tasks: seq<Task>, n: nat)
    requires n <= |tasks|
    ensures forall e | e in TasksDiff(prev, tasks, n) :: e.task.Some? && e.task.value < n && Live(e, tasks)
  {
    if n > 0 {
      TasksDiffLive(prev, tasks, n - 1);
      TaskDiffLinks(prev, tasks[n - 1], n - 1, Status);
      var head, last := TasksDiff(prev, tasks, n - 1), TaskDiff(prev, tasks[n - 1], n - 1);
      forall e: Event | e in head + last ensures e.task.Some? && e.task.value < n && Live(e, tasks) {
      }
    }
  }

  /** Events of earlier positions concern other tasks. */
  lemma DiffSkipsLater(prev: seq<Task>, tasks: seq<Task>, n: nat, i: nat, f: Field, from: string)
    requires NoDup(TaskIds(tasks)) && n <= i < |tasks|
    ensures Chain(TasksDiff(prev, tasks, n), f, tasks[i].id, from, from)
  {
    var ids := TaskIds(tasks);
    TasksDiffLive(prev, tasks, n);
    forall e: Event | e in TasksDiff(prev, tasks, n) ensures !Concerns(e, f, tasks[i].id) {
      assert ids[e.task.value] == e.taskId && ids[i] == tasks[i].id;
    }
    ChainSkips(TasksDiff(prev, tasks, n), f, tasks[i].id, from);
  }

  /** Events of a later position concern another task. */
  lemma DiffSkipsEarlier(prev: seq<Task>, tasks: seq<Task>, n: nat, i: nat, f: Field, to: string)
    requires NoDup(TaskIds(tasks)) && i < n < |tasks|
    ensures Chain(TaskDiff(prev, tasks[n], n), f, tasks[i].id, to, to)
  {
    var ids := TaskIds(tasks);
    assert ids[n] == tasks[n].id && ids[i] == tasks[i].id;
    TaskDiffLinks(prev, tasks[n], n, f);
    ChainSkips(TaskDiff(prev, tasks[n], n), f, tasks[i].id, to);
  }

  /** One more position extends a chain whose links before and after it meet. */
  lemma DiffStep(prev: seq<Task>, tasks: seq<Task>, n: nat, f: Field, id: Int64, x: string, y: string, z: string)
    requires n < |tasks|
    requires Chain(TasksDiff(prev, tasks, n), f, id, x, y) && Chain(TaskDiff(prev, tasks[n], n), f, id, y, z)
    ensures Chain(TasksDiff(prev, tasks, n + 1), f, id, x, z)
  {
    ChainConcat(TasksDiff(prev, tasks, n), TaskDiff(prev, tasks[n], n), f, id, x, y, z);
  }

  lemma LinksOwn(prev: seq<Task>, tasks: seq<Task>, i: nat, f: Field)
    requires NoDup(TaskIds(tasks)) && i < |tasks|
    ensures Chain(TasksDiff(prev, tasks, i + 1), f, tasks[i].id, Origin(prev, tasks[i], f), f.Of(tasks[i]))
  {
    var from, to := Origin(prev, tasks[i], f), f.Of(tasks[i]);
    DiffSkipsLater(prev, tasks, i, i, f, from);
    TaskDiffLinks(prev, tasks[i], i, f);
    DiffStep(prev, tasks, i, f, tasks[i].id, from, from, to);
  }

  lemma LinksOn(prev: seq<Task>, tasks: seq<Task>, n: nat, i: nat, f: Field, from: string, to: string)
    requires NoDup(TaskIds(tasks)) && i < n < |tasks|
    requires Chain(TasksDiff(prev, tasks, n), f, tasks[i].id, from, to)
    ensures Chain(TasksDiff(prev, tasks, n + 1), f, tasks[i].id, from, to)
  {
    DiffSkipsEarlier(prev, tasks, n, i, f, to);
    DiffStep(prev, tasks, n, f, tasks[i].id, from, to, to);
  }

  lemma {:induction false} TasksDiffLinks(prev: seq<Task>, tasks: seq<Task>, n: nat, i: nat, f: Field)
    requires NoDup(TaskIds(tasks)) && i < n <= |tasks|
    ensures Chain(TasksDiff(prev, tasks, n), f, tasks[i].id, Origin(prev, tasks[i], f), f.Of(tasks[i]))
  {
    var from, to := Origin(prev, tasks[i], f), f.Of(tasks[i]);
    LinksOwn(prev, tasks, i, f);
    for m := i + 1 to n
      invariant Chain(TasksDiff(prev, tasks, m), f, tasks[i].id, from, to)
    {
      LinksOn(prev, tasks, m, i, f, from, to);
    }
  }

  lemma {:induction false} CommentsDiffLive(
    prev: seq<TaskComment>, comments: seq<TaskComment>, tasks: seq<Task>, n: nat)
    requires n <= |comments|
    ensures forall e | e in CommentsDiff(prev, comments, tasks, n) :: e.kind == CommentCreated && Live(e, tasks)
  {
    if n > 0 {
      CommentsDiffLive(prev, comments, tasks, n - 1);
    }
  }

  lemma {:induction false} EntityCommentsDiffLive(
    prev: seq<EntityComment>, comments: seq<EntityComment>, n: nat, tasks: seq<Task>)
    requires n <= |comments|
    ensures forall e | e in EntityCommentsDiff(prev, comments, n) :: e.kind == CommentCreated && Live(e, tasks)
  {
    if n > 0 {
      EntityCommentsDiffLive(prev, comments, n - 1, tasks);
    }
  }

  lemma DiffLinks(prev: Snapshot, d: Snapshot, i: nat, f: Field)
    requires UniqueTaskIds(d) && i < |d.tasks|
    ensures Chain(DiffEvents(prev, d), f, d.tasks[i].id, Origin(prev.tasks, d.tasks[i], f), f.Of(d.tasks[i]))
  {
    var t := d.tasks[i];
    var a := TasksDiff(prev.tasks, d.tasks, |d.tasks|);
    var b := CommentsDiff(prev.taskComments, d.taskComments, d.tasks, |d.taskComments|);
    var c := EntityCommentsDiff(prev.entityComments, d.entityComments, |d.entityComments|);
    TasksDiffLinks(prev.tasks, d.tasks, |d.tasks|, i, f);
    CommentsDiffLive(prev.taskComments, d.taskComments, d.tasks, |d.taskComments|);
    EntityCommentsDiffLive(prev.entityComments, d.entityComments, |d.entityComments|, d.tasks);
    ChainSkips(b, f, t.id, f.Of(t));
    ChainSkips(c, f, t.id, f.Of(t));
    ChainConcat(a, b, f, t.id, Origin(prev.tasks, t, f), f.Of(t), f.Of(t));
    ChainConcat(a + b, c, f, t.id, Origin(prev.tasks, t, f), f.Of(t), f.Of(t));
  }

  // ----- main results -----

  /**
   * In every workspace that has rules, the status (and likewise the assignee) values in all
   * events of a run form one unbroken chain of genuine changes from the value before the
   * change to the value the run leaves in the document.
   */
  lemma EventChain(prev: Snapshot, d: Snapshot, now: nat, i: nat, f: Field)
    requires UniqueTaskIds(d) && i < |d.tasks| && d.rules != []
    ensures var o := DiffAndRun(prev, d, now);
            && |o.doc.tasks| == |d.tasks|
            && Chain(Flatten(o.rounds), f, d.tasks[i].id, Origin(prev.tasks, d.tasks[i], f), f.Of(o.doc.tasks[i]))
  {
    var events := DiffEvents(prev, d);
    var o := DiffAndRun(prev, d, now);
    RoundsEvolve(d, events, now, MAX_DEPTH);
    DiffLinks(prev, d, i, f);
    ChainConcat(events, Flatten(o.rounds[1..]), f, d.tasks[i].id,
                Origin(prev.tasks, d.tasks[i], f), f.Of(d.tasks[i]), f.Of(o.doc.tasks[i]));
  }

  /** Rules keep everything but the listed fields, and mint distinct identifiers. */
  lemma EngineFrame(prev: Snapshot, d: Snapshot, now: nat)
    requires UniqueTaskIds(d)
    ensures var o := DiffAndRun(prev, d, now);
            && Frame(d, o.doc)
            && TaskIds(o.doc.tasks) == TaskIds(d.tasks)
            && KeepsIdsDistinct(d, o.doc)
  {
    var events := if d.rules == [] then [] else DiffEvents(prev, d);
    RoundsEvolve(d, events, now, MAX_DEPTH);
    FrameKeepsIds(d, DiffAndRun(prev, d, now).doc);
  }

  // ----- what holds whether or not task identifiers are distinct -----

  /** The actions whose effect can raise a follow-up event. */
  predicate Cascades(a: RuleAction) {
    a.kind.AssignTo? || a.kind.SetStatus?
  }

  function CascadingActions(actions: seq<RuleAction>, n: nat): nat
    requires n <= |actions|
  {
    if n == 0 then 0 else CascadingActions(actions, n - 1) + if Cascades(actions[n - 1]) then 1 else 0
  }

  function CascadingRules(rules: seq<Rule>, n: nat): nat
    requires n <= |rules|
  {
    if n == 0 then 0 else CascadingRules(rules, n - 1) + CascadingActions(rules[n - 1].actions, |rules[n - 1].actions|)
  }

  function Fanout(rules: seq<Rule>): nat {
    CascadingRules(rules, |rules|)
  }

  /** Every round after the first raises at most `Fanout` times the events of the one before. */
  ghost predicate Bounded(rounds: seq<seq<Event>>, fanout: nat) {
    forall k | 0 < k < |rounds| :: |rounds[k]| <= |rounds[k - 1]| * fanout
  }

  /** Task identifiers, rules and requisitions stay, and the lists that rules append to only grow. */
  ghost predicate Grows(d: Snapshot, d': Snapshot) {
    && TaskIds(d'.tasks) == TaskIds(d.tasks) && d'.rules == d.rules && d'.requisitions == d.requisitions
    && d.audit <= d'.audit && d.taskComments <= d'.taskComments && d.subtasks <= d'.subtasks
  }

  lemma WriteGrows(d: Snapshot, i: nat, t: Task, r: Rule, kind: string, now: nat)
    requires i < |d.tasks| && t.id == d.tasks[i].id
    ensures Grows(d, WriteTask(d, i, t, r, kind, now))
  {
    assert TaskIds(d.tasks[i := t]) == TaskIds(d.tasks);
  }

  lemma TaskActionGrows(d: Snapshot, r: Rule, a: RuleAction, e: Event, now: nat)
    requires a.kind.AssignTo? || a.kind.SetStatus? || a.kind.AddTag?
    ensures Grows(d, ApplyAction(d, r, a, e, now).doc)
  {
    var target := Target(d, e);
    if target.Some? {
      var i := target.value;
      var t, status, tag := d.tasks[i], Param(a, "status"), Param(a, "tag");
      match a.kind
      case AssignTo => WriteGrows(d, i, t.(assignee := Param(a, "to")), r, "task.assigned", now);
      case SetStatus =>
        WriteGrows(d, i, t.(status := status, done := t.done || status == "completed"), r, "task.status_changed", now);
      case AddTag => WriteGrows(d, i, t.(tags := t.tags + [tag]), r, "task.tag_added", now);
    }
  }

  lemma DueOffsetGrows(d: Snapshot, r: Rule, a: RuleAction, e: Event, now: nat)
    ensures Grows(d, DoSetDueOffset(d, r, a, e, now).doc)
  {
    var days, target := ParseInt(Param(a, "days")), Target(d, e);
    if days.Some? && target.Some? {
      var anchor := Dates.Parse(d.tasks[target.value].due);
      var due := ShiftDays(if anchor.Some? then anchor.value else now, days.value);
      WriteGrows(d, target.value, d.tasks[target.value].(due := due), r, "task.due_set", now);
    }
  }

  lemma ActionGrows(d: Snapshot, r: Rule, a: RuleAction, e: Event, now: nat)
    ensures Grows(d, ApplyAction(d, r, a, e, now).doc)
    ensures |ApplyAction(d, r, a, e, now).events| <= if Cascades(a) then 1 else 0
  {
    if a.kind.AssignTo? || a.kind.SetStatus? || a.kind.AddTag? {
      TaskActionGrows(d, r, a, e, now);
    } else if a.kind.SetDueOffset? {
      DueOffsetGrows(d, r, a, e, now);
    }
  }

  lemma ActionGrowsOn(d: Snapshot, before: Effect, r: Rule, a: RuleAction, e: Event, now: nat, count: nat)
    requires Grows(d, before.doc) && |before.events| <= count
    ensures var x := Then(before, ApplyAction(before.doc, r, a, e, now));
            Grows(d, x.doc) && |x.events| <= count + if Cascades(a) then 1 else 0
  {
    ActionGrows(before.doc, r, a, e, now);
  }

  lemma LastActionGrows(d: Snapshot, r: Rule, e: Event, now: nat, n: nat)
    requires n < |r.actions|
    requires var b := ApplyActions(d, r, e, now, n); Grows(d, b.doc) && |b.events| <= CascadingActions(r.actions, n)
    ensures var x := ApplyActions(d, r, e, now, n + 1);
            Grows(d, x.doc) && |x.events| <= CascadingActions(r.actions, n + 1)
  {
    ActionGrowsOn(d, ApplyActions(d, r, e, now, n), r, r.actions[n], e, now, CascadingActions(r.actions, n));
  }

  lemma ActionsGrow(d: Snapshot, r: Rule, e: Event, now: nat, n: nat)
    requires n <= |r.actions|
    ensures var x := ApplyActions(d, r, e, now, n); Grows(d, x.doc) && |x.events| <= CascadingActions(r.actions, n)
  {
    for m := 0 to n
      invariant var x := ApplyActions(d, r, e, now, m); Grows(d, x.doc) && |x.events| <= CascadingActions(r.actions, m)
    {
      LastActionGrows(d, r, e, now, m);
    }
  }

  lemma {:induction false} RulesGrow(d: Snapshot, rules: seq<Rule>, e: Event, now: nat, n: nat)
    requires n <= |rules|
    ensures Grows(d, RunRules(d, rules, e, now, n).doc)
    ensures |RunRules(d, rules, e, now, n).events| <= CascadingRules(rules, n)
  {
    if n > 0 {
      RulesGrow(d, rules, e, now, n - 1);
      var before := RunRules(d, rules, e, now, n - 1).doc;
      ActionsGrow(before, rules[n - 1], e, now, |rules[n - 1].actions|);
    }
  }

  lemma {:induction false} RoundGrows(d: Snapshot, rules: seq<Rule>, events: seq<Event>, now: nat, n: nat)
    requires n <= |events|
    ensures Grows(d, RunRound(d, rules, events, now, n).doc)
    ensures |RunRound(d, rules, events, now, n).events| <= n * Fanout(rules)
  {
    if n > 0 {
      RoundGrows(d, rules, events, now, n - 1);
      RulesGrow(RunRound(d, rules, events, now, n - 1).doc, rules, events[n - 1], now, |rules|);
      assert n * Fanout(rules) == (n - 1) * Fanout(rules) + Fanout(rules);
    }
  }

  lemma {:induction false} RoundsGrow(d: Snapshot, events: seq<Event>, now: nat, depth: nat)
    ensures Grows(d, RunRounds(d, events, now, depth).doc)
    ensures Bounded(RunRounds(d, events, now, depth).rounds, Fanout(d.rules))
    decreases depth
  {
    if depth > 0 && events != [] {
      RoundGrows(d, d.rules, events, now, |events|);
      var round := RunRound(d, d.rules, events, now, |events|);
      RoundsGrow(round.doc, round.events, now, depth - 1);
    }
  }

  lemma EngineGrows(prev: Snapshot, d: Snapshot, now: nat)
    ensures Grows(d, DiffAndRun(prev, d, now).doc)
  {
    RoundsGrow(d, if d.rules == [] then [] else DiffEvents(prev, d), now, MAX_DEPTH);
  }

  lemma DiffLive(prev: Snapshot, d: Snapshot, e: Event)
    requires e in DiffEvents(prev, d)
    ensures Live(e, d.tasks)
  {
    TasksDiffLive(prev.tasks, d.tasks, |d.tasks|);
    CommentsDiffLive(prev.taskComments, d.taskComments, d.tasks, |d.taskComments|);
    EntityCommentsDiffLive(prev.entityComments, d.entityComments, |d.entityComments|, d.tasks);
  }

  /** Every event of every round points at its own task, in the document the run leaves too. */
  lemma PointersStayLive(prev: Snapshot, d: Snapshot, now: nat, k: nat, e: Event)
    requires UniqueTaskIds(d) && k < |DiffAndRun(prev, d, now).rounds| && e in DiffAndRun(prev, d, now).rounds[k]
    ensures Live(e, DiffAndRun(prev, d, now).doc.tasks) && Target(DiffAndRun(prev, d, now).doc, e) == e.task
    ensures k > 0 ==> RuleMade(e, d.tasks)
  {
    var o := DiffAndRun(prev, d, now);
    var events := if d.rules == [] then [] else DiffEvents(prev, d);
    RoundsEvolve(d, events, now, MAX_DEPTH);
    EngineFrame(prev, d, now);
    if k == 0 {
      DiffLive(prev, d, e);
    } else {
      FlattenMember(o.rounds[1..], k - 1, e);
    }
    FrameKeepsIds(d, o.doc);
    TargetIsPointee(o.doc, e);
  }

  lemma {:induction false} FlattenMember(rounds: seq<seq<Event>>, k: nat, e: Event)
    requires k < |rounds| && e in rounds[k]
    ensures e in Flatten(rounds)
  {
    if k > 0 {
      FlattenMember(rounds[1..], k - 1, e);
    }
  }

  function Power(base: nat, n: nat): nat {
    if n == 0 then 1 else base * Power(base, n - 1)
  }

  lemma {:induction false} BoundedPower(rounds: seq<seq<Event>>, fanout: nat, k: nat)
    requires Bounded(rounds, fanout) && k < |rounds|
    ensures |rounds[k]| <= |rounds[0]| * Power(fanout, k)
  {
    if k > 0 {
      BoundedPower(rounds, fanout, k - 1);
      Monotone(|rounds[k - 1]|, |rounds[0]| * Power(fanout, k - 1), fanout);
      assert |rounds[0]| * Power(fanout, k - 1) * fanout == |rounds[0]| * (fanout * Power(fanout, k - 1));
    }
  }

  lemma Monotone(x: nat, y: nat, m: nat)
    requires x <= y
    ensures x * m <= y * m
  {
  }

  /**
   * At most three rounds run, round k raises at most |diff| * A^k events where A counts the
   * cascading actions of the rule list, and when fewer than three rounds were needed the
   * last event list is empty: every rule-made change has itself been examined.
   */
  lemma EngineBounds(prev: Snapshot, d: Snapshot, now: nat, k: nat)
    requires k < |DiffAndRun(prev, d, now).rounds|
    ensures var o := DiffAndRun(prev, d, now);
            && |o.rounds| <= 4
            && |o.rounds[k]| <= |DiffEvents(prev, d)| * Power(Fanout(d.rules), k)
            && (|o.rounds| <= 3 ==> o.rounds[|o.rounds| - 1] == [])
  {
    var events := if d.rules == [] then [] else DiffEvents(prev, d);
    var o := DiffAndRun(prev, d, now);
    RoundsGrow(d, events, now, MAX_DEPTH);
    BoundedPower(o.rounds, Fanout(d.rules), k);
    assert |o.rounds[0]| <= |DiffEvents(prev, d)|;
    Monotone(|o.rounds[0]|, |DiffEvents(prev, d)|, Power(Fanout(d.rules), k));
  }
}
