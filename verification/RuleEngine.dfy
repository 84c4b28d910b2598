/**
 * The automation engine as a function of the document: which events a change raises, what
 * each rule action does, and how follow-up events are fed back for a bounded number of rounds.
 */
module RuleEngine {
  import opened Dates
  import opened Ids
  import opened Integers
  import opened Models
  import opened Wrappers
  import Text

  const MAX_DEPTH: nat := 3

  /**
   * `task` is the code's pointer into the document's task list, as an index. `after` is the
   * value that pointer has when the event is raised; the code does not keep it and nothing
   * below decides on it: it is there to state the chain property.
   */
  datatype Event = Event(
    kind: Trigger,
    taskId: Int64,
    before: Option<Task>,
    task: Option<nat>,
    after: Option<Task>,
    comment: Option<TaskComment>,
    entityComment: Option<EntityComment>)

  datatype Notice = Notice(rule: Rule, action: RuleAction, event: Event)

  datatype Effect = Effect(doc: Snapshot, events: seq<Event>, notices: seq<Notice>)

  // ----- raising events -----

  function TaskEvent(kind: Trigger, id: Int64, was: Option<Task>, index: nat, new_: Task): Event {
    Event(kind, id, was, Some(index), Some(new_), None, None)
  }

  /** The last task of the old document with an identifier, as filling a map in a loop leaves it. */
  function LastTask(tasks: seq<Task>, id: Int64): (r: Option<Task>)
    ensures r.Some? ==> r.value in tasks && r.value.id == id
    ensures r.None? ==> forall t | t in tasks :: t.id != id
  {
    if tasks == [] then None
    else
      var init, last := tasks[..|tasks| - 1], tasks[|tasks| - 1];
      assert tasks == init + [last];
      if last.id == id then Some(last) else LastTask(init, id)
  }

  function TaskDiff(prev: seq<Task>, t: Task, index: nat): seq<Event> {
    match LastTask(prev, t.id)
    case None => [TaskEvent(TaskCreated, t.id, None, index, t)]
    case Some(was) =>
      (if was.status != t.status then [TaskEvent(StatusChanged, t.id, Some(was), index, t)] else [])
      + (if was.assignee != t.assignee then [TaskEvent(AssigneeChanged, t.id, Some(was), index, t)] else [])
  }

  function TasksDiff(prev: seq<Task>, tasks: seq<Task>, n: nat): seq<Event>
    requires n <= |tasks|
  {
    if n == 0 then [] else TasksDiff(prev, tasks, n - 1) + TaskDiff(prev, tasks[n - 1], n - 1)
  }

  function CommentsDiff(prev: seq<TaskComment>, comments: seq<TaskComment>, tasks: seq<Task>, n: nat): seq<Event>
    requires n <= |comments|
  {
    if n == 0 then []
    else
      var c := comments[n - 1];
      var parent := FindTask(tasks, c.taskId);
      CommentsDiff(prev, comments, tasks, n - 1)
      + if c.id in CommentIds(prev) then []
        else [Event(CommentCreated, c.taskId, None, parent,
                    if parent.Some? then Some(tasks[parent.value]) else None, Some(c), None)]
  }

  function EntityCommentIds(comments: seq<EntityComment>): seq<Int64> {
    seq(|comments|, i requires 0 <= i < |comments| => comments[i].id)
  }

  function EntityCommentsDiff(prev: seq<EntityComment>, comments: seq<EntityComment>, n: nat): seq<Event>
    requires n <= |comments|
  {
    if n == 0 then []
    else
      var c := comments[n - 1];
      EntityCommentsDiff(prev, comments, n - 1)
      + if c.id in EntityCommentIds(prev) then [] else [Event(CommentCreated, 0, None, None, None, None, Some(c))]
  }

  function DiffEvents(prev: Snapshot, d: Snapshot): seq<Event> {
    TasksDiff(prev.tasks, d.tasks, |d.tasks|)
    + CommentsDiff(prev.taskComments, d.taskComments, d.tasks, |d.taskComments|)
    + EntityCommentsDiff(prev.entityComments, d.entityComments, |d.entityComments|)
  }

  // ----- conditions -----

  /** Conditions read the task the event points at as it is now, not as it was when raised. */
  function Pointee(e: Event, tasks: seq<Task>): Option<Task> {
    if e.task.Some? && e.task.value < |tasks| then Some(tasks[e.task.value]) else None
  }

  function ResolveField(field: string, e: Event, tasks: seq<Task>): Option<string> {
    match Pointee(e, tasks)
    case None => None
    case Some(t) =>
      var name := Text.Trim(field);
      if name == "task.status" then Some(t.status)
      else if name == "task.priority" then Some(t.priority)
      else if name == "task.project" then Some(t.project)
      else if name == "task.assignee" then Some(t.assignee)
      else if name == "task.type" then Some(if t.kind == "" then TASK_TYPE_TASK else t.kind)
      else if name == "task.done" then Some(if t.done then "true" else "false")
      else if name == "task.tags" then Some(Text.Join(t.tags, ","))
      else None
  }

  predicate ApplyOp(op: Op, got: string, want: string) {
    var g, w := Text.Trim(got), Text.Trim(want);
    match op
    case Eq => g == w
    case Ne => g != w
    case Contains => Text.Contains(Text.ToLower(g), Text.ToLower(w))
    case In => exists candidate | candidate in Text.Split(w, ',') :: Text.Trim(candidate) == g
    case OtherOp => false
  }

  predicate MatchConditions(conditions: seq<RuleCondition>, e: Event, tasks: seq<Task>) {
    forall c | c in conditions ::
      var got := ResolveField(c.field, e, tasks);
      got.Some? && ApplyOp(c.op, got.value, c.value)
  }

  predicate Fires(r: Rule, e: Event, tasks: seq<Task>) {
    r.enabled && r.trigger == e.kind && MatchConditions(r.conditions, e, tasks)
  }

  // ----- actions -----

  function Param(a: RuleAction, key: string): string {
    if key in a.params then Text.Trim(a.params[key]) else ""
  }

  function Unchanged(d: Snapshot): Effect {
    Effect(d, [], [])
  }

  /** A rule's write to one task, with the audit entry that goes with it. */
  function WriteTask(d: Snapshot, i: nat, t: Task, r: Rule, kind: string, now: nat): Snapshot
    requires i < |d.tasks|
  {
    d.(tasks := d.tasks[i := t], audit := Audited(d.audit, "rule:" + r.name, kind, Some(t.id), now))
  }

  /** The task an action applies to: none when the event carries no task. */
  function Target(d: Snapshot, e: Event): (r: Option<nat>)
    ensures r.Some? ==> r.value < |d.tasks|
  {
    if e.task.None? then None else FindTask(d.tasks, e.taskId)
  }

  function DoAssignTo(d: Snapshot, r: Rule, a: RuleAction, e: Event, now: nat): Effect {
    var to := Param(a, "to");
    match Target(d, e)
    case None => Unchanged(d)
    case Some(i) =>
      var was := d.tasks[i];
      if to == "" || was.assignee == to then Unchanged(d)
      else
        var t := was.(assignee := to);
        Effect(WriteTask(d, i, t, r, "task.assigned", now), [TaskEvent(AssigneeChanged, e.taskId, Some(was), i, t)], [])
  }

  function DoSetStatus(d: Snapshot, r: Rule, a: RuleAction, e: Event, now: nat): Effect {
    var status := Param(a, "status");
    match Target(d, e)
    case None => Unchanged(d)
    case Some(i) =>
      var was := d.tasks[i];
      if status == "" || was.status == status then Unchanged(d)
      else
        var t := was.(status := status, done := was.done || status == "completed");
        Effect(WriteTask(d, i, t, r, "task.status_changed", now),
               [TaskEvent(StatusChanged, e.taskId, Some(was), i, t)], [])
  }

  /** Decimal accumulation in 64-bit arithmetic. */
  function DigitsValue(s: string): Int64
    requires Text.IsDigits(s)
  {
    if s == "" then 0
    else Wrap(DigitsValue(s[..|s| - 1]) * 10 + (s[|s| - 1] - '0') as int)
  }

  function ParseInt(s: string): Option<Int64> {
    var signed := s != "" && (s[0] == '-' || s[0] == '+');
    var digits := if signed then s[1..] else s;
    if digits == "" || !Text.IsDigits(digits) then None
    else if signed && s[0] == '-' then (var value: int := DigitsValue(digits); Some(Wrap(-value)))
    else Some(DigitsValue(digits))
  }

  function ShiftDays(at: int, days: Int64): DateText {
    FormatDate(AddDays(at, days))
  }

  function DoSetDueOffset(d: Snapshot, r: Rule, a: RuleAction, e: Event, now: nat): Effect {
    match (ParseInt(Param(a, "days")), Target(d, e))
    case (Some(days), Some(i)) =>
      var anchor := Parse(d.tasks[i].due);
      var t := d.tasks[i].(due := ShiftDays(if anchor.Some? then anchor.value else now, days));
      Effect(WriteTask(d, i, t, r, "task.due_set", now), [], [])
    case _ => Unchanged(d)
  }

  function DoAddTag(d: Snapshot, r: Rule, a: RuleAction, e: Event, now: nat): Effect {
    var tag := Param(a, "tag");
    match Target(d, e)
    case None => Unchanged(d)
    case Some(i) =>
      if tag == "" || tag in d.tasks[i].tags then Unchanged(d)
      else
        var t := d.tasks[i].(tags := d.tasks[i].tags + [tag]);
        Effect(WriteTask(d, i, t, r, "task.tag_added", now), [], [])
  }

  /** One past the largest non-negative order among a task's subtasks. */
  function NextOrder(subtasks: seq<Subtask>, parent: Int64): int {
    if subtasks == [] then 0
    else
      var order, last := NextOrder(subtasks[..|subtasks| - 1], parent), subtasks[|subtasks| - 1];
      if last.parentTaskId == parent && last.order >= order then last.order + 1 else order
  }

  function DoCreateSubtask(d: Snapshot, r: Rule, a: RuleAction, e: Event, now: nat): Effect {
    var name := Param(a, "name");
    if name == "" || e.task.None? then Unchanged(d)
    else
      var s := Subtask(NextId(SubtaskIds(d.subtasks)), e.taskId, name, NextOrder(d.subtasks, e.taskId));
      Effect(d.(subtasks := d.subtasks + [s],
                audit := Audited(d.audit, "rule:" + r.name, "subtask.created", Some(e.taskId), now)), [], [])
  }

  function DoPostComment(d: Snapshot, r: Rule, a: RuleAction, e: Event): Effect {
    var text := Param(a, "text");
    if text == "" || e.taskId == 0 then Unchanged(d)
    else
      var c := TaskComment(NextId(CommentIds(d.taskComments)), e.taskId, "rule:" + r.name, text);
      Effect(d.(taskComments := d.taskComments + [c]), [], [])
  }

  function ApplyAction(d: Snapshot, r: Rule, a: RuleAction, e: Event, now: nat): Effect {
    match a.kind
    case AssignTo => DoAssignTo(d, r, a, e, now)
    case SetStatus => DoSetStatus(d, r, a, e, now)
    case SetDueOffset => DoSetDueOffset(d, r, a, e, now)
    case AddTag => DoAddTag(d, r, a, e, now)
    case CreateSubtask => DoCreateSubtask(d, r, a, e, now)
    case PostComment => DoPostComment(d, r, a, e)
    case _ => Unchanged(d)
  }

  // ----- the rounds -----

  function Then(first: Effect, second: Effect): Effect {
    Effect(second.doc, first.events + second.events, first.notices + second.notices)
  }

  /** The first `n` actions of a rule. */
  function ApplyActions(d: Snapshot, r: Rule, e: Event, now: nat, n: nat): Effect
    requires n <= |r.actions|
  {
    if n == 0 then Unchanged(d)
    else
      var before := ApplyActions(d, r, e, now, n - 1);
      Then(before, ApplyAction(before.doc, r, r.actions[n - 1], e, now))
  }

  function Notices(r: Rule, e: Event, n: nat): seq<Notice>
    requires n <= |r.actions|
  {
    if n == 0 then []
    else Notices(r, e, n - 1) + if r.actions[n - 1].kind == Notify then [Notice(r, r.actions[n - 1], e)] else []
  }

  function RunRule(d: Snapshot, r: Rule, e: Event, now: nat): Effect {
    if Fires(r, e, d.tasks) then
      var done := ApplyActions(d, r, e, now, |r.actions|);
      done.(notices := Notices(r, e, |r.actions|))
    else Unchanged(d)
  }

  /** The first `n` rules on one event. */
  function RunRules(d: Snapshot, rules: seq<Rule>, e: Event, now: nat, n: nat): Effect
    requires n <= |rules|
  {
    if n == 0 then Unchanged(d)
    else
      var before := RunRules(d, rules, e, now, n - 1);
      Then(before, RunRule(before.doc, rules[n - 1], e, now))
  }

  /** The first `n` events of a round. */
  function RunRound(d: Snapshot, rules: seq<Rule>, events: seq<Event>, now: nat, n: nat): Effect
    requires n <= |events|
  {
    if n == 0 then Unchanged(d)
    else
      var before := RunRound(d, rules, events, now, n - 1);
      Then(before, RunRules(before.doc, rules, events[n - 1], now, |rules|))
  }

  /** `rounds` lists the events of every round; the last is what no rule has examined. */
  datatype Outcome = Outcome(doc: Snapshot, rounds: seq<seq<Event>>, notices: seq<Notice>)

  function RunRounds(d: Snapshot, events: seq<Event>, now: nat, depth: nat): (o: Outcome)
    ensures 1 <= |o.rounds| <= depth + 1
    ensures |o.rounds| <= depth ==> o.rounds[|o.rounds| - 1] == []
    ensures o.rounds[0] == events
    decreases depth
  {
    if depth == 0 || events == [] then Outcome(d, [events], [])
    else
      var round := RunRound(d, d.rules, events, now, |events|);
      var rest := RunRounds(round.doc, round.events, now, depth - 1);
      Outcome(rest.doc, [events] + rest.rounds, round.notices + rest.notices)
  }

  function DiffAndRun(prev: Snapshot, d: Snapshot, now: nat): Outcome {
    RunRounds(d, if d.rules == [] then [] else DiffEvents(prev, d), now, MAX_DEPTH)
  }
}
