/** When a rule acts and what it does, in terms of tasks, names and values. */
module RuleMeaning {
  import opened Dates
  import opened Ids
  import opened Integers
  import opened Models
  import opened RuleEngine
  import opened Slices
  import opened Wrappers
  import StringIds
  import Text

  // ----- conditions -----

  /** What a condition can ask of a task. */
  datatype Attribute = Status | Priority | ProjectOf | Assignee | Kind | Done | Tags {
    function Name(): string {
      match this
      case Status => "task.status"
      case Priority => "task.priority"
      case ProjectOf => "task.project"
      case Assignee => "task.assignee"
      case Kind => "task.type"
      case Done => "task.done"
      case Tags => "task.tags"
    }

    /** An unset type reads as `task`, flags as words, and tags with commas between them. */
    function Of(t: Task): string {
      match this
      case Status => t.status
      case Priority => t.priority
      case ProjectOf => t.project
      case Assignee => t.assignee
      case Kind => if t.kind == "" then "task" else t.kind
      case Done => if t.done then "true" else "false"
      case Tags => Text.Join(t.tags, ",")
    }
  }

  /** How a value stands to a wanted one: equal, different, containing it in any case, or one of several. */
  ghost predicate Stands(op: Op, got: string, want: string) {
    var g, w := Text.Trim(got), Text.Trim(want);
    match op
    case Eq => g == w
    case Ne => g != w
    case Contains => exists i: nat :: Text.OccursFoldAt(g, w, i)
    case In => exists piece: string, i: nat, j: nat :: Text.PieceAt(w, ',', piece, i, j) && Text.Trim(piece) == g
    case OtherOp => false
  }

  /** The condition names an attribute, and that stands to its value as the operator says. */
  ghost predicate Met(c: RuleCondition, t: Task) {
    exists a: Attribute :: Text.Trim(c.field) == a.Name() && Stands(c.op, a.Of(t), c.value)
  }

  lemma OperatorMeans(op: Op, got: string, want: string)
    ensures ApplyOp(op, got, want) <==> Stands(op, got, want)
  {
    var g, w := Text.Trim(got), Text.Trim(want);
    match op
    case Contains => Text.ContainsFold(g, w);
    case In =>
      forall piece ensures piece in Text.Split(w, ',') <==> exists i: nat, j: nat :: Text.PieceAt(w, ',', piece, i, j) {
        Text.SplitMeans(w, ',', piece);
      }
    case _ =>
  }

  lemma NamesDiffer(a: Attribute, b: Attribute)
    requires a.Name() == b.Name()
    ensures a == b
  {
    var n := a.Name();
    assert Kind.Name()[6] == 'y' && Tags.Name()[6] == 'a' && Done.Name()[5] == 'd';
    assert Priority.Name()[5] == 'p' && Assignee.Name()[5] == 'a';
  }

  lemma NoNameNoField(field: string, e: Event, tasks: seq<Task>, i: nat)
    requires e.task == Some(i) && i < |tasks| && forall a: Attribute :: Text.Trim(field) != a.Name()
    ensures ResolveField(field, e, tasks) == None
  {
    var name := Text.Trim(field);
    assert name != Status.Name() && name != Priority.Name() && name != ProjectOf.Name() && name != Assignee.Name();
    assert name != Kind.Name() && name != Done.Name() && name != Tags.Name();
  }

  lemma NameResolves(field: string, e: Event, tasks: seq<Task>, i: nat, a: Attribute)
    requires e.task == Some(i) && i < |tasks| && Text.Trim(field) == a.Name()
    ensures ResolveField(field, e, tasks) == Some(a.Of(tasks[i]))
  {
    var name := Text.Trim(field);
    if name == Status.Name() {
      NamesDiffer(a, Status);
    } else if name == Priority.Name() {
      NamesDiffer(a, Priority);
    } else if name == ProjectOf.Name() {
      NamesDiffer(a, ProjectOf);
    } else if name == Assignee.Name() {
      NamesDiffer(a, Assignee);
    } else if name == Kind.Name() {
      NamesDiffer(a, Kind);
    } else if name == Done.Name() {
      NamesDiffer(a, Done);
    } else {
      NamesDiffer(a, Tags);
    }
  }

  lemma ConditionMeans(c: RuleCondition, e: Event, tasks: seq<Task>, i: nat)
    requires e.task == Some(i) && i < |tasks|
    ensures MatchConditions([c], e, tasks) <==> Met(c, tasks[i])
  {
    assert c in [c];
    if a: Attribute :| Text.Trim(c.field) == a.Name() {
      NameResolves(c.field, e, tasks, i, a);
      OperatorMeans(c.op, a.Of(tasks[i]), c.value);
      forall b: Attribute | Text.Trim(c.field) == b.Name() ensures a == b {
        NamesDiffer(a, b);
      }
    } else {
      NoNameNoField(c.field, e, tasks, i);
    }
  }

  /** A rule fires on a task's event if and only if it is on, waits for such events, and all its conditions are met. */
  lemma FiresExactly(r: Rule, e: Event, tasks: seq<Task>, i: nat)
    requires e.task == Some(i) && i < |tasks|
    ensures Fires(r, e, tasks) <==> r.enabled && r.trigger == e.kind && forall c | c in r.conditions :: Met(c, tasks[i])
  {
    forall c | c in r.conditions ensures MatchConditions([c], e, tasks) <==> Met(c, tasks[i]) {
      ConditionMeans(c, e, tasks, i);
    }
    assert MatchConditions(r.conditions, e, tasks) <==>
      forall c | c in r.conditions :: MatchConditions([c], e, tasks) by {
      forall c | c in r.conditions ensures c in [c] {
      }
    }
  }

  // ----- one rule, one event -----

  /** The event is about the task at a position. */
  ghost predicate About(d: Snapshot, e: Event, i: nat) {
    UniqueTaskIds(d) && i < |d.tasks| && e.task == Some(i) && e.taskId == d.tasks[i].id
  }

  /** The change raises one event, about the task at a position. */
  ghost predicate OneEvent(prev: Snapshot, d: Snapshot, e: Event, i: nat) {
    About(d, e, i) && DiffEvents(prev, d) == [e]
  }

  ghost predicate Acts(r: Rule, e: Event, t: Task) {
    r.enabled && r.trigger == e.kind && forall c | c in r.conditions :: Met(c, t)
  }

  lemma FirstRound(d: Snapshot, e: Event, i: nat, r: Rule, a: RuleAction, now: nat)
    requires i < |d.tasks| && e.task == Some(i) && r.actions == [a]
    ensures var round := RunRound(d, [r], [e], now, 1);
            if Acts(r, e, d.tasks[i]) then
              round.doc == ApplyAction(d, r, a, e, now).doc && round.events == ApplyAction(d, r, a, e, now).events
              && round.notices == if a.kind.Notify? then [Notice(r, a, e)] else []
            else round == Unchanged(d)
  {
    FiresExactly(r, e, d.tasks, i);
    assert RunRound(d, [r], [e], now, 0) == Unchanged(d);
    assert RunRules(d, [r], e, now, 0) == Unchanged(d);
    assert ApplyActions(d, r, e, now, 0) == Unchanged(d);
    assert Notices(r, e, 0) == [];
    var once := RunRule(d, r, e, now);
    assert RunRules(d, [r], e, now, 1) == Then(Unchanged(d), once);
    assert RunRound(d, [r], [e], now, 1) == Then(Unchanged(d), RunRules(d, [r], e, now, 1));
  }

  predicate Cascading(a: RuleAction) {
    a.kind.AssignTo? || a.kind.SetStatus?
  }

  /** The follow-up of a cascading action is about the same task, and doing it again changes nothing. */
  lemma AgainNothing(d: Snapshot, e: Event, i: nat, r: Rule, a: RuleAction, now: nat)
    requires About(d, e, i)
    ensures var once := ApplyAction(d, r, a, e, now);
            && (!Cascading(a) ==> once.events == [])
            && |once.events| <= 1
            && once.doc.rules == d.rules && |once.doc.tasks| == |d.tasks|
            && (once.events != [] ==>
                  var next := once.events[0];
                  && next.task == Some(i) && next.taskId == d.tasks[i].id
                  && ApplyAction(once.doc, r, a, next, now) == Unchanged(once.doc))
  {
    FindUnique(d.tasks, i);
    if Cascading(a) && ApplyAction(d, r, a, e, now).events != [] {
      var d' := ApplyAction(d, r, a, e, now).doc;
      assert TaskIds(d'.tasks) == TaskIds(d.tasks);
      FindUnique(d'.tasks, i);
    }
  }

  lemma NoEventsNoRounds(d: Snapshot, now: nat, depth: nat)
    ensures RunRounds(d, [], now, depth) == Outcome(d, [[]], [])
  {
  }

  lemma RoundsGoOn(d: Snapshot, events: seq<Event>, now: nat, depth: nat, round: Effect)
    requires depth > 0 && events != [] && round == RunRound(d, d.rules, events, now, |events|)
    ensures var o, rest := RunRounds(d, events, now, depth), RunRounds(round.doc, round.events, now, depth - 1);
            o.doc == rest.doc && o.notices == round.notices + rest.notices
  {
  }

  /** A second round of the same rule on its own follow-up changes nothing more. */
  lemma SecondRound(d: Snapshot, e: Event, i: nat, r: Rule, a: RuleAction, now: nat, depth: nat)
    requires depth > 0 && i < |d.tasks| && e.task == Some(i) && r.actions == [a] && d.rules == [r] && !a.kind.Notify?
    requires ApplyAction(d, r, a, e, now) == Unchanged(d)
    ensures RunRounds(d, [e], now, depth).doc == d && RunRounds(d, [e], now, depth).notices == []
  {
    FirstRound(d, e, i, r, a, now);
    var round := RunRound(d, [r], [e], now, 1);
    RoundsGoOn(d, [e], now, depth, round);
    NoEventsNoRounds(d, now, depth - 1);
  }

  /** What a run of one rule with one action comes to: the action and nothing else if the rule acts, or nothing. */
  ghost predicate Comes(o: Outcome, d: Snapshot, e: Event, i: nat, r: Rule, a: RuleAction, now: nat)
    requires i < |d.tasks|
  {
    if Acts(r, e, d.tasks[i]) then
      o.doc == ApplyAction(d, r, a, e, now).doc && o.notices == if a.kind.Notify? then [Notice(r, a, e)] else []
    else o.doc == d && o.notices == []
  }

  /** Rounds go on as `round` says, and what follows keeps the document and notifies nobody. */
  lemma LastRound(d: Snapshot, e: Event, now: nat, depth: nat, round: Effect)
    requires depth > 0 && round == RunRound(d, d.rules, [e], now, 1)
    requires var rest := RunRounds(round.doc, round.events, now, depth - 1);
             rest.doc == round.doc && rest.notices == []
    ensures RunRounds(d, [e], now, depth).doc == round.doc && RunRounds(d, [e], now, depth).notices == round.notices
  {
    RoundsGoOn(d, [e], now, depth, round);
  }

  /** The follow-up of a rule's only action comes to nothing. */
  lemma FollowUp(d: Snapshot, e: Event, i: nat, r: Rule, a: RuleAction, now: nat, depth: nat, once: Effect)
    requires depth > 0 && About(d, e, i)
    requires d.rules == [r] && r.actions == [a] && once == ApplyAction(d, r, a, e, now)
    ensures var rest := RunRounds(once.doc, once.events, now, depth); rest.doc == once.doc && rest.notices == []
  {
    AgainNothing(d, e, i, r, a, now);
    if once.events == [] {
      NoEventsNoRounds(once.doc, now, depth);
    } else {
      assert once.events == [once.events[0]];
      SecondRound(once.doc, once.events[0], i, r, a, now, depth);
    }
  }

  lemma Rounds(d: Snapshot, e: Event, i: nat, r: Rule, a: RuleAction, now: nat, depth: nat)
    requires depth > 0 && About(d, e, i)
    requires d.rules == [r] && r.actions == [a]
    ensures Comes(RunRounds(d, [e], now, depth + 1), d, e, i, r, a, now)
  {
    var round := RunRound(d, [r], [e], now, 1);
    FirstRound(d, e, i, r, a, now);
    if Acts(r, e, d.tasks[i]) {
      FollowUp(d, e, i, r, a, now, depth, ApplyAction(d, r, a, e, now));
    } else {
      NoEventsNoRounds(d, now, depth);
    }
    LastRound(d, e, now, depth + 1, round);
  }

  lemma OneRule(prev: Snapshot, d: Snapshot, now: nat, e: Event, i: nat, r: Rule, a: RuleAction)
    requires OneEvent(prev, d, e, i) && d.rules == [r] && r.actions == [a]
    ensures Comes(DiffAndRun(prev, d, now), d, e, i, r, a, now)
  {
    Rounds(d, e, i, r, a, now, MAX_DEPTH - 1);
  }

  // ----- what each action does -----

  /** The action's parameter, without white space around it. */
  predicate Given(a: RuleAction, key: string, value: string) {
    key in a.params && Text.Trim(a.params[key]) == value
  }

  /** The task becomes `to`, with an audit entry in the rule's name, if the rule acts; nothing happens if not. */
  ghost predicate Becomes(o: Outcome, d: Snapshot, i: nat, to: Task, r: Rule, what: string, now: nat, acts: bool)
    requires i < |d.tasks|
  {
    && o.notices == []
    && o.doc
       == if acts then
            d.(tasks := d.tasks[i := to], audit := Audited(d.audit, "rule:" + r.name, what, Some(d.tasks[i].id), now))
          else d
  }

  lemma TagComes(o: Outcome, d: Snapshot, e: Event, i: nat, r: Rule, a: RuleAction, now: nat, tag: string)
    requires About(d, e, i) && Comes(o, d, e, i, r, a, now)
    requires a.kind.AddTag? && Given(a, "tag", tag) && tag != ""
    ensures var t := d.tasks[i];
            Becomes(o, d, i, t.(tags := t.tags + [tag]), r, "task.tag_added", now, Acts(r, e, t) && tag !in t.tags)
  {
    FindUnique(d.tasks, i);
  }

  /** A new tag is added if and only if the rule acts. */
  lemma TagRule(prev: Snapshot, d: Snapshot, now: nat, e: Event, i: nat, r: Rule, a: RuleAction, tag: string)
    requires OneEvent(prev, d, e, i) && d.rules == [r] && r.actions == [a]
    requires a.kind.AddTag? && Given(a, "tag", tag) && tag != ""
    ensures var o, t := DiffAndRun(prev, d, now), d.tasks[i];
            Becomes(o, d, i, t.(tags := t.tags + [tag]), r, "task.tag_added", now, Acts(r, e, t) && tag !in t.tags)
  {
    OneRule(prev, d, now, e, i, r, a);
    TagComes(DiffAndRun(prev, d, now), d, e, i, r, a, now, tag);
  }

  lemma AssignComes(o: Outcome, d: Snapshot, e: Event, i: nat, r: Rule, a: RuleAction, now: nat, to: string)
    requires About(d, e, i) && Comes(o, d, e, i, r, a, now)
    requires a.kind.AssignTo? && Given(a, "to", to) && to != ""
    ensures var t := d.tasks[i];
            Becomes(o, d, i, t.(assignee := to), r, "task.assigned", now, Acts(r, e, t) && t.assignee != to)
  {
    FindUnique(d.tasks, i);
  }

  lemma AssignRule(prev: Snapshot, d: Snapshot, now: nat, e: Event, i: nat, r: Rule, a: RuleAction, to: string)
    requires OneEvent(prev, d, e, i) && d.rules == [r] && r.actions == [a]
    requires a.kind.AssignTo? && Given(a, "to", to) && to != ""
    ensures var o, t := DiffAndRun(prev, d, now), d.tasks[i];
            Becomes(o, d, i, t.(assignee := to), r, "task.assigned", now, Acts(r, e, t) && t.assignee != to)
  {
    OneRule(prev, d, now, e, i, r, a);
    AssignComes(DiffAndRun(prev, d, now), d, e, i, r, a, now, to);
  }

  /** A status that is set for the first time turns `done` on if it is the completed one. */
  function WithStatus(t: Task, status: string): Task {
    t.(status := status, done := if status == "completed" then true else t.done)
  }

  lemma StatusComes(o: Outcome, d: Snapshot, e: Event, i: nat, r: Rule, a: RuleAction, now: nat, status: string)
    requires About(d, e, i) && Comes(o, d, e, i, r, a, now)
    requires a.kind.SetStatus? && Given(a, "status", status) && status != ""
    ensures var t := d.tasks[i];
            var acts := Acts(r, e, t) && t.status != status;
            Becomes(o, d, i, WithStatus(t, status), r, "task.status_changed", now, acts)
  {
    FindUnique(d.tasks, i);
  }

  lemma StatusRule(prev: Snapshot, d: Snapshot, now: nat, e: Event, i: nat, r: Rule, a: RuleAction, status: string)
    requires OneEvent(prev, d, e, i) && d.rules == [r] && r.actions == [a]
    requires a.kind.SetStatus? && Given(a, "status", status) && status != ""
    ensures var o, t := DiffAndRun(prev, d, now), d.tasks[i];
            var acts := Acts(r, e, t) && t.status != status;
            Becomes(o, d, i, WithStatus(t, status), r, "task.status_changed", now, acts)
  {
    OneRule(prev, d, now, e, i, r, a);
    StatusComes(DiffAndRun(prev, d, now), d, e, i, r, a, now, status);
  }

  lemma {:induction false} DigitsWrap(s: string)
    requires Text.IsDigits(s)
    ensures DigitsValue(s) == Wrap(StringIds.Value(s))
  {
    if s == "" {
      WrapUnique(0, 0, 0);
    } else {
      var init, last := s[..|s| - 1], (s[|s| - 1] - '0') as int;
      DigitsWrap(init);
      var k := WrapTakes(StringIds.Value(init));
      var m := WrapTakes(DigitsValue(init) * 10 + last);
      WrapUnique(StringIds.Value(init) * 10 + last, 10 * k + m, DigitsValue(s));
    }
  }

  lemma NegativeValue(digits: string, n: Int64)
    requires Text.IsDigits(digits) && n < 0 && StringIds.Value(digits) == -(n as int)
    ensures var value: int := DigitsValue(digits); Wrap(-value) == n
  {
    DigitsWrap(digits);
    var k := WrapTakes(-(n as int));
    var value: int := DigitsValue(digits);
    WrapUnique(-value, k, n);
  }

  lemma MinusDigits(digits: string)
    requires Text.IsDigits(digits) && digits != ""
    ensures var value: int := DigitsValue(digits); ParseInt("-" + digits) == Some(Wrap(-value))
  {
    assert ("-" + digits)[1..] == digits;
  }

  /** A printed integer is read back. */
  lemma ParseMeans(n: Int64)
    ensures ParseInt(StringIds.FormatInt(n)) == Some(n)
  {
    var value: int := n;
    if value >= 0 {
      var digits := StringIds.Digits(value);
      assert Text.IsDigit(digits[0]);
      DigitsWrap(digits);
      WrapUnique(value, 0, value);
    } else {
      var digits := StringIds.Digits(-value);
      MinusDigits(digits);
      NegativeValue(digits, n);
    }
  }

  /** Where a task's due date is counted from: itself, or now if it is not a date. */
  function DueBase(t: Task, now: nat): int {
    match Parse(t.due)
    case Some(at) => at
    case None => now
  }

  lemma DueComes(o: Outcome, d: Snapshot, e: Event, i: nat, r: Rule, a: RuleAction, now: nat, days: Int64)
    requires About(d, e, i) && Comes(o, d, e, i, r, a, now)
    requires a.kind.SetDueOffset? && ParseInt(Param(a, "days")) == Some(days)
    ensures var t := d.tasks[i];
            var due := FormatDate(AddDays(DueBase(t, now), days));
            Becomes(o, d, i, t.(due := due), r, "task.due_set", now, Acts(r, e, t))
  {
    FindUnique(d.tasks, i);
  }

  /** The due date becomes the date so many days on from where it is counted from. */
  lemma DueRule(prev: Snapshot, d: Snapshot, now: nat, e: Event, i: nat, r: Rule, a: RuleAction, days: Int64)
    requires OneEvent(prev, d, e, i) && d.rules == [r] && r.actions == [a]
    requires a.kind.SetDueOffset? && Given(a, "days", StringIds.FormatInt(days))
    ensures var o, t := DiffAndRun(prev, d, now), d.tasks[i];
            var due := FormatDate(AddDays(DueBase(t, now), days));
            Becomes(o, d, i, t.(due := due), r, "task.due_set", now, Acts(r, e, t))
  {
    OneRule(prev, d, now, e, i, r, a);
    ParseMeans(days);
    DueComes(DiffAndRun(prev, d, now), d, e, i, r, a, now, days);
  }

  /** A parameter that is no number moves nothing. */
  lemma NoNumberNoDue(d: Snapshot, r: Rule, a: RuleAction, e: Event, now: nat)
    requires a.kind.SetDueOffset? && "days" in a.params
    requires exists k :: 1 <= k < |Text.Trim(a.params["days"])| && !Text.IsDigit(Text.Trim(a.params["days"])[k])
    ensures ApplyAction(d, r, a, e, now) == Unchanged(d)
  {
  }

  lemma DayAfter(at: int, days: int)
    ensures (at + days * TICKS_PER_DAY) / TICKS_PER_DAY == at / TICKS_PER_DAY + days
    ensures days * SECONDS_PER_DAY * TICKS_PER_SECOND == days * TICKS_PER_DAY
  {
  }

  /** So many days on, while the calendar lasts. */
  lemma DaysLater(at: Instant, days: Int64)
    requires 0 <= at / TICKS_PER_DAY + days < CALENDAR_DAYS
    ensures FormatDate(AddDays(at, days)) == DateOnly(at / TICKS_PER_DAY + days)
  {
    ShiftedDate(at, days * SECONDS_PER_DAY);
    WrapUnique(days * SECONDS_PER_DAY, 0, days * SECONDS_PER_DAY);
    DayAfter(at, days);
  }

  /** The place after the last: past every order in use among the parent's subtasks. */
  lemma {:induction false} OrderIsNext(subtasks: seq<Subtask>, parent: Int64)
    ensures var order := NextOrder(subtasks, parent);
            && order >= 0 && (forall s | s in subtasks && s.parentTaskId == parent :: s.order < order)
            && (order == 0 || exists s | s in subtasks :: s.parentTaskId == parent && s.order == order - 1)
  {
    if subtasks != [] {
      var init, last := subtasks[..|subtasks| - 1], subtasks[|subtasks| - 1];
      OrderIsNext(init, parent);
      assert subtasks == init + [last];
      assert last in subtasks;
    }
  }

  /** The parent gets a subtask with the name, last in order, if the rule acts; identifiers are new by `NextIdFresh`. */
  ghost predicate Parented(o: Outcome, d: Snapshot, id: Int64, name: string, r: Rule, now: nat, acts: bool) {
    && o.notices == []
    && (!acts ==> o.doc == d)
    && (acts ==>
          exists order: int ::
            && o.doc == d.(subtasks := d.subtasks + [Subtask(NextId(SubtaskIds(d.subtasks)), id, name, order)],
                           audit := Audited(d.audit, "rule:" + r.name, "subtask.created", Some(id), now))
            && order >= 0 && forall s | s in d.subtasks && s.parentTaskId == id :: s.order < order)
  }

  lemma SubtaskComes(o: Outcome, d: Snapshot, e: Event, i: nat, r: Rule, a: RuleAction, now: nat, name: string)
    requires About(d, e, i) && Comes(o, d, e, i, r, a, now)
    requires a.kind.CreateSubtask? && Given(a, "name", name) && name != ""
    ensures Parented(o, d, d.tasks[i].id, name, r, now, Acts(r, e, d.tasks[i]))
  {
    var id := d.tasks[i].id;
    OrderIsNext(d.subtasks, id);
    var order := NextOrder(d.subtasks, id);
    if Acts(r, e, d.tasks[i]) {
      assert o.doc == d.(subtasks := d.subtasks + [Subtask(NextId(SubtaskIds(d.subtasks)), id, name, order)],
                         audit := Audited(d.audit, "rule:" + r.name, "subtask.created", Some(id), now));
    }
  }

  lemma SubtaskRule(prev: Snapshot, d: Snapshot, now: nat, e: Event, i: nat, r: Rule, a: RuleAction, name: string)
    requires OneEvent(prev, d, e, i) && d.rules == [r] && r.actions == [a]
    requires a.kind.CreateSubtask? && Given(a, "name", name) && name != ""
    ensures Parented(DiffAndRun(prev, d, now), d, d.tasks[i].id, name, r, now, Acts(r, e, d.tasks[i]))
  {
    OneRule(prev, d, now, e, i, r, a);
    SubtaskComes(DiffAndRun(prev, d, now), d, e, i, r, a, now, name);
  }

  /** The task gets a comment in the rule's name, without an audit entry, if the rule acts. */
  ghost predicate Commented(o: Outcome, d: Snapshot, id: Int64, text: string, r: Rule, acts: bool) {
    var c := TaskComment(NextId(CommentIds(d.taskComments)), id, "rule:" + r.name, text);
    o.notices == [] && o.doc == if acts then d.(taskComments := d.taskComments + [c]) else d
  }

  lemma CommentComes(o: Outcome, d: Snapshot, e: Event, i: nat, r: Rule, a: RuleAction, now: nat, text: string)
    requires About(d, e, i) && Comes(o, d, e, i, r, a, now)
    requires a.kind.PostComment? && Given(a, "text", text) && text != ""
    ensures Commented(o, d, d.tasks[i].id, text, r, Acts(r, e, d.tasks[i]) && d.tasks[i].id != 0)
  {
  }

  lemma CommentRule(prev: Snapshot, d: Snapshot, now: nat, e: Event, i: nat, r: Rule, a: RuleAction, text: string)
    requires OneEvent(prev, d, e, i) && d.rules == [r] && r.actions == [a]
    requires a.kind.PostComment? && Given(a, "text", text) && text != ""
    ensures Commented(DiffAndRun(prev, d, now), d, d.tasks[i].id, text, r, Acts(r, e, d.tasks[i]) && d.tasks[i].id != 0)
  {
    OneRule(prev, d, now, e, i, r, a);
    CommentComes(DiffAndRun(prev, d, now), d, e, i, r, a, now, text);
  }

  /** A notification is asked for, and nothing is changed, if the rule acts. */
  ghost predicate Notified(o: Outcome, d: Snapshot, notice: Notice, acts: bool) {
    o.doc == d && o.notices == if acts then [notice] else []
  }

  lemma NotifyRule(prev: Snapshot, d: Snapshot, now: nat, e: Event, i: nat, r: Rule, a: RuleAction)
    requires OneEvent(prev, d, e, i) && d.rules == [r] && r.actions == [a] && a.kind.Notify?
    ensures Notified(DiffAndRun(prev, d, now), d, Notice(r, a, e), Acts(r, e, d.tasks[i]))
  {
    OneRule(prev, d, now, e, i, r, a);
    NotifyComes(DiffAndRun(prev, d, now), d, e, i, r, a, now);
  }

  lemma NotifyComes(o: Outcome, d: Snapshot, e: Event, i: nat, r: Rule, a: RuleAction, now: nat)
    requires About(d, e, i) && Comes(o, d, e, i, r, a, now) && a.kind.Notify?
    ensures Notified(o, d, Notice(r, a, e), Acts(r, e, d.tasks[i]))
  {
  }

  /** An event without a task meets no condition. */
  lemma NoTaskNoCondition(d: Snapshot, r: Rule, e: Event, now: nat)
    requires e.task.None? && r.conditions != []
    ensures RunRule(d, r, e, now) == Unchanged(d)
  {
    assert r.conditions[0] in r.conditions;
  }

  // ----- what raises one event -----

  lemma SameIdSameTask(tasks: seq<Task>, i: nat, t: Task)
    requires NoDup(TaskIds(tasks)) && i < |tasks| && t in tasks && t.id == tasks[i].id
    ensures t == tasks[i]
  {
    var j :| 0 <= j < |tasks| && tasks[j] == t;
    var ids := TaskIds(tasks);
    assert ids[j] == ids[i];
  }

  lemma LastUnique(tasks: seq<Task>, i: nat)
    requires NoDup(TaskIds(tasks)) && i < |tasks|
    ensures LastTask(tasks, tasks[i].id) == Some(tasks[i])
  {
    var last := LastTask(tasks, tasks[i].id);
    assert tasks[i] in tasks;
    SameIdSameTask(tasks, i, last.value);
  }

  /** A task no event is raised for. */
  ghost predicate Quiet(prev: seq<Task>, t: Task) {
    LastTask(prev, t.id).Some?
    && LastTask(prev, t.id).value.status == t.status && LastTask(prev, t.id).value.assignee == t.assignee
  }

  lemma UnchangedIsQuiet(prev: seq<Task>, j: nat)
    requires NoDup(TaskIds(prev)) && j < |prev|
    ensures Quiet(prev, prev[j])
  {
    LastUnique(prev, j);
  }

  lemma QuietDiff(prev: seq<Task>, t: Task, j: nat)
    requires Quiet(prev, t)
    ensures TaskDiff(prev, t, j) == []
  {
  }

  lemma LastDiff(prev: seq<Task>, tasks: seq<Task>, n: nat)
    requires 0 < n <= |tasks|
    ensures TasksDiff(prev, tasks, n) == TasksDiff(prev, tasks, n - 1) + TaskDiff(prev, tasks[n - 1], n - 1)
  {
  }

  lemma {:induction false} OneTaskDiff(prev: seq<Task>, tasks: seq<Task>, i: nat, n: nat)
    requires n <= |tasks| && i < |tasks| && forall j | 0 <= j < n && j != i :: Quiet(prev, tasks[j])
    ensures TasksDiff(prev, tasks, n) == if i < n then TaskDiff(prev, tasks[i], i) else []
  {
    if n > 0 {
      OneTaskDiff(prev, tasks, i, n - 1);
      LastDiff(prev, tasks, n);
      if n - 1 != i {
        QuietDiff(prev, tasks[n - 1], n - 1);
      }
    }
  }

  lemma NoTaskDiff(prev: seq<Task>, tasks: seq<Task>)
    requires forall t | t in tasks :: Quiet(prev, t)
    ensures TasksDiff(prev, tasks, |tasks|) == []
  {
    if tasks != [] {
      OneTaskDiff(prev, tasks, 0, |tasks|);
      QuietDiff(prev, tasks[0], 0);
    }
  }

  lemma {:induction false} NoCommentDiff(comments: seq<TaskComment>, prev: seq<TaskComment>, tasks: seq<Task>, n: nat)
    requires n <= |comments| && forall j | 0 <= j < n :: comments[j] in prev
    ensures CommentsDiff(prev, comments, tasks, n) == []
  {
    if n > 0 {
      NoCommentDiff(comments, prev, tasks, n - 1);
      var j :| 0 <= j < |prev| && prev[j] == comments[n - 1];
      assert CommentIds(prev)[j] == comments[n - 1].id;
    }
  }

  lemma {:induction false} NoEntityDiff(comments: seq<EntityComment>, n: nat)
    requires n <= |comments|
    ensures EntityCommentsDiff(comments, comments, n) == []
  {
    if n > 0 {
      NoEntityDiff(comments, n - 1);
      assert EntityCommentIds(comments)[n - 1] == comments[n - 1].id;
    }
  }

  lemma SameComments(prev: Snapshot, d: Snapshot)
    requires d.taskComments == prev.taskComments && d.entityComments == prev.entityComments
    ensures DiffEvents(prev, d) == TasksDiff(prev.tasks, d.tasks, |d.tasks|)
  {
    NoCommentDiff(d.taskComments, prev.taskComments, d.tasks, |d.taskComments|);
    NoEntityDiff(d.entityComments, |d.entityComments|);
  }

  /** One task of a document with distinct identifiers is written, and nothing else that raises events. */
  ghost predicate WritesTask(prev: Snapshot, d: Snapshot, i: nat, t: Task) {
    && UniqueTaskIds(prev) && i < |prev.tasks| && t.id == prev.tasks[i].id && d.tasks == prev.tasks[i := t]
    && d.taskComments == prev.taskComments && d.entityComments == prev.entityComments
  }

  /** A written task raises an event for its status and one for its assignee, if they differ. */
  lemma WriteRaises(prev: Snapshot, d: Snapshot, i: nat, t: Task)
    requires WritesTask(prev, d, i, t)
    ensures UniqueTaskIds(d)
    ensures DiffEvents(prev, d)
            == (if prev.tasks[i].status != t.status
                then [TaskEvent(StatusChanged, t.id, Some(prev.tasks[i]), i, t)] else [])
             + (if prev.tasks[i].assignee != t.assignee
                then [TaskEvent(AssigneeChanged, t.id, Some(prev.tasks[i]), i, t)] else [])
  {
    assert TaskIds(d.tasks) == TaskIds(prev.tasks);
    forall j | 0 <= j < |d.tasks| && j != i ensures Quiet(prev.tasks, d.tasks[j]) {
      UnchangedIsQuiet(prev.tasks, j);
    }
    LastUnique(prev.tasks, i);
    OneTaskDiff(prev.tasks, d.tasks, i, |d.tasks|);
    SameComments(prev, d);
  }

  lemma StatusRaises(prev: Snapshot, d: Snapshot, i: nat, t: Task)
    requires WritesTask(prev, d, i, t) && t.status != prev.tasks[i].status && t.assignee == prev.tasks[i].assignee
    ensures OneEvent(prev, d, TaskEvent(StatusChanged, t.id, Some(prev.tasks[i]), i, t), i)
  {
    WriteRaises(prev, d, i, t);
  }

  lemma AssigneeRaises(prev: Snapshot, d: Snapshot, i: nat, t: Task)
    requires WritesTask(prev, d, i, t) && t.status == prev.tasks[i].status && t.assignee != prev.tasks[i].assignee
    ensures OneEvent(prev, d, TaskEvent(AssigneeChanged, t.id, Some(prev.tasks[i]), i, t), i)
  {
    WriteRaises(prev, d, i, t);
  }

  lemma AppendedId(tasks: seq<Task>, t: Task)
    requires NoDup(TaskIds(tasks)) && t.id !in TaskIds(tasks)
    ensures NoDup(TaskIds(tasks + [t])) && LastTask(tasks, t.id) == None
  {
    assert TaskIds(tasks + [t]) == TaskIds(tasks) + [t.id];
    forall u | u in tasks ensures u.id != t.id {
      var j :| 0 <= j < |tasks| && tasks[j] == u;
      assert TaskIds(tasks)[j] == u.id;
    }
  }

  /** A task that is added with a new identifier raises an event of its creation. */
  lemma CreationRaises(prev: Snapshot, d: Snapshot, t: Task)
    requires UniqueTaskIds(prev) && t.id !in TaskIds(prev.tasks) && d.tasks == prev.tasks + [t]
    requires d.taskComments == prev.taskComments && d.entityComments == prev.entityComments
    ensures OneEvent(prev, d, TaskEvent(TaskCreated, t.id, None, |prev.tasks|, t), |prev.tasks|)
  {
    var i := |prev.tasks|;
    AppendedId(prev.tasks, t);
    forall j | 0 <= j < i ensures Quiet(prev.tasks, d.tasks[j]) {
      UnchangedIsQuiet(prev.tasks, j);
    }
    OneTaskDiff(prev.tasks, d.tasks, i, i + 1);
    SameComments(prev, d);
  }

  /** A comment that is added on a task with a new identifier raises an event about that task. */
  lemma CommentRaises(prev: Snapshot, d: Snapshot, i: nat, c: TaskComment)
    requires UniqueTaskIds(prev) && i < |prev.tasks| && c.taskId == prev.tasks[i].id && d.tasks == prev.tasks
    requires c.id !in CommentIds(prev.taskComments) && d.taskComments == prev.taskComments + [c]
    requires d.entityComments == prev.entityComments
    ensures OneEvent(prev, d, Event(CommentCreated, c.taskId, None, Some(i), Some(d.tasks[i]), Some(c), None), i)
  {
    forall t | t in d.tasks ensures Quiet(prev.tasks, t) {
      var j :| 0 <= j < |prev.tasks| && prev.tasks[j] == t;
      UnchangedIsQuiet(prev.tasks, j);
    }
    NoTaskDiff(prev.tasks, d.tasks);
    NoCommentDiff(d.taskComments, prev.taskComments, d.tasks, |prev.taskComments|);
    FindUnique(d.tasks, i);
    NoEntityDiff(d.entityComments, |d.entityComments|);
  }

  /**
   * A change of a task's status, and one rule that adds a new tag: the tag is on the task that
   * the run leaves if and only if the rule is on, waits for changes of status, and all its
   * conditions are met by the changed task.
   */
  lemma TaggedExactly(prev: Snapshot, d: Snapshot, now: nat, i: nat, t: Task, r: Rule, a: RuleAction, tag: string)
    requires WritesTask(prev, d, i, t) && t.status != prev.tasks[i].status && t.assignee == prev.tasks[i].assignee
    requires d.rules == [r] && r.actions == [a] && a.kind.AddTag? && Given(a, "tag", tag) && tag != ""
    requires tag !in t.tags
    ensures var o := DiffAndRun(prev, d, now);
            && |o.doc.tasks| == |d.tasks|
            && (tag in o.doc.tasks[i].tags <==>
                  r.enabled && r.trigger == StatusChanged && forall c | c in r.conditions :: Met(c, t))
  {
    StatusRaises(prev, d, i, t);
    TagRule(prev, d, now, TaskEvent(StatusChanged, t.id, Some(prev.tasks[i]), i, t), i, r, a, tag);
  }

  // ----- all events of a change -----

  /** An event of a task at a position: it is new, or differs in status or assignee from the old task of its name. */
  ghost predicate OfTask(prev: Snapshot, d: Snapshot, e: Event, i: nat)
    requires i < |d.tasks|
  {
    var t := d.tasks[i];
    || (t.id !in TaskIds(prev.tasks) && e == TaskEvent(TaskCreated, t.id, None, i, t))
    || exists was | was in prev.tasks ::
         was.id == t.id
         && ((was.status != t.status && e == TaskEvent(StatusChanged, t.id, Some(was), i, t))
             || (was.assignee != t.assignee && e == TaskEvent(AssigneeChanged, t.id, Some(was), i, t)))
  }

  /** An event of a new comment, which points at the first task with the identifier it names, if there is one. */
  ghost predicate OfComment(prev: Snapshot, d: Snapshot, e: Event, c: TaskComment) {
    && c.id !in CommentIds(prev.taskComments)
    && e.kind == CommentCreated && e.taskId == c.taskId && e.before == None && e.entityComment == None
    && e.comment == Some(c) && e.task == FindTask(d.tasks, c.taskId)
    && e.after == if e.task.Some? then Some(d.tasks[e.task.value]) else None
  }

  ghost predicate OfEntityComment(prev: Snapshot, e: Event, c: EntityComment) {
    c.id !in EntityCommentIds(prev.entityComments) && e == Event(CommentCreated, 0, None, None, None, None, Some(c))
  }

  lemma TaskDiffMeans(prev: Snapshot, d: Snapshot, e: Event, i: nat)
    requires UniqueTaskIds(prev) && i < |d.tasks|
    ensures e in TaskDiff(prev.tasks, d.tasks[i], i) <==> OfTask(prev, d, e, i)
  {
    var t := d.tasks[i];
    var ids := TaskIds(prev.tasks);
    forall was | was in prev.tasks ensures was.id in ids {
      var j :| 0 <= j < |prev.tasks| && prev.tasks[j] == was;
      assert ids[j] == was.id;
    }
    if t.id in ids {
      var j :| 0 <= j < |ids| && ids[j] == t.id;
      LastUnique(prev.tasks, j);
      forall was | was in prev.tasks && was.id == t.id ensures was == prev.tasks[j] {
        SameIdSameTask(prev.tasks, j, was);
      }
    }
  }

  lemma TasksDiffMeans(prev: Snapshot, d: Snapshot, e: Event)
    requires UniqueTaskIds(prev)
    ensures e in TasksDiff(prev.tasks, d.tasks, |d.tasks|) <==> exists i | 0 <= i < |d.tasks| :: OfTask(prev, d, e, i)
  {
    var whole := (n: nat) => if n <= |d.tasks| then TasksDiff(prev.tasks, d.tasks, n) else [];
    var part := (i: nat) => if i < |d.tasks| then TaskDiff(prev.tasks, d.tasks[i], i) else [];
    forall k: nat | k < |d.tasks| ensures whole(k + 1) == whole(k) + part(k) {
      LastDiff(prev.tasks, d.tasks, k + 1);
    }
    Collected(whole, part, |d.tasks|, e);
    forall i: nat | i < |d.tasks| ensures e in part(i) <==> OfTask(prev, d, e, i) {
      TaskDiffMeans(prev, d, e, i);
    }
  }

  lemma {:induction false} CommentsDiffMeans(prev: Snapshot, d: Snapshot, e: Event, n: nat)
    requires n <= |d.taskComments|
    ensures e in CommentsDiff(prev.taskComments, d.taskComments, d.tasks, n)
            <==> exists i | 0 <= i < n :: OfComment(prev, d, e, d.taskComments[i])
  {
    if n > 0 {
      CommentsDiffMeans(prev, d, e, n - 1);
    }
  }

  lemma {:induction false} EntityDiffMeans(prev: Snapshot, d: Snapshot, e: Event, n: nat)
    requires n <= |d.entityComments|
    ensures e in EntityCommentsDiff(prev.entityComments, d.entityComments, n)
            <==> exists i | 0 <= i < n :: OfEntityComment(prev, e, d.entityComments[i])
  {
    if n > 0 {
      EntityDiffMeans(prev, d, e, n - 1);
    }
  }

  /** A change raises exactly the events of its new tasks and comments, and of changed status and assignees. */
  lemma RaisedExactly(prev: Snapshot, d: Snapshot, e: Event)
    requires UniqueTaskIds(prev)
    ensures e in DiffEvents(prev, d)
            <==> || (exists i | 0 <= i < |d.tasks| :: OfTask(prev, d, e, i))
                 || (exists c | c in d.taskComments :: OfComment(prev, d, e, c))
                 || (exists c | c in d.entityComments :: OfEntityComment(prev, e, c))
  {
    TasksDiffMeans(prev, d, e);
    CommentsDiffMeans(prev, d, e, |d.taskComments|);
    EntityDiffMeans(prev, d, e, |d.entityComments|);
  }
}
