/** The recurrence job: one pass clones every due task forward and moves its cursor. */
module RecurrenceJob {
  import opened Dates
  import opened Ids
  import opened Integers
  import opened Models
  import opened Wrappers

  function OnlySpace(text: DateText): bool {
    text.Blank? || (text.Unparsed? && text.onlySpace)
  }

  /** The first date field with anything in it. */
  function FirstNonEmpty(a: DateText, b: DateText, c: DateText): DateText {
    if !OnlySpace(a) then a else if !OnlySpace(b) then b else if !OnlySpace(c) then c else Blank
  }

  function AnchorText(t: Task): DateText
    requires t.recurrence.Some?
  {
    var cursor := t.recurrence.value.nextDueAt;
    if cursor.Blank? then FirstNonEmpty(t.endDate, t.due, t.startDate) else cursor
  }

  function Anchor(t: Task): Option<Instant> {
    if t.recurrence.None? then None else Parse(AnchorText(t))
  }

  function Step(r: Recurrence): (n: Int64)
    ensures n >= 1 && (r.interval >= 1 ==> n == r.interval) && (r.interval <= 0 ==> n == 1)
  {
    if r.interval <= 0 then 1 else r.interval
  }

  /** Weeks are turned into days in 64 bits. */
  function AdvanceBy(at: int, pattern: Pattern, interval: Int64): Option<int>
    requires interval >= 1
  {
    match pattern
    case Daily => Some(AddDays(at, interval))
    case Weekly => Some(AddDays(at, Wrap(7 * interval)))
    case Monthly => Some(AddMonths(at, interval))
    case UnknownPattern => None
  }

  /** The advanced instant in the format of the text it replaces. */
  function FormatLikely(like: DateText, at: int): DateText {
    if like.Timestamp? || (like.Unparsed? && like.hasT) then FormatTimestamp(at) else FormatDate(at)
  }

  datatype Advance = NotDue | Ended | Next(clone: Task)

  /** What the job does with one task: nothing, end its chain, or materialize its next instance. */
  function AdvanceRecurrence(t: Task, now: nat): Advance {
    var anchor := Anchor(t);
    if anchor.None? || now < anchor.value then NotDue
    else
      var r := t.recurrence.value;
      var end := if r.endDate.Blank? then None else Parse(r.endDate);
      if end.Some? && anchor.value > end.value then Ended
      else
        match AdvanceBy(anchor.value, r.pattern, Step(r))
        case None => NotDue
        case Some(at) => Next(Clone(t, r, at))
  }

  function Clone(t: Task, r: Recurrence, at: int): Task
    requires t.recurrence == Some(r) && !r.pattern.UnknownPattern?
  {
    var cursor := AdvanceBy(at, r.pattern, Step(r)).value;
    t.(done := false, approvedBy := [], status := "on_track", deletedAt := "",
       due := FormatLikely(AnchorText(t), at),
       endDate := if t.endDate.Blank? then t.endDate else FormatLikely(t.endDate, at),
       startDate := if t.startDate.Blank? then t.startDate else FormatLikely(t.startDate, at),
       recurrence := Some(Recurrence(r.pattern, Step(r), r.endDate, FormatDate(cursor))))
  }

  function Visit(t: Task, now: nat): Advance {
    if t.recurrence.None? || t.deletedAt != "" then NotDue else AdvanceRecurrence(t, now)
  }

  /** The job would change the document because of this task. */
  predicate Active(t: Task, now: nat) {
    !Visit(t, now).NotDue?
  }

  function Cursor(t: Task): DateText {
    match t.recurrence
    case None => Blank
    case Some(r) => r.nextDueAt
  }

  /** What a visit leaves of the task. */
  function Leave(t: Task, outcome: Advance): Task {
    match (outcome, t.recurrence)
    case (Ended, _) => t.(recurrence := None)
    case (Next(clone), Some(r)) => t.(recurrence := Some(r.(nextDueAt := Cursor(clone))))
    case _ => t
  }

  function Visited(t: Task, now: nat): Task {
    Leave(t, Visit(t, now))
  }

  function CloneStep(d: Snapshot, i: nat, outcome: Advance, now: nat): (d': Snapshot)
    requires i < |d.tasks|
    ensures |d.tasks| <= |d'.tasks|
  {
    var tasks := d.tasks[i := Leave(d.tasks[i], outcome)];
    match outcome
    case Next(clone) =>
      var id := NextId(TaskIds(tasks));
      d.(tasks := tasks + [clone.(id := id)],
         audit := Audited(d.audit, "system", "task.recurrence.cloned", Some(id), now))
    case _ => d.(tasks := tasks)
  }

  /** The first `n` positions of a pass, whatever a visit decides. */
  function Steps(d: Snapshot, n: nat, visit: Task -> Advance, now: nat): (d': Snapshot)
    requires n <= |d.tasks|
    ensures |d.tasks| <= |d'.tasks|
  {
    if n == 0 then d
    else
      var before := Steps(d, n - 1, visit, now);
      CloneStep(before, n - 1, visit(before.tasks[n - 1]), now)
  }

  function VisitAt(now: nat): Task -> Advance {
    (t: Task) => Visit(t, now)
  }

  function Pass(d: Snapshot, now: nat): Snapshot {
    Steps(d, |d.tasks|, VisitAt(now), now)
  }

  function Passes(d: Snapshot, now: nat, n: nat): Snapshot {
    if n == 0 then d else Pass(Passes(d, now, n - 1), now)
  }

  /** The clones that the first `n` tasks call for, before they get identifiers. */
  function Clones(tasks: seq<Task>, n: nat, visit: Task -> Advance): (clones: seq<Task>)
    requires n <= |tasks|
    ensures |clones| <= n
  {
    if n == 0 then []
    else
      Clones(tasks, n - 1, visit)
      + match visit(tasks[n - 1])
        case Next(clone) => [clone]
        case _ => []
  }

  /** What a pass reports: whether it changed anything, and how many tasks it cloned and chains it ended. */
  datatype Tally = Tally(changed: bool, cloned: nat, ended: nat)

  function Add(t: Tally, outcome: Advance): Tally {
    match outcome
    case NotDue => t
    case Ended => Tally(true, t.cloned, t.ended + 1)
    case Next(_) => Tally(true, t.cloned + 1, t.ended)
  }

  function Tallied(tasks: seq<Task>, n: nat, visit: Task -> Advance): Tally
    requires n <= |tasks|
  {
    if n == 0 then Tally(false, 0, 0) else Add(Tallied(tasks, n - 1, visit), visit(tasks[n - 1]))
  }

  /** The report counts clones, and tells of a change exactly if some task is not left alone. */
  lemma {:induction false} TalliedMeans(tasks: seq<Task>, n: nat, visit: Task -> Advance)
    requires n <= |tasks|
    ensures var tally := Tallied(tasks, n, visit);
            && (tally.changed <==> exists t | t in tasks[..n] :: !visit(t).NotDue?)
            && tally.cloned == |Clones(tasks, n, visit)|
  {
    if n > 0 {
      TalliedMeans(tasks, n - 1, visit);
      assert tasks[..n] == tasks[..n - 1] + [tasks[n - 1]];
    }
  }

  predicate Busy(d: Snapshot, now: nat) {
    Tallied(d.tasks, |d.tasks|, VisitAt(now)).changed
  }

  // ----- the pass in place -----

  /** One iteration of the pass. */
  method VisitTask(d: Document, i: nat, now: nat) returns (outcome: Advance)
    requires i < |d.tasks|
    modifies d`tasks, d`audit
    ensures outcome == Visit(old(d.tasks)[i], now)
    ensures d.Value() == CloneStep(old(d.Value()), i, outcome, now)
  {
    var t := d.tasks[i];
    outcome := NotDue;
    assert d.tasks[i := t] == d.tasks;
    if t.recurrence.None? || t.deletedAt != "" {
      return;
    }
    outcome := AdvanceRecurrence(t, now);
    if outcome.NotDue? {
      return;
    }
    if outcome.Ended? {
      d.tasks := d.tasks[i := t.(recurrence := None)];
      return;
    }
    var cursor := outcome.clone.recurrence.value.nextDueAt;
    d.tasks := d.tasks[i := t.(recurrence := Some(t.recurrence.value.(nextDueAt := cursor)))];
    AppendClone(d, outcome.clone, now);
  }

  method AppendClone(d: Document, clone: Task, now: nat)
    modifies d`tasks, d`audit
    ensures var id := NextId(TaskIds(old(d.tasks)));
            && d.tasks == old(d.tasks) + [clone.(id := id)]
            && d.audit == Audited(old(d.audit), "system", "task.recurrence.cloned", Some(id), now)
  {
    var id := NextIntID(TaskIds(d.tasks));
    d.tasks := d.tasks + [clone.(id := id)];
    AppendAudit(d, "system", "task.recurrence.cloned", Some(id), now);
  }

  /** One iteration of the pass, on the way through the steps. */
  method NextStep(d: Document, i: nat, now: nat, tally: Tally, ghost was: Snapshot) returns (tally': Tally)
    requires i < |was.tasks| && d.Value() == Steps(was, i, VisitAt(now), now)
    requires tally == Tallied(was.tasks, i, VisitAt(now))
    modifies d`tasks, d`audit
    ensures d.Value() == Steps(was, i + 1, VisitAt(now), now)
    ensures tally' == Tallied(was.tasks, i + 1, VisitAt(now))
  {
    Untouched(was, i, VisitAt(now), now);
    assert d.Value().tasks == d.tasks;
    var outcome := VisitTask(d, i, now);
    tally' := tally;
    if outcome.Ended? {
      tally' := tally.(changed := true, ended := tally.ended + 1);
    } else if outcome.Next? {
      tally' := tally.(changed := true, cloned := tally.cloned + 1);
    }
  }

  method RunPass(d: Document, now: nat) returns (tally: Tally)
    modifies d`tasks, d`audit
    ensures d.Value() == Pass(old(d.Value()), now)
    ensures tally == Tallied(old(d.tasks), |old(d.tasks)|, VisitAt(now))
  {
    tally := Tally(false, 0, 0);
    var nowTasks := |d.tasks|;
    ghost var was := d.Value();
    for i := 0 to nowTasks
      invariant d.Value() == Steps(was, i, VisitAt(now), now)
      invariant tally == Tallied(was.tasks, i, VisitAt(now))
    {
      tally := NextStep(d, i, now, tally, was);
    }
  }

  // ----- what a pass does -----

  /** Two tasks that differ at most in their identifier. */
  predicate SameButId(a: Task, b: Task) {
    a.(id := b.id) == b
  }

  ghost predicate Shape(d: Snapshot, s: Snapshot, n: nat, visit: Task -> Advance)
    requires n <= |d.tasks|
  {
    var clones := Clones(d.tasks, n, visit);
    && s == d.(tasks := s.tasks, audit := s.audit)
    && |s.tasks| == |d.tasks| + |clones|
    && (forall i | 0 <= i < n :: s.tasks[i] == Leave(d.tasks[i], visit(d.tasks[i])))
    && (forall i | n <= i < |d.tasks| :: s.tasks[i] == d.tasks[i])
    && (forall j | 0 <= j < |clones| :: SameButId(s.tasks[|d.tasks| + j], clones[j]))
    && d.audit <= s.audit && |s.audit| == |d.audit| + |clones|
  }

  /** Everything one visit changes. */
  lemma VisitEffect(b: Snapshot, i: nat, outcome: Advance, now: nat)
    requires i < |b.tasks|
    ensures var s := CloneStep(b, i, outcome, now);
            && s == b.(tasks := s.tasks, audit := s.audit)
            && s.tasks[i] == Leave(b.tasks[i], outcome)
            && (forall k | 0 <= k < |b.tasks| && k != i :: s.tasks[k] == b.tasks[k])
            && b.audit <= s.audit
            && match outcome
               case Next(clone) => |s.tasks| == |b.tasks| + 1 && |s.audit| == |b.audit| + 1
                                   && SameButId(s.tasks[|b.tasks|], clone)
               case _ => |s.tasks| == |b.tasks| && s.audit == b.audit
  {
  }

  lemma ShapeStep(d: Snapshot, b: Snapshot, n: nat, visit: Task -> Advance, now: nat)
    requires n < |d.tasks| && Shape(d, b, n, visit)
    ensures Shape(d, CloneStep(b, n, visit(b.tasks[n]), now), n + 1, visit)
  {
    var s := CloneStep(b, n, visit(b.tasks[n]), now);
    var before, clones := Clones(d.tasks, n, visit), Clones(d.tasks, n + 1, visit);
    assert b.tasks[n] == d.tasks[n];
    VisitEffect(b, n, visit(b.tasks[n]), now);
    forall i | 0 <= i < n + 1 ensures s.tasks[i] == Leave(d.tasks[i], visit(d.tasks[i])) {
      if i < n {
        assert s.tasks[i] == b.tasks[i];
      }
    }
    forall j | 0 <= j < |clones| ensures SameButId(s.tasks[|d.tasks| + j], clones[j]) {
      if j < |before| {
        assert SameButId(b.tasks[|d.tasks| + j], before[j]);
        assert s.tasks[|d.tasks| + j] == b.tasks[|d.tasks| + j];
      }
    }
  }

  lemma {:induction false} StepsShape(d: Snapshot, n: nat, visit: Task -> Advance, now: nat)
    requires n <= |d.tasks|
    ensures Shape(d, Steps(d, n, visit, now), n, visit)
  {
    for m := 0 to n
      invariant Shape(d, Steps(d, m, visit, now), m, visit)
    {
      ShapeStep(d, Steps(d, m, visit, now), m, visit, now);
    }
  }

  /** Tasks ahead of the pass are as they were. */
  lemma Untouched(d: Snapshot, n: nat, visit: Task -> Advance, now: nat)
    requires n < |d.tasks|
    ensures Steps(d, n, visit, now).tasks[n] == d.tasks[n]
  {
    StepsShape(d, n, visit, now);
  }

  /**
   * A pass visits every task that was there once: it changes existing tasks only in their
   * recurrence, and appends exactly one clone per due task, in task order, with one audit
   * entry each.
   */
  lemma PassShape(d: Snapshot, now: nat)
    ensures Shape(d, Pass(d, now), |d.tasks|, VisitAt(now))
  {
    StepsShape(d, |d.tasks|, VisitAt(now), now);
  }

  /** Task identifiers stay distinct as long as the largest possible one is not reached. */
  ghost predicate KeepsTaskIds(d: Snapshot, d': Snapshot) {
    && (MAX_INT in TaskIds(d.tasks) ==> MAX_INT in TaskIds(d'.tasks))
    && (UniqueTaskIds(d) && MAX_INT !in TaskIds(d'.tasks) ==> UniqueTaskIds(d'))
  }

  lemma CloneStepKeepsIds(b: Snapshot, i: nat, outcome: Advance, now: nat)
    requires i < |b.tasks|
    ensures KeepsTaskIds(b, CloneStep(b, i, outcome, now))
  {
    var s := CloneStep(b, i, outcome, now);
    var ids := TaskIds(b.tasks);
    var tasks := b.tasks[i := Leave(b.tasks[i], outcome)];
    assert TaskIds(tasks) == ids;
    if outcome.Next? {
      assert TaskIds(s.tasks) == ids + [NextId(ids)];
      if UniqueTaskIds(b) && MAX_INT !in TaskIds(s.tasks) {
        AppendFresh(ids);
      }
    }
  }

  lemma KeepsTransitive(a: Snapshot, b: Snapshot, c: Snapshot)
    requires KeepsTaskIds(a, b) && KeepsTaskIds(b, c)
    ensures KeepsTaskIds(a, c)
  {
  }

  lemma {:induction false} StepsKeepIds(d: Snapshot, n: nat, visit: Task -> Advance, now: nat)
    requires n <= |d.tasks|
    ensures KeepsTaskIds(d, Steps(d, n, visit, now))
  {
    if n > 0 {
      var before := Steps(d, n - 1, visit, now);
      StepsKeepIds(d, n - 1, visit, now);
      CloneStepKeepsIds(before, n - 1, visit(before.tasks[n - 1]), now);
      KeepsTransitive(d, before, Steps(d, n, visit, now));
    }
  }
}
