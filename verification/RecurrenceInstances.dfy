/** What a recurring task's next instance is, in terms of the calendar. */
module RecurrenceInstances {
  import opened Dates
  import opened Integers
  import opened Models
  import opened RecurrenceJob
  import opened Wrappers
  import RecurrenceTheorems

  // ----- when -----

  predicate Ends(r: Recurrence, at: int) {
    var end := Parse(r.endDate);
    end.Some? && at > end.value
  }

  /** A task that recurs, is not deleted, and whose anchor has come. */
  predicate Due(t: Task, now: nat) {
    t.recurrence.Some? && t.deletedAt == "" && Anchor(t).Some? && Anchor(t).value <= now
  }

  /**
   * A due task gets its next instance, if its pattern is known, until its anchor has passed the
   * end; then it stops recurring.
   */
  lemma VisitExactly(t: Task, now: nat)
    ensures Visit(t, now).Ended? <==> Due(t, now) && Ends(t.recurrence.value, Anchor(t).value)
    ensures Visit(t, now).Next? <==>
            && Due(t, now) && !Ends(t.recurrence.value, Anchor(t).value)
            && t.recurrence.value.pattern in {Daily, Weekly, Monthly}
  {
  }

  /** The anchor is the cursor's instant, and without a cursor the end, due or start date's, the first there is. */
  lemma AnchorMeans(t: Task)
    requires t.recurrence.Some?
    ensures var cursor := t.recurrence.value.nextDueAt;
            && (!cursor.Blank? ==> Anchor(t) == Parse(cursor))
            && (cursor.Blank? && Parse(t.endDate).Some? ==> Anchor(t) == Parse(t.endDate))
            && (cursor.Blank? && t.endDate.Blank? && Parse(t.due).Some? ==> Anchor(t) == Parse(t.due))
            && (cursor.Blank? && t.endDate.Blank? && t.due.Blank? ==> Anchor(t) == Parse(t.startDate))
  {
  }

  // ----- what -----

  predicate InCalendar(at: int) {
    0 <= at / TICKS_PER_DAY < CALENDAR_DAYS
  }

  /** One step of a recurrence: so many days, seven times as many, or the same day so many months on. */
  ghost predicate StepsTo(r: Recurrence, from: Instant, at: int) {
    match r.pattern
    case Daily => at == from + Step(r) * TICKS_PER_DAY
    case Weekly => at == from + 7 * Step(r) * TICKS_PER_DAY
    case Monthly =>
      exists month: nat | InMonth(from / TICKS_PER_DAY, month) ::
        at == SameDayLater(from / TICKS_PER_DAY, month, Step(r)) * TICKS_PER_DAY + from % TICKS_PER_DAY
    case UnknownPattern => false
  }

  /** A text that denotes an instant in the format of another: to the second, or to the day. */
  predicate Denotes(text: DateText, like: DateText, at: int) {
    if like.Timestamp? || (like.Unparsed? && like.hasT)
    then text.Timestamp? && text.at == at - at % TICKS_PER_SECOND
    else text.DateOnly? && text.day == at / TICKS_PER_DAY
  }

  predicate Moved(text: DateText, was: DateText, at: int) {
    if was.Blank? then text.Blank? else Denotes(text, was, at)
  }

  /** An open copy of the task at another instant. */
  predicate Instance(copy: Task, t: Task, at: int)
    requires t.recurrence.Some?
  {
    && Denotes(copy.due, AnchorText(t), at)
    && Moved(copy.startDate, t.startDate, at) && Moved(copy.endDate, t.endDate, at)
    && !copy.done && copy.approvedBy == [] && copy.status == "on_track" && copy.deletedAt == ""
    && copy == t.(id := copy.id, recurrence := copy.recurrence, due := copy.due, startDate := copy.startDate,
                  endDate := copy.endDate, done := copy.done, approvedBy := copy.approvedBy, status := copy.status,
                  deletedAt := copy.deletedAt)
    && copy.recurrence.Some?
    && var r, r' := t.recurrence.value, copy.recurrence.value;
    r'.pattern == r.pattern && r'.endDate == r.endDate && r'.interval == Step(r)
  }

  lemma DaysStep(from: Instant, n: Int64, days: Int64)
    requires InCalendar(from + n * TICKS_PER_DAY) && days == n
    ensures AddDays(from, days) == from + n * TICKS_PER_DAY
  {
    var whole := from / TICKS_PER_SECOND;
    assert from == whole * TICKS_PER_SECOND + from % TICKS_PER_SECOND;
    WrapUnique(whole + n * SECONDS_PER_DAY, 0, whole + n * SECONDS_PER_DAY);
  }

  lemma WeeksStep(from: Instant, n: Int64)
    requires n >= 1 && InCalendar(from + 7 * n * TICKS_PER_DAY)
    ensures AddDays(from, Wrap(7 * n)) == from + 7 * n * TICKS_PER_DAY
  {
    assert 7 * n <= CALENDAR_DAYS + 2;
    WrapUnique(7 * n, 0, 7 * n);
    DaysStep(from, 7 * n, Wrap(7 * n));
  }

  /** The job advances to where the step leads. */
  lemma AdvanceStep(r: Recurrence, from: Instant, at: int)
    requires StepsTo(r, from, at) && InCalendar(at)
    ensures AdvanceBy(from, r.pattern, Step(r)) == Some(at)
  {
    match r.pattern
    case Daily => DaysStep(from, Step(r), Step(r));
    case Weekly => WeeksStep(from, Step(r));
    case Monthly =>
      var month: nat :| InMonth(from / TICKS_PER_DAY, month)
        && at == SameDayLater(from / TICKS_PER_DAY, month, Step(r)) * TICKS_PER_DAY + from % TICKS_PER_DAY;
      AddMonthsMeans(from, Step(r), month);
  }

  lemma FormatsLike(like: DateText, at: int)
    requires InCalendar(at)
    ensures Denotes(FormatLikely(like, at), like, at)
  {
    assert at == at / TICKS_PER_SECOND * TICKS_PER_SECOND + at % TICKS_PER_SECOND;
  }

  /** The next instance of a due task is an open copy of it one step on. */
  lemma NextIsInstance(t: Task, now: nat, at: int)
    requires Visit(t, now).Next? && InCalendar(at) && StepsTo(t.recurrence.value, Anchor(t).value, at)
    ensures Instance(Visit(t, now).clone, t, at)
  {
    AdvanceStep(t.recurrence.value, Anchor(t).value, at);
    FormatsLike(AnchorText(t), at);
    FormatsLike(t.startDate, at);
    FormatsLike(t.endDate, at);
  }

  /** The cursor of the task, and of its next instance, is the day two steps on; nothing else of the task changes. */
  lemma CursorIsTwoSteps(t: Task, now: nat, at: Instant, next: int)
    requires Visit(t, now).Next? && InCalendar(at) && StepsTo(t.recurrence.value, Anchor(t).value, at)
    requires InCalendar(next) && StepsTo(t.recurrence.value, at, next)
    ensures var cursor := DateOnly(next / TICKS_PER_DAY);
            && Visit(t, now).clone.recurrence.value.nextDueAt == cursor
            && Visited(t, now) == t.(recurrence := Some(t.recurrence.value.(nextDueAt := cursor)))
  {
    AdvanceStep(t.recurrence.value, Anchor(t).value, at);
    AdvanceStep(t.recurrence.value, at, next);
  }

  /** There is one place a step leads to. */
  lemma StepExists(r: Recurrence, from: Instant) returns (at: int)
    requires !r.pattern.UnknownPattern?
    ensures StepsTo(r, from, at)
  {
    match r.pattern
    case Daily => at := from + Step(r) * TICKS_PER_DAY;
    case Weekly => at := from + 7 * Step(r) * TICKS_PER_DAY;
    case Monthly =>
      var day := from / TICKS_PER_DAY;
      var month := MonthFrom(day + CYCLE_DAYS, 0);
      assert InMonth(day, month);
      at := SameDayLater(day, month, Step(r)) * TICKS_PER_DAY + from % TICKS_PER_DAY;
  }

  /** A copy of the task wherever one step leads, as long as that is in the calendar. */
  ghost predicate NextInstance(copy: Task, t: Task)
    requires t.recurrence.Some? && Anchor(t).Some?
  {
    forall at | InCalendar(at) && StepsTo(t.recurrence.value, Anchor(t).value, at) :: Instance(copy, t, at)
  }

  lemma CloneIsNext(copy: Task, t: Task, now: nat)
    requires Visit(t, now).Next? && SameButId(copy, Visit(t, now).clone)
    ensures NextInstance(copy, t)
  {
    forall at | InCalendar(at) && StepsTo(t.recurrence.value, Anchor(t).value, at) ensures Instance(copy, t, at) {
      NextIsInstance(t, now, at);
      IdDoesNotMatter(copy, Visit(t, now).clone, t, at);
    }
  }

  lemma IdDoesNotMatter(copy: Task, clone: Task, t: Task, at: int)
    requires t.recurrence.Some? && SameButId(copy, clone) && Instance(clone, t, at)
    ensures Instance(copy, t, at)
  {
  }

  lemma AppendedFrom(d: Snapshot, now: nat, j: nat) returns (i: nat)
    requires |d.tasks| + j < |Pass(d, now).tasks|
    ensures i < |d.tasks| && Visit(d.tasks[i], now).Next?
    ensures SameButId(Pass(d, now).tasks[|d.tasks| + j], Visit(d.tasks[i], now).clone)
  {
    PassShape(d, now);
    i := RecurrenceTheorems.CloneOrigin(d.tasks, |d.tasks|, VisitAt(now), j);
  }

  /**
   * Every task that a pass appends is an open copy, one step on, of a task that was due; tasks
   * are copied once each, in document order, by `PassShape`.
   */
  lemma PassAppendsInstances(d: Snapshot, now: nat, k: nat) returns (i: nat)
    requires |d.tasks| <= k < |Pass(d, now).tasks|
    ensures i < |d.tasks| && Due(d.tasks[i], now) && NextInstance(Pass(d, now).tasks[k], d.tasks[i])
  {
    i := AppendedFrom(d, now, k - |d.tasks|);
    CloneIsNext(Pass(d, now).tasks[k], d.tasks[i], now);
    VisitExactly(d.tasks[i], now);
  }
}
