/** When cursors move forward, when a rerun does nothing, and when repeated passes settle. */
module RecurrenceTheorems {
  import opened Dates
  import opened Integers
  import opened Models
  import opened RecurrenceJob
  import opened Wrappers

  // ----- where the cursor goes -----

  /** Monthly steps beyond this leave the range of Go's clock. */
  const FAR_MONTHS: Int64 := 0x100_0000_0000

  predicate ByDays(r: Recurrence) {
    r.pattern.Daily? || r.pattern.Weekly?
  }

  function DayStep(r: Recurrence): Int64 {
    if r.pattern.Weekly? then Wrap(7 * Step(r)) else Step(r)
  }

  /** The seconds by which two steps of days move an instant, in 64 bits. */
  function CursorSeconds(r: Recurrence): Int64 {
    Wrap(2 * (DayStep(r) * SECONDS_PER_DAY))
  }

  /** Further back than any instant that parses. */
  const BEYOND: int := CALENDAR_DAYS * SECONDS_PER_DAY + OFFSET_SECONDS

  /** Two steps move a cursor by a day at least, or out of the calendar. */
  predicate Forward(r: Recurrence) {
    match r.pattern
    case UnknownPattern => true
    case Monthly => Step(r) <= FAR_MONTHS
    case _ => CursorSeconds(r) >= SECONDS_PER_DAY || CursorSeconds(r) <= -BEYOND
  }

  function NewCursor(t: Task, now: nat): DateText
    requires Visit(t, now).Next?
  {
    Cursor(Visit(t, now).clone)
  }

  lemma DayCursor(t: Task, now: nat)
    requires Visit(t, now).Next? && ByDays(t.recurrence.value)
    ensures NewCursor(t, now) == FormatDate(Anchor(t).value + CursorSeconds(t.recurrence.value) * TICKS_PER_SECOND)
  {
    var days, anchor := DayStep(t.recurrence.value), Anchor(t).value;
    ShiftTwice(anchor, days * SECONDS_PER_DAY);
    ShiftedDate(anchor, 2 * (days * SECONDS_PER_DAY));
  }

  /** A date cut from an instant at least four weeks later is a later day. */
  lemma LaterDate(from: Instant, at: int, months: nat)
    requires months >= 1 && at >= from + 28 * months * TICKS_PER_DAY
    ensures Parse(FormatDate(at)).Some? ==> Parse(FormatDate(at)).value / TICKS_PER_DAY > from / TICKS_PER_DAY
  {
    FormatDateFloor(at);
    assert at >= from + TICKS_PER_DAY;
  }

  lemma MonthCursor(t: Task, now: nat)
    requires Visit(t, now).Next? && t.recurrence.value.pattern.Monthly?
    ensures var cursor := Parse(NewCursor(t, now));
            cursor.Some? ==> cursor.value / TICKS_PER_DAY > Anchor(t).value / TICKS_PER_DAY
  {
    var n, anchor := Step(t.recurrence.value), Anchor(t).value;
    var once := AddMonths(anchor, n);
    var twice := AddMonths(once, n);
    AddMonthsAdvances(anchor, n);
    AddMonthsAdvances(once, n);
    assert NewCursor(t, now) == FormatDate(twice);
    LaterDate(anchor, twice, n);
  }

  /** The new cursor, cut to a date, lies on a later day than the anchor, or does not parse. */
  predicate MovesOn(t: Task, now: nat) {
    Visit(t, now).Next? ==>
      var cursor := Parse(NewCursor(t, now));
      cursor.Some? ==> cursor.value / TICKS_PER_DAY > Anchor(t).value / TICKS_PER_DAY
  }

  /** Where a date lies that is cut from an instant moved by seconds. */
  lemma MovedDate(from: Instant, seconds: int)
    ensures var at := Parse(FormatDate(from + seconds * TICKS_PER_SECOND));
            && (at.Some? && seconds >= SECONDS_PER_DAY ==> at.value / TICKS_PER_DAY > from / TICKS_PER_DAY)
            && (at.Some? && seconds < 0 ==> at.value < from)
            && (at.Some? ==> seconds > -BEYOND && at.value % TICKS_PER_DAY == 0)
  {
    var to := from + seconds * TICKS_PER_SECOND;
    FormatDateFloor(to);
    if seconds >= SECONDS_PER_DAY {
      assert to >= from + TICKS_PER_DAY;
    }
  }

  /** The same of the new cursor of a task. */
  lemma MovedCursor(t: Task, now: nat)
    requires Visit(t, now).Next? && ByDays(t.recurrence.value)
    ensures var cursor, from, seconds := Parse(NewCursor(t, now)), Anchor(t).value, CursorSeconds(t.recurrence.value);
            && (cursor.Some? && seconds >= SECONDS_PER_DAY ==> cursor.value / TICKS_PER_DAY > from / TICKS_PER_DAY)
            && (cursor.Some? && seconds < 0 ==> cursor.value < from)
            && (cursor.Some? ==> seconds > -BEYOND && cursor.value % TICKS_PER_DAY == 0)
  {
    DayCursor(t, now);
    MovedDate(Anchor(t).value, CursorSeconds(t.recurrence.value));
  }

  lemma CursorAdvances(t: Task, now: nat)
    requires t.recurrence.Some? && Forward(t.recurrence.value)
    ensures MovesOn(t, now)
  {
    if Visit(t, now).Next? {
      if ByDays(t.recurrence.value) {
        MovedCursor(t, now);
      } else {
        MonthCursor(t, now);
      }
    }
  }

  predicate Like(t: Task, r: Recurrence) {
    t.recurrence.Some? && t.recurrence.value.pattern == r.pattern && t.recurrence.value.interval == r.interval
  }

  /** A task whose two steps stay within its day, or go back inside the calendar. */
  function Laggard(t: Task, r: Recurrence): (laggard: Task)
    requires ByDays(r) && !Forward(r)
  {
    var anchor := if CursorSeconds(r) < 0 then -CursorSeconds(r) * TICKS_PER_SECOND else 0;
    t.(deletedAt := "", recurrence := Some(Recurrence(r.pattern, r.interval, Blank, Timestamp(anchor))))
  }

  lemma StaysBehind(seconds: int, from: Instant)
    requires -BEYOND < seconds < SECONDS_PER_DAY && from == if seconds < 0 then -seconds * TICKS_PER_SECOND else 0
    ensures var at := FormatDate(from + seconds * TICKS_PER_SECOND);
            at == DateOnly(0) && Parse(at).value / TICKS_PER_DAY <= from / TICKS_PER_DAY
  {
    FormatDateFloor(from + seconds * TICKS_PER_SECOND);
  }

  lemma LaggardStays(t: Task, r: Recurrence, now: nat)
    requires ByDays(r) && !Forward(r) && now >= CALENDAR_DAYS * TICKS_PER_DAY + OFFSET_SECONDS * TICKS_PER_SECOND
    ensures Like(Laggard(t, r), r) && !MovesOn(Laggard(t, r), now)
  {
    var laggard := Laggard(t, r);
    var from := Anchor(laggard).value;
    assert Visit(laggard, now).Next?;
    DayCursor(laggard, now);
    StaysBehind(CursorSeconds(r), from);
  }

  /**
   * Exactly when a pattern and an interval always move the cursor on: for days and weeks, when
   * two steps in 64-bit seconds come to a day at least, or to more than the whole calendar
   * backwards; for months always.
   */
  lemma ForwardExactly(r: Recurrence, t0: Task)
    requires r.pattern.Monthly? ==> Step(r) <= FAR_MONTHS
    ensures (forall t: Task, now: nat | Like(t, r) :: MovesOn(t, now)) <==> Forward(r)
  {
    if Forward(r) {
      forall t: Task, now: nat | Like(t, r) ensures MovesOn(t, now) {
        CursorAdvances(t, now);
      }
    } else {
      LaggardStays(t0, r, CALENDAR_DAYS * TICKS_PER_DAY + OFFSET_SECONDS * TICKS_PER_SECOND as nat);
    }
  }

  // ----- intervals that wrap -----

  /** A positive number of weeks whose days wrap to 1024 days back. */
  const BACKWARD_WEEKS: Int64 := 2_635_249_153_387_078_656

  lemma DaysForward(day: Day, days: int)
    requires 0 <= day + days < CALENDAR_DAYS
    ensures FormatDate(day * TICKS_PER_DAY + days * SECONDS_PER_DAY * TICKS_PER_SECOND) == DateOnly(day + days)
  {
    assert (day + days) * TICKS_PER_DAY / TICKS_PER_DAY == day + days;
  }

  /** Every pass clones such a task again and moves its cursor back by 2048 days. */
  lemma WeeksRunBackward(t: Task, day: Day, now: nat)
    requires t.deletedAt == "" && t.recurrence == Some(Recurrence(Weekly, BACKWARD_WEEKS, Blank, DateOnly(day)))
    requires 2048 <= day && day * TICKS_PER_DAY <= now
    ensures Visit(t, now).Next? && NewCursor(t, now) == DateOnly(day - 2048)
  {
    WrapUnique(7 * BACKWARD_WEEKS, 1, -1024);
    WrapUnique(2 * (-1024 * SECONDS_PER_DAY), 0, -2048 * SECONDS_PER_DAY);
    DayCursor(t, now);
    DaysForward(day, -2048);
  }

  /** A positive number of days of which two steps come to 675 times 2^64 seconds: the cursor stands still. */
  const STANDING_DAYS: Int64 := 0x100_0000_0000_0000

  lemma DaysStandStill(t: Task, day: Day, now: nat)
    requires t.deletedAt == "" && t.recurrence == Some(Recurrence(Daily, STANDING_DAYS, Blank, DateOnly(day)))
    requires day * TICKS_PER_DAY <= now
    ensures Visit(t, now).Next? && NewCursor(t, now) == DateOnly(day) && Stuck(t, now)
  {
    WrapUnique(2 * (STANDING_DAYS * SECONDS_PER_DAY), 675, 0);
    DayCursor(t, now);
    DaysForward(day, 0);
  }

  // ----- reruns -----

  /** The task is due, and the cursor it gets is due as well. */
  predicate DueAgain(t: Task, now: nat) {
    Visit(t, now).Next? &&
    var cursor := Parse(NewCursor(t, now));
    cursor.Some? && cursor.value <= now
  }

  /** The original and the clone carry on from one cursor, pattern, step and end. */
  predicate Succeeds(next: Task, t: Task, now: nat)
    requires Visit(t, now).Next?
  {
    && next.deletedAt == "" && next.recurrence.Some?
    && var r, r' := t.recurrence.value, next.recurrence.value;
    && r'.pattern == r.pattern && Step(r') == Step(r) && r'.endDate == r.endDate && r'.nextDueAt == NewCursor(t, now)
  }

  lemma BothSucceed(t: Task, now: nat)
    requires Visit(t, now).Next?
    ensures Succeeds(Visited(t, now), t, now) && Succeeds(Visit(t, now).clone, t, now)
  {
  }

  lemma SuccessorAnchor(next: Task, t: Task, now: nat)
    requires Visit(t, now).Next? && Succeeds(next, t, now)
    ensures Anchor(next) == Parse(NewCursor(t, now))
    ensures Active(next, now) <==> DueAgain(t, now)
  {
  }

  /** Every task after a pass is left by one before it, or cloned from one. */
  lemma {:induction false} CloneOrigin(tasks: seq<Task>, n: nat, visit: Task -> Advance, j: nat) returns (i: nat)
    requires n <= |tasks| && j < |Clones(tasks, n, visit)|
    ensures i < n && visit(tasks[i]) == Next(Clones(tasks, n, visit)[j])
  {
    if j < |Clones(tasks, n - 1, visit)| {
      i := CloneOrigin(tasks, n - 1, visit, j);
    } else {
      i := n - 1;
    }
  }

  /** Where a task of the document after a pass comes from. */
  ghost predicate From(next: Task, t: Task, now: nat) {
    next == Visited(t, now) || (Visit(t, now).Next? && SameButId(next, Visit(t, now).clone))
  }

  lemma TaskOrigin(d: Snapshot, now: nat, k: nat) returns (i: nat)
    requires k < |Pass(d, now).tasks|
    ensures i < |d.tasks| && From(Pass(d, now).tasks[k], d.tasks[i], now)
  {
    PassShape(d, now);
    if k < |d.tasks| {
      i := k;
    } else {
      i := CloneOrigin(d.tasks, |d.tasks|, VisitAt(now), k - |d.tasks|);
    }
  }

  lemma ActiveFrom(next: Task, t: Task, now: nat)
    requires From(next, t, now)
    ensures Active(next, now) ==> DueAgain(t, now)
    ensures Visit(t, now).Next? ==> Succeeds(next, t, now)
  {
    if Visit(t, now).Next? {
      BothSucceed(t, now);
      SuccessorAnchor(next, t, now);
    }
  }

  ghost predicate Settled(d: Snapshot, now: nat) {
    forall t | t in d.tasks :: !Active(t, now)
  }

  lemma PassSettles(d: Snapshot, now: nat)
    ensures Settled(Pass(d, now), now) <==> forall t | t in d.tasks :: !DueAgain(t, now)
  {
    var s := Pass(d, now);
    if t :| t in d.tasks && DueAgain(t, now) {
      var i :| 0 <= i < |d.tasks| && d.tasks[i] == t;
      PassShape(d, now);
      BothSucceed(t, now);
      SuccessorAnchor(s.tasks[i], t, now);
      assert s.tasks[i] in s.tasks;
    } else {
      forall t | t in s.tasks ensures !Active(t, now) {
        var k :| 0 <= k < |s.tasks| && s.tasks[k] == t;
        var i := TaskOrigin(d, now, k);
        assert d.tasks[i] in d.tasks;
        ActiveFrom(t, d.tasks[i], now);
      }
    }
  }

  lemma {:induction false} QuietSteps(d: Snapshot, n: nat, visit: Task -> Advance, now: nat)
    requires n <= |d.tasks| && forall t | t in d.tasks :: visit(t).NotDue?
    ensures Steps(d, n, visit, now) == d
  {
    if n > 0 {
      QuietSteps(d, n - 1, visit, now);
      assert d.tasks[n - 1] in d.tasks;
      assert d.tasks[n - 1 := d.tasks[n - 1]] == d.tasks;
    }
  }

  /** A pass is the identity exactly on the documents it finds settled. */
  lemma PassIdentity(d: Snapshot, now: nat)
    ensures Pass(d, now) == d <==> Settled(d, now)
  {
    if Settled(d, now) {
      QuietSteps(d, |d.tasks|, VisitAt(now), now);
    } else {
      var t :| t in d.tasks && Active(t, now);
      var i :| 0 <= i < |d.tasks| && d.tasks[i] == t;
      PassShape(d, now);
      if Visit(t, now).Next? {
        OneClone(d.tasks, |d.tasks|, VisitAt(now), i);
      }
    }
  }

  lemma {:induction false} OneClone(tasks: seq<Task>, n: nat, visit: Task -> Advance, i: nat)
    requires i < n <= |tasks| && visit(tasks[i]).Next?
    ensures Clones(tasks, n, visit) != []
  {
    if i < n - 1 {
      OneClone(tasks, n - 1, visit, i);
    }
  }

  /**
   * A rerun at the same instant does nothing if and only if no task that was due gets a cursor
   * that is due again.
   */
  lemma RerunDoesNothing(d: Snapshot, now: nat)
    ensures Pass(Pass(d, now), now) == Pass(d, now) <==> forall t | t in d.tasks :: !DueAgain(t, now)
  {
    PassSettles(d, now);
    PassIdentity(Pass(d, now), now);
  }

  /** A daily task that is three days late is cloned by the rerun too. */
  lemma RerunClonesAgain(d: Snapshot, t: Task, day: Day, now: nat)
    requires d.tasks == [t] && t.deletedAt == "" && t.recurrence == Some(Recurrence(Daily, 1, Blank, DateOnly(day)))
    requires day + 3 < CALENDAR_DAYS && now == (day + 3) * TICKS_PER_DAY
    ensures Pass(Pass(d, now), now) != Pass(d, now)
  {
    WrapUnique(2 * SECONDS_PER_DAY, 0, 2 * SECONDS_PER_DAY);
    DayCursor(t, now);
    DaysForward(day, 2);
    assert DueAgain(t, now) && t in d.tasks;
    RerunDoesNothing(d, now);
  }

  // ----- convergence -----

  /** How many days a task that still needs work lies behind. */
  function Behind(t: Task, now: nat): int {
    if Active(t, now) then now / TICKS_PER_DAY - Anchor(t).value / TICKS_PER_DAY + 1 else 0
  }

  /** The cursor it gets is due, is not past the end, and two steps do not leave its day. */
  predicate Stuck(t: Task, now: nat) {
    && Visit(t, now).Next? && ByDays(t.recurrence.value) && 0 <= CursorSeconds(t.recurrence.value) < SECONDS_PER_DAY
    && DueAgain(t, now) && !PastEnd(t.recurrence.value, Parse(NewCursor(t, now)).value)
  }

  predicate PastEnd(r: Recurrence, at: int) {
    var end := Parse(r.endDate);
    end.Some? && at > end.value
  }

  predicate InRange(t: Task) {
    t.recurrence.Some? && t.recurrence.value.pattern.Monthly? ==> Step(t.recurrence.value) <= FAR_MONTHS
  }

  /** A number of passes after which the task and all that is cloned from it are done with. */
  function Work(t: Task, now: nat): nat {
    if !Active(t, now) then 0
    else if Visit(t, now).Ended? then 1
    else if Forward(t.recurrence.value) then
      assert Anchor(t).value <= now;
      now / TICKS_PER_DAY - Anchor(t).value / TICKS_PER_DAY + 1
    else if CursorSeconds(t.recurrence.value) < 0 then Anchor(t).value + OFFSET_SECONDS * TICKS_PER_SECOND + 1
    else 2
  }

  lemma IdleWork(next: Task, t: Task, now: nat)
    requires Visit(t, now).Next? && !DueAgain(t, now) && Succeeds(next, t, now)
    ensures Work(next, now) == 0 < Work(t, now)
  {
    SuccessorAnchor(next, t, now);
  }

  lemma ForwardWork(next: Task, t: Task, now: nat)
    requires DueAgain(t, now) && Succeeds(next, t, now) && Forward(t.recurrence.value)
    ensures Work(next, now) < Work(t, now)
  {
    SuccessorAnchor(next, t, now);
    CursorAdvances(t, now);
  }

  lemma BackwardWork(next: Task, t: Task, now: nat)
    requires DueAgain(t, now) && Succeeds(next, t, now)
    requires ByDays(t.recurrence.value) && !Forward(t.recurrence.value) && CursorSeconds(t.recurrence.value) < 0
    ensures Work(next, now) < Work(t, now)
  {
    SuccessorAnchor(next, t, now);
    MovedCursor(t, now);
  }

  lemma StandingWork(next: Task, t: Task, now: nat)
    requires DueAgain(t, now) && Succeeds(next, t, now) && !Stuck(t, now)
    requires ByDays(t.recurrence.value) && !Forward(t.recurrence.value) && CursorSeconds(t.recurrence.value) >= 0
    ensures Work(next, now) < Work(t, now)
  {
    SuccessorVisit(next, t, now);
    SuccessorAnchor(next, t, now);
  }

  /** A visit leaves less work, unless the task is stuck. */
  lemma SuccessorWork(next: Task, t: Task, now: nat)
    requires InRange(t) && Visit(t, now).Next? && !Stuck(t, now) && Succeeds(next, t, now)
    ensures Work(next, now) < Work(t, now)
  {
    var r := t.recurrence.value;
    if !DueAgain(t, now) {
      IdleWork(next, t, now);
    } else if Forward(r) {
      ForwardWork(next, t, now);
    } else if CursorSeconds(r) < 0 {
      BackwardWork(next, t, now);
    } else {
      StandingWork(next, t, now);
    }
  }

  lemma SuccessorNotStuck(next: Task, t: Task, now: nat)
    requires Visit(t, now).Next? && !Stuck(t, now) && Succeeds(next, t, now)
    ensures !Stuck(next, now)
    ensures InRange(t) ==> InRange(next)
  {
    SuccessorAnchor(next, t, now);
    if DueAgain(t, now) {
      SuccessorVisit(next, t, now);
    }
  }

  lemma FromWork(next: Task, t: Task, now: nat)
    requires InRange(t) && !Stuck(t, now) && From(next, t, now)
    ensures Work(next, now) < Work(t, now) || Work(next, now) == 0
    ensures !Stuck(next, now) && InRange(next)
  {
    ActiveFrom(next, t, now);
    if Visit(t, now).Next? {
      SuccessorWork(next, t, now);
      SuccessorNotStuck(next, t, now);
    }
  }

  /** Nothing is stuck, and a number of passes is left to do. */
  ghost predicate Left(d: Snapshot, now: nat, passes: int) {
    forall t | t in d.tasks :: InRange(t) && !Stuck(t, now) && (Work(t, now) <= passes || Work(t, now) == 0)
  }

  lemma PassWork(d: Snapshot, now: nat, passes: int)
    requires Left(d, now, passes)
    ensures Left(Pass(d, now), now, passes - 1)
  {
    var s := Pass(d, now);
    forall t | t in s.tasks
      ensures InRange(t) && !Stuck(t, now) && (Work(t, now) <= passes - 1 || Work(t, now) == 0)
    {
      var k :| 0 <= k < |s.tasks| && s.tasks[k] == t;
      var i := TaskOrigin(d, now, k);
      assert d.tasks[i] in d.tasks;
      FromWork(t, d.tasks[i], now);
    }
  }

  lemma {:induction false} PassesWork(d: Snapshot, now: nat, n: nat, passes: int)
    requires Left(d, now, passes)
    ensures Left(Passes(d, now, n), now, passes - n)
  {
    if n > 0 {
      PassesWork(d, now, n - 1, passes);
      PassWork(Passes(d, now, n - 1), now, passes - n + 1);
    }
  }

  lemma DoneMeans(t: Task, now: nat)
    requires Work(t, now) <= 0
    ensures !Active(t, now)
  {
  }

  lemma NoWorkSettled(d: Snapshot, now: nat)
    requires Left(d, now, 0)
    ensures Settled(d, now)
  {
    forall t | t in d.tasks ensures !Active(t, now) {
      DoneMeans(t, now);
    }
  }

  /**
   * Convergence: where all intervals move cursors forward, passes at a fixed instant reach a
   * document in which nothing is due, after at most one pass per day of the largest lag, and
   * from then on change nothing.
   */
  lemma Converges(d: Snapshot, now: nat, days: nat)
    requires forall t | t in d.tasks :: t.recurrence.Some? ==> Forward(t.recurrence.value)
    requires forall t | t in d.tasks :: Behind(t, now) <= days
    ensures Settled(Passes(d, now, days), now)
    ensures Pass(Passes(d, now, days), now) == Passes(d, now, days)
  {
    forall t | t in d.tasks
      ensures InRange(t) && !Stuck(t, now) && (Work(t, now) <= days || Work(t, now) == 0)
    {
      assert Behind(t, now) <= days;
    }
    PassesWork(d, now, days, days);
    NoWorkSettled(Passes(d, now, days), now);
    PassIdentity(Passes(d, now, days), now);
  }

  /** No document lags more than the age of the calendar. */
  lemma AlwaysConverges(d: Snapshot, now: nat)
    requires forall t | t in d.tasks :: t.recurrence.Some? ==> Forward(t.recurrence.value)
    ensures Settled(Passes(d, now, now / TICKS_PER_DAY + 3), now)
  {
    Converges(d, now, now / TICKS_PER_DAY + 3);
  }

  lemma {:induction false} MostWork(tasks: seq<Task>, now: nat) returns (most: nat)
    ensures forall t | t in tasks :: Work(t, now) <= most
  {
    if tasks == [] {
      most := 0;
    } else {
      var rest := MostWork(tasks[1..], now);
      var first := Work(tasks[0], now);
      most := if first > rest then first else rest;
      assert tasks == [tasks[0]] + tasks[1..];
    }
  }

  lemma WithinDay(at: int, seconds: int)
    requires at % TICKS_PER_DAY == 0 && 0 <= seconds < SECONDS_PER_DAY
    ensures FormatDate(at + seconds * TICKS_PER_SECOND) == FormatDate(at)
  {
    assert (at + seconds * TICKS_PER_SECOND) / TICKS_PER_DAY == at / TICKS_PER_DAY;
  }

  lemma SuccessorVisit(next: Task, t: Task, now: nat)
    requires DueAgain(t, now) && Succeeds(next, t, now)
    ensures Visit(next, now).Next? <==> !PastEnd(t.recurrence.value, Parse(NewCursor(t, now)).value)
  {
  }

  /** The second cursor of a stuck task is its first. */
  lemma StuckCursor(next: Task, t: Task, now: nat)
    requires Stuck(t, now) && Succeeds(next, t, now) && Visit(next, now).Next?
    ensures NewCursor(next, now) == NewCursor(t, now)
  {
    var seconds, cursor := CursorSeconds(t.recurrence.value), Parse(NewCursor(t, now)).value;
    MovedCursor(t, now);
    SuccessorAnchor(next, t, now);
    DayCursor(next, now);
    WithinDay(cursor, seconds);
    assert NewCursor(next, now) == FormatDate(cursor);
    DateAgain(t, now);
  }

  lemma DateAgain(t: Task, now: nat)
    requires Visit(t, now).Next? && Parse(NewCursor(t, now)).Some?
    ensures FormatDate(Parse(NewCursor(t, now)).value) == NewCursor(t, now)
  {
    assert NewCursor(t, now).DateOnly?;
    assert NewCursor(t, now).day * TICKS_PER_DAY / TICKS_PER_DAY == NewCursor(t, now).day;
  }

  /** A stuck task is left stuck. */
  lemma StuckStays(t: Task, now: nat)
    requires Stuck(t, now)
    ensures Stuck(Visited(t, now), now)
  {
    var next := Visited(t, now);
    BothSucceed(t, now);
    SuccessorVisit(next, t, now);
    StuckCursor(next, t, now);
  }

  /** The test as a value, so that what follows does not depend on what it says. */
  ghost function StuckTest(now: nat): Task -> bool {
    (t: Task) => Stuck(t, now)
  }

  ghost predicate At(d: Snapshot, i: nat, test: Task -> bool) {
    i < |d.tasks| && test(d.tasks[i])
  }

  lemma StuckAfterPass(d: Snapshot, now: nat, i: nat)
    requires At(d, i, StuckTest(now))
    ensures At(Pass(d, now), i, StuckTest(now))
  {
    PassShape(d, now);
    StuckStays(d.tasks[i], now);
  }

  lemma {:induction false} StuckForever(d: Snapshot, now: nat, n: nat, i: nat)
    requires At(d, i, StuckTest(now))
    ensures At(Passes(d, now, n), i, StuckTest(now))
  {
    if n > 0 {
      var before := Passes(d, now, n - 1);
      StuckForever(d, now, n - 1, i);
      StuckAfterPass(before, now, i);
      assert Passes(d, now, n) == Pass(before, now);
    }
  }

  ghost predicate SettledAfter(d: Snapshot, now: nat, n: nat) {
    Settled(Passes(d, now, n), now)
  }

  /**
   * Some number of passes settles a document if and only if none of its due tasks has an
   * interval that leaves its next, due cursor on the same day.
   */
  lemma SettlesExactly(d: Snapshot, now: nat)
    requires forall t | t in d.tasks :: InRange(t)
    ensures (exists n: nat :: SettledAfter(d, now, n)) <==> forall t | t in d.tasks :: !Stuck(t, now)
  {
    if t :| t in d.tasks && Stuck(t, now) {
      var i :| 0 <= i < |d.tasks| && d.tasks[i] == t;
      forall n: nat ensures !SettledAfter(d, now, n) {
        StuckForever(d, now, n, i);
        var s := Passes(d, now, n);
        assert s.tasks[i] in s.tasks;
      }
    } else {
      var most := MostWork(d.tasks, now);
      PassesWork(d, now, most, most);
      NoWorkSettled(Passes(d, now, most), now);
      assert SettledAfter(d, now, most);
    }
  }
}
