/**
 * Calendar arithmetic of Go's `time` package in UTC. An instant counts nanoseconds from
 * the start of year 0; day 0 is 1 January of year 0. Seconds are 64-bit integers that wrap.
 */
module Dates {
  import opened Integers
  import opened Wrappers

  const SECONDS_PER_DAY: nat := 86_400
  const TICKS_PER_SECOND: nat := 1_000_000_000
  const TICKS_PER_DAY: nat := SECONDS_PER_DAY * TICKS_PER_SECOND

  /** The days of the years 0 to 9999; a later year takes five digits and no longer parses. */
  const CALENDAR_DAYS: nat := 25 * CYCLE_DAYS
  const CYCLE_DAYS: nat := 146_097

  /** The largest zone offset that a timestamp can carry, `24:60`. */
  const OFFSET_SECONDS: int := 25 * 3_600

  type Day = d: nat | d < CALENDAR_DAYS

  /** What a timestamp of the years 0 to 9999 with some zone offset denotes. */
  type Instant = at: int |
    -OFFSET_SECONDS * TICKS_PER_SECOND <= at < CALENDAR_DAYS * TICKS_PER_DAY + OFFSET_SECONDS * TICKS_PER_SECOND

  /**
   * A date field of the document, by what `parseDateOrTime` reads in it. `Unparsed` is any
   * text both layouts reject; all that matters of it is whether it is only white space and
   * whether it contains a `T`.
   */
  datatype DateText =
    | Blank
    | DateOnly(day: Day)
    | Timestamp(at: Instant)
    | Unparsed(onlySpace: bool, hasT: bool)

  function Parse(text: DateText): Option<Instant> {
    match text
    case DateOnly(day) => Some(day * TICKS_PER_DAY)
    case Timestamp(at) => Some(at)
    case _ => None
  }

  /** `Format("2006-01-02")`: years before 0 and after 9999 do not parse again. */
  function FormatDate(at: int): DateText {
    var day := at / TICKS_PER_DAY;
    if 0 <= day < CALENDAR_DAYS then DateOnly(day) else Unparsed(false, false)
  }

  /** `Format(time.RFC3339)` drops the fraction of a second. */
  function FormatTimestamp(at: int): DateText {
    var day := at / TICKS_PER_DAY;
    if 0 <= day < CALENDAR_DAYS then Timestamp(WholeSeconds(at)) else Unparsed(false, true)
  }

  function WholeSeconds(at: int): int {
    at / TICKS_PER_SECOND * TICKS_PER_SECOND
  }

  predicate Leap(year: nat) {
    year % 4 == 0 && (year % 100 != 0 || year % 400 == 0)
  }

  /** Months are numbered from January of year 0. */
  function MonthLength(month: nat): (days: nat)
    ensures 28 <= days <= 31
  {
    var m := month % 12;
    if m == 1 then (if Leap(month / 12) then 29 else 28)
    else if m == 3 || m == 5 || m == 8 || m == 10 then 30
    else 31
  }

  /** The first day of a month. */
  function MonthStart(month: nat): nat {
    if month == 0 then 0 else MonthStart(month - 1) + MonthLength(month - 1)
  }

  lemma {:induction false} MonthsForward(month: nat, n: nat)
    ensures 28 * n <= MonthStart(month + n) - MonthStart(month)
  {
    if n > 0 {
      MonthsForward(month, n - 1);
    }
  }

  /** The month a day lies in, searched upwards from a month that does not start after it. */
  function MonthFrom(day: nat, month: nat): (m: nat)
    requires MonthStart(month) <= day
    ensures MonthStart(m) <= day < MonthStart(m + 1)
    decreases day - MonthStart(month)
  {
    if day < MonthStart(month + 1) then month else MonthFrom(day, month + 1)
  }

  /** An instant moved by seconds, which wrap; the fraction of a second stays. */
  function Shift(at: int, seconds: int): int {
    Wrap(at / TICKS_PER_SECOND + seconds) * TICKS_PER_SECOND + at % TICKS_PER_SECOND
  }

  /** `AddDate(0, 0, n)`. */
  function AddDays(at: int, n: Int64): int {
    Shift(at, n * SECONDS_PER_DAY)
  }

  /** The same day `n` months on, counted from the first of its month. */
  function MonthsOn(at: nat, n: nat): nat {
    var day := at / TICKS_PER_DAY;
    var month := MonthFrom(day, 0);
    (MonthStart(month + n) + (day - MonthStart(month))) * TICKS_PER_DAY + at % TICKS_PER_DAY
  }

  /**
   * `AddDate(0, n, 0)`: a day past the end of the target month runs into the next one. The
   * calendar repeats every 400 years.
   */
  function AddMonths(at: int, n: nat): int
    decreases if at < 0 then -at else 0
  {
    if at < 0 then AddMonths(at + CYCLE_DAYS * TICKS_PER_DAY, n) - CYCLE_DAYS * TICKS_PER_DAY else MonthsOn(at, n)
  }

  lemma MonthsFromNow(at: nat, n: nat)
    ensures MonthsOn(at, n) >= at + 28 * n * TICKS_PER_DAY
  {
    var day := at / TICKS_PER_DAY;
    var month := MonthFrom(day, 0);
    MonthsForward(month, n);
    LaterBy(at, MonthStart(month + n) - MonthStart(month), 28 * n);
  }

  lemma LaterBy(at: nat, days: int, least: int)
    requires days >= least
    ensures (at / TICKS_PER_DAY + days) * TICKS_PER_DAY + at % TICKS_PER_DAY >= at + least * TICKS_PER_DAY
  {
    assert at == at / TICKS_PER_DAY * TICKS_PER_DAY + at % TICKS_PER_DAY;
  }

  lemma {:induction false} AddMonthsAdvances(at: int, n: nat)
    ensures AddMonths(at, n) >= at + 28 * n * TICKS_PER_DAY
    decreases if at < 0 then -at else 0
  {
    if at < 0 {
      AddMonthsAdvances(at + CYCLE_DAYS * TICKS_PER_DAY, n);
    } else {
      MonthsFromNow(at, n);
    }
  }

  /** Moving twice is moving once by twice as much. */
  lemma ShiftTwice(at: int, seconds: int)
    ensures Shift(Shift(at, seconds), seconds) == Shift(at, 2 * seconds)
  {
    var once := Wrap(at / TICKS_PER_SECOND + seconds);
    assert Shift(at, seconds) == once * TICKS_PER_SECOND + at % TICKS_PER_SECOND;
    assert Shift(at, seconds) / TICKS_PER_SECOND == once;
    assert Shift(at, seconds) % TICKS_PER_SECOND == at % TICKS_PER_SECOND;
    WrapSum(at / TICKS_PER_SECOND + seconds, seconds);
  }

  /** How far a date moves: by the wrapped seconds, or out of the calendar. */
  lemma ShiftedDate(at: Instant, seconds: int)
    ensures FormatDate(Shift(at, seconds)) == FormatDate(at + Wrap(seconds) * TICKS_PER_SECOND)
  {
    var whole, moved := at / TICKS_PER_SECOND, Wrap(seconds);
    WrapSum(seconds, whole);
    assert at == whole * TICKS_PER_SECOND + at % TICKS_PER_SECOND;
    assert Shift(at, seconds) == Wrap(whole + moved) * TICKS_PER_SECOND + at % TICKS_PER_SECOND;
    if whole + moved > MAX_INT {
      WrapUnique(whole + moved, 1, whole + moved - 0x1_0000_0000_0000_0000);
    } else if whole + moved < MIN_INT {
      WrapUnique(whole + moved, -1, whole + moved + 0x1_0000_0000_0000_0000);
    } else {
      WrapUnique(whole + moved, 0, whole + moved);
    }
  }

  /** What a date says of the instant it was cut from. */
  lemma FormatDateFloor(at: int)
    ensures Parse(FormatDate(at)).Some? <==> 0 <= at / TICKS_PER_DAY < CALENDAR_DAYS
    ensures Parse(FormatDate(at)).Some? ==> at - TICKS_PER_DAY < Parse(FormatDate(at)).value <= at
    ensures Parse(FormatDate(at)).Some? ==> Parse(FormatDate(at)).value == at / TICKS_PER_DAY * TICKS_PER_DAY
  {
    assert at == at / TICKS_PER_DAY * TICKS_PER_DAY + at % TICKS_PER_DAY;
  }

  // ----- the calendar -----

  function DaysBefore(year: nat): int {
    365 * year + (year + 3) / 4 - (year + 99) / 100 + (year + 399) / 400
  }

  /** Years have 365 days, and 366 every fourth year, but not at centuries, but at every fourth one. */
  lemma JanuaryFirst(year: nat)
    ensures MonthStart(12 * year) == DaysBefore(year)
  {
    for y := 0 to year
      invariant MonthStart(12 * y) == DaysBefore(y)
    {
      YearLength(y);
      LeapDay(y);
      assert 12 * (y + 1) == 12 * y + 12;
    }
  }

  lemma FourthYear(year: nat)
    ensures (year + 4) / 4 == (year + 3) / 4 + if year % 4 == 0 then 1 else 0
  {
  }

  lemma Century(year: nat)
    ensures (year + 100) / 100 == (year + 99) / 100 + if year % 100 == 0 then 1 else 0
  {
  }

  lemma FourthCentury(year: nat)
    ensures (year + 400) / 400 == (year + 399) / 400 + if year % 400 == 0 then 1 else 0
  {
  }

  lemma LeapParts(year: nat)
    ensures year % 400 == 0 ==> year % 100 == 0
    ensures year % 100 == 0 ==> year % 4 == 0
  {
    if year % 400 == 0 {
      var k := year / 400;
      assert year == 100 * (4 * k);
    }
    if year % 100 == 0 {
      var k := year / 100;
      assert year == 4 * (25 * k);
    }
  }

  lemma LeapDay(year: nat)
    ensures DaysBefore(year + 1) == DaysBefore(year) + if Leap(year) then 366 else 365
  {
    FourthYear(year);
    Century(year);
    FourthCentury(year);
    LeapParts(year);
  }

  /** The length of a month by its place in the year. */
  lemma MonthOfYear(year: nat, month: nat)
    requires month < 12
    ensures MonthStart(12 * year + month + 1) == MonthStart(12 * year + month)
            + if month == 1 then (if Leap(year) then 29 else 28) else if month in {3, 5, 8, 10} then 30 else 31
  {
    assert (12 * year + month) / 12 == year && (12 * year + month) % 12 == month;
  }

  /** Three months from the first of a quarter on. */
  lemma Quarter(year: nat, quarter: nat)
    requires quarter < 4
    ensures MonthStart(12 * year + 3 * quarter + 3) == MonthStart(12 * year + 3 * quarter)
            + if quarter == 0 then (if Leap(year) then 91 else 90) else if quarter == 1 then 91 else 92
  {
    MonthOfYear(year, 3 * quarter);
    MonthOfYear(year, 3 * quarter + 1);
    MonthOfYear(year, 3 * quarter + 2);
  }

  lemma YearLength(year: nat)
    ensures MonthStart(12 * year + 12) == MonthStart(12 * year) + if Leap(year) then 366 else 365
  {
    Quarter(year, 0);
    Quarter(year, 1);
    Quarter(year, 2);
    Quarter(year, 3);
  }

  lemma LeapRepeats(year: nat)
    ensures Leap(year + 400) == Leap(year)
  {
    assert (year + 400) % 4 == year % 4;
    assert (year + 400) % 100 == year % 100;
    assert (year + 400) % 400 == year % 400;
  }

  lemma LengthRepeats(month: nat)
    ensures MonthLength(month + 4800) == MonthLength(month)
  {
    assert (month + 4800) / 12 == month / 12 + 400;
    assert (month + 4800) % 12 == month % 12;
    LeapRepeats(month / 12);
  }

  /** The calendar repeats after 400 years. */
  lemma {:induction false} MonthsRepeat(month: nat)
    ensures MonthStart(month + 4800) == MonthStart(month) + CYCLE_DAYS
  {
    if month == 0 {
      JanuaryFirst(400);
    } else {
      MonthsRepeat(month - 1);
      LengthRepeats(month - 1);
    }
  }

  /** Days that parse end where the year 10000 begins. */
  lemma CalendarEnds()
    ensures MonthStart(12 * 10_000) == CALENDAR_DAYS
  {
    JanuaryFirst(10_000);
  }

  lemma MonthUnique(day: nat, a: nat, b: nat)
    requires MonthStart(a) <= day < MonthStart(a + 1) && MonthStart(b) <= day < MonthStart(b + 1)
    ensures a == b
  {
    if a < b {
      MonthsForward(a + 1, b - a - 1);
    } else if b < a {
      MonthsForward(b + 1, a - b - 1);
    }
  }

  /** `month`, counted from year -400, is the month that a day lies in. */
  predicate InMonth(day: int, month: nat) {
    MonthStart(month) <= day + CYCLE_DAYS < MonthStart(month + 1)
  }

  /** The same day of a later month, counted from its first day, and so into the next if it is short. */
  function SameDayLater(day: int, month: nat, n: nat): int {
    MonthStart(month + n) + (day - MonthStart(month))
  }

  lemma MonthsFromYearZero(at: nat, n: nat, month: nat)
    requires InMonth(at / TICKS_PER_DAY, month)
    ensures MonthsOn(at, n) == SameDayLater(at / TICKS_PER_DAY, month, n) * TICKS_PER_DAY + at % TICKS_PER_DAY
  {
    var day := at / TICKS_PER_DAY;
    var m := MonthFrom(day, 0);
    CycleMonth(day, m, month);
    MonthsRepeat(m);
    MonthsRepeat(m + n);
    assert SameDayLater(day, month, n) == MonthStart(m + n) + (day - MonthStart(m));
  }

  lemma CycleMonth(day: nat, m: nat, month: nat)
    requires MonthStart(m) <= day < MonthStart(m + 1) && InMonth(day, month)
    ensures month == m + 4800
  {
    MonthsRepeat(m);
    MonthsRepeat(m + 1);
    MonthUnique(day + CYCLE_DAYS, m + 4800, month);
  }

  lemma CycleUp(at: int)
    ensures (at + CYCLE_DAYS * TICKS_PER_DAY) / TICKS_PER_DAY == at / TICKS_PER_DAY + CYCLE_DAYS
    ensures (at + CYCLE_DAYS * TICKS_PER_DAY) % TICKS_PER_DAY == at % TICKS_PER_DAY
  {
  }

  lemma MonthsBeforeYearZero(at: int, n: nat, month: nat)
    requires at < 0 <= at + CYCLE_DAYS * TICKS_PER_DAY && InMonth(at / TICKS_PER_DAY, month)
    ensures MonthsOn(at + CYCLE_DAYS * TICKS_PER_DAY, n)
            == (SameDayLater(at / TICKS_PER_DAY, month, n) + CYCLE_DAYS) * TICKS_PER_DAY + at % TICKS_PER_DAY
  {
    var day, up := at / TICKS_PER_DAY, at + CYCLE_DAYS * TICKS_PER_DAY;
    CycleUp(at);
    assert up / TICKS_PER_DAY == day + CYCLE_DAYS;
    MonthUnique(day + CYCLE_DAYS, MonthFrom(up / TICKS_PER_DAY, 0), month);
  }

  /** Adding months is going to the same day of a later month. */
  lemma AddMonthsMeans(at: int, n: nat, month: nat)
    requires at + CYCLE_DAYS * TICKS_PER_DAY >= 0 && InMonth(at / TICKS_PER_DAY, month)
    ensures AddMonths(at, n) == SameDayLater(at / TICKS_PER_DAY, month, n) * TICKS_PER_DAY + at % TICKS_PER_DAY
  {
    if at < 0 {
      MonthsBeforeYearZero(at, n, month);
    } else {
      MonthsFromYearZero(at, n, month);
    }
  }
}
