/** What every run of several publishers over the outbox keeps. */
module OutboxTheorems {
  import opened Integers
  import opened Outbox
  import opened Wrappers

  // ----- backoff, exactly -----

  const HALF: int := 0x8000_0000_0000_0000

  /** 10^9 is 2^9 times this odd number. */
  const ODD: nat := 1_953_125

  /** Bit `54 - n` of 5^9 is clear: the multiplication by one second does not leave a negative number. */
  predicate Sound(n: nat) {
    n <= 54 && Upper(n) % 2 == 0
  }

  function Upper(n: nat): nat
    requires n <= 54
  {
    ODD / Pow2(54 - n)
  }

  /** What the bits of 5^9 below bit `54 - n` contribute to the product. */
  function Lower(n: nat): nat
    requires n <= 54
  {
    Pow2(n + 9) * (ODD % Pow2(54 - n))
  }

  /** Splitting off a multiple of 2^63 decides the sign of the wrapped product. */
  lemma WrapHalves(x: nat, q: nat, rest: nat)
    requires rest < HALF && x == q * HALF + rest
    ensures Wrap(x) == if q % 2 == 0 then rest else rest - HALF
  {
    var k := q / 2;
    if q % 2 == 0 {
      WrapUnique(x, k, rest);
    } else {
      WrapUnique(x, k + 1, rest - HALF);
    }
  }

  /** Cutting a product at a power of two that one factor completes. */
  lemma Cut(p: nat, m: nat, unit: nat, half: nat)
    requires p >= 1 && unit >= 1 && p * unit == half
    ensures p * m == m / unit * half + p * (m % unit)
    ensures p * (m % unit) < half
  {
    var q, r := m / unit, m % unit;
    assert m == q * unit + r;
    calc {
      p * m;
      p * (q * unit + r);
      p * (q * unit) + p * r;
      q * (p * unit) + p * r;
    }
    assert p * r < p * unit;
  }

  /** Seconds as a product of a power of two and an odd number, cut at bit 63. */
  lemma SecondsSplit(n: nat)
    requires n <= 54
    ensures Pow2(n) * SECOND == Upper(n) * HALF + Lower(n) && Lower(n) < HALF
  {
    assert Pow2(n + 9) * Pow2(54 - n) == HALF by {
      Pow2Split(n + 9, 54 - n);
      Pow2Values();
    }
    assert Pow2(n + 9) == Pow2(n) * 512 by {
      Pow2Split(n, 9);
      Pow2Values();
    }
    Cut(Pow2(n + 9), ODD, Pow2(54 - n), HALF);
  }

  /** An odd number leaves a rest when halved repeatedly. */
  lemma OddRest(half: nat)
    requires half >= 1
    ensures ODD % (2 * half) >= 1
  {
    var unit := 2 * half;
    var q := ODD / unit;
    assert ODD == q * unit + ODD % unit;
    assert q * unit == 2 * (q * half);
  }

  lemma WrappedSeconds(n: nat)
    requires 1 <= n <= 54
    ensures var d := Wrap(Pow2(n) * SECOND); if Sound(n) then d == Lower(n) && d >= 2 * SECOND else d < 0
  {
    SecondsSplit(n);
    WrapHalves(Pow2(n) * SECOND, Upper(n), Lower(n));
    if Sound(n) {
      SoundRest(n);
    }
  }

  lemma SoundRest(n: nat)
    requires 1 <= n && Sound(n)
    ensures Lower(n) >= 2 * SECOND
  {
    if n > 33 {
      assert n != 54 by { assert Upper(54) == ODD; }
      OddRest(Pow2(53 - n));
      assert Pow2(n + 9) >= 0x800_0000_0000 by {
        Pow2Values();
        Pow2Monotone(43, n + 9);
      }
      AtLeast(Pow2(n + 9), ODD % Pow2(54 - n), 1);
    } else {
      SmallBelow(n);
      assert Pow2(n + 9) >= 1024 by {
        Pow2Values();
        Pow2Monotone(10, n + 9);
      }
      AtLeast(Pow2(n + 9), ODD, ODD);
    }
  }

  lemma SmallBelow(n: nat)
    requires n <= 33
    ensures Upper(n) == 0 && ODD % Pow2(54 - n) == ODD
  {
    assert Pow2(54 - n) > ODD by {
      Pow2Values();
      Pow2Monotone(21, 54 - n);
    }
    Below(ODD, Pow2(54 - n));
  }

  lemma Below(a: nat, b: nat)
    requires a < b
    ensures a / b == 0 && a % b == a
  {
  }

  lemma AtLeast(p: nat, r: nat, least: nat)
    requires r >= least
    ensures p * r >= p * least
  {
  }

  /** From 55 attempts on all bits of the product but the sign are lost. */
  lemma NoDelay(attempts: nat, cpu: Processor)
    requires attempts > 54
    ensures BackoffFor(attempts, MAX_BACKOFF, cpu) <= 0
  {
    if attempts <= 62 {
      Pow2Split(55, attempts - 55);
      Pow2Values();
      WrapHalves(Pow2(attempts) * SECOND, Pow2(attempts - 55) * ODD * 2, 0);
    } else {
      assert Wrap(MIN_INT * SECOND) == 0;
      assert Wrap(MAX_INT * SECOND) == -SECOND;
    }
  }

  /**
   * The backoff lies between two seconds and the cap if and only if bit `54 - attempts` of
   * 5^9 is clear; every other count yields no delay at all, or a negative one.
   */
  lemma BackoffExact(attempts: nat, cpu: Processor)
    requires attempts >= 1
    ensures var d := BackoffFor(attempts, MAX_BACKOFF, cpu);
            && d <= MAX_BACKOFF
            && (2 * SECOND <= d <==> Sound(attempts))
            && (!Sound(attempts) ==> d <= 0)
  {
    if attempts <= 54 {
      WrappedSeconds(attempts);
    } else {
      NoDelay(attempts, cpu);
    }
  }

  /** Up to 33 attempts the delay is the capped power of two. */
  lemma BackoffValue(attempts: nat, cpu: Processor)
    requires 1 <= attempts <= 33
    ensures Sound(attempts)
    ensures var seconds := Pow2(attempts) * SECOND;
            BackoffFor(attempts, MAX_BACKOFF, cpu) == if seconds > MAX_BACKOFF then MAX_BACKOFF else seconds
  {
    SmallBelow(attempts);
    assert Pow2(attempts) <= 0x2_0000_0000 by {
      Pow2Values();
      Pow2Monotone(attempts, 33);
    }
    WrapHalves(Pow2(attempts) * SECOND, 0, Pow2(attempts) * SECOND);
  }

  lemma BackoffMonotone(a: nat, b: nat, cpu: Processor)
    requires 1 <= a <= b <= 33
    ensures BackoffFor(a, MAX_BACKOFF, cpu) <= BackoffFor(b, MAX_BACKOFF, cpu)
  {
    BackoffValue(a, cpu);
    BackoffValue(b, cpu);
    Pow2Monotone(a, b);
  }

  const LEASE_MICROS: int := 1_000_000
  const CAP_MICROS: int := 300_000_000

  /** Recording a failure leaves at least one second of lease if and only if the attempts are sound. */
  lemma FailureKeepsLease(r: Row, now: int, attempts: nat, cpu: Processor)
    requires attempts >= 1
    ensures var r' := RecordFailed(r, now, BackoffFor(attempts, MAX_BACKOFF, cpu));
            && r'.availableAt <= now + CAP_MICROS
            && (r'.availableAt >= now + LEASE_MICROS <==> Sound(attempts))
            && (!Sound(attempts) && !r.dispatched ==> Due(r', now))
  {
    BackoffExact(attempts, cpu);
  }

  /** A claim counts an attempt and keeps the row from others for a second; rows not claimed stay as they are. */
  lemma ClaimExactly(s: State, p: nat, ids: seq<nat>, cpu: Processor, i: nat)
    requires p < |s.publishers| && s.publishers[p].hand == [] && Claimable(s, ids)
    requires i < |s.rows| == |s.claimedAt|
    ensures var rows := Do(s, ClaimBatch(p, ids), cpu).rows;
            rows[i] == if i in ids then Row(false, s.now + LEASE_MICROS, s.rows[i].attempts + 1) else s.rows[i]
  {
  }

  lemma MicrosOf(seconds: nat, d: Int64)
    requires d == seconds * 1_000_000_000
    ensures Micros(d) == seconds * 1_000_000
  {
    var value: int := d;
    assert value == seconds * 1000 * 1_000_000;
    assert value / 1_000_000 == seconds * 1000;
  }

  lemma RetryDelay(attempts: nat, cpu: Processor)
    requires 1 <= attempts <= 33
    ensures Micros(BackoffFor(attempts, MAX_BACKOFF, cpu))
            == (if Pow2(attempts) > 300 then 300 else Pow2(attempts)) * 1_000_000
  {
    BackoffValue(attempts, cpu);
    var power := Pow2(attempts);
    MicrosOf(if power > 300 then 300 else power, BackoffFor(attempts, MAX_BACKOFF, cpu));
  }

  /** A failure that is recorded has its row retried after 2^attempts seconds, or 300, and changes nothing else. */
  lemma RetryExactly(s: State, p: nat, cpu: Processor)
    requires p < |s.publishers| && s.publishers[p].hand != [] && s.publishers[p].outcome == Some(false)
    requires |s.claimedAt| == |s.rows| && s.publishers[p].hand[0].id < |s.rows|
    requires 1 <= s.publishers[p].hand[0].attempts <= 33
    ensures var c := s.publishers[p].hand[0];
            var seconds := if Pow2(c.attempts) > 300 then 300 else Pow2(c.attempts);
            Do(s, Record(p, true), cpu).rows
            == s.rows[c.id := s.rows[c.id].(availableAt := s.now + seconds * 1_000_000)]
  {
    RetryDelay(s.publishers[p].hand[0].attempts, cpu);
  }

  // ----- every run -----

  ghost predicate RowOk(s: State, i: nat)
    requires i < |s.rows| && |s.claimedAt| == |s.rows|
  {
    && s.rows[i].attempts == |s.claimedAt[i]|
    && (s.rows[i].dispatched ==> i in s.delivered)
    && s.rows[i].availableAt <= s.now + CAP_MICROS
  }

  ghost predicate HandOk(s: State, me: Publisher) {
    && (forall c | c in me.hand :: c.id < |s.rows| && 1 <= c.attempts <= s.rows[c.id].attempts)
    && (me.outcome.Some? ==> me.hand != [])
    && (me.outcome == Some(true) ==> me.hand[0].id in s.delivered)
  }

  ghost predicate Inv(s: State) {
    && |s.claimedAt| == |s.rows|
    && (forall i | 0 <= i < |s.rows| :: RowOk(s, i))
    && (forall p | 0 <= p < |s.publishers| :: HandOk(s, s.publishers[p]))
  }

  /** Rows only gain attempts, and the delivery log only grows. */
  ghost predicate Grows(s: State, s': State) {
    && s.now <= s'.now && |s.rows| <= |s'.rows|
    && (forall i | 0 <= i < |s.rows| :: s.rows[i].attempts <= s'.rows[i].attempts)
    && (forall id | id in s.delivered :: id in s'.delivered)
  }

  lemma HandsPersist(s: State, s': State, p: nat)
    requires Inv(s) && Grows(s, s')
    requires |s'.publishers| == |s.publishers|
    requires forall q | 0 <= q < |s.publishers| && q != p :: s'.publishers[q] == s.publishers[q]
    requires p < |s.publishers| ==> HandOk(s', s'.publishers[p])
    ensures forall q | 0 <= q < |s'.publishers| :: HandOk(s', s'.publishers[q])
  {
    forall q | 0 <= q < |s'.publishers| ensures HandOk(s', s'.publishers[q]) {
      if q != p {
        assert HandOk(s, s.publishers[q]);
      }
    }
  }

  lemma ClaimKeeps(s: State, p: nat, ids: seq<nat>)
    requires Inv(s) && p < |s.publishers| && Claimable(s, ids)
    ensures Inv(DoClaim(s, p, ids)) && Grows(s, DoClaim(s, p, ids))
  {
    var s' := DoClaim(s, p, ids);
    forall i | 0 <= i < |s'.rows| ensures RowOk(s', i) {
      assert RowOk(s, i);
    }
    var hand := s'.publishers[p].hand;
    forall c | c in hand ensures c.id < |s'.rows| && 1 <= c.attempts <= s'.rows[c.id].attempts {
      var k :| 0 <= k < |hand| && hand[k] == c;
      assert ids[k] in ids;
    }
    HandsPersist(s, s', p);
  }

  lemma DispatchKeeps(s: State, p: nat, ok: bool, arrived: bool)
    requires Inv(s) && p < |s.publishers| && s.publishers[p].hand != []
    ensures Inv(DoDispatch(s, p, ok, arrived)) && Grows(s, DoDispatch(s, p, ok, arrived))
  {
    var s' := DoDispatch(s, p, ok, arrived);
    forall i | 0 <= i < |s'.rows| ensures RowOk(s', i) {
      assert RowOk(s, i);
    }
    assert HandOk(s, s.publishers[p]);
    HandsPersist(s, s', p);
  }

  lemma RecordKeeps(s: State, p: nat, written: bool, cpu: Processor)
    requires Inv(s) && p < |s.publishers| && s.publishers[p].hand != [] && s.publishers[p].outcome.Some?
    ensures Inv(DoRecord(s, p, written, cpu)) && Grows(s, DoRecord(s, p, written, cpu))
  {
    var s' := DoRecord(s, p, written, cpu);
    var me := s.publishers[p];
    assert HandOk(s, me);
    var claim := me.hand[0];
    assert claim in me.hand;
    FailureKeepsLease(s.rows[claim.id], s.now, claim.attempts, cpu);
    forall i | 0 <= i < |s'.rows| ensures RowOk(s', i) {
      assert RowOk(s, i);
    }
    assert forall c | c in s'.publishers[p].hand :: c in me.hand;
    HandsPersist(s, s', p);
  }

  lemma StepKeeps(s: State, step: Step, cpu: Processor)
    requires Inv(s)
    ensures Inv(Do(s, step, cpu)) && Grows(s, Do(s, step, cpu))
  {
    var s' := Do(s, step, cpu);
    match step
    case Enqueue =>
      forall i | 0 <= i < |s'.rows| ensures RowOk(s', i) {
        if i < |s.rows| {
          assert RowOk(s, i);
        }
      }
      HandsPersist(s, s', |s.publishers|);
    case Tick(_) =>
      forall i | 0 <= i < |s'.rows| ensures RowOk(s', i) {
        assert RowOk(s, i);
      }
      HandsPersist(s, s', |s.publishers|);
    case ClaimBatch(p, ids) =>
      if s' != s {
        ClaimKeeps(s, p, ids);
      }
    case Dispatch(p, ok, arrived) =>
      if s' != s {
        DispatchKeeps(s, p, ok, arrived);
      }
    case Record(p, written) =>
      if s' != s {
        RecordKeeps(s, p, written, cpu);
      }
    case Crash(p) =>
      forall i | 0 <= i < |s'.rows| ensures RowOk(s', i) {
        assert RowOk(s, i);
      }
      HandsPersist(s, s', p);
  }

  lemma {:induction false} RunKeeps(s0: State, steps: seq<Step>, n: nat, cpu: Processor)
    requires Initial(s0) && n <= |steps|
    ensures Inv(After(s0, steps, n, cpu))
  {
    if n > 0 {
      RunKeeps(s0, steps, n - 1, cpu);
      StepKeeps(After(s0, steps, n - 1, cpu), steps[n - 1], cpu);
    }
  }

  /**
   * At-least-once delivery. In every run, with crashes, lost acknowledgements and late
   * records, a row marked dispatched did reach the broker, `attempts` counts the claims of
   * the row, and a row that is not dispatched is due again within the backoff cap.
   */
  lemma NothingIsLost(s0: State, steps: seq<Step>, n: nat, cpu: Processor, i: nat)
    requires Initial(s0) && n <= |steps| && i < |After(s0, steps, n, cpu).rows|
    ensures var s := After(s0, steps, n, cpu);
            && (s.rows[i].dispatched ==> i in s.delivered)
            && s.rows[i].attempts == |s.claimedAt[i]|
            && (!s.rows[i].dispatched ==> Due(Do(s, Tick(CAP_MICROS), cpu).rows[i], s.now + CAP_MICROS))
  {
    RunKeeps(s0, steps, n, cpu);
    assert RowOk(After(s0, steps, n, cpu), i);
  }

  /** The step records, and the statement arrives, that the broker took the row in hand. */
  predicate RecordsSuccess(s: State, step: Step, i: nat) {
    && step.Record? && step.written && step.publisher < |s.publishers|
    && var me := s.publishers[step.publisher];
    me.hand != [] && me.hand[0].id == i && me.outcome == Some(true)
  }

  /** A step marks a row dispatched if and only if it records such a success. */
  lemma MarksExactly(s: State, step: Step, cpu: Processor, i: nat)
    requires |s.claimedAt| == |s.rows| && i < |s.rows|
    ensures Do(s, step, cpu).rows[i].dispatched <==> s.rows[i].dispatched || RecordsSuccess(s, step, i)
  {
  }

  ghost predicate Recorded(s0: State, steps: seq<Step>, n: nat, cpu: Processor, i: nat)
    requires n <= |steps| && |s0.claimedAt| == |s0.rows|
  {
    exists k | 0 <= k < n :: RecordsSuccess(After(s0, steps, k, cpu), steps[k], i)
  }

  lemma RecordedStep(s0: State, steps: seq<Step>, n: nat, cpu: Processor, i: nat)
    requires n < |steps| && |s0.claimedAt| == |s0.rows|
    ensures Recorded(s0, steps, n + 1, cpu, i)
            <==> Recorded(s0, steps, n, cpu, i) || RecordsSuccess(After(s0, steps, n, cpu), steps[n], i)
  {
  }

  lemma RowAppears(s: State, step: Step, cpu: Processor, i: nat)
    requires Inv(s) && |s.rows| <= i < |Do(s, step, cpu).rows|
    ensures !Do(s, step, cpu).rows[i].dispatched && !RecordsSuccess(s, step, i)
  {
  }

  lemma NotYetRecorded(s: State, step: Step, i: nat)
    requires Inv(s) && RecordsSuccess(s, step, i)
    ensures i < |s.rows|
  {
    var me := s.publishers[step.publisher];
    assert HandOk(s, me);
    assert me.hand[0] in me.hand;
  }

  ghost predicate MarkedAsRecorded(s0: State, steps: seq<Step>, n: nat, cpu: Processor, i: nat)
    requires n <= |steps| && |s0.claimedAt| == |s0.rows|
  {
    var rows := After(s0, steps, n, cpu).rows;
    i < |rows| ==> (rows[i].dispatched <==> Recorded(s0, steps, n, cpu, i))
  }

  lemma MarkStep(s0: State, steps: seq<Step>, n: nat, cpu: Processor, i: nat)
    requires Initial(s0) && n < |steps| && MarkedAsRecorded(s0, steps, n, cpu, i)
    ensures MarkedAsRecorded(s0, steps, n + 1, cpu, i)
  {
    var s := After(s0, steps, n, cpu);
    RunKeeps(s0, steps, n, cpu);
    RecordedStep(s0, steps, n, cpu, i);
    assert After(s0, steps, n + 1, cpu) == Do(s, steps[n], cpu);
    if i < |s.rows| {
      MarksExactly(s, steps[n], cpu, i);
    } else if i < |Do(s, steps[n], cpu).rows| {
      RowAppears(s, steps[n], cpu, i);
      NoneRecorded(s0, steps, n, cpu, i);
    }
  }

  /**
   * In every run a row is marked dispatched if and only if some step of it recorded that the
   * broker took the row.
   */
  lemma DispatchedExactly(s0: State, steps: seq<Step>, n: nat, cpu: Processor, i: nat)
    requires Initial(s0) && n <= |steps| && i < |After(s0, steps, n, cpu).rows|
    ensures After(s0, steps, n, cpu).rows[i].dispatched <==> Recorded(s0, steps, n, cpu, i)
  {
    for m := 0 to n
      invariant MarkedAsRecorded(s0, steps, m, cpu, i)
    {
      MarkStep(s0, steps, m, cpu, i);
    }
  }

  /** Nothing is recorded of rows that do not exist yet. */
  lemma NoneRecorded(s0: State, steps: seq<Step>, n: nat, cpu: Processor, i: nat)
    requires Initial(s0) && n <= |steps| && |After(s0, steps, n, cpu).rows| <= i
    ensures !Recorded(s0, steps, n, cpu, i)
  {
    forall k | 0 <= k < n ensures !RecordsSuccess(After(s0, steps, k, cpu), steps[k], i) {
      RowsGrow(s0, steps, k, n, cpu);
      RunKeeps(s0, steps, k, cpu);
      if RecordsSuccess(After(s0, steps, k, cpu), steps[k], i) {
        NotYetRecorded(After(s0, steps, k, cpu), steps[k], i);
      }
    }
  }

  lemma {:induction false} RowsGrow(s0: State, steps: seq<Step>, k: nat, n: nat, cpu: Processor)
    requires |s0.claimedAt| == |s0.rows| && k <= n <= |steps|
    ensures |After(s0, steps, k, cpu).rows| <= |After(s0, steps, n, cpu).rows|
  {
    if k < n {
      RowsGrow(s0, steps, k, n - 1, cpu);
    }
  }

  /** Once a row is marked dispatched it stays so and is never claimed again. */
  lemma {:induction false} NeverReclaimed(s0: State, steps: seq<Step>, k: nat, n: nat, cpu: Processor, i: nat)
    requires |s0.claimedAt| == |s0.rows| && k <= n <= |steps|
    requires i < |After(s0, steps, k, cpu).rows| && After(s0, steps, k, cpu).rows[i].dispatched
    ensures var s, s' := After(s0, steps, k, cpu), After(s0, steps, n, cpu);
            i < |s'.rows| && s'.rows[i].dispatched && s'.claimedAt[i] == s.claimedAt[i]
  {
    if k < n {
      NeverReclaimed(s0, steps, k, n - 1, cpu, i);
      var s, step := After(s0, steps, n - 1, cpu), steps[n - 1];
      assert s.rows[i].dispatched;
      if step.ClaimBatch? && Claimable(s, step.ids) {
        assert i !in step.ids;
      }
    }
  }

  // ----- leases -----

  ghost predicate Spaced(times: seq<int>) {
    forall k | 0 < k < |times| :: times[k] >= times[k - 1] + LEASE_MICROS
  }

  /** The row's claims are a second apart, and its lease runs for a second from the last. */
  ghost predicate Leased(s: State, i: nat)
    requires i < |s.rows| && |s.claimedAt| == |s.rows|
  {
    var times := s.claimedAt[i];
    && Spaced(times)
    && (times != [] ==> times[|times| - 1] <= s.now && s.rows[i].availableAt >= times[|times| - 1] + LEASE_MICROS)
  }

  ghost predicate AllLeased(s: State)
    requires |s.claimedAt| == |s.rows|
  {
    forall i | 0 <= i < |s.rows| :: Leased(s, i)
  }

  /** No failure is recorded for a claim whose number of attempts makes the backoff wrap. */
  predicate SoundStep(s: State, step: Step) {
    step.Record? && step.publisher < |s.publishers| && s.publishers[step.publisher].hand != []
    && s.publishers[step.publisher].outcome == Some(false)
    ==> Sound(s.publishers[step.publisher].hand[0].attempts)
  }

  ghost predicate SoundRun(s0: State, steps: seq<Step>, n: nat, cpu: Processor)
    requires n <= |steps| && |s0.claimedAt| == |s0.rows|
  {
    n == 0 || (SoundRun(s0, steps, n - 1, cpu) && SoundStep(After(s0, steps, n - 1, cpu), steps[n - 1]))
  }

  lemma ClaimLeases(s: State, p: nat, ids: seq<nat>)
    requires Inv(s) && AllLeased(s) && p < |s.publishers| && Claimable(s, ids)
    ensures AllLeased(DoClaim(s, p, ids))
  {
    var s' := DoClaim(s, p, ids);
    forall i | 0 <= i < |s'.rows| ensures Leased(s', i) {
      assert Leased(s, i);
    }
  }

  lemma RecordLeases(s: State, p: nat, written: bool, cpu: Processor)
    requires Inv(s) && AllLeased(s) && SoundStep(s, Record(p, written))
    requires p < |s.publishers| && s.publishers[p].hand != [] && s.publishers[p].outcome.Some?
    ensures AllLeased(DoRecord(s, p, written, cpu))
  {
    var s' := DoRecord(s, p, written, cpu);
    var me := s.publishers[p];
    assert HandOk(s, me);
    assert me.hand[0] in me.hand;
    FailureKeepsLease(s.rows[me.hand[0].id], s.now, me.hand[0].attempts, cpu);
    forall i | 0 <= i < |s'.rows| ensures Leased(s', i) {
      assert Leased(s, i);
    }
  }

  lemma StepLeases(s: State, step: Step, cpu: Processor)
    requires Inv(s) && AllLeased(s) && SoundStep(s, step)
    ensures AllLeased(Do(s, step, cpu))
  {
    var s' := Do(s, step, cpu);
    if step.ClaimBatch? && s' != s {
      ClaimLeases(s, step.publisher, step.ids);
    } else if step.Record? && s' != s {
      RecordLeases(s, step.publisher, step.written, cpu);
    } else {
      forall i | 0 <= i < |s'.rows| ensures Leased(s', i) {
        if i < |s.rows| {
          assert Leased(s, i);
        }
      }
    }
  }

  /**
   * Lease safety. As long as no failure is recorded for a wrapping number of attempts, any
   * two claims of one row are at least a second apart, whoever makes them and however late
   * the failures of earlier claims are recorded.
   */
  lemma {:induction false} LeaseSafety(s0: State, steps: seq<Step>, n: nat, cpu: Processor)
    requires Initial(s0) && n <= |steps| && SoundRun(s0, steps, n, cpu)
    ensures AllLeased(After(s0, steps, n, cpu))
  {
    if n > 0 {
      LeaseSafety(s0, steps, n - 1, cpu);
      RunKeeps(s0, steps, n - 1, cpu);
      StepLeases(After(s0, steps, n - 1, cpu), steps[n - 1], cpu);
    }
  }

  ghost predicate Few(s: State) {
    forall r | r in s.rows :: r.attempts <= 33
  }

  /** Runs in which no row has been claimed more than 33 times are sound. */
  lemma {:induction false} FewClaimsSound(s0: State, steps: seq<Step>, n: nat, cpu: Processor)
    requires Initial(s0) && n <= |steps| && Few(After(s0, steps, n, cpu))
    ensures SoundRun(s0, steps, n, cpu)
  {
    if n > 0 {
      var s, step := After(s0, steps, n - 1, cpu), steps[n - 1];
      RunKeeps(s0, steps, n - 1, cpu);
      StepKeeps(s, step, cpu);
      FewBefore(s, Do(s, step, cpu));
      FewClaimsSound(s0, steps, n - 1, cpu);
      if step.Record? && step.publisher < |s.publishers| && s.publishers[step.publisher].hand != [] {
        var me := s.publishers[step.publisher];
        assert HandOk(s, me);
        assert me.hand[0] in me.hand;
        assert s.rows[me.hand[0].id] in s.rows;
        BackoffValue(me.hand[0].attempts, cpu);
      }
    }
  }

  lemma FewBefore(s: State, s': State)
    requires Grows(s, s') && Few(s')
    ensures Few(s)
  {
    forall r | r in s.rows ensures r.attempts <= 33 {
      var i :| 0 <= i < |s.rows| && s.rows[i] == r;
      assert s'.rows[i] in s'.rows;
    }
  }

  lemma Unsound34()
    ensures !Sound(34)
  {
    assert Pow2(20) == 0x10_0000 by {
      Pow2Values();
      Pow2Split(10, 10);
    }
  }

  lemma {:induction false} AfterConcat(s: State, first: seq<Step>, second: seq<Step>, n: nat, cpu: Processor)
    requires |s.claimedAt| == |s.rows| && n <= |second|
    ensures After(s, first + second, |first| + n, cpu) == After(After(s, first, |first|, cpu), second, n, cpu)
  {
    if n > 0 {
      AfterConcat(s, first, second, n - 1, cpu);
    } else {
      AfterPrefix(s, first, second, |first|, cpu);
    }
  }

  lemma {:induction false} AfterPrefix(s: State, first: seq<Step>, second: seq<Step>, n: nat, cpu: Processor)
    requires |s.claimedAt| == |s.rows| && n <= |first|
    ensures After(s, first + second, n, cpu) == After(s, first, n, cpu)
  {
    if n > 0 {
      AfterPrefix(s, first, second, n - 1, cpu);
    }
  }

  const IDLE := Publisher([], None)
  const HOLDING := Publisher([Claim(0, 34)], None)
  const START := State(0, [], [IDLE, IDLE], [], [])

  /** One event, and a publisher that claims it and crashes, once a second, `n` times over. */
  function Crashes(n: nat): seq<Step> {
    if n == 0 then [Enqueue] else Crashes(n - 1) + [Step.ClaimBatch(0, [0]), Crash(0), Tick(LEASE_MICROS)]
  }

  function Claimed(n: nat, now: int, times: seq<int>): State {
    State(now, [Row(false, now, n)], [IDLE, IDLE], [times], [])
  }

  /** A claim of the only row of a table. */
  lemma ClaimSingle(s: State, p: nat, cpu: Processor)
    requires |s.rows| == 1 && |s.claimedAt| == 1 && Due(s.rows[0], s.now)
    requires p < |s.publishers| && s.publishers[p].hand == []
    ensures var row := ClaimRow(s.rows[0], s.now, LEASE);
            Do(s, Step.ClaimBatch(p, [0]), cpu)
            == s.(rows := [row], claimedAt := [s.claimedAt[0] + [s.now]],
                  publishers := s.publishers[p := Publisher([Claim(0, row.attempts)], None)])
  {
    var row, ids := ClaimRow(s.rows[0], s.now, LEASE), [0];
    assert ids[0] in ids && Claimable(s, ids);
    var s' := DoClaim(s, p, ids);
    assert |s'.rows| == 1 && s'.rows[0] == row;
    assert |s'.claimedAt| == 1 && s'.claimedAt[0] == s.claimedAt[0] + [s.now];
    assert |Claims(s'.rows, ids)| == 1 && Claims(s'.rows, ids)[0] == Claim(0, row.attempts);
    assert s'.rows == [row] && s'.claimedAt == [s.claimedAt[0] + [s.now]];
    assert Claims(s'.rows, ids) == [Claim(0, row.attempts)];
  }

  lemma CrashRound(n: nat, now: int, times: seq<int>, cpu: Processor)
    ensures After(Claimed(n, now, times), [Step.ClaimBatch(0, [0]), Crash(0), Tick(LEASE_MICROS)], 3, cpu)
            == Claimed(n + 1, now + LEASE_MICROS, times + [now])
  {
    var s, steps := Claimed(n, now, times), [Step.ClaimBatch(0, [0]), Crash(0), Tick(LEASE_MICROS)];
    ClaimSingle(s, 0, cpu);
    var s1 := Do(s, steps[0], cpu);
    var s2 := s1.(publishers := [IDLE, IDLE]);
    assert Do(s1, steps[1], cpu) == s2;
    assert After(s, steps, 1, cpu) == s1 && After(s, steps, 2, cpu) == s2;
  }

  lemma {:induction false} ManyCrashes(n: nat, cpu: Processor) returns (times: seq<int>)
    ensures |times| == n && After(START, Crashes(n), |Crashes(n)|, cpu) == Claimed(n, n * LEASE_MICROS, times)
  {
    if n == 0 {
      times := [];
      assert After(START, [Enqueue], 0, cpu) == START;
    } else {
      var before := ManyCrashes(n - 1, cpu);
      times := before + [(n - 1) * LEASE_MICROS];
      AfterConcat(START, Crashes(n - 1), [Step.ClaimBatch(0, [0]), Crash(0), Tick(LEASE_MICROS)], 3, cpu);
      CrashRound(n - 1, (n - 1) * LEASE_MICROS, before, cpu);
    }
  }

  lemma ClaimExhausted(now: int, times: seq<int>, cpu: Processor)
    ensures Do(Claimed(33, now, times), Step.ClaimBatch(0, [0]), cpu)
            == State(now, [Row(false, now + LEASE_MICROS, 34)], [HOLDING, IDLE], [times + [now]], [])
  {
    ClaimSingle(Claimed(33, now, times), 0, cpu);
  }

  lemma RecordExhausted(now: int, claimed: seq<seq<int>>, cpu: Processor) returns (r: Row)
    requires |claimed| == 1
    ensures !r.dispatched && r.availableAt <= now
    ensures var s := State(now, [Row(false, now + LEASE_MICROS, 34)], [HOLDING.(outcome := Some(false)), IDLE],
            claimed, []);
            Do(s, Record(0, true), cpu) == s.(rows := [r], publishers := [IDLE, IDLE])
  {
    var row := Row(false, now + LEASE_MICROS, 34);
    r := RecordFailed(row, now, BackoffFor(34, MAX_BACKOFF, cpu));
    Unsound34();
    FailureKeepsLease(row, now, 34, cpu);
    assert [Claim(0, 34)][1..] == [];
  }

  lemma ClaimAtOnce(now: int, r: Row, claimed: seq<seq<int>>, cpu: Processor)
    requires |claimed| == 1 && !r.dispatched && r.availableAt <= now
    ensures Do(State(now, [r], [IDLE, IDLE], claimed, []), Step.ClaimBatch(1, [0]), cpu).claimedAt ==
              [claimed[0] + [now]]
  {
    ClaimSingle(State(now, [r], [IDLE, IDLE], claimed, []), 1, cpu);
  }

  const LAST_FAILURE := [Step.ClaimBatch(0, [0]), Dispatch(0, false, false), Record(0, true), Step.ClaimBatch(1, [0])]

  lemma FailureWraps(now: int, times: seq<int>, cpu: Processor)
    ensures After(Claimed(33, now, times), LAST_FAILURE, 4, cpu).claimedAt == [times + [now] + [now]]
  {
    var s, steps := Claimed(33, now, times), LAST_FAILURE;
    ClaimExhausted(now, times, cpu);
    var s1 := State(now, [Row(false, now + LEASE_MICROS, 34)], [HOLDING, IDLE], [times + [now]], []);
    var s2 := s1.(publishers := [HOLDING.(outcome := Some(false)), IDLE]);
    assert Do(s1, steps[1], cpu) == s2;
    var r := RecordExhausted(now, [times + [now]], cpu);
    var s3 := State(now, [r], [IDLE, IDLE], [times + [now]], []);
    assert After(s, steps, 1, cpu) == s1 && After(s, steps, 2, cpu) == s2;
    assert After(s, steps, 3, cpu) == s3;
    ClaimAtOnce(now, r, [times + [now]], cpu);
  }

  lemma WrapsAfter(n: nat, cpu: Processor)
    requires n == 33
    ensures var steps := Crashes(n) + LAST_FAILURE;
            var times := After(START, steps, |steps|, cpu).claimedAt;
            |times| == 1 && |times[0]| == 35 && times[0][33] == times[0][34]
  {
    var times := ManyCrashes(n, cpu);
    FailureWraps(n * LEASE_MICROS, times, cpu);
    AfterConcat(START, Crashes(n), LAST_FAILURE, 4, cpu);
  }

  /**
   * A run from the start in which the 34th failure wraps: after 33 claims and a recorded failure
   * of the 34th, the row is claimed again by another publisher at the same instant.
   */
  lemma WrappedBackoffBreaksLease(cpu: Processor)
    ensures var steps := Crashes(33) + LAST_FAILURE;
            var times := After(START, steps, |steps|, cpu).claimedAt;
            && Initial(START)
            && |times| == 1 && |times[0]| == 35 && times[0][33] == times[0][34]
  {
    WrapsAfter(33, cpu);
  }

  // ----- polling -----

  /** The poll interval stays between the base and the idle maximum, and work resets it. */
  lemma {:induction false} IntervalBounds(drains: seq<Option<nat>>)
    ensures TICK <= Intervals(drains) <= IDLE_MAX
    ensures drains != [] && drains[|drains| - 1].Some? && drains[|drains| - 1].value > 0 ==> Intervals(drains) == TICK
    ensures |drains| >= 2 && Idle(drains[|drains| - 1]) && Idle(drains[|drains| - 2]) ==> Intervals(drains) == IDLE_MAX
  {
    if drains != [] {
      var init := drains[..|drains| - 1];
      IntervalBounds(init);
      if |drains| >= 2 {
        IntervalBounds(init[..|init| - 1]);
      }
    }
  }

  /** A drain that failed or found nothing. */
  predicate Idle(drained: Option<nat>) {
    drained.None? || drained.value == 0
  }
}
