/**
 * The event outbox: a table of pending rows that several publishers drain through leases.
 * Durations are nanoseconds, as in Go; instants of the database clock are microseconds.
 */
module Outbox {
  import opened Integers
  import opened Wrappers

  const SECOND: Int64 := 1_000_000_000
  const MAX_BACKOFF: Int64 := 300 * SECOND
  const LEASE: Int64 := SECOND
  const TICK: Int64 := 2 * SECOND
  const IDLE_MAX: Int64 := 8 * SECOND
  const BATCH: nat := 32

  // ----- backoff -----

  function Pow2(n: nat): (r: nat)
    ensures r >= 1
  {
    if n == 0 then 1 else 2 * Pow2(n - 1)
  }

  /** The result of converting an out-of-range float to an integer depends on the processor. */
  datatype Processor = Amd64 | Arm64

  function PowAsInt(n: nat, cpu: Processor): Int64 {
    if n <= 62 then Pow2Int(n) else if cpu.Amd64? then MIN_INT else MAX_INT
  }

  function Pow2Int(n: nat): Int64
    requires n <= 62
  {
    Pow2Bounded(n);
    Pow2(n)
  }

  lemma {:induction false} Pow2Split(a: nat, b: nat)
    ensures Pow2(a + b) == Pow2(a) * Pow2(b)
  {
    if a > 0 {
      Pow2Split(a - 1, b);
      assert Pow2(a + b) == 2 * Pow2(a - 1 + b);
    }
  }

  lemma {:induction false} Pow2Monotone(a: nat, b: nat)
    requires a <= b
    ensures Pow2(a) <= Pow2(b)
  {
    if a < b {
      Pow2Monotone(a, b - 1);
    }
  }

  lemma Pow2Values()
    ensures Pow2(9) == 512 && Pow2(10) == 1024 && Pow2(21) == 0x20_0000 && Pow2(33) == 0x2_0000_0000
    ensures Pow2(43) == 0x800_0000_0000 && Pow2(55) == 0x80_0000_0000_0000
    ensures Pow2(62) == 0x4000_0000_0000_0000 && Pow2(63) == 0x8000_0000_0000_0000
  {
    assert Pow2(9) == 512 && Pow2(10) == 1024 && Pow2(11) == 2048;
    Pow2Split(11, 10);
    Pow2Split(11, 11);
    Pow2Split(22, 11);
    Pow2Split(33, 10);
    Pow2Split(33, 22);
    assert Pow2(8) == 256 && Pow2(7) == 128;
    Pow2Split(55, 7);
    Pow2Split(55, 8);
  }

  lemma Pow2Bounded(n: nat)
    requires n <= 62
    ensures Pow2(n) <= 0x4000_0000_0000_0000
  {
    Pow2Values();
    Pow2Monotone(n, 62);
  }

  /** Exponential, capped, and computed in wrapping 64-bit arithmetic before the cap is applied. */
  function BackoffFor(attempts: int, max: Int64, cpu: Processor): Int64 {
    var n := if attempts < 1 then 1 else attempts;
    var d := Wrap(PowAsInt(n, cpu) * SECOND);
    if d > max then max else d
  }

  /** `Milliseconds()` truncates toward zero; the database adds them to its clock. */
  function Micros(d: Int64): int {
    var n: int := d;
    if n >= 0 then n / 1_000_000 * 1000 else -(-n / 1_000_000 * 1000)
  }

  // ----- the table -----

  datatype Row = Row(dispatched: bool, availableAt: int, attempts: nat)

  predicate Due(r: Row, now: int) {
    !r.dispatched && r.availableAt <= now
  }

  /** A limit that is not positive stands for the usual one. */
  function Limit(limit: int): nat {
    if limit <= 0 then 32 else limit
  }

  function ClaimRow(r: Row, now: int, lease: Int64): Row {
    r.(attempts := r.attempts + 1, availableAt := now + Micros(lease))
  }

  function RecordDispatched(r: Row): Row {
    r.(dispatched := true)
  }

  function RecordFailed(r: Row, now: int, delay: Int64): Row {
    r.(availableAt := now + Micros(delay))
  }

  /** What `ClaimBatch` returns of a row: its identifier and its attempts after the claim. */
  datatype Claim = Claim(id: nat, attempts: nat)

  // ----- the publishers -----

  /** `outcome` is what dispatching the first claim in hand returned, until it is recorded. */
  datatype Publisher = Publisher(hand: seq<Claim>, outcome: Option<bool>)

  /**
   * Row `i` of the table has identifier `i`. Kept for the statements only: `claimedAt`, the
   * instants of each row's claims, and `delivered`, the rows whose event reached the broker.
   */
  datatype State = State(
    now: int,
    rows: seq<Row>,
    publishers: seq<Publisher>,
    claimedAt: seq<seq<int>>,
    delivered: seq<nat>)

  datatype Step =
    | Enqueue
    | ClaimBatch(publisher: nat, ids: seq<nat>)
    | Dispatch(publisher: nat, ok: bool, arrived: bool)
    | Record(publisher: nat, written: bool)
    | Crash(publisher: nat)
    | Tick(micros: nat)

  /**
   * `FOR UPDATE SKIP LOCKED LIMIT`: rows that other transactions hold are passed over, so a
   * batch is any selection of due rows up to the limit.
   */
  predicate Claimable(s: State, ids: seq<nat>) {
    && |ids| <= BATCH
    && (forall i, j | 0 <= i < j < |ids| :: ids[i] < ids[j])
    && (forall id | id in ids :: id < |s.rows| && Due(s.rows[id], s.now))
  }

  function Claims(rows: seq<Row>, ids: seq<nat>): seq<Claim>
    requires forall id | id in ids :: id < |rows|
  {
    seq(|ids|, k requires 0 <= k < |ids| => assert ids[k] in ids; Claim(ids[k], rows[ids[k]].attempts))
  }

  function DoClaim(s: State, p: nat, ids: seq<nat>): State
    requires p < |s.publishers| && Claimable(s, ids) && |s.claimedAt| == |s.rows|
  {
    var rows := seq(|s.rows|, i requires 0 <= i < |s.rows| =>
      if i in ids then ClaimRow(s.rows[i], s.now, LEASE) else s.rows[i]);
    var claimedAt := seq(|s.rows|, i requires 0 <= i < |s.rows| =>
      if i in ids then s.claimedAt[i] + [s.now] else s.claimedAt[i]);
    s.(rows := rows, claimedAt := claimedAt,
       publishers := s.publishers[p := Publisher(Claims(rows, ids), None)])
  }

  function DoDispatch(s: State, p: nat, ok: bool, arrived: bool): State
    requires p < |s.publishers| && s.publishers[p].hand != []
  {
    s.(publishers := s.publishers[p := s.publishers[p].(outcome := Some(ok))],
       delivered := if ok || arrived then s.delivered + [s.publishers[p].hand[0].id] else s.delivered)
  }

  function DoRecord(s: State, p: nat, written: bool, cpu: Processor): State
    requires p < |s.publishers| && s.publishers[p].hand != [] && s.publishers[p].outcome.Some?
  {
    var me := s.publishers[p];
    var claim := me.hand[0];
    var s' := s.(publishers := s.publishers[p := Publisher(me.hand[1..], None)]);
    if !written || claim.id >= |s.rows| then s'
    else
      var row := if me.outcome.value then RecordDispatched(s.rows[claim.id])
                 else RecordFailed(s.rows[claim.id], s.now, BackoffFor(claim.attempts, MAX_BACKOFF, cpu));
      s'.(rows := s.rows[claim.id := row])
  }

  /** One atomic step; a step its publisher is not ready for changes nothing. */
  function Do(s: State, step: Step, cpu: Processor): State
    requires |s.claimedAt| == |s.rows|
    ensures var s' := Do(s, step, cpu); |s'.claimedAt| == |s'.rows| >= |s.rows|
  {
    match step
    case Enqueue => s.(rows := s.rows + [Row(false, s.now, 0)], claimedAt := s.claimedAt + [[]])
    case Tick(micros) => s.(now := s.now + micros)
    case ClaimBatch(p, ids) =>
      if p < |s.publishers| && s.publishers[p].hand == [] && Claimable(s, ids) then DoClaim(s, p, ids) else s
    case Dispatch(p, ok, arrived) =>
      if p < |s.publishers| && s.publishers[p].hand != [] && s.publishers[p].outcome.None?
      then DoDispatch(s, p, ok, arrived) else s
    case Record(p, written) =>
      if p < |s.publishers| && s.publishers[p].hand != [] && s.publishers[p].outcome.Some?
      then DoRecord(s, p, written, cpu) else s
    case Crash(p) =>
      if p < |s.publishers| then s.(publishers := s.publishers[p := Publisher([], None)]) else s
  }

  function After(s: State, steps: seq<Step>, n: nat, cpu: Processor): (s': State)
    requires n <= |steps| && |s.claimedAt| == |s.rows|
    ensures |s'.claimedAt| == |s'.rows| >= |s.rows|
  {
    if n == 0 then s else Do(After(s, steps, n - 1, cpu), steps[n - 1], cpu)
  }

  predicate Initial(s: State) {
    && s.rows == [] && s.claimedAt == [] && s.delivered == []
    && forall i | 0 <= i < |s.publishers| :: s.publishers[i] == Publisher([], None)
  }

  // ----- the poll interval -----

  /** Doubles towards the idle maximum. */
  function NextOutboxInterval(current: Int64, base: Int64): Int64 {
    var c := if current < base then base else current;
    var next := Wrap(c * 2);
    if next < IDLE_MAX then next else IDLE_MAX
  }

  /** The interval after a drain that claimed `n` rows, or failed. */
  function Reschedule(interval: Int64, drained: Option<nat>): Int64 {
    if drained.Some? && drained.value > 0 then TICK else NextOutboxInterval(interval, TICK)
  }

  function Intervals(drains: seq<Option<nat>>): Int64 {
    if drains == [] then TICK else Reschedule(Intervals(drains[..|drains| - 1]), drains[|drains| - 1])
  }

  // ----- one drain, in place -----

  class Store {
    var rows: seq<Row>

    constructor (rows: seq<Row>)
      ensures this.rows == rows
    {
      this.rows := rows;
    }

    /** The first due rows in identifier order, up to the limit, skipping those that are locked. */
    method ClaimBatch(limit: int, lease: Int64, now: int, locked: set<nat>) returns (claims: seq<Claim>)
      modifies this
      ensures |rows| == |old(rows)|
      ensures |claims| <= Limit(limit)
      ensures forall i, j | 0 <= i < j < |claims| :: claims[i].id < claims[j].id
      ensures forall c | c in claims :: c.id < |rows| && Due(old(rows)[c.id], now) && c.id !in locked
                                        && c.attempts == rows[c.id].attempts
      ensures forall i | 0 <= i < |rows| ::
                rows[i] == if Reserved(claims, i) then ClaimRow(old(rows)[i], now, lease) else old(rows)[i]
      ensures forall i | 0 <= i < |rows| && Due(old(rows)[i], now) && i !in locked && !Reserved(claims, i) ::
                |claims| == Limit(limit) && forall c | c in claims :: c.id < i
    {
      claims := [];
      var most := Limit(limit);
      for i := 0 to |rows|
        invariant |rows| == |old(rows)| && |claims| <= most
        invariant forall c | c in claims :: c.id < i
        invariant forall j, k | 0 <= j < k < |claims| :: claims[j].id < claims[k].id
        invariant forall c | c in claims ::
                    Due(old(rows)[c.id], now) && c.id !in locked && c.attempts == rows[c.id].attempts
        invariant forall j | 0 <= j < |rows| ::
                    rows[j] == if Reserved(claims, j) then ClaimRow(old(rows)[j], now, lease) else old(rows)[j]
        invariant forall j | 0 <= j < i && Due(old(rows)[j], now) && j !in locked && !Reserved(claims, j) ::
                    |claims| == most && forall c | c in claims :: c.id < j
      {
        assert !Reserved(claims, i);
        if |claims| < most && Due(rows[i], now) && i !in locked {
          ghost var before := claims;
          rows := rows[i := ClaimRow(rows[i], now, lease)];
          claims := claims + [Claim(i, rows[i].attempts)];
          forall j: nat ensures Reserved(claims, j) <==> Reserved(before, j) || j == i {
            ReservedLast(before, claims[|before|], j);
          }
        }
      }
    }

    /** Record the outcome of one dispatch, if the statement reaches the database. */
    method FinishClaim(c: Claim, dispatched: bool, written: bool, at: int, cpu: Processor)
      requires c.id < |rows|
      modifies this
      ensures rows == old(rows)[c.id := Finished(old(rows)[c.id], c.attempts, dispatched, written, at, cpu)]
    {
      assert rows[c.id := rows[c.id]] == rows;
      if !dispatched {
        var delay := BackoffFor(c.attempts, MAX_BACKOFF, cpu);
        if written {
          rows := rows[c.id := RecordFailed(rows[c.id], at, delay)];
        }
        return;
      }
      if written {
        rows := rows[c.id := RecordDispatched(rows[c.id])];
      }
    }

    /**
     * Claim a batch, dispatch each row, and record what happened. `dispatch` says which rows
     * the broker accepts, `written` which of the recording statements reach the database.
     */
    method DrainOnce(
      now: int, locked: set<nat>, dispatch: nat -> bool, written: nat -> bool, clock: nat -> int, cpu: Processor)
      returns (claims: seq<Claim>)
      modifies this
      ensures |rows| == |old(rows)| && |claims| <= BATCH
      ensures forall c | c in claims :: c.id < |rows| && Due(old(rows)[c.id], now) && c.id !in locked
      ensures forall i | 0 <= i < |rows| && !Reserved(claims, i) :: rows[i] == old(rows)[i]
      ensures forall i | 0 <= i < |rows| && Reserved(claims, i) ::
                rows[i] == Drained(old(rows)[i], now, dispatch(i), written(i), clock(i), cpu)
      ensures forall i | 0 <= i < |rows| ::
                rows[i].dispatched <==> old(rows)[i].dispatched || (Reserved(claims, i) && dispatch(i) && written(i))
    {
      claims := ClaimBatch(BATCH, LEASE, now, locked);
      for k := 0 to |claims|
        invariant |rows| == |old(rows)|
        invariant forall i | 0 <= i < |rows| && !Reserved(claims, i) :: rows[i] == old(rows)[i]
        invariant forall j | 0 <= j < k ::
                    var i := claims[j].id;
                    rows[i] == Drained(old(rows)[i], now, dispatch(i), written(i), clock(i), cpu)
        invariant forall j | k <= j < |claims| ::
                    var i := claims[j].id;
                    rows[i] == ClaimRow(old(rows)[i], now, LEASE) && claims[j].attempts == rows[i].attempts
      {
        var i := claims[k].id;
        assert Reserved(claims, i);
        FinishClaim(claims[k], dispatch(i), written(i), clock(i), cpu);
      }
      forall i | 0 <= i < |rows| && Reserved(claims, i)
        ensures rows[i] == Drained(old(rows)[i], now, dispatch(i), written(i), clock(i), cpu)
      {
        var j :| 0 <= j < |claims| && claims[j].id == i;
      }
      forall i | 0 <= i < |rows| && Reserved(claims, i)
        ensures rows[i].dispatched <==> dispatch(i) && written(i)
      {
        var j :| 0 <= j < |claims| && claims[j].id == i;
        assert claims[j] in claims;
      }
    }
  }

  predicate Reserved(claims: seq<Claim>, id: nat) {
    exists k | 0 <= k < |claims| :: claims[k].id == id
  }

  lemma ReservedLast(claims: seq<Claim>, c: Claim, id: nat)
    ensures Reserved(claims + [c], id) <==> Reserved(claims, id) || id == c.id
  {
    var all := claims + [c];
    assert all[|claims|] == c;
    if Reserved(claims, id) {
      var k :| 0 <= k < |claims| && claims[k].id == id;
      assert all[k].id == id;
    }
  }

  /** A row after its dispatch was, or could not be, recorded. */
  function Finished(claimed: Row, attempts: nat, dispatched: bool, written: bool, at: int, cpu: Processor): Row {
    if !written then claimed
    else if dispatched then RecordDispatched(claimed)
    else RecordFailed(claimed, at, BackoffFor(attempts, MAX_BACKOFF, cpu))
  }

  /** A row that was due, claimed, dispatched and recorded. */
  function Drained(r: Row, now: int, dispatched: bool, written: bool, at: int, cpu: Processor): Row {
    var claimed := ClaimRow(r, now, LEASE);
    Finished(claimed, claimed.attempts, dispatched, written, at, cpu)
  }
}
