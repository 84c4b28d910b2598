/** The stored row and the retry loop of a mutation, statement by statement. */
module WorkspaceStore {
  import opened OptimisticLock
  import opened Wrappers

  /** One workspace's row. Each method is one statement of the database. */
  class Repository<D> {
    var row: Option<Row<D>>

    method Select() returns (r: Option<Row<D>>)
      ensures r == row
    {
      r := row;
    }

    /** Creates the row, or finds that somebody has; only the version is read back. */
    method Insert(initial: D) returns (r: Row<D>)
      modifies this
      ensures row == if old(row).Some? then old(row) else Some(Row(initial, 1))
      ensures row.Some? && r == Row(initial, row.value.version)
    {
      if row.None? {
        row := Some(Row(initial, 1));
      }
      r := Row(initial, row.value.version);
    }

    method Update(document: D, expected: int) returns (r: Result<Row<D>>)
      modifies this
      ensures if old(row).Some? && old(row).value.version == expected
              then r == Ok(Row(document, expected + 1)) && row == Some(r.value)
              else r == Err("version conflict") && row == old(row)
    {
      if row.None? || row.value.version != expected {
        return Err("version conflict");
      }
      row := Some(Row(document, expected + 1));
      r := Ok(row.value);
    }

    /** Whatever other writers do between two statements of this one. */
    method Interleave(others: (nat, Option<Row<D>>) -> Option<Row<D>>, k: nat)
      modifies this
      ensures row == others(k, old(row))
    {
      row := others(k, row);
    }
  }

  // ----- the same in terms of the protocol -----

  ghost function Interfered<D, N>(
    s: State<D, N>, others: (nat, Option<Row<D>>) -> Option<Row<D>>, k: nat): State<D, N> {
    s.(row := others(k, s.row))
  }

  /** The reads of one attempt: a select, and an insert if there was no row. */
  ghost function Load<D, N>(
    svc: Service<D, N>, s: State<D, N>, others: (nat, Option<Row<D>>) -> Option<Row<D>>, k: nat): (s': State<D, N>)
    requires |s.clients| == 1
    ensures |s'.clients| == 1
  {
    var read := DoRead(Interfered(s, others, k), 0);
    if read.clients[0].phase == Missing then DoInsert(svc, Interfered(read, others, k + 1), 0) else read
  }

  /** The closure returns an error, and the attempt ends before its update. */
  predicate Refused<D, N>(svc: Service<D, N>, c: Client<D, N>, now: nat) {
    c.phase.Loaded? && Attempt(svc, c.job, c.seen, now, c.phase.row.document).None?
  }

  ghost function Try<D, N>(
    svc: Service<D, N>, s: State<D, N>, others: (nat, Option<Row<D>>) -> Option<Row<D>>, k: nat, now: nat)
    : (s': State<D, N>)
    requires |s.clients| == 1
    ensures |s'.clients| == 1
  {
    var loaded := Load(svc, s, others, k);
    DoSwap(svc, if Refused(svc, loaded.clients[0], now) then loaded else Interfered(loaded, others, k + 2), 0, now)
  }

  function Begin<D, N>(row: Option<Row<D>>, fn: Closure<D>): State<D, N> {
    State(row, [Client(Mutate(fn), Ready, [], None, None, [], [])], [])
  }

  /** A mutation's whole course among other writers: one attempt, and after a conflict one more. */
  ghost function Course<D, N>(
    svc: Service<D, N>, row: Option<Row<D>>, fn: Closure<D>, others: (nat, Option<Row<D>>) -> Option<Row<D>>,
    clock: nat -> nat): (s: State<D, N>)
    ensures |s.clients| == 1
  {
    var first := Try(svc, Begin(row, fn), others, 0, clock(0));
    if first.clients[0].phase == Ready then Try(svc, first, others, 3, clock(1)) else first
  }

  /** How an attempt ends, as the state of its client tells. */
  ghost predicate Ended<D(!new), N(!new)>(s: State<D, N>, row: Option<Row<D>>, r: Result<Row<D>>, notes: seq<N>)
    requires |s.clients| == 1
  {
    && row == s.row && notes == s.clients[0].unsent
    && (r.Ok? <==> s.clients[0].entry.Some?)
    && (r.Ok? ==> row == Some(r.value))
    && s.clients[0].sent == []
  }

  // ----- the same in plain terms -----

  /** What a read-or-create returns, and the row it leaves. */
  datatype Fetched<D> = Fetched(loaded: Row<D>, row: Option<Row<D>>)

  function Fetch<D>(
    initial: D, row: Option<Row<D>>, others: (nat, Option<Row<D>>) -> Option<Row<D>>, k: nat): Fetched<D>
  {
    var found := others(k, row);
    if found.Some? then Fetched(found.value, found)
    else
      var later := others(k + 1, found);
      var created := if later.Some? then later.value else Row(initial, 1);
      Fetched(Row(initial, created.version), Some(created))
  }

  datatype Tried<D, N> = Failed | Conflicted(document: D) | Committed(row: Row<D>, notes: seq<N>)

  /**
   * An attempt in plain terms: the closure runs on the loaded document, the rules compare the
   * loaded document with the closure's, and the result replaces the row at the loaded version.
   */
  ghost predicate Went<D, N>(
    svc: Service<D, N>, fn: Closure<D>, others: (nat, Option<Row<D>>) -> Option<Row<D>>, k: nat, now: nat, seen: seq<D>,
    before: Option<Row<D>>, after: Option<Row<D>>, outcome: Tried<D, N>)
  {
    var read := Fetch(svc.initial, before, others, k);
    match fn(seen, now, read.loaded.document)
    case None => outcome == Failed && after == read.row
    case Some(changed) =>
      var computed, at := svc.rules(read.loaded.document, changed, now), others(k + 2, read.row);
      if at.Some? && at.value.version == read.loaded.version then
        outcome == Committed(Row(computed.document, read.loaded.version + 1), computed.notes)
        && after == Some(outcome.row)
      else outcome == Conflicted(read.loaded.document) && after == at
  }

  /** Nobody else touches the row. */
  ghost predicate Alone<D(!new)>(others: (nat, Option<Row<D>>) -> Option<Row<D>>) {
    forall k: nat, row: Option<Row<D>> :: others(k, row) == row
  }

  /** Others put a row in place just before this writer's first update, and nothing else. */
  ghost predicate IntrudeOnce<D(!new)>(others: (nat, Option<Row<D>>) -> Option<Row<D>>, put: Row<D>) {
    forall k: nat, row: Option<Row<D>> :: others(k, row) == if k == 2 then Some(put) else row
  }

  /** The closure on a document, and the rules on the document before and after it. */
  ghost predicate CommitsFrom<D, N>(
    svc: Service<D, N>, fn: Closure<D>, seen: seq<D>, now: nat, from: Row<D>,
    row: Option<Row<D>>, r: Result<Row<D>>, notes: seq<N>)
  {
    match fn(seen, now, from.document)
    case None => r.Err? && row == Some(from) && notes == []
    case Some(changed) =>
      var computed := svc.rules(from.document, changed, now);
      r == Ok(Row(computed.document, from.version + 1)) && row == Some(r.value) && notes == computed.notes
  }

  /** `GetOrCreate`. */
  method LoadRow<D(!new), N(!new)>(
    svc: Service<D, N>, repo: Repository<D>, others: (nat, Option<Row<D>>) -> Option<Row<D>>, k: nat,
    ghost s: State<D, N>) returns (current: Row<D>, ghost late: bool)
    requires |s.clients| == 1 && CreatesRow(s.clients[0]) && s.clients[0].phase == Ready && repo.row == s.row
    modifies repo
    ensures Load(svc, s, others, k) == s.(row := repo.row, clients := [Receive(s.clients[0], current, late)])
    ensures Fetch(svc.initial, old(repo.row), others, k) == Fetched(current, repo.row)
  {
    repo.Interleave(others, k);
    var found := repo.Select();
    if found.Some? {
      return found.value, false;
    }
    repo.Interleave(others, k + 1);
    late := repo.row.Some? && repo.row.value.document != svc.initial;
    current := repo.Insert(svc.initial);
  }

  /** The client of a mutation that has conflicted with `seen` and not yet committed. */
  function Waiting<D, N>(fn: Closure<D>, seen: seq<D>): Client<D, N> {
    Client(Mutate(fn), Ready, seen, None, None, [], [])
  }

  /** One attempt: load, run the closure and the rules, compare and swap. */
  method Attempted<D(!new), N(!new)>(
    svc: Service<D, N>, repo: Repository<D>, fn: Closure<D>, others: (nat, Option<Row<D>>) -> Option<Row<D>>,
    k: nat, now: nat, seen: seq<D>, ghost s: State<D, N>) returns (outcome: Tried<D, N>)
    requires s.clients == [Waiting(fn, seen)] && s.row == repo.row && s.log == []
    modifies repo
    ensures var s' := Try(svc, s, others, k, now);
            && repo.row == s'.row
            && match outcome
               case Failed => s'.clients[0] == Waiting(fn, seen).(phase := Stopped)
               case Conflicted(document) =>
                 && s'.log == []
                 && s'.clients[0]
                    == if seen == [] then Waiting(fn, [document]) else Waiting(fn, seen).(phase := Stopped)
               case Committed(row, notes) =>
                 && s'.row == Some(row)
                 && s'.clients[0] == Waiting(fn, seen).(phase := Stopped, entry := Some(0), unsent := notes)
    ensures Went(svc, fn, others, k, now, seen, old(repo.row), repo.row, outcome)
  {
    var current, late := LoadRow(svc, repo, others, k, s);
    ghost var loaded := Load(svc, s, others, k);
    assert loaded.clients[0] == Waiting(fn, seen).(phase := Loaded(current, late));
    var result := fn(seen, now, current.document);
    if result.None? {
      return Failed;
    }
    assert !Refused(svc, loaded.clients[0], now);
    var computed := svc.rules(current.document, result.value, now);
    repo.Interleave(others, k + 2);
    var updated := repo.Update(computed.document, current.version);
    outcome := if updated.Ok? then Committed(updated.value, computed.notes) else Conflicted(current.document);
  }

  /** `Service.Mutate`. */
  method MutateRow<D(!new), N(!new)>(
    svc: Service<D, N>, repo: Repository<D>, fn: Closure<D>, others: (nat, Option<Row<D>>) -> Option<Row<D>>,
    clock: nat -> nat) returns (r: Result<Row<D>>, notes: seq<N>)
    modifies repo
    ensures Ended(Course(svc, old(repo.row), fn, others, clock), repo.row, r, notes)
    ensures Alone(others) ==>
              var first := if old(repo.row).Some? then old(repo.row).value else Row(svc.initial, 1);
              CommitsFrom(svc, fn, [], clock(0), first, repo.row, r, notes)
    ensures forall put: Row<D> | IntrudeOnce(others, put) && old(repo.row).Some? ::
              var first := old(repo.row).value;
              fn([], clock(0), first.document).Some? && put.version != first.version ==>
                CommitsFrom(svc, fn, [first.document], clock(1), put, repo.row, r, notes)
  {
    var seen: seq<D> := [];
    notes := [];
    ghost var s: State<D, N> := Begin(repo.row, fn);
    ghost var between := repo.row;
    for attempt := 0 to 2
      invariant |seen| == attempt && notes == [] && s.row == repo.row && s.log == []
      invariant attempt < 2 ==> s.clients == [Waiting(fn, seen)]
      invariant attempt == 0 ==> repo.row == old(repo.row)
      invariant attempt >= 1 ==> Went(svc, fn, others, 0, clock(0), [], old(repo.row), between, Conflicted(seen[0]))
      invariant attempt == 1 ==> repo.row == between
      invariant attempt == 2 ==> Went(svc, fn, others, 3, clock(1), seen[..1], between, repo.row, Conflicted(seen[1]))
      invariant attempt == 0 ==> s == Begin(old(repo.row), fn)
      invariant attempt == 1 ==> s == Try(svc, Begin(old(repo.row), fn), others, 0, clock(0))
      invariant attempt == 2 ==> s == Course(svc, old(repo.row), fn, others, clock) && Ended(s, repo.row, Err(""), [])
    {
      var outcome := Attempted(svc, repo, fn, others, 3 * attempt, clock(attempt), seen, s);
      s := Try(svc, s, others, 3 * attempt, clock(attempt));
      assert attempt == 1 ==> seen == [seen[0]] && seen[..1] == seen;
      if outcome.Failed? {
        return Err("mutation failed"), [];
      }
      if outcome.Conflicted? {
        assert [] + [outcome.document] == [outcome.document];
        seen := seen + [outcome.document];
        if attempt == 0 {
          between := repo.row;
        }
        continue;
      }
      return Ok(outcome.row), outcome.notes;
    }
    r := Err("version conflict");
  }

  // ----- full-document writes -----

  /** The version in the body wins over the `If-Match` header; 0 asks the server to read one. */
  function RequestedVersion(header: Option<int>, body: Option<int>): int {
    if body.Some? then body.value else if header.Some? then header.value else 0
  }

  function BeginPut<D, N>(row: Option<Row<D>>, job: Job<D>): State<D, N> {
    State(row, [Client(job, Ready, [], PutVersion(job), None, [], [])], [])
  }

  /** Reads the version if it has to, reads the document it replaces, and writes once. */
  ghost function PutCourse<D, N>(
    svc: Service<D, N>, row: Option<Row<D>>, job: Job<D>, others: (nat, Option<Row<D>>) -> Option<Row<D>>)
    : (s: State<D, N>)
    requires job.Put?
    ensures |s.clients| == 1
  {
    var begun: State<D, N> := BeginPut(row, job);
    Try(svc, if PutVersion(job).None? then Load(svc, begun, others, 0) else begun, others, 2, 0)
  }

  /** The document is replaced if the caller may replace it and expects its version; else nothing changes. */
  ghost predicate Replaces<D>(
    data: D, allowed: D -> bool, expected: int, before: Row<D>, row: Option<Row<D>>, r: Result<Row<D>>)
  {
    if allowed(before.document) && expected == before.version then
      r == Ok(Row(data, before.version + 1)) && row == Some(r.value)
    else r.Err? && row == Some(before)
  }

  /** The write itself, once the version to expect is known. */
  method ReplaceRow<D(!new), N(!new)>(
    svc: Service<D, N>, repo: Repository<D>, data: D, allowed: D -> bool, expected: int,
    others: (nat, Option<Row<D>>) -> Option<Row<D>>, ghost s: State<D, N>) returns (r: Result<Row<D>>)
    requires |s.clients| == 1 && s.clients[0].job.Put? && s.clients[0].job.data == data
            && s.clients[0].job.allowed == allowed
    requires s.clients[0] == Client(s.clients[0].job, Ready, [], Some(expected), None, [], [])
    requires s.row == repo.row
    modifies repo
    ensures Ended(Try(svc, s, others, 2, 0), repo.row, r, [])
    ensures Alone(others) ==>
              var before := if old(repo.row).Some? then old(repo.row).value else Row(svc.initial, 1);
              Replaces(data, allowed, expected, before, repo.row, r)
  {
    var current, late := LoadRow(svc, repo, others, 2, s);
    ghost var loaded := Load(svc, s, others, 2);
    assert loaded.clients[0] == s.clients[0].(phase := Loaded(current, late));
    if !allowed(current.document) {
      return Err("pm.admin required to change workspace roles");
    }
    repo.Interleave(others, 4);
    r := repo.Update(data, expected);
  }

  method PutRow<D(!new), N(!new)>(
    svc: Service<D, N>, repo: Repository<D>, data: D, header: Option<int>, body: Option<int>, allowed: D -> bool,
    others: (nat, Option<Row<D>>) -> Option<Row<D>>) returns (r: Result<Row<D>>)
    modifies repo
    ensures Ended(PutCourse(svc, old(repo.row), Put(data, RequestedVersion(header, body), allowed), others),
            repo.row, r, [])
    ensures Alone(others) ==>
              var before := if old(repo.row).Some? then old(repo.row).value else Row(svc.initial, 1);
              var asked := RequestedVersion(header, body);
              Replaces(data, allowed, if asked == 0 then before.version else asked, before, repo.row, r)
  {
    var expected := 0;
    if header.Some? {
      expected := header.value;
    }
    if body.Some? {
      expected := body.value;
    }
    ghost var s: State<D, N> := BeginPut(repo.row, Put(data, expected, allowed));
    if expected == 0 {
      var existing, _ := LoadRow(svc, repo, others, 0, s);
      expected := existing.version;
      s := Load(svc, s, others, 0);
    }
    r := ReplaceRow(svc, repo, data, allowed, expected, others, s);
  }
}
