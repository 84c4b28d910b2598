/**
 * The optimistic-lock protocol over one workspace row. Every writer reads the row, computes a
 * new document on its own copy and commits with a compare-and-swap on the version; the
 * database statements of all writers interleave arbitrarily.
 */
module OptimisticLock {
  import opened Wrappers

  datatype Row<D> = Row(document: D, version: int)

  /**
   * A mutation closure. It may read the clock, and what it captured can depend on the
   * documents its earlier attempts saw. No result means it returned an error.
   */
  type Closure<!D> = (seq<D>, nat, D) -> Option<D>

  /** The new document and the notifications that a successful attempt computes. */
  datatype Computed<D, N> = Computed(document: D, notes: seq<N>)

  /** What all writers share: the document a new workspace starts with, and the rule engine. */
  datatype Service<!D, !N> = Service(initial: D, rules: (D, D, nat) -> Computed<D, N>)

  datatype Job<!D> =
    | Mutate(fn: Closure<D>)
    | Archive(trim: (nat, D) -> Option<D>)
    | RecurrencePass(pass: (nat, D) -> Option<D>)
    | Put(data: D, version: int, allowed: D -> bool)
  {
    /** How many times the writer tries to commit. */
    function MaxAttempts(): nat {
      if Mutate? || Archive? then 2 else 1
    }
  }

  /** `late`, kept for the statements only, marks what a late insert handed out. */
  datatype Phase<D> =
    | Ready
    | Missing
    | Loaded(row: Row<D>, late: bool)
    | Stopped

  /**
   * `seen` lists the documents of conflicted attempts and `entry` is the client's place in the
   * commit log. `sent` and `unsent` are the notifications of the committed attempt.
   */
  datatype Client<!D, N> = Client(
    job: Job<D>,
    phase: Phase<D>,
    seen: seq<D>,
    expected: Option<int>,
    entry: Option<nat>,
    sent: seq<N>,
    unsent: seq<N>)

  datatype Commit<D> = Commit(client: nat, seen: seq<D>, now: nat)

  datatype State<!D, N> = State(row: Option<Row<D>>, clients: seq<Client<D, N>>, log: seq<Commit<D>>)

  datatype Step =
    | Read(client: nat)
    | Insert(client: nat)
    | Swap(client: nat, now: nat)
    | Send(client: nat)
    | Fail(client: nat)

  /** What a writer computes from the document in hand, if it goes on to commit at all. */
  function Attempt<D, N>(svc: Service<D, N>, job: Job<D>, seen: seq<D>, now: nat, d: D): Option<Computed<D, N>> {
    match job
    case Mutate(fn) =>
      (match fn(seen, now, d)
       case None => None
       case Some(d') => Some(svc.rules(d, d', now)))
    case Archive(trim) => Plain(trim(now, d))
    case RecurrencePass(pass) => Plain(pass(now, d))
    case Put(data, _, allowed) => if allowed(d) then Some(Computed(data, [])) else None
  }

  function Plain<D, N>(d: Option<D>): Option<Computed<D, N>> {
    match d
    case None => None
    case Some(d') => Some(Computed(d', []))
  }

  /** The jobs list existing rows first; every other read creates a missing row. */
  predicate CreatesRow<D, N>(c: Client<D, N>) {
    c.job.Mutate? || c.job.Put? || (c.job.Archive? && c.seen != [])
  }

  function Receive<D, N>(c: Client<D, N>, row: Row<D>, late: bool): Client<D, N> {
    if c.job.Put? && c.expected.None?
    then c.(phase := Ready, expected := Some(row.version))
    else c.(phase := Loaded(row, late))
  }

  function SetClient<D, N>(s: State<D, N>, i: nat, c: Client<D, N>): State<D, N>
    requires i < |s.clients|
  {
    s.(clients := s.clients[i := c])
  }

  /** An insert that runs into a row whose document is no longer the initial one. */
  ghost predicate LateInsert<D, N>(svc: Service<D, N>, s: State<D, N>, step: Step) {
    && step.Insert? && step.client < |s.clients| && s.clients[step.client].phase == Missing
    && s.row.Some? && s.row.value.document != svc.initial
  }

  /** `SELECT`. */
  ghost function DoRead<D, N>(s: State<D, N>, i: nat): State<D, N>
    requires i < |s.clients|
  {
    var c := s.clients[i];
    if c.phase != Ready then s
    else if s.row.Some? then SetClient(s, i, Receive(c, s.row.value, false))
    else if CreatesRow(c) then SetClient(s, i, c.(phase := Missing))
    else s
  }

  /**
   * `INSERT ... ON CONFLICT DO UPDATE ... RETURNING id, version`: the caller is handed the
   * initial document together with whatever version the row has.
   */
  ghost function DoInsert<D, N>(svc: Service<D, N>, s: State<D, N>, i: nat): State<D, N>
    requires i < |s.clients|
  {
    var c := s.clients[i];
    if c.phase != Missing then s
    else
      var row := if s.row.Some? then s.row.value else Row(svc.initial, 1);
      SetClient(s.(row := Some(row)), i, Receive(c, Row(svc.initial, row.version), LateInsert(svc, s, Insert(i))))
  }

  function ExpectedVersion<D, N>(c: Client<D, N>): int
    requires c.phase.Loaded?
  {
    if c.job.Put? && c.expected.Some? then c.expected.value else c.phase.row.version
  }

  /** Compute, then `UPDATE ... WHERE version = expected`; on a conflict, retry or give up. */
  ghost function DoSwap<D, N>(svc: Service<D, N>, s: State<D, N>, i: nat, now: nat): State<D, N>
    requires i < |s.clients|
  {
    var c := s.clients[i];
    if !c.phase.Loaded? then s
    else
      match Attempt(svc, c.job, c.seen, now, c.phase.row.document)
      case None => SetClient(s, i, c.(phase := Stopped))
      case Some(computed) =>
        if s.row.Some? && s.row.value.version == ExpectedVersion(c) then
          SetClient(
            s.(row := Some(Row(computed.document, s.row.value.version + 1)), log := s.log + [Commit(i, c.seen, now)]),
            i, c.(phase := Stopped, entry := Some(|s.log|), unsent := computed.notes))
        else if |c.seen| + 1 < c.job.MaxAttempts() then
          SetClient(s, i, c.(phase := Ready, seen := c.seen + [c.phase.row.document]))
        else SetClient(s, i, c.(phase := Stopped))
  }

  /** After the commit the notifications go out one by one. */
  ghost function DoSend<D, N>(s: State<D, N>, i: nat): State<D, N>
    requires i < |s.clients|
  {
    var c := s.clients[i];
    if c.unsent == [] then s
    else SetClient(s, i, c.(sent := c.sent + [c.unsent[0]], unsent := c.unsent[1..]))
  }

  /** A database error or a crash: the client stops wherever it is. */
  ghost function DoFail<D, N>(s: State<D, N>, i: nat): State<D, N>
    requires i < |s.clients|
  {
    SetClient(s, i, s.clients[i].(phase := Stopped, unsent := []))
  }

  /** One atomic step; a step its client is not ready for changes nothing. */
  ghost function Do<D, N>(svc: Service<D, N>, s: State<D, N>, step: Step): State<D, N> {
    if step.client >= |s.clients| then s
    else
      match step
      case Read(i) => DoRead(s, i)
      case Insert(i) => DoInsert(svc, s, i)
      case Swap(i, now) => DoSwap(svc, s, i, now)
      case Send(i) => DoSend(s, i)
      case Fail(i) => DoFail(s, i)
  }

  /** The state a run is in after its first `n` steps. */
  ghost function After<D, N>(svc: Service<D, N>, s: State<D, N>, steps: seq<Step>, n: nat): State<D, N>
    requires n <= |steps|
  {
    if n == 0 then s else Do(svc, After(svc, s, steps, n - 1), steps[n - 1])
  }

  ghost predicate Initial<D, N>(s: State<D, N>) {
    && s.log == []
    && forall i | 0 <= i < |s.clients| ::
         s.clients[i] == Client(s.clients[i].job, Ready, [], PutVersion(s.clients[i].job), None, [], [])
  }

  /** The version a PUT asks for; 0 stands for none given, and then the server reads one. */
  function PutVersion<D>(job: Job<D>): Option<int> {
    if job.Put? && job.version != 0 then Some(job.version) else None
  }

  // ----- the serial execution -----

  /** The document and version that the log starts from. */
  function Base<D, N>(svc: Service<D, N>, s0: State<D, N>): Row<D> {
    if s0.row.Some? then s0.row.value else Row(svc.initial, 1)
  }

  /** The committed transformer of one log entry: closure then rules, a sweep, or a constant. */
  function Apply<D, N>(svc: Service<D, N>, job: Job<D>, entry: Commit<D>, d: D): D {
    if job.Put? then job.data
    else
      match Attempt(svc, job, entry.seen, entry.now, d)
      case None => d
      case Some(computed) => computed.document
  }

  /** The first `n` committed transformers, one after the other. */
  function Serial<D, N>(svc: Service<D, N>, s0: State<D, N>, log: seq<Commit<D>>, n: nat): D
    requires n <= |log|
  {
    if n == 0 then Base(svc, s0).document
    else
      var d, entry := Serial(svc, s0, log, n - 1), log[n - 1];
      if entry.client < |s0.clients| then Apply(svc, s0.clients[entry.client].job, entry, d) else d
  }

  lemma {:induction false} SerialPrefix<D, N>(
    svc: Service<D, N>, s0: State<D, N>, log: seq<Commit<D>>, more: seq<Commit<D>>, n: nat)
    requires n <= |log|
    ensures Serial(svc, s0, log + more, n) == Serial(svc, s0, log, n)
  {
    if n > 0 {
      SerialPrefix(svc, s0, log, more, n - 1);
    }
  }

  /** The version a writer asked for was chosen by the server from a read of its own. */
  predicate ServerVersioned<D>(job: Job<D>) {
    PutVersion(job).None?
  }

  /** A log entry's writer, run on the document just before it in the log. */
  function Rerun<D, N>(svc: Service<D, N>, s0: State<D, N>, log: seq<Commit<D>>, k: nat): Option<Computed<D, N>>
    requires k < |log| && log[k].client < |s0.clients|
  {
    Attempt(svc, s0.clients[log[k].client].job, log[k].seen, log[k].now, Serial(svc, s0, log, k))
  }
}
