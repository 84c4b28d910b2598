/** Every interleaving of the writers is equivalent to running the committed ones in version order. */
module Serializability {
  import opened OptimisticLock
  import opened Wrappers

  // ----- what a writer has loaded -----

  /** Nothing is newer than the stored row, and at its version the documents agree unless the load was late. */
  ghost predicate LoadOk<D, N>(s: State<D, N>, row: Row<D>, late: bool) {
    && s.row.Some? && row.version <= s.row.value.version
    && (row.version == s.row.value.version ==> (row.document == s.row.value.document <==> !late))
  }

  ghost predicate PhaseOk<D, N>(s0: State<D, N>, s: State<D, N>, c: Client<D, N>) {
    && (c.phase == Missing ==> s0.row.None? && (c.job.Put? && PutVersion(c.job).None? ==> c.expected.None?))
    && (c.phase.Loaded? ==> LoadOk(s, c.phase.row, c.phase.late) && (c.phase.late ==> s0.row.None?))
    && (c.phase.Loaded? && c.job.Put? ==> c.expected.Some? && (PutVersion(c.job).None? ==> !c.phase.late))
  }

  ghost predicate ExpectedOk<D, N>(s: State<D, N>, c: Client<D, N>) {
    && (PutVersion(c.job).Some? ==> c.expected == PutVersion(c.job))
    && (PutVersion(c.job).None? && c.expected.Some? ==>
          && s.row.Some? && c.expected.value <= s.row.value.version
          && (c.phase.Loaded? ==> c.expected.value <= c.phase.row.version))
  }

  ghost predicate ClientOk<D, N>(s0: State<D, N>, s: State<D, N>, i: nat)
    requires i < |s.clients| && i < |s0.clients|
  {
    var c := s.clients[i];
    && c.job == s0.clients[i].job
    && PhaseOk(s0, s, c) && ExpectedOk(s, c)
    && (c.entry.None? ==> c.sent == [] && c.unsent == [])
    && (c.entry.Some? ==> c.phase == Stopped && c.entry.value < |s.log| && s.log[c.entry.value].client == i)
  }

  /** What holds of the clients in every run, late inserts and all. */
  ghost predicate ClientsOk<D, N>(s0: State<D, N>, s: State<D, N>) {
    && |s.clients| == |s0.clients|
    && (s.row.None? ==> s0.row.None?)
    && (forall i | 0 <= i < |s.clients| :: ClientOk(s0, s, i))
  }

  /** A step that moves one client and leaves the row and the log alone. */
  lemma ClientMoves<D, N>(s0: State<D, N>, s: State<D, N>, i: nat, c: Client<D, N>)
    requires ClientsOk(s0, s) && i < |s.clients|
    requires ClientOk(s0, SetClient(s, i, c), i)
    ensures ClientsOk(s0, SetClient(s, i, c))
  {
    var s' := SetClient(s, i, c);
    forall j | 0 <= j < |s'.clients| ensures ClientOk(s0, s', j) {
      assert ClientOk(s0, s, j);
    }
  }

  lemma ReceiveClients<D, N>(s0: State<D, N>, s: State<D, N>, i: nat, row: Row<D>, late: bool)
    requires ClientsOk(s0, s) && i < |s.clients|
    requires s.row.Some? && row.version == s.row.value.version && (row.document == s.row.value.document <==> !late)
    requires s.clients[i].phase.Ready? || s.clients[i].phase.Missing?
    requires late ==> s.clients[i].phase.Missing?
    ensures ClientsOk(s0, SetClient(s, i, Receive(s.clients[i], row, late)))
  {
    assert ClientOk(s0, s, i);
    ClientMoves(s0, s, i, Receive(s.clients[i], row, late));
  }

  lemma ReadClients<D, N>(s0: State<D, N>, s: State<D, N>, i: nat)
    requires ClientsOk(s0, s) && i < |s.clients|
    ensures ClientsOk(s0, DoRead(s, i))
  {
    var c := s.clients[i];
    assert ClientOk(s0, s, i);
    if c.phase == Ready {
      if s.row.Some? {
        ReceiveClients(s0, s, i, s.row.value, false);
      } else if CreatesRow(c) {
        ClientMoves(s0, s, i, c.(phase := Missing));
      }
    }
  }

  /** A row that appears, or a version that grows, leaves every loaded row behind. */
  lemma RowGrows<D, N>(s0: State<D, N>, s: State<D, N>, row: Row<D>)
    requires ClientsOk(s0, s) && (s.row.Some? ==> row.version > s.row.value.version)
    ensures ClientsOk(s0, s.(row := Some(row)))
  {
    var s' := s.(row := Some(row));
    forall j | 0 <= j < |s'.clients| ensures ClientOk(s0, s', j) {
      assert ClientOk(s0, s, j);
    }
  }

  lemma InsertClients<D, N>(svc: Service<D, N>, s0: State<D, N>, s: State<D, N>, i: nat)
    requires ClientsOk(s0, s) && i < |s.clients|
    ensures ClientsOk(s0, DoInsert(svc, s, i))
  {
    if s.clients[i].phase == Missing {
      if s.row.None? {
        var s1 := s.(row := Some(Row(svc.initial, 1)));
        RowGrows(s0, s, Row(svc.initial, 1));
        ReceiveClients(s0, s1, i, Row(svc.initial, 1), false);
      } else {
        ReceiveClients(s0, s, i, Row(svc.initial, s.row.value.version), LateInsert(svc, s, Insert(i)));
      }
    }
  }

  lemma CommitClients<D, N>(s0: State<D, N>, s: State<D, N>, i: nat, entry: Commit<D>, row: Row<D>, notes: seq<N>)
    requires ClientsOk(s0, s) && i < |s.clients| && s.clients[i].phase.Loaded? && s.row.Some?
    requires entry.client == i && row.version == s.row.value.version + 1
    ensures ClientsOk(s0, SetClient(s.(row := Some(row), log := s.log + [entry]), i,
                                    s.clients[i].(phase := Stopped, entry := Some(|s.log|), unsent := notes)))
  {
    var c := s.clients[i].(phase := Stopped, entry := Some(|s.log|), unsent := notes);
    var s' := SetClient(s.(row := Some(row), log := s.log + [entry]), i, c);
    RowGrows(s0, s, row);
    forall j | 0 <= j < |s'.clients| ensures ClientOk(s0, s', j) {
      assert ClientOk(s0, s.(row := Some(row)), j);
    }
  }

  lemma SwapClients<D, N>(svc: Service<D, N>, s0: State<D, N>, s: State<D, N>, i: nat, now: nat)
    requires ClientsOk(s0, s) && i < |s.clients|
    ensures ClientsOk(s0, DoSwap(svc, s, i, now))
  {
    var c := s.clients[i];
    assert ClientOk(s0, s, i);
    if c.phase.Loaded? {
      var result := Attempt(svc, c.job, c.seen, now, c.phase.row.document);
      if result.None? {
        ClientMoves(s0, s, i, c.(phase := Stopped));
      } else if s.row.Some? && s.row.value.version == ExpectedVersion(c) {
        var row := Row(result.value.document, s.row.value.version + 1);
        CommitClients(s0, s, i, Commit(i, c.seen, now), row, result.value.notes);
      } else if |c.seen| + 1 < c.job.MaxAttempts() {
        ClientMoves(s0, s, i, c.(phase := Ready, seen := c.seen + [c.phase.row.document]));
      } else {
        ClientMoves(s0, s, i, c.(phase := Stopped));
      }
    }
  }

  lemma StepClients<D, N>(svc: Service<D, N>, s0: State<D, N>, s: State<D, N>, step: Step)
    requires ClientsOk(s0, s)
    ensures ClientsOk(s0, Do(svc, s, step))
  {
    if step.client < |s.clients| {
      var c := s.clients[step.client];
      assert ClientOk(s0, s, step.client);
      match step
      case Read(i) => ReadClients(s0, s, i);
      case Insert(i) => InsertClients(svc, s0, s, i);
      case Swap(i, now) => SwapClients(svc, s0, s, i, now);
      case Send(i) =>
        if c.unsent != [] {
          ClientMoves(s0, s, i, c.(sent := c.sent + [c.unsent[0]], unsent := c.unsent[1..]));
        }
      case Fail(i) => ClientMoves(s0, s, i, c.(phase := Stopped, unsent := []));
    }
  }

  lemma {:induction false} RunClients<D, N>(svc: Service<D, N>, s0: State<D, N>, steps: seq<Step>, n: nat)
    requires Initial(s0) && n <= |steps|
    ensures ClientsOk(s0, After(svc, s0, steps, n))
  {
    if n > 0 {
      RunClients(svc, s0, steps, n - 1);
      StepClients(svc, s0, After(svc, s0, steps, n - 1), steps[n - 1]);
    }
  }

  /** The client is about to commit: it goes through with its attempt and finds the version it expects. */
  ghost predicate Commits<D, N>(svc: Service<D, N>, s: State<D, N>, i: nat, now: nat) {
    && i < |s.clients| && s.clients[i].phase.Loaded? && s.row.Some?
    && s.row.value.version == ExpectedVersion(s.clients[i])
    && Attempt(svc, s.clients[i].job, s.clients[i].seen, now, s.clients[i].phase.row.document).Some?
  }

  /**
   * In every run, late inserts included: a writer whose version the server chose, and who finds
   * that version at its swap, computes from the stored document if and only if what it loaded
   * did not come from a late insert. A full-document write never loads from one.
   */
  lemma LoadedIsStored<D, N>(svc: Service<D, N>, s0: State<D, N>, steps: seq<Step>, n: nat, i: nat)
    requires Initial(s0) && n <= |steps|
    requires var s := After(svc, s0, steps, n);
             && i < |s.clients| && s.clients[i].phase.Loaded? && ServerVersioned(s.clients[i].job)
             && s.row.Some? && s.row.value.version == ExpectedVersion(s.clients[i])
    ensures var s := After(svc, s0, steps, n);
            && (s.clients[i].phase.row == s.row.value <==> !s.clients[i].phase.late)
            && (s.clients[i].job.Put? ==> !s.clients[i].phase.late)
  {
    RunClients(svc, s0, steps, n);
    assert ClientOk(s0, After(svc, s0, steps, n), i);
  }

  // ----- the invariant -----

  ghost predicate RowOk<D, N>(svc: Service<D, N>, s0: State<D, N>, s: State<D, N>) {
    && (s.row.None? ==> s.log == [])
    && (s.row.Some? ==> s.row.value == Row(Serial(svc, s0, s.log, |s.log|), Base(svc, s0).version + |s.log|))
  }

  ghost predicate EntryOk<D, N>(svc: Service<D, N>, s0: State<D, N>, s: State<D, N>, k: nat)
    requires k < |s.log|
  {
    var i := s.log[k].client;
    && i < |s.clients| == |s0.clients|
    && s.clients[i].entry == Some(k)
    && (ServerVersioned(s0.clients[i].job) ==>
          var computed := Rerun(svc, s0, s.log, k);
          && computed.Some?
          && s.clients[i].sent + s.clients[i].unsent <= computed.value.notes)
    && (!ServerVersioned(s0.clients[i].job) ==> s.clients[i].sent + s.clients[i].unsent == [])
  }

  ghost predicate Inv<D, N>(svc: Service<D, N>, s0: State<D, N>, s: State<D, N>) {
    && ClientsOk(s0, s)
    && RowOk(svc, s0, s)
    && (forall k | 0 <= k < |s.log| :: EntryOk(svc, s0, s, k))
  }

  /** A commit computed from what a late insert handed out; a full-document write uses none of it. */
  ghost predicate LateCommit<D, N>(svc: Service<D, N>, s: State<D, N>, step: Step) {
    step.Swap? && Commits(svc, s, step.client, step.now) && s.clients[step.client].phase.late
      && !s.clients[step.client].job.Put?
  }

  /** Entries do not depend on the phases of clients, and may lose unsent notifications. */
  lemma EntriesPersist<D, N>(svc: Service<D, N>, s0: State<D, N>, s: State<D, N>, s': State<D, N>)
    requires Inv(svc, s0, s) && s'.log == s.log && |s'.clients| == |s.clients|
    requires forall i | 0 <= i < |s.clients| ::
               && s'.clients[i].entry == s.clients[i].entry
               && s'.clients[i].sent + s'.clients[i].unsent <= s.clients[i].sent + s.clients[i].unsent
    ensures forall k | 0 <= k < |s'.log| :: EntryOk(svc, s0, s', k)
  {
    forall k | 0 <= k < |s'.log| ensures EntryOk(svc, s0, s', k) {
      assert EntryOk(svc, s0, s, k);
    }
  }

  lemma CommitKeeps<D, N>(svc: Service<D, N>, s0: State<D, N>, s: State<D, N>, i: nat, now: nat)
    requires Inv(svc, s0, s) && Commits(svc, s, i, now) && !LateCommit(svc, s, Swap(i, now))
    ensures Inv(svc, s0, DoSwap(svc, s, i, now))
  {
    var c, s', n := s.clients[i], DoSwap(svc, s, i, now), |s.log|;
    var entry, computed := Commit(i, c.seen, now), Attempt(svc, c.job, c.seen, now, c.phase.row.document).value;
    assert ClientOk(s0, s, i);
    SwapClients(svc, s0, s, i, now);
    SerialPrefix(svc, s0, s.log, [entry], n);
    if ServerVersioned(c.job) {
      assert c.phase.row == s.row.value;
    }
    assert s'.log == s.log + [entry];
    assert Serial(svc, s0, s'.log, n + 1) == computed.document;
    forall k | 0 <= k < |s'.log| ensures EntryOk(svc, s0, s', k) {
      if k < n {
        assert EntryOk(svc, s0, s, k);
        SerialPrefix(svc, s0, s.log, [entry], k);
      }
    }
  }

  /**
   * What a commit from a late insert does to a history that was serial so far: it stays serial
   * if and only if the transformer makes the same of the document it saw and of the stored one.
   */
  lemma LateCommitDiverges<D, N>(svc: Service<D, N>, s0: State<D, N>, s: State<D, N>, i: nat, now: nat)
    requires Inv(svc, s0, s) && LateCommit(svc, s, Swap(i, now))
    ensures var c := s.clients[i];
            && c.phase.row.document != s.row.value.document
            && (RowOk(svc, s0, DoSwap(svc, s, i, now)) <==>
                Attempt(svc, c.job, c.seen, now, c.phase.row.document).value.document
                == Apply(svc, c.job, Commit(i, c.seen, now), s.row.value.document))
  {
    var c, n := s.clients[i], |s.log|;
    assert ClientOk(s0, s, i);
    SerialPrefix(svc, s0, s.log, [Commit(i, c.seen, now)], n);
    assert DoSwap(svc, s, i, now).log == s.log + [Commit(i, c.seen, now)];
  }

  lemma StepKeeps<D, N>(svc: Service<D, N>, s0: State<D, N>, s: State<D, N>, step: Step)
    requires Inv(svc, s0, s) && !LateCommit(svc, s, step)
    ensures Inv(svc, s0, Do(svc, s, step))
  {
    var s' := Do(svc, s, step);
    StepClients(svc, s0, s, step);
    if step.Swap? && Commits(svc, s, step.client, step.now) {
      CommitKeeps(svc, s0, s, step.client, step.now);
    } else {
      if step.Send? && step.client < |s.clients| && s.clients[step.client].unsent != [] {
        var c := s.clients[step.client];
        assert c.sent + [c.unsent[0]] + c.unsent[1..] == c.sent + c.unsent;
      }
      EntriesPersist(svc, s0, s, s');
    }
  }

  // ----- main results -----

  /** None of the first `n` steps commits what a late insert handed out. */
  ghost predicate NoLateCommit<D, N>(svc: Service<D, N>, s0: State<D, N>, steps: seq<Step>, n: nat)
    requires n <= |steps|
  {
    n == 0 || (NoLateCommit(svc, s0, steps, n - 1) && !LateCommit(svc, After(svc, s0, steps, n - 1), steps[n - 1]))
  }

  lemma {:induction false} RunKeeps<D, N>(svc: Service<D, N>, s0: State<D, N>, steps: seq<Step>, n: nat)
    requires Initial(s0) && n <= |steps| && NoLateCommit(svc, s0, steps, n)
    ensures Inv(svc, s0, After(svc, s0, steps, n))
  {
    if n > 0 {
      RunKeeps(svc, s0, steps, n - 1);
      StepKeeps(svc, s0, After(svc, s0, steps, n - 1), steps[n - 1]);
    }
  }

  /**
   * Serializability. In every run in which no mutation or job commits from a late insert,
   * the stored document is what the committed transformers
   * produce one after the other in version order, and the version counts them. A committed
   * writer's transformer succeeded on exactly the document before it.
   */
  lemma Serializable<D, N>(svc: Service<D, N>, s0: State<D, N>, steps: seq<Step>, n: nat)
    requires Initial(s0) && n <= |steps| && NoLateCommit(svc, s0, steps, n)
    ensures var s := After(svc, s0, steps, n);
            && (s.row.Some? ==> s.row.value == Row(Serial(svc, s0, s.log, |s.log|), Base(svc, s0).version + |s.log|))
            && (s.row.None? ==> s.log == [])
            && (forall k | 0 <= k < |s.log| && s.log[k].client < |s0.clients| ::
                  ServerVersioned(s0.clients[s.log[k].client].job) ==> Rerun(svc, s0, s.log, k).Some?)
  {
    RunKeeps(svc, s0, steps, n);
    var s := After(svc, s0, steps, n);
    forall k | 0 <= k < |s.log| && s.log[k].client < |s0.clients| && ServerVersioned(s0.clients[s.log[k].client].job)
      ensures Rerun(svc, s0, s.log, k).Some?
    {
      assert EntryOk(svc, s0, s, k);
    }
  }

  /** Whatever a client has sent belongs to a commit of its own and is what that commit computed. */
  lemma OnlyCommittedNotify<D, N>(svc: Service<D, N>, s0: State<D, N>, steps: seq<Step>, n: nat, i: nat)
    requires Initial(s0) && n <= |steps| && NoLateCommit(svc, s0, steps, n)
    requires i < |s0.clients| && |After(svc, s0, steps, n).clients| == |s0.clients|
    requires After(svc, s0, steps, n).clients[i].sent != []
    ensures var s := After(svc, s0, steps, n);
            && s.clients[i].entry.Some?
            && var k := s.clients[i].entry.value;
            && k < |s.log| && s.log[k].client == i
            && Rerun(svc, s0, s.log, k).Some?
            && s.clients[i].sent <= Rerun(svc, s0, s.log, k).value.notes
  {
    RunKeeps(svc, s0, steps, n);
    var s := After(svc, s0, steps, n);
    assert ClientOk(s0, s, i);
    assert EntryOk(svc, s0, s, s.clients[i].entry.value);
  }

  // ----- all notifications -----

  predicate NeverFails(steps: seq<Step>, n: nat, i: nat)
    requires n <= |steps|
  {
    forall k | 0 <= k < n :: steps[k] != Fail(i)
  }

  /** What a committed client has sent and has still to send is all that its commit computed. */
  ghost predicate NotesComplete<D, N>(svc: Service<D, N>, s0: State<D, N>, s: State<D, N>, i: nat) {
    i < |s.clients| && i < |s0.clients| && s.clients[i].entry.Some? && ServerVersioned(s0.clients[i].job) ==>
      var k := s.clients[i].entry.value;
      && k < |s.log| && s.log[k].client == i && Rerun(svc, s0, s.log, k).Some?
      && s.clients[i].sent + s.clients[i].unsent == Rerun(svc, s0, s.log, k).value.notes
  }

  lemma CommitCompletes<D, N>(svc: Service<D, N>, s0: State<D, N>, s: State<D, N>, i: nat, now: nat)
    requires Inv(svc, s0, s) && Commits(svc, s, i, now) && !LateCommit(svc, s, Swap(i, now))
    ensures NotesComplete(svc, s0, DoSwap(svc, s, i, now), i)
  {
    var c, s', n := s.clients[i], DoSwap(svc, s, i, now), |s.log|;
    assert ClientOk(s0, s, i);
    SerialPrefix(svc, s0, s.log, [Commit(i, c.seen, now)], n);
    if ServerVersioned(c.job) {
      assert c.phase.row == s.row.value;
      assert s'.log[n] == Commit(i, c.seen, now);
      assert [] + s'.clients[i].unsent == s'.clients[i].unsent;
    }
  }

  lemma NotesStay<D, N>(svc: Service<D, N>, s0: State<D, N>, s: State<D, N>, s': State<D, N>, i: nat)
    requires Inv(svc, s0, s) && NotesComplete(svc, s0, s, i) && s.log <= s'.log && |s'.clients| == |s.clients|
    requires i < |s.clients| && s'.clients[i].entry == s.clients[i].entry
    requires s'.clients[i].sent + s'.clients[i].unsent == s.clients[i].sent + s.clients[i].unsent
    ensures NotesComplete(svc, s0, s', i)
  {
    if s.clients[i].entry.Some? && ServerVersioned(s0.clients[i].job) {
      assert s'.log == s.log + s'.log[|s.log|..];
      SerialPrefix(svc, s0, s.log, s'.log[|s.log|..], s.clients[i].entry.value);
    }
  }

  lemma NotesStep<D, N>(svc: Service<D, N>, s0: State<D, N>, s: State<D, N>, step: Step, i: nat)
    requires Inv(svc, s0, s) && !LateCommit(svc, s, step) && step != Fail(i) && NotesComplete(svc, s0, s, i)
    ensures NotesComplete(svc, s0, Do(svc, s, step), i)
  {
    if i < |s.clients| {
      var c, s' := s.clients[i], Do(svc, s, step);
      if step.Swap? && step.client == i && Commits(svc, s, i, step.now) {
        CommitCompletes(svc, s0, s, i, step.now);
      } else {
        if step == Send(i) && c.unsent != [] {
          assert c.sent + [c.unsent[0]] + c.unsent[1..] == c.sent + c.unsent;
        }
        NotesStay(svc, s0, s, s', i);
      }
    }
  }

  /** Unless a committed client fails, everything its commit computed is sent or still to be sent. */
  lemma {:induction false} AllNotified<D, N>(svc: Service<D, N>, s0: State<D, N>, steps: seq<Step>, n: nat, i: nat)
    requires Initial(s0) && n <= |steps| && NoLateCommit(svc, s0, steps, n) && NeverFails(steps, n, i)
    ensures NotesComplete(svc, s0, After(svc, s0, steps, n), i)
  {
    if n > 0 {
      AllNotified(svc, s0, steps, n - 1, i);
      RunKeeps(svc, s0, steps, n - 1);
      NotesStep(svc, s0, After(svc, s0, steps, n - 1), steps[n - 1], i);
    }
  }

  /** A client commits at most once: it owns at most one log entry. */
  lemma CommitsOnce<D, N>(svc: Service<D, N>, s0: State<D, N>, steps: seq<Step>, n: nat, j: nat, k: nat)
    requires Initial(s0) && n <= |steps| && NoLateCommit(svc, s0, steps, n)
    requires j < |After(svc, s0, steps, n).log| && k < |After(svc, s0, steps, n).log|
    requires After(svc, s0, steps, n).log[j].client == After(svc, s0, steps, n).log[k].client
    ensures j == k
  {
    RunKeeps(svc, s0, steps, n);
    var s := After(svc, s0, steps, n);
    assert EntryOk(svc, s0, s, j) && EntryOk(svc, s0, s, k);
  }

  /**
   * A step either commits, which adds exactly one to the version and one entry to the log,
   * or creates a missing row, or leaves row and log as they are.
   */
  lemma StepEffect<D, N>(svc: Service<D, N>, s: State<D, N>, step: Step)
    ensures var s' := Do(svc, s, step);
            || (s'.row == s.row && s'.log == s.log)
            || (s.row.None? && s'.row == Some(Row(svc.initial, 1)) && s'.log == s.log)
            || (step.Swap? && s.row.Some? && s'.row.Some? && s'.row.value.version == s.row.value.version + 1
                && |s'.log| == |s.log| + 1 && s'.log[..|s.log|] == s.log && s'.log[|s.log|].client == step.client)
  {
  }

  lemma NothingLate<D, N>(svc: Service<D, N>, s0: State<D, N>, s: State<D, N>, step: Step)
    requires ClientsOk(s0, s) && s0.row.Some?
    ensures !LateInsert(svc, s, step) && !LateCommit(svc, s, step)
  {
    if step.client < |s.clients| {
      assert ClientOk(s0, s, step.client);
    }
  }

  ghost predicate NoLateInsert<D, N>(svc: Service<D, N>, s0: State<D, N>, steps: seq<Step>, n: nat)
    requires n <= |steps|
  {
    n == 0 || (NoLateInsert(svc, s0, steps, n - 1) && !LateInsert(svc, After(svc, s0, steps, n - 1), steps[n - 1]))
  }

  /** With a row to begin with, no insert is ever reached, so nothing more is needed. */
  lemma {:induction false} ExistingRowSafe<D, N>(svc: Service<D, N>, s0: State<D, N>, steps: seq<Step>, n: nat)
    requires Initial(s0) && s0.row.Some? && n <= |steps|
    ensures NoLateInsert(svc, s0, steps, n) && NoLateCommit(svc, s0, steps, n)
  {
    if n > 0 {
      var s := After(svc, s0, steps, n - 1);
      ExistingRowSafe(svc, s0, steps, n - 1);
      RunClients(svc, s0, steps, n - 1);
      NothingLate(svc, s0, s, steps[n - 1]);
    }
  }

  /** The document an insert hands out, to whichever writer, is the stored one if and only if the insert is not late. */
  lemma InsertIsFaithful<D, N>(svc: Service<D, N>, s: State<D, N>, i: nat)
    requires i < |s.clients| && s.clients[i].phase == Missing
    requires s.clients[i].job.Put? ==> s.clients[i].expected.Some?
    ensures var s' := DoInsert(svc, s, i);
            && s'.row.Some? && s'.clients[i].phase.Loaded?
            && s'.clients[i].phase.late == LateInsert(svc, s, Insert(i))
            && (s'.clients[i].phase.row == s'.row.value <==> !LateInsert(svc, s, Insert(i)))
  {
  }

  function Add(n: int): Job<int> {
    Mutate((seen: seq<int>, now: nat, d: int) => Some(d + n))
  }

  const ADDER: Service<int, ()> := Service(0, (prev: int, d: int, now: nat) => Computed(d, []))

  /** Two first-time writers of a new workspace: the later insert erases the earlier commit. */
  lemma LateInsertLosesUpdate()
    ensures var client := (n: int) => Client(Add(n), Ready, [], None, None, [], []);
            var s0: State<int, ()> := State(None, [client(1), client(10)], []);
            var steps := [Read(0), Read(1), Insert(1), Swap(1, 0), Insert(0), Swap(0, 0)];
            var s := After(ADDER, s0, steps, 6);
            && Initial(s0) && LateInsert(ADDER, After(ADDER, s0, steps, 4), steps[4])
            && LateCommit(ADDER, After(ADDER, s0, steps, 5), steps[5])
            && s.row == Some(Row(1, 3)) && |s.log| == 2 && Serial(ADDER, s0, s.log, 2) == 11
  {
    var a: Client<int, ()> := Client(Add(1), Ready, [], None, None, [], []);
    var b: Client<int, ()> := Client(Add(10), Ready, [], None, None, [], []);
    var s0: State<int, ()> := State(None, [a, b], []);
    var steps := [Read(0), Read(1), Insert(1), Swap(1, 0), Insert(0), Swap(0, 0)];
    var s1 := s0.(clients := [a.(phase := Missing), b]);
    assert After(ADDER, s0, steps, 1) == s1;
    var s2 := s0.(clients := [a.(phase := Missing), b.(phase := Missing)]);
    assert After(ADDER, s0, steps, 2) == s2;
    var s3 := State(Some(Row(0, 1)), [a.(phase := Missing), b.(phase := Loaded(Row(0, 1), false))], []);
    assert After(ADDER, s0, steps, 3) == s3;
    var done := b.(phase := Stopped, entry := Some(0));
    var s4 := State(Some(Row(10, 2)), [a.(phase := Missing), done], [Commit(1, [], 0)]);
    assert After(ADDER, s0, steps, 4) == s4;
    var s5 := s4.(clients := [a.(phase := Loaded(Row(0, 2), true)), s4.clients[1]]);
    assert After(ADDER, s0, steps, 5) == s5;
    var log := [Commit(1, [], 0), Commit(0, [], 0)];
    var s6 := State(Some(Row(1, 3)), [a.(phase := Stopped, entry := Some(1)), s4.clients[1]], log);
    assert After(ADDER, s0, steps, 6) == s6;
    assert Serial(ADDER, s0, log, 0) == 0;
    assert Serial(ADDER, s0, log, 1) == 10;
  }

  // ----- invariants of the document -----

  /** The writer turns documents with a property into documents with it, as far as `limit` holds of the result. */
  ghost predicate JobKeeps<D(!new), N>(svc: Service<D, N>, job: Job<D>, keep: D -> bool, limit: D -> bool) {
    forall seen, now, d | keep(d) ::
      var result := Attempt(svc, job, seen, now, d);
      result.Some? && limit(result.value.document) ==> keep(result.value.document)
  }

  ghost predicate Within<D, N>(svc: Service<D, N>, s0: State<D, N>, steps: seq<Step>, n: nat, limit: D -> bool)
    requires n <= |steps|
  {
    forall k | 0 <= k <= n :: var row := After(svc, s0, steps, k).row; row.Some? ==> limit(row.value.document)
  }

  ghost predicate Holds<D, N>(s0: State<D, N>, s: State<D, N>, keep: D -> bool) {
    && |s.clients| == |s0.clients|
    && (s.row.Some? ==> keep(s.row.value.document))
    && (forall i | 0 <= i < |s.clients| ::
          && s.clients[i].job == s0.clients[i].job
          && (s.clients[i].phase.Loaded? ==> keep(s.clients[i].phase.row.document)))
  }

  /**
   * A property that every writer keeps holds of every stored document in every run, late
   * inserts included.
   */
  lemma {:induction false} DocumentInvariant<D(!new), N>(
    svc: Service<D, N>, s0: State<D, N>, steps: seq<Step>, n: nat, keep: D -> bool, limit: D -> bool)
    requires Initial(s0) && n <= |steps|
    requires keep(svc.initial) && (s0.row.Some? ==> keep(s0.row.value.document))
    requires forall i | 0 <= i < |s0.clients| :: JobKeeps(svc, s0.clients[i].job, keep, limit)
    requires Within(svc, s0, steps, n, limit)
    ensures Holds(s0, After(svc, s0, steps, n), keep)
  {
    if n > 0 {
      assert Within(svc, s0, steps, n - 1, limit);
      DocumentInvariant(svc, s0, steps, n - 1, keep, limit);
      var s, step := After(svc, s0, steps, n - 1), steps[n - 1];
      if step.client < |s.clients| {
        var c := s.clients[step.client];
        assert JobKeeps(svc, s0.clients[step.client].job, keep, limit);
        var s' := After(svc, s0, steps, n);
        assert s'.row.Some? ==> limit(s'.row.value.document);
        HoldsStep(svc, s0, s, step, keep, limit);
      }
    }
  }

  lemma HoldsStep<D(!new), N>(
    svc: Service<D, N>, s0: State<D, N>, s: State<D, N>, step: Step, keep: D -> bool, limit: D -> bool)
    requires Holds(s0, s, keep) && keep(svc.initial) && step.client < |s.clients|
    requires JobKeeps(svc, s0.clients[step.client].job, keep, limit)
    requires var s' := Do(svc, s, step); s'.row.Some? ==> limit(s'.row.value.document)
    ensures Holds(s0, Do(svc, s, step), keep)
  {
    var c := s.clients[step.client];
    var s' := Do(svc, s, step);
    if step.Swap? && c.phase.Loaded? {
      var result := Attempt(svc, c.job, c.seen, step.now, c.phase.row.document);
      if result.Some? && s'.log != s.log {
        assert keep(result.value.document);
      }
    }
  }
}
