/** When writers of a workspace that does not exist yet can run into a late insert. */
module LateInserts {
  import opened OptimisticLock
  import opened Wrappers
  import Serializability

  /** A state that some run leads to. */
  ghost predicate Leads<D(!new), N(!new)>(svc: Service<D, N>, s: State<D, N>, t: State<D, N>) {
    exists steps: seq<Step> :: After(svc, s, steps, |steps|) == t
  }

  lemma {:induction false} AfterPrefix<D(!new), N(!new)>(
    svc: Service<D, N>, s: State<D, N>, steps: seq<Step>, more: seq<Step>, n: nat)
    requires n <= |steps|
    ensures After(svc, s, steps + more, n) == After(svc, s, steps, n)
  {
    if n > 0 {
      AfterPrefix(svc, s, steps, more, n - 1);
    }
  }

  lemma LeadsNowhere<D(!new), N(!new)>(svc: Service<D, N>, s: State<D, N>)
    ensures Leads(svc, s, s)
  {
    assert After(svc, s, [], 0) == s;
  }

  lemma LeadsOn<D(!new), N(!new)>(svc: Service<D, N>, s: State<D, N>, t: State<D, N>, step: Step)
    requires Leads(svc, s, t)
    ensures Leads(svc, s, Do(svc, t, step))
  {
    var steps :| After(svc, s, steps, |steps|) == t;
    AfterPrefix(svc, s, steps, [step], |steps|);
    assert After(svc, s, steps + [step], |steps + [step]|) == Do(svc, t, step);
  }

  // ----- the condition -----

  /** The job inserts a missing row on its first read. */
  predicate Creates<D>(job: Job<D>) {
    job.Mutate? || job.Put?
  }

  /** At some time the writer turns the initial document, at version 1, into another one. */
  ghost predicate Changes<D, N>(svc: Service<D, N>, job: Job<D>) {
    && PutVersion(job) in {None, Some(1)}
    && exists now: nat :: ChangesAt(svc, job, now)
  }

  ghost predicate ChangesAt<D, N>(svc: Service<D, N>, job: Job<D>, now: nat) {
    var result := Attempt(svc, job, [], now, svc.initial);
    result.Some? && result.value.document != svc.initial
  }

  /**
   * What the writer makes of the initial document does not depend on having seen it before,
   * and it does not ask for a version that only later commits can bring about.
   */
  ghost predicate Plainly<D, N>(svc: Service<D, N>, job: Job<D>) {
    && (forall now: nat ::
          Attempt(svc, job, [svc.initial], now, svc.initial) == Attempt(svc, job, [], now, svc.initial))
    && (PutVersion(job).Some? ==> PutVersion(job).value <= 1)
  }

  /**
   * There is no row, and besides a writer that will insert one there are others that insert
   * one and change it.
   */
  ghost predicate Exposed<D(!new), N(!new)>(svc: Service<D, N>, s0: State<D, N>) {
    && s0.row.None?
    && exists i: nat, k: nat, j: nat | i < |s0.clients| && k < |s0.clients| && j < |s0.clients| ::
         i != k && i != j && Creates(s0.clients[i].job) && Creates(s0.clients[k].job) && Changes(svc, s0.clients[j].job)
  }

  // ----- no late insert without it -----

  /** Nobody has stored, loaded or conflicted with anything but the initial document. */
  ghost predicate Quiet<D, N>(svc: Service<D, N>, s: State<D, N>) {
    && (s.row.Some? ==> s.row.value.document == svc.initial)
    && forall c | c in s.clients ::
         (c.phase.Loaded? ==> c.phase.row.document == svc.initial) && c.seen in {[], [svc.initial]}
  }

  ghost predicate Changed<D, N>(svc: Service<D, N>, s: State<D, N>) {
    exists j | 0 <= j < |s.clients| :: s.clients[j].phase == Stopped && Changes(svc, s.clients[j].job)
  }

  ghost predicate Created<D, N>(s: State<D, N>) {
    exists k | 0 <= k < |s.clients| :: s.clients[k].phase != Missing && Creates(s.clients[k].job)
  }

  ghost predicate Known<D, N>(svc: Service<D, N>, s0: State<D, N>, s: State<D, N>) {
    && |s.clients| == |s0.clients|
    && (forall i | 0 <= i < |s.clients| :: s.clients[i].job == s0.clients[i].job)
    && (forall c | c in s.clients :: c.phase == Missing ==> Creates(c.job))
    && (s.row.None? ==> forall c | c in s.clients :: c.seen == [] && !c.phase.Loaded?)
    && (s.row.Some? ==> s.row.value.version >= 1 && Created(s))
    && (Quiet(svc, s) || Changed(svc, s))
  }

  lemma ChangedStays<D, N>(svc: Service<D, N>, s: State<D, N>, s': State<D, N>)
    requires Changed(svc, s) && |s'.clients| == |s.clients|
    requires forall j | 0 <= j < |s.clients| ::
               && s'.clients[j].job == s.clients[j].job
               && (s.clients[j].phase == Stopped ==> s'.clients[j].phase == Stopped)
    ensures Changed(svc, s')
  {
    var j :| 0 <= j < |s.clients| && s.clients[j].phase == Stopped && Changes(svc, s.clients[j].job);
    assert s'.clients[j].phase == Stopped;
  }

  lemma CreatedStays<D, N>(s: State<D, N>, s': State<D, N>)
    requires Created(s) && |s'.clients| == |s.clients|
    requires forall k | 0 <= k < |s.clients| ::
               && s'.clients[k].job == s.clients[k].job
               && (s'.clients[k].phase == Missing ==> s.clients[k].phase == Missing)
    ensures Created(s')
  {
    var k :| 0 <= k < |s.clients| && s.clients[k].phase != Missing && Creates(s.clients[k].job);
    assert s'.clients[k].phase != Missing;
  }

  /** A step that only moves its client, and not out of a stop. */
  lemma MoveKnown<D, N>(svc: Service<D, N>, s0: State<D, N>, s: State<D, N>, i: nat, c: Client<D, N>)
    requires Known(svc, s0, s) && i < |s.clients| && c.job == s.clients[i].job
    requires s.clients[i].phase == Stopped ==> c.phase == Stopped
    requires c.phase == Missing ==> Creates(c.job) && (s.row.None? || s.clients[i].phase == Missing)
    requires s.row.None? ==> c.seen == [] && !c.phase.Loaded?
    requires Quiet(svc, s) ==>
               (c.phase.Loaded? ==> c.phase.row.document == svc.initial) && c.seen in {[], [svc.initial]}
    ensures Known(svc, s0, SetClient(s, i, c))
  {
    var s' := SetClient(s, i, c);
    if Changed(svc, s) {
      ChangedStays(svc, s, s');
    }
    if s.row.Some? {
      CreatedStays(s, s');
    }
  }

  lemma InsertKnown<D, N>(svc: Service<D, N>, s0: State<D, N>, s: State<D, N>, i: nat)
    requires Known(svc, s0, s) && i < |s.clients| && s.clients[i].phase == Missing && s.row.None?
    ensures Known(svc, s0, DoInsert(svc, s, i))
  {
    var s' := DoInsert(svc, s, i);
    assert s.clients[i] in s.clients;
    assert s'.clients[i].phase != Missing;
    if Changed(svc, s) {
      ChangedStays(svc, s, s');
    }
  }

  lemma CommitKnown<D, N>(svc: Service<D, N>, s0: State<D, N>, s: State<D, N>, i: nat, now: nat)
    requires Known(svc, s0, s) && i < |s.clients| && s.clients[i].phase.Loaded? && s.row.Some?
    requires s.row.value.version == ExpectedVersion(s.clients[i]) && Plainly(svc, s.clients[i].job)
    requires PutVersion(s.clients[i].job).Some? ==> s.clients[i].expected == PutVersion(s.clients[i].job)
    requires Attempt(svc, s.clients[i].job, s.clients[i].seen, now, s.clients[i].phase.row.document).Some?
    ensures Known(svc, s0, DoSwap(svc, s, i, now))
  {
    var c, s' := s.clients[i], DoSwap(svc, s, i, now);
    assert s'.clients[i].phase == Stopped;
    CreatedStays(s, s');
    if Quiet(svc, s) {
      assert c in s.clients;
      assert Attempt(svc, c.job, c.seen, now, svc.initial) == Attempt(svc, c.job, [], now, svc.initial);
      if s'.row.value.document != svc.initial {
        assert ChangesAt(svc, c.job, now);
      }
    } else {
      ChangedStays(svc, s, s');
    }
  }

  ghost predicate AllPlain<D, N>(svc: Service<D, N>, s: State<D, N>) {
    forall i | 0 <= i < |s.clients| :: Plainly(svc, s.clients[i].job)
  }

  /** The version a full-document write asked for stays what it was. */
  ghost predicate Asked<D, N>(s: State<D, N>) {
    forall c | c in s.clients :: PutVersion(c.job).Some? ==> c.expected == PutVersion(c.job)
  }

  lemma StepAsked<D, N>(svc: Service<D, N>, s: State<D, N>, step: Step)
    requires Asked(s)
    ensures Asked(Do(svc, s, step))
  {
    if step.client < |s.clients| {
      assert s.clients[step.client] in s.clients;
    }
  }

  lemma StepKnown<D, N>(svc: Service<D, N>, s0: State<D, N>, s: State<D, N>, step: Step)
    requires Known(svc, s0, s) && AllPlain(svc, s0) && Asked(s)
    ensures Known(svc, s0, Do(svc, s, step))
  {
    if step.client < |s.clients| {
      var i := step.client;
      var c, s' := s.clients[i], Do(svc, s, step);
      assert c in s.clients;
      match step
      case Read(_) => MoveKnown(svc, s0, s, i, s'.clients[i]);
      case Insert(_) =>
        if c.phase == Missing {
          if s.row.None? {
            InsertKnown(svc, s0, s, i);
          } else {
            MoveKnown(svc, s0, s, i, s'.clients[i]);
          }
        }
      case Swap(_, now) =>
        if c.phase.Loaded? {
          var result := Attempt(svc, c.job, c.seen, now, c.phase.row.document);
          if result.Some? && s.row.Some? && s.row.value.version == ExpectedVersion(c) {
            assert Plainly(svc, s0.clients[i].job);
            CommitKnown(svc, s0, s, i, now);
          } else {
            assert [] + [c.phase.row.document] == [c.phase.row.document];
            MoveKnown(svc, s0, s, i, s'.clients[i]);
          }
        }
      case Send(_) => MoveKnown(svc, s0, s, i, s'.clients[i]);
      case Fail(_) => MoveKnown(svc, s0, s, i, s'.clients[i]);
    }
  }

  lemma {:induction false} RunKnown<D(!new), N(!new)>(svc: Service<D, N>, s0: State<D, N>, steps: seq<Step>, n: nat)
    requires Initial(s0) && s0.row.None? && AllPlain(svc, s0) && n <= |steps|
    ensures var s := After(svc, s0, steps, n); Known(svc, s0, s) && Asked(s)
  {
    if n > 0 {
      var s := After(svc, s0, steps, n - 1);
      RunKnown(svc, s0, steps, n - 1);
      StepKnown(svc, s0, s, steps[n - 1]);
      StepAsked(svc, s, steps[n - 1]);
    }
  }

  lemma LateNeedsExposure<D(!new), N(!new)>(svc: Service<D, N>, s0: State<D, N>, s: State<D, N>, i: nat)
    requires s0.row.None? && Known(svc, s0, s) && LateInsert(svc, s, Insert(i))
    ensures Exposed(svc, s0)
  {
    assert s.clients[i] in s.clients;
    assert !Quiet(svc, s);
    var j :| 0 <= j < |s.clients| && s.clients[j].phase == Stopped && Changes(svc, s.clients[j].job);
    var k :| 0 <= k < |s.clients| && s.clients[k].phase != Missing && Creates(s.clients[k].job);
    assert Creates(s0.clients[i].job) && Creates(s0.clients[k].job) && Changes(svc, s0.clients[j].job);
  }

  // ----- a run that gets there -----

  /** The writer has its document, and the version it expects is the stored one. */
  ghost predicate Poised<D, N>(svc: Service<D, N>, s: State<D, N>, j: nat) {
    && j < |s.clients| && s.row == Some(Row(svc.initial, 1)) && s.clients[j].seen == []
    && s.clients[j].phase == Loaded(Row(svc.initial, 1), false) && ExpectedVersion(s.clients[j]) == 1
  }

  lemma PoisedCommits<D, N>(svc: Service<D, N>, s: State<D, N>, j: nat, now: nat)
    requires Poised(svc, s, j) && ChangesAt(svc, s.clients[j].job, now)
    ensures var s' := DoSwap(svc, s, j, now);
            && s'.row.Some? && s'.row.value.document != svc.initial
            && |s'.clients| == |s.clients|
            && forall i | 0 <= i < |s.clients| && i != j :: s'.clients[i] == s.clients[i]
  {
  }

  /** One read, or two for a full-document write without a version, and the writer is poised. */
  lemma GetPoised<D(!new), N(!new)>(svc: Service<D, N>, s0: State<D, N>, s: State<D, N>, j: nat)
    returns (s': State<D, N>)
    requires Leads(svc, s0, s) && j < |s.clients| && s.row == Some(Row(svc.initial, 1))
    requires PutVersion(s.clients[j].job) in {None, Some(1)}
    requires var c := s.clients[j];
             c == Client(c.job, Ready, [], if c.expected.Some? then Some(1) else PutVersion(c.job), None, [], [])
    ensures Leads(svc, s0, s') && Poised(svc, s', j) && s'.clients[j].job == s.clients[j].job
    ensures |s'.clients| == |s.clients| && forall i | 0 <= i < |s.clients| && i != j :: s'.clients[i] == s.clients[i]
  {
    s' := Do(svc, s, Read(j));
    LeadsOn(svc, s0, s, Read(j));
    if s'.clients[j].phase == Ready {
      LeadsOn(svc, s0, s', Read(j));
      s' := Do(svc, s', Read(j));
    }
  }

  lemma InsertedFirst<D(!new), N(!new)>(svc: Service<D, N>, s0: State<D, N>, i: nat, k: nat) returns (s: State<D, N>)
    requires Initial(s0) && s0.row.None? && i < |s0.clients| && k < |s0.clients| && i != k
    requires Creates(s0.clients[i].job) && Creates(s0.clients[k].job)
    ensures Leads(svc, s0, s) && |s.clients| == |s0.clients| && s.row == Some(Row(svc.initial, 1))
    ensures s.clients[i].phase == Missing
    ensures s.clients[k] == Receive(s0.clients[k], Row(svc.initial, 1), false)
    ensures forall j | 0 <= j < |s.clients| && j != i && j != k :: s.clients[j] == s0.clients[j]
  {
    var s1 := Do(svc, s0, Read(i));
    var s2 := Do(svc, s1, Read(k));
    s := Do(svc, s2, Insert(k));
    LeadsNowhere(svc, s0);
    LeadsOn(svc, s0, s0, Read(i));
    LeadsOn(svc, s0, s1, Read(k));
    LeadsOn(svc, s0, s2, Insert(k));
  }

  lemma ExposureLeadsThere<D(!new), N(!new)>(svc: Service<D, N>, s0: State<D, N>, i: nat, k: nat, j: nat)
    returns (s: State<D, N>)
    requires Initial(s0) && s0.row.None?
    requires i < |s0.clients| && k < |s0.clients| && j < |s0.clients| && i != k && i != j
    requires Creates(s0.clients[i].job) && Creates(s0.clients[k].job) && Changes(svc, s0.clients[j].job)
    ensures Leads(svc, s0, s) && LateInsert(svc, s, Insert(i))
  {
    var now: nat :| ChangesAt(svc, s0.clients[j].job, now);
    var job := s0.clients[j].job;
    s := InsertedFirst(svc, s0, i, k);
    assert s.clients[j].job == job;
    if s.clients[j].phase == Ready {
      s := GetPoised(svc, s0, s, j);
    }
    PoisedCommits(svc, s, j, now);
    LeadsOn(svc, s0, s, Swap(j, now));
    s := Do(svc, s, Swap(j, now));
  }

  /**
   * For writers that make of the initial document what they make of it at first sight: a late
   * insert can be reached if and only if there is no row, one writer will insert it, and of the
   * others one will too and one makes another document of the initial one.
   */
  lemma LateInsertReachable<D(!new), N(!new)>(svc: Service<D, N>, s0: State<D, N>)
    requires Initial(s0) && AllPlain(svc, s0)
    ensures (exists s: State<D, N>, i: nat :: Leads(svc, s0, s) && LateInsert(svc, s, Insert(i))) <==> Exposed(svc, s0)
  {
    if Exposed(svc, s0) {
      var i: nat, k: nat, j: nat :| i < |s0.clients| && k < |s0.clients| && j < |s0.clients| && i != k && i != j
        && Creates(s0.clients[i].job) && Creates(s0.clients[k].job) && Changes(svc, s0.clients[j].job);
      var s := ExposureLeadsThere(svc, s0, i, k, j);
    }
    forall s: State<D, N>, i: nat | Leads(svc, s0, s) && LateInsert(svc, s, Insert(i)) ensures Exposed(svc, s0) {
      var steps: seq<Step> :| After(svc, s0, steps, |steps|) == s;
      if s0.row.Some? {
        Serializability.RunClients(svc, s0, steps, |steps|);
        Serializability.NothingLate(svc, s0, s, Insert(i));
      } else {
        RunKnown(svc, s0, steps, |steps|);
        LateNeedsExposure(svc, s0, s, i);
      }
    }
  }
}
