/** Generated text identifiers under concurrency: what a retried creator does with its first one. */
module RepeatedCodes {
  import opened Models
  import opened OptimisticLock
  import opened Slices
  import opened Wrappers
  import RuleEngine
  import StringIds
  import Text
  import Wbs
  import Workspace

  /**
   * A retried creation of a phase keeps the identifiers distinct if and only if the code that
   * its first attempt generated is still free.
   */
  lemma RetriedPhase(p: Models.Phase, first: Snapshot, d: Snapshot, year: string, now: nat)
    requires p.id == "" && NoDup(Wbs.PhaseIds(d.phases))
    requires Workspace.Perform(Workspace.Breakdown(Wbs.CreatePhase(p), year), [first], now, d).Some?
    ensures var d' := Workspace.Perform(Workspace.Breakdown(Wbs.CreatePhase(p), year), [first], now, d).value;
            NoDup(Wbs.PhaseIds(d'.phases)) <==>
            StringIds.NextCode(StringIds.IdPattern("PH", year), Wbs.PhaseIds(first.phases)) !in Wbs.PhaseIds(d.phases)
  {
    var code := StringIds.NextCode(StringIds.IdPattern("PH", year), Wbs.PhaseIds(first.phases));
    assert code != "";
    assert Workspace.Captured(Wbs.CreatePhase(p), [first], year) == Wbs.CreatePhase(p.(id := code));
    Wbs.CreatedPhaseIds(d, p.(id := code), year);
  }

  lemma RetriedActivity(a: Activity, first: Snapshot, d: Snapshot, year: string, now: nat)
    requires a.id == "" && NoDup(Wbs.ActivityIds(d.activities))
    requires Workspace.Perform(Workspace.Breakdown(Wbs.CreateActivity(a), year), [first], now, d).Some?
    ensures var d' := Workspace.Perform(Workspace.Breakdown(Wbs.CreateActivity(a), year), [first], now, d).value;
            NoDup(Wbs.ActivityIds(d'.activities)) <==>
            StringIds.NextCode(StringIds.IdPattern("ACT", year), Wbs.ActivityIds(first.activities))
            !in Wbs.ActivityIds(d.activities)
  {
    var code := StringIds.NextCode(StringIds.IdPattern("ACT", year), Wbs.ActivityIds(first.activities));
    assert code != "";
    assert Workspace.Captured(Wbs.CreateActivity(a), [first], year) == Wbs.CreateActivity(a.(id := code));
    Wbs.CreatedActivityIds(d, a.(id := code), year);
  }

  lemma RetriedProgram(w: WorkProgram, first: Snapshot, d: Snapshot, year: string, now: nat)
    requires w.id == "" && NoDup(Wbs.ProgramIds(d.workPrograms))
    requires Workspace.Perform(Workspace.Breakdown(Wbs.CreateProgram(w), year), [first], now, d).Some?
    ensures var d' := Workspace.Perform(Workspace.Breakdown(Wbs.CreateProgram(w), year), [first], now, d).value;
            NoDup(Wbs.ProgramIds(d'.workPrograms)) <==>
            StringIds.NextCode(StringIds.IdPattern("WP", year), Wbs.ProgramIds(first.workPrograms))
            !in Wbs.ProgramIds(d.workPrograms)
  {
    var code := StringIds.NextCode(StringIds.IdPattern("WP", year), Wbs.ProgramIds(first.workPrograms));
    assert code != "";
    assert Workspace.Captured(Wbs.CreateProgram(w), [first], year) == Wbs.CreateProgram(w.(id := code));
    Wbs.CreatedProgramIds(d, w.(id := code), year);
  }

  // ----- two creators -----

  const EMPTY := Snapshot([], map[], [], [], [], [], [], [], [], [], [], [], [], [], [], [])
  const WORKS := Models.Phase.Phase("", "", "Works", 0, "")

  function CreateWorks(): Workspace.Request {
    Workspace.Breakdown(Wbs.CreatePhase(WORKS), "2025")
  }

  function FirstWorks(): Models.Phase {
    Wbs.NewPhase(WORKS, [], "2025")
  }

  lemma WorksIsNamed()
    ensures Text.Trim("Works") == "Works"
  {
    assert !Text.IsSpace('W') && !Text.IsSpace('s');
  }

  lemma FirstAttempt(now: nat)
    ensures Workspace.Perform(CreateWorks(), [], now, EMPTY) == Some(EMPTY.(phases := [FirstWorks()]))
  {
    WorksIsNamed();
    assert Wbs.PhaseIds([]) == [];
    assert [] + [FirstWorks()] == [FirstWorks()];
  }

  lemma SecondAttempt(now: nat)
    ensures Workspace.Perform(CreateWorks(), [EMPTY], now, EMPTY.(phases := [FirstWorks()]))
            == Some(EMPTY.(phases := [FirstWorks(), FirstWorks()]))
  {
    WorksIsNamed();
    assert Wbs.PhaseIds([]) == [];
    var code := StringIds.NextCode(StringIds.IdPattern("PH", "2025"), []);
    assert code != "";
    assert Wbs.NewPhase(WORKS.(id := code), Wbs.PhaseIds([FirstWorks()]), "2025") == FirstWorks();
    assert [FirstWorks()] + [FirstWorks()] == [FirstWorks(), FirstWorks()];
  }

  lemma NoRules(prev: Snapshot, d: Snapshot, now: nat)
    requires d.rules == []
    ensures Workspace.Rules(prev, d, now) == Computed(d, [])
  {
  }

  lemma Attempts(now: nat)
    ensures var svc, job := Workspace.ServiceOf(EMPTY), Workspace.JobOf(Workspace.Mutation(CreateWorks()));
            var one, two := EMPTY.(phases := [FirstWorks()]), EMPTY.(phases := [FirstWorks(), FirstWorks()]);
            && Attempt(svc, job, [], now, EMPTY) == Some(Computed(one, []))
            && Attempt(svc, job, [EMPTY], now, one) == Some(Computed(two, []))
  {
    FirstAttempt(now);
    SecondAttempt(now);
    NoRules(EMPTY, EMPTY.(phases := [FirstWorks()]), now);
    NoRules(EMPTY.(phases := [FirstWorks()]), EMPTY.(phases := [FirstWorks(), FirstWorks()]), now);
  }

  /** Two creators that read the same document both succeed, and the two phases share an identifier. */
  lemma TwoCreatorsOneCode()
    ensures var svc, job := Workspace.ServiceOf(EMPTY), Workspace.JobOf(Workspace.Mutation(CreateWorks()));
            var client: Client<Snapshot, RuleEngine.Notice> := Client(job, Ready, [], None, None, [], []);
            var s0: State<Snapshot, RuleEngine.Notice> := State(Some(Row(EMPTY, 1)), [client, client], []);
            var s := After(svc, s0, [Read(0), Read(1), Swap(0, 0), Swap(1, 0), Read(1), Swap(1, 0)], 6);
            && Initial(s0) && |s.log| == 2
            && s.row == Some(Row(EMPTY.(phases := [FirstWorks(), FirstWorks()]), 3))
  {
    var svc, job := Workspace.ServiceOf(EMPTY), Workspace.JobOf(Workspace.Mutation(CreateWorks()));
    var client: Client<Snapshot, RuleEngine.Notice> := Client(job, Ready, [], None, None, [], []);
    var steps := [Read(0), Read(1), Swap(0, 0), Swap(1, 0), Read(1), Swap(1, 0)];
    var one := EMPTY.(phases := [FirstWorks()]);
    var loaded, done := client.(phase := Loaded(Row(EMPTY, 1), false)), client.(phase := Stopped, entry := Some(0));
    var log := [Commit(0, [], 0)];
    var s0: State<Snapshot, RuleEngine.Notice> := State(Some(Row(EMPTY, 1)), [client, client], []);
    var s1 := s0.(clients := [loaded, client]);
    var s2 := s0.(clients := [loaded, loaded]);
    var s3: State<Snapshot, RuleEngine.Notice> := State(Some(Row(one, 2)), [done, loaded], log);
    var s4 := s3.(clients := [done, client.(seen := [EMPTY])]);
    var s5 := s3.(clients := [done, client.(seen := [EMPTY], phase := Loaded(Row(one, 2), false))]);
    Attempts(0);
    assert After(svc, s0, steps, 1) == s1;
    assert After(svc, s0, steps, 2) == s2;
    assert DoSwap(svc, s2, 0, 0) == s3;
    assert After(svc, s0, steps, 3) == s3;
    assert [] + [EMPTY] == [EMPTY];
    assert DoSwap(svc, s3, 1, 0) == s4;
    assert After(svc, s0, steps, 4) == s4;
    assert After(svc, s0, steps, 5) == s5;
  }
}
