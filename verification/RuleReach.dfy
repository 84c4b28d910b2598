/** Every rule sees every event of a run, and every action of a rule that fires is carried out. */
module RuleReach {
  import opened Ids
  import opened Integers
  import opened Models
  import opened RuleEngine
  import opened RuleEngineTheorems
  import opened RuleMeaning
  import opened Wrappers
  import Text

  // ----- what rules leave alone -----

  /** What no rule changes or takes away from a task. */
  ghost predicate TaskKeeps(t: Task, t': Task) {
    && t'.id == t.id && t'.priority == t.priority && t'.project == t.project && t'.kind == t.kind
    && forall tag | tag in t.tags :: tag in t'.tags
  }

  ghost predicate Keeps(d: Snapshot, d': Snapshot) {
    && |d'.tasks| == |d.tasks| && d'.rules == d.rules
    && d.subtasks <= d'.subtasks && d.taskComments <= d'.taskComments
    && forall i | 0 <= i < |d.tasks| :: TaskKeeps(d.tasks[i], d'.tasks[i])
  }

  lemma KeepsTransitive(a: Snapshot, b: Snapshot, c: Snapshot)
    requires Keeps(a, b) && Keeps(b, c)
    ensures Keeps(a, c)
  {
  }

  lemma WriteKeeps(d: Snapshot, i: nat, t: Task, r: Rule, kind: string, now: nat)
    requires i < |d.tasks| && TaskKeeps(d.tasks[i], t)
    ensures Keeps(d, WriteTask(d, i, t, r, kind, now))
  {
  }

  lemma ValueKeeps(d: Snapshot, r: Rule, a: RuleAction, e: Event, now: nat)
    requires a.kind.AssignTo? || a.kind.SetStatus?
    ensures Keeps(d, ApplyAction(d, r, a, e, now).doc)
  {
    var target := Target(d, e);
    if target.Some? {
      var i := target.value;
      var t, status := d.tasks[i], Param(a, "status");
      WriteKeeps(d, i, t.(assignee := Param(a, "to")), r, "task.assigned", now);
      WriteKeeps(d, i, t.(status := status, done := t.done || status == "completed"), r, "task.status_changed", now);
    }
  }

  lemma TagKeeps(d: Snapshot, r: Rule, a: RuleAction, e: Event, now: nat)
    ensures Keeps(d, DoAddTag(d, r, a, e, now).doc) && Keeps(d, DoSetDueOffset(d, r, a, e, now).doc)
  {
    var target := Target(d, e);
    if target.Some? {
      var i, due := target.value, DoSetDueOffset(d, r, a, e, now).doc.tasks;
      var t := d.tasks[i];
      assert TaskKeeps(t, t.(tags := t.tags + [Param(a, "tag")])) && TaskKeeps(t, due[i]);
    }
  }

  lemma ActionKeeps(d: Snapshot, r: Rule, a: RuleAction, e: Event, now: nat)
    ensures Keeps(d, ApplyAction(d, r, a, e, now).doc)
  {
    match a.kind
    case AssignTo => ValueKeeps(d, r, a, e, now);
    case SetStatus => ValueKeeps(d, r, a, e, now);
    case AddTag => TagKeeps(d, r, a, e, now);
    case SetDueOffset => TagKeeps(d, r, a, e, now);
    case _ =>
  }

  // ----- rules that depend on nothing that rules change -----

  /** Only conditions on attributes that no rule changes, or that never hold. */
  ghost predicate Steady(r: Rule) {
    forall c, a: Attribute | c in r.conditions && Text.Trim(c.field) == a.Name() :: a in {Priority, ProjectOf, Kind}
  }

  /** A rule fires on an event: conditions ask for its task, so an event without one meets none. */
  ghost predicate Wakes(r: Rule, e: Event, tasks: seq<Task>) {
    && r.enabled && r.trigger == e.kind
    && forall c | c in r.conditions :: e.task.Some? && e.task.value < |tasks| && Met(c, tasks[e.task.value])
  }

  lemma FiresIsWakes(r: Rule, e: Event, tasks: seq<Task>)
    requires Live(e, tasks)
    ensures Fires(r, e, tasks) <==> Wakes(r, e, tasks)
  {
    if e.task.Some? {
      FiresExactly(r, e, tasks, e.task.value);
    }
  }

  lemma MetStays(c: RuleCondition, t: Task, t': Task)
    requires TaskKeeps(t, t')
    requires forall a: Attribute | Text.Trim(c.field) == a.Name() :: a in {Priority, ProjectOf, Kind}
    ensures Met(c, t) <==> Met(c, t')
  {
  }

  lemma WakesStays(r: Rule, e: Event, d: Snapshot, d': Snapshot)
    requires Steady(r) && Keeps(d, d') && Live(e, d.tasks)
    ensures Wakes(r, e, d.tasks) <==> Wakes(r, e, d'.tasks)
  {
    if e.task.Some? {
      var i := e.task.value;
      forall c | c in r.conditions ensures Met(c, d.tasks[i]) <==> Met(c, d'.tasks[i]) {
        MetStays(c, d.tasks[i], d'.tasks[i]);
      }
    }
  }

  // ----- what an action leaves -----

  /** The lasting trace of a carried-out action that adds something. */
  ghost predicate Left(d: Snapshot, r: Rule, a: RuleAction, e: Event) {
    match a.kind
    case AddTag =>
      forall tag, i | Given(a, "tag", tag) && tag != "" && e.task == Some(i) ::
        i < |d.tasks| && tag in d.tasks[i].tags
    case CreateSubtask =>
      forall name | Given(a, "name", name) && name != "" && e.task.Some? ::
        exists s | s in d.subtasks :: s.parentTaskId == e.taskId && s.name == name
    case PostComment =>
      forall text | Given(a, "text", text) && text != "" && e.taskId != 0 ::
        exists c | c in d.taskComments :: c.taskId == e.taskId && c.author == "rule:" + r.name && c.text == text
    case _ => true
  }

  lemma LeftStays(d: Snapshot, d': Snapshot, r: Rule, a: RuleAction, e: Event)
    requires Keeps(d, d') && Left(d, r, a, e)
    ensures Left(d', r, a, e)
  {
  }

  lemma ActionLeaves(d: Snapshot, r: Rule, a: RuleAction, e: Event, now: nat)
    requires UniqueTaskIds(d) && Live(e, d.tasks)
    ensures Left(ApplyAction(d, r, a, e, now).doc, r, a, e)
  {
    var d' := ApplyAction(d, r, a, e, now).doc;
    TargetIsPointee(d, e);
    match a.kind
    case CreateSubtask =>
      if Param(a, "name") != "" && e.task.Some? {
        assert d'.subtasks[|d.subtasks|] in d'.subtasks;
      }
    case PostComment =>
      if Param(a, "text") != "" && e.taskId != 0 {
        assert d'.taskComments[|d.taskComments|] in d'.taskComments;
      }
    case _ =>
  }

  // ----- the loops -----

  lemma LiveStays(e: Event, d: Snapshot, d': Snapshot)
    requires Keeps(d, d') && Live(e, d.tasks)
    ensures Live(e, d'.tasks)
  {
  }

  lemma UniqueStays(d: Snapshot, d': Snapshot)
    requires Keeps(d, d') && UniqueTaskIds(d)
    ensures UniqueTaskIds(d')
  {
    assert TaskIds(d.tasks) == TaskIds(d'.tasks);
  }

  /** A document that the first `n` actions of a rule lead to: all have left their traces. */
  ghost predicate Carried(d: Snapshot, x: Snapshot, r: Rule, e: Event, n: nat)
    requires n <= |r.actions|
  {
    Keeps(d, x) && forall k | 0 <= k < n :: Left(x, r, r.actions[k], e)
  }

  lemma OneCarried(d: Snapshot, b: Snapshot, r: Rule, e: Event, now: nat, n: nat)
    requires UniqueTaskIds(d) && Live(e, d.tasks) && n < |r.actions| && Carried(d, b, r, e, n)
    ensures Carried(d, ApplyAction(b, r, r.actions[n], e, now).doc, r, e, n + 1)
  {
    var x := ApplyAction(b, r, r.actions[n], e, now).doc;
    UniqueStays(d, b);
    LiveStays(e, d, b);
    ActionKeeps(b, r, r.actions[n], e, now);
    ActionLeaves(b, r, r.actions[n], e, now);
    KeepsTransitive(d, b, x);
    forall k | 0 <= k < n ensures Left(x, r, r.actions[k], e) {
      LeftStays(b, x, r, r.actions[k], e);
    }
  }

  lemma LastCarried(d: Snapshot, r: Rule, e: Event, now: nat, n: nat)
    requires UniqueTaskIds(d) && Live(e, d.tasks) && n < |r.actions|
    requires Carried(d, ApplyActions(d, r, e, now, n).doc, r, e, n)
    ensures Carried(d, ApplyActions(d, r, e, now, n + 1).doc, r, e, n + 1)
  {
    OneCarried(d, ApplyActions(d, r, e, now, n).doc, r, e, now, n);
  }

  lemma ActionsLeave(d: Snapshot, r: Rule, e: Event, now: nat, n: nat)
    requires UniqueTaskIds(d) && Live(e, d.tasks) && n <= |r.actions|
    ensures Carried(d, ApplyActions(d, r, e, now, n).doc, r, e, n)
  {
    for m := 0 to n
      invariant Carried(d, ApplyActions(d, r, e, now, m).doc, r, e, m)
    {
      LastCarried(d, r, e, now, m);
    }
  }

  lemma {:induction false} NoticesMean(r: Rule, e: Event, n: nat, notice: Notice)
    requires n <= |r.actions|
    ensures notice in Notices(r, e, n)
      <==> notice.rule == r && notice.event == e && notice.action.kind.Notify?
           && exists k | 0 <= k < n :: r.actions[k] == notice.action
  {
    if n > 0 {
      NoticesMean(r, e, n - 1, notice);
    }
  }

  /** Woken by an event, a rule that does not depend on what rules change leaves the traces of all its actions. */
  ghost predicate Reached(d: Snapshot, x: Snapshot, notices: seq<Notice>, r: Rule, e: Event) {
    Steady(r) && Wakes(r, e, d.tasks) ==>
      forall a | a in r.actions :: Left(x, r, a, e) && (a.kind.Notify? ==> Notice(r, a, e) in notices)
  }

  /** A notice is the action of a rule on an event, and that woke the rule. */
  ghost predicate Earned(d: Snapshot, n: Notice, rules: seq<Rule>, events: seq<Event>) {
    && n.rule in rules && n.event in events && n.action in n.rule.actions && n.action.kind.Notify?
    && (Steady(n.rule) ==> Wakes(n.rule, n.event, d.tasks))
  }

  ghost predicate AllReached(d: Snapshot, x: Snapshot, notices: seq<Notice>, rules: seq<Rule>, events: seq<Event>) {
    && Keeps(d, x)
    && (forall r, e | r in rules && e in events :: Reached(d, x, notices, r, e))
    && forall n | n in notices :: Earned(d, n, rules, events)
  }

  lemma RuleReached(d: Snapshot, r: Rule, e: Event, now: nat)
    requires UniqueTaskIds(d) && Live(e, d.tasks)
    ensures var x := RunRule(d, r, e, now); AllReached(d, x.doc, x.notices, [r], [e])
  {
    FiresIsWakes(r, e, d.tasks);
    var x := RunRule(d, r, e, now);
    ActionsLeave(d, r, e, now, |r.actions|);
    forall n: Notice ensures n in Notices(r, e, |r.actions|) <==>
      n.rule == r && n.event == e && n.action.kind.Notify? && n.action in r.actions
    {
      NoticesMean(r, e, |r.actions|, n);
    }
  }

  lemma ReachedLater(d: Snapshot, b: Snapshot, x: Snapshot, before: seq<Notice>, after: seq<Notice>, r: Rule, e: Event)
    requires Keeps(d, b) && Keeps(b, x) && Live(e, d.tasks)
    requires Reached(d, b, before, r, e) || Reached(b, x, after, r, e)
    ensures Reached(d, x, before + after, r, e)
  {
    if Steady(r) && Wakes(r, e, d.tasks) {
      WakesStays(r, e, d, b);
      forall a | a in r.actions ensures Left(x, r, a, e) && (a.kind.Notify? ==> Notice(r, a, e) in before + after) {
        if Reached(d, b, before, r, e) {
          LeftStays(b, x, r, a, e);
        }
      }
    }
  }

  lemma EarnedLater(d: Snapshot, b: Snapshot, n: Notice, rules: seq<Rule>, events: seq<Event>)
    requires Keeps(d, b) && Earned(b, n, rules, events) && Live(n.event, d.tasks)
    ensures Earned(d, n, rules, events)
  {
    if Steady(n.rule) {
      WakesStays(n.rule, n.event, d, b);
    }
  }

  /** Two stretches of a run, together, for all rules and events of which each pair has its turn in one of them. */
  lemma Joined(d: Snapshot, b: Effect, x: Effect, rules: seq<Rule>, events: seq<Event>,
               rules1: seq<Rule>, events1: seq<Event>, rules2: seq<Rule>, events2: seq<Event>)
    requires forall e | e in events :: Live(e, d.tasks)
    requires AllReached(d, b.doc, b.notices, rules1, events1) && AllReached(b.doc, x.doc, x.notices, rules2, events2)
    requires forall r, e | r in rules && e in events :: (r in rules1 && e in events1) || (r in rules2 && e in events2)
    requires forall r | r in rules1 || r in rules2 :: r in rules
    requires forall e | e in events1 || e in events2 :: e in events
    ensures AllReached(d, x.doc, b.notices + x.notices, rules, events)
  {
    KeepsTransitive(d, b.doc, x.doc);
    forall r, e | r in rules && e in events ensures Reached(d, x.doc, b.notices + x.notices, r, e) {
      ReachedLater(d, b.doc, x.doc, b.notices, x.notices, r, e);
    }
    forall n | n in b.notices + x.notices ensures Earned(d, n, rules, events) {
      if n in x.notices {
        EarnedLater(d, b.doc, n, rules2, events2);
      }
    }
  }

  lemma NothingReached(d: Snapshot, rules: seq<Rule>, events: seq<Event>)
    requires rules == [] || events == []
    ensures AllReached(d, d, [], rules, events)
  {
  }

  lemma RulesReached(d: Snapshot, rules: seq<Rule>, e: Event, now: nat)
    requires UniqueTaskIds(d) && Live(e, d.tasks)
    ensures var x := RunRules(d, rules, e, now, |rules|); AllReached(d, x.doc, x.notices, rules, [e])
  {
    NothingReached(d, [], [e]);
    for m := 0 to |rules|
      invariant var x := RunRules(d, rules, e, now, m); AllReached(d, x.doc, x.notices, rules[..m], [e])
    {
      var b := RunRules(d, rules, e, now, m);
      var x := RunRule(b.doc, rules[m], e, now);
      assert RunRules(d, rules, e, now, m + 1) == Then(b, x);
      UniqueStays(d, b.doc);
      LiveStays(e, d, b.doc);
      RuleReached(b.doc, rules[m], e, now);
      Joined(d, b, x, rules[..m + 1], [e], rules[..m], [e], [rules[m]], [e]);
    }
    assert rules[..|rules|] == rules;
  }

  lemma RoundReached(d: Snapshot, rules: seq<Rule>, events: seq<Event>, now: nat)
    requires UniqueTaskIds(d) && forall e | e in events :: Live(e, d.tasks)
    ensures var x := RunRound(d, rules, events, now, |events|); AllReached(d, x.doc, x.notices, rules, events)
  {
    NothingReached(d, rules, []);
    for m := 0 to |events|
      invariant var x := RunRound(d, rules, events, now, m); AllReached(d, x.doc, x.notices, rules, events[..m])
    {
      var b := RunRound(d, rules, events, now, m);
      var x := RunRules(b.doc, rules, events[m], now, |rules|);
      assert RunRound(d, rules, events, now, m + 1) == Then(b, x);
      UniqueStays(d, b.doc);
      LiveStays(events[m], d, b.doc);
      RulesReached(b.doc, rules, events[m], now);
      Joined(d, b, x, rules, events[..m + 1], rules, events[..m], rules, [events[m]]);
    }
    assert events[..|events|] == events;
  }

  // ----- whole runs -----

  /** The events of the rounds that run; the list after the last permitted one is never examined. */
  function Examined(rounds: seq<seq<Event>>, depth: nat): seq<Event> {
    Flatten(if |rounds| <= depth then rounds else rounds[..depth])
  }

  lemma ExaminedTail(events: seq<Event>, rounds: seq<seq<Event>>, depth: nat)
    requires depth > 0
    ensures Examined([events] + rounds, depth) == events + Examined(rounds, depth - 1)
  {
    var all := [events] + rounds;
    if |all| <= depth {
      assert all[1..] == rounds;
    } else {
      assert all[..depth][1..] == rounds[..depth - 1];
    }
  }

  lemma ExaminedSplits(d: Snapshot, events: seq<Event>, now: nat, depth: nat, round: Effect)
    requires depth > 0 && events != [] && round == RunRound(d, d.rules, events, now, |events|)
    ensures var o, rest := RunRounds(d, events, now, depth), RunRounds(round.doc, round.events, now, depth - 1);
            && o.doc == rest.doc && o.notices == round.notices + rest.notices
            && Examined(o.rounds, depth) == events + Examined(rest.rounds, depth - 1)
  {
    var rest := RunRounds(round.doc, round.events, now, depth - 1);
    ExaminedTail(events, rest.rounds, depth);
    assert RunRounds(d, events, now, depth).rounds == [events] + rest.rounds;
  }

  lemma RestReached(d: Snapshot, round: Effect, rest: Outcome, events: seq<Event>, later: seq<Event>)
    requires (forall e | e in events :: Live(e, d.tasks)) && forall e | e in later :: Live(e, round.doc.tasks)
    requires AllReached(d, round.doc, round.notices, d.rules, events)
    requires AllReached(round.doc, rest.doc, rest.notices, d.rules, later)
    ensures AllReached(d, rest.doc, round.notices + rest.notices, d.rules, events + later)
    ensures forall e | e in events + later :: Live(e, d.tasks)
  {
    LiveBack(d, round.doc, later);
    Joined(d, round, Effect(rest.doc, [], rest.notices), d.rules, events + later, d.rules, events, d.rules, later);
  }

  lemma FollowUpsLive(d: Snapshot, events: seq<Event>, now: nat, round: Effect)
    requires UniqueTaskIds(d) && round == RunRound(d, d.rules, events, now, |events|) && Keeps(d, round.doc)
    ensures UniqueTaskIds(round.doc) && forall e | e in round.events :: Live(e, round.doc.tasks)
  {
    RoundEvolves(d, d.rules, events, now, |events|);
    UniqueStays(d, round.doc);
    LiveRound(d, round.doc, round.events);
  }

  /** A run has reached all rules with all events that it examines, and those are live. */
  ghost predicate RunReaches(d: Snapshot, o: Outcome, depth: nat) {
    && AllReached(d, o.doc, o.notices, d.rules, Examined(o.rounds, depth))
    && forall e | e in Examined(o.rounds, depth) :: Live(e, d.tasks)
  }

  lemma {:induction false} RoundsReached(d: Snapshot, events: seq<Event>, now: nat, depth: nat)
    requires UniqueTaskIds(d) && forall e | e in events :: Live(e, d.tasks)
    ensures RunReaches(d, RunRounds(d, events, now, depth), depth)
    decreases depth
  {
    if depth == 0 || events == [] {
      NothingReached(d, d.rules, []);
      assert Flatten([[]]) == [] + Flatten([]);
    } else {
      var round := RunRound(d, d.rules, events, now, |events|);
      RoundReached(d, d.rules, events, now);
      FollowUpsLive(d, events, now, round);
      RoundsReached(round.doc, round.events, now, depth - 1);
      var rest := RunRounds(round.doc, round.events, now, depth - 1);
      ExaminedSplits(d, events, now, depth, round);
      RestReached(d, round, rest, events, Examined(rest.rounds, depth - 1));
    }
  }

  lemma LiveRound(d: Snapshot, d': Snapshot, events: seq<Event>)
    requires Keeps(d, d') && forall e | e in events :: RuleMade(e, d.tasks)
    ensures forall e | e in events :: Live(e, d'.tasks)
  {
  }

  lemma LiveBack(d: Snapshot, d': Snapshot, events: seq<Event>)
    requires Keeps(d, d') && forall e | e in events :: Live(e, d'.tasks)
    ensures forall e | e in events :: Live(e, d.tasks)
  {
  }

  lemma {:induction false} FlattenMeans(rounds: seq<seq<Event>>, e: Event)
    ensures e in Flatten(rounds) <==> exists k | 0 <= k < |rounds| :: e in rounds[k]
  {
    if rounds != [] {
      FlattenMeans(rounds[1..], e);
      assert forall k | 1 <= k < |rounds| :: rounds[k] == rounds[1..][k - 1];
    }
  }

  lemma ExaminedMeans(rounds: seq<seq<Event>>, depth: nat, e: Event)
    ensures e in Examined(rounds, depth) <==> exists k | 0 <= k < |rounds| && k < depth :: e in rounds[k]
  {
    if |rounds| <= depth {
      FlattenMeans(rounds, e);
    } else {
      FlattenMeans(rounds[..depth], e);
      assert forall k | 0 <= k < depth :: rounds[k] == rounds[..depth][k];
    }
  }

  lemma RunReached(prev: Snapshot, d: Snapshot, now: nat)
    requires UniqueTaskIds(d)
    ensures var o := DiffAndRun(prev, d, now); AllReached(d, o.doc, o.notices, d.rules, Examined(o.rounds, 3))
  {
    var events := if d.rules == [] then [] else DiffEvents(prev, d);
    forall e | e in events ensures Live(e, d.tasks) {
      DiffLive(prev, d, e);
    }
    RoundsReached(d, events, now, 3);
  }

  /**
   * Every event of the first three rounds reaches every rule, and every action of a rule it
   * wakes is carried out: tags, subtasks and comments are in the document that the run leaves.
   */
  lemma EveryActionIsDone(prev: Snapshot, d: Snapshot, now: nat, k: nat, e: Event, r: Rule, a: RuleAction)
    requires UniqueTaskIds(d) && k < |DiffAndRun(prev, d, now).rounds| && k < 3
    requires e in DiffAndRun(prev, d, now).rounds[k] && r in d.rules && a in r.actions
    requires Steady(r) && Wakes(r, e, d.tasks)
    ensures Left(DiffAndRun(prev, d, now).doc, r, a, e)
  {
    RunReached(prev, d, now);
    ExaminedMeans(DiffAndRun(prev, d, now).rounds, 3, e);
    var o := DiffAndRun(prev, d, now);
    assert Reached(d, o.doc, o.notices, r, e);
  }

  /** A notification is asked for if and only if an event of the first three rounds wakes the rule. */
  lemma NoticesExactly(prev: Snapshot, d: Snapshot, now: nat, n: Notice)
    requires UniqueTaskIds(d) && Steady(n.rule)
    ensures var o := DiffAndRun(prev, d, now);
            n in o.notices
            <==> n.rule in d.rules && n.action in n.rule.actions && n.action.kind.Notify?
                 && Wakes(n.rule, n.event, d.tasks)
                 && exists k | 0 <= k < |o.rounds| && k < 3 :: n.event in o.rounds[k]
  {
    RunReached(prev, d, now);
    var o := DiffAndRun(prev, d, now);
    ExaminedMeans(o.rounds, 3, n.event);
    if n.rule in d.rules && n.event in Examined(o.rounds, 3) {
      assert Reached(d, o.doc, o.notices, n.rule, n.event);
      assert n == Notice(n.rule, n.action, n.event);
    }
    if n in o.notices {
      assert Earned(d, n, d.rules, Examined(o.rounds, 3));
    }
  }
}
