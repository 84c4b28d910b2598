/** Approval tasks: recording approvals and rejections, and replacing the approver list. */
module Approvals {
  import opened Ids
  import opened Integers
  import opened Models
  import opened NameLists
  import opened Slices
  import opened Wrappers

  function Complete(t: Task): Task {
    t.(done := true, status := "completed")
  }

  function SignOff(t: Task, actor: string): Task {
    var t' := t.(approvedBy := t.approvedBy + [actor]);
    if |t'.approvedBy| >= |t'.approvers| then Complete(t') else t'
  }

  function Rejected(t: Task): Task {
    t.(status := "off_track", done := false, approvedBy := [])
  }

  function Reassign(t: Task, approvers: seq<string>): Task {
    var t' := t.(approvers := approvers, approvedBy := Filter(t.approvedBy, who => who in approvers));
    if t.kind == TASK_TYPE_APPROVAL && |approvers| > 0 && |t'.approvedBy| >= |approvers| then Complete(t') else t'
  }

  function MayAct(t: Task, actor: string): Result<()> {
    if t.kind != TASK_TYPE_APPROVAL then Err("task is not an approval task")
    else if actor !in t.approvers then Err("actor is not in approver list")
    else Ok(())
  }

  datatype Request =
    | Approve(id: Int64, actor: string)
    | Reject(id: Int64, actor: string)
    | SetApprovers(id: Int64, names: seq<string>)

  /** What a request makes of the task it names. */
  function Decide(t: Task, r: Request): Result<Task> {
    match r
    case Approve(_, actor) =>
      (match MayAct(t, actor)
       case Err(e) => Err(e)
       case Ok(_) => Ok(if actor in t.approvedBy then t else SignOff(t, actor)))
    case Reject(_, actor) =>
      (match MayAct(t, actor)
       case Err(e) => Err(e)
       case Ok(_) => Ok(Rejected(t)))
    case SetApprovers(_, names) => Ok(Reassign(t, Dedupe(names)))
  }

  function Entries(r: Request, t: Task, t': Task, audit: seq<AuditEntry>, now: int): seq<AuditEntry> {
    match r
    case Approve(id, actor) =>
      if t'.approvedBy == t.approvedBy then audit
      else
        var signed := Audited(audit, actor, "task.approved", Some(id), now);
        if |t'.approvedBy| >= |t'.approvers| then Audited(signed, actor, "task.completed", Some(id), now) else signed
    case Reject(id, actor) => Audited(audit, actor, "task.rejected", Some(id), now)
    case SetApprovers(_, _) => audit
  }

  /** A request against the whole document; an error leaves nothing to commit. */
  function Handle(d: Snapshot, r: Request, now: int): Result<Snapshot> {
    match FindTask(d.tasks, r.id)
    case None => Err("task not found")
    case Some(i) =>
      match Decide(d.tasks[i], r)
      case Err(e) => Err(e)
      case Ok(t) => Ok(d.(tasks := d.tasks[i := t], audit := Entries(r, d.tasks[i], t, d.audit, now)))
  }

  // ----- the handlers in place -----

  method ApproveTask(d: Document, id: Int64, actor: string, now: int) returns (r: Result<()>)
    modifies d`tasks, d`audit
    ensures match Handle(old(d.Value()), Approve(id, actor), now)
            case Ok(s) => r == Ok(()) && d.Value() == s
            case Err(e) => r == Err(e) && d.Value() == old(d.Value())
  {
    var i := FindTaskIndex(d.tasks, id);
    if i.None? {
      return Err("task not found");
    }
    var t := d.tasks[i.value];
    assert d.tasks[i.value := t] == d.tasks;
    if t.kind != TASK_TYPE_APPROVAL {
      return Err("task is not an approval task");
    }
    if actor !in t.approvers {
      return Err("actor is not in approver list");
    }
    if actor in t.approvedBy {
      return Ok(());
    }
    t := t.(approvedBy := t.approvedBy + [actor]);
    assert t.approvedBy != old(d.tasks)[i.value].approvedBy;
    d.tasks := d.tasks[i.value := t];
    AppendAudit(d, actor, "task.approved", Some(id), now);
    if |t.approvedBy| >= |t.approvers| {
      d.tasks := d.tasks[i.value := t.(done := true, status := "completed")];
      AppendAudit(d, actor, "task.completed", Some(id), now);
    }
    r := Ok(());
  }

  method RejectTask(d: Document, id: Int64, actor: string, now: int) returns (r: Result<()>)
    modifies d`tasks, d`audit
    ensures match Handle(old(d.Value()), Request.Reject(id, actor), now)
            case Ok(s) => r == Ok(()) && d.Value() == s
            case Err(e) => r == Err(e) && d.Value() == old(d.Value())
  {
    var i := FindTaskIndex(d.tasks, id);
    if i.None? {
      return Err("task not found");
    }
    var t := d.tasks[i.value];
    if t.kind != TASK_TYPE_APPROVAL {
      return Err("task is not an approval task");
    }
    if actor !in t.approvers {
      return Err("actor is not in approver list");
    }
    d.tasks := d.tasks[i.value := t.(status := "off_track", done := false, approvedBy := [])];
    AppendAudit(d, actor, "task.rejected", Some(id), now);
    r := Ok(());
  }

  method ReplaceApprovers(d: Document, id: Int64, names: seq<string>, now: int) returns (r: Result<()>)
    modifies d`tasks
    ensures match Handle(old(d.Value()), SetApprovers(id, names), now)
            case Ok(s) => r == Ok(()) && d.Value() == s
            case Err(e) => r == Err(e) && d.Value() == old(d.Value())
  {
    var approvers := DedupeNonEmpty(names);
    var i := FindTaskIndex(d.tasks, id);
    if i.None? {
      return Err("task not found");
    }
    var t := d.tasks[i.value];
    var kept, _ := FilterInPlace(t.approvedBy, who => who in approvers);
    FilterExtensional(t.approvedBy, who => who in approvers, who => who in Dedupe(names));
    t := t.(approvers := approvers, approvedBy := kept);
    if t.kind == TASK_TYPE_APPROVAL && |approvers| > 0 && |t.approvedBy| >= |approvers| {
      t := t.(done := true, status := "completed");
    }
    d.tasks := d.tasks[i.value := t];
    r := Ok(());
  }

  // ----- every run -----

  /** Approvers and sign-offs are lists without repetition, and only approvers have signed off. */
  ghost predicate Consistent(t: Task) {
    NoDup(t.approvers) && NoDup(t.approvedBy) && Elements(t.approvedBy) <= Elements(t.approvers)
  }

  ghost predicate Unanimous(t: Task) {
    Elements(t.approvedBy) == Elements(t.approvers)
  }

  ghost predicate AllConsistent(d: Snapshot) {
    forall t | t in d.tasks :: Consistent(t)
  }

  lemma ThresholdIsUnanimity(t: Task)
    requires Consistent(t)
    ensures |t.approvedBy| >= |t.approvers| <==> Unanimous(t)
  {
    Pigeonhole(t.approvedBy, t.approvers);
  }

  /**
   * Only approvers of an approval task can approve or reject it. An approval adds the actor to
   * those who have signed off, a rejection clears them and reopens the task, and a new list keeps
   * the sign-offs of those on it.
   */
  lemma DecideExactly(t: Task, r: Request)
    ensures Decide(t, r).Ok? <==> r.SetApprovers? || (t.kind == "approval" && r.actor in t.approvers)
    ensures Decide(t, r).Ok? ==>
              var t' := Decide(t, r).value;
              && (r.Approve? ==>
                    && Elements(t'.approvedBy) == Elements(t.approvedBy) + {r.actor} && t'.approvers == t.approvers
                    && (r.actor in t.approvedBy ==> t' == t))
              && (r.Reject? ==>
                    t'.approvedBy == [] && !t'.done && t'.status == "off_track" && t'.approvers == t.approvers)
              && (!r.Reject? ==>
                    (t'.done == t.done && t'.status == t.status) || (t'.done && t'.status == "completed"))
              && (r.SetApprovers? ==>
                    && Elements(t'.approvers) == Elements(Dedupe(r.names))
                    && Elements(t'.approvedBy) == Elements(t.approvedBy) * Elements(Dedupe(r.names)))
              && t'.(approvers := t.approvers, approvedBy := t.approvedBy, done := t.done, status := t.status) == t
  {
  }

  lemma DecideKeeps(t: Task, r: Request)
    requires Consistent(t) && Decide(t, r).Ok?
    ensures Consistent(Decide(t, r).value)
  {
    match r
    case SetApprovers(_, names) =>
      DedupeMeans(names);
      FilterNoDup(t.approvedBy, who => who in Dedupe(names));
    case _ =>
  }

  /** A request turns a task's `done` on if and only if it leaves it unanimous, by a new sign-off or a new list. */
  lemma DoneMeansUnanimous(t: Task, r: Request)
    requires Consistent(t) && Decide(t, r).Ok? && !t.done
    ensures var t' := Decide(t, r).value;
            && (t'.done ==> Unanimous(t') && t'.kind == TASK_TYPE_APPROVAL && t'.approvers != [])
            && (Unanimous(t') && t'.kind == TASK_TYPE_APPROVAL && t'.approvers != [] && t' != t ==> t'.done)
  {
    DecideKeeps(t, r);
    ThresholdIsUnanimity(Decide(t, r).value);
    if r.Approve? {
      assert r.actor in Elements(t.approvers);
    }
  }

  /** Requests that fail change nothing. */
  function Next(d: Snapshot, r: Request, now: int): Snapshot {
    match Handle(d, r, now)
    case Ok(d') => d'
    case Err(_) => d
  }

  function Run(d: Snapshot, requests: seq<Request>, now: int): Snapshot {
    if requests == [] then d
    else Next(Run(d, requests[..|requests| - 1], now), requests[|requests| - 1], now)
  }

  lemma {:induction false} RunKeeps(d: Snapshot, requests: seq<Request>, now: int)
    requires AllConsistent(d)
    ensures AllConsistent(Run(d, requests, now)) && |Run(d, requests, now).tasks| == |d.tasks|
  {
    if requests != [] {
      var init, r := requests[..|requests| - 1], requests[|requests| - 1];
      RunKeeps(d, init, now);
      var before := Run(d, init, now);
      var i := FindTask(before.tasks, r.id);
      if i.Some? && Decide(before.tasks[i.value], r).Ok? {
        assert before.tasks[i.value] in before.tasks;
        DecideKeeps(before.tasks[i.value], r);
      }
    }
  }

  /**
   * Over every run of approve, reject and set-approvers requests: the lists stay consistent,
   * and whenever the last request turns some task's `done` on, everyone named has signed off.
   */
  lemma ThresholdMeansUnanimity(d: Snapshot, requests: seq<Request>, r: Request, now: int, i: nat)
    requires AllConsistent(d) && i < |d.tasks|
    ensures |Run(d, requests, now).tasks| == |d.tasks| == |Run(d, requests + [r], now).tasks|
    ensures var t, t' := Run(d, requests, now).tasks[i], Run(d, requests + [r], now).tasks[i];
            Consistent(t') && (!t.done && t'.done ==> Unanimous(t') && t'.approvers != [])
  {
    assert (requests + [r])[..|requests|] == requests;
    RunKeeps(d, requests, now);
    RunKeeps(d, requests + [r], now);
    var s, s' := Run(d, requests, now), Run(d, requests + [r], now);
    assert s.tasks[i] in s.tasks && s'.tasks[i] in s'.tasks;
    if s'.tasks[i] != s.tasks[i] {
      if !s.tasks[i].done {
        DoneMeansUnanimous(s.tasks[i], r);
      }
    }
  }

  /** The request names somebody who has not signed off the task. */
  predicate Outgrows(t: Task, r: Request) {
    r.SetApprovers? && exists n | n in Dedupe(r.names) :: n !in t.approvedBy
  }

  /**
   * Exactly when `done` outlives unanimity: a new list with a name on it that has not signed
   * off leaves a done task done.
   */
  lemma DoneOutlivesUnanimity(t: Task, r: Request)
    requires Consistent(t) && Unanimous(t) && t.done && Decide(t, r).Ok?
    ensures var t' := Decide(t, r).value; t'.done && !Unanimous(t') <==> Outgrows(t, r)
  {
    var t' := Decide(t, r).value;
    match r
    case Approve(_, actor) => assert actor in Elements(t.approvers);
    case Reject(_, _) =>
    case SetApprovers(_, names) =>
      DedupeMeans(names);
      var list := Dedupe(names);
      if n :| n in list && n !in t.approvedBy {
        assert n in Elements(t'.approvers) && n !in Elements(t'.approvedBy);
      } else {
        assert forall n | n in list :: n in t'.approvedBy;
      }
  }

  /** Every task that is done has been signed off by everyone on its list. */
  ghost predicate DoneUnanimous(d: Snapshot) {
    forall t | t in d.tasks :: t.done ==> Unanimous(t)
  }

  /** The request goes through on a done task and outgrows it. */
  ghost predicate Outgrown(d: Snapshot, r: Request, now: int) {
    var i := FindTask(d.tasks, r.id);
    i.Some? && Handle(d, r, now).Ok? && d.tasks[i.value].done && Outgrows(d.tasks[i.value], r)
  }

  lemma RequestKeepsUnanimity(d: Snapshot, r: Request, now: int)
    requires AllConsistent(d) && DoneUnanimous(d)
    ensures DoneUnanimous(Next(d, r, now)) <==> !Outgrown(d, r, now)
  {
    var i, d' := FindTask(d.tasks, r.id), Next(d, r, now);
    if i.Some? && Decide(d.tasks[i.value], r).Ok? {
      var t, t' := d.tasks[i.value], d'.tasks[i.value];
      assert t in d.tasks && t' in d'.tasks;
      if t.done {
        DoneOutlivesUnanimity(t, r);
      } else {
        DoneMeansUnanimous(t, r);
      }
      assert forall x | x in d'.tasks :: x in d.tasks || x == t';
    }
  }

  ghost predicate NeverOutgrown(d: Snapshot, requests: seq<Request>, now: int) {
    requests == [] ||
    (NeverOutgrown(d, requests[..|requests| - 1], now)
     && !Outgrown(Run(d, requests[..|requests| - 1], now), requests[|requests| - 1], now))
  }

  ghost predicate AlwaysUnanimous(d: Snapshot, requests: seq<Request>, now: int) {
    DoneUnanimous(Run(d, requests, now)) && (requests == [] || AlwaysUnanimous(d, requests[..|requests| - 1], now))
  }

  /**
   * Over every run of the three requests: `done` means unanimity at all times, if and only if no
   * request outgrew a done task.
   */
  lemma {:induction false} UnanimityExactly(d: Snapshot, requests: seq<Request>, now: int)
    requires AllConsistent(d) && DoneUnanimous(d)
    ensures AlwaysUnanimous(d, requests, now) <==> NeverOutgrown(d, requests, now)
  {
    if requests != [] {
      var front, r := requests[..|requests| - 1], requests[|requests| - 1];
      var before := Run(d, front, now);
      UnanimityExactly(d, front, now);
      RunKeeps(d, front, now);
      assert Run(d, requests, now) == Next(before, r, now);
      if DoneUnanimous(before) {
        RequestKeepsUnanimity(before, r, now);
      }
    }
  }
}
