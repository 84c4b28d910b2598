/** Creating tasks, one or many at a time, with identifiers computed inside the mutation. */
module TaskCreation {
  import opened Dates
  import opened Ids
  import opened Integers
  import opened Models
  import opened TaskProjects
  import opened Wrappers
  import Text

  datatype TaskInput = TaskInput(
    name: string, desc: string, project: string, assignee: string, priority: string,
    due: DateText, startDate: DateText, endDate: DateText, kind: string)

  const TASK_TYPE_MILESTONE := "milestone"

  function NormalizeType(kind: string): string {
    var k := Text.ToLower(Text.Trim(kind));
    if k == "" || k == TASK_TYPE_MILESTONE || k == TASK_TYPE_APPROVAL then k else TASK_TYPE_TASK
  }

  function NormalizePriority(priority: string): string {
    var p := Text.ToLower(Text.Trim(priority));
    if p in {"", "low", "medium", "high"} then p else "medium"
  }

  function Draft(input: TaskInput, id: Int64, priority: string): Task {
    Task(id, input.name, input.desc, input.project, [], input.assignee, input.due, input.startDate, input.endDate,
         priority, "on_track", false, NormalizeType(input.kind), [], [], [], "", [], [], None)
  }

  /** The document with one task more. */
  function Append(d: Snapshot, input: TaskInput, priority: string, actor: string, now: int): Snapshot {
    var id := NextId(TaskIds(d.tasks));
    d.(tasks := d.tasks + [Normalize(Draft(input, id, priority))],
       audit := Audited(d.audit, actor, "task.created", Some(id), now))
  }

  function Create(d: Snapshot, input: TaskInput, actor: string, now: int): Result<Snapshot> {
    if Text.Trim(input.name) == "" then Err("a task requires a name")
    else Ok(Append(d, input, NormalizePriority(input.priority), actor, now))
  }

  /** The first `n` inputs of a bulk request; priorities are taken as they are. */
  function AppendAll(d: Snapshot, inputs: seq<TaskInput>, n: nat, actor: string, now: int): Snapshot
    requires n <= |inputs|
  {
    if n == 0 then d
    else Append(AppendAll(d, inputs, n - 1, actor, now), inputs[n - 1], inputs[n - 1].priority, actor, now)
  }

  function CreateBulk(d: Snapshot, inputs: seq<TaskInput>, actor: string, now: int): Result<Snapshot> {
    if inputs == [] then Err("invalid body")
    else if exists input | input in inputs :: Text.Trim(input.name) == "" then Err("every task requires a name")
    else Ok(AppendAll(d, inputs, |inputs|, actor, now))
  }

  // ----- in place -----

  method AppendTask(d: Document, input: TaskInput, priority: string, actor: string, now: int) returns (created: Task)
    modifies d`tasks, d`audit
    ensures d.Value() == Append(old(d.Value()), input, priority, actor, now)
    ensures d.tasks == old(d.tasks) + [created]
  {
    var id := NextIntID(TaskIds(d.tasks));
    var cell := new TaskCell(Draft(input, id, priority));
    cell.NormalizeInPlace();
    created := cell.task;
    d.tasks := d.tasks + [created];
    AppendAudit(d, actor, "task.created", Some(id), now);
  }

  method CreateTask(d: Document, input: TaskInput, actor: string, now: int) returns (r: Result<Task>)
    modifies d`tasks, d`audit
    ensures match Create(old(d.Value()), input, actor, now)
            case Ok(s) => r.Ok? && d.Value() == s && s.tasks[|s.tasks| - 1] == r.value
            case Err(e) => r == Err(e) && d.Value() == old(d.Value())
  {
    if Text.Trim(input.name) == "" {
      return Err("a task requires a name");
    }
    var created := AppendTask(d, input, NormalizePriority(input.priority), actor, now);
    r := Ok(created);
  }

  method CreateTasksBulk(d: Document, inputs: seq<TaskInput>, actor: string, now: int) returns (r: Result<seq<Task>>)
    modifies d`tasks, d`audit
    ensures match CreateBulk(old(d.Value()), inputs, actor, now)
            case Ok(s) => r.Ok? && d.Value() == s && s.tasks == old(d.tasks) + r.value && |r.value| == |inputs|
            case Err(e) => r == Err(e) && d.Value() == old(d.Value())
  {
    if |inputs| == 0 {
      return Err("invalid body");
    }
    for i := 0 to |inputs|
      invariant forall j | 0 <= j < i :: Text.Trim(inputs[j].name) != ""
    {
      if Text.Trim(inputs[i].name) == "" {
        return Err("every task requires a name");
      }
    }
    var created := AppendTasks(d, inputs, actor, now);
    r := Ok(created);
  }

  method AppendTasks(d: Document, inputs: seq<TaskInput>, actor: string, now: int) returns (created: seq<Task>)
    modifies d`tasks, d`audit
    ensures d.Value() == AppendAll(old(d.Value()), inputs, |inputs|, actor, now)
    ensures d.tasks == old(d.tasks) + created && |created| == |inputs|
  {
    created := [];
    ghost var was := d.Value();
    for i := 0 to |inputs|
      invariant d.Value() == AppendAll(was, inputs, i, actor, now)
      invariant d.tasks == was.tasks + created && |created| == i
    {
      var t := AppendTask(d, inputs[i], inputs[i].priority, actor, now);
      created := created + [t];
    }
  }

  // ----- what creation keeps -----

  lemma AppendIds(d: Snapshot, input: TaskInput, priority: string, actor: string, now: int)
    ensures var d' := Append(d, input, priority, actor, now);
            && TaskIds(d'.tasks) == TaskIds(d.tasks) + [NextId(TaskIds(d.tasks))]
            && AuditIds(d'.audit) == AuditIds(d.audit) + [NextId(AuditIds(d.audit))]
            && HomeOk(d'.tasks[|d.tasks|])
  {
    NormalizeHomes(Draft(input, NextId(TaskIds(d.tasks)), priority));
  }

  /** A list of identifiers with `n` generated ones after it, each computed from all before. */
  function Numbered(ids: seq<Int64>, n: nat): (r: seq<Int64>)
    ensures |r| == |ids| + n
  {
    if n == 0 then ids else Numbered(ids, n - 1) + [NextId(Numbered(ids, n - 1))]
  }

  lemma MaxIdNext(ids: seq<Int64>, max: int)
    requires max == MaxId(ids) && max < MAX_INT
    ensures NextId(ids) == max + 1 && MaxId(ids + [NextId(ids)]) == max + 1
  {
    assert (ids + [NextId(ids)])[..|ids|] == ids;
  }

  lemma {:induction false} NumberedUp(ids: seq<Int64>, n: nat, max: int)
    requires max == MaxId(ids) && max + n <= MAX_INT
    ensures var r := Numbered(ids, n);
            && ids <= r && MaxId(r) == max + n
            && forall j | |ids| <= j < |r| :: r[j] == max + 1 + j - |ids|
  {
    if n > 0 {
      NumberedUp(ids, n - 1, max);
      MaxIdNext(Numbered(ids, n - 1), max + n - 1);
    }
  }

  lemma {:induction false} BulkIds(d: Snapshot, inputs: seq<TaskInput>, n: nat, actor: string, now: int)
    requires n <= |inputs|
    ensures TaskIds(AppendAll(d, inputs, n, actor, now).tasks) == Numbered(TaskIds(d.tasks), n)
  {
    if n > 0 {
      BulkIds(d, inputs, n - 1, actor, now);
      AppendIds(AppendAll(d, inputs, n - 1, actor, now), inputs[n - 1], inputs[n - 1].priority, actor, now);
    }
  }

  /** The new tasks of a bulk request are numbered upwards from past every identifier in use. */
  lemma BulkNumbers(d: Snapshot, inputs: seq<TaskInput>, actor: string, now: int)
    requires MaxId(TaskIds(d.tasks)) + |inputs| <= MAX_INT
    ensures var ids, ids' := TaskIds(d.tasks), TaskIds(AppendAll(d, inputs, |inputs|, actor, now).tasks);
            && |ids'| == |ids| + |inputs| && ids <= ids'
            && forall j | |ids| <= j < |ids'| :: ids'[j] == MaxId(ids) + 1 + j - |ids|
  {
    BulkIds(d, inputs, |inputs|, actor, now);
    NumberedUp(TaskIds(d.tasks), |inputs|, MaxId(TaskIds(d.tasks)));
  }

  // ----- what a new task is -----

  /** The text that a word is stored as: a known word regardless of case and white space, or the default. */
  ghost predicate Reads(text: string, known: set<string>, other: string, word: string) {
    if exists w | w in known :: Text.EqualFold(Text.Trim(text), w)
    then word in known && Text.EqualFold(Text.Trim(text), word)
    else word == other
  }

  lemma LowerWord(text: string, word: string)
    requires Text.ToLower(word) == word
    ensures Text.ToLower(Text.Trim(text)) == word <==> Text.EqualFold(Text.Trim(text), word)
  {
    Text.LowerEqual(Text.Trim(text), word);
  }

  lemma PriorityReads(text: string)
    ensures Reads(text, {"", "low", "medium", "high"}, "medium", NormalizePriority(text))
  {
    forall w | w in {"", "low", "medium", "high"}
      ensures Text.ToLower(Text.Trim(text)) == w <==> Text.EqualFold(Text.Trim(text), w)
    {
      LowerWord(text, w);
    }
  }

  lemma TypeReads(text: string)
    ensures Reads(text, {"", "milestone", "approval"}, "task", NormalizeType(text))
  {
    forall w | w in {"", "milestone", "approval"}
      ensures Text.ToLower(Text.Trim(text)) == w <==> Text.EqualFold(Text.Trim(text), w)
    {
      LowerWord(text, w);
    }
  }

  /** The fields are the request's, with its one project as the only home; all else is as in a task never touched. */
  ghost predicate NewTask(input: TaskInput, id: Int64, t: Task) {
    && t.id == id && t.name == input.name && t.desc == input.desc && t.assignee == input.assignee
    && t.due == input.due && t.startDate == input.startDate && t.endDate == input.endDate
    && t.project == input.project && t.projects == (if input.project == "" then [] else [input.project])
    && Reads(input.kind, {"", "milestone", "approval"}, "task", t.kind)
    && t.status == "on_track" && !t.done && t.deletedAt == "" && t.recurrence == None
    && t.subtasks == [] && t.tags == [] && t.dependsOn == [] && t.approvers == [] && t.approvedBy == []
  }

  /** A request is refused exactly when its name is white space; otherwise the document has one task more. */
  lemma CreateMeans(d: Snapshot, input: TaskInput, actor: string, now: int)
    ensures var r := Create(d, input, actor, now);
            && (r.Err? <==> Text.AllSpace(input.name))
            && (r.Ok? ==>
                  && |r.value.tasks| == |d.tasks| + 1 && d.tasks <= r.value.tasks
                  && NewTask(input, NextId(TaskIds(d.tasks)), r.value.tasks[|d.tasks|])
                  && Reads(input.priority, {"", "low", "medium", "high"}, "medium", r.value.tasks[|d.tasks|].priority)
                  && r.value == d.(tasks := r.value.tasks, audit := r.value.audit) && d.audit <= r.value.audit)
  {
    PriorityReads(input.priority);
    TypeReads(input.kind);
    Text.TrimEmpty(input.name);
  }

  /** After the old tasks, one for each of the first `n` inputs, with its priority as it is. */
  ghost predicate Follow(was: seq<Task>, tasks: seq<Task>, inputs: seq<TaskInput>, n: nat)
    requires n <= |inputs|
  {
    && |tasks| == |was| + n && was <= tasks
    && forall k | 0 <= k < n ::
         var t := tasks[|was| + k]; NewTask(inputs[k], t.id, t) && t.priority == inputs[k].priority
  }

  lemma AppendMeans(d: Snapshot, input: TaskInput, priority: string, actor: string, now: int) returns (t: Task)
    ensures Append(d, input, priority, actor, now).tasks == d.tasks + [t]
    ensures NewTask(input, NextId(TaskIds(d.tasks)), t) && t.priority == priority
  {
    t := Normalize(Draft(input, NextId(TaskIds(d.tasks)), priority));
    TypeReads(input.kind);
  }

  lemma OneFollows(was: seq<Task>, tasks: seq<Task>, t: Task, inputs: seq<TaskInput>, n: nat)
    requires n < |inputs| && Follow(was, tasks, inputs, n)
    requires NewTask(inputs[n], t.id, t) && t.priority == inputs[n].priority
    ensures Follow(was, tasks + [t], inputs, n + 1)
  {
  }

  lemma {:induction false} LastCreated(d: Snapshot, inputs: seq<TaskInput>, n: nat, actor: string, now: int)
    requires n < |inputs| && Follow(d.tasks, AppendAll(d, inputs, n, actor, now).tasks, inputs, n)
    ensures Follow(d.tasks, AppendAll(d, inputs, n + 1, actor, now).tasks, inputs, n + 1)
  {
    var d' := AppendAll(d, inputs, n, actor, now);
    var t := AppendMeans(d', inputs[n], inputs[n].priority, actor, now);
    OneFollows(d.tasks, d'.tasks, t, inputs, n);
  }

  lemma {:induction false} FirstCreated(d: Snapshot, inputs: seq<TaskInput>, n: nat, actor: string, now: int)
    requires n <= |inputs|
    ensures Follow(d.tasks, AppendAll(d, inputs, n, actor, now).tasks, inputs, n)
  {
    for k := 0 to n
      invariant Follow(d.tasks, AppendAll(d, inputs, k, actor, now).tasks, inputs, k)
    {
      LastCreated(d, inputs, k, actor, now);
    }
  }

  /** Many at once: refused exactly when there is none or some name is white space. */
  lemma BulkMeans(d: Snapshot, inputs: seq<TaskInput>, actor: string, now: int)
    ensures var r := CreateBulk(d, inputs, actor, now);
            && (r.Err? <==> inputs == [] || exists input | input in inputs :: Text.AllSpace(input.name))
            && (r.Ok? ==> Follow(d.tasks, r.value.tasks, inputs, |inputs|))
  {
    forall input | input in inputs ensures Text.Trim(input.name) == "" <==> Text.AllSpace(input.name) {
      Text.TrimEmpty(input.name);
    }
    FirstCreated(d, inputs, |inputs|, actor, now);
  }
}
