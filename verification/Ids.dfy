/** Integer identifiers: one more than the largest in use. */
module Ids {
  import opened Integers
  import opened Models
  import opened Slices
  import opened Wrappers

  /** The largest identifier, or 0 when none is positive. */
  function MaxId(ids: seq<Int64>): (max: Int64)
    ensures max >= 0
    ensures forall id | id in ids :: id <= max
    ensures max == 0 || max in ids
  {
    if ids == [] then 0
    else
      var init, last := ids[..|ids| - 1], ids[|ids| - 1];
      assert ids == init + [last];
      if last > MaxId(init) then last else MaxId(init)
  }

  function NextId(ids: seq<Int64>): Int64 {
    Increment(MaxId(ids))
  }

  method NextIntID(ids: seq<Int64>) returns (next: Int64)
    ensures next == NextId(ids)
  {
    var max: Int64 := 0;
    for i := 0 to |ids|
      invariant max == MaxId(ids[..i])
    {
      assert ids[..i + 1][..i] == ids[..i];
      if ids[i] > max {
        max := ids[i];
      }
    }
    assert ids[..|ids|] == ids;
    next := Increment(max);
  }

  /** A generated identifier is new unless both ends of the integer range are already taken. */
  lemma NextIdFresh(ids: seq<Int64>)
    ensures NextId(ids) !in ids <==> !(MAX_INT in ids && MIN_INT in ids)
    ensures MAX_INT !in ids ==> forall id | id in ids :: id < NextId(ids)
  {
  }

  lemma AppendFresh(ids: seq<Int64>)
    requires NoDup(ids) && MAX_INT !in ids
    ensures NoDup(ids + [NextId(ids)])
  {
    NextIdFresh(ids);
  }

  function TaskIds(tasks: seq<Task>): (ids: seq<Int64>)
    ensures |ids| == |tasks|
  {
    seq(|tasks|, i requires 0 <= i < |tasks| => tasks[i].id)
  }

  function SubtaskIds(subtasks: seq<Subtask>): (ids: seq<Int64>)
    ensures |ids| == |subtasks|
  {
    seq(|subtasks|, i requires 0 <= i < |subtasks| => subtasks[i].id)
  }

  function CommentIds(comments: seq<TaskComment>): (ids: seq<Int64>)
    ensures |ids| == |comments|
  {
    seq(|comments|, i requires 0 <= i < |comments| => comments[i].id)
  }

  function AuditIds(audit: seq<AuditEntry>): (ids: seq<Int64>)
    ensures |ids| == |audit|
  {
    seq(|audit|, i requires 0 <= i < |audit| => audit[i].id)
  }

  function Audited(
    audit: seq<AuditEntry>, actor: string, kind: string, taskId: Option<Int64>, now: int): seq<AuditEntry> {
    audit + [AuditEntry(NextId(AuditIds(audit)), kind, actor, taskId, Some(now))]
  }

  method AppendAudit(d: Document, actor: string, kind: string, taskId: Option<Int64>, now: int)
    modifies d`audit
    ensures d.audit == Audited(old(d.audit), actor, kind, taskId, now)
  {
    var id := NextIntID(AuditIds(d.audit));
    d.audit := d.audit + [AuditEntry(id, kind, actor, taskId, Some(now))];
  }

  ghost predicate UniqueTaskIds(d: Snapshot) {
    NoDup(TaskIds(d.tasks))
  }

  /** The position of the first task with an identifier. */
  function FindTask(tasks: seq<Task>, id: Int64): (r: Option<nat>)
    ensures r.Some? ==> r.value < |tasks| && tasks[r.value].id == id
    ensures r.Some? ==> forall j | 0 <= j < r.value :: tasks[j].id != id
    ensures r.None? ==> forall t | t in tasks :: t.id != id
  {
    if tasks == [] then None
    else if tasks[0].id == id then Some(0)
    else match FindTask(tasks[1..], id)
      case None => None
      case Some(i) => Some(i + 1)
  }

  method FindTaskIndex(tasks: seq<Task>, id: Int64) returns (r: Option<nat>)
    ensures r == FindTask(tasks, id)
  {
    for i := 0 to |tasks|
      invariant forall j | 0 <= j < i :: tasks[j].id != id
    {
      if tasks[i].id == id {
        return Some(i);
      }
    }
    return None;
  }

  lemma {:induction false} FindUnique(tasks: seq<Task>, i: nat)
    requires NoDup(TaskIds(tasks)) && i < |tasks|
    ensures FindTask(tasks, tasks[i].id) == Some(i)
  {
    assert tasks[i] in tasks;
    var k := FindTask(tasks, tasks[i].id).value;
    var ids := TaskIds(tasks);
    assert ids[k] == tasks[k].id && ids[i] == tasks[i].id;
  }
}
