/** Subtask entities and the legacy list of their names that each task carries. */
module Subtasks {
  import opened Ids
  import opened Integers
  import opened Models
  import opened Slices
  import opened Wrappers
  import RuleEngine
  import RuleMeaning
  import RuleRunner
  import Text

  datatype Request =
    | Create(parent: Int64, name: string, actor: string)
    | Rename(id: Int64, name: string)
    | Delete(id: Int64)

  function CreateSubtask(d: Snapshot, parent: Int64, name: string, actor: string, now: int): Result<Snapshot> {
    if Text.Trim(name) == "" then Err("invalid body")
    else
      match FindTask(d.tasks, parent)
      case None => Err("task not found")
      case Some(i) =>
        var s := Subtask(NextId(SubtaskIds(d.subtasks)), parent, name, RuleEngine.NextOrder(d.subtasks, parent));
        var t := d.tasks[i];
        Ok(d.(subtasks := d.subtasks + [s],
              tasks := d.tasks[i := t.(subtasks := t.subtasks + [name])],
              audit := Audited(d.audit, actor, "subtask.created", Some(s.id), now)))
  }

  function FindSubtask(subtasks: seq<Subtask>, id: Int64): (r: Option<nat>)
    ensures r.Some? ==> r.value < |subtasks| && subtasks[r.value].id == id
    ensures r.Some? ==> forall j | 0 <= j < r.value :: subtasks[j].id != id
    ensures r.None? ==> forall s | s in subtasks :: s.id != id
  {
    if subtasks == [] then None
    else if subtasks[0].id == id then Some(0)
    else match FindSubtask(subtasks[1..], id)
      case None => None
      case Some(i) => Some(i + 1)
  }

  function ReplaceFirst(names: seq<string>, was: string, name: string): (r: seq<string>)
    ensures |r| == |names|
  {
    if names == [] then []
    else if names[0] == was then [name] + names[1..]
    else [names[0]] + ReplaceFirst(names[1..], was, name)
  }

  /** The name of a subtask and, where it is a change, the mirror entry on its parent. */
  function RenameSubtask(d: Snapshot, id: Int64, name: string): Result<Snapshot> {
    match FindSubtask(d.subtasks, id)
    case None => Err("subtask not found")
    case Some(i) =>
      var s := d.subtasks[i];
      var d' := d.(subtasks := d.subtasks[i := s.(name := name)]);
      match FindTask(d.tasks, s.parentTaskId)
      case Some(p) =>
        if s.name == name then Ok(d')
        else
          var t := d.tasks[p];
          Ok(d'.(tasks := d.tasks[p := t.(subtasks := ReplaceFirst(t.subtasks, s.name, name))]))
      case None => Ok(d')
  }

  /** The last subtask with an identifier, which is the one whose name leaves the mirror. */
  function LastSubtask(subtasks: seq<Subtask>, id: Int64): (r: Option<Subtask>)
    ensures r.Some? ==> r.value in subtasks && r.value.id == id
    ensures r.None? ==> forall s | s in subtasks :: s.id != id
  {
    if subtasks == [] then None
    else
      var init, last := subtasks[..|subtasks| - 1], subtasks[|subtasks| - 1];
      assert subtasks == init + [last];
      if last.id == id then Some(last) else LastSubtask(init, id)
  }

  function Others(subtasks: seq<Subtask>, id: Int64): seq<Subtask> {
    Filter(subtasks, (s: Subtask) => s.id != id)
  }

  /** After its first match the loop goes on comparing with the empty name. */
  function DropMirror(names: seq<string>, name: string): (r: seq<string>)
    ensures |r| <= |names|
  {
    if names == [] then []
    else if names[0] == name then DropMirror(names[1..], "")
    else [names[0]] + DropMirror(names[1..], name)
  }

  function DeleteSubtask(d: Snapshot, id: Int64): Result<Snapshot> {
    match LastSubtask(d.subtasks, id)
    case None => Err("subtask not found")
    case Some(removed) =>
      var d' := d.(subtasks := Others(d.subtasks, id));
      match FindTask(d.tasks, removed.parentTaskId)
      case None => Ok(d')
      case Some(p) =>
        var t := d.tasks[p];
        Ok(d'.(tasks := d.tasks[p := t.(subtasks := DropMirror(t.subtasks, removed.name))]))
  }

  function Handle(d: Snapshot, r: Request, now: int): Result<Snapshot> {
    match r
    case Create(parent, name, actor) => CreateSubtask(d, parent, name, actor, now)
    case Rename(id, name) => RenameSubtask(d, id, name)
    case Delete(id) => DeleteSubtask(d, id)
  }

  // ----- in place -----

  method CreateInPlace(d: Document, parent: Int64, name: string, actor: string, now: int) returns (r: Result<()>)
    modifies d`subtasks, d`tasks, d`audit
    ensures match CreateSubtask(old(d.Value()), parent, name, actor, now)
            case Ok(s) => r == Ok(()) && d.Value() == s
            case Err(e) => r == Err(e) && d.Value() == old(d.Value())
  {
    if Text.Trim(name) == "" {
      return Err("invalid body");
    }
    var i := FindTaskIndex(d.tasks, parent);
    if i.None? {
      return Err("task not found");
    }
    AppendEntity(d, i.value, parent, name, actor, now);
    r := Ok(());
  }

  method AppendEntity(d: Document, i: nat, parent: Int64, name: string, actor: string, now: int)
    requires FindTask(d.tasks, parent) == Some(i) && Text.Trim(name) != ""
    modifies d`subtasks, d`tasks, d`audit
    ensures CreateSubtask(old(d.Value()), parent, name, actor, now) == Ok(d.Value())
  {
    ghost var want := CreateSubtask(d.Value(), parent, name, actor, now);
    assert want.Ok?;
    var order := RuleRunner.NextSubtaskOrder(d.subtasks, parent);
    var id := NextIntID(SubtaskIds(d.subtasks));
    d.subtasks := d.subtasks + [Subtask(id, parent, name, order)];
    assert d.subtasks == want.value.subtasks;
    var t := d.tasks[i];
    d.tasks := d.tasks[i := t.(subtasks := t.subtasks + [name])];
    assert d.tasks == want.value.tasks;
    AppendAudit(d, actor, "subtask.created", Some(id), now);
    assert d.audit == want.value.audit;
  }

  method ReplaceFirstInPlace(names: array<string>, was: string, name: string)
    modifies names
    ensures names[..] == ReplaceFirst(old(names[..]), was, name)
  {
    ghost var all := names[..];
    for j := 0 to names.Length
      invariant names[..] == all && was !in all[..j]
    {
      if names[j] == was {
        names[j] := name;
        ReplaceFirstAt(all, j, was, name);
        return;
      }
    }
    assert all[..names.Length] == all;
    ReplaceFirstAbsent(all, was, name);
  }

  lemma {:induction false} ReplaceFirstAt(names: seq<string>, j: nat, was: string, name: string)
    requires j < |names| && names[j] == was && was !in names[..j]
    ensures ReplaceFirst(names, was, name) == names[j := name]
  {
    if j > 0 {
      assert names[0] in names[..j];
      assert names[1..][..j - 1] == names[1..j];
      forall x | x in names[1..j] ensures x in names[..j] {
      }
      ReplaceFirstAt(names[1..], j - 1, was, name);
    }
  }

  lemma {:induction false} ReplaceFirstAbsent(names: seq<string>, was: string, name: string)
    requires was !in names
    ensures ReplaceFirst(names, was, name) == names
  {
    if names != [] {
      ReplaceFirstAbsent(names[1..], was, name);
    }
  }

  method RenameInPlace(d: Document, id: Int64, name: string) returns (r: Result<()>)
    modifies d`subtasks, d`tasks
    ensures match RenameSubtask(old(d.Value()), id, name)
            case Ok(s) => r == Ok(()) && d.Value() == s
            case Err(e) => r == Err(e) && d.Value() == old(d.Value())
  {
    var i := FindSubtaskIndex(d.subtasks, id);
    if i.None? {
      return Err("subtask not found");
    }
    var s := d.subtasks[i.value];
    d.subtasks := d.subtasks[i.value := s.(name := name)];
    if name != s.name {
      var p := FindTaskIndex(d.tasks, s.parentTaskId);
      if p.Some? {
        var t := d.tasks[p.value];
        var names := new string[|t.subtasks|](k requires 0 <= k < |t.subtasks| => t.subtasks[k]);
        assert names[..] == t.subtasks;
        ReplaceFirstInPlace(names, s.name, name);
        d.tasks := d.tasks[p.value := t.(subtasks := names[..])];
      }
    }
    r := Ok(());
  }

  method FindSubtaskIndex(subtasks: seq<Subtask>, id: Int64) returns (r: Option<nat>)
    ensures r == FindSubtask(subtasks, id)
  {
    for i := 0 to |subtasks|
      invariant forall j | 0 <= j < i :: subtasks[j].id != id
    {
      if subtasks[i].id == id {
        return Some(i);
      }
    }
    return None;
  }

  method RemoveSubtask(subtasks: seq<Subtask>, id: Int64) returns (out: seq<Subtask>, removed: Option<Subtask>)
    ensures out == Others(subtasks, id) && removed == LastSubtask(subtasks, id)
  {
    removed := None;
    for i := 0 to |subtasks|
      invariant removed == LastSubtask(subtasks[..i], id)
    {
      assert subtasks[..i + 1][..i] == subtasks[..i];
      if subtasks[i].id == id {
        removed := Some(subtasks[i]);
      }
    }
    assert subtasks[..|subtasks|] == subtasks;
    var kept, _ := FilterInPlace(subtasks, (s: Subtask) => s.id != id);
    out := kept;
  }

  method DropMirrorLoop(names: seq<string>, name: string) returns (kept: seq<string>)
    ensures kept == DropMirror(names, name)
  {
    kept := [];
    var removedName := name;
    for i := 0 to |names|
      invariant kept + DropMirror(names[i..], removedName) == DropMirror(names, name)
    {
      assert names[i..][1..] == names[i + 1..];
      if names[i] == removedName {
        removedName := "";
        continue;
      }
      ghost var rest := DropMirror(names[i + 1..], removedName);
      assert kept + ([names[i]] + rest) == kept + [names[i]] + rest;
      kept := kept + [names[i]];
    }
  }

  method DeleteInPlace(d: Document, id: Int64) returns (r: Result<()>)
    modifies d`subtasks, d`tasks
    ensures match DeleteSubtask(old(d.Value()), id)
            case Ok(s) => r == Ok(()) && d.Value() == s
            case Err(e) => r == Err(e)
  {
    var out, removed := RemoveSubtask(d.subtasks, id);
    d.subtasks := out;
    if removed.None? {
      return Err("subtask not found");
    }
    var p := FindTaskIndex(d.tasks, removed.value.parentTaskId);
    if p.Some? {
      var t := d.tasks[p.value];
      var kept := DropMirrorLoop(t.subtasks, removed.value.name);
      d.tasks := d.tasks[p.value := t.(subtasks := kept)];
    }
    r := Ok(());
  }

  // ----- the mirror -----

  /** The names of the subtask entities under a task. */
  function NamesUnder(subtasks: seq<Subtask>, parent: Int64): seq<string> {
    if subtasks == [] then []
    else
      var last := subtasks[|subtasks| - 1];
      NamesUnder(subtasks[..|subtasks| - 1], parent) + if last.parentTaskId == parent then [last.name] else []
  }

  /** How often a name occurs in a list, and among the entities under a task. */
  function Occurs(names: seq<string>, name: string): nat {
    if names == [] then 0 else (if names[0] == name then 1 else 0) + Occurs(names[1..], name)
  }

  function Bears(s: Subtask, parent: Int64, name: string): nat {
    if s.parentTaskId == parent && s.name == name then 1 else 0
  }

  function Count(subtasks: seq<Subtask>, parent: Int64, name: string): nat {
    if subtasks == [] then 0
    else Count(subtasks[..|subtasks| - 1], parent, name) + Bears(subtasks[|subtasks| - 1], parent, name)
  }

  ghost predicate Mirrored(t: Task, subtasks: seq<Subtask>) {
    forall name: string :: Occurs(t.subtasks, name) == Count(subtasks, t.id, name)
  }

  ghost predicate AllMirrored(d: Snapshot) {
    forall t | t in d.tasks :: Mirrored(t, d.subtasks)
  }

  ghost predicate Named(d: Snapshot) {
    forall s | s in d.subtasks :: s.name != ""
  }

  ghost predicate Distinct(d: Snapshot) {
    UniqueTaskIds(d) && NoDup(SubtaskIds(d.subtasks))
  }

  lemma {:induction false} OccursIsMultiplicity(names: seq<string>, name: string)
    ensures Occurs(names, name) == multiset(names)[name]
  {
    if names != [] {
      assert names == [names[0]] + names[1..];
      OccursIsMultiplicity(names[1..], name);
    }
  }

  lemma {:induction false} CountIsMultiplicity(subtasks: seq<Subtask>, parent: Int64, name: string)
    ensures Count(subtasks, parent, name) == multiset(NamesUnder(subtasks, parent))[name]
  {
    if subtasks != [] {
      CountIsMultiplicity(subtasks[..|subtasks| - 1], parent, name);
    }
  }

  /** The mirror is the multiset of the entities' names. */
  lemma MirroredMeans(t: Task, subtasks: seq<Subtask>)
    ensures Mirrored(t, subtasks) <==> multiset(t.subtasks) == multiset(NamesUnder(subtasks, t.id))
  {
    var under := NamesUnder(subtasks, t.id);
    forall name: string ensures Occurs(t.subtasks, name) == multiset(t.subtasks)[name] {
      OccursIsMultiplicity(t.subtasks, name);
    }
    forall name: string ensures Count(subtasks, t.id, name) == multiset(under)[name] {
      CountIsMultiplicity(subtasks, t.id, name);
    }
    if Mirrored(t, subtasks) {
      forall name: string ensures multiset(t.subtasks)[name] == multiset(under)[name] {
        assert Occurs(t.subtasks, name) == Count(subtasks, t.id, name);
      }
    }
  }

  lemma {:induction false} OccursAppend(names: seq<string>, last: string, name: string)
    ensures Occurs(names + [last], name) == Occurs(names, name) + if last == name then 1 else 0
  {
    if names != [] {
      assert (names + [last])[1..] == names[1..] + [last];
      OccursAppend(names[1..], last, name);
    }
  }

  lemma {:induction false} OccursMember(names: seq<string>, name: string)
    ensures name in names <==> Occurs(names, name) > 0
  {
    if names != [] {
      OccursMember(names[1..], name);
    }
  }

  lemma CountAppend(subtasks: seq<Subtask>, s: Subtask, parent: Int64, name: string)
    ensures Count(subtasks + [s], parent, name) == Count(subtasks, parent, name) + Bears(s, parent, name)
  {
    assert (subtasks + [s])[..|subtasks|] == subtasks;
  }

  lemma {:induction false} CountUpdate(subtasks: seq<Subtask>, i: nat, s: Subtask, parent: Int64, name: string)
    requires i < |subtasks|
    ensures Count(subtasks[i := s], parent, name) + Bears(subtasks[i], parent, name)
            == Count(subtasks, parent, name) + Bears(s, parent, name)
  {
    var n := |subtasks| - 1;
    var changed, init := subtasks[i := s], subtasks[..n];
    if i < n {
      assert changed[..n] == init[i := s];
      CountUpdate(init, i, s, parent, name);
    } else {
      assert changed[..n] == init;
    }
  }

  lemma NoOthers(subtasks: seq<Subtask>, id: Int64)
    requires forall s | s in subtasks :: s.id != id
    ensures Others(subtasks, id) == subtasks
  {
    FilterAll(subtasks, (s: Subtask) => s.id != id);
  }

  lemma LastIsNew(subtasks: seq<Subtask>)
    requires subtasks != [] && NoDup(SubtaskIds(subtasks))
    ensures var n := |subtasks| - 1;
            NoDup(SubtaskIds(subtasks[..n])) && forall s | s in subtasks[..n] :: s.id != subtasks[n].id
  {
    var n := |subtasks| - 1;
    var ids := SubtaskIds(subtasks);
    assert SubtaskIds(subtasks[..n]) == ids[..n];
    forall s | s in subtasks[..n] ensures s.id != subtasks[n].id {
      var k :| 0 <= k < n && subtasks[k] == s;
      assert ids[k] == s.id && ids[n] == subtasks[n].id;
    }
  }

  lemma {:induction false} CountOthers(subtasks: seq<Subtask>, id: Int64, parent: Int64, name: string)
    requires NoDup(SubtaskIds(subtasks)) && LastSubtask(subtasks, id).Some?
    ensures Count(Others(subtasks, id), parent, name) + Bears(LastSubtask(subtasks, id).value, parent, name)
            == Count(subtasks, parent, name)
  {
    var n := |subtasks| - 1;
    var init, last := subtasks[..n], subtasks[n];
    LastIsNew(subtasks);
    if last.id == id {
      NoOthers(init, id);
      assert Others(subtasks, id) == init;
    } else {
      CountOthers(init, id, parent, name);
      assert Others(subtasks, id) == Others(init, id) + [last];
      CountAppend(Others(init, id), last, parent, name);
    }
  }

  lemma {:induction false} CountMember(subtasks: seq<Subtask>, s: Subtask)
    requires s in subtasks
    ensures Count(subtasks, s.parentTaskId, s.name) > 0
  {
    var init, last := subtasks[..|subtasks| - 1], subtasks[|subtasks| - 1];
    assert subtasks == init + [last];
    if s != last {
      CountMember(init, s);
    }
  }

  lemma {:induction false} ReplaceFirstOccurs(names: seq<string>, was: string, name: string, x: string)
    requires was in names
    ensures Occurs(ReplaceFirst(names, was, name), x) + (if x == was then 1 else 0)
            == Occurs(names, x) + (if x == name then 1 else 0)
  {
    if names[0] == was {
      assert ([name] + names[1..])[1..] == names[1..];
    } else {
      var rest := ReplaceFirst(names[1..], was, name);
      assert ([names[0]] + rest)[1..] == rest;
      ReplaceFirstOccurs(names[1..], was, name, x);
    }
  }

  /** The mirror entries behind the first one with a name. */
  function AfterFirst(names: seq<string>, name: string): seq<string> {
    if names == [] then [] else if names[0] == name then names[1..] else AfterFirst(names[1..], name)
  }

  lemma {:induction false} DropEmpty(names: seq<string>)
    ensures "" !in names ==> DropMirror(names, "") == names
    ensures "" !in DropMirror(names, "")
  {
    if names != [] {
      DropEmpty(names[1..]);
    }
  }

  /** The loop takes away exactly one entry as long as no empty entry comes after it. */
  lemma {:induction false} DropMirrorOne(names: seq<string>, name: string, x: string)
    requires name in names && "" !in AfterFirst(names, name)
    ensures Occurs(DropMirror(names, name), x) + (if x == name then 1 else 0) == Occurs(names, x)
  {
    if names[0] == name {
      DropEmpty(names[1..]);
    } else {
      var rest := DropMirror(names[1..], name);
      assert ([names[0]] + rest)[1..] == rest;
      DropMirrorOne(names[1..], name, x);
    }
  }

  /** Any empty entry after it goes too. */
  lemma {:induction false} DropMirrorMore(names: seq<string>, name: string)
    requires name in names && "" in AfterFirst(names, name)
    ensures Occurs(DropMirror(names, name), "") + (if "" == name then 1 else 0) < Occurs(names, "")
  {
    if names[0] == name {
      DropEmpty(names[1..]);
      OccursMember(names[1..], "");
      OccursMember(DropMirror(names[1..], ""), "");
    } else {
      var rest := DropMirror(names[1..], name);
      assert ([names[0]] + rest)[1..] == rest;
      DropMirrorMore(names[1..], name);
    }
  }

  lemma {:induction false} AfterFirstMember(names: seq<string>, name: string, x: string)
    requires x in AfterFirst(names, name)
    ensures x in names
  {
    if names[0] != name {
      AfterFirstMember(names[1..], name, x);
    }
  }

  /** All tasks but one keep their mirror; that one is stated apart. */
  lemma MirrorsExcept(d: Snapshot, d': Snapshot, p: nat)
    requires UniqueTaskIds(d) && AllMirrored(d) && p < |d.tasks| == |d'.tasks|
    requires d'.tasks == d.tasks[p := d.tasks[p].(subtasks := d'.tasks[p].subtasks)]
    requires forall parent: Int64, name: string | parent != d.tasks[p].id ::
               Count(d'.subtasks, parent, name) == Count(d.subtasks, parent, name)
    ensures AllMirrored(d') <==> Mirrored(d'.tasks[p], d'.subtasks)
    ensures TaskIds(d'.tasks) == TaskIds(d.tasks)
  {
    var ids := TaskIds(d.tasks);
    forall i | 0 <= i < |d.tasks| && i != p ensures Mirrored(d'.tasks[i], d'.subtasks) {
      assert ids[i] == d.tasks[i].id && ids[p] == d.tasks[p].id;
      assert d.tasks[i] in d.tasks && Mirrored(d.tasks[i], d.subtasks);
    }
    assert d'.tasks[p] in d'.tasks;
  }

  lemma CreateKeeps(d: Snapshot, parent: Int64, name: string, actor: string, now: int)
    requires Distinct(d) && AllMirrored(d) && MAX_INT !in SubtaskIds(d.subtasks)
    requires CreateSubtask(d, parent, name, actor, now).Ok?
    ensures var d' := CreateSubtask(d, parent, name, actor, now).value;
            Distinct(d') && AllMirrored(d') && (Named(d) ==> Named(d'))
  {
    var d' := CreateSubtask(d, parent, name, actor, now).value;
    var p := FindTask(d.tasks, parent).value;
    var s := d'.subtasks[|d.subtasks|];
    assert d'.subtasks == d.subtasks + [s];
    assert SubtaskIds(d'.subtasks) == SubtaskIds(d.subtasks) + [NextId(SubtaskIds(d.subtasks))];
    AppendFresh(SubtaskIds(d.subtasks));
    forall q: Int64, x: string {
      CountAppend(d.subtasks, s, q, x);
    }
    assert d.tasks[p] in d.tasks && Mirrored(d.tasks[p], d.subtasks);
    forall x: string {
      OccursAppend(d.tasks[p].subtasks, name, x);
    }
    MirrorsExcept(d, d', p);
    assert Text.Trim("") == "";
  }

  lemma RenameMirrors(d: Snapshot, i: nat, p: nat, name: string)
    requires Distinct(d) && AllMirrored(d) && i < |d.subtasks| && p < |d.tasks|
    requires d.tasks[p].id == d.subtasks[i].parentTaskId
    ensures var s, t := d.subtasks[i], d.tasks[p];
            var d' := d.(subtasks := d.subtasks[i := s.(name := name)],
                         tasks := d.tasks[p := t.(subtasks := ReplaceFirst(t.subtasks, s.name, name))]);
            AllMirrored(d') && TaskIds(d'.tasks) == TaskIds(d.tasks)
  {
    var s, t := d.subtasks[i], d.tasks[p];
    var d' := d.(subtasks := d.subtasks[i := s.(name := name)],
                 tasks := d.tasks[p := t.(subtasks := ReplaceFirst(t.subtasks, s.name, name))]);
    assert t in d.tasks && Mirrored(t, d.subtasks);
    CountMember(d.subtasks, s);
    OccursMember(t.subtasks, s.name);
    forall q: Int64, x: string {
      CountUpdate(d.subtasks, i, s.(name := name), q, x);
    }
    forall x: string {
      ReplaceFirstOccurs(t.subtasks, s.name, name, x);
    }
    MirrorsExcept(d, d', p);
  }

  lemma RenameKeeps(d: Snapshot, id: Int64, name: string)
    requires Distinct(d) && AllMirrored(d) && RenameSubtask(d, id, name).Ok?
    ensures var d' := RenameSubtask(d, id, name).value;
            Distinct(d') && AllMirrored(d') && (Named(d) && name != "" ==> Named(d'))
  {
    var d' := RenameSubtask(d, id, name).value;
    var i := FindSubtask(d.subtasks, id).value;
    var s := d.subtasks[i];
    assert SubtaskIds(d'.subtasks) == SubtaskIds(d.subtasks);
    var p := FindTask(d.tasks, s.parentTaskId);
    if s.name == name {
      assert d.subtasks[i := s] == d.subtasks;
    } else if p.Some? {
      RenameMirrors(d, i, p.value, name);
    } else {
      forall t | t in d'.tasks ensures Mirrored(t, d'.subtasks) {
        assert t.id != s.parentTaskId && Mirrored(t, d.subtasks);
        forall x: string {
          CountUpdate(d.subtasks, i, s.(name := name), t.id, x);
        }
      }
    }
  }

  /** Deleting a subtask keeps the mirror if and only if no empty entry follows its name on the parent. */
  lemma DeleteMirrorExact(d: Snapshot, id: Int64)
    requires Distinct(d) && AllMirrored(d) && DeleteSubtask(d, id).Ok?
    ensures var d', s := DeleteSubtask(d, id).value, LastSubtask(d.subtasks, id).value;
            var p := FindTask(d.tasks, s.parentTaskId);
            && Distinct(d')
            && (AllMirrored(d') <==> p.None? || "" !in AfterFirst(d.tasks[p.value].subtasks, s.name))
  {
    var d', s := DeleteSubtask(d, id).value, LastSubtask(d.subtasks, id).value;
    OthersDistinct(d.subtasks, id);
    forall q: Int64, x: string ensures Count(d'.subtasks, q, x) + Bears(s, q, x) == Count(d.subtasks, q, x) {
      CountOthers(d.subtasks, id, q, x);
    }
    var p := FindTask(d.tasks, s.parentTaskId);
    if p.Some? {
      MirrorsExcept(d, d', p.value);
      DroppedMirror(d, d', p.value, s);
    } else {
      forall t | t in d'.tasks ensures Mirrored(t, d'.subtasks) {
        assert t.id != s.parentTaskId && Mirrored(t, d.subtasks);
      }
    }
  }

  lemma DroppedMirror(d: Snapshot, d': Snapshot, p: nat, s: Subtask)
    requires p < |d.tasks| == |d'.tasks| && AllMirrored(d) && s in d.subtasks && s.parentTaskId == d.tasks[p].id
    requires forall x: string :: Count(d'.subtasks, d.tasks[p].id, x) + Bears(s, d.tasks[p].id, x) ==
              Count(d.subtasks, d.tasks[p].id, x)
    requires d'.tasks[p] == d.tasks[p].(subtasks := DropMirror(d.tasks[p].subtasks, s.name))
    ensures Mirrored(d'.tasks[p], d'.subtasks) <==> "" !in AfterFirst(d.tasks[p].subtasks, s.name)
  {
    var t, names := d.tasks[p], d.tasks[p].subtasks;
    assert t in d.tasks && Mirrored(t, d.subtasks);
    CountMember(d.subtasks, s);
    OccursMember(names, s.name);
    if "" !in AfterFirst(names, s.name) {
      forall x: string ensures Occurs(DropMirror(names, s.name), x) == Count(d'.subtasks, t.id, x) {
        DropMirrorOne(names, s.name, x);
      }
    } else {
      DropMirrorMore(names, s.name);
      assert Occurs(names, "") == Count(d.subtasks, t.id, "");
      assert Occurs(DropMirror(names, s.name), "") != Count(d'.subtasks, t.id, "");
    }
  }

  lemma {:induction false} OthersDistinct(subtasks: seq<Subtask>, id: Int64)
    requires NoDup(SubtaskIds(subtasks))
    ensures NoDup(SubtaskIds(Others(subtasks, id)))
  {
    if subtasks != [] {
      var n := |subtasks| - 1;
      LastIsNew(subtasks);
      OthersDistinct(subtasks[..n], id);
      var rest := Others(subtasks[..n], id);
      if subtasks[n].id != id {
        assert SubtaskIds(Others(subtasks, id)) == SubtaskIds(rest) + [subtasks[n].id];
      } else {
        assert Others(subtasks, id) == rest;
      }
    }
  }

  ghost predicate MirrorInv(d: Snapshot) {
    Distinct(d) && AllMirrored(d) && Named(d)
  }

  lemma DeleteKeeps(d: Snapshot, id: Int64)
    requires MirrorInv(d) && DeleteSubtask(d, id).Ok?
    ensures MirrorInv(DeleteSubtask(d, id).value)
  {
    DeleteMirrorExact(d, id);
    var s := LastSubtask(d.subtasks, id).value;
    var p := FindTask(d.tasks, s.parentTaskId);
    if p.Some? && "" in AfterFirst(d.tasks[p.value].subtasks, s.name) {
      var t := d.tasks[p.value];
      AfterFirstMember(t.subtasks, s.name, "");
      OccursMember(t.subtasks, "");
      assert t in d.tasks && Mirrored(t, d.subtasks);
      assert Occurs(t.subtasks, "") == Count(d.subtasks, t.id, "");
      NamedUnder(d.subtasks, t.id);
    }
  }

  lemma {:induction false} NamedUnder(subtasks: seq<Subtask>, parent: Int64)
    requires forall s | s in subtasks :: s.name != ""
    ensures Count(subtasks, parent, "") == 0
  {
    if subtasks != [] {
      NamedUnder(subtasks[..|subtasks| - 1], parent);
    }
  }

  // ----- every run -----

  function Run(d: Snapshot, requests: seq<Request>, now: int): Snapshot {
    if requests == [] then d
    else
      var before := Run(d, requests[..|requests| - 1], now);
      match Handle(before, requests[|requests| - 1], now)
      case Ok(d') => d'
      case Err(_) => before
  }

  /** No request renames a subtask to nothing, and none finds the largest identifier in use. */
  ghost predicate Fair(d: Snapshot, requests: seq<Request>, now: int) {
    requests == [] ||
    (var init, r := requests[..|requests| - 1], requests[|requests| - 1];
     && Fair(d, init, now)
     && (r.Rename? ==> r.name != "")
     && (r.Create? ==> MAX_INT !in SubtaskIds(Run(d, init, now).subtasks)))
  }

  /**
   * Over every run of creations, renames and deletions, each task's list of subtask names is
   * the multiset of the names of its subtask entities, duplicate names included.
   */
  lemma {:induction false} MirrorConserved(d: Snapshot, requests: seq<Request>, now: int)
    requires MirrorInv(d) && Fair(d, requests, now)
    ensures MirrorInv(Run(d, requests, now))
  {
    if requests != [] {
      var init, r := requests[..|requests| - 1], requests[|requests| - 1];
      MirrorConserved(d, init, now);
      var before := Run(d, init, now);
      if Handle(before, r, now).Ok? {
        match r
        case Create(parent, name, actor) => CreateKeeps(before, parent, name, actor, now);
        case Rename(id, name) => RenameKeeps(before, id, name);
        case Delete(id) => DeleteKeeps(before, id);
      }
    }
  }

  // ----- what each request does -----

  /** The first task with an identifier has other subtask names; all else about tasks stays. */
  ghost predicate Renamed(tasks: seq<Task>, tasks': seq<Task>, p: nat, names: seq<string>) {
    p < |tasks| && tasks' == tasks[p := tasks[p].(subtasks := names)]
  }

  ghost predicate FirstTask(tasks: seq<Task>, p: nat, id: Int64) {
    p < |tasks| && tasks[p].id == id && forall j | 0 <= j < p :: tasks[j].id != id
  }

  /**
   * A subtask is refused exactly without a name or a parent. Otherwise it comes last, with the
   * name as given, behind all other subtasks of its parent, and its name last in the parent's list.
   */
  lemma CreateMeans(d: Snapshot, parent: Int64, name: string, actor: string, now: int)
    ensures match CreateSubtask(d, parent, name, actor, now)
            case Err(_) => Text.AllSpace(name) || forall t | t in d.tasks :: t.id != parent
            case Ok(d') =>
              && !Text.AllSpace(name) && |d'.subtasks| == |d.subtasks| + 1 && d.subtasks <= d'.subtasks
              && d' == d.(subtasks := d'.subtasks, tasks := d'.tasks, audit := d'.audit)
              && (var s := d'.subtasks[|d.subtasks|];
                  && s.id == NextId(SubtaskIds(d.subtasks)) && s.parentTaskId == parent && s.name == name
                  && s.order >= 0 && forall other | other in d.subtasks && other.parentTaskId == parent ::
                       other.order < s.order)
              && exists p: nat | FirstTask(d.tasks, p, parent) ::
                   Renamed(d.tasks, d'.tasks, p, d.tasks[p].subtasks + [name])
  {
    Text.TrimEmpty(name);
    RuleMeaning.OrderIsNext(d.subtasks, parent);
    var p := FindTask(d.tasks, parent);
    assert p.Some? ==> FirstTask(d.tasks, p.value, parent);
  }

  /** The first subtask with the identifier has the new name, and the first equal name of its parent follows it. */
  lemma RenameMeans(d: Snapshot, id: Int64, name: string, i: nat)
    requires i < |d.subtasks| && d.subtasks[i].id == id && forall j | 0 <= j < i :: d.subtasks[j].id != id
    ensures var r, was := RenameSubtask(d, id, name), d.subtasks[i];
            && r.Ok? && r.value == d.(subtasks := d.subtasks[i := was.(name := name)], tasks := r.value.tasks)
            && ((forall t | t in d.tasks :: t.id != was.parentTaskId) ==> r.value.tasks == d.tasks)
            && forall p: nat, k: nat |
                 FirstTask(d.tasks, p, was.parentTaskId) && k < |d.tasks[p].subtasks|
                 && d.tasks[p].subtasks[k] == was.name && was.name !in d.tasks[p].subtasks[..k] ::
                 Renamed(d.tasks, r.value.tasks, p, d.tasks[p].subtasks[k := name])
  {
    var was := d.subtasks[i];
    assert was in d.subtasks;
    forall p: nat, k: nat |
      FirstTask(d.tasks, p, was.parentTaskId) && k < |d.tasks[p].subtasks|
      && d.tasks[p].subtasks[k] == was.name && was.name !in d.tasks[p].subtasks[..k]
      ensures Renamed(d.tasks, RenameSubtask(d, id, name).value.tasks, p, d.tasks[p].subtasks[k := name])
    {
      var t := d.tasks[p];
      assert t in d.tasks && FindTask(d.tasks, was.parentTaskId) == Some(p);
      ReplaceFirstAt(t.subtasks, k, was.name, name);
      assert d.tasks[p := t] == d.tasks && (name == was.name ==> t.subtasks[k := name] == t.subtasks);
    }
  }

  /** Every subtask with the identifier goes and no other; at most one task's list of names changes. */
  lemma DeleteMeans(d: Snapshot, id: Int64)
    ensures match DeleteSubtask(d, id)
            case Err(_) => forall s | s in d.subtasks :: s.id != id
            case Ok(d') =>
              && d' == d.(subtasks := d'.subtasks, tasks := d'.tasks)
              && (exists s | s in d.subtasks :: s.id == id)
              && (forall s :: s in d'.subtasks <==> s in d.subtasks && s.id != id)
              && (d'.tasks == d.tasks || exists p: nat, names | p < |d.tasks| :: Renamed(d.tasks, d'.tasks, p, names))
  {
    var last := LastSubtask(d.subtasks, id);
    if last.Some? {
      var p := FindTask(d.tasks, last.value.parentTaskId);
      if p.Some? {
        var names := DropMirror(d.tasks[p.value].subtasks, last.value.name);
        assert Renamed(d.tasks, DeleteSubtask(d, id).value.tasks, p.value, names);
      }
    }
  }
}
