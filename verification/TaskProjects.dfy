/** Multi-homed tasks: the list of projects a task is in, mirrored by its legacy project field. */
module TaskProjects {
  import opened Ids
  import opened Integers
  import opened Models
  import opened NameLists
  import opened Slices
  import opened Wrappers
  import Text

  predicate HomedIn(t: Task, project: string) {
    project != "" && (t.project == project || project in t.projects)
  }

  /** `normalizeTaskProjects`: an update to either field rewrites the other. */
  function Normalize(t: Task): Task {
    if t.projects == [] then
      if t.project != "" then t.(projects := [t.project]) else t
    else
      var homes := Dedupe(t.projects);
      t.(projects := homes, project := if homes == [] then "" else homes[0])
  }

  /** The list has no repetition, is empty exactly when the field is, and starts with the field. */
  ghost predicate HomeOk(t: Task) {
    && NoDup(t.projects)
    && (t.projects == [] <==> t.project == "")
    && (t.projects != [] ==> t.projects[0] == t.project)
  }

  /** A task from before multi-homing, with white space around its project. */
  predicate UntrimmedLegacy(t: Task) {
    t.projects == [] && t.project != Text.Trim(t.project)
  }

  function Patch(t: Task, project: Option<string>, projects: Option<seq<string>>): Task {
    var t1 := match project
      case Some(p) => Normalize(t.(project := p, projects := []))
      case None => t;
    match projects
    case Some(ps) => Normalize(t1.(projects := ps))
    case None => t1
  }

  function Add(t: Task, project: string): Task {
    var t1 := Normalize(t);
    Normalize(t1.(projects := t1.projects + [project]))
  }

  function Remove(t: Task, project: string): Result<Task> {
    var t1 := Normalize(t);
    if |t1.projects| <= 1 then Err("cannot remove a task's only project")
    else Ok(Normalize(t1.(projects := Without(t1.projects, project))))
  }

  function Without(names: seq<string>, name: string): seq<string> {
    Filter(names, n => n != name)
  }

  function Detach(t: Task, project: string): Task {
    var t1 := Normalize(t);
    var t2 := t1.(projects := Without(t1.projects, project));
    Normalize(if t2.project == project then t2.(project := "") else t2)
  }

  function AddProject(d: Snapshot, id: Int64, project: string): Result<Snapshot> {
    if project !in d.projects then Err("project not found")
    else
      match FindTask(d.tasks, id)
      case None => Err("task not found")
      case Some(i) => Ok(d.(tasks := d.tasks[i := Add(d.tasks[i], project)]))
  }

  function RemoveProject(d: Snapshot, id: Int64, project: string): Result<Snapshot> {
    match FindTask(d.tasks, id)
    case None => Err("task not found")
    case Some(i) =>
      match Remove(d.tasks[i], project)
      case Err(e) => Err(e)
      case Ok(t) => Ok(d.(tasks := d.tasks[i := t]))
  }

  function DeleteProject(d: Snapshot, project: string): Result<Snapshot> {
    if project !in d.projects then Err("project not found")
    else Ok(d.(projects := d.projects - {project}, tasks := Map(d.tasks, t => Detach(t, project))))
  }

  // ----- in place -----

  /** The task's two fields, as the handlers hold them through a pointer into the document. */
  class TaskCell {
    var task: Task

    constructor (t: Task)
      ensures task == t
    {
      task := t;
    }

    method NormalizeInPlace()
      modifies this
      ensures task == Normalize(old(task))
    {
      if |task.projects| == 0 && task.project != "" {
        task := task.(projects := [task.project]);
      } else if |task.projects| > 0 {
        var homes := DedupeNonEmpty(task.projects);
        task := task.(projects := homes);
        if |homes| > 0 {
          task := task.(project := homes[0]);
        } else {
          task := task.(project := "");
        }
      }
    }

    method PatchInPlace(project: Option<string>, projects: Option<seq<string>>)
      modifies this
      ensures task == Patch(old(task), project, projects)
    {
      if project.Some? {
        task := task.(project := project.value);
        task := task.(projects := []);
        NormalizeInPlace();
      }
      if projects.Some? {
        task := task.(projects := projects.value);
        NormalizeInPlace();
      }
    }

    method DetachInPlace(project: string)
      modifies this
      ensures task == Detach(old(task), project)
    {
      NormalizeInPlace();
      var homes, _ := FilterInPlace(task.projects, p => p != project);
      task := task.(projects := homes);
      if task.project == project {
        task := task.(project := "");
      }
      NormalizeInPlace();
    }

    method RemoveInPlace(project: string) returns (r: Result<()>)
      modifies this
      ensures match Remove(old(task), project)
              case Ok(t) => r == Ok(()) && task == t
              case Err(e) => r == Err(e)
    {
      NormalizeInPlace();
      if |task.projects| <= 1 {
        return Err("cannot remove a task's only project");
      }
      var homes, _ := FilterInPlace(task.projects, p => p != project);
      task := task.(projects := homes);
      NormalizeInPlace();
      r := Ok(());
    }
  }

  method AddTaskProject(d: Document, id: Int64, project: string) returns (r: Result<()>)
    modifies d`tasks
    ensures match AddProject(old(d.Value()), id, project)
            case Ok(s) => r == Ok(()) && d.Value() == s
            case Err(e) => r == Err(e) && d.Value() == old(d.Value())
  {
    if project !in d.projects {
      return Err("project not found");
    }
    var i := FindTaskIndex(d.tasks, id);
    if i.None? {
      return Err("task not found");
    }
    var cell := new TaskCell(d.tasks[i.value]);
    cell.NormalizeInPlace();
    cell.task := cell.task.(projects := cell.task.projects + [project]);
    cell.NormalizeInPlace();
    d.tasks := d.tasks[i.value := cell.task];
    r := Ok(());
  }

  method RemoveTaskProject(d: Document, id: Int64, project: string) returns (r: Result<()>)
    modifies d`tasks
    ensures match RemoveProject(old(d.Value()), id, project)
            case Ok(s) => r == Ok(()) && d.Value() == s
            case Err(e) => r == Err(e)
  {
    var i := FindTaskIndex(d.tasks, id);
    if i.None? {
      return Err("task not found");
    }
    var cell := new TaskCell(d.tasks[i.value]);
    r := cell.RemoveInPlace(project);
    d.tasks := d.tasks[i.value := cell.task];
  }

  method DeleteProjectInPlace(d: Document, project: string) returns (r: Result<()>)
    modifies d`tasks, d`projects
    ensures match DeleteProject(old(d.Value()), project)
            case Ok(s) => r == Ok(()) && d.Value() == s
            case Err(e) => r == Err(e) && d.Value() == old(d.Value())
  {
    if project !in d.projects {
      return Err("project not found");
    }
    d.projects := d.projects - {project};
    ghost var was := d.tasks;
    for i := 0 to |d.tasks|
      invariant |d.tasks| == |was| && d.projects == old(d.projects) - {project}
      invariant forall j | 0 <= j < i :: d.tasks[j] == Detach(was[j], project)
      invariant forall j | i <= j < |was| :: d.tasks[j] == was[j]
    {
      var cell := new TaskCell(d.tasks[i]);
      cell.DetachInPlace(project);
      d.tasks := d.tasks[i := cell.task];
    }
    assert d.tasks == Map(was, t => Detach(t, project));
    r := Ok(());
  }

  // ----- the home invariant -----

  /** Whatever the two fields held, normalizing establishes the home invariant. */
  lemma NormalizeHomes(t: Task)
    ensures HomeOk(Normalize(t))
    ensures t.projects != [] ==> Clean(Normalize(t).projects)
    ensures Normalize(t) == t.(project := Normalize(t).project, projects := Normalize(t).projects)
  {
    DedupeMeans(t.projects);
    var homes := Dedupe(t.projects);
    assert homes != [] ==> homes[0] in homes;
  }

  /** Normalizing twice is normalizing once, except for legacy tasks with an untrimmed project. */
  lemma NormalizeIdempotent(t: Task)
    ensures Normalize(Normalize(t)) == Normalize(t) <==> !UntrimmedLegacy(t)
  {
    if t.projects == [] {
      DedupeFirst(t.project);
    } else {
      DedupeIdempotent(t.projects);
    }
  }

  lemma PatchKeepsHomes(t: Task, project: Option<string>, projects: Option<seq<string>>)
    requires HomeOk(t)
    ensures HomeOk(Patch(t, project, projects))
  {
    if project.Some? {
      NormalizeHomes(t.(project := project.value, projects := []));
    }
    if projects.Some? {
      var t1 := if project.Some? then Normalize(t.(project := project.value, projects := [])) else t;
      NormalizeHomes(t1.(projects := projects.value));
    }
  }

  /** Adding a home adds it at the end, keeps the first home, and does nothing when it is there. */
  lemma AddKeepsHomes(t: Task, project: string)
    requires Clean(t.projects) && HomeOk(t)
    ensures var t', p := Add(t, project), Text.Trim(project);
            && HomeOk(t')
            && t'.projects == if p == "" || p in t.projects then t.projects else t.projects + [p]
  {
    NormalizeHomes(Normalize(t).(projects := Normalize(t).projects + [project]));
    DedupeClean(t.projects);
    assert Normalize(t) == t;
    var more := t.projects + [project];
    assert more[..|more| - 1] == t.projects;
  }

  /** Removing never leaves a task without a home, and takes away just the one named. */
  lemma RemoveKeepsHomes(t: Task, project: string)
    requires Remove(t, project).Ok?
    ensures var t' := Remove(t, project).value;
            && HomeOk(t') && t'.projects != [] && t'.project != ""
            && t'.projects == Without(Normalize(t).projects, project)
            && !HomedIn(t', project)
  {
    var t1 := Normalize(t);
    NormalizeHomes(t);
    FilterClean(t1.projects, n => n != project);
    var left := Without(t1.projects, project);
    assert t1.projects[0] != project || t1.projects[1] != project;
    assert t1.projects[0] in t1.projects && t1.projects[1] in t1.projects;
    assert left != [];
    assert left[0] in left;
    DedupeClean(left);
    NormalizeHomes(t1.(projects := left));
  }

  /** The only task that keeps a home in a deleted project: a legacy one whose project differs by white space. */
  predicate Escapes(t: Task, project: string) {
    UntrimmedLegacy(t) && t.project != project && Text.Trim(t.project) == project
  }

  lemma DetachListed(t: Task, project: string)
    requires project != "" && t.projects != []
    ensures var t' := Detach(t, project);
            HomeOk(t') && !HomedIn(t', project) && t'.projects == Without(Normalize(t).projects, project)
  {
    var t1 := Normalize(t);
    NormalizeHomes(t);
    var left := Without(t1.projects, project);
    FilterClean(t1.projects, n => n != project);
    DedupeClean(left);
    assert t1.projects != [] ==> t1.projects[0] in t1.projects;
    assert left != [] ==> left[0] in left;
  }

  lemma DetachLegacy(t: Task, project: string)
    requires project != "" && t.projects == [] && t.project != ""
    ensures var t' := Detach(t, project);
            && HomeOk(t')
            && (HomedIn(t', project) <==> t.project != project && Text.Trim(t.project) == project)
            && (Text.Trim(t.project) == t.project ==> t'.projects == Without(Normalize(t).projects, project))
  {
    assert [t.project][..0] == [];
    assert Without([t.project], project) == if t.project != project then [t.project] else [];
    DedupeFirst(t.project);
  }

  lemma DetachKeepsHomes(t: Task, project: string)
    requires project != ""
    ensures HomeOk(Detach(t, project))
    ensures HomedIn(Detach(t, project), project) <==> Escapes(t, project)
    ensures !UntrimmedLegacy(t) ==> Detach(t, project).projects == Without(Normalize(t).projects, project)
  {
    if t.projects != [] {
      DetachListed(t, project);
    } else if t.project != "" {
      DetachLegacy(t, project);
    }
  }

  /**
   * After a project is deleted it is gone, every task satisfies the home invariant and keeps
   * its other homes in order, and no task is homed in it but those that escape.
   */
  lemma DeleteProjectDetaches(d: Snapshot, project: string, i: nat)
    requires project != "" && DeleteProject(d, project).Ok? && i < |d.tasks|
    ensures var d' := DeleteProject(d, project).value;
            && d'.projects.Keys == d.projects.Keys - {project}
            && |d'.tasks| == |d.tasks|
            && HomeOk(d'.tasks[i])
            && (HomedIn(d'.tasks[i], project) <==> Escapes(d.tasks[i], project))
            && (!UntrimmedLegacy(d.tasks[i]) ==>
                  d'.tasks[i].projects == Without(Normalize(d.tasks[i]).projects, project))
  {
    DetachKeepsHomes(d.tasks[i], project);
  }

  /** A legacy task of project `x` followed by a space is homed in `x` once `x` has been deleted. */
  lemma DeletedProjectComesBack(t: Task)
    requires t.projects == [] && t.project == "x "
    ensures !HomedIn(t, "x") && HomedIn(Detach(t, "x"), "x")
  {
    assert "x "[..1] == "x";
    assert Text.Trim("x ") == Text.Trim("x") == "x";
    DetachKeepsHomes(t, "x");
  }
}
