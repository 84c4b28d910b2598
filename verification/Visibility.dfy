/** Members-only projects: the document a viewer receives, and the search index over the full one. */
module Visibility {
  import opened Integers
  import opened Models
  import opened Slices
  import opened TaskProjects

  predicate Hides(p: Project, viewer: string) {
    p.visibility == MEMBERS_ONLY && viewer !in p.memberIds
  }

  function Hidden(projects: map<string, Project>, owner: string, viewer: string): set<string> {
    if viewer != "" && viewer == owner then {}
    else set id | id in projects && Hides(projects[id], viewer)
  }

  function HiddenProjectIds(d: Snapshot, owner: string, viewer: string): set<string> {
    Hidden(d.projects, owner, viewer)
  }

  predicate TaskVisible(t: Task, hidden: set<string>) {
    if hidden == {} then true
    else if t.projects == [] then t.project == "" || t.project !in hidden
    else exists p | p in t.projects :: p !in hidden
  }

  predicate SprintVisible(s: Sprint, hidden: set<string>) {
    s.projectId == "" || s.projectId !in hidden
  }

  /** The document without the hidden projects and what hangs on them. */
  function View(d: Snapshot, owner: string, viewer: string): Snapshot {
    var hidden := HiddenProjectIds(d, owner, viewer);
    d.(projects := d.projects - hidden,
       tasks := VisibleTasks(d.tasks, hidden),
       sprints := VisibleSprints(d.sprints, hidden))
  }

  function VisibleTasks(tasks: seq<Task>, hidden: set<string>): seq<Task> {
    Filter(tasks, (t: Task) => TaskVisible(t, hidden))
  }

  function VisibleSprints(sprints: seq<Sprint>, hidden: set<string>): seq<Sprint> {
    Filter(sprints, (s: Sprint) => SprintVisible(s, hidden))
  }

  // ----- in place -----

  method CollectHidden(projects: map<string, Project>, owner: string, viewer: string) returns (hidden: set<string>)
    ensures hidden == Hidden(projects, owner, viewer)
  {
    hidden := {};
    if viewer != "" && viewer == owner {
      return;
    }
    var left := projects.Keys;
    while left != {}
      invariant left <= projects.Keys
      invariant forall id :: id in hidden <==> id in projects && id !in left && Hides(projects[id], viewer)
      decreases |left|
    {
      var id :| id in left;
      left := left - {id};
      var p := projects[id];
      if p.visibility != MEMBERS_ONLY {
        continue;
      }
      if viewer in p.memberIds {
        continue;
      }
      hidden := hidden + {id};
    }
  }

  method Apply(d: Document, owner: string, viewer: string)
    modifies d`projects, d`tasks, d`sprints
    ensures d.Value() == View(old(d.Value()), owner, viewer)
  {
    ghost var was := d.Value();
    ghost var view := View(was, owner, viewer);
    NothingHidden(was, owner, viewer);
    if |d.projects| == 0 || (viewer != "" && viewer == owner) {
      return;
    }
    var hidden := CollectHidden(d.projects, owner, viewer);
    if hidden == {} {
      return;
    }
    d.projects := d.projects - hidden;
    FilterTasks(d, hidden);
    FilterSprints(d, hidden);
    assert d.projects == view.projects && d.tasks == view.tasks && d.sprints == view.sprints;
  }

  method FilterTasks(d: Document, hidden: set<string>)
    modifies d`tasks
    ensures d.tasks == VisibleTasks(old(d.tasks), hidden)
  {
    if |d.tasks| > 0 {
      var tasks, _ := FilterInPlace(d.tasks, (t: Task) => TaskVisible(t, hidden));
      d.tasks := tasks;
    }
  }

  method FilterSprints(d: Document, hidden: set<string>)
    modifies d`sprints
    ensures d.sprints == VisibleSprints(old(d.sprints), hidden)
  {
    if hidden == {} || |d.sprints| == 0 {
      FilterAll(d.sprints, (s: Sprint) => SprintVisible(s, hidden));
      return;
    }
    var sprints, _ := FilterInPlace(d.sprints, (s: Sprint) => SprintVisible(s, hidden));
    d.sprints := sprints;
  }

  // ----- the view -----

  /** The three ways out before anything is filtered change nothing. */
  lemma NothingHidden(d: Snapshot, owner: string, viewer: string)
    ensures HiddenProjectIds(d, owner, viewer) == {} ==> View(d, owner, viewer) == d
    ensures |d.projects| == 0 || (viewer != "" && viewer == owner) ==> HiddenProjectIds(d, owner, viewer) == {}
  {
    if HiddenProjectIds(d, owner, viewer) == {} {
      FilterAll(d.tasks, (t: Task) => TaskVisible(t, {}));
      FilterAll(d.sprints, (s: Sprint) => SprintVisible(s, {}));
      assert d.projects - {} == d.projects;
    }
  }

  /** A project of the document that is not for this reader. */
  predicate Withheld(d: Snapshot, id: string, viewer: string) {
    id in d.projects && d.projects[id].visibility == MEMBERS_ONLY && viewer !in d.projects[id].memberIds
  }

  /** The projects a task is in: its list, or the older single field where there is no list. */
  function Homes(t: Task): seq<string> {
    if t.projects != [] then t.projects else if t.project != "" then [t.project] else []
  }

  /**
   * What a reader other than the owner gets: every task with no home or with a home that is not
   * withheld, every sprint of no project or of one that is not withheld, every project that is
   * not withheld, and nothing else.
   */
  lemma ViewExactly(d: Snapshot, owner: string, viewer: string)
    requires viewer == "" || viewer != owner
    ensures var v := View(d, owner, viewer);
            && (forall t :: t in v.tasks <==>
                  t in d.tasks && (Homes(t) == [] || exists home | home in Homes(t) :: !Withheld(d, home, viewer)))
            && (forall s :: s in v.sprints <==>
                  s in d.sprints && (s.projectId == "" || !Withheld(d, s.projectId, viewer)))
            && (forall id :: id in v.projects <==> id in d.projects && !Withheld(d, id, viewer))
  {
    var hidden := HiddenProjectIds(d, owner, viewer);
    assert forall id :: id in hidden <==> Withheld(d, id, viewer);
    forall t | t in d.tasks
      ensures TaskVisible(t, hidden) <==> Homes(t) == [] || exists home | home in Homes(t) :: !Withheld(d, home, viewer)
    {
      TaskVisibleMeans(t, hidden);
    }
  }

  lemma TaskVisibleMeans(t: Task, hidden: set<string>)
    ensures TaskVisible(t, hidden) <==> Homes(t) == [] || exists home | home in Homes(t) :: home !in hidden
  {
    if Homes(t) != [] {
      assert Homes(t)[0] in Homes(t);
    }
  }

  lemma OwnerSeesAll(d: Snapshot, owner: string)
    requires owner != ""
    ensures View(d, owner, owner) == d
  {
    NothingHidden(d, owner, owner);
  }

  /** A view hides nothing further from the viewer it was made for. */
  lemma ViewIdempotent(d: Snapshot, owner: string, viewer: string)
    ensures View(View(d, owner, viewer), owner, viewer) == View(d, owner, viewer)
  {
    NothingHidden(View(d, owner, viewer), owner, viewer);
  }

  /** Tasks and sprints keep their order, and all that is kept is shown as it is. */
  lemma ViewKeepsOrder(d: Snapshot, owner: string, viewer: string)
    ensures var v := View(d, owner, viewer);
            Subsequence(v.tasks, d.tasks) && Subsequence(v.sprints, d.sprints)
            && forall id | id in v.projects :: id in d.projects && v.projects[id] == d.projects[id]
  {
    var hidden := HiddenProjectIds(d, owner, viewer);
    FilterSubsequence(d.tasks, (t: Task) => TaskVisible(t, hidden));
    FilterSubsequence(d.sprints, (s: Sprint) => SprintVisible(s, hidden));
  }

  lemma VisibilityMonotone(t: Task, fewer: set<string>, more: set<string>)
    requires fewer <= more && TaskVisible(t, more)
    ensures TaskVisible(t, fewer)
  {
    if t.projects != [] && more != {} {
      var p :| p in t.projects && p !in more;
    } else if t.projects != [] && more == {} {
      assert fewer == {};
    }
  }

  /** The same project with more members. */
  predicate Widens(p: Project, q: Project) {
    q == p.(memberIds := q.memberIds) && Elements(p.memberIds) <= Elements(q.memberIds)
  }

  /**
   * Adding members never takes anything from anyone: the old view is the new one with some
   * tasks, sprints and projects left out.
   */
  lemma ViewGrowsWithMembers(d: Snapshot, projects: map<string, Project>, owner: string, viewer: string)
    requires projects.Keys == d.projects.Keys && forall id | id in projects :: Widens(d.projects[id], projects[id])
    ensures var before, after := View(d, owner, viewer), View(d.(projects := projects), owner, viewer);
            && Subsequence(before.tasks, after.tasks)
            && Subsequence(before.sprints, after.sprints)
            && before.projects.Keys <= after.projects.Keys
  {
    var d' := d.(projects := projects);
    var more, fewer := HiddenProjectIds(d, owner, viewer), HiddenProjectIds(d', owner, viewer);
    forall id | id in fewer ensures id in more {
      assert Widens(d.projects[id], projects[id]);
      assert viewer !in Elements(d.projects[id].memberIds);
    }
    forall t | t in d.tasks && TaskVisible(t, more) ensures TaskVisible(t, fewer) {
      VisibilityMonotone(t, fewer, more);
    }
    FilterNarrows(d.tasks, (t: Task) => TaskVisible(t, fewer), (t: Task) => TaskVisible(t, more));
    FilterNarrows(d.sprints, (s: Sprint) => SprintVisible(s, fewer), (s: Sprint) => SprintVisible(s, more));
  }

  // ----- search -----

  datatype Entity =
    | TaskEntity(id: Int64)
    | ProjectEntity(key: string)
    | GoalEntity(id: Int64)
    | MessageEntity(id: Int64)

  datatype Hit = Hit(entity: Entity, projectId: string, title: string)

  function RowProject(t: Task): string {
    if t.project == "" && |t.projects| > 0 then t.projects[0] else t.project
  }

  function TaskRows(tasks: seq<Task>): seq<Hit> {
    if tasks == [] then []
    else
      var last := tasks[|tasks| - 1];
      TaskRows(tasks[..|tasks| - 1])
      + if last.deletedAt != "" then [] else [Hit(TaskEntity(last.id), RowProject(last), last.name)]
  }

  function ProjectRows(projects: map<string, Project>, order: seq<string>): seq<Hit>
    requires forall id | id in order :: id in projects
  {
    seq(|order|, k requires 0 <= k < |order| =>
      assert order[k] in order; Hit(ProjectEntity(order[k]), order[k], projects[order[k]].name))
  }

  function GoalRows(goals: seq<Goal>): seq<Hit> {
    Map(goals, (g: Goal) => Hit(GoalEntity(g.id), "", g.name))
  }

  function MessageRows(messages: seq<Message>): seq<Hit> {
    Map(Filter(messages, (m: Message) => !(m.deleted || m.text == "")),
        (m: Message) => Hit(MessageEntity(m.id), "", m.text))
  }

  /** The index of the full document; the projects come in whatever order the map yields them. */
  function BuildRows(d: Snapshot, order: seq<string>): seq<Hit>
    requires forall id | id in order :: id in d.projects
  {
    TaskRows(d.tasks) + ProjectRows(d.projects, order) + GoalRows(d.goals) + MessageRows(d.messages)
  }

  method IndexTasks(tasks: seq<Task>) returns (out: seq<Hit>)
    ensures out == TaskRows(tasks)
  {
    out := [];
    for i := 0 to |tasks|
      invariant out == TaskRows(tasks[..i])
    {
      assert tasks[..i + 1][..i] == tasks[..i];
      var t := tasks[i];
      if t.deletedAt != "" {
        continue;
      }
      var project := t.project;
      if project == "" && |t.projects| > 0 {
        project := t.projects[0];
      }
      out := out + [Hit(TaskEntity(t.id), project, t.name)];
    }
    assert tasks[..|tasks|] == tasks;
  }

  predicate HitVisible(h: Hit, hidden: set<string>) {
    h.projectId == "" || h.projectId !in hidden
  }

  function FilterSearchHits(hits: seq<Hit>, hidden: set<string>): seq<Hit> {
    if hidden == {} then hits else Filter(hits, (h: Hit) => HitVisible(h, hidden))
  }

  lemma {:induction false} TaskRowSource(tasks: seq<Task>, h: Hit)
    ensures h in TaskRows(tasks) <==>
            exists t | t in tasks :: t.deletedAt == "" && h == Hit(TaskEntity(t.id), RowProject(t), t.name)
  {
    if tasks != [] {
      var init, last := tasks[..|tasks| - 1], tasks[|tasks| - 1];
      assert tasks == init + [last];
      TaskRowSource(init, h);
      if h in TaskRows(tasks) {
        if h in TaskRows(init) {
          var t :| t in init && t.deletedAt == "" && h == Hit(TaskEntity(t.id), RowProject(t), t.name);
          assert t in tasks;
        } else {
          assert last in tasks;
        }
      }
    }
  }

  lemma RowsByEntity(d: Snapshot, order: seq<string>, h: Hit)
    requires forall id | id in order :: id in d.projects
    ensures h in BuildRows(d, order) && h.entity.TaskEntity? ==> h in TaskRows(d.tasks)
    ensures h in BuildRows(d, order) && h.entity.ProjectEntity? ==>
              h.entity.key in d.projects && h.projectId == h.entity.key
  {
    var ps, gs, ms := ProjectRows(d.projects, order), GoalRows(d.goals), MessageRows(d.messages);
    TaskRowSource(d.tasks, h);
    if h in BuildRows(d, order) && h !in TaskRows(d.tasks) {
      if h in ps {
        var k :| 0 <= k < |ps| && ps[k] == h;
        assert order[k] in order;
      }
    }
  }

  /** For a task that satisfies the home invariant, a visible index row means a visible task. */
  lemma RowImpliesTask(t: Task, hidden: set<string>)
    requires HomeOk(t) && HitVisible(Hit(TaskEntity(t.id), RowProject(t), t.name), hidden)
    ensures TaskVisible(t, hidden)
  {
    if t.projects != [] {
      assert t.projects[0] in t.projects;
    }
  }

  /** The converse holds exactly when the first home is not hidden. */
  lemma TaskImpliesRow(t: Task, hidden: set<string>)
    requires HomeOk(t) && TaskVisible(t, hidden)
    ensures HitVisible(Hit(TaskEntity(t.id), RowProject(t), t.name), hidden) <==>
              t.project == "" || t.project !in hidden
  {
  }

  /**
   * Search agrees with the document: every task or project row that survives the filter for
   * a viewer stands for a task or project of the document that viewer receives.
   */
  lemma SearchAgreesWithView(d: Snapshot, order: seq<string>, owner: string, viewer: string, h: Hit)
    requires forall id | id in order :: id in d.projects
    requires forall t | t in d.tasks :: HomeOk(t)
    requires h in FilterSearchHits(BuildRows(d, order), HiddenProjectIds(d, owner, viewer))
    ensures var v := View(d, owner, viewer);
            && (h.entity.TaskEntity? ==>
                  exists t | t in v.tasks :: t.id == h.entity.id && t.name == h.title && t.deletedAt == "")
            && (h.entity.ProjectEntity? && h.entity.key != "" ==> h.entity.key in v.projects)
  {
    var hidden, v := HiddenProjectIds(d, owner, viewer), View(d, owner, viewer);
    RowsByEntity(d, order, h);
    assert HitVisible(h, hidden);
    if h.entity.TaskEntity? {
      TaskRowSource(d.tasks, h);
      var t :| t in d.tasks && t.deletedAt == "" && h == Hit(TaskEntity(t.id), RowProject(t), t.name);
      RowImpliesTask(t, hidden);
      assert t in v.tasks;
    }
  }

  /** A project row survives though its project is hidden if and only if the project's key is empty. */
  lemma UnnamedProjectSurvives(d: Snapshot, owner: string, viewer: string, h: Hit)
    requires h.entity.ProjectEntity? && h.projectId == h.entity.key
    requires h.entity.key in HiddenProjectIds(d, owner, viewer)
    ensures h in FilterSearchHits([h], HiddenProjectIds(d, owner, viewer)) <==> h.entity.key == ""
    ensures h.entity.key !in View(d, owner, viewer).projects
  {
  }
}
