/**
 * The workspace document. `Snapshot` is the stored JSON value; `Document` is the decoded
 * object that handlers, the rule engine and the jobs update in memory.
 * Fields that no modelled operation reads or writes are not carried.
 */
module Models {
  import opened Dates
  import opened Integers
  import opened Wrappers

  datatype Pattern = Daily | Weekly | Monthly | UnknownPattern

  datatype Recurrence = Recurrence(pattern: Pattern, interval: Int64, endDate: DateText, nextDueAt: DateText)

  datatype Task = Task(
    id: Int64,
    name: string,
    desc: string,
    project: string,
    projects: seq<string>,
    assignee: string,
    due: DateText,
    startDate: DateText,
    endDate: DateText,
    priority: string,
    status: string,
    done: bool,
    kind: string,
    subtasks: seq<string>,
    tags: seq<string>,
    dependsOn: seq<Int64>,
    deletedAt: string,
    approvers: seq<string>,
    approvedBy: seq<string>,
    recurrence: Option<Recurrence>)

  const TASK_TYPE_TASK := "task"
  const TASK_TYPE_APPROVAL := "approval"

  datatype Subtask = Subtask(id: Int64, parentTaskId: Int64, name: string, order: int)

  datatype TaskComment = TaskComment(id: Int64, taskId: Int64, author: string, text: string)

  datatype EntityComment = EntityComment(id: Int64, entityType: string, entityId: string)

  /** `time` is the instant the entry's text parses to, if it does. */
  datatype AuditEntry = AuditEntry(id: Int64, kind: string, actor: string, taskId: Option<Int64>, time: Option<int>)

  datatype Notification = Notification(id: Int64, time: Option<int>)

  datatype Chat = Chat(id: Int64)

  datatype Message = Message(id: Int64, chatId: Int64, text: string, deleted: bool, time: Option<int>)

  datatype Project = Project(name: string, code: string, visibility: string, memberIds: seq<string>)

  const MEMBERS_ONLY := "members_only"

  datatype Sprint = Sprint(id: Int64, projectId: string)

  datatype Goal = Goal(id: Int64, name: string)

  /** `amount` in the smallest unit that is printed. */
  datatype Requisition = Requisition(id: Int64, status: string, financeApRef: Option<string>, amount: int)

  datatype Phase = Phase(id: string, projectId: string, name: string, progress: int, status: string)

  datatype Activity = Activity(
    id: string, projectId: string, phaseId: string, name: string, progress: int, status: string)

  datatype WorkProgram = WorkProgram(
    id: string, projectId: string, phaseId: string, activityId: string, name: string, status: string)

  // The closed vocabularies of rules; the last alternative is any other text.

  datatype Trigger = TaskCreated | StatusChanged | AssigneeChanged | CommentCreated | OtherTrigger(text: string)

  datatype Op = Eq | Ne | Contains | In | OtherOp

  datatype ActionKind =
    AssignTo | SetStatus | SetDueOffset | AddTag | CreateSubtask | PostComment | Notify | OtherAction

  datatype RuleCondition = RuleCondition(field: string, op: Op, value: string)

  datatype RuleAction = RuleAction(kind: ActionKind, params: map<string, string>)

  datatype Rule = Rule(
    id: Int64, name: string, enabled: bool, trigger: Trigger, conditions: seq<RuleCondition>, actions: seq<RuleAction>)

  datatype Snapshot = Snapshot(
    tasks: seq<Task>,
    projects: map<string, Project>,
    goals: seq<Goal>,
    sprints: seq<Sprint>,
    requisitions: seq<Requisition>,
    chats: seq<Chat>,
    messages: seq<Message>,
    notifications: seq<Notification>,
    audit: seq<AuditEntry>,
    taskComments: seq<TaskComment>,
    subtasks: seq<Subtask>,
    entityComments: seq<EntityComment>,
    rules: seq<Rule>,
    phases: seq<Phase>,
    activities: seq<Activity>,
    workPrograms: seq<WorkProgram>)

  class Document {
    var tasks: seq<Task>
    var projects: map<string, Project>
    var goals: seq<Goal>
    var sprints: seq<Sprint>
    var requisitions: seq<Requisition>
    var chats: seq<Chat>
    var messages: seq<Message>
    var notifications: seq<Notification>
    var audit: seq<AuditEntry>
    var taskComments: seq<TaskComment>
    var subtasks: seq<Subtask>
    var entityComments: seq<EntityComment>
    var rules: seq<Rule>
    var phases: seq<Phase>
    var activities: seq<Activity>
    var workPrograms: seq<WorkProgram>

    /** `json.Marshal`. */
    function Value(): Snapshot
      reads this
    {
      Snapshot(tasks, projects, goals, sprints, requisitions, chats, messages, notifications, audit,
               taskComments, subtasks, entityComments, rules, phases, activities, workPrograms)
    }

    /** `json.Unmarshal`: a document that shares nothing with the stored value. */
    constructor (s: Snapshot)
      ensures Value() == s
    {
      tasks, projects, goals, sprints := s.tasks, s.projects, s.goals, s.sprints;
      requisitions, chats, messages := s.requisitions, s.chats, s.messages;
      notifications, audit, taskComments := s.notifications, s.audit, s.taskComments;
      subtasks, entityComments, rules := s.subtasks, s.entityComments, s.rules;
      phases, activities, workPrograms := s.phases, s.activities, s.workPrograms;
    }
  }
}
