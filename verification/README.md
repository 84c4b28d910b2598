# Verification of the project-management workspace service

The service keeps one JSON document per workspace. Handlers, scheduled jobs, event consumers and
full-document writes all change that document through one database row with a version, and an
automation engine reacts to the changes. This project models that core in Dafny and proves what
it keeps.

* **The shared row.** `OptimisticLock` is a state machine over the single SQL statements of every
  writer (mutations with one retry, the archive and recurrence jobs, full-document PUTs).
  `Serializability` proves that every interleaving is equivalent to running the committed writers
  one after the other, and `LateInserts` when the one exception can be reached. `WorkspaceStore` is
  the row as an object with the retry loop of `Service.Mutate` as a method, proved against the
  same state machine. `WorkspaceRuns` says in the service's own terms what each commit of a run did.
* **The automation engine.** `RuleEngine` specifies it, `RuleRunner` is the loops that update a
  document in place, `RuleEngineTheorems` proves event chains, frames and growth bounds;
  `RuleMeaning` says when a rule acts and what it does, `RuleReach` that no rule and no action of a run
  is passed over; `Webhooks` relates them to what subscribers are told.
* **All writers together.** `Workspace` puts the real closures, the rules and the jobs on the
  shared row and proves one document invariant over all interleavings. `RepeatedCodes` shows what
  generated text identifiers do under the same protocol.
* **Delivery and booking.** `Outbox` and `OutboxTheorems` are a leased work queue with backoff in
  wrapping 64-bit arithmetic; `FinanceBooking` is the redelivered two-system update of requisitions,
  with `FinanceTheorems`, `FinanceMatching` and `FinanceRuns` about its runs.
* **Recurrence.** `RecurrenceJob` is one pass of the job, `RecurrenceInstances` says what the tasks
  are that it appends, `RecurrenceTheorems` when cursors move on, when a rerun does nothing and when
  passes settle, over the calendar of `Dates`, whose seconds wrap at 64 bits.
* **The document algebra.** `Approvals`, `Archive`, `Subtasks`, `TaskCreation`, `TaskEdits`,
  `TaskDelete`, `TaskProjects`, `Visibility`, `Wbs` with `WbsHandlers`, and the text codecs
  `ICalendar` and `StringIds`.
* **Foundations.** `Models` (the entities, the mutable `Document` and its `Snapshot`), `Integers`
  (64-bit arithmetic), `Ids`, `Slices` (the `s[:0]` idiom on one backing array), `NameLists`,
  `Text`, `Wrappers`.

Most handlers appear twice: as a function from snapshot to snapshot, and as a method that updates
a `Document` in place with the code's loops and is proved to do what the function says. The laws
are lemmas about the functions.

`dafny verify dfyconfig.toml` checks the whole project.

## Where the code differs from what it promises

The model follows the code. These are results: each says exactly when the code keeps the promise, and
lemmas name inputs with which it does not.

* **Serializability.** A first-time writer's insert returns the initial document with whatever
  version the row has by then; if another writer has committed in between, that commit is lost
  (`LateInsertLosesUpdate`). In every run a writer that finds its version computes from the stored
  document if and only if what it loaded did not come from such a late insert (`LoadedIsStored`), and
  a commit from one leaves the history serial if and only if it makes the same of both documents
  (`LateCommitDiverges`). A late insert can be reached if and only if there is no row, one writer will
  insert it, and of the others one will too and one changes it (`LateInsertReachable`).
* **Backoff.** It multiplies before it caps and wraps from 34 attempts on; it lies between two
  seconds and the cap exactly when one bit of 5^9 is clear (`BackoffExact`), and after 33 crashes a
  row can be claimed twice at one instant (`WrappedBackoffBreaksLease`).
* **Recurrence intervals.** Weeks are turned into days, and days into seconds, in 64 bits. A positive
  interval can move a cursor back by 2048 days a pass (`WeeksRunBackward`) or not at all
  (`DaysStandStill`). Cursors always move on if and only if two steps, in wrapped seconds, come to a
  day at least or leave the calendar (`ForwardExactly`), and passes settle if and only if no due task
  stays on its day with a cursor that is due (`SettlesExactly`).
* **Recurrence reruns.** The comment on the job says that reruns in a time bucket do nothing and that
  the original is left as it is; the code moves the cursor on the original and on the clone. A rerun
  of a task three days late clones again (`RerunClonesAgain`); it does nothing if and only if no due
  task gets a cursor that is due again (`RerunDoesNothing`).
* **Booking.** A delivery can succeed without a recorded reference (`RejectedMeanwhile`): exactly when
  its last look at the document finds the requisition gone, or to book no longer approved and not
  booked (`SuccessRecordsExactly`). Once recorded, a reference stays unless a whole-document write
  takes it away (`RecordStays`).
* **Requisition numbers.** A number can be used again after a withdrawal, and then the new requisition
  is recorded with the old one's amount, whether an item is already held (`NumberUsedAgain`) or a call
  still on its way (`NumberUsedInFlight`). Amounts match at all times if and only if no submission
  gets a number that is held or in flight with another amount (`MatchedExactly`).
* **Text identifiers.** Retried creators keep their first identifier (`TwoCreatorsOneCode`); a retried
  creation is distinct exactly when that identifier is still free (`RetriedPhase`, `RetriedActivity`,
  `RetriedProgram`).
* **Approvals.** `done` outlives unanimity exactly when a new list of a done task names somebody who
  has not signed off (`DoneOutlivesUnanimity`, over runs `UnanimityExactly`).
* **Subtask mirror.** Deleting a subtask also drops empty entries that follow its name: the mirror is
  kept if and only if there are none (`DeleteMirrorExact`).
* **Project deletion.** A deleted project comes back (`DeletedProjectComesBack`) exactly for legacy
  tasks whose project differs from it by white space (`DetachKeepsHomes`).
* **Search.** A hit on a visible task vanishes if and only if the task's first home is hidden
  (`TaskImpliesRow`), and a hidden project's row survives if and only if its key is empty
  (`UnnamedProjectSurvives`).
* **Work programs.** A request leaves their phases live if and only if it is not a patch to a phase
  that does not exist (`ProgramPhasesStayLive`).

## Model

| member | source | states |
|---|---|---|
| Serializability.Serializable | internal/workspace/service.go:48-99 | In every run in which no mutation or job commits what a late insert handed out, the stored document is the committed transformers applied in version order to the initial one, the version counts them, and each committed writer succeeded on exactly the document before it. Late inserts of PUTs, and those whose writer conflicts or is refused, are included. |
| Serializability.OnlyCommittedNotify | internal/workspace/service.go:63-95 | Whatever notifications a client has sent belong to a commit of its own and are those the rules computed for it. |
| Serializability.AllNotified | internal/workspace/service.go:79-95 | Unless it failed after its commit, what a committed client has sent and still has to send is everything its commit computed, not only a part of it. |
| WorkspaceRuns.CommittedMutation | internal/workspace/service.go:50-95 | Over every run of the service: a committed request took the document before it to what the rules made of the closure's result when compared with that very document, and its notifications are all of that run's, unless its process failed after the commit. |
| WorkspaceRuns.CommittedJob | internal/jobs/archive.go:86-131 | A committed sweep, recurrence pass or full-document write took the document before it to its own result, without rules and notifications. |
| WorkspaceRuns.StoredIsLast | internal/store/workspace.go:86-104 | The stored document is the last of these and the version counts them from the first. |
| Serializability.CommitsOnce | internal/workspace/service.go:50-99 | Retries never commit a client twice. |
| Serializability.StepEffect | internal/store/workspace.go:86-104 | Each step commits with version plus exactly one, creates a missing row, or leaves the row alone; failed, conflicted and erring attempts change nothing. |
| Serializability.LoadedIsStored | internal/store/workspace.go:39-104 | Over all runs, late inserts included: a writer whose version the server chose, and who finds it at its swap, computes from the stored document if and only if its last load was not a late insert; a full-document write never loads from one. |
| Serializability.LateCommitDiverges | internal/store/workspace.go:47-104 | A commit from a late insert computes from another document than the stored one, and leaves a serial history serial if and only if its transformer makes the same of both. |
| Serializability.InsertIsFaithful | internal/store/workspace.go:39-69 | What a read-or-create hands any writer is the stored row if and only if nobody has committed another document before its insert. |
| LateInserts.LateInsertReachable | internal/store/workspace.go:39-69 | For writers that make of the initial document the same at a second sight: some run reaches a late insert if and only if there is no row, one writer inserts it, and of the others one does too and one makes another document of the initial one. |
| Workspace.WritersArePlain | internal/workspace/service.go:48-99 | The modelled writers are of that kind, retried creators included, unless a PUT asks for a version above 1. |
| Serializability.ExistingRowSafe | internal/store/workspace.go:39-46 | With a row to begin with, no run has a late insert or a commit from one. |
| Serializability.LateInsertLosesUpdate | internal/store/workspace.go:47-69 | A concrete run of two first-time writers in which both succeed and one's update is gone. |
| Serializability.DocumentInvariant | internal/workspace/service.go:48-99 | A property that every writer's transformer keeps holds of every stored document of every interleaving, late inserts included. |
| WorkspaceStore.Repository.Insert | internal/store/workspace.go:47-69 | Creates the row at version 1 or leaves it, and returns the initial document with the row's version. |
| WorkspaceStore.Repository.Update | internal/store/workspace.go:86-104 | Replaces the document and adds one to the version if the version is the expected one, else reports a conflict and changes nothing. |
| WorkspaceStore.LoadRow | internal/store/workspace.go:39-70 | The two statements of a read-or-create, with other writers before each, are the protocol's read and insert steps. |
| WorkspaceStore.Attempted | internal/workspace/service.go:50-78 | One attempt leaves the row as the protocol's load and swap steps do, and its outcome is the client's new state; in terms of the row alone, it hands the rules the document it loaded together with the closure's result, and stores and announces what they return. |
| WorkspaceStore.MutateRow | internal/workspace/service.go:48-99 | The loop with at most one retry, among arbitrary other writers, ends in the row, result and notifications that the protocol gives its client. Undisturbed, the row becomes what the rules make of the loaded document and the closure's result, one version on, with those rules' notifications, or stays if the closure refuses; after one intruding commit the same holds of the intruder's document. |
| WorkspaceStore.PutRow | internal/handlers/workspace.go:90-150 | A full-document write expects the version of the body, else of the header, else one it reads, and makes a single attempt as the protocol's client does. Undisturbed, it replaces the document exactly when the caller may and the version is the expected one. |
| RuleRunner.DiffAndRunInPlace | internal/automation/engine.go:48-87 | The nested loops over rounds, events and rules leave the document and the pending notifications of the recursive specification. |
| RuleRunner.PerformRound | internal/automation/engine.go:58-84 | One round examines its events in order against all rules, each seeing what earlier ones left. |
| RuleRunner.ExamineEvent | internal/automation/engine.go:60-83 | One event against every rule in order, with follow-up events and notifications collected. |
| RuleRunner.DiffTasks | internal/automation/engine.go:93-120 | The loop with a map of old tasks raises exactly the events of the task-by-task comparison. |
| RuleRunner.DiffComments | internal/automation/engine.go:121-163 | New task comments and entity comments each raise one event, tied to the first task with their task identifier. |
| RuleEngineTheorems.EventChain | internal/automation/engine.go:48-120 | With unique task identifiers, the status (and the assignee) values in all events of a run form one unbroken chain of genuine changes from the old value to the value left in the document. |
| RuleEngineTheorems.PointersStayLive | internal/automation/engine.go:57-84 | Every event of every round points at its own task in the final document; events after the first round are rule-made status or assignee changes, so creations and comments never cascade. |
| RuleEngineTheorems.EngineFrame | internal/automation/engine.go:245-401 | Rules change only status, assignee, due date, tags and `done` (never off), keep task identifiers and everything else, only append to three lists, and keep their identifiers distinct. |
| RuleEngineTheorems.EngineBounds | internal/automation/engine.go:57-84 | At most three rounds; round k raises at most the first round's events times the number of assigning and status actions to the k; if a run stops early, nothing is left unexamined. Repeated task identifiers are allowed. |
| RuleEngineTheorems.EngineGrows | internal/automation/engine.go:245-401 | Task identifiers stay in place and the appended lists only grow, even when identifiers repeat. |
| RuleMeaning.RaisedExactly | internal/automation/engine.go:93-163 | An event is raised if and only if it is that of a task or comment with a new identifier, or of a status or assignee that differs from the old task's; comment events point at the first task with the identifier they name. |
| RuleMeaning.OperatorMeans | internal/automation/engine.go:220-243 | Trimmed values: equal, different, containing regardless of ASCII case, equal to one of the trimmed pieces between commas; any other operator never holds. |
| Text.SplitJoined | internal/automation/engine.go:213-238 | Splitting undoes joining for pieces without the separator, so the tags a condition reads are the task's own. |
| RuleMeaning.FiresExactly | internal/automation/engine.go:60-83 | A rule fires on a task's event if and only if it is enabled, waits for events of that kind, and every one of its conditions names one of seven attributes whose value stands to the wanted one as its operator says. |
| RuleMeaning.OneRule | internal/automation/engine.go:48-87 | Of one rule with one action and a change that raises one event, the run makes that action and nothing else if the rule fires, and otherwise changes nothing and notifies nobody. |
| RuleMeaning.TaggedExactly | internal/automation/engine.go:172-362 | After a change of a task's status, the tag of a tagging rule is on the task if and only if the rule is enabled, waits for status changes, and all its conditions are met by the changed task. |
| RuleMeaning.TagRule | internal/automation/engine.go:342-362 | A tag that is not there yet is appended, with an audit entry in the rule's name, if and only if the rule fires; nothing else changes. |
| RuleMeaning.AssignRule | internal/automation/engine.go:268-288 | The assignee becomes the named one, with an audit entry, if and only if the rule fires and it is another. |
| RuleMeaning.StatusRule | internal/automation/engine.go:290-313 | The status becomes the named one, and the completed one sets `done`, if and only if the rule fires and it is another. |
| RuleMeaning.DueRule | internal/automation/engine.go:315-340 | The due date becomes the day that many days after the old one, or after now if the old one is no date, for every 64-bit number of days as printed. |
| RuleMeaning.SubtaskRule | internal/automation/engine.go:364-384 | The task gets one subtask with the trimmed name, behind all its others, if and only if the rule fires. |
| RuleMeaning.CommentRule | internal/automation/engine.go:386-401 | The task gets one comment in the rule's name if and only if the rule fires and the task's identifier is not 0. |
| RuleMeaning.NotifyRule | internal/automation/engine.go:66-82 | One notification is asked for, and nothing changed, if and only if the rule fires. |
| RuleReach.EveryActionIsDone | internal/automation/engine.go:57-84 | In a run of any number of rules, actions and events: every event of the first three rounds reaches every rule whose conditions no rule can change, and every tag, subtask and comment of a rule it wakes is in the document the run leaves. |
| RuleReach.NoticesExactly | internal/automation/engine.go:57-84 | For such a rule, a notification is asked for if and only if some event of the first three rounds wakes it. |
| Webhooks.Dispatch | internal/workspace/service.go:106-155 | The loops with maps of old tasks and comments enqueue exactly the task-by-task and comment-by-comment comparison, or nothing without subscriptions. |
| Webhooks.HookValues | internal/workspace/service.go:122-142 | With distinct identifiers a status (or assignee) event of a known task is enqueued if and only if the value changed, and carries the old and the new value. |
| Webhooks.NewCommentsAnnounced | internal/workspace/service.go:143-154 | Exactly the comments whose identifier is new are announced, those posted by rules included. |
| Webhooks.LifecycleAnnounced | internal/workspace/service.go:106-142 | Exactly the tasks with a new identifier are announced as created, and as completed exactly those that are done and were there and not done before. |
| Webhooks.WebhooksSummarizeRules | internal/workspace/service.go:92-142 | A subscriber's status (or assignee) event leads from one end of the chain of all events the engine saw to the other, and is absent if and only if that chain comes back to where it began. |
| Ids.NextIntID | internal/models/ids.go:5-13 | One past the running maximum, wrapping at 64 bits. |
| Ids.NextIdFresh | internal/models/ids.go:5-13 | A generated identifier is new if and only if not both ends of the integers are taken, and larger than all unless the largest is taken. |
| Ids.AppendAudit | internal/models/ids.go:87-96 | Appends one entry with a generated identifier and changes nothing else. |
| TaskCreation.CreateTask | internal/handlers/entities.go:209-273 | The closure of a task creation leaves the document of the specification and returns the row it appended. |
| TaskCreation.CreateTasksBulk | internal/handlers/entities.go:495-548 | The bulk closure appends all tasks one by one, or refuses the whole request and changes nothing. |
| TaskCreation.CreateMeans | internal/handlers/entities.go:209-273 | A creation is refused exactly when the name is white space; otherwise one task follows the old ones with the request's fields, its one project as only home, and type and priority read regardless of case and white space. |
| TaskCreation.BulkMeans | internal/handlers/entities.go:495-548 | A bulk creation is refused exactly when it is empty or some name is white space; otherwise there is one such task for each input, in order, with priorities as given. |
| TaskCreation.BulkNumbers | internal/handlers/entities.go:515-548 | A bulk creation numbers its tasks consecutively from past every identifier in use. |
| TaskEdits.PatchTasksInPlace | internal/handlers/entities.go:576-613 | The loop of a bulk patch patches and audits every task with an entry, in document order, or refuses a request without valid entries. |
| TaskEdits.BulkMeans | internal/handlers/entities.go:576-613 | Every task with an entry for a non-zero identifier is patched by it, whatever the other entries are, and every other task is as it was. |
| TaskEdits.PatchedMeans | internal/handlers/entities.go:337-434 | Every field a patch carries is read back and every other is as it was; type and priority are read regardless of case and white space; a recurrence is at least one step long and starts at its cursor, or at the first date of the task as patched. |
| TaskEdits.PatchedHomes | internal/handlers/entities.go:359-375 | The homes after a patch are the names of its list, trimmed, without blanks and repetitions; or the one project it gives, or that stays if the list is emptied, unless that is empty. |
| TaskEdits.PatchedTwice | internal/handlers/entities.go:337-434 | A patch that is sent again changes nothing more. |
| TaskEdits.PatchedKeeps | internal/handlers/entities.go:337-397 | A task patch keeps identity, sign-offs, mirror, dependencies and deletion mark, and the home invariant, whatever fields it carries. |
| Workspace.EveryDocumentIsTidy | internal/workspace/service.go:48-99 | In every interleaving of creators, bulk creators, patches, bulk patches, comments, deletions, approvals, subtask, home, breakdown, requisition and finance requests, with rules behind them, recurrence, archive and PUT, no stored document has two tasks, subtasks, comments, audit entries or requisitions with one identifier, and all tasks' homes and approvals and the breakdown are consistent. |
| Workspace.PerformTidy | internal/handlers/entities.go:242-273 | Each request's closure, on a first attempt and on a retry, keeps all of that. |
| Workspace.RulesTidy | internal/automation/engine.go:245-401 | So does a whole run of the automation engine. |
| Workspace.PassTidy | internal/jobs/recurrence.go:50-78 | So does a recurrence pass with its clones. |
| Workspace.SweepTidy | internal/jobs/archive.go:107-120 | So does an archive sweep with its own audit entry. |
| RepeatedCodes.RetriedPhase | internal/handlers/wbs.go:109-125 | A retried phase creation leaves identifiers distinct if and only if the code generated by its first attempt is still free. |
| RepeatedCodes.RetriedActivity | internal/handlers/wbs.go:277-296 | The same for activities. |
| RepeatedCodes.RetriedProgram | internal/handlers/wbs.go:440-461 | The same for work programs. |
| RepeatedCodes.TwoCreatorsOneCode | internal/handlers/wbs.go:109-125 | A concrete run of two concurrent creators that both commit phases with one identifier. |
| Outbox.Store.ClaimBatch | internal/outbox/outbox.go:66-105 | Claims due and unlocked rows in identifier order up to the limit, with one more attempt and the lease, and leaves all others alone; a due and unlocked row is passed over only if the batch is full with rows before it. |
| Outbox.Store.DrainOnce | internal/outbox/outbox.go:221-243 | Each claimed row ends leased, dispatched or backed off as its dispatch and its record went; a row is marked dispatched exactly if it was, or was claimed, accepted by the broker and recorded; other rows are untouched. |
| OutboxTheorems.BackoffExact | internal/outbox/outbox.go:247-259 | The delay never exceeds the cap, and lies above two seconds if and only if bit 54 minus attempts of 5^9 is clear; otherwise it is not positive. |
| OutboxTheorems.BackoffValue | internal/outbox/outbox.go:247-259 | Up to 33 attempts the delay is the capped power of two in seconds. |
| OutboxTheorems.BackoffMonotone | internal/outbox/outbox.go:247-259 | Up to 33 attempts more attempts never mean a shorter delay. |
| OutboxTheorems.FailureKeepsLease | internal/outbox/outbox.go:118-125 | Recording a failure leaves at least a second of lease if and only if the attempt count does not wrap to a short delay; if it does wrap, the row is due at once. |
| OutboxTheorems.RetryExactly | internal/outbox/outbox.go:118-125 | Up to 33 attempts, a recorded failure has its row due again after two to the power of its attempts seconds, or after five minutes, and changes nothing else. |
| OutboxTheorems.ClaimExactly | internal/outbox/outbox.go:66-95 | A claim counts one attempt and keeps the row from others for a second. |
| OutboxTheorems.MarksExactly | internal/outbox/outbox.go:107-115 | A step marks a row dispatched if and only if it writes the record of a dispatch of that row that succeeded. |
| OutboxTheorems.DispatchedExactly | internal/outbox/outbox.go:107-115 | Over all runs from an empty table, a row is marked dispatched if and only if an earlier step wrote such a record. |
| OutboxTheorems.NothingIsLost | internal/outbox/outbox.go:66-125 | In every run with crashes, lost records and late failures: a row marked dispatched reached the broker, `attempts` counts its claims, and an undispatched row is due within the cap. |
| OutboxTheorems.NeverReclaimed | internal/outbox/outbox.go:107-115 | A row marked dispatched stays so and is never claimed again. |
| OutboxTheorems.LeaseSafety | internal/outbox/outbox.go:66-125 | While no wrapping failure is recorded, two claims of one row are at least a second apart, whoever claims and however late failures are recorded. |
| OutboxTheorems.FewClaimsSound | internal/outbox/outbox.go:247-259 | Runs in which no row is claimed more than 33 times record no wrapping failure. |
| OutboxTheorems.WrappedBackoffBreaksLease | internal/outbox/outbox.go:251-254 | A concrete run from an empty table, 33 crashes and one failure long, after which another publisher claims the row at the same instant. |
| OutboxTheorems.IntervalBounds | internal/outbox/outbox.go:173-219 | The polling interval stays between tick and idle maximum, work resets it, and two idle rounds reach the maximum. |
| FinanceBooking.DocumentRefInjective | internal/consumer/finance_ap.go:14-16 | Two requisition numbers never share a document reference. |
| FinanceBooking.ApplyDecision | internal/consumer/handlers.go:115-137 | The closure of a decision sets the status of the first matching requisition, audits it, and reports whether there was one. |
| FinanceBooking.RecordReference | internal/consumer/finance_ap.go:75-86 | The closure of a booking records the reference on the first matching requisition with an audit entry, or does nothing. |
| FinanceBooking.RemoveRequisition | internal/handlers/entities.go:1629-1645 | Removes exactly the first match, and refuses one that is booked or has a settled status. |
| FinanceBooking.RemovedExactly | internal/handlers/entities.go:1629-1645 | A withdrawal takes away the first requisition with the number, unless it has a reference or its status is one of four words regardless of case and white space around. |
| FinanceBooking.DecidedAndReferred | internal/consumer/handlers.go:115-137 | A decision changes one status and a booking one reference, of the first requisition with the number, and nothing else in the list. |
| FinanceTheorems.OneItemPerRequisition | internal/consumer/finance_ap.go:23-92 | Over any redeliveries, conflicts, crashes and lost replies, finance holds one item at most for a number, and every reference a booking recorded is held, for that number and no other. |
| FinanceTheorems.SuccessSeesReference | internal/consumer/finance_ap.go:47-92 | At the step with which an approval delivery succeeds, a requisition that is approved has a reference recorded. |
| FinanceTheorems.SuccessRecordsExactly | internal/consumer/finance_ap.go:37-92 | An approval delivery succeeds without a reference on record if and only if, at that step, it decides on or saves to a requisition that is gone, or loads one that is gone, or neither approved nor booked. |
| FinanceTheorems.RecordStays | internal/handlers/entities.go:1629-1645 | A step takes a recorded reference away if and only if it is a whole-document write without it; rejections, withdrawals, deliveries and failures do not. |
| FinanceTheorems.SuccessMeansRecorded | internal/consumer/handlers.go:115-147 | In every run without whole-document writes a delivery succeeds at one step; if it did not miss its requisition there, a reference is on record to the end of the run, and if it did, none was then. |
| FinanceTheorems.UndisturbedSuccess | internal/consumer/handlers.go:115-147 | A delivery that approved a requisition leaves it approved, and booked once it has succeeded, until a rejection or a whole-document write. |
| FinanceTheorems.WithdrawKeepsApproved | internal/handlers/entities.go:1629-1645 | An approved requisition cannot be withdrawn, and withdrawing another does not disturb it. |
| FinanceRuns.RedeliveryRecords | internal/consumer/finance_ap.go:66-92 | Whatever earlier deliveries left behind, one redelivery without failures ends booked, and finance gains an item exactly if the requisition had neither item nor reference. |
| FinanceRuns.RejectedMeanwhile | internal/consumer/finance_ap.go:44-46 | A concrete run with a success and an approved requisition that has no reference. |
| FinanceRuns.NumberUsedAgain | internal/consumer/finance_ap.go:14-16 | A concrete run in which a new requisition is recorded against an item held for its number, with the withdrawn one's amount. |
| FinanceRuns.NumberUsedInFlight | internal/consumer/finance_ap.go:57-92 | A concrete run with no reply lost in which a call on its way is recorded on the new, merely submitted requisition. |
| FinanceMatching.StepMatched | internal/handlers/entities.go:1586-1591 | Any step but a whole-document write keeps what finance holds, and what is on its way, at the amounts of the requisitions, if and only if it is not a submission whose number is taken, or held or in flight with another amount. |
| FinanceMatching.MatchedExactly | internal/consumer/finance_ap.go:23-92 | Over every run without whole-document writes amounts match at all times if and only if there was no such submission. |
| RecurrenceJob.VisitTask | internal/jobs/recurrence.go:50-78 | One iteration ends a chain, or moves the cursor and appends one clone with a new identifier and its audit entry, or does nothing. |
| RecurrenceJob.RunPass | internal/jobs/recurrence.go:48-79 | The loop over the tasks that were there leaves the specified document and the specified report. |
| RecurrenceJob.TalliedMeans | internal/jobs/recurrence.go:46-79 | The report tells of a change exactly if some task was not left alone, and counts the clones. |
| RecurrenceJob.PassShape | internal/jobs/recurrence.go:50-78 | Each pre-existing task is visited once and changed only in its recurrence; one clone per due task is appended in order, with one audit entry each. |
| RecurrenceInstances.VisitExactly | internal/jobs/recurrence.go:100-132 | A task gets its next instance if and only if it recurs, is not deleted, its pattern is known, and its anchor has come and not passed the end; it stops recurring if and only if it has passed it. |
| RecurrenceInstances.NextIsInstance | internal/jobs/recurrence.go:100-168 | The next instance is an open copy one step on: its due date denotes the anchor so many days, weeks or calendar months later, in the anchor's format, start and end dates denote the same instant or stay blank, it is not done, not signed off, on track and not deleted, and all other fields are the original's. |
| RecurrenceInstances.CursorIsTwoSteps | internal/jobs/recurrence.go:144-155 | The cursor of the instance and of the original is the day two steps after the anchor; nothing else of the original changes. |
| RecurrenceInstances.PassAppendsInstances | internal/jobs/recurrence.go:48-79 | Every task that a pass appends is such an instance of a task that was due. |
| RecurrenceJob.StepsKeepIds | internal/jobs/recurrence.go:70-76 | Task identifiers stay distinct as long as the largest one is not reached. |
| RecurrenceTheorems.ForwardExactly | internal/jobs/recurrence.go:100-168 | A pattern and an interval move every due cursor to a later day, or out of the calendar, if and only if two steps of days or weeks, in wrapped 64-bit seconds, come to a day at least or to more than the calendar backwards; monthly steps always do. |
| RecurrenceTheorems.CursorAdvances | internal/jobs/recurrence.go:100-168 | Under that condition the new cursor of each due task, cut to a date, lies on a later day than its anchor or does not parse, with month ends overflowing. |
| RecurrenceTheorems.WeeksRunBackward | internal/jobs/recurrence.go:157-168 | A concrete positive interval with which every pass moves the cursor back by 2048 days and clones again. |
| RecurrenceTheorems.DaysStandStill | internal/jobs/recurrence.go:157-168 | A concrete positive interval whose cursor never moves. |
| RecurrenceTheorems.RerunDoesNothing | internal/jobs/recurrence.go:22-78 | A second pass at the same instant is the identity if and only if no task that was due gets a cursor that is due again. |
| RecurrenceTheorems.RerunClonesAgain | internal/jobs/recurrence.go:22-78 | A concrete daily task, three days late, that the rerun clones again. |
| RecurrenceTheorems.Converges | internal/jobs/recurrence.go:50-78 | Where all intervals move cursors forward, repeated passes at one instant reach a document in which nothing is due, after one pass per day of the largest lag, and then change nothing. |
| RecurrenceTheorems.AlwaysConverges | internal/jobs/recurrence.go:50-78 | Under the same condition the age of the calendar bounds the number of passes. |
| RecurrenceTheorems.SettlesExactly | internal/jobs/recurrence.go:50-78 | Some number of passes settles a document if and only if none of its due tasks has an interval that leaves a next cursor, due and not past the end, on its day. |
| Dates.AddMonthsAdvances | internal/jobs/recurrence.go:157-168 | Adding months with day overflow moves at least 28 days per month. |
| Dates.AddMonthsMeans | internal/jobs/recurrence.go:157-168 | Adding months goes to the same day of the month so many months on, counted past its end, at the same time of day. |
| Dates.JanuaryFirst | internal/jobs/recurrence.go:157-168 | Years have 365 days, and one more if divisible by 4 and not by 100, or by 400. |
| Dates.CalendarEnds | internal/jobs/recurrence.go:170-185 | The dates that parse end where the year 10000 begins. |
| Approvals.ApproveTask | internal/handlers/approvals.go:30-57 | Signs off once per approver, completes at the threshold, audits both, and refuses other tasks and actors without a change. |
| Approvals.RejectTask | internal/handlers/approvals.go:80-103 | Clears the sign-offs, reopens the task and audits, under the same checks. |
| Approvals.ReplaceApprovers | internal/handlers/approvals.go:122-145 | Installs the cleaned list, keeps the sign-offs of those still on it, and completes if they are all. |
| Approvals.DecideExactly | internal/handlers/approvals.go:30-145 | Only approvers of an approval task can approve or reject it; an approval adds the actor to those who have signed off, a rejection clears them and reopens the task off track, a new list keeps the sign-offs of those on it; nothing else of the task changes. |
| Approvals.DoneMeansUnanimous | internal/handlers/approvals.go:44-52 | For consistent lists a request turns `done` on only when everybody named has signed off, and does so whenever it brings that about. |
| Approvals.ThresholdMeansUnanimity | internal/handlers/approvals.go:30-145 | Over all runs of the three requests the lists stay duplicate-free and nested, and a flip of `done` means that the two sets are equal. |
| Approvals.DoneOutlivesUnanimity | internal/handlers/approvals.go:122-145 | A request leaves a done and unanimous task done without unanimity if and only if it installs a list with a name that has not signed off. |
| Approvals.UnanimityExactly | internal/handlers/approvals.go:30-145 | Over all runs of the three requests, done means unanimous at all times if and only if no request did that to a done task. |
| NameLists.DedupeNonEmpty | internal/handlers/approvals.go:150-165 | The loop with a `seen` map yields the specified list. |
| NameLists.DedupeMeans | internal/handlers/approvals.go:150-165 | The cleaned list has no duplicates, no blanks, only trimmed names, and stands for exactly the names given. |
| Archive.SweepMessages | internal/jobs/archive.go:160-199 | The two passes with `lastSeen` and `inactive` maps drop exactly the declaratively stale messages and count them. |
| Archive.TrimDocument | internal/jobs/archive.go:134-201 | All three lists become the declarative filter of themselves, and each old length is the new one plus the dropped count. |
| Archive.ArchiveInPlace | internal/jobs/archive.go:107-116 | An attempt commits only if something was dropped, and then with one audit entry. |
| Archive.MessagesKept | internal/jobs/archive.go:160-199 | A message survives if and only if it is undated, its chat is not listed, or its chat has a message at or after the cutoff. |
| Archive.EntriesKept | internal/jobs/archive.go:134-158 | An audit entry or a notification is dropped if and only if its sweep is on and it is dated before the cutoff. |
| Archive.TrimIsSubsequence | internal/jobs/archive.go:134-201 | Trimming never invents, reorders or repeats entries. |
| Archive.TrimIdempotent | internal/jobs/archive.go:134-201 | A second trim with the same cutoffs drops nothing and the job commits nothing. |
| TaskProjects.TaskCell.NormalizeInPlace | internal/handlers/task_projects.go:38-67 | The in-place rewriting of the two fields is the specified normalization. |
| TaskProjects.TaskCell.PatchInPlace | internal/handlers/entities.go:359-375 | A patch of either field normalizes after each. |
| TaskProjects.AddTaskProject | internal/handlers/task_projects.go:82-95 | Adds a home to the task found, or reports the missing project or task and changes nothing. |
| TaskProjects.RemoveTaskProject | internal/handlers/task_projects.go:106-131 | Removes a home, or refuses the only one. |
| TaskProjects.DeleteProjectInPlace | internal/handlers/projects.go:40-64 | Deletes the project and detaches every task in place. |
| TaskProjects.NormalizeHomes | internal/handlers/task_projects.go:38-67 | Whatever the fields held: afterwards the list is duplicate-free, empty exactly when the field is, and starts with the field. |
| TaskProjects.NormalizeIdempotent | internal/handlers/task_projects.go:38-67 | Normalizing twice is normalizing once if and only if the task is not a legacy one with an untrimmed project. |
| TaskProjects.PatchKeepsHomes | internal/handlers/entities.go:359-375 | Patching keeps the home invariant. |
| TaskProjects.AddKeepsHomes | internal/handlers/task_projects.go:82-95 | Adding appends one new home, keeps the first, and does nothing for one that is there. |
| TaskProjects.RemoveKeepsHomes | internal/handlers/task_projects.go:106-131 | Removing never leaves a task homeless and takes away only the home named. |
| TaskProjects.DetachKeepsHomes | internal/handlers/projects.go:47-61 | After detaching, the task is homed in the project if and only if it was a legacy task whose project differs by white space; other homes keep their order. |
| TaskProjects.DeleteProjectDetaches | internal/handlers/projects.go:40-64 | The same for every task of the document after a project delete, with the project gone and no other. |
| TaskProjects.DeletedProjectComesBack | internal/handlers/projects.go:47-61 | A concrete task that is homed in the project only after its deletion. |
| Visibility.Apply | internal/visibility/visibility.go:11-36 | The in-place deletes and filters leave exactly the viewer's view. |
| Visibility.ViewExactly | internal/visibility/visibility.go:11-117 | A reader other than the owner gets a task if and only if it has no home or one that is not withheld, a sprint if and only if it has no project or one that is not withheld, and a project if and only if it is not withheld; withheld are members-only projects without the reader among the members. |
| Visibility.CollectHidden | internal/visibility/visibility.go:38-54 | Collects the members-only projects that the viewer is not in, in any map order; none for the owner. |
| Visibility.OwnerSeesAll | internal/visibility/visibility.go:11-54 | The owner's view is the document. |
| Visibility.ViewIdempotent | internal/visibility/visibility.go:11-36 | Applying a view twice is applying it once. |
| Visibility.ViewKeepsOrder | internal/visibility/visibility.go:11-36 | Tasks and sprints of a view are subsequences of the document's, and shown projects are unchanged. |
| Visibility.ViewGrowsWithMembers | internal/visibility/visibility.go:38-74 | Adding members takes nothing away from any viewer. |
| Visibility.IndexTasks | internal/search/search.go:176-192 | The loop builds one row per undeleted task with its first project. |
| Visibility.SearchAgreesWithView | internal/search/search.go:173-228 | For tasks meeting the home invariant, a task or project row that survives the hit filter is in the same viewer's view. |
| Visibility.TaskImpliesRow | internal/visibility/visibility.go:56-91 | A visible task's row survives if and only if its first home is not hidden. |
| Visibility.UnnamedProjectSurvives | internal/visibility/visibility.go:76-91 | A hidden project's row survives if and only if its key is empty. |
| Subtasks.CreateInPlace | internal/handlers/subtasks.go:36-62 | Appends the entity and the parent's name entry, with a new identifier, order and audit entry. |
| Subtasks.RenameInPlace | internal/handlers/subtasks.go:81-103 | Renames the entity and the first equal name on the parent. |
| Subtasks.DeleteInPlace | internal/handlers/subtasks.go:111-139 | Filters out the entity and its name on the parent, with the loop's behaviour after the first match. |
| Subtasks.CreateMeans | internal/handlers/subtasks.go:36-62 | A creation is refused exactly without a name or a parent; otherwise the subtask comes behind all its siblings and its name last in the parent's list. |
| Subtasks.RenameMeans | internal/handlers/subtasks.go:81-103 | The first subtask with the identifier gets the name, and with it the first entry of its parent that was its old name; nothing else changes. |
| Subtasks.DeleteMeans | internal/handlers/subtasks.go:111-139 | Exactly the subtasks with the identifier go, and at most one task's list of names changes. |
| Subtasks.MirroredMeans | internal/handlers/subtasks.go:36-62 | The mirror relation is equality of the multisets of names. |
| Subtasks.DeleteMirrorExact | internal/handlers/subtasks.go:111-139 | A deletion keeps the mirror if and only if no empty entry follows the name on the parent. |
| Subtasks.MirrorConserved | internal/handlers/subtasks.go:36-139 | Over all runs of create, rename and delete with non-empty names, each task's name list is the multiset of its entities' names, duplicates included. |
| TaskDelete.CompactTasks | internal/handlers/task_delete.go:73-121 | The in-place filter over one backing array never overwrites an unread task and leaves exactly the survivors, in order. |
| TaskDelete.CascadeInPlace | internal/handlers/task_delete.go:73-121 | Tasks, dependencies, comments and subtasks are filtered in place to the specified document. |
| TaskDelete.DeleteInPlace | internal/handlers/task_delete.go:16-44 | Permanent and soft deletion leave the specified document, or an unchanged one and an error. |
| TaskDelete.DeletionMeans | internal/handlers/task_delete.go:16-44 | A permanent deletion leaves no trace of the identifier; a soft one stamps the first task with it and touches nothing else but the audit. |
| TaskDelete.CascadeUntraces | internal/handlers/task_delete.go:73-121 | No task, dependency, comment or subtask refers to a removed task. |
| TaskDelete.CascadeKeeps | internal/handlers/task_delete.go:73-121 | Every other row stays, in order, and a surviving task changes only in its dependencies. |
| TaskDelete.UntracedIsFixed | internal/handlers/task_delete.go:73-76 | A document without a trace of the tasks is left alone. |
| TaskDelete.CascadeIdempotent | internal/handlers/task_delete.go:73-121 | A second call with the same identifiers is the identity. |
| TaskDelete.CascadeComposes | internal/handlers/task_delete.go:73-121 | Removing two sets in turn is removing their union. |
| TaskDelete.RestoreUndoesSoftDelete | internal/handlers/task_delete.go:46-71 | A soft-deleted task comes back as it was. |
| ICalendar.EscapeIsOnePass | internal/handlers/entities.go:1160-1167 | The five replacements in sequence equal one left-to-right pass. |
| ICalendar.RoundTrip | internal/handlers/entities.go:1160-1167 | Unescaping by section 3.3.11 of RFC 5545 undoes the escaping up to line ends. |
| ICalendar.EscapeInjective | internal/handlers/entities.go:1160-1167 | Values that escape alike are equal up to line ends. |
| ICalendar.EscapeSafe | internal/handlers/entities.go:1160-1167 | Escaped text holds no line feed and no bare separator. |
| StringIds.NextStringID | internal/handlers/procurement_rest.go:309-324 | The running maximum over the rows yields the specified code. |
| StringIds.NextProjectCode | internal/handlers/entities.go:1417-1426 | The same over the projects' codes, whatever the order in which the map yields them. |
| StringIds.ScanFormat | internal/handlers/procurement_rest.go:318-323 | Scanning a zero-padded printed number gives it back, for every 64-bit integer. |
| StringIds.NextCodeFresh | internal/handlers/procurement_rest.go:309-324 | For any list of texts the generated code is not among them, except exactly when the largest suffix is the largest integer and its wrapped successor is taken. |
| StringIds.NextCodeDistinct | internal/handlers/procurement_rest.go:309-324 | Below that limit a generated code is new and raises the maximum by one. |
| WbsHandlers.DeletePhase | internal/handlers/wbs.go:170-198 | Filters out the phase and detaches activities and work programs in place. |
| WbsHandlers.DeleteActivity | internal/handlers/wbs.go:341-364 | Filters out the activity and detaches work programs in place. |
| WbsHandlers.DeleteProgram | internal/handlers/wbs.go:506-524 | Filters out the row or reports that it is missing. |
| Wbs.RunKeepsSound | internal/handlers/wbs.go:109-498 | Over all runs, with other writers in between: activities name live phases, work programs name live activities, statuses stay in their level's set and progress in 0 to 100. |
| Wbs.DeletePhaseDetaches | internal/handlers/wbs.go:167-198 | A phase delete removes no child row, changes exactly the rows that named it, and only in that name. |
| Wbs.ProgramPhasesStayLive | internal/handlers/wbs.go:484-498 | A request keeps work programs' phases live if and only if it is not a patch to a phase that does not exist. |
| Wbs.CreatedPhaseIds | internal/handlers/wbs.go:109-125 | A creation keeps phase identifiers distinct if and only if the identifier given, or generated, was free. |
| Slices.Compact | internal/handlers/task_delete.go:73-121 | The `s[:0]` idiom on one backing array leaves the filtered list in its prefix and counts what it dropped. |
| Slices.Pigeonhole | internal/handlers/approvals.go:44-52 | A duplicate-free part of a duplicate-free whole has the same length if and only if it has the same elements. |

## Left out

- Serializability.Serializable: requires that no mutation or job commits from a late insert; without that it is false, see `LateCommitDiverges`. The version is unbounded, not 64 bits.
- LateInserts.LateInsertReachable: PUTs that ask for a version above 1 of a workspace that does not exist, and closures that treat the initial document differently on a second attempt, are not covered; the service has none of the latter.
- OutboxTheorems.LeaseSafety: requires that no wrapping failure is recorded; without that it is false, see `WrappedBackoffBreaksLease`. The `attempts` column is unbounded.
- Workspace.EveryDocumentIsTidy: assumes that no list reaches the largest 64-bit identifier and that documents written by PUT are tidy themselves; the subtask mirror is not part of it because rule actions and templates do not write the mirror.
- RuleReach.NoticesExactly: covers rules whose conditions read priority, project or type, or nothing, here and in `EveryActionIsDone`; what other conditions see depends on the rules that acted before, and `FiresExactly` decides each single turn.
- FinanceTheorems.SuccessMeansRecorded: finance is assumed to keep references unique and to echo them; a whole-document write can take any reference away.
- Subtasks.MirrorConserved: renames to an empty name and creations at the largest identifier are excluded; `DeleteMirrorExact` says what goes wrong with the former.
- StringIds.ScanFormat: covers the numbers the generators print; widths, bases and verbs of the scanner that they do not use are not modelled.
- RecurrenceTheorems.ForwardExactly: monthly steps of more than 2^40 months leave the range in which Go's calendar computes exactly and are not covered, here and in `SettlesExactly`; days and weeks are covered for every 64-bit interval. One instance per period is not claimed, because clones carry a recurrence of their own.
- HTTP binding, authentication, roles, WebSocket and Redis fan-out, Kafka writers, file blobs and the chat, users and finance clients: I/O. Finance is a list of items with unique references; the broker is the list of rows delivered.
- SQL text, search ranking and migrations: each statement is one atomic step on abstract rows, with a database clock that does not go back. The lookup of a shared workspace's owner in `ResolveForUser` is not part of this model.
- The JSON encoding of documents: storing and loading is a deep copy.
- Webhook delivery repeats the outbox protocol. Atomicity of enqueueing with a document commit is not claimed: nothing calls `WithTx`.
- Goals, forms, portfolios, rules, settings, reports, templates, tags and dependencies of tasks, and the fields of `applyTaskPatch` that no other operation reads: plain assignments.
- Audit texts, activity entries, custom values and the document's other descriptive fields; instants in entries are parameters.
- Case folding beyond ASCII in statuses, priorities and rule conditions.
- The order in which Go iterates over maps is a parameter or arbitrary.
- Goals' key results and message bodies in search rows: only what decides visibility is carried.
- Conversion of floating-point patches to integers: patches carry the integer. The conversion of powers beyond 2^63 in the backoff is modelled per processor.
