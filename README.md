# Task Manager automation engine, in Dafny

This project models the server side of a small Kanban task tracker. The
tracker keeps projects, tasks, users with badges, notifications, invitations
and automation rules. The model covers:

- the automation rule engine of `automationService.js`, which detects
  status and assignment events, selects matching rules, runs their actions
  (grant a badge, rewrite a status, send a text filled from a template) and
  sweeps overdue tasks;
- the second, simpler rule runner in `automationController.js`, its
  hourly due-date job, and the create, update, delete and list handlers for
  rules;
- the guard chains of the task, project and invitation handlers;
- the notification store;
- the board's grouping of tasks into status columns.

Everything runs against one in-memory store, the class `Db.Store`. Its
fields are the collections: sequences where the source iterates in store
order, maps where it only looks up by id. `Store.Model()` is the `World`
value those fields hold. Every handler is a method on the store, proved
against a function on `World` of the same name plus `Outcome`. That
function states the guard chain one error code at a time, each as an
if-and-only-if, and then the change a successful request makes.

Ids are natural numbers handed out by the counter `nextId`. Every
collection's ids stay distinct and below it. The current time is a
parameter `now`. The locale's date rendering is a parameter function
`dateText`. The requester's id is an input, so the 401 branches, which
fire only without one, are not modelled.

Where the two engines disagree, both are modelled and the disagreement is a
lemma:

- A status rule that names neither end matches every change in the runner
  and nothing in the service.
- As written, the runner cannot match a named assignee. The model's runner
  uses the corrected test (see Findings).
- Only the status action does anything in the runner.

The service's engine is not called from any handler in the source: the task
update handler does not call it, and `index.js:37-39` mounts only some of the
routers. The model therefore states it as the service defines it, with no call
site.

The three defects under Findings are the only places where the model
departs from the code. For each of them the code as written is a separate
member, and the operations use the corrected one.

Where the model follows the code although the obvious reading differs:

- A task created without a status gets "To Do" even when the project's
  list lacks it (`TaskController.DefaultStatusNeedNotBeListed`).
- An empty notification message fails the schema's `required` check, so
  nothing is stored (`NotificationService.CreateNotification`).
- A rule's name is trimmed on update but not validated, so a name of
  blanks is stored empty (`AutomationController.MergeAutomation`).

## Model

| member | source | states |
|---|---|---|
| Model.ParseTrigger | backend/db/models/automation.js:26-49 | A trigger is accepted exactly when its type is one of the three trigger kinds; the kind is kept, and only the conditions that kind reads (`fromStatus`/`toStatus`, or `userId`) are carried, each optional |
| Model.ParseAction | backend/db/models/automation.js:50-73 | An action is accepted exactly when its type is one of the three action kinds; only the parameter that kind reads is carried, optional |
| Model.TriggerRoundTrip | backend/db/models/automation.js:26-49 | Every trigger written back as a request body parses to itself |
| Model.ActionRoundTrip | backend/db/models/automation.js:50-73 | Every action written back as a request body parses to itself |
| Model.TriggerTypeName | backend/db/models/automation.js:28-32 | The stored trigger type is always one of the schema's three enum values |
| Model.ActionTypeName | backend/db/models/automation.js:53-57 | The stored action type is always one of the schema's three enum values |
| Model.TriggerRequestOf | backend/db/models/automation.js:26-49 | A trigger as the request body that creates it: its type string and the conditions its kind reads (partner of `ParseTrigger`) |
| Model.ActionRequestOf | backend/db/models/automation.js:50-73 | An action as the request body that creates it: its type string and the parameter its kind reads (partner of `ParseAction`) |
| Model.IsOwnerOrMember | backend/controller/taskController.js:24-27 | The handlers' test that the requester is the owner or a member: the user owns the project or is one of its members (the same test at taskController.js:86-89, 139-142, 184-187, projectController.js:92-95, 203-206 and automationController.js:138-141) |
| Model.IsTrimmable | backend/db/models/automation.js:15-19 | The characters `trim` removes: ECMAScript white space and line terminators |
| Model.AllTrimmable | backend/db/models/automation.js:15-19 | Every character in a range of the name is trimmable |
| Model.TextStart | backend/db/models/automation.js:15-19 | Scanning forward from an index: everything passed over is trimmable, and the scan stops at the end or at a character that is not |
| Model.TextEnd | backend/db/models/automation.js:15-19 | Scanning backward to a bound: everything passed over is trimmable, and the scan stops at the bound or after a character that is not |
| Model.TrimmedSlice | backend/db/models/automation.js:15-19 | A slice of the name with only trimmable characters outside it |
| Model.Trim | backend/db/models/automation.js:15-19 | The trimmed name is a slice of the input obtained by dropping only white space from both ends, and it neither starts nor ends with white space |
| Model.TrimIdempotent | backend/db/models/automation.js:15-19 | Trimming a trimmed name changes nothing |
| Model.NewAutomation | backend/db/models/automation.js:9-24 | Saving succeeds exactly when the name is present and non-blank after trimming, else it fails with 500; the saved rule has the trimmed name, `active` defaulting to true, and `createdAt` and `updatedAt` stamped with now (pre-save hook at 92-95) |
| Model.NameOf | backend/service/notificationService.js:56 | A user is named by display name when it is non-empty, else by email |
| Db.FindTask | backend/controller/taskController.js:170-174 | The lookup returns an index holding that id with no earlier one, or reports that no task has it |
| Db.OnlyOneWithId | backend/controller/taskController.js:257 | With distinct ids, the task found by id is the only one with it |
| Db.DistinctIdsDistinctRecords | backend/db/models/automation.js:97 | Distinct `_id`s in every collection make the stored records distinct |
| Db.FindAutomation | backend/controller/automationController.js:190-191 | The lookup returns an index holding that rule id with no earlier one, or reports that no rule has it |
| Db.FindInvitation | backend/controller/invitationController.js:51-55 | The lookup returns an index holding that invitation id with no earlier one, or reports that no invitation has it |
| Common.RemoveAll | backend/controller/projectController.js:266-268 | The filtered member list holds exactly the old members other than the removed one, and is the old list when that one was absent |
| Common.Filtered | backend/service/automationService.js:45-66 | What a `find` or `filter` returns, counted: each element passing the test as often as in the input, no other element; the listing functions ensure it |
| Common.SubMultisetNoDuplicates | backend/service/automationService.js:45-66 | A listing holding no element more often than a list without duplicates has no duplicates |
| NotificationService.CreateNotification | backend/service/notificationService.js:14-30 | A storable record (non-empty message, schema at backend/db/models/notification.js:35-38) is appended with a fresh id and nothing else changes; otherwise 500 and no change |
| NotificationService.Storable | backend/db/models/notification.js:35-38 | The schema's `required` check on `message`, which an empty string fails |
| NotificationService.AddNotification | backend/service/notificationService.js:14-25 | Saving gives the record the next id and `createdAt` now, appended after the existing records |
| NotificationService.AddNotificationKeepsValid | backend/service/notificationService.js:14-25 | Appending keeps every store invariant, keeps the old records as a prefix, and the new record carries exactly the given data |
| NotificationService.AssignmentMessage | backend/service/notificationService.js:56 | The assignment text is never empty, so the schema's `required` check always passes |
| NotificationService.AssignmentNotice | backend/service/notificationService.js:38-71 | A record is built exactly when assignee and assigner differ, the task, its project and the assigner exist; it is a `task_assignment` to the assignee from the assigner, unread, naming task and project |
| NotificationService.SendTaskAssignmentNotification | backend/service/notificationService.js:38-71 | Appends the assignment record when there is one, and otherwise leaves the store unchanged |
| NotificationService.StatusUpdateMessage | backend/service/notificationService.js:93 | The status-change text is never empty, so the schema's `required` check always passes |
| NotificationService.StatusUpdateNotice | backend/service/notificationService.js:79-108 | A record is built exactly when the task has an assignee other than the updater and the updater exists; it is a `task_status_update` to the assignee, unread |
| NotificationService.SendTaskStatusUpdateNotification | backend/service/notificationService.js:79-108 | Appends the status-update record when there is one, and otherwise leaves the store unchanged |
| NotificationService.UserNotifications | backend/service/notificationService.js:115-129 | The listing is the first 20 (or all, when fewer) of the user's records taken newest first: only the user's records, at most 20, all of them when there are at most 20, and no record more often than the store holds it |
| NotificationService.NewestFirst | backend/service/notificationService.js:117-122 | The user's records, all of them and only them, each as many times as the store holds it |
| NotificationService.UserNotificationsSorted | backend/service/notificationService.js:117-122 | Over a chronological store the listing is newest first |
| NotificationService.UserNotificationsAreNewest | backend/service/notificationService.js:117-122 | Over a chronological store no record of the user left off the page is newer than one on it |
| NotificationService.NewestFirstSorted | backend/service/notificationService.js:117-122 | The user's records taken from the end of a chronological store are in decreasing `createdAt` order |
| NotificationService.NewestFirstOrder | backend/service/notificationService.js:117-122 | The order `.sort({ createdAt: -1 })` produces: creation times never increase along the listing |
| NotificationService.Chronological | backend/service/notificationService.js:14-25 | Creation times never decrease along the store, as appending records stamped with a nondecreasing clock leaves it |
| NotificationService.NewerInFront | backend/service/notificationService.js:117-122 | A record no older than any in a newest-first list may be put in front of it |
| NotificationService.UserNotificationsComplete | backend/service/notificationService.js:117-122 | With at most 20 records, every one of the user's records is listed |
| NotificationService.UserNotificationsOnce | backend/service/notificationService.js:117-122 | In a valid store the page shows each record at most once |
| NotificationService.MarkedRead | backend/service/notificationService.js:136-155 | Fails exactly when no record has that id and recipient; otherwise every record is unchanged or is a record with that id and recipient now read |
| NotificationService.FindOwnNotification | backend/service/notificationService.js:138-145 | Finds a record with that id and that recipient, or reports that there is none |
| NotificationService.AsRead | backend/service/notificationService.js:147 | `notification.read = true`: the same record with `read` set |
| NotificationService.MarkedReadOnlyThatRecord | backend/service/notificationService.js:138-148 | With distinct ids, exactly the one matching record becomes read and all others are unchanged |
| NotificationService.MarkNotificationAsRead | backend/service/notificationService.js:136-155 | Fails as not found (the thrown error) with no change when no record has that id and recipient; otherwise stores the marked list |
| NotificationService.MarkedAllReadEffect | backend/service/notificationService.js:161-171 | After mark-all, every record of the user is read, other users' records are unchanged, and ids are kept |
| NotificationService.MarkedAllRead | backend/service/notificationService.js:163-166 | Every record of the user becomes read and every other record is kept, position by position |
| NotificationService.MarkedAllReadIdempotent | backend/service/notificationService.js:163-166 | Marking all read twice is marking all read once |
| NotificationService.MarkAllNotificationsAsRead | backend/service/notificationService.js:161-171 | The store's notifications become the marked list and nothing else changes |
| AutomationService.AssignmentChangedMeaning | backend/service/automationService.js:16-30 | An assignment event fires exactly when the task ends up assigned to someone it was not assigned to before |
| AutomationService.StatusQueryMeaning | backend/service/automationService.js:42-75 | The three `$or` branches select a rule exactly when every named end equals the change and at least one end is named |
| AutomationService.SelectedForStatus | backend/service/automationService.js:45-66 | The status `find` filter on one rule: active, of the task's project, a status trigger, and one of the three `$or` branches matching |
| AutomationService.SelectedForAssignment | backend/service/automationService.js:87-97 | The assignment `find` filter on one rule: active, of the task's project, an assignment trigger whose user is absent or is the assignee |
| AutomationService.SelectedForDueDate | backend/service/automationService.js:124-128 | The due-date `find` filter on one rule: active, of the task's project, a due-date trigger |
| AutomationService.SweepNext | backend/service/automationService.js:114-134 | One more overdue task of a sweep that has not stopped: a task whose project is gone stops it, otherwise its project's due-date rules run |
| AutomationService.SelectStatus | backend/service/automationService.js:45-66 | Selects exactly the active rules of the task's project with a status trigger that the query matches, each as many times as the store holds it |
| AutomationService.SelectAssignment | backend/service/automationService.js:82-106 | Selects exactly the active assignment rules of the project whose user is absent or is the assignee, each as many times as the store holds it |
| AutomationService.SelectDueDate | backend/service/automationService.js:112-134 | Selects exactly the active due-date rules of the project, each as many times as the store holds it |
| AutomationService.SelectionsOnce | backend/service/automationService.js:45-134 | In a valid store each of the three queries selects every rule at most once, so no rule runs twice for one event |
| AutomationService.IndexOf | backend/service/automationService.js:202-213 | Finds the first occurrence of a placeholder, or reports that it occurs nowhere |
| AutomationService.ReplaceFirst | backend/service/automationService.js:202-213 | Replaces only the first occurrence of the pattern; the text before and after it is kept verbatim, and a string without the pattern is unchanged |
| AutomationService.ReplaceFirstOnlyFirst | backend/service/automationService.js:204-206 | A second copy of the placeholder survives the substitution |
| AutomationService.FormatNotificationMessage | backend/service/automationService.js:202-213 | A template holding none of the placeholders that apply (the due-date one applies only with a due date) is sent verbatim |
| AutomationService.FormatKeepsDueDatePlaceholderWithoutDueDate | backend/service/automationService.js:207-209 | Without a due date, any template with no title or status placeholder is sent as it is, so every `{task.dueDate}` in it survives; in particular the bare due-date placeholder |
| AutomationService.FormatFillsTitle | backend/service/automationService.js:202-205 | A template with one `{task.title}` and no other brace, for a title and status without braces, becomes the template with the title in the placeholder's place |
| AutomationService.Lacks | backend/service/automationService.js:204-209 | Holds when the text has no copy of the placeholder, the case in which `replace` leaves it alone |
| AutomationService.ExpandReplacement | backend/service/automationService.js:204-209 | JavaScript's reading of a replacement string; one without a dollar sign is inserted literally |
| AutomationService.JsReplaceFirst | backend/service/automationService.js:204-209 | JavaScript's `replace`: a text without the pattern is unchanged, the text before and after the first occurrence is kept, and with a replacement free of dollar signs it is the literal replacement |
| AutomationService.FormatNotificationMessageAsWritten | backend/service/automationService.js:202-213 | The formatter with JavaScript's `replace`; it sends what the literal formatter sends whenever the title, the status and (with a due date) the printed date have no dollar sign |
| AutomationService.DollarTitleIsNotInserted | backend/service/automationService.js:204-206 | As written, a task titled `$&` is announced as `{task.title}`; the corrected formatter inserts `$&` |
| AutomationService.GrantBadge | backend/service/automationService.js:221-255 | A missing user is a no-op; otherwise the user afterwards holds a badge with that name and project, gaining at most one badge after the old ones and none when they already held one; name, email and every other user are unchanged |
| AutomationService.GrantBadgeIdempotent | backend/service/automationService.js:237-239 | Granting twice, at any later time, is granting once |
| AutomationService.GrantBadgeKeepsUnique | backend/service/automationService.js:237-243 | Every user keeps at most one badge per (name, project) |
| AutomationService.EmailsUniqueAfterGrant | backend/db/models/user.js:31-45 | Granting a badge keeps emails unique |
| AutomationService.GrantBadgeAsWrittenDuplicates | backend/service/automationService.js:120 | With a populated project document as the project id, a badge the user holds is appended again |
| AutomationService.GrantBadgeAsWritten | backend/service/automationService.js:221-255 | The grant as the due-date sweep (line 120) makes it: a missing user is a no-op; otherwise the badge is appended and nothing else changes, which is the corrected grant whenever the user does not hold the badge yet |
| AutomationService.SetTaskStatus | backend/service/automationService.js:161-169 | Only the task with that id changes, and only in status and `updatedAt` |
| AutomationService.AutomationNotice | backend/service/automationService.js:174-183 | The record goes to the recipient from the sender, is `automation_triggered` and unread, names the task, its project and the rule, has no invitation and carries the formatted template |
| AutomationService.ExecuteAction | backend/service/automationService.js:146-194 | Any action leaves projects, rules and invitations alone, and appends at most one notification after the old ones |
| AutomationService.AssignBadgeEffect | backend/service/automationService.js:151-159 | A badge action changes only users; with an assignee and a non-empty badge name it grants that badge to the assignee for the task's project, and otherwise does nothing |
| AutomationService.ChangeStatusNoCascade | backend/service/automationService.js:161-169 | A status action with a status rewrites that task's status and `updatedAt` only, creates no notification and grants no badge; without a status it does nothing |
| AutomationService.SendNotificationEffect | backend/service/automationService.js:171-186 | A notification action appends exactly one record when the task has an assignee and the template and its formatted text are non-empty: to the assignee, from the triggering user or else the creator, `automation_triggered`, unread, naming the rule; otherwise nothing |
| AutomationService.ExecuteActionKeepsValid | backend/service/automationService.js:146-194 | Executing an action keeps every store invariant, unique badges included |
| AutomationService.ExecuteActionAsWrittenDuplicatesBadge | backend/service/automationService.js:120 | In the due-date sweep, a badge action grants a badge the assignee already holds again, breaking badge uniqueness |
| AutomationService.RunAll | backend/service/automationService.js:67-72 | Running rules one after another leaves projects, rules and invitations alone, and keeps every existing notification as a prefix of the new list |
| AutomationService.RunAllKeepsValid | backend/service/automationService.js:67-72 | Running a list of rules keeps every store invariant |
| AutomationService.ProcessStatusChange | backend/service/automationService.js:42-75 | Running the selected status rules leaves projects, rules and invitations alone, only appends notifications, and keeps every store invariant |
| AutomationService.ProcessAssignment | backend/service/automationService.js:82-106 | Nothing happens for an unassigned task; otherwise running the selected assignment rules leaves projects, rules and invitations alone, only appends notifications, and keeps every store invariant |
| AutomationService.ProcessUpdate | backend/service/automationService.js:16-30 | Status rules when the status changed, then assignment rules when the task was handed to someone new; projects, rules and invitations stay, notifications are only appended, and the invariants hold |
| AutomationService.StatusChanged | backend/service/automationService.js:19 | A status event fires when the status differs from the previous one |
| AutomationService.AssignmentChanged | backend/service/automationService.js:24-28 | Assigned where nobody was, or reassigned to someone else |
| AutomationService.StatusQueryMatches | backend/service/automationService.js:49-65 | The three `$or` branches of the status query |
| AutomationService.QuietUpdateRunsNothing | backend/service/automationService.js:16-30 | An update that keeps the status and gives the task to no one new runs nothing |
| AutomationService.UnconditionedStatusTriggerNeverSelected | backend/service/automationService.js:49-65 | A status rule that names neither end is never selected by the service |
| AutomationService.OverdueTasks | backend/service/automationService.js:114-118 | The sweep visits exactly the tasks with a due date before now whose status is not "Done", each as many times as the store holds it |
| AutomationService.OverdueTasksOnce | backend/service/automationService.js:114-118 | In a valid store the sweep visits each overdue task once |
| AutomationService.Overdue | backend/service/automationService.js:117-119 | The `dueDate: { $lt: now }, status: { $ne: 'Done' }` filter on one task |
| AutomationService.Sweep | backend/service/automationService.js:112-138 | The sweep leaves projects and rules alone, and keeps every existing notification as a prefix of the new list |
| AutomationService.ProcessDueDate | backend/service/automationService.js:112-138 | The sweep over the overdue tasks with the project held as an id leaves projects and rules alone and only appends notifications |
| AutomationService.SweepHaltedStays | backend/service/automationService.js:125 | Once a task with a vanished project has stopped the sweep, the later tasks change nothing |
| AutomationService.NotHalted | backend/service/automationService.js:125 | When every overdue task's project exists, the sweep runs to the end |
| AutomationService.RunAllNotifies | backend/service/automationService.js:67-72 | A notification rule in the list sends its record about the task at least once more |
| AutomationService.SweepNotifies | backend/service/automationService.js:120-134 | A due-date notification rule of an overdue, assigned task's project sends one more record for it in the sweep |
| AutomationService.SweepRenotifies | backend/service/automationService.js:112-134 | Sweeps keep no memory: each sweep sends the overdue, assigned task's notification again |
| AutomationService.AssignBadgeToUser | backend/service/automationService.js:221-255 | The store's users become the granted map and the invariants hold |
| AutomationService.ExecuteAutomationAction | backend/service/automationService.js:146-194 | The store becomes the executed action's world |
| AutomationService.RunAutomations | backend/service/automationService.js:67-72 | The loop leaves the store equal to running the rules in order |
| AutomationService.ProcessStatusChangeAutomations | backend/service/automationService.js:42-75 | Leaves the store as running exactly the selected status rules, and keeps the invariants |
| AutomationService.ProcessTaskAssignmentAutomations | backend/service/automationService.js:82-106 | Runs nothing for an unassigned task, else exactly the selected assignment rules |
| AutomationService.ProcessTaskUpdate | backend/service/automationService.js:16-30 | Status rules first when the status changed, then assignment rules when the task was handed to someone new |
| AutomationService.ProcessDueDateAutomations | backend/service/automationService.js:112-138 | The nested loop leaves the store equal to the sweep over the overdue tasks, stopping at a task whose project is gone |
| AutomationService.SendAutomationNotification | backend/service/automationService.js:265-290 | Stores the formatted `automation_triggered` record from sender to recipient when it is storable, and changes nothing otherwise |
| AutomationController.AssigneeVerdict | backend/controller/automationController.js:29-32 | A rule with no user runs; a named user runs exactly when they are the assignee; an unassigned task throws |
| AutomationController.AssigneeVerdictAsWritten | backend/controller/automationController.js:29-32 | As written, a rule runs exactly when it names no user, and throws exactly when it names one and the task is unassigned |
| AutomationController.StatusConditionsHold | backend/controller/automationController.js:22-27 | A present, non-empty end must equal the change's; an absent or empty one matches anything |
| AutomationController.NamedAssigneeNeverRunsAsWritten | backend/controller/automationController.js:31 | As written, a rule naming a user never runs, although the corrected test runs it for that assignee |
| AutomationController.AssigneeVerdictAgreesWithService | backend/service/automationService.js:87-97 | The corrected runner test and the service's assignment query select the same rules for an assigned task |
| AutomationController.Check | backend/controller/automationController.js:22-36 | Only an assignment event on an unassigned task throws; a due-date rule is skipped exactly when the due date is after now |
| AutomationController.UnconditionedStatusTriggerDisagreement | backend/controller/automationController.js:25-26 | A status rule naming neither end matches every change in the runner and nothing in the service |
| AutomationController.MatchersAgreeOnConditionedTriggers | backend/controller/automationController.js:22-27 | With at least one end named, no end empty and both statuses known, the runner and the service select the same status rules |
| AutomationController.SaveStatus | backend/controller/automationController.js:49-52 | Only the stored task with that id changes, and only in status |
| AutomationController.Perform | backend/controller/automationController.js:43-61 | Only a status action with a status changes anything: the task's status, in the store and in memory; badge and notification actions change nothing |
| AutomationController.PerformAutomationAction | backend/controller/automationController.js:43-61 | Returns the task with its new status and leaves the store as `Perform` says |
| AutomationController.SelectForEvent | backend/controller/automationController.js:12-16 | Exactly the active rules of the task's project whose trigger type is the event's, each as many times as the store holds it |
| AutomationController.SelectForEventOnce | backend/controller/automationController.js:12-16 | In a valid store the runner meets each matching rule once |
| AutomationController.RunEventOnlyStatuses | backend/controller/automationController.js:18-39 | The runner changes task statuses and nothing else |
| AutomationController.RunEventCrashOnlyOnUnassigned | backend/controller/automationController.js:29-32 | Only an assignment event on an unassigned task can end the loop early |
| AutomationController.RunEventCrashedStays | backend/controller/automationController.js:18-39 | After the exception, the remaining rules change nothing |
| AutomationController.RunEvent | backend/controller/automationController.js:18-39 | The runner's loop as a fold over the selected rules: skipped rules change nothing, a run rule's action acts on the task as the loop holds it, and an exception ends the loop |
| AutomationController.RunEventNext | backend/controller/automationController.js:18-38 | One more iteration of a loop that has not thrown: a throwing rule ends it with the store as it was, a skipped rule changes nothing, and a run rule applies its action to the task as the loop holds it |
| AutomationController.SelectedForEvent | backend/controller/automationController.js:12-16 | The runner's `find` filter on one rule: of the task's project, active, with the event's trigger type |
| AutomationController.CheckAndTriggerAutomations | backend/controller/automationController.js:11-40 | The loop with `continue` leaves the store and reports the exception as the runner's fold says |
| AutomationController.CronNeverSkips | backend/controller/automationController.js:279-285 | Every task the job visits is already past its due date, so its due-date test never skips |
| AutomationController.CronNeverCrashes | backend/controller/automationController.js:284-286 | A due-date event never throws, so the job visits every overdue task |
| AutomationController.Cron | backend/controller/automationController.js:277-287 | The job as a fold over the overdue snapshot, running the due-date event for each task until an exception |
| AutomationController.CronSweep | backend/controller/automationController.js:277-287 | The job's loop leaves the store as the runner over each overdue task in turn |
| AutomationController.CronNext | backend/controller/automationController.js:277-287 | One more overdue task of a job that has not thrown: the runner's due-date event over that task's selected rules |
| AutomationController.ValidateRule | backend/controller/automationController.js:80-109 | A rule passes exactly when both parts are present, of known kinds, status conditions that are present and non-empty are project statuses, and a status action names a project status; the parsed parts are returned |
| AutomationController.ValidRuleUsesProjectStatuses | backend/controller/automationController.js:86-109 | A rule that passes names only statuses of its project |
| AutomationController.TriggerStatusesValid | backend/controller/automationController.js:86-100 | A status trigger's present, non-empty ends must be statuses of the project |
| AutomationController.ActionStatusValid | backend/controller/automationController.js:102-109 | A status action must name a status of the project |
| AutomationController.UpdateRuleValid | backend/controller/automationController.js:199-228 | The checks of creation, applied only to the parts an update supplies |
| AutomationController.CreateAutomationOutcome | backend/controller/automationController.js:67-126 | Each answer as an if-and-only-if: 404 exactly for an unknown project, 403 exactly for a non-owner, 400 exactly for an invalid rule, 500 exactly for a missing or blank name, each with no change; otherwise one active rule is appended with the new id, the trimmed name, the project, the requester as creator, the parsed parts and both timestamps now |
| AutomationController.CreateAutomationKeepsValid | backend/controller/automationController.js:111-120 | Creating a rule keeps every store invariant |
| AutomationController.CreateAutomation | backend/controller/automationController.js:67-126 | The handler answers and changes the store as the outcome says |
| AutomationController.ProjectAutomations | backend/controller/automationController.js:144-146 | Exactly the project's rules, each as many times as the store holds it |
| AutomationController.ProjectAutomationsOnce | backend/controller/automationController.js:144-146 | In a valid store the listing shows each rule once |
| AutomationController.AutomationsChronological | backend/db/models/automation.js:81-84 | Creation times never decrease along the store of rules |
| AutomationController.NewestRulesFirst | backend/controller/automationController.js:146 | The order `.sort({ createdAt: -1 })` produces: creation times never increase along the listing |
| AutomationController.ProjectAutomationsNewestFirst | backend/controller/automationController.js:144-146 | Over a chronological store, the listing is in decreasing `createdAt` order |
| AutomationController.NewerRuleInFront | backend/controller/automationController.js:144-146 | A rule no older than every listed one, put in front, keeps the listing newest first |
| AutomationController.CreateKeepsChronological | backend/controller/automationController.js:111-120 | Creating a rule stamped no earlier than every stored one keeps the store chronological |
| AutomationController.GetProjectAutomations | backend/controller/automationController.js:128-153 | Each answer as an if-and-only-if: 404 exactly for an unknown project, 403 exactly for anyone but the owner and members, success exactly for them, listing exactly the project's rules, each as many times as the store holds it, newest first when the store is chronological |
| AutomationController.MergeAutomation | backend/controller/automationController.js:230-238 | Name (trimmed, when non-empty), trigger, action (when given) and `active` (when defined) are replaced; id, project, creator and `createdAt` are kept; `updatedAt` becomes now |
| AutomationController.EmptyUpdateOnlyTouchesTimestamp | backend/controller/automationController.js:230-238 | An update that supplies nothing changes only `updatedAt` |
| AutomationController.UpdateAutomationOutcome | backend/controller/automationController.js:182-247 | Each answer as an if-and-only-if: 404 exactly when the rule or its project is missing, 403 exactly for a non-owner, 400 exactly when a supplied part is invalid, success otherwise; an error changes nothing, success replaces that rule by the merge |
| AutomationController.UpdateAutomation | backend/controller/automationController.js:182-247 | The handler answers and changes the store as the outcome says |
| AutomationController.UpdateKeepsChronological | backend/controller/automationController.js:236-240 | An update keeps every rule's `createdAt` and the store order, so a chronological store stays chronological |
| AutomationController.DeleteAutomationOutcome | backend/controller/automationController.js:249-272 | Each answer as an if-and-only-if: 404 exactly when the rule or its project is missing, 403 exactly for a non-owner, success otherwise; an error changes nothing, success removes exactly that rule, the others keeping their order |
| AutomationController.OnlyOwnerChangesAutomations | backend/controller/automationController.js:77-78 | Create, update and delete succeed only for the project's owner |
| AutomationController.DeleteAutomation | backend/controller/automationController.js:249-272 | The handler answers and changes the store as the outcome says |
| AutomationController.DeleteKeepsChronological | backend/controller/automationController.js:249-272 | A delete keeps the remaining rules in order, so a chronological store stays chronological |
| TaskController.NewTask | backend/controller/taskController.js:39-47 | The new task has the given fields, the requester as creator, and the given status or else "To Do" |
| TaskController.StatusAllowed | backend/controller/taskController.js:32-36 | A supplied, non-empty status must be one of the project's |
| TaskController.CreateTaskOutcome | backend/controller/taskController.js:5-64 | Each answer as an if-and-only-if: 404 exactly for an unknown project, 403 exactly for a non-member, 400 exactly for a status outside the list, success exactly when all three checks pass; an error changes nothing, success appends the new task with a fresh id |
| TaskController.CreatedTaskStatus | backend/controller/taskController.js:32-44 | A created task has the requested status, which is then in the list, or the default when none was requested |
| TaskController.DefaultStatusNeedNotBeListed | backend/controller/taskController.js:44 | The default "To Do" is used even in a project whose list lacks it |
| TaskController.CreateTask | backend/controller/taskController.js:5-64 | The handler answers and changes the store as the outcome says |
| TaskController.MergeTask | backend/controller/taskController.js:199-208 | Only a non-empty title or status, a truthy due date or assignee, and a present description are written (a falsy due date or assignee arrives as `None`, so `Some` is always truthy); id, project and creator are kept; `updatedAt` becomes now |
| TaskController.MergeNeverUnassigns | backend/controller/taskController.js:203 | An update never unassigns a task, and an update that supplies nothing changes only `updatedAt` |
| TaskController.MergeIdempotent | backend/controller/taskController.js:199-208 | Applying the same update twice is applying it once |
| TaskController.UpdateTaskOutcome | backend/controller/taskController.js:157-221 | Each answer as an if-and-only-if: 404 exactly when the task or its project is missing, 403 exactly for a non-member, 400 exactly for a supplied status outside the list, success otherwise; an error changes nothing, success replaces that task by the merge |
| TaskController.UpdatedTaskStatus | backend/controller/taskController.js:192-204 | After an update the task's status is in the project's list or is the one it already had |
| TaskController.UpdateTask | backend/controller/taskController.js:157-221 | The handler answers and changes the store as the outcome says |
| TaskController.DeleteTaskOutcome | backend/controller/taskController.js:224-267 | Each answer as an if-and-only-if: 404 exactly for an unknown task or a vanished project, 403 exactly when the requester is neither the project's owner nor the task's creator, success exactly when the task and its project exist and the requester is one of those two; an error changes nothing, success removes the task |
| TaskController.DeleteTaskRemovesOnlyIt | backend/controller/taskController.js:257 | After a delete no task has that id and every other task is still there |
| TaskController.DeleteTask | backend/controller/taskController.js:224-267 | The handler answers and changes the store as the outcome says |
| TaskController.UpdateTaskStatusesOutcome | backend/controller/taskController.js:270-311 | Each answer as an if-and-only-if: 404 exactly for an unknown project, 403 exactly for a non-owner, 400 exactly for a missing or empty list, success exactly for the owner with a non-empty list; an error changes nothing, success makes the given list the project's and changes nothing else |
| TaskController.UpdatedStatusesNonEmpty | backend/controller/taskController.js:295-300 | After a replacement the project has a first status |
| TaskController.UpdateProjectTaskStatuses | backend/controller/taskController.js:270-311 | The handler answers and changes the store as the outcome says |
| ProjectController.CreateProjectOutcome | backend/controller/projectController.js:5-39 | The new project has the fresh id, the requester as owner and sole member, and the default statuses; other projects are unchanged |
| ProjectController.CreatorOwnsNewProject | backend/controller/projectController.js:20-25 | The new project is well formed, and its creator may view, update and delete it |
| ProjectController.CreateProject | backend/controller/projectController.js:5-39 | Returns the new id and changes the store as the outcome says |
| ProjectController.UserProjects | backend/controller/projectController.js:53-58 | Exactly the projects the requester owns or belongs to |
| ProjectController.ViewProject | backend/controller/projectController.js:74-107 | 404 for an unknown project, 403 for anyone but the owner and members, else the project |
| ProjectController.ListingAgreesWithView | backend/controller/projectController.js:53-58 | A project is listed for a user exactly when that user may view it |
| ProjectController.UpdateProjectOutcome | backend/controller/projectController.js:110-148 | Each answer as an if-and-only-if: 404 exactly for an unknown project, 403 exactly for a non-owner, success exactly for the owner; an error changes nothing, success overwrites title and description and nothing else |
| ProjectController.UpdateProject | backend/controller/projectController.js:110-148 | The handler answers and changes the store as the outcome says |
| ProjectController.DeleteProjectOutcome | backend/controller/projectController.js:151-181 | Each answer as an if-and-only-if: 404 exactly for an unknown project, 403 exactly for a non-owner, success exactly for the owner; an error changes nothing, success removes exactly that project and leaves the others unchanged |
| ProjectController.DeletedProjectIsGone | backend/controller/projectController.js:171 | After a delete, viewing the project answers 404 to anyone |
| ProjectController.DeleteProject | backend/controller/projectController.js:151-181 | The handler answers and changes the store as the outcome says |
| ProjectController.UserWithEmail | backend/controller/projectController.js:209-214 | The user found has that email, and none is found exactly when no user has it |
| ProjectController.InviteUserOutcome | backend/controller/projectController.js:184-235 | Each answer as an if-and-only-if: 404 for an unknown project, 403 for a non-member, 404 for an unknown email, 400 for an existing member, success exactly when the project exists, the requester belongs to it and the email names a user not yet a member; an error changes nothing, success appends the user to the members |
| ProjectController.InviteAddsExactlyOnce | backend/controller/projectController.js:216-223 | After an invite the invitee is a member exactly once, and nobody else joined or left |
| ProjectController.InviteUser | backend/controller/projectController.js:184-235 | The handler answers and changes the store as the outcome says |
| ProjectController.RemoveUserOutcome | backend/controller/projectController.js:238-282 | Each answer as an if-and-only-if: 404 exactly for an unknown project, 403 exactly for a non-owner, 400 exactly for the owner removing themselves, success exactly for the owner removing someone else; an error changes nothing, success removes every occurrence of the member from the list |
| ProjectController.RemoveKeepsOwner | backend/controller/projectController.js:257-269 | After a removal the owner is still a member, the list has no duplicates, and it holds exactly the old members other than the removed one |
| ProjectController.RemoveUser | backend/controller/projectController.js:238-282 | The handler answers and changes the store as the outcome says |
| InvitationController.PendingInvitations | backend/controller/invitationController.js:16-19 | Exactly the invitations to the user that are still pending, each as many times as the store holds it |
| InvitationController.PendingInvitationsOnce | backend/controller/invitationController.js:16-19 | In a valid store each pending invitation is listed once |
| InvitationController.Guard | backend/controller/invitationController.js:51-65 | Each answer as an if-and-only-if: 404 exactly for an unknown invitation, 403 exactly unless the requester is its recipient, 400 exactly unless it is pending, and it passes exactly for a pending invitation to the requester, giving its position |
| InvitationController.Join | backend/controller/invitationController.js:74-78 | The members afterwards are the old ones plus the user, with no duplicate added; an existing member changes nothing |
| InvitationController.AcceptOutcome | backend/controller/invitationController.js:41-94 | The shared checks reject with no change; after them, 404 exactly when the project has vanished, leaving the invitation pending, and success exactly when it exists: the user joins and the invitation becomes accepted |
| InvitationController.RejectOutcome | backend/controller/invitationController.js:97-136 | The shared checks reject with no change; otherwise only the invitation changes, to rejected, and no project is touched |
| InvitationController.AcceptJoinsOnce | backend/controller/invitationController.js:74-82 | After accepting, the project is well formed and the user is a member exactly once |
| InvitationController.TransitionsAreFinal | backend/controller/invitationController.js:63-65 | After an accept or a reject, a second accept or reject of that invitation is refused with 400 and changes nothing |
| InvitationController.AcceptInvitation | backend/controller/invitationController.js:41-94 | The handler answers and changes the store as the outcome says |
| InvitationController.RejectInvitation | backend/controller/invitationController.js:97-136 | The handler answers and changes the store as the outcome says |
| TaskBoard.Place | frontend/src/components/TaskBoard.jsx:76-84 | A task goes to the column of its status when there is one, else to the first column |
| TaskBoard.Placed | frontend/src/components/TaskBoard.jsx:76-84 | The task as its column holds it: unchanged in its own column, its status rewritten when it goes to the first column |
| TaskBoard.OrganizeTasksByStatus | frontend/src/components/TaskBoard.jsx:66-88 | Without statuses and with a task, the grouping throws; otherwise there is one bucket per status and no other, each holding its column |
| TaskBoard.IsBoard | frontend/src/components/TaskBoard.jsx:66-88 | A bucket for every status and for nothing else, each holding its column |
| TaskBoard.ColumnsHold | frontend/src/components/TaskBoard.jsx:75-85 | Every status has a bucket holding its column of the tasks pushed so far |
| TaskBoard.PushTask | frontend/src/components/TaskBoard.jsx:75-85 | The `forEach` callback: the task goes onto the bucket of its status, or onto the first column's bucket with its status rewritten; no bucket is added or dropped |
| TaskBoard.PushOne | frontend/src/components/TaskBoard.jsx:75-85 | One push keeps the board over the tasks pushed so far, now including the new one |
| TaskBoard.ColumnStep | frontend/src/components/TaskBoard.jsx:75-85 | A column over one more task is the old column, plus that task when it lands there |
| TaskBoard.EmptyBuckets | frontend/src/components/TaskBoard.jsx:69-72 | Every status gets a bucket and every bucket starts empty |
| TaskBoard.KnownColumn | frontend/src/components/TaskBoard.jsx:76-77 | Every column but the first holds exactly the tasks with that status, in input order |
| TaskBoard.Column | frontend/src/components/TaskBoard.jsx:75-85 | A column holds no more tasks than the input, each with the column's status |
| TaskBoard.WithStatus | frontend/src/components/TaskBoard.jsx:76-77 | Exactly the tasks with the given status, each as many times as the input holds it; WithStatusAppend gives the order |
| TaskBoard.WithStatusAppend | frontend/src/components/TaskBoard.jsx:76-77 | A column over two lists joined is the two columns joined, so tasks stay in input order |
| TaskBoard.StrayGoesFirst | frontend/src/components/TaskBoard.jsx:78-84 | A task with an unknown status is in the first column, its status rewritten to the first status |
| TaskBoard.ShownInColumn | frontend/src/components/TaskBoard.jsx:75-85 | Every task is shown in the column it belongs to |
| TaskBoard.TotalIsCount | frontend/src/components/TaskBoard.jsx:75-85 | Over the distinct statuses the buckets hold as many tasks as there are: none lost, none shown twice |
| TaskBoard.DragDecision | frontend/src/components/TaskBoard.jsx:183-201 | No request without a destination or for a drop where it started; otherwise the dragged task's status becomes the destination column's |
| TaskBoard.ReorderRequestsSameStatus | frontend/src/components/TaskBoard.jsx:190-200 | Reordering within a column still requests an update, to the status the column already has |
| TaskBoard.ReplaceTask | frontend/src/components/TaskBoard.jsx:150-152 | Only the tasks with that id are replaced, each by the updated one |
| TaskBoard.RemoveTask | frontend/src/components/TaskBoard.jsx:173 | Exactly the tasks without that id remain, each as many times as before; RemoveTaskAppend gives the order |
| TaskBoard.RemoveTaskAppend | frontend/src/components/TaskBoard.jsx:173 | The filter over two lists joined is the two filters joined, so the kept tasks stay in input order |
| TaskBoard.RemoveAfterReplace | frontend/src/components/TaskBoard.jsx:150-173 | Replacing a task and then deleting it is deleting it |
| TaskBoard.UpdatedTaskShown | frontend/src/components/TaskBoard.jsx:150-155 | After an update the board shows the updated task in its new status's column |

## Left out

- Authentication, sessions and the 401 branches: the requester is an input.
- HTTP plumbing, `populate`, and the response bodies. Errors are codes; only the stored effect is modelled.
- node-cron scheduling, `Date.now()` and `toLocaleDateString`: time is a parameter, and the date text is a parameter function.
- try/catch and logging. Each handler's 500 from an unexpected exception is not modelled, except for a save that fails validation.
- Concurrent requests, and documents deleted between a read and a write.
- The task and project schemas, which are not part of this model. A task keeps what it was created with; the default status list is the one the board's fixtures use.
- TaskController.CreateTask: takes a title, because the task schema's rules for a missing title are not part of this model.
- ProjectController.UpdateProjectOutcome: takes both title and description; a request omitting one of them is not modelled.
- ProjectController.InviteUserOutcome: takes an email; a request without one is not modelled.
- AutomationController.Perform: a status action without a status is modelled as no change, because what saving a task without a status does depends on the task schema.
- Model.ParseTrigger: an explicitly stored `null` condition is modelled as absent, and conditions of other kinds are dropped.
- Model.ParseAction: an explicitly stored `null` parameter is modelled as absent, and parameters of other kinds are dropped.
- TaskBoard.OrganizeTasksByStatus: a status spelled like a built-in object property (such as `constructor`) is treated as an ordinary key.
- ProjectAutomations: in `AutomationController`, lists from the end of the store. That this is the `createdAt` order of `.sort({ createdAt: -1 })` is proved only over a chronological store (`AutomationController.ProjectAutomationsNewestFirst`). Create, update and delete keep the store chronological when `now` is no earlier than every stored rule's `createdAt` (`AutomationController.CreateKeepsChronological`, `UpdateKeepsChronological`, `DeleteKeepsChronological`). The store keeps no clock, so nondecreasing `now` values are assumed, not kept as an invariant; rules with equal `createdAt` are listed latest-stored first, where MongoDB fixes no order.
- Check: in `AutomationController`, uses the corrected assignee test. As written, the `!==` at `automationController.js:31` skips every rule that names a user (`AutomationController.AssigneeVerdictAsWritten`).
- CheckAndTriggerAutomations: in `AutomationController`, runs the runner with the corrected assignee test, not the one written at `automationController.js:31`.
- ExecuteAction: in `AutomationService`, formats with literal replacement and, with the project held as an id, grants a badge at most once. The written code expands `$` patterns (`AutomationService.FormatNotificationMessageAsWritten`); the two agree when no inserted value has a dollar sign.
- SendNotificationEffect: in `AutomationService`, states the record's text as the literal formatter's, which is the source's only when no inserted value has a dollar sign.
- ExecuteAutomationAction: in `AutomationService`, runs the corrected formatter, and its invariant includes unique badges, which the written due-date sweep does not keep.
- SendAutomationNotification: in `AutomationService`, stores the literal formatter's text, which is the source's only when no inserted value has a dollar sign.
- ProcessDueDateAutomations: in `AutomationService`, sweeps with the project held as an id, so a held badge is not re-granted. As written, `automationService.js:120` populates the project and every sweep grants a held badge again (`AutomationService.GrantBadgeAsWritten`), so the unique-badge part of `Db.Store.Valid()` is not what the source keeps.
- UserNotifications: in `NotificationService`, newest first by `createdAt` is proved only over a chronological store (`NotificationService.Chronological`). The store keeps no clock, so that callers pass nondecreasing `now` values is assumed, not kept as an invariant.
- The `getAutomationById`, `getProjectTasks`, `getTaskById` and notification-route handlers, which only read the store.
- The React rendering, axios calls and polling of the front end.
- The seeding script for default automations.

## Findings

| source | as written | input that shows it | evidently intended | confidence | as-written member | corrected member |
|---|---|---|---|---|---|---|
| backend/controller/automationController.js:31 | `assignedTo !== task.assignee.toString()` compares an ObjectId object with a string, which is always unequal | an assignment rule naming user U, fired for a task assigned to U | run the rule when U is the assignee | high, not executed | AutomationController.AssigneeVerdictAsWritten, shown by AutomationController.NamedAssigneeNeverRunsAsWritten | AutomationController.AssigneeVerdict, proved by AutomationController.AssigneeVerdictAgreesWithService |
| backend/service/automationService.js:204-209 | `String.replace` with a string replacement expands `$&`, `$$`, `` $` `` and `$'` in the task's title, status or date | a task titled `$&` with template `{task.title}` yields `{task.title}` | insert the value literally | high, not executed | AutomationService.FormatNotificationMessageAsWritten, shown by AutomationService.DollarTitleIsNotInserted | AutomationService.FormatNotificationMessage, proved by AutomationService.FormatFillsTitle and AutomationService.ReplaceFirstOnlyFirst |
| backend/service/automationService.js:120 | the due-date sweep populates `task.project` and passes the document as the badge's project id, so the duplicate check at 237-239 compares a document's string form with an id and never matches | a due-date badge rule, swept twice over the same overdue, assigned task | grant the badge once per (name, project) | medium, not executed | AutomationService.GrantBadgeAsWritten, shown by AutomationService.GrantBadgeAsWrittenDuplicates and AutomationService.ExecuteActionAsWrittenDuplicatesBadge | AutomationService.GrantBadge, proved by AutomationService.GrantBadgeKeepsUnique and AutomationService.GrantBadgeIdempotent |
