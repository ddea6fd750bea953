/**
 * The documents of the task tracker's store: users with their badges,
 * projects, tasks, notifications, invitations and automations.
 *
 * An automation's trigger and action are closed sum types, one variant per
 * trigger or action kind, each carrying its optional conditions or
 * parameters.  Requests carry the raw `type` string; `ParseTrigger` and
 * `ParseAction` reject the unknown kinds at the store boundary.
 */
module Model {
  import opened Common

  /** Every document id (an ObjectId in the source). */
  type Id = nat

  /** The HTTP status a rejected request gets. */
  datatype Code = BadRequest | Forbidden | NotFound | ServerError

  function HttpStatus(c: Code): (n: int)
    ensures 400 <= n < 600
  {
    match c
    case BadRequest => 400
    case Forbidden => 403
    case NotFound => 404
    case ServerError => 500
  }

  /** The outcome of a request handler that returns no value. */
  datatype Reply = Ok | Err(code: Code)

  /** The outcome of a request handler that returns a value. */
  datatype Result<T> = Success(value: T) | Failure(code: Code)

  // ---------------------------------------------------------------------
  // Users and badges

  datatype Badge = Badge(name: string, projectId: Id, earnedAt: int)

  datatype User = User(displayName: string, email: string, badges: seq<Badge>)

  /** `displayName || email`, how messages name a user. */
  function NameOf(u: User): (r: string)
    ensures r == u.displayName || r == u.email
    ensures u.displayName != "" ==> r == u.displayName
  {
    if u.displayName != "" then u.displayName else u.email
  }

  // ---------------------------------------------------------------------
  // Projects and tasks

  datatype Project = Project(
    title: string,
    description: string,
    owner: Id,
    members: seq<Id>,
    taskStatuses: seq<string>)

  /**
   * The status list a new project starts with.  The project schema is not
   * part of this model; this is the list the board's own fixtures use.
   */
  const DefaultTaskStatuses: seq<string> := ["To Do", "In Progress", "Done"]

  /** The status a task gets when its creation request names none. */
  const DefaultTaskStatus: string := "To Do"

  /** The status the due-date sweeps treat as finished. */
  const DoneStatus: string := "Done"

  /** The handlers' `isOwner || isMember` test: the user owns the project or is listed among its members. */
  predicate IsOwnerOrMember(p: Project, userId: Id)
  {
    p.owner == userId || userId in p.members
  }

  datatype Task = Task(
    id: Id,
    title: string,
    description: Option<string>,
    status: string,
    assignee: Option<Id>,
    dueDate: Option<int>,
    project: Id,
    createdBy: Id,
    updatedAt: int)

  // ---------------------------------------------------------------------
  // Notifications and invitations

  datatype NotificationType =
    | TaskAssignmentNotice
    | TaskStatusUpdateNotice
    | ProjectInvitationNotice
    | AutomationTriggeredNotice

  /** What a caller hands to `createNotification`. */
  datatype NotificationData = NotificationData(
    recipient: Id,
    sender: Id,
    kind: NotificationType,
    taskId: Option<Id>,
    projectId: Option<Id>,
    invitationId: Option<Id>,
    automationId: Option<Id>,
    message: string,
    read: bool)

  /** A stored notification: the data plus the id and `createdAt` the store adds. */
  datatype Notification = Notification(id: Id, data: NotificationData, createdAt: int)

  datatype InvitationStatus = Pending | Accepted | Rejected

  datatype Invitation = Invitation(
    id: Id,
    project: Id,
    sender: Id,
    recipient: Id,
    status: InvitationStatus,
    createdAt: int)

  // ---------------------------------------------------------------------
  // Automations

  datatype Trigger =
    | TaskStatusChange(fromStatus: Option<string>, toStatus: Option<string>)
    | TaskAssignment(userId: Option<Id>)
    | TaskDueDatePassed

  datatype Action =
    | AssignBadge(badgeName: Option<string>)
    | ChangeTaskStatus(status: Option<string>)
    | SendNotification(notificationMessage: Option<string>)

  datatype Automation = Automation(
    id: Id,
    project: Id,
    name: string,
    active: bool,
    trigger: Trigger,
    action: Action,
    createdBy: Id,
    createdAt: int,
    updatedAt: int)

  const TriggerTypes: seq<string> := ["task_status_change", "task_assignment", "task_due_date_passed"]
  const ActionTypes: seq<string> := ["assign_badge", "change_task_status", "send_notification"]

  /** The `trigger.type` string stored for a trigger: one of the schema's enum values. */
  function TriggerTypeName(t: Trigger): (r: string)
    ensures r in TriggerTypes
  {
    match t
    case TaskStatusChange(_, _) => "task_status_change"
    case TaskAssignment(_) => "task_assignment"
    case TaskDueDatePassed => "task_due_date_passed"
  }

  /** The `action.type` string stored for an action: one of the schema's enum values. */
  function ActionTypeName(a: Action): (r: string)
    ensures r in ActionTypes
  {
    match a
    case AssignBadge(_) => "assign_badge"
    case ChangeTaskStatus(_) => "change_task_status"
    case SendNotification(_) => "send_notification"
  }

  /** A trigger as a request body carries it: a `type` string and a bag of conditions. */
  datatype TriggerRequest = TriggerRequest(
    kind: string,
    fromStatus: Option<string>,
    toStatus: Option<string>,
    userId: Option<Id>)

  /** An action as a request body carries it: a `type` string and a bag of parameters. */
  datatype ActionRequest = ActionRequest(
    kind: string,
    badgeName: Option<string>,
    status: Option<string>,
    notificationMessage: Option<string>)

  /** The schema's trigger enumeration: known kinds only, with the conditions that kind reads. */
  function ParseTrigger(r: TriggerRequest): (t: Option<Trigger>)
    ensures t.Some? <==> r.kind in TriggerTypes
    ensures t.Some? ==> TriggerTypeName(t.value) == r.kind
    ensures t.Some? && t.value.TaskStatusChange? ==>
              t.value.fromStatus == r.fromStatus && t.value.toStatus == r.toStatus
    ensures t.Some? && t.value.TaskAssignment? ==> t.value.userId == r.userId
  {
    if r.kind == "task_status_change" then Some(TaskStatusChange(r.fromStatus, r.toStatus))
    else if r.kind == "task_assignment" then Some(TaskAssignment(r.userId))
    else if r.kind == "task_due_date_passed" then Some(TaskDueDatePassed)
    else None
  }

  /** The schema's action enumeration: known kinds only, with the parameter that kind reads. */
  function ParseAction(r: ActionRequest): (a: Option<Action>)
    ensures a.Some? <==> r.kind in ActionTypes
    ensures a.Some? ==> ActionTypeName(a.value) == r.kind
    ensures a.Some? && a.value.AssignBadge? ==> a.value.badgeName == r.badgeName
    ensures a.Some? && a.value.ChangeTaskStatus? ==> a.value.status == r.status
    ensures a.Some? && a.value.SendNotification? ==> a.value.notificationMessage == r.notificationMessage
  {
    if r.kind == "assign_badge" then Some(AssignBadge(r.badgeName))
    else if r.kind == "change_task_status" then Some(ChangeTaskStatus(r.status))
    else if r.kind == "send_notification" then Some(SendNotification(r.notificationMessage))
    else None
  }

  /** A trigger written back as the request body that would create it. */
  function TriggerRequestOf(t: Trigger): TriggerRequest
  {
    match t
    case TaskStatusChange(f, to) => TriggerRequest("task_status_change", f, to, None)
    case TaskAssignment(u) => TriggerRequest("task_assignment", None, None, u)
    case TaskDueDatePassed => TriggerRequest("task_due_date_passed", None, None, None)
  }

  /** An action written back as the request body that would create it. */
  function ActionRequestOf(a: Action): ActionRequest
  {
    match a
    case AssignBadge(b) => ActionRequest("assign_badge", b, None, None)
    case ChangeTaskStatus(s) => ActionRequest("change_task_status", None, s, None)
    case SendNotification(m) => ActionRequest("send_notification", None, None, m)
  }

  /** Every trigger survives the trip through a request body. */
  lemma TriggerRoundTrip(t: Trigger)
    ensures ParseTrigger(TriggerRequestOf(t)) == Some(t)
  {
    match t
    case TaskStatusChange(_, _) =>
    case TaskAssignment(_) =>
    case TaskDueDatePassed =>
  }

  /** Every action survives the trip through a request body. */
  lemma ActionRoundTrip(a: Action)
    ensures ParseAction(ActionRequestOf(a)) == Some(a)
  {
    match a
    case AssignBadge(_) =>
    case ChangeTaskStatus(_) =>
    case SendNotification(_) =>
  }

  // ---------------------------------------------------------------------
  // The `trim` setter on an automation's name

  /** The white space and line terminators `String.prototype.trim` removes. */
  predicate IsTrimmable(c: char)
  {
    c == ' ' || c == '\t' || c == '\n' || c == '\r' || c == '\U{000B}' || c == '\U{000C}'
    || c == '\U{00A0}' || c == '\U{1680}' || ('\U{2000}' <= c <= '\U{200A}')
    || c == '\U{2028}' || c == '\U{2029}' || c == '\U{202F}' || c == '\U{205F}'
    || c == '\U{3000}' || c == '\U{FEFF}'
  }

  /** Every character of `s[lo..hi]` is trimmable white space. */
  predicate AllTrimmable(s: string, lo: int, hi: int)
    requires 0 <= lo <= hi <= |s|
  {
    forall k :: lo <= k < hi ==> IsTrimmable(s[k])
  }

  /** Scanning forward from `i`: the first index at or after `i` that is not trimmable white space, or `|s|`. */
  function TextStart(s: string, i: nat): (k: nat)
    requires i <= |s|
    ensures i <= k <= |s| && AllTrimmable(s, i, k)
    ensures k == |s| || !IsTrimmable(s[k])
    decreases |s| - i
  {
    if i < |s| && IsTrimmable(s[i]) then TextStart(s, i + 1) else i
  }

  /** Scanning backward from `j` down to `lo`: the end of the text before the trailing white space. */
  function TextEnd(s: string, lo: nat, j: nat): (k: nat)
    requires lo <= j <= |s|
    ensures lo <= k <= j && AllTrimmable(s, k, j)
    ensures k == lo || !IsTrimmable(s[k - 1])
  {
    if lo < j && IsTrimmable(s[j - 1]) then TextEnd(s, lo, j - 1) else j
  }

  /** `r` is `s[i..j]`, and everything outside `[i, j)` is trimmable white space. */
  predicate TrimmedSlice(s: string, r: string, i: int, j: int)
  {
    0 <= i <= j <= |s| && r == s[i..j] && AllTrimmable(s, 0, i) && AllTrimmable(s, j, |s|)
  }

  /**
   * `s.trim()`: the longest slice of `s` that neither starts nor ends with
   * trimmable white space, obtained by dropping only trimmable characters.
   */
  function Trim(s: string): (r: string)
    ensures exists i, j :: TrimmedSlice(s, r, i, j)
    ensures r == [] || (!IsTrimmable(r[0]) && !IsTrimmable(r[|r| - 1]))
  {
    var i := TextStart(s, 0);
    var j := TextEnd(s, i, |s|);
    assert TrimmedSlice(s, s[i..j], i, j);
    s[i..j]
  }

  lemma TrimIdempotent(s: string)
    ensures Trim(Trim(s)) == Trim(s)
  {
    var r := Trim(s);
    assert TextStart(r, 0) == 0;
    assert TextEnd(r, 0, |r|) == |r|;
    assert r[0..|r|] == r;
  }

  // ---------------------------------------------------------------------
  // Saving a new automation document

  /** The schema's default for `active`. */
  const DefaultActive: bool := true

  /**
   * `new Automation({...}).save()`: the `trim` setter runs on the name, the
   * required `name` must then be non-empty (a validation error otherwise,
   * which the handler reports as 500), `active` takes its default when not
   * given, and the pre-save hook stamps `updatedAt` with the current time.
   */
  function NewAutomation(id: Id, project: Id, name: Option<string>, active: Option<bool>,
                         trigger: Trigger, action: Action, createdBy: Id, now: int): (r: Result<Automation>)
    ensures r.Success? <==> name.Some? && Trim(name.value) != ""
    ensures r.Failure? ==> r.code == ServerError
    ensures r.Success? ==>
              && r.value.id == id && r.value.project == project && r.value.createdBy == createdBy
              && r.value.name == Trim(name.value)
              && r.value.trigger == trigger && r.value.action == action
              && r.value.active == (if active.Some? then active.value else DefaultActive)
              && r.value.createdAt == now && r.value.updatedAt == now
  {
    if name.None? || Trim(name.value) == "" then Failure(ServerError)
    else
      Success(Automation(id, project, Trim(name.value),
                         if active.Some? then active.value else DefaultActive,
                         trigger, action, createdBy, now, now))
  }
}
