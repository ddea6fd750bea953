/**
 * The automation HTTP handlers and the second, in-memory automation runner
 * that lives beside them: its own condition matching, its own action
 * executor, and the hourly due-date job.
 *
 * The runner is independent of the service-layer engine and disagrees with
 * it in three places, each stated as a lemma here: an unconditioned status
 * trigger, the comparison of a named assignee, and the fact that only the
 * status action does anything.
 */
module AutomationController {
  import opened Common
  import opened Model
  import opened Db
  import AutomationService

  // ---------------------------------------------------------------------
  // Matching in checkAndTriggerAutomations

  /** The `changes` argument of an event: the statuses before and after, when known. */
  datatype Changes = Changes(fromStatus: Option<string>, toStatus: Option<string>)

  /** What one automation does in the runner's loop. */
  datatype Verdict = Run | Skip | Crash

  /** A present, non-empty condition must equal the change; an absent or empty one matches anything. */
  predicate StatusConditionsHold(fromStatus: Option<string>, toStatus: Option<string>, changes: Changes)
  {
    && !(Truthy(fromStatus) && fromStatus != changes.fromStatus)
    && !(Truthy(toStatus) && toStatus != changes.toStatus)
  }

  /**
   * The assignee test as written: `trigger.conditions.userId` is an ObjectId
   * and `task.assignee.toString()` a string, so `!==` holds whenever a user
   * is named; with no assignee the `toString` call throws.
   */
  function AssigneeVerdictAsWritten(userId: Option<Id>, assignee: Option<Id>): (v: Verdict)
    ensures v == Run <==> userId.None?
    ensures v == Crash <==> userId.Some? && assignee.None?
  {
    if userId.None? then Run
    else if assignee.None? then Crash
    else Skip
  }

  /** The assignee test as intended: a named user must be the assignee. */
  function AssigneeVerdict(userId: Option<Id>, assignee: Option<Id>): (v: Verdict)
    ensures v == Run <==> userId.None? || (assignee.Some? && userId == assignee)
    ensures v == Crash <==> userId.Some? && assignee.None?
  {
    if userId.None? then Run
    else if assignee.None? then Crash
    else if userId.value == assignee.value then Run
    else Skip
  }

  /** As written, naming a user in an assignment trigger means it never runs. */
  lemma NamedAssigneeNeverRunsAsWritten(userId: Option<Id>, assignee: Option<Id>)
    requires userId.Some?
    ensures AssigneeVerdictAsWritten(userId, assignee) != Run
    ensures assignee == userId ==> AssigneeVerdict(userId, assignee) == Run
  {
  }

  /** The corrected test selects, for an assigned task, exactly what the service's assignment query selects. */
  lemma AssigneeVerdictAgreesWithService(a: Automation, assignee: Id)
    requires a.trigger.TaskAssignment?
    ensures AssigneeVerdict(a.trigger.userId, Some(assignee)) == Run <==>
              AutomationService.SelectedForAssignment(a.(active := true), a.project, assignee)
  {
  }

  /** The condition check for `eventType`, given the task as the loop currently holds it. */
  function Check(a: Automation, eventType: string, task: Task, changes: Changes, now: int): (v: Verdict)
    ensures v == Crash ==> eventType == "task_assignment" && task.assignee.None?
    ensures eventType == "task_due_date_passed" ==>
              (v == Skip <==> task.dueDate.Some? && task.dueDate.value > now)
  {
    if eventType == "task_status_change" then
      (if a.trigger.TaskStatusChange? && !StatusConditionsHold(a.trigger.fromStatus, a.trigger.toStatus, changes)
       then Skip else Run)
    else if eventType == "task_assignment" then
      (if a.trigger.TaskAssignment? then AssigneeVerdict(a.trigger.userId, task.assignee) else Run)
    else if eventType == "task_due_date_passed" then
      (if task.dueDate.Some? && task.dueDate.value > now then Skip else Run)
    else Run
  }

  // ---------------------------------------------------------------------
  // The two matchers side by side

  /** An unconditioned status trigger matches every change here, and no change in the service. */
  lemma UnconditionedStatusTriggerDisagreement(changes: Changes, previousStatus: string, status: string)
    ensures StatusConditionsHold(None, None, changes)
    ensures !AutomationService.StatusQueryMatches(None, None, previousStatus, status)
  {
  }

  /**
   * Otherwise they agree: with at least one end named, no end empty, and
   * both statuses of the change known, the runner's test and the service's
   * query select the same triggers.
   */
  lemma MatchersAgreeOnConditionedTriggers(fromStatus: Option<string>, toStatus: Option<string>,
                                           previousStatus: string, status: string)
    requires fromStatus.Some? || toStatus.Some?
    requires fromStatus != Some("") && toStatus != Some("")
    ensures StatusConditionsHold(fromStatus, toStatus, Changes(Some(previousStatus), Some(status)))
        <==> AutomationService.StatusQueryMatches(fromStatus, toStatus, previousStatus, status)
  {
  }

  // ---------------------------------------------------------------------
  // performAutomationAction

  /** `task.status = s; task.save()`: the stored task takes the new status; nothing else is written. */
  function SaveStatus(ts: seq<Task>, id: Id, status: string): (r: seq<Task>)
    ensures |r| == |ts|
    ensures forall i :: 0 <= i < |ts| ==> r[i] == if ts[i].id == id then ts[i].(status := status) else ts[i]
  {
    seq(|ts|, i requires 0 <= i < |ts| => if ts[i].id == id then ts[i].(status := status) else ts[i])
  }

  /** The store and the in-memory task document after one action. */
  datatype Step = Step(world: World, task: Task)

  /**
   * `performAutomationAction(action, task)`: only a status change has an
   * effect; the badge and notification branches only log.
   */
  function Perform(w: World, action: Action, task: Task): (r: Step)
    ensures r.world == w.(tasks := r.world.tasks)
    ensures r.task == task.(status := r.task.status)
    ensures !(action.ChangeTaskStatus? && action.status.Some?) ==> r == Step(w, task)
    ensures action.ChangeTaskStatus? && action.status.Some? ==>
              r.task.status == action.status.value && r.world.tasks == SaveStatus(w.tasks, task.id, action.status.value)
  {
    match action
    case ChangeTaskStatus(Some(status)) => Step(w.(tasks := SaveStatus(w.tasks, task.id, status)), task.(status := status))
    case _ => Step(w, task)
  }

  lemma SaveStatusKeepsIds(ts: seq<Task>, id: Id, status: string)
    ensures TaskIds(SaveStatus(ts, id, status)) == TaskIds(ts)
  {
  }

  method PerformAutomationAction(s: Store, action: Action, task: Task) returns (task': Task)
    requires s.Valid()
    modifies s
    ensures s.Valid()
    ensures Step(s.Model(), task') == Perform(old(s.Model()), action, task)
  {
    task' := task;
    if action.ChangeTaskStatus? && action.status.Some? {
      SaveStatusKeepsIds(s.tasks, task.id, action.status.value);
      task' := task.(status := action.status.value);
      s.tasks := SaveStatus(s.tasks, task.id, action.status.value);
    }
  }

  // ---------------------------------------------------------------------
  // checkAndTriggerAutomations

  /** The runner's query as a test on one rule: of the project, active, and triggered by the event. */
  predicate SelectedForEvent(a: Automation, project: Id, eventType: string)
  {
    a.project == project && a.active && TriggerTypeName(a.trigger) == eventType
  }

  /** `Automation.find({ project, 'trigger.type': eventType, active: true })`, in store order. */
  function SelectForEvent(as_: seq<Automation>, project: Id, eventType: string): (r: seq<Automation>)
    ensures forall a :: a in r <==> a in as_ && SelectedForEvent(a, project, eventType)
    ensures Filtered(r, as_, (a: Automation) => SelectedForEvent(a, project, eventType))
  {
    if as_ == [] then []
    else
      assert as_ == [as_[0]] + as_[1..];
      (if SelectedForEvent(as_[0], project, eventType) then [as_[0]] else [])
      + SelectForEvent(as_[1..], project, eventType)
  }

  /** In a valid store the runner meets each matching rule once. */
  lemma SelectForEventOnce(w: World, project: Id, eventType: string)
    requires WorldValid(w)
    ensures NoDuplicates(SelectForEvent(w.automations, project, eventType))
  {
    DistinctIdsDistinctRecords(w);
    SubMultisetNoDuplicates(SelectForEvent(w.automations, project, eventType), w.automations);
  }

  /** Where the runner's loop has got to; `crashed` once an exception has ended it. */
  datatype RunState = RunState(world: World, task: Task, crashed: bool)

  function RunEvent(w: World, as_: seq<Automation>, eventType: string, task: Task, changes: Changes, now: int): (r: RunState)
    decreases |as_|
  {
    if as_ == [] then RunState(w, task, false)
    else
      var st := RunEvent(w, as_[..|as_| - 1], eventType, task, changes, now);
      var a := as_[|as_| - 1];
      if st.crashed then st
      else match Check(a, eventType, st.task, changes, now)
        case Crash => RunState(st.world, st.task, true)
        case Skip => st
        case Run =>
          var p := Perform(st.world, a.action, st.task);
          RunState(p.world, p.task, false)
  }

  /** The runner changes task statuses and nothing else: no badge, no notification, no other field. */
  lemma {:induction false} RunEventOnlyStatuses(w: World, as_: seq<Automation>, eventType: string, task: Task, changes: Changes, now: int)
    ensures var r := RunEvent(w, as_, eventType, task, changes, now);
            && r.world == w.(tasks := r.world.tasks)
            && |r.world.tasks| == |w.tasks|
            && (forall i :: 0 <= i < |w.tasks| ==> r.world.tasks[i] == w.tasks[i].(status := r.world.tasks[i].status))
            && r.task == task.(status := r.task.status)
    decreases |as_|
  {
    if as_ != [] {
      RunEventOnlyStatuses(w, as_[..|as_| - 1], eventType, task, changes, now);
    }
  }

  /** Only an assignment event on an unassigned task can end the loop early. */
  lemma {:induction false} RunEventCrashOnlyOnUnassigned(w: World, as_: seq<Automation>, eventType: string, task: Task, changes: Changes, now: int)
    requires eventType != "task_assignment" || task.assignee.Some?
    ensures !RunEvent(w, as_, eventType, task, changes, now).crashed
    decreases |as_|
  {
    if as_ != [] {
      RunEventCrashOnlyOnUnassigned(w, as_[..|as_| - 1], eventType, task, changes, now);
      RunEventOnlyStatuses(w, as_[..|as_| - 1], eventType, task, changes, now);
    }
  }

  lemma {:induction false} RunEventCrashedStays(w: World, as_: seq<Automation>, k: nat, eventType: string, task: Task, changes: Changes, now: int)
    requires k <= |as_|
    requires RunEvent(w, as_[..k], eventType, task, changes, now).crashed
    ensures RunEvent(w, as_, eventType, task, changes, now) == RunEvent(w, as_[..k], eventType, task, changes, now)
    decreases |as_| - k
  {
    if k < |as_| {
      assert as_[..k + 1][..k] == as_[..k];
      RunEventCrashedStays(w, as_, k + 1, eventType, task, changes, now);
    } else {
      assert as_[..k] == as_;
    }
  }

  /** One more rule for a loop that has not crashed: it throws, is skipped, or runs its action on the task as the loop holds it. */
  lemma RunEventNext(w: World, as_: seq<Automation>, i: nat, eventType: string, task: Task, changes: Changes, now: int)
    requires i < |as_|
    requires !RunEvent(w, as_[..i], eventType, task, changes, now).crashed
    ensures var st := RunEvent(w, as_[..i], eventType, task, changes, now);
            var v := Check(as_[i], eventType, st.task, changes, now);
            && (v == Crash ==> RunEvent(w, as_[..i + 1], eventType, task, changes, now) == RunState(st.world, st.task, true))
            && (v == Skip ==> RunEvent(w, as_[..i + 1], eventType, task, changes, now) == st)
            && (v == Run ==>
                  var p := Perform(st.world, as_[i].action, st.task);
                  RunEvent(w, as_[..i + 1], eventType, task, changes, now) == RunState(p.world, p.task, false))
  {
    TakeNext(as_, i);
  }

  /** `checkAndTriggerAutomations(eventType, task, changes)`; `crashed` reports the rejected promise. */
  method CheckAndTriggerAutomations(s: Store, eventType: string, task: Task, changes: Changes, now: int) returns (crashed: bool)
    requires s.Valid()
    modifies s
    ensures s.Valid()
    ensures var r := RunEvent(old(s.Model()), SelectForEvent(old(s.automations), task.project, eventType),
                              eventType, task, changes, now);
            s.Model() == r.world && crashed == r.crashed
  {
    ghost var w0 := s.Model();
    var automations := SelectForEvent(s.automations, task.project, eventType);
    var current := task;
    var i := 0;
    while i < |automations|
      invariant 0 <= i <= |automations|
      invariant s.Valid()
      invariant RunEvent(w0, automations[..i], eventType, task, changes, now) == RunState(s.Model(), current, false)
    {
      var a := automations[i];
      RunEventNext(w0, automations, i, eventType, task, changes, now);
      var v := Check(a, eventType, current, changes, now);
      if v == Crash {
        RunEventCrashedStays(w0, automations, i + 1, eventType, task, changes, now);
        return true;
      }
      if v == Skip {
        i := i + 1;
        continue;
      }
      current := PerformAutomationAction(s, a.action, current);
      i := i + 1;
    }
    assert automations[..i] == automations;
    crashed := false;
  }

  // ---------------------------------------------------------------------
  // The hourly job

  const DueDateEvent: string := "task_due_date_passed"

  /** Where the job has got to: the store so far, and whether an exception has ended it. */
  datatype JobState = JobState(world: World, crashed: bool)

  /** One run of the job over a snapshot of overdue tasks; an exception would end it. */
  function Cron(w: World, overdue: seq<Task>, now: int): (r: JobState)
    decreases |overdue|
  {
    if overdue == [] then JobState(w, false)
    else
      var st := Cron(w, overdue[..|overdue| - 1], now);
      var t := overdue[|overdue| - 1];
      if st.crashed then st
      else
        var e := RunEvent(st.world, SelectForEvent(st.world.automations, t.project, DueDateEvent), DueDateEvent, t, Changes(None, None), now);
        JobState(e.world, e.crashed)
  }

  /** One more task of the job, while it has not crashed. */
  lemma CronNext(w: World, overdue: seq<Task>, i: nat, now: int)
    requires i < |overdue|
    requires !Cron(w, overdue[..i], now).crashed
    ensures var st := Cron(w, overdue[..i], now);
            var e := RunEvent(st.world, SelectForEvent(st.world.automations, overdue[i].project, DueDateEvent),
                              DueDateEvent, overdue[i], Changes(None, None), now);
            Cron(w, overdue[..i + 1], now) == JobState(e.world, e.crashed)
  {
    TakeNext(overdue, i);
  }

  /** The job's due-date test never skips: every task it visits is already past its due date. */
  lemma CronNeverSkips(a: Automation, ts: seq<Task>, t: Task, now: int)
    requires t in AutomationService.OverdueTasks(ts, now)
    ensures Check(a, DueDateEvent, t, Changes(None, None), now) == Run
  {
  }

  /** The job visits every overdue task: a due-date event never throws. */
  lemma {:induction false} CronNeverCrashes(w: World, overdue: seq<Task>, now: int)
    ensures !Cron(w, overdue, now).crashed
    decreases |overdue|
  {
    if overdue != [] {
      var st := Cron(w, overdue[..|overdue| - 1], now);
      CronNeverCrashes(w, overdue[..|overdue| - 1], now);
      var t := overdue[|overdue| - 1];
      RunEventCrashOnlyOnUnassigned(st.world, SelectForEvent(st.world.automations, t.project, DueDateEvent),
                                    DueDateEvent, t, Changes(None, None), now);
    }
  }

  /** The cron body: `checkAndTriggerAutomations('task_due_date_passed', task)` for each overdue task. */
  method CronSweep(s: Store, now: int)
    requires s.Valid()
    modifies s
    ensures s.Valid()
    ensures s.Model() == Cron(old(s.Model()), AutomationService.OverdueTasks(old(s.tasks), now), now).world
  {
    ghost var w0 := s.Model();
    var overdue := AutomationService.OverdueTasks(s.tasks, now);
    var i := 0;
    while i < |overdue|
      invariant 0 <= i <= |overdue|
      invariant s.Valid()
      invariant Cron(w0, overdue[..i], now).world == s.Model() && !Cron(w0, overdue[..i], now).crashed
    {
      CronNext(w0, overdue, i, now);
      var crashed := CheckAndTriggerAutomations(s, DueDateEvent, overdue[i], Changes(None, None), now);
      CronNeverCrashes(w0, overdue[..i + 1], now);
      i := i + 1;
    }
    assert overdue[..i] == overdue;
  }

  // ---------------------------------------------------------------------
  // Rule validation shared by create and update

  /** Status conditions of a status trigger, when present and non-empty, must be statuses of the project. */
  predicate TriggerStatusesValid(t: TriggerRequest, statuses: seq<string>)
  {
    t.kind == "task_status_change" ==>
      && (Truthy(t.fromStatus) ==> t.fromStatus.value in statuses)
      && (Truthy(t.toStatus) ==> t.toStatus.value in statuses)
  }

  /** A status action must name a status of the project. */
  predicate ActionStatusValid(a: ActionRequest, statuses: seq<string>)
  {
    a.kind == "change_task_status" ==> Truthy(a.status) && a.status.value in statuses
  }

  /** The 400 checks of `createAutomation`: both parts present, known kinds, and the statuses valid. */
  function ValidateRule(trigger: Option<TriggerRequest>, action: Option<ActionRequest>, statuses: seq<string>): (r: Option<(Trigger, Action)>)
    ensures r.Some? <==>
              && trigger.Some? && trigger.value.kind in TriggerTypes
              && action.Some? && action.value.kind in ActionTypes
              && TriggerStatusesValid(trigger.value, statuses) && ActionStatusValid(action.value, statuses)
    ensures r.Some? ==> Some(r.value.0) == ParseTrigger(trigger.value) && Some(r.value.1) == ParseAction(action.value)
  {
    if trigger.None? || action.None? then None
    else match (ParseTrigger(trigger.value), ParseAction(action.value))
      case (Some(t), Some(a)) =>
        if TriggerStatusesValid(trigger.value, statuses) && ActionStatusValid(action.value, statuses) then Some((t, a)) else None
      case _ => None
  }

  /** A stored status-change rule names only statuses of its project. */
  lemma ValidRuleUsesProjectStatuses(trigger: Option<TriggerRequest>, action: Option<ActionRequest>, statuses: seq<string>)
    requires ValidateRule(trigger, action, statuses).Some?
    ensures var (t, a) := ValidateRule(trigger, action, statuses).value;
            && (t.TaskStatusChange? && Truthy(t.fromStatus) ==> t.fromStatus.value in statuses)
            && (t.TaskStatusChange? && Truthy(t.toStatus) ==> t.toStatus.value in statuses)
            && (a.ChangeTaskStatus? ==> a.status.Some? && a.status.value in statuses)
  {
  }

  // ---------------------------------------------------------------------
  // createAutomation

  datatype CreateRequest = CreateRequest(
    projectId: Id,
    name: Option<string>,
    trigger: Option<TriggerRequest>,
    action: Option<ActionRequest>)

  /**
   * `createAutomation`: 404 for an unknown project, 403 unless the requester
   * owns it, 400 for an invalid rule, 500 when saving fails (a missing or
   * blank name); otherwise the new, active automation is appended.
   */
  function CreateAutomationOutcome(w: World, requester: Id, req: CreateRequest, now: int): (r: Outcome)
    ensures r.reply == Err(NotFound) <==> req.projectId !in w.projects
    ensures r.reply == Err(Forbidden) <==> req.projectId in w.projects && w.projects[req.projectId].owner != requester
    ensures r.reply == Err(BadRequest) <==>
              && req.projectId in w.projects && w.projects[req.projectId].owner == requester
              && ValidateRule(req.trigger, req.action, w.projects[req.projectId].taskStatuses).None?
    ensures r.reply == Err(ServerError) <==>
              && req.projectId in w.projects && w.projects[req.projectId].owner == requester
              && ValidateRule(req.trigger, req.action, w.projects[req.projectId].taskStatuses).Some?
              && (req.name.None? || Trim(req.name.value) == "")
    ensures r.reply == Ok <==>
              && req.projectId in w.projects && w.projects[req.projectId].owner == requester
              && ValidateRule(req.trigger, req.action, w.projects[req.projectId].taskStatuses).Some?
              && req.name.Some? && Trim(req.name.value) != ""
    ensures r.reply.Err? ==> r.world == w
    ensures r.reply == Ok ==>
              && r.world == w.(automations := r.world.automations, nextId := w.nextId + 1)
              && |r.world.automations| == |w.automations| + 1
              && r.world.automations[..|w.automations|] == w.automations
              && var a := r.world.automations[|w.automations|];
                 && a.id == w.nextId && a.project == req.projectId && a.createdBy == requester
                 && a.name == Trim(req.name.value)
                 && a.active && a.createdAt == now && a.updatedAt == now
                 && Some(a.trigger) == ParseTrigger(req.trigger.value) && Some(a.action) == ParseAction(req.action.value)
  {
    if req.projectId !in w.projects then Reject(w, NotFound)
    else
      var p := w.projects[req.projectId];
      if p.owner != requester then Reject(w, Forbidden)
      else match ValidateRule(req.trigger, req.action, p.taskStatuses)
        case None => Reject(w, BadRequest)
        case Some((t, a)) =>
          match NewAutomation(w.nextId, req.projectId, req.name, Some(true), t, a, requester, now)
          case Failure(c) => Reject(w, c)
          case Success(auto) => Outcome(Ok, w.(automations := w.automations + [auto], nextId := w.nextId + 1))
  }

  lemma AutomationIdsAppend(as_: seq<Automation>, a: Automation)
    ensures AutomationIds(as_ + [a]) == AutomationIds(as_) + [a.id]
  {
  }

  lemma CreateAutomationKeepsValid(w: World, requester: Id, req: CreateRequest, now: int)
    requires WorldValid(w)
    ensures WorldValid(CreateAutomationOutcome(w, requester, req, now).world)
  {
    var r := CreateAutomationOutcome(w, requester, req, now);
    if r.reply == Ok {
      AutomationIdsAppend(w.automations, r.world.automations[|w.automations|]);
      assert r.world.automations == w.automations + [r.world.automations[|w.automations|]];
      IssueNext(AutomationIds(w.automations), w.nextId);
      IssuedLater(TaskIds(w.tasks), w.nextId, w.nextId + 1);
      IssuedLater(NotificationIds(w.notifications), w.nextId, w.nextId + 1);
      IssuedLater(InvitationIds(w.invitations), w.nextId, w.nextId + 1);
    }
  }

  method CreateAutomation(s: Store, requester: Id, req: CreateRequest, now: int) returns (r: Reply)
    requires s.Valid()
    modifies s
    ensures s.Valid()
    ensures var o := CreateAutomationOutcome(old(s.Model()), requester, req, now);
            r == o.reply && s.Model() == o.world
  {
    CreateAutomationKeepsValid(s.Model(), requester, req, now);
    if req.projectId !in s.projects {
      return Err(NotFound);
    }
    var project := s.projects[req.projectId];
    if project.owner != requester {
      return Err(Forbidden);
    }
    var rule := ValidateRule(req.trigger, req.action, project.taskStatuses);
    if rule.None? {
      return Err(BadRequest);
    }
    var saved := NewAutomation(s.nextId, req.projectId, req.name, Some(true), rule.value.0, rule.value.1, requester, now);
    if saved.Failure? {
      return Err(saved.code);
    }
    s.automations := s.automations + [saved.value];
    s.nextId := s.nextId + 1;
    r := Ok;
  }

  // ---------------------------------------------------------------------
  // getProjectAutomations

  /** The project's automations, most recently created first. */
  function ProjectAutomations(as_: seq<Automation>, projectId: Id): (r: seq<Automation>)
    ensures forall a :: a in r <==> a in as_ && a.project == projectId
    ensures Filtered(r, as_, (a: Automation) => a.project == projectId)
  {
    if as_ == [] then []
    else
      assert as_ == as_[..|as_| - 1] + [as_[|as_| - 1]];
      (if as_[|as_| - 1].project == projectId then [as_[|as_| - 1]] else [])
      + ProjectAutomations(as_[..|as_| - 1], projectId)
  }

  /** In a valid store the listing shows each rule once. */
  lemma ProjectAutomationsOnce(w: World, projectId: Id)
    requires WorldValid(w)
    ensures NoDuplicates(ProjectAutomations(w.automations, projectId))
  {
    DistinctIdsDistinctRecords(w);
    SubMultisetNoDuplicates(ProjectAutomations(w.automations, projectId), w.automations);
  }

  /** Creation times never decrease along the store: each rule was created no earlier than the one before it. */
  predicate AutomationsChronological(as_: seq<Automation>)
  {
    forall i, j :: 0 <= i < j < |as_| ==> as_[i].createdAt <= as_[j].createdAt
  }

  /** The order `.sort({ createdAt: -1 })` produces: creation times never increase along the listing. */
  predicate NewestRulesFirst(r: seq<Automation>)
  {
    forall i, j :: 0 <= i < j < |r| ==> r[i].createdAt >= r[j].createdAt
  }

  /**
   * `.sort({ createdAt: -1 })`: over a chronological store the listing,
   * taken from the end of the store, is in decreasing `createdAt` order.
   */
  lemma {:induction false} ProjectAutomationsNewestFirst(as_: seq<Automation>, projectId: Id)
    requires AutomationsChronological(as_)
    ensures NewestRulesFirst(ProjectAutomations(as_, projectId))
  {
    if as_ != [] {
      var init := as_[..|as_| - 1];
      assert AutomationsChronological(init);
      ProjectAutomationsNewestFirst(init, projectId);
      var last := as_[|as_| - 1];
      var rest := ProjectAutomations(init, projectId);
      if last.project == projectId {
        forall b | b in rest ensures b.createdAt <= last.createdAt {
          var k :| 0 <= k < |init| && init[k] == b;
          assert as_[k] == b;
        }
        NewerRuleInFront(last, rest);
      }
    }
  }

  /** Putting a rule no older than every listed one in front keeps the listing newest first. */
  lemma NewerRuleInFront(a: Automation, rest: seq<Automation>)
    requires NewestRulesFirst(rest)
    requires forall b :: b in rest ==> b.createdAt <= a.createdAt
    ensures NewestRulesFirst([a] + rest)
  {
    forall i, j | 0 <= i < j < |[a] + rest| ensures ([a] + rest)[i].createdAt >= ([a] + rest)[j].createdAt {
      assert ([a] + rest)[j] == rest[j - 1];
      if i > 0 {
        assert ([a] + rest)[i] == rest[i - 1];
      }
    }
  }

  /** A rule created at a time no earlier than every stored one keeps the store chronological. */
  lemma CreateKeepsChronological(w: World, requester: Id, req: CreateRequest, now: int)
    requires AutomationsChronological(w.automations)
    requires forall a :: a in w.automations ==> a.createdAt <= now
    ensures AutomationsChronological(CreateAutomationOutcome(w, requester, req, now).world.automations)
  {
    var as_ := CreateAutomationOutcome(w, requester, req, now).world.automations;
    if CreateAutomationOutcome(w, requester, req, now).reply == Ok {
      forall i, j | 0 <= i < j < |as_| ensures as_[i].createdAt <= as_[j].createdAt {
        assert as_[i] == w.automations[i];
        if j < |w.automations| {
          assert as_[j] == w.automations[j];
        } else {
          assert w.automations[i] in w.automations;
        }
      }
    }
  }

  /** `getProjectAutomations`: 404 for an unknown project, 403 for anyone but its owner and members. */
  function GetProjectAutomations(w: World, requester: Id, projectId: Id): (r: Result<seq<Automation>>)
    ensures r == Failure(NotFound) <==> projectId !in w.projects
    ensures r == Failure(Forbidden) <==> projectId in w.projects && !IsOwnerOrMember(w.projects[projectId], requester)
    ensures r.Success? <==> projectId in w.projects && IsOwnerOrMember(w.projects[projectId], requester)
    ensures r.Success? ==> forall a :: a in r.value <==> a in w.automations && a.project == projectId
    ensures r.Success? ==> Filtered(r.value, w.automations, (a: Automation) => a.project == projectId)
    ensures r.Success? && AutomationsChronological(w.automations) ==> NewestRulesFirst(r.value)
  {
    if projectId !in w.projects then Failure(NotFound)
    else if !IsOwnerOrMember(w.projects[projectId], requester) then Failure(Forbidden)
    else
      assert AutomationsChronological(w.automations) ==> NewestRulesFirst(ProjectAutomations(w.automations, projectId)) by {
        if AutomationsChronological(w.automations) {
          ProjectAutomationsNewestFirst(w.automations, projectId);
        }
      }
      Success(ProjectAutomations(w.automations, projectId))
  }

  // ---------------------------------------------------------------------
  // updateAutomation

  datatype UpdateRequest = UpdateRequest(
    name: Option<string>,
    trigger: Option<TriggerRequest>,
    action: Option<ActionRequest>,
    active: Option<bool>)

  /** The 400 checks of `updateAutomation`: the same as for creation, on the parts that are present. */
  predicate UpdateRuleValid(req: UpdateRequest, statuses: seq<string>)
  {
    && (req.trigger.Some? ==> req.trigger.value.kind in TriggerTypes && TriggerStatusesValid(req.trigger.value, statuses))
    && (req.action.Some? ==> req.action.value.kind in ActionTypes && ActionStatusValid(req.action.value, statuses))
  }

  /**
   * The update document: a non-empty name (through the `trim` setter), a
   * given trigger or action, and a defined `active` replace the stored
   * values; `updatedAt` becomes `now`.  Validators do not run on this
   * update, so a name of blanks is stored empty.
   */
  function MergeAutomation(a: Automation, req: UpdateRequest, now: int): (r: Automation)
    requires req.trigger.Some? ==> req.trigger.value.kind in TriggerTypes
    requires req.action.Some? ==> req.action.value.kind in ActionTypes
    ensures r.id == a.id && r.project == a.project && r.createdBy == a.createdBy && r.createdAt == a.createdAt
    ensures r.updatedAt == now
    ensures r.name == if Truthy(req.name) then Trim(req.name.value) else a.name
    ensures Some(r.trigger) == if req.trigger.Some? then ParseTrigger(req.trigger.value) else Some(a.trigger)
    ensures Some(r.action) == if req.action.Some? then ParseAction(req.action.value) else Some(a.action)
    ensures r.active == if req.active.Some? then req.active.value else a.active
  {
    a.(name := if Truthy(req.name) then Trim(req.name.value) else a.name,
       trigger := if req.trigger.Some? then ParseTrigger(req.trigger.value).value else a.trigger,
       action := if req.action.Some? then ParseAction(req.action.value).value else a.action,
       active := if req.active.Some? then req.active.value else a.active,
       updatedAt := now)
  }

  /** An update that supplies nothing only refreshes `updatedAt`. */
  lemma EmptyUpdateOnlyTouchesTimestamp(a: Automation, now: int)
    ensures MergeAutomation(a, UpdateRequest(None, None, None, None), now) == a.(updatedAt := now)
  {
  }

  /**
   * `updateAutomation`: 404 for an unknown automation or a vanished
   * project, 403 unless the requester owns the project, 400 for an invalid
   * part; otherwise the merged document replaces the stored one.
   */
  function UpdateAutomationOutcome(w: World, requester: Id, automationId: Id, req: UpdateRequest, now: int): (r: Outcome)
    ensures r.reply == Err(NotFound) <==> AutomationProject(w, automationId).None?
    ensures r.reply == Err(Forbidden) <==>
              AutomationProject(w, automationId).Some? && AutomationProject(w, automationId).value.owner != requester
    ensures r.reply == Err(BadRequest) <==>
              && AutomationProject(w, automationId).Some? && AutomationProject(w, automationId).value.owner == requester
              && !UpdateRuleValid(req, AutomationProject(w, automationId).value.taskStatuses)
    ensures r.reply == Ok <==>
              && AutomationProject(w, automationId).Some? && AutomationProject(w, automationId).value.owner == requester
              && UpdateRuleValid(req, AutomationProject(w, automationId).value.taskStatuses)
    ensures r.reply.Err? ==> r.world == w
    ensures r.reply == Ok ==>
              var k := FindAutomation(w.automations, automationId).value;
              r.world == w.(automations := w.automations[k := MergeAutomation(w.automations[k], req, now)])
  {
    match FindAutomation(w.automations, automationId)
    case None => Reject(w, NotFound)
    case Some(k) =>
      var a := w.automations[k];
      if a.project !in w.projects then Reject(w, NotFound)
      else
        var p := w.projects[a.project];
        if p.owner != requester then Reject(w, Forbidden)
        else if !UpdateRuleValid(req, p.taskStatuses) then Reject(w, BadRequest)
        else Outcome(Ok, w.(automations := w.automations[k := MergeAutomation(a, req, now)]))
  }

  method UpdateAutomation(s: Store, requester: Id, automationId: Id, req: UpdateRequest, now: int) returns (r: Reply)
    requires s.Valid()
    modifies s
    ensures s.Valid()
    ensures var o := UpdateAutomationOutcome(old(s.Model()), requester, automationId, req, now);
            r == o.reply && s.Model() == o.world
  {
    var k := FindAutomation(s.automations, automationId);
    if k.None? {
      return Err(NotFound);
    }
    var a := s.automations[k.value];
    if a.project !in s.projects {
      return Err(NotFound);
    }
    var project := s.projects[a.project];
    if project.owner != requester {
      return Err(Forbidden);
    }
    if !UpdateRuleValid(req, project.taskStatuses) {
      return Err(BadRequest);
    }
    var merged := MergeAutomation(a, req, now);
    assert AutomationIds(s.automations[k.value := merged]) == AutomationIds(s.automations);
    s.automations := s.automations[k.value := merged];
    r := Ok;
  }

  // ---------------------------------------------------------------------
  // deleteAutomation

  /** `deleteAutomation`: the same 404 and 403 checks; then the automation is gone and the others stay in order. */
  function DeleteAutomationOutcome(w: World, requester: Id, automationId: Id): (r: Outcome)
    ensures r.reply == Err(NotFound) <==> AutomationProject(w, automationId).None?
    ensures r.reply == Err(Forbidden) <==>
              AutomationProject(w, automationId).Some? && AutomationProject(w, automationId).value.owner != requester
    ensures r.reply == Ok <==>
              AutomationProject(w, automationId).Some? && AutomationProject(w, automationId).value.owner == requester
    ensures r.reply.Err? ==> r.world == w
    ensures r.reply == Ok ==> r.world == w.(automations := RemoveAt(w.automations, FindAutomation(w.automations, automationId).value))
  {
    match FindAutomation(w.automations, automationId)
    case None => Reject(w, NotFound)
    case Some(k) =>
      var a := w.automations[k];
      if a.project !in w.projects then Reject(w, NotFound)
      else if w.projects[a.project].owner != requester then Reject(w, Forbidden)
      else Outcome(Ok, w.(automations := RemoveAt(w.automations, k)))
  }

  /** An update keeps every rule's `createdAt` and the store order, so a chronological store stays chronological. */
  lemma UpdateKeepsChronological(w: World, requester: Id, automationId: Id, req: UpdateRequest, now: int)
    requires AutomationsChronological(w.automations)
    ensures AutomationsChronological(UpdateAutomationOutcome(w, requester, automationId, req, now).world.automations)
  {
    var as_ := UpdateAutomationOutcome(w, requester, automationId, req, now).world.automations;
    if UpdateAutomationOutcome(w, requester, automationId, req, now).reply == Ok {
      assert |as_| == |w.automations|;
      forall i | 0 <= i < |as_| ensures as_[i].createdAt == w.automations[i].createdAt {
      }
    }
  }

  /** A delete keeps the other rules in order, so a chronological store stays chronological. */
  lemma DeleteKeepsChronological(w: World, requester: Id, automationId: Id)
    requires AutomationsChronological(w.automations)
    ensures AutomationsChronological(DeleteAutomationOutcome(w, requester, automationId).world.automations)
  {
    var as_ := DeleteAutomationOutcome(w, requester, automationId).world.automations;
    if DeleteAutomationOutcome(w, requester, automationId).reply == Ok {
      var k := FindAutomation(w.automations, automationId).value;
      forall i, j | 0 <= i < j < |as_| ensures as_[i].createdAt <= as_[j].createdAt {
        var i' := if i < k then i else i + 1;
        var j' := if j < k then j else j + 1;
        assert as_[i] == w.automations[i'] && as_[j] == w.automations[j'];
      }
    }
  }

  /** Only the project's owner changes its automations: anyone else is refused by all three handlers. */
  lemma OnlyOwnerChangesAutomations(w: World, requester: Id, automationId: Id, req: UpdateRequest, creq: CreateRequest, now: int)
    ensures CreateAutomationOutcome(w, requester, creq, now).reply == Ok ==>
              w.projects[creq.projectId].owner == requester
    ensures UpdateAutomationOutcome(w, requester, automationId, req, now).reply == Ok ==>
              var a := w.automations[FindAutomation(w.automations, automationId).value];
              w.projects[a.project].owner == requester
    ensures DeleteAutomationOutcome(w, requester, automationId).reply == Ok ==>
              var a := w.automations[FindAutomation(w.automations, automationId).value];
              w.projects[a.project].owner == requester
  {
  }

  method DeleteAutomation(s: Store, requester: Id, automationId: Id) returns (r: Reply)
    requires s.Valid()
    modifies s
    ensures s.Valid()
    ensures var o := DeleteAutomationOutcome(old(s.Model()), requester, automationId);
            r == o.reply && s.Model() == o.world
  {
    var k := FindAutomation(s.automations, automationId);
    if k.None? {
      return Err(NotFound);
    }
    var a := s.automations[k.value];
    if a.project !in s.projects {
      return Err(NotFound);
    }
    if s.projects[a.project].owner != requester {
      return Err(Forbidden);
    }
    AutomationIdsRemoveAt(s.automations, k.value);
    IssuedRemoveAt(AutomationIds(s.automations), k.value, s.nextId);
    s.automations := RemoveAt(s.automations, k.value);
    r := Ok;
  }
}
