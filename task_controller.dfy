/**
 * The task handlers: creation and update gated on project membership, with
 * the requested status checked against the project's status list; deletion
 * by the project owner or the task's creator; and the owner replacing the
 * status list itself.
 */
module TaskController {
  import opened Common
  import opened Model
  import opened Db

  /**
   * The body of a create or update request; `None` is a field the body leaves
   * out.  A due date or assignee is carried as `Some` only when it is truthy:
   * `None` also stands for `0`, `""`, `null` and every other falsy value, which
   * the update skips just as it skips a missing one.
   */
  datatype TaskFields = TaskFields(
    title: Option<string>,
    description: Option<string>,
    dueDate: Option<int>,
    assignee: Option<Id>,
    status: Option<string>)

  /** A supplied, non-empty status must be one of the project's. */
  predicate StatusAllowed(status: Option<string>, p: Project)
  {
    Truthy(status) ==> status.value in p.taskStatuses
  }

  // ---------------------------------------------------------------------
  // createTask

  /** The new task: the given fields, the status or "To Do" when none is given, the requester as creator. */
  function NewTask(id: Id, title: string, f: TaskFields, projectId: Id, requester: Id, now: int): (t: Task)
    ensures t.id == id && t.title == title && t.project == projectId && t.createdBy == requester
    ensures t.description == f.description && t.dueDate == f.dueDate && t.assignee == f.assignee
    ensures t.status == if Truthy(f.status) then f.status.value else DefaultTaskStatus
  {
    Task(id, title, f.description, if Truthy(f.status) then f.status.value else DefaultTaskStatus,
         f.assignee, f.dueDate, projectId, requester, now)
  }

  /**
   * `createTask`: 404 for an unknown project, 403 for anyone who is neither
   * owner nor member, 400 for a status outside the project's list;
   * otherwise the new task is appended.
   */
  function CreateTaskOutcome(w: World, requester: Id, projectId: Id, title: string, f: TaskFields, now: int): (r: Outcome)
    ensures r.reply == Err(NotFound) <==> projectId !in w.projects
    ensures r.reply == Err(Forbidden) <==> projectId in w.projects && !IsOwnerOrMember(w.projects[projectId], requester)
    ensures r.reply == Err(BadRequest) <==>
              projectId in w.projects && IsOwnerOrMember(w.projects[projectId], requester)
              && !StatusAllowed(f.status, w.projects[projectId])
    ensures r.reply == Ok <==>
              projectId in w.projects && IsOwnerOrMember(w.projects[projectId], requester)
              && StatusAllowed(f.status, w.projects[projectId])
    ensures r.reply.Err? ==> r.world == w
    ensures r.reply == Ok ==>
              r.world == w.(tasks := w.tasks + [NewTask(w.nextId, title, f, projectId, requester, now)], nextId := w.nextId + 1)
  {
    if projectId !in w.projects then Reject(w, NotFound)
    else
      var p := w.projects[projectId];
      if !IsOwnerOrMember(p, requester) then Reject(w, Forbidden)
      else if !StatusAllowed(f.status, p) then Reject(w, BadRequest)
      else Outcome(Ok, w.(tasks := w.tasks + [NewTask(w.nextId, title, f, projectId, requester, now)], nextId := w.nextId + 1))
  }

  /** A created task's status is the requested one, which is in the list, or else the default. */
  lemma CreatedTaskStatus(w: World, requester: Id, projectId: Id, title: string, f: TaskFields, now: int)
    requires CreateTaskOutcome(w, requester, projectId, title, f, now).reply == Ok
    ensures var t := CreateTaskOutcome(w, requester, projectId, title, f, now).world.tasks[|w.tasks|];
            && IsOwnerOrMember(w.projects[projectId], requester)
            && (Truthy(f.status) ==> t.status == f.status.value && t.status in w.projects[projectId].taskStatuses)
            && (!Truthy(f.status) ==> t.status == DefaultTaskStatus)
  {
  }

  /** The default is used even for a project whose status list does not contain it. */
  lemma DefaultStatusNeedNotBeListed(w: World, requester: Id, projectId: Id, title: string, now: int)
    requires projectId in w.projects && w.projects[projectId].owner == requester
    requires w.projects[projectId].taskStatuses == ["Backlog"]
    ensures var r := CreateTaskOutcome(w, requester, projectId, title, TaskFields(None, None, None, None, None), now);
            && r.reply == Ok
            && r.world.tasks[|w.tasks|].status !in w.projects[projectId].taskStatuses
  {
  }

  lemma TaskIdsAppend(ts: seq<Task>, t: Task)
    ensures TaskIds(ts + [t]) == TaskIds(ts) + [t.id]
  {
  }

  method CreateTask(s: Store, requester: Id, projectId: Id, title: string, f: TaskFields, now: int) returns (r: Reply)
    requires s.Valid()
    modifies s
    ensures s.Valid()
    ensures var o := CreateTaskOutcome(old(s.Model()), requester, projectId, title, f, now);
            r == o.reply && s.Model() == o.world
  {
    if projectId !in s.projects {
      return Err(NotFound);
    }
    var project := s.projects[projectId];
    if !IsOwnerOrMember(project, requester) {
      return Err(Forbidden);
    }
    if !StatusAllowed(f.status, project) {
      return Err(BadRequest);
    }
    var t := NewTask(s.nextId, title, f, projectId, requester, now);
    TaskIdsAppend(s.tasks, t);
    IssueNext(TaskIds(s.tasks), s.nextId);
    IssuedLater(AutomationIds(s.automations), s.nextId, s.nextId + 1);
    IssuedLater(NotificationIds(s.notifications), s.nextId, s.nextId + 1);
    IssuedLater(InvitationIds(s.invitations), s.nextId, s.nextId + 1);
    s.tasks := s.tasks + [t];
    s.nextId := s.nextId + 1;
    r := Ok;
  }

  // ---------------------------------------------------------------------
  // updateTask

  /**
   * The update document, built field by field: a non-empty title or status,
   * a truthy due date or assignee (`Some`; a falsy one is `None`), and a
   * description that is present at all are written; `updatedAt` becomes `now`.
   */
  function MergeTask(t: Task, f: TaskFields, now: int): (r: Task)
    ensures r.id == t.id && r.project == t.project && r.createdBy == t.createdBy && r.updatedAt == now
    ensures r.title == if Truthy(f.title) then f.title.value else t.title
    ensures r.description == if f.description.Some? then f.description else t.description
    ensures r.dueDate == if f.dueDate.Some? then f.dueDate else t.dueDate
    ensures r.assignee == if f.assignee.Some? then f.assignee else t.assignee
    ensures r.status == if Truthy(f.status) then f.status.value else t.status
  {
    var t1 := if Truthy(f.title) then t.(title := f.title.value) else t;
    var t2 := if f.description.Some? then t1.(description := f.description) else t1;
    var t3 := if f.dueDate.Some? then t2.(dueDate := f.dueDate) else t2;
    var t4 := if f.assignee.Some? then t3.(assignee := f.assignee) else t3;
    var t5 := if Truthy(f.status) then t4.(status := f.status.value) else t4;
    t5.(updatedAt := now)
  }

  /** An update never unassigns a task, and an update that supplies nothing only refreshes `updatedAt`. */
  lemma MergeNeverUnassigns(t: Task, f: TaskFields, now: int)
    ensures t.assignee.Some? ==> MergeTask(t, f, now).assignee.Some?
    ensures MergeTask(t, TaskFields(None, None, None, None, None), now) == t.(updatedAt := now)
  {
  }

  /** Applying the same update twice is the same as applying it once. */
  lemma MergeIdempotent(t: Task, f: TaskFields, now: int)
    ensures MergeTask(MergeTask(t, f, now), f, now) == MergeTask(t, f, now)
  {
  }

  /**
   * `updateTask`: 404 for an unknown task or a vanished project, 403 for a
   * non-member, 400 for a status outside the list, all before any change;
   * otherwise the stored task is replaced by the merge.
   */
  function UpdateTaskOutcome(w: World, requester: Id, taskId: Id, f: TaskFields, now: int): (r: Outcome)
    ensures r.reply == Err(NotFound) <==> TaskProject(w, taskId).None?
    ensures r.reply == Err(Forbidden) <==>
              TaskProject(w, taskId).Some? && !IsOwnerOrMember(TaskProject(w, taskId).value, requester)
    ensures r.reply == Err(BadRequest) <==>
              && TaskProject(w, taskId).Some? && IsOwnerOrMember(TaskProject(w, taskId).value, requester)
              && !StatusAllowed(f.status, TaskProject(w, taskId).value)
    ensures r.reply == Ok <==>
              && TaskProject(w, taskId).Some? && IsOwnerOrMember(TaskProject(w, taskId).value, requester)
              && StatusAllowed(f.status, TaskProject(w, taskId).value)
    ensures r.reply.Err? ==> r.world == w
    ensures r.reply == Ok ==>
              var k := FindTask(w.tasks, taskId).value;
              r.world == w.(tasks := w.tasks[k := MergeTask(w.tasks[k], f, now)])
  {
    match FindTask(w.tasks, taskId)
    case None => Reject(w, NotFound)
    case Some(k) =>
      var t := w.tasks[k];
      if t.project !in w.projects then Reject(w, NotFound)
      else
        var p := w.projects[t.project];
        if !IsOwnerOrMember(p, requester) then Reject(w, Forbidden)
        else if !StatusAllowed(f.status, p) then Reject(w, BadRequest)
        else Outcome(Ok, w.(tasks := w.tasks[k := MergeTask(t, f, now)]))
  }

  /** After a successful update, the task's status is one of the project's (or the one it already had). */
  lemma UpdatedTaskStatus(w: World, requester: Id, taskId: Id, f: TaskFields, now: int)
    requires UpdateTaskOutcome(w, requester, taskId, f, now).reply == Ok
    ensures var k := FindTask(w.tasks, taskId).value;
            var t := UpdateTaskOutcome(w, requester, taskId, f, now).world.tasks[k];
            t.status in w.projects[t.project].taskStatuses || t.status == w.tasks[k].status
  {
  }

  method UpdateTask(s: Store, requester: Id, taskId: Id, f: TaskFields, now: int) returns (r: Reply)
    requires s.Valid()
    modifies s
    ensures s.Valid()
    ensures var o := UpdateTaskOutcome(old(s.Model()), requester, taskId, f, now);
            r == o.reply && s.Model() == o.world
  {
    var k := FindTask(s.tasks, taskId);
    if k.None? {
      return Err(NotFound);
    }
    var t := s.tasks[k.value];
    if t.project !in s.projects {
      return Err(NotFound);
    }
    var project := s.projects[t.project];
    if !IsOwnerOrMember(project, requester) {
      return Err(Forbidden);
    }
    if !StatusAllowed(f.status, project) {
      return Err(BadRequest);
    }
    var merged := MergeTask(t, f, now);
    assert TaskIds(s.tasks[k.value := merged]) == TaskIds(s.tasks);
    s.tasks := s.tasks[k.value := merged];
    r := Ok;
  }

  // ---------------------------------------------------------------------
  // deleteTask

  /** `deleteTask`: allowed for the project's owner and for the task's creator, and no one else. */
  function DeleteTaskOutcome(w: World, requester: Id, taskId: Id): (r: Outcome)
    ensures r.reply == Err(NotFound) <==>
              FindTask(w.tasks, taskId).None? || w.tasks[FindTask(w.tasks, taskId).value].project !in w.projects
    ensures r.reply == Err(Forbidden) <==>
              && FindTask(w.tasks, taskId).Some?
              && var t := w.tasks[FindTask(w.tasks, taskId).value];
                 t.project in w.projects && w.projects[t.project].owner != requester && t.createdBy != requester
    ensures r.reply == Ok <==>
              && FindTask(w.tasks, taskId).Some?
              && var t := w.tasks[FindTask(w.tasks, taskId).value];
                 t.project in w.projects && (w.projects[t.project].owner == requester || t.createdBy == requester)
    ensures r.reply.Err? ==> r.world == w
    ensures r.reply == Ok ==> r.world == w.(tasks := RemoveAt(w.tasks, FindTask(w.tasks, taskId).value))
  {
    match FindTask(w.tasks, taskId)
    case None => Reject(w, NotFound)
    case Some(k) =>
      var t := w.tasks[k];
      if t.project !in w.projects then Reject(w, NotFound)
      else if w.projects[t.project].owner != requester && t.createdBy != requester then Reject(w, Forbidden)
      else Outcome(Ok, w.(tasks := RemoveAt(w.tasks, k)))
  }

  /** With distinct ids, a successful delete leaves no task with that id and every other task in order. */
  lemma DeleteTaskRemovesOnlyIt(w: World, requester: Id, taskId: Id)
    requires WorldValid(w)
    requires DeleteTaskOutcome(w, requester, taskId).reply == Ok
    ensures var ts := DeleteTaskOutcome(w, requester, taskId).world.tasks;
            && |ts| == |w.tasks| - 1
            && (forall i :: 0 <= i < |ts| ==> ts[i].id != taskId)
            && (forall t :: t in w.tasks && t.id != taskId ==> t in ts)
  {
    var k := FindTask(w.tasks, taskId).value;
    OnlyOneWithId(w.tasks, k, w.nextId);
    var ts := RemoveAt(w.tasks, k);
    forall t | t in w.tasks && t.id != taskId ensures t in ts {
      var i :| 0 <= i < |w.tasks| && w.tasks[i] == t;
      if i < k {
        assert ts[i] == t;
      } else {
        assert ts[i - 1] == t;
      }
    }
  }

  method DeleteTask(s: Store, requester: Id, taskId: Id) returns (r: Reply)
    requires s.Valid()
    modifies s
    ensures s.Valid()
    ensures var o := DeleteTaskOutcome(old(s.Model()), requester, taskId);
            r == o.reply && s.Model() == o.world
  {
    var k := FindTask(s.tasks, taskId);
    if k.None? {
      return Err(NotFound);
    }
    var t := s.tasks[k.value];
    if t.project !in s.projects {
      return Err(NotFound);
    }
    if s.projects[t.project].owner != requester && t.createdBy != requester {
      return Err(Forbidden);
    }
    TaskIdsRemoveAt(s.tasks, k.value);
    IssuedRemoveAt(TaskIds(s.tasks), k.value, s.nextId);
    s.tasks := RemoveAt(s.tasks, k.value);
    r := Ok;
  }

  // ---------------------------------------------------------------------
  // updateProjectTaskStatuses

  /** `updateProjectTaskStatuses`: owner only; the new list must be a non-empty array and then replaces the old one. */
  function UpdateTaskStatusesOutcome(w: World, requester: Id, projectId: Id, statuses: Option<seq<string>>): (r: Outcome)
    ensures r.reply == Err(NotFound) <==> projectId !in w.projects
    ensures r.reply == Err(Forbidden) <==> projectId in w.projects && w.projects[projectId].owner != requester
    ensures r.reply == Err(BadRequest) <==>
              projectId in w.projects && w.projects[projectId].owner == requester && (statuses.None? || statuses.value == [])
    ensures r.reply == Ok <==>
              projectId in w.projects && w.projects[projectId].owner == requester && statuses.Some? && statuses.value != []
    ensures r.reply.Err? ==> r.world == w
    ensures r.reply == Ok ==>
              && r.world == w.(projects := r.world.projects)
              && projectId in r.world.projects && r.world.projects.Keys == w.projects.Keys
              && r.world.projects[projectId] == w.projects[projectId].(taskStatuses := statuses.value)
              && (forall id :: id in w.projects && id != projectId ==> r.world.projects[id] == w.projects[id])
  {
    if projectId !in w.projects then Reject(w, NotFound)
    else
      var p := w.projects[projectId];
      if p.owner != requester then Reject(w, Forbidden)
      else if statuses.None? || statuses.value == [] then Reject(w, BadRequest)
      else Outcome(Ok, w.(projects := w.projects[projectId := p.(taskStatuses := statuses.value)]))
  }

  /** After a successful replacement the project has a first column, which the board needs. */
  lemma UpdatedStatusesNonEmpty(w: World, requester: Id, projectId: Id, statuses: Option<seq<string>>)
    requires UpdateTaskStatusesOutcome(w, requester, projectId, statuses).reply == Ok
    ensures UpdateTaskStatusesOutcome(w, requester, projectId, statuses).world.projects[projectId].taskStatuses != []
  {
  }

  method UpdateProjectTaskStatuses(s: Store, requester: Id, projectId: Id, statuses: Option<seq<string>>) returns (r: Reply)
    requires s.Valid()
    modifies s
    ensures s.Valid()
    ensures var o := UpdateTaskStatusesOutcome(old(s.Model()), requester, projectId, statuses);
            r == o.reply && s.Model() == o.world
  {
    if projectId !in s.projects {
      return Err(NotFound);
    }
    var project := s.projects[projectId];
    if project.owner != requester {
      return Err(Forbidden);
    }
    if statuses.None? || statuses.value == [] {
      return Err(BadRequest);
    }
    s.projects := s.projects[projectId := project.(taskStatuses := statuses.value)];
    r := Ok;
  }
}
