/**
 * The automation engine of the service layer: detecting events in a task
 * update, selecting the automations an event triggers, executing their
 * actions (grant a badge, rewrite a status, notify the assignee), the
 * placeholder substitution for notification text, and the due-date sweep.
 *
 * Every operation that changes the store is a method proved against a
 * function on `World`; the functions' properties are the lemmas.
 */
module AutomationService {
  import opened Common
  import opened Model
  import opened Db
  import opened NotificationService

  /** The clock and the locale: the current time, and how a due date is printed. */
  datatype Env = Env(now: int, dateText: int -> string)

  // ---------------------------------------------------------------------
  // processTaskUpdate: which events an update raises

  predicate StatusChanged(previous: Task, task: Task)
  {
    previous.status != task.status
  }

  /** Assigned where nobody was, or reassigned to somebody else. */
  predicate AssignmentChanged(previous: Task, task: Task)
  {
    || (previous.assignee.None? && task.assignee.Some?)
    || (previous.assignee.Some? && task.assignee.Some? && previous.assignee.value != task.assignee.value)
  }

  /** An assignment event fires exactly when the task ends up assigned to someone it was not assigned to before. */
  lemma AssignmentChangedMeaning(previous: Task, task: Task)
    ensures AssignmentChanged(previous, task) <==> task.assignee.Some? && previous.assignee != task.assignee
  {
  }

  // ---------------------------------------------------------------------
  // Selecting automations

  /**
   * The three `$or` branches of the status-change query: both ends equal,
   * or one end absent and the other equal.
   */
  predicate StatusQueryMatches(fromStatus: Option<string>, toStatus: Option<string>, previousStatus: string, status: string)
  {
    || (fromStatus == Some(previousStatus) && toStatus == Some(status))
    || (fromStatus.None? && toStatus == Some(status))
    || (fromStatus == Some(previousStatus) && toStatus.None?)
  }

  /** The query in words: each present end must match, and at least one end must be present. */
  lemma StatusQueryMeaning(fromStatus: Option<string>, toStatus: Option<string>, previousStatus: string, status: string)
    ensures StatusQueryMatches(fromStatus, toStatus, previousStatus, status) <==>
              && (fromStatus.Some? || toStatus.Some?)
              && (fromStatus.Some? ==> fromStatus.value == previousStatus)
              && (toStatus.Some? ==> toStatus.value == status)
  {
  }

  /** The status-change query as a test on one rule: active, of the project, a status trigger, and one `$or` branch matching. */
  predicate SelectedForStatus(a: Automation, project: Id, previousStatus: string, status: string)
  {
    && a.active && a.project == project && a.trigger.TaskStatusChange?
    && StatusQueryMatches(a.trigger.fromStatus, a.trigger.toStatus, previousStatus, status)
  }

  /** The assignment query as a test on one rule: active, of the project, an assignment trigger naming no user or the assignee. */
  predicate SelectedForAssignment(a: Automation, project: Id, assignee: Id)
  {
    && a.active && a.project == project && a.trigger.TaskAssignment?
    && (a.trigger.userId.None? || a.trigger.userId == Some(assignee))
  }

  /** The due-date query as a test on one rule: active, of the project, a due-date trigger. */
  predicate SelectedForDueDate(a: Automation, project: Id)
  {
    a.active && a.project == project && a.trigger.TaskDueDatePassed?
  }

  /** `Automation.find(...)` for a status change, in store order. */
  function SelectStatus(as_: seq<Automation>, project: Id, previousStatus: string, status: string): (r: seq<Automation>)
    ensures |r| <= |as_|
    ensures forall a :: a in r <==> a in as_ && SelectedForStatus(a, project, previousStatus, status)
    ensures Filtered(r, as_, (a: Automation) => SelectedForStatus(a, project, previousStatus, status))
  {
    if as_ == [] then []
    else
      assert as_ == [as_[0]] + as_[1..];
      (if SelectedForStatus(as_[0], project, previousStatus, status) then [as_[0]] else [])
      + SelectStatus(as_[1..], project, previousStatus, status)
  }

  /** `Automation.find(...)` for an assignment, in store order. */
  function SelectAssignment(as_: seq<Automation>, project: Id, assignee: Id): (r: seq<Automation>)
    ensures |r| <= |as_|
    ensures forall a :: a in r <==> a in as_ && SelectedForAssignment(a, project, assignee)
    ensures Filtered(r, as_, (a: Automation) => SelectedForAssignment(a, project, assignee))
  {
    if as_ == [] then []
    else
      assert as_ == [as_[0]] + as_[1..];
      (if SelectedForAssignment(as_[0], project, assignee) then [as_[0]] else [])
      + SelectAssignment(as_[1..], project, assignee)
  }

  /** `Automation.find(...)` for a passed due date, in store order. */
  function SelectDueDate(as_: seq<Automation>, project: Id): (r: seq<Automation>)
    ensures |r| <= |as_|
    ensures forall a :: a in r <==> a in as_ && SelectedForDueDate(a, project)
    ensures Filtered(r, as_, (a: Automation) => SelectedForDueDate(a, project))
  {
    if as_ == [] then []
    else
      assert as_ == [as_[0]] + as_[1..];
      (if SelectedForDueDate(as_[0], project) then [as_[0]] else [])
      + SelectDueDate(as_[1..], project)
  }

  // ---------------------------------------------------------------------
  // formatNotificationMessage: first-occurrence substitution

  /** `pat` occurs in `s` starting at index `j`. */
  predicate OccursAt(s: string, pat: string, j: nat)
  {
    j + |pat| <= |s| && s[j..j + |pat|] == pat
  }

  /** Where `pat` first occurs in `s` at or after `k`. */
  function IndexFrom(s: string, pat: string, k: nat): (r: Option<nat>)
    requires k <= |s|
    decreases |s| - k
    ensures r.Some? ==> k <= r.value && OccursAt(s, pat, r.value)
    ensures r.Some? ==> forall j: nat :: k <= j < r.value ==> !OccursAt(s, pat, j)
    ensures r.None? ==> forall j: nat :: k <= j ==> !OccursAt(s, pat, j)
  {
    if k + |pat| > |s| then None
    else if s[k..k + |pat|] == pat then Some(k)
    else IndexFrom(s, pat, k + 1)
  }

  /** `s.indexOf(pat)`: the first occurrence, if there is one. */
  function IndexOf(s: string, pat: string): (r: Option<nat>)
    ensures r.Some? ==> OccursAt(s, pat, r.value)
    ensures r.Some? ==> forall j: nat :: j < r.value ==> !OccursAt(s, pat, j)
    ensures r.None? <==> forall j: nat :: !OccursAt(s, pat, j)
  {
    IndexFrom(s, pat, 0)
  }

  /**
   * `s.replace(pat, rep)` with the replacement taken literally: only the
   * first occurrence is replaced, and the text around it is kept verbatim.
   */
  function ReplaceFirst(s: string, pat: string, rep: string): (r: string)
    ensures IndexOf(s, pat).None? ==> r == s
    ensures IndexOf(s, pat).Some? ==>
              var i := IndexOf(s, pat).value;
              && |r| == |s| - |pat| + |rep|
              && r[..i] == s[..i] && r[i..i + |rep|] == rep && r[i + |rep|..] == s[i + |pat|..]
  {
    match IndexOf(s, pat)
    case None => s
    case Some(i) => s[..i] + rep + s[i + |pat|..]
  }

  /** Only the first occurrence is replaced: a second copy of the pattern survives. */
  lemma ReplaceFirstOnlyFirst(pat: string, rep: string, rest: string)
    requires pat != []
    ensures ReplaceFirst(pat + rest, pat, rep) == rep + rest
  {
    var s := pat + rest;
    assert s[0..|pat|] == pat;
    assert IndexOf(s, pat) == Some(0);
    assert s[|pat|..] == rest;
  }

  const TitlePlaceholder: string := "{task.title}"
  const StatusPlaceholder: string := "{task.status}"
  const DueDatePlaceholder: string := "{task.dueDate}"

  /** `s` holds no copy of `pat`. */
  ghost predicate Lacks(s: string, pat: string)
  {
    forall j: nat :: !OccursAt(s, pat, j)
  }

  /** A string without an opening brace holds no placeholder. */
  lemma NoBraceLacks(s: string, pat: string)
    requires '{' !in s && pat != [] && pat[0] == '{'
    ensures Lacks(s, pat)
  {
    forall j: nat ensures !OccursAt(s, pat, j) {
      if j + |pat| <= |s| {
        assert s[j..j + |pat|][0] == s[j];
      }
    }
  }

  /**
   * `formatNotificationMessage(template, task)`: the first `{task.title}`
   * becomes the title, then the first `{task.status}` of the result becomes
   * the status, then, only if the task has a due date, the first
   * `{task.dueDate}` becomes the printed date.  A template with none of the
   * placeholders that apply is sent verbatim.
   */
  function FormatNotificationMessage(template: string, task: Task, dateText: int -> string): (m: string)
    ensures (&& Lacks(template, TitlePlaceholder) && Lacks(template, StatusPlaceholder)
             && (task.dueDate.None? || Lacks(template, DueDatePlaceholder))) ==> m == template
  {
    var m := ReplaceFirst(ReplaceFirst(template, TitlePlaceholder, task.title), StatusPlaceholder, task.status);
    if task.dueDate.Some? then ReplaceFirst(m, DueDatePlaceholder, dateText(task.dueDate.value)) else m
  }

  /**
   * Without a due date no `{task.dueDate}` is touched: a template with no
   * title or status placeholder comes back as it is, the bare due-date
   * placeholder included.
   */
  lemma FormatKeepsDueDatePlaceholderWithoutDueDate(template: string, task: Task, dateText: int -> string)
    requires task.dueDate.None?
    requires Lacks(template, TitlePlaceholder) && Lacks(template, StatusPlaceholder)
    ensures FormatNotificationMessage(template, task, dateText) == template
    ensures FormatNotificationMessage(DueDatePlaceholder, task, dateText) == DueDatePlaceholder
  {
    var t := DueDatePlaceholder;
    forall j: nat ensures !OccursAt(t, TitlePlaceholder, j) {
      if j == 0 {
        assert t[6] != TitlePlaceholder[6];
      } else if j + |TitlePlaceholder| <= |t| {
        assert t[j..j + |TitlePlaceholder|][0] == t[j] != TitlePlaceholder[0];
      }
    }
    forall j: nat ensures !OccursAt(t, StatusPlaceholder, j) {
      if j == 0 {
        assert t[6] != StatusPlaceholder[6];
      } else if j + |StatusPlaceholder| <= |t| {
        assert t[j..j + |StatusPlaceholder|][0] == t[j] != StatusPlaceholder[0];
      }
    }
  }

  /**
   * The title is inserted where the template asks for it: with one
   * `{task.title}` and no other brace in the template, the title or the
   * status, the message is the template with the title in its place.
   */
  lemma FormatFillsTitle(before: string, after: string, task: Task, dateText: int -> string)
    requires '{' !in before && '{' !in after && '{' !in task.title && '{' !in task.status
    requires task.dueDate.None?
    ensures FormatNotificationMessage(before + TitlePlaceholder + after, task, dateText) == before + task.title + after
  {
    var s := before + TitlePlaceholder + after;
    var i := |before|;
    assert s[i..i + |TitlePlaceholder|] == TitlePlaceholder;
    assert OccursAt(s, TitlePlaceholder, i);
    forall j: nat | j < i ensures !OccursAt(s, TitlePlaceholder, j) {
      assert s[j] == before[j];
      if j + |TitlePlaceholder| <= |s| {
        assert s[j..j + |TitlePlaceholder|][0] == s[j];
      }
    }
    assert IndexOf(s, TitlePlaceholder) == Some(i);
    var r := ReplaceFirst(s, TitlePlaceholder, task.title);
    assert r == r[..i] + r[i..i + |task.title|] + r[i + |task.title|..];
    assert s[i + |TitlePlaceholder|..] == after;
    assert r == before + task.title + after;
    NoBraceLacks(r, StatusPlaceholder);
  }

  // ---------------------------------------------------------------------
  // The same substitution as JavaScript performs it

  /**
   * The replacement string as `String.prototype.replace` reads it when the
   * pattern is a string: `$$` is a dollar sign, `$&` the matched text,
   * `` $` `` the text before the match, `$'` the text after; anything else is
   * literal, so a replacement without a dollar sign is inserted as it is.
   */
  function ExpandReplacement(rep: string, matched: string, before: string, after: string): (r: string)
    decreases |rep|
    ensures '$' !in rep ==> r == rep
  {
    if rep == [] then []
    else if |rep| >= 2 && rep[0] == '$' && rep[1] in "$&`'" then
      (if rep[1] == '$' then "$" else if rep[1] == '&' then matched else if rep[1] == '`' then before else after)
      + ExpandReplacement(rep[2..], matched, before, after)
    else
      assert '$' !in rep ==> '$' !in rep[1..];
      assert rep == [rep[0]] + rep[1..];
      [rep[0]] + ExpandReplacement(rep[1..], matched, before, after)
  }

  /**
   * `s.replace(pat, rep)` exactly as JavaScript evaluates it: the text
   * around the first occurrence is kept, and the literal replacement is
   * what it inserts whenever `rep` has no dollar sign.
   */
  function JsReplaceFirst(s: string, pat: string, rep: string): (r: string)
    ensures IndexOf(s, pat).None? ==> r == s
    ensures IndexOf(s, pat).Some? ==>
              var i := IndexOf(s, pat).value;
              var tail := s[i + |pat|..];
              && i + |tail| <= |r| && r[..i] == s[..i] && r[|r| - |tail|..] == tail
    ensures '$' !in rep ==> r == ReplaceFirst(s, pat, rep)
  {
    match IndexOf(s, pat)
    case None => s
    case Some(i) =>
      var r := s[..i] + ExpandReplacement(rep, pat, s[..i], s[i + |pat|..]) + s[i + |pat|..];
      assert r[..i] == s[..i];
      r
  }

  /**
   * `formatNotificationMessage` as written, with JavaScript's replacement
   * patterns.  It sends what the literal formatter sends unless the title,
   * the status or the printed date holds a dollar sign.
   */
  function FormatNotificationMessageAsWritten(template: string, task: Task, dateText: int -> string): (m: string)
    ensures (&& '$' !in task.title && '$' !in task.status
             && (task.dueDate.Some? ==> '$' !in dateText(task.dueDate.value)))
            ==> m == FormatNotificationMessage(template, task, dateText)
  {
    var m := JsReplaceFirst(JsReplaceFirst(template, TitlePlaceholder, task.title), StatusPlaceholder, task.status);
    if task.dueDate.Some? then JsReplaceFirst(m, DueDatePlaceholder, dateText(task.dueDate.value)) else m
  }

  /** A task titled `$&` is announced under the name `{task.title}`: the placeholder reinserts itself. */
  lemma DollarTitleIsNotInserted(task: Task, dateText: int -> string)
    requires task.title == "$&" && task.dueDate.None?
    ensures FormatNotificationMessageAsWritten(TitlePlaceholder, task, dateText) == TitlePlaceholder
    ensures FormatNotificationMessage(TitlePlaceholder, task, dateText) == "$&"
  {
    var t := TitlePlaceholder;
    assert t[0..|t|] == t;
    assert IndexOf(t, t) == Some(0);
    assert t[..0] == [] && t[|t|..] == [];
    assert ExpandReplacement("$&", t, [], []) == t by {
      assert "$&"[2..] == [];
    }
    assert IndexOf(t, StatusPlaceholder).None?;
    assert IndexOf("$&", StatusPlaceholder).None?;
  }

  // ---------------------------------------------------------------------
  // assignBadgeToUser

  predicate HasBadge(bs: seq<Badge>, name: string, projectId: Id)
  {
    exists i :: 0 <= i < |bs| && bs[i].name == name && bs[i].projectId == projectId
  }

  /**
   * `assignBadgeToUser(userId, badgeName, projectId)`: a missing user is
   * left alone; otherwise the badge is appended unless the user already
   * holds one with that name for that project.
   */
  function GrantBadge(users: map<Id, User>, userId: Id, name: string, projectId: Id, now: int): (r: map<Id, User>)
    ensures r.Keys == users.Keys
    ensures forall id :: id in users && id != userId ==> r[id] == users[id]
    ensures userId in users ==>
              && r[userId].displayName == users[userId].displayName && r[userId].email == users[userId].email
              && HasBadge(r[userId].badges, name, projectId)
              && |users[userId].badges| <= |r[userId].badges| <= |users[userId].badges| + 1
              && r[userId].badges[..|users[userId].badges|] == users[userId].badges
    ensures userId in users && HasBadge(users[userId].badges, name, projectId) ==> r == users
  {
    if userId !in users || HasBadge(users[userId].badges, name, projectId) then users
    else
      var u := users[userId];
      var bs := u.badges + [Badge(name, projectId, now)];
      assert bs[|u.badges|].name == name && bs[|u.badges|].projectId == projectId;
      users[userId := u.(badges := bs)]
  }

  /** Granting twice is granting once, whatever the clock says the second time. */
  lemma GrantBadgeIdempotent(users: map<Id, User>, userId: Id, name: string, projectId: Id, now: int, later: int)
    ensures GrantBadge(GrantBadge(users, userId, name, projectId, now), userId, name, projectId, later)
         == GrantBadge(users, userId, name, projectId, now)
  {
  }

  /** Every user keeps at most one badge per (name, project). */
  lemma GrantBadgeKeepsUnique(users: map<Id, User>, userId: Id, name: string, projectId: Id, now: int)
    requires BadgesWellFormed(users)
    ensures BadgesWellFormed(GrantBadge(users, userId, name, projectId, now))
  {
    var r := GrantBadge(users, userId, name, projectId, now);
    if userId in users && !HasBadge(users[userId].badges, name, projectId) {
      var bs := r[userId].badges;
      var old_ := users[userId].badges;
      forall i, j | 0 <= i < j < |bs| ensures !(bs[i].name == bs[j].name && bs[i].projectId == bs[j].projectId) {
        if j == |old_| {
          assert bs[i] == old_[i];
        } else {
          assert bs[i] == old_[i] && bs[j] == old_[j];
        }
      }
    }
  }

  lemma EmailsUniqueAfterGrant(users: map<Id, User>, userId: Id, name: string, projectId: Id, now: int)
    requires EmailsUnique(users)
    ensures EmailsUnique(GrantBadge(users, userId, name, projectId, now))
  {
  }

  /**
   * The same operation when `projectId` is a populated project document, as
   * the due-date sweep passes it: the document's string form never equals a
   * stored id's, so the "already has it" test never succeeds.
   */
  function GrantBadgeAsWritten(users: map<Id, User>, userId: Id, name: string, projectId: Id, now: int): (r: map<Id, User>)
    ensures r.Keys == users.Keys
    ensures forall id :: id in users && id != userId ==> r[id] == users[id]
    ensures userId in users ==>
              && r[userId].displayName == users[userId].displayName && r[userId].email == users[userId].email
              && r[userId].badges == users[userId].badges + [Badge(name, projectId, now)]
    ensures userId !in users || !HasBadge(users[userId].badges, name, projectId) ==> r == GrantBadge(users, userId, name, projectId, now)
  {
    if userId !in users then users
    else users[userId := users[userId].(badges := users[userId].badges + [Badge(name, projectId, now)])]
  }

  /** Fed a populated project, a second grant of a badge the user holds adds a duplicate. */
  lemma GrantBadgeAsWrittenDuplicates(users: map<Id, User>, userId: Id, name: string, projectId: Id, now: int)
    requires userId in users && HasBadge(users[userId].badges, name, projectId)
    ensures !UniqueBadges(GrantBadgeAsWritten(users, userId, name, projectId, now)[userId].badges)
    ensures !BadgesWellFormed(GrantBadgeAsWritten(users, userId, name, projectId, now))
  {
    var bs := users[userId].badges;
    var i :| 0 <= i < |bs| && bs[i].name == name && bs[i].projectId == projectId;
    var nb := GrantBadgeAsWritten(users, userId, name, projectId, now)[userId].badges;
    assert nb[i] == bs[i] && nb[|bs|] == Badge(name, projectId, now);
  }

  // ---------------------------------------------------------------------
  // executeAutomationAction

  /** `Task.findByIdAndUpdate(id, { status, updatedAt })`. */
  function SetTaskStatus(ts: seq<Task>, id: Id, status: string, now: int): (r: seq<Task>)
    ensures |r| == |ts|
    ensures forall i :: 0 <= i < |ts| ==> r[i] == if ts[i].id == id then ts[i].(status := status, updatedAt := now) else ts[i]
  {
    seq(|ts|, i requires 0 <= i < |ts| => if ts[i].id == id then ts[i].(status := status, updatedAt := now) else ts[i])
  }

  lemma SetTaskStatusKeepsIds(ts: seq<Task>, id: Id, status: string, now: int)
    ensures TaskIds(SetTaskStatus(ts, id, status, now)) == TaskIds(ts)
  {
  }

  /** The record a `send_notification` action (or `sendAutomationNotification`) builds. */
  function AutomationNotice(recipient: Id, sender: Id, task: Task, automationId: Option<Id>,
                            template: string, dateText: int -> string): (d: NotificationData)
    ensures d.recipient == recipient && d.sender == sender && d.kind == AutomationTriggeredNotice
    ensures d.taskId == Some(task.id) && d.projectId == Some(task.project) && d.invitationId.None?
    ensures d.automationId == automationId && !d.read
    ensures d.message == FormatNotificationMessage(template, task, dateText)
  {
    NotificationData(recipient, sender, AutomationTriggeredNotice, Some(task.id), Some(task.project),
                     None, automationId, FormatNotificationMessage(template, task, dateText), false)
  }

  /**
   * `executeAutomationAction(automation, task, triggeringUserId)` on the
   * store `w`.  `populated` says whether `task.project` holds the populated
   * project document (as in the due-date sweep) rather than its id; only
   * badge deduplication can tell the two apart.
   */
  function ExecuteAction(w: World, a: Automation, task: Task, trig: Option<Id>, env: Env, populated: bool): (r: World)
    ensures r.projects == w.projects && r.automations == w.automations && r.invitations == w.invitations
    ensures |w.notifications| <= |r.notifications| <= |w.notifications| + 1
    ensures r.notifications[..|w.notifications|] == w.notifications
  {
    match a.action
    case AssignBadge(badgeName) =>
      if task.assignee.Some? && Truthy(badgeName) then
        w.(users := if populated then GrantBadgeAsWritten(w.users, task.assignee.value, badgeName.value, task.project, env.now)
                    else GrantBadge(w.users, task.assignee.value, badgeName.value, task.project, env.now))
      else w
    case ChangeTaskStatus(status) =>
      if Truthy(status) then w.(tasks := SetTaskStatus(w.tasks, task.id, status.value, env.now)) else w
    case SendNotification(template) =>
      if task.assignee.Some? && Truthy(template) then
        var d := AutomationNotice(task.assignee.value, if trig.Some? then trig.value else task.createdBy,
                                  task, Some(a.id), template.value, env.dateText);
        if Storable(d) then AddNotification(w, d, env.now) else w
      else w
  }

  /** A badge action grants at most the one badge, to the assignee only, and changes nothing else. */
  lemma AssignBadgeEffect(w: World, a: Automation, task: Task, trig: Option<Id>, env: Env)
    requires a.action.AssignBadge?
    ensures var r := ExecuteAction(w, a, task, trig, env, false);
            && r.tasks == w.tasks && r.notifications == w.notifications && r.nextId == w.nextId
            && (task.assignee.Some? && Truthy(a.action.badgeName) && task.assignee.value in w.users ==>
                  HasBadge(r.users[task.assignee.value].badges, a.action.badgeName.value, task.project))
            && (task.assignee.None? || !Truthy(a.action.badgeName) ==> r.users == w.users)
            && (forall id :: id in w.users && Some(id) != task.assignee ==> id in r.users && r.users[id] == w.users[id])
  {
  }

  /**
   * A status action rewrites the status of that one task only; it creates
   * no notification and grants no badge, because it does not go back
   * through the event pipeline.
   */
  lemma ChangeStatusNoCascade(w: World, a: Automation, task: Task, trig: Option<Id>, env: Env, populated: bool)
    requires a.action.ChangeTaskStatus?
    ensures var r := ExecuteAction(w, a, task, trig, env, populated);
            && r.users == w.users && r.notifications == w.notifications && r.nextId == w.nextId
            && |r.tasks| == |w.tasks|
            && (forall i :: 0 <= i < |w.tasks| && w.tasks[i].id != task.id ==> r.tasks[i] == w.tasks[i])
            && (Truthy(a.action.status) ==>
                  forall i :: 0 <= i < |w.tasks| && w.tasks[i].id == task.id ==>
                    r.tasks[i] == w.tasks[i].(status := a.action.status.value, updatedAt := env.now))
            && (!Truthy(a.action.status) ==> r.tasks == w.tasks)
  {
  }

  /**
   * A notification action creates exactly one record when the task has an
   * assignee, the template is non-empty and the formatted text is too, and
   * none otherwise.  The record goes to the assignee, comes from the
   * triggering user (the task's creator when there is none), and names the
   * automation.
   */
  lemma SendNotificationEffect(w: World, a: Automation, task: Task, trig: Option<Id>, env: Env, populated: bool)
    requires a.action.SendNotification?
    ensures var r := ExecuteAction(w, a, task, trig, env, populated);
            && r.users == w.users && r.tasks == w.tasks
            && (|r.notifications| == |w.notifications| + 1 <==>
                  && task.assignee.Some? && Truthy(a.action.notificationMessage)
                  && FormatNotificationMessage(a.action.notificationMessage.value, task, env.dateText) != "")
            && (|r.notifications| == |w.notifications| + 1 ==>
                  var d := r.notifications[|w.notifications|].data;
                  && d.recipient == task.assignee.value
                  && d.sender == (if trig.Some? then trig.value else task.createdBy)
                  && d.kind == AutomationTriggeredNotice && !d.read
                  && d.taskId == Some(task.id) && d.projectId == Some(task.project)
                  && d.automationId == Some(a.id)
                  && d.message == FormatNotificationMessage(a.action.notificationMessage.value, task, env.dateText))
  {
  }

  /** Executing an action (with the project held as an id) keeps every store invariant. */
  lemma ExecuteActionKeepsValid(w: World, a: Automation, task: Task, trig: Option<Id>, env: Env)
    requires WorldValid(w)
    ensures WorldValid(ExecuteAction(w, a, task, trig, env, false))
  {
    match a.action
    case AssignBadge(badgeName) =>
      if task.assignee.Some? && Truthy(badgeName) {
        GrantBadgeKeepsUnique(w.users, task.assignee.value, badgeName.value, task.project, env.now);
        EmailsUniqueAfterGrant(w.users, task.assignee.value, badgeName.value, task.project, env.now);
      }
    case ChangeTaskStatus(status) =>
      if Truthy(status) {
        SetTaskStatusKeepsIds(w.tasks, task.id, status.value, env.now);
      }
    case SendNotification(template) =>
      if task.assignee.Some? && Truthy(template) {
        var d := AutomationNotice(task.assignee.value, if trig.Some? then trig.value else task.createdBy,
                                  task, Some(a.id), template.value, env.dateText);
        if Storable(d) {
          AddNotificationKeepsValid(w, d, env.now);
        }
      }
  }

  /** With the project populated, a badge the assignee already holds is granted again. */
  lemma ExecuteActionAsWrittenDuplicatesBadge(w: World, a: Automation, task: Task, env: Env)
    requires a.action.AssignBadge? && Truthy(a.action.badgeName)
    requires task.assignee.Some? && task.assignee.value in w.users
    requires HasBadge(w.users[task.assignee.value].badges, a.action.badgeName.value, task.project)
    ensures !BadgesWellFormed(ExecuteAction(w, a, task, None, env, true).users)
  {
    GrantBadgeAsWrittenDuplicates(w.users, task.assignee.value, a.action.badgeName.value, task.project, env.now);
  }

  // ---------------------------------------------------------------------
  // Running a list of automations

  /** Executes `as_` in order against the same task snapshot. */
  function RunAll(w: World, as_: seq<Automation>, task: Task, trig: Option<Id>, env: Env, populated: bool): (r: World)
    decreases |as_|
    ensures r.projects == w.projects && r.automations == w.automations && r.invitations == w.invitations
    ensures |w.notifications| <= |r.notifications| && r.notifications[..|w.notifications|] == w.notifications
  {
    if as_ == [] then w
    else
      var prev := RunAll(w, as_[..|as_| - 1], task, trig, env, populated);
      ExecuteAction(prev, as_[|as_| - 1], task, trig, env, populated)
  }

  lemma {:induction false} RunAllKeepsValid(w: World, as_: seq<Automation>, task: Task, trig: Option<Id>, env: Env)
    requires WorldValid(w)
    ensures WorldValid(RunAll(w, as_, task, trig, env, false))
    decreases |as_|
  {
    if as_ != [] {
      RunAllKeepsValid(w, as_[..|as_| - 1], task, trig, env);
      ExecuteActionKeepsValid(RunAll(w, as_[..|as_| - 1], task, trig, env, false), as_[|as_| - 1], task, trig, env);
    }
  }

  /**
   * `processStatusChangeAutomations(task, previousStatus, userId)`: runs
   * the selected automations; projects, rules and invitations stay as they
   * are, notifications are only appended, and the store invariants hold.
   */
  function ProcessStatusChange(w: World, task: Task, previousStatus: string, trig: Option<Id>, env: Env): (r: World)
    ensures r.projects == w.projects && r.automations == w.automations && r.invitations == w.invitations
    ensures |w.notifications| <= |r.notifications| && r.notifications[..|w.notifications|] == w.notifications
    ensures WorldValid(w) ==> WorldValid(r)
  {
    var sel := SelectStatus(w.automations, task.project, previousStatus, task.status);
    assert WorldValid(w) ==> WorldValid(RunAll(w, sel, task, trig, env, false)) by {
      if WorldValid(w) {
        RunAllKeepsValid(w, sel, task, trig, env);
      }
    }
    RunAll(w, sel, task, trig, env, false)
  }

  /** `processTaskAssignmentAutomations(task, userId)`: nothing happens for an unassigned task. */
  function ProcessAssignment(w: World, task: Task, trig: Option<Id>, env: Env): (r: World)
    ensures task.assignee.None? ==> r == w
    ensures r.projects == w.projects && r.automations == w.automations && r.invitations == w.invitations
    ensures |w.notifications| <= |r.notifications| && r.notifications[..|w.notifications|] == w.notifications
    ensures WorldValid(w) ==> WorldValid(r)
  {
    if task.assignee.None? then w
    else
      var sel := SelectAssignment(w.automations, task.project, task.assignee.value);
      assert WorldValid(w) ==> WorldValid(RunAll(w, sel, task, trig, env, false)) by {
        if WorldValid(w) {
          RunAllKeepsValid(w, sel, task, trig, env);
        }
      }
      RunAll(w, sel, task, trig, env, false)
  }

  /** `processTaskUpdate(task, previousTask, userId)`: status automations first, then assignment automations. */
  function ProcessUpdate(w: World, task: Task, previous: Task, trig: Option<Id>, env: Env): (r: World)
    ensures r.projects == w.projects && r.automations == w.automations && r.invitations == w.invitations
    ensures |w.notifications| <= |r.notifications| && r.notifications[..|w.notifications|] == w.notifications
    ensures WorldValid(w) ==> WorldValid(r)
  {
    var w1 := if StatusChanged(previous, task) then ProcessStatusChange(w, task, previous.status, trig, env) else w;
    var r := if AssignmentChanged(previous, task) then ProcessAssignment(w1, task, trig, env) else w1;
    assert r.notifications[..|w.notifications|] == r.notifications[..|w1.notifications|][..|w.notifications|];
    r
  }

  /** An update that keeps the status and does not hand the task to someone new runs nothing. */
  lemma QuietUpdateRunsNothing(w: World, task: Task, previous: Task, trig: Option<Id>, env: Env)
    requires previous.status == task.status
    requires task.assignee.None? || task.assignee == previous.assignee
    ensures ProcessUpdate(w, task, previous, trig, env) == w
  {
  }

  /** An automation whose status trigger names neither end is never run by the service. */
  lemma UnconditionedStatusTriggerNeverSelected(as_: seq<Automation>, a: Automation, project: Id, previousStatus: string, status: string)
    requires a.trigger == TaskStatusChange(None, None)
    ensures a !in SelectStatus(as_, project, previousStatus, status)
  {
  }

  /** In a valid store each event selects every rule once, so no rule runs twice for one event. */
  lemma SelectionsOnce(w: World, project: Id, previousStatus: string, status: string, assignee: Id)
    requires WorldValid(w)
    ensures NoDuplicates(SelectStatus(w.automations, project, previousStatus, status))
    ensures NoDuplicates(SelectAssignment(w.automations, project, assignee))
    ensures NoDuplicates(SelectDueDate(w.automations, project))
  {
    DistinctIdsDistinctRecords(w);
    SubMultisetNoDuplicates(SelectStatus(w.automations, project, previousStatus, status), w.automations);
    SubMultisetNoDuplicates(SelectAssignment(w.automations, project, assignee), w.automations);
    SubMultisetNoDuplicates(SelectDueDate(w.automations, project), w.automations);
  }

  // ---------------------------------------------------------------------
  // processDueDateAutomations

  /** The sweep's task filter: a due date before now, and a status other than "Done". */
  predicate Overdue(t: Task, now: int)
  {
    t.dueDate.Some? && t.dueDate.value < now && t.status != DoneStatus
  }

  /** `Task.find({ dueDate: { $lt: now }, status: { $ne: 'Done' } })`, in store order. */
  function OverdueTasks(ts: seq<Task>, now: int): (r: seq<Task>)
    ensures |r| <= |ts|
    ensures forall t :: t in r <==> t in ts && Overdue(t, now)
    ensures Filtered(r, ts, (t: Task) => Overdue(t, now))
  {
    if ts == [] then []
    else
      assert ts == [ts[0]] + ts[1..];
      (if Overdue(ts[0], now) then [ts[0]] else []) + OverdueTasks(ts[1..], now)
  }

  /** In a valid store the sweep visits each overdue task once. */
  lemma OverdueTasksOnce(w: World, now: int)
    requires WorldValid(w)
    ensures NoDuplicates(OverdueTasks(w.tasks, now))
  {
    DistinctIdsDistinctRecords(w);
    SubMultisetNoDuplicates(OverdueTasks(w.tasks, now), w.tasks);
  }

  /** Where a sweep has got to: the store so far, and whether it has stopped on an error. */
  datatype SweepState = SweepState(world: World, halted: bool)

  /**
   * The sweep over a snapshot of overdue tasks: each task's due-date
   * automations run with no triggering user.  A task whose project no longer
   * exists makes reading `task.project._id` throw, which ends the sweep.
   */
  function Sweep(w: World, overdue: seq<Task>, env: Env, populated: bool): (r: SweepState)
    decreases |overdue|
    ensures r.world.projects == w.projects && r.world.automations == w.automations
    ensures |w.notifications| <= |r.world.notifications| && r.world.notifications[..|w.notifications|] == w.notifications
  {
    if overdue == [] then SweepState(w, false)
    else
      var st := Sweep(w, overdue[..|overdue| - 1], env, populated);
      var t := overdue[|overdue| - 1];
      if st.halted || t.project !in st.world.projects then SweepState(st.world, true)
      else SweepState(RunAll(st.world, SelectDueDate(st.world.automations, t.project), t, None, env, populated), false)
  }

  /**
   * `processDueDateAutomations()` on the store `w` at time `env.now`:
   * projects and rules stay as they are and notifications are only appended.
   */
  function ProcessDueDate(w: World, env: Env): (r: World)
    ensures r.projects == w.projects && r.automations == w.automations
    ensures |w.notifications| <= |r.notifications| && r.notifications[..|w.notifications|] == w.notifications
  {
    Sweep(w, OverdueTasks(w.tasks, env.now), env, false).world
  }

  /** One more task of the sweep, while it has not stopped. */
  lemma SweepNext(w: World, overdue: seq<Task>, i: nat, env: Env, populated: bool)
    requires i < |overdue|
    requires !Sweep(w, overdue[..i], env, populated).halted
    ensures var st := Sweep(w, overdue[..i], env, populated);
            var t := overdue[i];
            Sweep(w, overdue[..i + 1], env, populated) ==
              if t.project !in st.world.projects then SweepState(st.world, true)
              else SweepState(RunAll(st.world, SelectDueDate(st.world.automations, t.project), t, None, env, populated), false)
  {
    TakeNext(overdue, i);
  }

  lemma {:induction false} SweepHaltedStays(w: World, overdue: seq<Task>, k: nat, env: Env, populated: bool)
    requires k <= |overdue|
    requires Sweep(w, overdue[..k], env, populated).halted
    ensures Sweep(w, overdue, env, populated) == Sweep(w, overdue[..k], env, populated)
    decreases |overdue| - k
  {
    if k < |overdue| {
      assert overdue[..k + 1][..k] == overdue[..k];
      SweepHaltedStays(w, overdue, k + 1, env, populated);
    } else {
      assert overdue[..k] == overdue;
    }
  }

  /** Number of records that automation `aid` sent about task `tid`. */
  function NoticesFor(ns: seq<Notification>, aid: Id, tid: Id): (c: nat)
    ensures c <= |ns|
  {
    if ns == [] then 0
    else NoticesFor(ns[..|ns| - 1], aid, tid)
         + (if ns[|ns| - 1].data.automationId == Some(aid) && ns[|ns| - 1].data.taskId == Some(tid) then 1 else 0)
  }

  lemma {:induction false} NoticesForPrefix(ns: seq<Notification>, k: nat, aid: Id, tid: Id)
    requires k <= |ns|
    ensures NoticesFor(ns[..k], aid, tid) <= NoticesFor(ns, aid, tid)
    decreases |ns| - k
  {
    if k < |ns| {
      assert ns[..|ns| - 1][..k] == ns[..k];
      NoticesForPrefix(ns[..|ns| - 1], k, aid, tid);
    } else {
      assert ns[..k] == ns;
    }
  }

  /** The one record that fires when a due-date notification automation meets an assigned, overdue task. */
  predicate Notifies(a: Automation, t: Task, env: Env)
  {
    && a.action.SendNotification? && t.assignee.Some? && Truthy(a.action.notificationMessage)
    && FormatNotificationMessage(a.action.notificationMessage.value, t, env.dateText) != ""
  }

  lemma {:induction false} RunAllNotifies(w: World, as_: seq<Automation>, a: Automation, t: Task, env: Env, populated: bool)
    requires a in as_ && Notifies(a, t, env)
    ensures NoticesFor(RunAll(w, as_, t, None, env, populated).notifications, a.id, t.id) > NoticesFor(w.notifications, a.id, t.id)
    decreases |as_|
  {
    var init := as_[..|as_| - 1];
    var prev := RunAll(w, init, t, None, env, populated);
    var r := RunAll(w, as_, t, None, env, populated);
    if as_[|as_| - 1] == a {
      SendNotificationEffect(prev, a, t, None, env, populated);
      assert r.notifications[..|prev.notifications|] == prev.notifications;
      assert r.notifications[..|r.notifications| - 1] == prev.notifications;
      NoticesForPrefix(prev.notifications, |w.notifications|, a.id, t.id);
      assert prev.notifications[..|w.notifications|] == w.notifications;
    } else {
      assert a in init;
      RunAllNotifies(w, init, a, t, env, populated);
      NoticesForPrefix(r.notifications, |prev.notifications|, a.id, t.id);
    }
  }

  lemma {:induction false} SweepNotifies(w: World, overdue: seq<Task>, k: nat, a: Automation, env: Env, populated: bool)
    requires k < |overdue|
    requires forall i :: 0 <= i < |overdue| ==> overdue[i].project in w.projects
    requires a in w.automations && SelectedForDueDate(a, overdue[k].project) && Notifies(a, overdue[k], env)
    ensures !Sweep(w, overdue, env, populated).halted
    ensures NoticesFor(Sweep(w, overdue, env, populated).world.notifications, a.id, overdue[k].id)
          > NoticesFor(w.notifications, a.id, overdue[k].id)
    decreases |overdue|
  {
    var n := |overdue|;
    var init := overdue[..n - 1];
    var t := overdue[n - 1];
    var st := Sweep(w, init, env, populated);
    var r := Sweep(w, overdue, env, populated);
    assert forall i :: 0 <= i < |init| ==> init[i] == overdue[i];
    NotHalted(w, init, env, populated);
    if k == n - 1 {
      RunAllNotifies(st.world, SelectDueDate(st.world.automations, t.project), a, t, env, populated);
      NoticesForPrefix(st.world.notifications, |w.notifications|, a.id, t.id);
      assert st.world.notifications[..|w.notifications|] == w.notifications;
    } else {
      SweepNotifies(w, init, k, a, env, populated);
      assert init[k] == overdue[k];
      NoticesForPrefix(r.world.notifications, |st.world.notifications|, a.id, overdue[k].id);
      assert r.world.notifications[..|st.world.notifications|] == st.world.notifications;
    }
  }

  lemma {:induction false} NotHalted(w: World, overdue: seq<Task>, env: Env, populated: bool)
    requires forall i :: 0 <= i < |overdue| ==> overdue[i].project in w.projects
    ensures !Sweep(w, overdue, env, populated).halted
    decreases |overdue|
  {
    if overdue != [] {
      var init := overdue[..|overdue| - 1];
      assert forall i :: 0 <= i < |init| ==> init[i] == overdue[i];
      NotHalted(w, init, env, populated);
    }
  }

  /**
   * Sweeps keep no memory of what they already did: a sweep that meets an
   * overdue, assigned task and a notification automation of its project
   * sends the record again, however many it has sent before.
   */
  lemma SweepRenotifies(w: World, a: Automation, t: Task, env: Env)
    requires t in w.tasks && Overdue(t, env.now)
    requires forall u :: u in w.tasks && Overdue(u, env.now) ==> u.project in w.projects
    requires a in w.automations && SelectedForDueDate(a, t.project) && Notifies(a, t, env)
    ensures NoticesFor(ProcessDueDate(w, env).notifications, a.id, t.id) > NoticesFor(w.notifications, a.id, t.id)
  {
    var overdue := OverdueTasks(w.tasks, env.now);
    assert t in overdue;
    var k :| 0 <= k < |overdue| && overdue[k] == t;
    assert forall i :: 0 <= i < |overdue| ==> overdue[i] in overdue;
    SweepNotifies(w, overdue, k, a, env, false);
  }

  // ---------------------------------------------------------------------
  // The methods

  method AssignBadgeToUser(s: Store, userId: Id, name: string, projectId: Id, now: int)
    requires s.Valid()
    modifies s
    ensures s.Valid()
    ensures s.Model() == old(s.Model()).(users := GrantBadge(old(s.users), userId, name, projectId, now))
  {
    GrantBadgeKeepsUnique(s.users, userId, name, projectId, now);
    if userId !in s.users {
      return;
    }
    var user := s.users[userId];
    if !HasBadge(user.badges, name, projectId) {
      s.users := s.users[userId := user.(badges := user.badges + [Badge(name, projectId, now)])];
    }
  }

  method ExecuteAutomationAction(s: Store, a: Automation, task: Task, trig: Option<Id>, env: Env)
    requires s.Valid()
    modifies s
    ensures s.Valid()
    ensures s.Model() == ExecuteAction(old(s.Model()), a, task, trig, env, false)
  {
    ExecuteActionKeepsValid(s.Model(), a, task, trig, env);
    match a.action
    case AssignBadge(badgeName) =>
      if task.assignee.Some? && Truthy(badgeName) {
        AssignBadgeToUser(s, task.assignee.value, badgeName.value, task.project, env.now);
      }
    case ChangeTaskStatus(status) =>
      if Truthy(status) {
        s.tasks := SetTaskStatus(s.tasks, task.id, status.value, env.now);
      }
    case SendNotification(template) =>
      if task.assignee.Some? && Truthy(template) {
        var sender := if trig.Some? then trig.value else task.createdBy;
        var d := AutomationNotice(task.assignee.value, sender, task, Some(a.id), template.value, env.dateText);
        var _ := CreateNotification(s, d, env.now);
      }
  }

  /** Runs `as_` one after the other, as the `for ... of` loops do. */
  method RunAutomations(s: Store, as_: seq<Automation>, task: Task, trig: Option<Id>, env: Env)
    requires s.Valid()
    modifies s
    ensures s.Valid()
    ensures s.Model() == RunAll(old(s.Model()), as_, task, trig, env, false)
  {
    ghost var w0 := s.Model();
    var i := 0;
    while i < |as_|
      invariant 0 <= i <= |as_|
      invariant s.Valid()
      invariant s.Model() == RunAll(w0, as_[..i], task, trig, env, false)
    {
      assert as_[..i + 1][..i] == as_[..i];
      ExecuteAutomationAction(s, as_[i], task, trig, env);
      i := i + 1;
    }
    assert as_[..i] == as_;
  }

  method ProcessStatusChangeAutomations(s: Store, task: Task, previousStatus: string, trig: Option<Id>, env: Env)
    requires s.Valid()
    modifies s
    ensures s.Valid()
    ensures s.Model() == ProcessStatusChange(old(s.Model()), task, previousStatus, trig, env)
  {
    var automations := SelectStatus(s.automations, task.project, previousStatus, task.status);
    RunAutomations(s, automations, task, trig, env);
  }

  method ProcessTaskAssignmentAutomations(s: Store, task: Task, trig: Option<Id>, env: Env)
    requires s.Valid()
    modifies s
    ensures s.Valid()
    ensures s.Model() == ProcessAssignment(old(s.Model()), task, trig, env)
  {
    if task.assignee.None? {
      return;
    }
    var automations := SelectAssignment(s.automations, task.project, task.assignee.value);
    RunAutomations(s, automations, task, trig, env);
  }

  method ProcessTaskUpdate(s: Store, task: Task, previous: Task, trig: Option<Id>, env: Env)
    requires s.Valid()
    modifies s
    ensures s.Valid()
    ensures s.Model() == ProcessUpdate(old(s.Model()), task, previous, trig, env)
  {
    if previous.status != task.status {
      ProcessStatusChangeAutomations(s, task, previous.status, trig, env);
    }
    if AssignmentChanged(previous, task) {
      ProcessTaskAssignmentAutomations(s, task, trig, env);
    }
  }

  method ProcessDueDateAutomations(s: Store, env: Env)
    requires s.Valid()
    modifies s
    ensures s.Valid()
    ensures s.Model() == ProcessDueDate(old(s.Model()), env)
  {
    ghost var w0 := s.Model();
    var overdue := OverdueTasks(s.tasks, env.now);
    var i := 0;
    while i < |overdue|
      invariant 0 <= i <= |overdue|
      invariant s.Valid()
      invariant Sweep(w0, overdue[..i], env, false) == SweepState(s.Model(), false)
    {
      var task := overdue[i];
      SweepNext(w0, overdue, i, env, false);
      if task.project !in s.projects {
        SweepHaltedStays(w0, overdue, i + 1, env, false);
        return;
      }
      var automations := SelectDueDate(s.automations, task.project);
      RunAutomations(s, automations, task, None, env);
      i := i + 1;
    }
    assert overdue[..i] == overdue;
  }

  /** `sendAutomationNotification(task, recipientId, senderId, template, automationId)`. */
  method SendAutomationNotification(s: Store, task: Task, recipient: Id, sender: Id, template: string,
                                    automationId: Option<Id>, env: Env)
    requires s.Valid()
    modifies s
    ensures s.Valid()
    ensures var d := AutomationNotice(recipient, sender, task, automationId, template, env.dateText);
            s.Model() == if Storable(d) then AddNotification(old(s.Model()), d, env.now) else old(s.Model())
  {
    var d := AutomationNotice(recipient, sender, task, automationId, template, env.dateText);
    var _ := CreateNotification(s, d, env.now);
  }
}
