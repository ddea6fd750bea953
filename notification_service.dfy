/**
 * The notification store: creating a record, the two event notifications
 * with their "do not notify yourself" rules, the newest-first listing and
 * the two ways of marking records read.
 *
 * Each operation is a method on the store, proved against a function on
 * `World` (or on the notification sequence) that states its outcome.
 */
module NotificationService {
  import opened Common
  import opened Model
  import opened Db

  // ---------------------------------------------------------------------
  // createNotification

  /** The notification schema's one check that can fail here: `message` is required, and "" does not count. */
  predicate Storable(d: NotificationData)
  {
    d.message != ""
  }

  /** The store after saving `d`: it gets the next id and `createdAt = now`. */
  function AddNotification(w: World, d: NotificationData, now: int): World
  {
    w.(notifications := w.notifications + [Notification(w.nextId, d, now)], nextId := w.nextId + 1)
  }

  /** Only the notification collection (and the id counter) differ between `w` and `w'`. */
  predicate OnlyNotificationsChanged(w: World, w': World)
  {
    w'.projects == w.projects && w'.tasks == w.tasks && w'.users == w.users
    && w'.automations == w.automations && w'.invitations == w.invitations
  }

  lemma NotificationIdsAppend(ns: seq<Notification>, n: Notification)
    ensures NotificationIds(ns + [n]) == NotificationIds(ns) + [n.id]
  {
  }

  /** Saving a record appends exactly that record, keeps every invariant, and touches nothing else. */
  lemma AddNotificationKeepsValid(w: World, d: NotificationData, now: int)
    requires WorldValid(w)
    ensures WorldValid(AddNotification(w, d, now))
    ensures OnlyNotificationsChanged(w, AddNotification(w, d, now))
    ensures AddNotification(w, d, now).notifications[..|w.notifications|] == w.notifications
    ensures AddNotification(w, d, now).notifications[|w.notifications|].data == d
  {
    var w' := AddNotification(w, d, now);
    NotificationIdsAppend(w.notifications, Notification(w.nextId, d, now));
    IssueNext(NotificationIds(w.notifications), w.nextId);
    IssuedLater(TaskIds(w.tasks), w.nextId, w'.nextId);
    IssuedLater(AutomationIds(w.automations), w.nextId, w'.nextId);
    IssuedLater(InvitationIds(w.invitations), w.nextId, w'.nextId);
  }

  /** `createNotification(data)`: stores `data`, or throws the validation error and stores nothing. */
  method CreateNotification(s: Store, d: NotificationData, now: int) returns (r: Result<Id>)
    requires s.Valid()
    modifies s
    ensures s.Valid()
    ensures Storable(d) ==> r == Success(old(s.nextId)) && s.Model() == AddNotification(old(s.Model()), d, now)
    ensures !Storable(d) ==> r == Failure(ServerError) && s.Model() == old(s.Model())
  {
    if d.message == "" {
      return Failure(ServerError);
    }
    AddNotificationKeepsValid(s.Model(), d, now);
    r := Success(s.nextId);
    s.notifications := s.notifications + [Notification(s.nextId, d, now)];
    s.nextId := s.nextId + 1;
  }

  // ---------------------------------------------------------------------
  // sendTaskAssignmentNotification

  function AssignmentMessage(taskTitle: string, projectTitle: string, assignerName: string): (m: string)
    ensures m != ""
  {
    "You have been assigned to task \"" + taskTitle + "\" in project \"" + projectTitle + "\" by " + assignerName
  }

  /**
   * The record `sendTaskAssignmentNotification` would create, if any.  It
   * creates none when the assignee is the assigner, when the task or the
   * assigner does not exist, or when the task's project does not (reading
   * the missing project's title throws, and the error is swallowed).
   */
  function AssignmentNotice(w: World, taskId: Id, assigneeId: Id, assignerId: Id): (r: Option<NotificationData>)
    ensures r.Some? <==>
              && assigneeId != assignerId
              && FindTask(w.tasks, taskId).Some?
              && w.tasks[FindTask(w.tasks, taskId).value].project in w.projects
              && assignerId in w.users
    ensures r.Some? ==>
              && r.value.kind == TaskAssignmentNotice
              && r.value.recipient == assigneeId && r.value.sender == assignerId
              && r.value.taskId == Some(taskId)
              && r.value.projectId == Some(w.tasks[FindTask(w.tasks, taskId).value].project)
              && r.value.invitationId.None? && r.value.automationId.None?
              && !r.value.read && Storable(r.value)
  {
    if assigneeId == assignerId then None
    else match FindTask(w.tasks, taskId)
      case None => None
      case Some(k) =>
        var task := w.tasks[k];
        if task.project !in w.projects || assignerId !in w.users then None
        else
          var msg := AssignmentMessage(task.title, w.projects[task.project].title, NameOf(w.users[assignerId]));
          Some(NotificationData(assigneeId, assignerId, TaskAssignmentNotice, Some(taskId),
                                Some(task.project), None, None, msg, false))
  }

  method SendTaskAssignmentNotification(s: Store, taskId: Id, assigneeId: Id, assignerId: Id, now: int)
    requires s.Valid()
    modifies s
    ensures s.Valid()
    ensures var d := AssignmentNotice(old(s.Model()), taskId, assigneeId, assignerId);
            s.Model() == if d.Some? then AddNotification(old(s.Model()), d.value, now) else old(s.Model())
  {
    var d := AssignmentNotice(s.Model(), taskId, assigneeId, assignerId);
    if d.Some? {
      var _ := CreateNotification(s, d.value, now);
    }
  }

  // ---------------------------------------------------------------------
  // sendTaskStatusUpdateNotification

  function StatusUpdateMessage(taskTitle: string, previousStatus: string, status: string, updaterName: string): (m: string)
    ensures m != ""
  {
    "Your task \"" + taskTitle + "\" has been moved from \"" + previousStatus + "\" to \"" + status + "\" by " + updaterName
  }

  /**
   * The record `sendTaskStatusUpdateNotification` would create for the
   * updated `task`: none when it has no assignee, when the assignee made
   * the update, or when the updater does not exist.
   */
  function StatusUpdateNotice(w: World, task: Task, updaterId: Id, previousStatus: string): (r: Option<NotificationData>)
    ensures r.Some? <==> task.assignee.Some? && task.assignee.value != updaterId && updaterId in w.users
    ensures r.Some? ==>
              && r.value.kind == TaskStatusUpdateNotice
              && r.value.recipient == task.assignee.value && r.value.sender == updaterId
              && r.value.taskId == Some(task.id) && r.value.projectId == Some(task.project)
              && r.value.invitationId.None? && r.value.automationId.None?
              && !r.value.read && Storable(r.value)
  {
    if task.assignee.None? || task.assignee.value == updaterId || updaterId !in w.users then None
    else
      var msg := StatusUpdateMessage(task.title, previousStatus, task.status, NameOf(w.users[updaterId]));
      Some(NotificationData(task.assignee.value, updaterId, TaskStatusUpdateNotice, Some(task.id),
                            Some(task.project), None, None, msg, false))
  }

  method SendTaskStatusUpdateNotification(s: Store, task: Task, updaterId: Id, previousStatus: string, now: int)
    requires s.Valid()
    modifies s
    ensures s.Valid()
    ensures var d := StatusUpdateNotice(old(s.Model()), task, updaterId, previousStatus);
            s.Model() == if d.Some? then AddNotification(old(s.Model()), d.value, now) else old(s.Model())
  {
    var d := StatusUpdateNotice(s.Model(), task, updaterId, previousStatus);
    if d.Some? {
      var _ := CreateNotification(s, d.value, now);
    }
  }

  // ---------------------------------------------------------------------
  // getUserNotifications

  /** The listing's page size. */
  const PageSize: nat := 20

  /** The recipient's notifications, latest stored first. */
  function NewestFirst(ns: seq<Notification>, userId: Id): (r: seq<Notification>)
    ensures |r| <= |ns|
    ensures forall n :: n in r ==> n in ns && n.data.recipient == userId
    ensures forall n :: n in ns && n.data.recipient == userId ==> n in r
    ensures Filtered(r, ns, (n: Notification) => n.data.recipient == userId)
  {
    if ns == [] then []
    else
      var last := ns[|ns| - 1];
      assert ns == ns[..|ns| - 1] + [last];
      (if last.data.recipient == userId then [last] else []) + NewestFirst(ns[..|ns| - 1], userId)
  }

  function Take<T>(s: seq<T>, k: nat): (r: seq<T>)
    ensures |r| == if |s| <= k then |s| else k
    ensures r == s[..|r|]
  {
    if |s| <= k then s else s[..k]
  }

  /**
   * `getUserNotifications(userId)`: the user's notifications, newest first,
   * at most `PageSize` of them.  Records are stored in the order they are
   * created, so store order stands for `createdAt` order.
   */
  function UserNotifications(ns: seq<Notification>, userId: Id): (r: seq<Notification>)
    ensures |r| <= PageSize
    ensures forall n :: n in r ==> n in ns && n.data.recipient == userId
    ensures |r| == if |NewestFirst(ns, userId)| <= PageSize then |NewestFirst(ns, userId)| else PageSize
    ensures r == NewestFirst(ns, userId)[..|r|]
    ensures multiset(r) <= multiset(ns)
  {
    var all := NewestFirst(ns, userId);
    assert all == all[..|Take(all, PageSize)|] + all[|Take(all, PageSize)|..];
    Take(all, PageSize)
  }

  /** Timestamps never decrease along the store: each record is created no earlier than the previous one. */
  predicate Chronological(ns: seq<Notification>)
  {
    forall i, j :: 0 <= i < j < |ns| ==> ns[i].createdAt <= ns[j].createdAt
  }

  /** The order `.sort({ createdAt: -1 })` produces: creation times never increase along the listing. */
  predicate NewestFirstOrder(r: seq<Notification>)
  {
    forall i, j :: 0 <= i < j < |r| ==> r[i].createdAt >= r[j].createdAt
  }

  lemma {:induction false} NewestFirstSorted(ns: seq<Notification>, userId: Id)
    requires Chronological(ns)
    ensures NewestFirstOrder(NewestFirst(ns, userId))
  {
    if ns != [] {
      var init := ns[..|ns| - 1];
      assert Chronological(init);
      NewestFirstSorted(init, userId);
      var rest := NewestFirst(init, userId);
      var last := ns[|ns| - 1];
      forall n | n in rest ensures n.createdAt <= last.createdAt {
        var k :| 0 <= k < |init| && init[k] == n;
        assert ns[k] == n;
      }
      if last.data.recipient == userId {
        NewerInFront(last, rest);
      }
    }
  }

  /** A record no older than any in a newest-first list can go in front of it. */
  lemma NewerInFront(n: Notification, rest: seq<Notification>)
    requires NewestFirstOrder(rest)
    requires forall m :: m in rest ==> m.createdAt <= n.createdAt
    ensures NewestFirstOrder([n] + rest)
  {
    var r := [n] + rest;
    forall i, j | 0 <= i < j < |r| ensures r[i].createdAt >= r[j].createdAt {
      assert r[j] == rest[j - 1] && rest[j - 1] in rest;
      if 0 < i {
        assert r[i] == rest[i - 1];
      }
    }
  }

  /** With chronological timestamps the listing is sorted by `createdAt`, newest first. */
  lemma UserNotificationsSorted(ns: seq<Notification>, userId: Id)
    requires Chronological(ns)
    ensures NewestFirstOrder(UserNotifications(ns, userId))
  {
    NewestFirstSorted(ns, userId);
  }

  /** With chronological timestamps no record of the user left off the page is newer than one on it. */
  lemma UserNotificationsAreNewest(ns: seq<Notification>, userId: Id)
    requires Chronological(ns)
    ensures var all := NewestFirst(ns, userId);
            var page := UserNotifications(ns, userId);
            forall i, j :: 0 <= i < |page| <= j < |all| ==> page[i].createdAt >= all[j].createdAt
  {
    NewestFirstSorted(ns, userId);
  }

  /** A user with no more than a page of notifications sees every one of them. */
  lemma UserNotificationsComplete(ns: seq<Notification>, userId: Id, n: Notification)
    requires n in ns && n.data.recipient == userId
    requires |NewestFirst(ns, userId)| <= PageSize
    ensures n in UserNotifications(ns, userId)
  {
  }

  /** In a valid store the page shows each record once. */
  lemma UserNotificationsOnce(w: World, userId: Id)
    requires WorldValid(w)
    ensures NoDuplicates(UserNotifications(w.notifications, userId))
  {
    DistinctIdsDistinctRecords(w);
    SubMultisetNoDuplicates(UserNotifications(w.notifications, userId), w.notifications);
  }

  // ---------------------------------------------------------------------
  // markNotificationAsRead

  /** `findOne({ _id, recipient })`: the first record with that id addressed to that user. */
  function FindOwnNotification(ns: seq<Notification>, id: Id, userId: Id): (r: Option<nat>)
    ensures r.Some? ==> r.value < |ns| && ns[r.value].id == id && ns[r.value].data.recipient == userId
    ensures r.None? ==> forall i :: 0 <= i < |ns| ==> !(ns[i].id == id && ns[i].data.recipient == userId)
  {
    if ns == [] then None
    else if ns[0].id == id && ns[0].data.recipient == userId then Some(0)
    else match FindOwnNotification(ns[1..], id, userId)
      case None => None
      case Some(k) => Some(k + 1)
  }

  /** `notification.read = true`: the record, now read. */
  function AsRead(n: Notification): Notification
  {
    n.(data := n.data.(read := true))
  }

  /**
   * `markNotificationAsRead(id, userId)`: fails when no record has that id
   * and is addressed to that user; otherwise one such record becomes read
   * and every other record stays as it was.
   */
  function MarkedRead(ns: seq<Notification>, id: Id, userId: Id): (r: Option<seq<Notification>>)
    ensures r.None? <==> forall i :: 0 <= i < |ns| ==> !(ns[i].id == id && ns[i].data.recipient == userId)
    ensures r.Some? ==> |r.value| == |ns|
    ensures r.Some? ==> forall i :: 0 <= i < |ns| ==>
              r.value[i] == ns[i] || (r.value[i] == AsRead(ns[i]) && ns[i].id == id && ns[i].data.recipient == userId)
    ensures r.Some? ==> exists i :: 0 <= i < |ns| && ns[i].id == id && r.value[i].data.read
  {
    match FindOwnNotification(ns, id, userId)
    case None => None
    case Some(k) => Some(ns[k := AsRead(ns[k])])
  }

  /** Ids are distinct in the store, so "one such record" is the record with that id. */
  lemma MarkedReadOnlyThatRecord(ns: seq<Notification>, id: Id, userId: Id)
    requires NoDuplicates(NotificationIds(ns))
    requires MarkedRead(ns, id, userId).Some?
    ensures forall i :: 0 <= i < |ns| ==>
              MarkedRead(ns, id, userId).value[i] == if ns[i].id == id then AsRead(ns[i]) else ns[i]
  {
    var k := FindOwnNotification(ns, id, userId).value;
    forall i | 0 <= i < |ns| && i != k ensures ns[i].id != id {
      if i < k {
        assert NotificationIds(ns)[i] != NotificationIds(ns)[k];
      } else {
        assert NotificationIds(ns)[k] != NotificationIds(ns)[i];
      }
    }
  }

  method MarkNotificationAsRead(s: Store, id: Id, userId: Id) returns (r: Reply)
    requires s.Valid()
    modifies s
    ensures s.Valid()
    ensures var m := MarkedRead(old(s.notifications), id, userId);
            && (m.None? ==> r == Err(NotFound) && s.Model() == old(s.Model()))
            && (m.Some? ==> r == Ok && s.Model() == old(s.Model()).(notifications := m.value))
  {
    var m := MarkedRead(s.notifications, id, userId);
    if m.None? {
      return Err(NotFound);
    }
    assert NotificationIds(m.value) == NotificationIds(s.notifications);
    s.notifications := m.value;
    r := Ok;
  }

  // ---------------------------------------------------------------------
  // markAllNotificationsAsRead

  /** `updateMany({ recipient: userId, read: false }, { read: true })`. */
  function MarkedAllRead(ns: seq<Notification>, userId: Id): (r: seq<Notification>)
    ensures |r| == |ns|
    ensures forall i :: 0 <= i < |ns| ==> r[i] == if ns[i].data.recipient == userId then AsRead(ns[i]) else ns[i]
  {
    seq(|ns|, i requires 0 <= i < |ns| =>
      if ns[i].data.recipient == userId && !ns[i].data.read then AsRead(ns[i]) else ns[i])
  }

  /** Afterwards the user has no unread notification, and everyone else's are untouched. */
  lemma MarkedAllReadEffect(ns: seq<Notification>, userId: Id)
    ensures forall n :: n in MarkedAllRead(ns, userId) && n.data.recipient == userId ==> n.data.read
    ensures forall i :: 0 <= i < |ns| && ns[i].data.recipient != userId ==> MarkedAllRead(ns, userId)[i] == ns[i]
    ensures NotificationIds(MarkedAllRead(ns, userId)) == NotificationIds(ns)
  {
    var r := MarkedAllRead(ns, userId);
    forall n | n in r && n.data.recipient == userId ensures n.data.read {
      var k :| 0 <= k < |r| && r[k] == n;
      assert r[k].data.recipient == ns[k].data.recipient;
    }
  }

  lemma MarkedAllReadIdempotent(ns: seq<Notification>, userId: Id)
    ensures MarkedAllRead(MarkedAllRead(ns, userId), userId) == MarkedAllRead(ns, userId)
  {
  }

  method MarkAllNotificationsAsRead(s: Store, userId: Id)
    requires s.Valid()
    modifies s
    ensures s.Valid()
    ensures s.Model() == old(s.Model()).(notifications := MarkedAllRead(old(s.notifications), userId))
  {
    MarkedAllReadEffect(s.notifications, userId);
    s.notifications := MarkedAllRead(s.notifications, userId);
  }
}
