/**
 * The in-memory document store every handler and service works on: one
 * object whose fields are the collections, and `World`, the value those
 * fields hold at a given moment, which the specification functions take and
 * return.
 *
 * Collections that are iterated in store order (tasks, automations,
 * notifications, invitations) are sequences; projects and users, which are
 * only ever looked up, are maps.  `nextId` stands in for ObjectId
 * generation: every id handed out so far is below it.
 */
module Db {
  import opened Common
  import opened Model

  datatype World = World(
    projects: map<Id, Project>,
    tasks: seq<Task>,
    users: map<Id, User>,
    automations: seq<Automation>,
    notifications: seq<Notification>,
    invitations: seq<Invitation>,
    nextId: Id)

  // ---------------------------------------------------------------------
  // Invariants the handlers keep

  /** The owner is a member, and nobody is a member twice. */
  predicate ProjectWellFormed(p: Project)
  {
    p.owner in p.members && NoDuplicates(p.members)
  }

  predicate ProjectsWellFormed(ps: map<Id, Project>)
  {
    forall id :: id in ps ==> ProjectWellFormed(ps[id])
  }

  /** At most one badge per (name, project) pair. */
  predicate UniqueBadges(bs: seq<Badge>)
  {
    forall i, j :: 0 <= i < j < |bs| ==> !(bs[i].name == bs[j].name && bs[i].projectId == bs[j].projectId)
  }

  predicate BadgesWellFormed(us: map<Id, User>)
  {
    forall id :: id in us ==> UniqueBadges(us[id].badges)
  }

  /** The user schema's `unique: true` on `email`. */
  predicate EmailsUnique(us: map<Id, User>)
  {
    forall a, b :: a in us && b in us && a != b ==> us[a].email != us[b].email
  }

  function TaskIds(ts: seq<Task>): (r: seq<Id>)
    ensures |r| == |ts| && forall i :: 0 <= i < |ts| ==> r[i] == ts[i].id
  {
    seq(|ts|, i requires 0 <= i < |ts| => ts[i].id)
  }

  function AutomationIds(as_: seq<Automation>): (r: seq<Id>)
    ensures |r| == |as_| && forall i :: 0 <= i < |as_| ==> r[i] == as_[i].id
  {
    seq(|as_|, i requires 0 <= i < |as_| => as_[i].id)
  }

  function NotificationIds(ns: seq<Notification>): (r: seq<Id>)
    ensures |r| == |ns| && forall i :: 0 <= i < |ns| ==> r[i] == ns[i].id
  {
    seq(|ns|, i requires 0 <= i < |ns| => ns[i].id)
  }

  function InvitationIds(vs: seq<Invitation>): (r: seq<Id>)
    ensures |r| == |vs| && forall i :: 0 <= i < |vs| ==> r[i] == vs[i].id
  {
    seq(|vs|, i requires 0 <= i < |vs| => vs[i].id)
  }

  /** Ids of one collection: all distinct, all handed out already. */
  predicate IdsIssued(ids: seq<Id>, next: Id)
  {
    NoDuplicates(ids) && forall i :: 0 <= i < |ids| ==> ids[i] < next
  }

  /** Records with distinct ids are distinct records. */
  lemma DistinctIdsDistinctRecords(w: World)
    requires NoDuplicates(TaskIds(w.tasks)) && NoDuplicates(AutomationIds(w.automations))
    requires NoDuplicates(NotificationIds(w.notifications)) && NoDuplicates(InvitationIds(w.invitations))
    ensures NoDuplicates(w.tasks) && NoDuplicates(w.automations)
    ensures NoDuplicates(w.notifications) && NoDuplicates(w.invitations)
  {
    forall i, j | 0 <= i < j < |w.tasks| ensures w.tasks[i] != w.tasks[j] {
      assert TaskIds(w.tasks)[i] != TaskIds(w.tasks)[j];
    }
    forall i, j | 0 <= i < j < |w.automations| ensures w.automations[i] != w.automations[j] {
      assert AutomationIds(w.automations)[i] != AutomationIds(w.automations)[j];
    }
    forall i, j | 0 <= i < j < |w.notifications| ensures w.notifications[i] != w.notifications[j] {
      assert NotificationIds(w.notifications)[i] != NotificationIds(w.notifications)[j];
    }
    forall i, j | 0 <= i < j < |w.invitations| ensures w.invitations[i] != w.invitations[j] {
      assert InvitationIds(w.invitations)[i] != InvitationIds(w.invitations)[j];
    }
  }

  predicate WorldValid(w: World)
  {
    && ProjectsWellFormed(w.projects)
    && (forall id :: id in w.projects ==> id < w.nextId)
    && BadgesWellFormed(w.users)
    && EmailsUnique(w.users)
    && IdsIssued(TaskIds(w.tasks), w.nextId)
    && IdsIssued(AutomationIds(w.automations), w.nextId)
    && IdsIssued(NotificationIds(w.notifications), w.nextId)
    && IdsIssued(InvitationIds(w.invitations), w.nextId)
  }

  // ---------------------------------------------------------------------
  // How the three kinds of collection change keep `IdsIssued`

  /** A new document takes `next`, and the counter moves past it. */
  lemma IssueNext(ids: seq<Id>, next: Id)
    requires IdsIssued(ids, next)
    ensures IdsIssued(ids + [next], next + 1)
  {
    assert next !in ids;
  }

  lemma IssuedLater(ids: seq<Id>, next: Id, later: Id)
    requires IdsIssued(ids, next) && next <= later
    ensures IdsIssued(ids, later)
  {
  }

  lemma IssuedRemoveAt(ids: seq<Id>, k: nat, next: Id)
    requires k < |ids| && IdsIssued(ids, next)
    ensures IdsIssued(RemoveAt(ids, k), next)
  {
    RemoveAtKeepsNoDuplicates(ids, k);
  }

  lemma TaskIdsRemoveAt(ts: seq<Task>, k: nat)
    requires k < |ts|
    ensures TaskIds(RemoveAt(ts, k)) == RemoveAt(TaskIds(ts), k)
  {
  }

  lemma AutomationIdsRemoveAt(as_: seq<Automation>, k: nat)
    requires k < |as_|
    ensures AutomationIds(RemoveAt(as_, k)) == RemoveAt(AutomationIds(as_), k)
  {
  }

  /** With distinct ids, no other task shares the id of the one at `k`. */
  lemma OnlyOneWithId(ts: seq<Task>, k: nat, next: Id)
    requires k < |ts| && IdsIssued(TaskIds(ts), next)
    ensures forall i :: 0 <= i < |ts| && i != k ==> ts[i].id != ts[k].id
  {
    forall i | 0 <= i < |ts| && i != k ensures ts[i].id != ts[k].id {
      if i < k {
        assert TaskIds(ts)[i] != TaskIds(ts)[k];
      } else {
        assert TaskIds(ts)[k] != TaskIds(ts)[i];
      }
    }
  }

  // ---------------------------------------------------------------------
  // `findById` and friends: the first document with the id, if any

  function FindTask(ts: seq<Task>, id: Id): (r: Option<nat>)
    ensures r.Some? ==> r.value < |ts| && ts[r.value].id == id
    ensures r.Some? ==> forall i :: 0 <= i < r.value ==> ts[i].id != id
    ensures r.None? ==> forall i :: 0 <= i < |ts| ==> ts[i].id != id
  {
    if ts == [] then None
    else if ts[0].id == id then Some(0)
    else match FindTask(ts[1..], id)
      case None => None
      case Some(k) => Some(k + 1)
  }

  function FindAutomation(as_: seq<Automation>, id: Id): (r: Option<nat>)
    ensures r.Some? ==> r.value < |as_| && as_[r.value].id == id
    ensures r.Some? ==> forall i :: 0 <= i < r.value ==> as_[i].id != id
    ensures r.None? ==> forall i :: 0 <= i < |as_| ==> as_[i].id != id
  {
    if as_ == [] then None
    else if as_[0].id == id then Some(0)
    else match FindAutomation(as_[1..], id)
      case None => None
      case Some(k) => Some(k + 1)
  }

  function FindInvitation(vs: seq<Invitation>, id: Id): (r: Option<nat>)
    ensures r.Some? ==> r.value < |vs| && vs[r.value].id == id
    ensures r.Some? ==> forall i :: 0 <= i < r.value ==> vs[i].id != id
    ensures r.None? ==> forall i :: 0 <= i < |vs| ==> vs[i].id != id
  {
    if vs == [] then None
    else if vs[0].id == id then Some(0)
    else match FindInvitation(vs[1..], id)
      case None => None
      case Some(k) => Some(k + 1)
  }

  /** The project of the task `taskId`, when the task and its project both exist. */
  function TaskProject(w: World, taskId: Id): Option<Project>
  {
    match FindTask(w.tasks, taskId)
    case None => None
    case Some(k) => if w.tasks[k].project in w.projects then Some(w.projects[w.tasks[k].project]) else None
  }

  /** The project of the automation `automationId`, when the automation and its project both exist. */
  function AutomationProject(w: World, automationId: Id): Option<Project>
  {
    match FindAutomation(w.automations, automationId)
    case None => None
    case Some(k) => if w.automations[k].project in w.projects then Some(w.projects[w.automations[k].project]) else None
  }

  /** What a request handler answers, and the store it leaves behind. */
  datatype Outcome = Outcome(reply: Reply, world: World)

  /** A rejected request changes nothing. */
  function Reject(w: World, c: Code): (r: Outcome)
    ensures r.reply == Err(c) && r.world == w
  {
    Outcome(Err(c), w)
  }

  // ---------------------------------------------------------------------
  // The store

  class Store {
    var projects: map<Id, Project>
    var tasks: seq<Task>
    var users: map<Id, User>
    var automations: seq<Automation>
    var notifications: seq<Notification>
    var invitations: seq<Invitation>
    var nextId: Id

    function Model(): World
      reads this
    {
      World(projects, tasks, users, automations, notifications, invitations, nextId)
    }

    ghost predicate Valid()
      reads this
    {
      WorldValid(Model())
    }

    /**
     * A store holding the registered users and the invitations, both of
     * which are created by parts of the system outside this model.
     */
    constructor (registered: map<Id, User>, pending: seq<Invitation>, firstId: Id)
      requires BadgesWellFormed(registered) && EmailsUnique(registered)
      requires IdsIssued(InvitationIds(pending), firstId)
      ensures Valid()
      ensures Model() == World(map[], [], registered, [], [], pending, firstId)
    {
      projects := map[];
      tasks := [];
      users := registered;
      automations := [];
      notifications := [];
      invitations := pending;
      nextId := firstId;
    }
  }
}
