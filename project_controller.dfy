/**
 * The project handlers: creation, the owner-or-member access check, the
 * owner-only update and delete, and the membership list that invite and
 * remove change.
 */
module ProjectController {
  import opened Common
  import opened Model
  import opened Db

  // ---------------------------------------------------------------------
  // createProject

  /** `createProject`: the requester owns the new project and is its only member. */
  function CreateProjectOutcome(w: World, requester: Id, title: string, description: string): (r: Outcome)
    ensures r.reply == Ok
    ensures r.world == w.(projects := r.world.projects, nextId := w.nextId + 1)
    ensures w.nextId !in w.projects ==> r.world.projects.Keys == w.projects.Keys + {w.nextId}
    ensures w.nextId in r.world.projects
    ensures r.world.projects[w.nextId] == Project(title, description, requester, [requester], DefaultTaskStatuses)
    ensures forall id :: id in w.projects && id != w.nextId ==> id in r.world.projects && r.world.projects[id] == w.projects[id]
  {
    Outcome(Ok, w.(projects := w.projects[w.nextId := Project(title, description, requester, [requester], DefaultTaskStatuses)],
                   nextId := w.nextId + 1))
  }

  /** The creator can see, update and delete the project just made. */
  lemma CreatorOwnsNewProject(w: World, requester: Id, title: string, description: string, title': string, description': string)
    ensures var w' := CreateProjectOutcome(w, requester, title, description).world;
            && ProjectWellFormed(w'.projects[w.nextId])
            && ViewProject(w', requester, w.nextId).Success?
            && UpdateProjectOutcome(w', requester, w.nextId, title', description').reply == Ok
            && DeleteProjectOutcome(w', requester, w.nextId).reply == Ok
  {
  }

  method CreateProject(s: Store, requester: Id, title: string, description: string) returns (id: Id)
    requires s.Valid()
    modifies s
    ensures s.Valid()
    ensures id == old(s.nextId)
    ensures s.Model() == CreateProjectOutcome(old(s.Model()), requester, title, description).world
  {
    id := s.nextId;
    IssuedLater(TaskIds(s.tasks), s.nextId, s.nextId + 1);
    IssuedLater(AutomationIds(s.automations), s.nextId, s.nextId + 1);
    IssuedLater(NotificationIds(s.notifications), s.nextId, s.nextId + 1);
    IssuedLater(InvitationIds(s.invitations), s.nextId, s.nextId + 1);
    s.projects := s.projects[id := Project(title, description, requester, [requester], DefaultTaskStatuses)];
    s.nextId := s.nextId + 1;
  }

  // ---------------------------------------------------------------------
  // Reading projects

  /** `getUserProjects`: every project the requester owns or belongs to. */
  function UserProjects(w: World, requester: Id): (r: map<Id, Project>)
    ensures forall id :: id in r <==> id in w.projects && IsOwnerOrMember(w.projects[id], requester)
    ensures forall id :: id in r ==> r[id] == w.projects[id]
  {
    map id | id in w.projects && IsOwnerOrMember(w.projects[id], requester) :: w.projects[id]
  }

  /** `getProjectById`: 404 for an unknown project, 403 for anyone but its owner and members. */
  function ViewProject(w: World, requester: Id, projectId: Id): (r: Result<Project>)
    ensures r == Failure(NotFound) <==> projectId !in w.projects
    ensures r == Failure(Forbidden) <==> projectId in w.projects && !IsOwnerOrMember(w.projects[projectId], requester)
    ensures r.Success? ==> projectId in w.projects && r.value == w.projects[projectId]
  {
    if projectId !in w.projects then Failure(NotFound)
    else if !IsOwnerOrMember(w.projects[projectId], requester) then Failure(Forbidden)
    else Success(w.projects[projectId])
  }

  /** The listing and the single view agree on who may see a project. */
  lemma ListingAgreesWithView(w: World, requester: Id, projectId: Id)
    ensures projectId in UserProjects(w, requester) <==> ViewProject(w, requester, projectId).Success?
  {
  }

  // ---------------------------------------------------------------------
  // updateProject and deleteProject

  /** `updateProject`: owner only; both title and description are overwritten. */
  function UpdateProjectOutcome(w: World, requester: Id, projectId: Id, title: string, description: string): (r: Outcome)
    ensures r.reply == Err(NotFound) <==> projectId !in w.projects
    ensures r.reply == Err(Forbidden) <==> projectId in w.projects && w.projects[projectId].owner != requester
    ensures r.reply == Ok <==> projectId in w.projects && w.projects[projectId].owner == requester
    ensures r.reply.Err? ==> r.world == w
    ensures r.reply == Ok ==>
              && r.world == w.(projects := r.world.projects)
              && r.world.projects.Keys == w.projects.Keys
              && r.world.projects[projectId] == w.projects[projectId].(title := title, description := description)
              && forall id :: id in w.projects && id != projectId ==> r.world.projects[id] == w.projects[id]
  {
    if projectId !in w.projects then Reject(w, NotFound)
    else
      var p := w.projects[projectId];
      if p.owner != requester then Reject(w, Forbidden)
      else Outcome(Ok, w.(projects := w.projects[projectId := p.(title := title, description := description)]))
  }

  method UpdateProject(s: Store, requester: Id, projectId: Id, title: string, description: string) returns (r: Reply)
    requires s.Valid()
    modifies s
    ensures s.Valid()
    ensures var o := UpdateProjectOutcome(old(s.Model()), requester, projectId, title, description);
            r == o.reply && s.Model() == o.world
  {
    if projectId !in s.projects {
      return Err(NotFound);
    }
    var project := s.projects[projectId];
    if project.owner != requester {
      return Err(Forbidden);
    }
    s.projects := s.projects[projectId := project.(title := title, description := description)];
    r := Ok;
  }

  /** `deleteProject`: owner only; the project document goes, its tasks, automations and invitations stay. */
  function DeleteProjectOutcome(w: World, requester: Id, projectId: Id): (r: Outcome)
    ensures r.reply == Err(NotFound) <==> projectId !in w.projects
    ensures r.reply == Err(Forbidden) <==> projectId in w.projects && w.projects[projectId].owner != requester
    ensures r.reply == Ok <==> projectId in w.projects && w.projects[projectId].owner == requester
    ensures r.reply.Err? ==> r.world == w
    ensures r.reply == Ok ==>
              && r.world == w.(projects := r.world.projects)
              && r.world.projects.Keys == w.projects.Keys - {projectId}
              && forall id :: id in r.world.projects ==> r.world.projects[id] == w.projects[id]
  {
    if projectId !in w.projects then Reject(w, NotFound)
    else if w.projects[projectId].owner != requester then Reject(w, Forbidden)
    else Outcome(Ok, w.(projects := w.projects - {projectId}))
  }

  /** Once a project is deleted, every handler that looks it up answers 404, whoever asks. */
  lemma DeletedProjectIsGone(w: World, requester: Id, projectId: Id, other: Id)
    requires DeleteProjectOutcome(w, requester, projectId).reply == Ok
    ensures ViewProject(DeleteProjectOutcome(w, requester, projectId).world, other, projectId) == Failure(NotFound)
  {
  }

  method DeleteProject(s: Store, requester: Id, projectId: Id) returns (r: Reply)
    requires s.Valid()
    modifies s
    ensures s.Valid()
    ensures var o := DeleteProjectOutcome(old(s.Model()), requester, projectId);
            r == o.reply && s.Model() == o.world
  {
    if projectId !in s.projects {
      return Err(NotFound);
    }
    if s.projects[projectId].owner != requester {
      return Err(Forbidden);
    }
    s.projects := s.projects - {projectId};
    r := Ok;
  }

  // ---------------------------------------------------------------------
  // inviteUser

  /** `User.findOne({ email })`: the registered user with that address, if any. */
  ghost function UserWithEmail(users: map<Id, User>, email: string): (r: Option<Id>)
    ensures r.Some? ==> r.value in users && users[r.value].email == email
    ensures r.None? <==> forall id :: id in users ==> users[id].email != email
  {
    if exists id :: id in users && users[id].email == email then
      var id :| id in users && users[id].email == email; Some(id)
    else None
  }

  /**
   * `inviteUser`: 404 for an unknown project, 403 unless the requester is
   * its owner or a member, 404 when no user has the email, 400 when that
   * user is already a member; otherwise the user is appended to the members.
   */
  ghost function InviteUserOutcome(w: World, requester: Id, projectId: Id, email: string): (r: Outcome)
    ensures r.reply == Err(NotFound) <==>
              projectId !in w.projects
              || (IsOwnerOrMember(w.projects[projectId], requester) && UserWithEmail(w.users, email).None?)
    ensures r.reply == Err(Forbidden) <==> projectId in w.projects && !IsOwnerOrMember(w.projects[projectId], requester)
    ensures r.reply == Err(BadRequest) <==>
              && projectId in w.projects && IsOwnerOrMember(w.projects[projectId], requester)
              && UserWithEmail(w.users, email).Some?
              && UserWithEmail(w.users, email).value in w.projects[projectId].members
    ensures r.reply == Ok <==>
              && projectId in w.projects && IsOwnerOrMember(w.projects[projectId], requester)
              && UserWithEmail(w.users, email).Some?
              && UserWithEmail(w.users, email).value !in w.projects[projectId].members
    ensures r.reply.Err? ==> r.world == w
    ensures r.reply == Ok ==>
              var u := UserWithEmail(w.users, email).value;
              && u !in w.projects[projectId].members
              && r.world == w.(projects := w.projects[projectId := w.projects[projectId].(members := w.projects[projectId].members + [u])])
  {
    if projectId !in w.projects then Reject(w, NotFound)
    else
      var p := w.projects[projectId];
      if !IsOwnerOrMember(p, requester) then Reject(w, Forbidden)
      else match UserWithEmail(w.users, email)
        case None => Reject(w, NotFound)
        case Some(u) =>
          if u in p.members then Reject(w, BadRequest)
          else Outcome(Ok, w.(projects := w.projects[projectId := p.(members := p.members + [u])]))
  }

  /** After any invite the invitee is a member exactly once, and nobody else joined or left. */
  lemma InviteAddsExactlyOnce(w: World, requester: Id, projectId: Id, email: string)
    requires WorldValid(w)
    requires InviteUserOutcome(w, requester, projectId, email).reply in {Ok, Err(BadRequest)}
    ensures var u := UserWithEmail(w.users, email).value;
            var ms := InviteUserOutcome(w, requester, projectId, email).world.projects[projectId].members;
            && NoDuplicates(ms)
            && u in ms
            && (forall m :: m in ms <==> m in w.projects[projectId].members || m == u)
  {
    var p := w.projects[projectId];
    var u := UserWithEmail(w.users, email).value;
    if u !in p.members {
      NoDuplicatesAppend(p.members, u);
    }
  }

  method InviteUser(s: Store, requester: Id, projectId: Id, email: string) returns (r: Reply)
    requires s.Valid()
    modifies s
    ensures s.Valid()
    ensures var o := InviteUserOutcome(old(s.Model()), requester, projectId, email);
            r == o.reply && s.Model() == o.world
  {
    if projectId !in s.projects {
      return Err(NotFound);
    }
    var project := s.projects[projectId];
    if !IsOwnerOrMember(project, requester) {
      return Err(Forbidden);
    }
    if !exists id :: id in s.users && s.users[id].email == email {
      return Err(NotFound);
    }
    var u :| u in s.users && s.users[u].email == email;
    assert UserWithEmail(s.users, email) == Some(u);
    if u in project.members {
      return Err(BadRequest);
    }
    NoDuplicatesAppend(project.members, u);
    s.projects := s.projects[projectId := project.(members := project.members + [u])];
    r := Ok;
  }

  // ---------------------------------------------------------------------
  // removeUser

  /**
   * `removeUser`: owner only; the owner may not remove themselves; otherwise
   * every occurrence of the member leaves the list.
   */
  function RemoveUserOutcome(w: World, requester: Id, projectId: Id, memberId: Id): (r: Outcome)
    ensures r.reply == Err(NotFound) <==> projectId !in w.projects
    ensures r.reply == Err(Forbidden) <==> projectId in w.projects && w.projects[projectId].owner != requester
    ensures r.reply == Err(BadRequest) <==>
              projectId in w.projects && w.projects[projectId].owner == requester && memberId == requester
    ensures r.reply == Ok <==>
              projectId in w.projects && w.projects[projectId].owner == requester && memberId != requester
    ensures r.reply.Err? ==> r.world == w
    ensures r.reply == Ok ==>
              r.world == w.(projects := w.projects[projectId := w.projects[projectId].(members := RemoveAll(w.projects[projectId].members, memberId))])
  {
    if projectId !in w.projects then Reject(w, NotFound)
    else
      var p := w.projects[projectId];
      if p.owner != requester then Reject(w, Forbidden)
      else if memberId == requester then Reject(w, BadRequest)
      else Outcome(Ok, w.(projects := w.projects[projectId := p.(members := RemoveAll(p.members, memberId))]))
  }

  /** A removal takes out exactly that member, so the owner always stays a member. */
  lemma RemoveKeepsOwner(w: World, requester: Id, projectId: Id, memberId: Id)
    requires WorldValid(w)
    requires RemoveUserOutcome(w, requester, projectId, memberId).reply == Ok
    ensures var p := RemoveUserOutcome(w, requester, projectId, memberId).world.projects[projectId];
            && p.owner == w.projects[projectId].owner
            && ProjectWellFormed(p)
            && memberId !in p.members
            && (forall m :: m in p.members <==> m in w.projects[projectId].members && m != memberId)
  {
    RemoveAllKeepsNoDuplicates(w.projects[projectId].members, memberId);
  }

  method RemoveUser(s: Store, requester: Id, projectId: Id, memberId: Id) returns (r: Reply)
    requires s.Valid()
    modifies s
    ensures s.Valid()
    ensures var o := RemoveUserOutcome(old(s.Model()), requester, projectId, memberId);
            r == o.reply && s.Model() == o.world
  {
    if projectId !in s.projects {
      return Err(NotFound);
    }
    var project := s.projects[projectId];
    if project.owner != requester {
      return Err(Forbidden);
    }
    if memberId == requester {
      return Err(BadRequest);
    }
    RemoveAllKeepsNoDuplicates(project.members, memberId);
    s.projects := s.projects[projectId := project.(members := RemoveAll(project.members, memberId))];
    r := Ok;
  }
}
