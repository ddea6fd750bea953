/**
 * The invitation handlers: the recipient's pending list, and the two
 * transitions out of `pending`, of which accepting also makes the recipient
 * a member of the project.
 */
module InvitationController {
  import opened Common
  import opened Model
  import opened Db

  /** `getUserInvitations`: the requester's invitations still pending, in store order. */
  function PendingInvitations(vs: seq<Invitation>, userId: Id): (r: seq<Invitation>)
    ensures forall v :: v in r <==> v in vs && v.recipient == userId && v.status == Pending
    ensures |r| <= |vs|
    ensures Filtered(r, vs, (v: Invitation) => v.recipient == userId && v.status == Pending)
  {
    if vs == [] then []
    else
      assert vs == [vs[0]] + vs[1..];
      (if vs[0].recipient == userId && vs[0].status == Pending then [vs[0]] else [])
      + PendingInvitations(vs[1..], userId)
  }

  /** In a valid store each pending invitation is listed once. */
  lemma PendingInvitationsOnce(w: World, userId: Id)
    requires WorldValid(w)
    ensures NoDuplicates(PendingInvitations(w.invitations, userId))
  {
    DistinctIdsDistinctRecords(w);
    SubMultisetNoDuplicates(PendingInvitations(w.invitations, userId), w.invitations);
  }

  /** The checks both transitions share: 404, then 403 unless the requester is the recipient, then 400 unless pending. */
  function Guard(w: World, requester: Id, invitationId: Id): (r: Result<nat>)
    ensures r == Failure(NotFound) <==> FindInvitation(w.invitations, invitationId).None?
    ensures r == Failure(Forbidden) <==>
              FindInvitation(w.invitations, invitationId).Some?
              && w.invitations[FindInvitation(w.invitations, invitationId).value].recipient != requester
    ensures r == Failure(BadRequest) <==>
              FindInvitation(w.invitations, invitationId).Some?
              && w.invitations[FindInvitation(w.invitations, invitationId).value].recipient == requester
              && w.invitations[FindInvitation(w.invitations, invitationId).value].status != Pending
    ensures r.Success? <==>
              FindInvitation(w.invitations, invitationId).Some?
              && w.invitations[FindInvitation(w.invitations, invitationId).value].recipient == requester
              && w.invitations[FindInvitation(w.invitations, invitationId).value].status == Pending
    ensures r.Success? ==>
              && Some(r.value) == FindInvitation(w.invitations, invitationId)
              && w.invitations[r.value].recipient == requester && w.invitations[r.value].status == Pending
  {
    match FindInvitation(w.invitations, invitationId)
    case None => Failure(NotFound)
    case Some(k) =>
      if w.invitations[k].recipient != requester then Failure(Forbidden)
      else if w.invitations[k].status != Pending then Failure(BadRequest)
      else Success(k)
  }

  /** `members.push(userId)` unless the requester is already one. */
  function Join(p: Project, userId: Id): (r: Project)
    ensures r == p.(members := r.members)
    ensures forall m :: m in r.members <==> m in p.members || m == userId
    ensures NoDuplicates(p.members) ==> NoDuplicates(r.members)
    ensures userId in p.members ==> r == p
  {
    if userId in p.members then p
    else
      assert NoDuplicates(p.members) ==> NoDuplicates(p.members + [userId]) by {
        if NoDuplicates(p.members) {
          NoDuplicatesAppend(p.members, userId);
        }
      }
      p.(members := p.members + [userId])
  }

  /**
   * `acceptInvitation`: after the shared checks, a vanished project gives
   * 404 and the invitation stays pending; otherwise the requester joins the
   * project and the invitation becomes accepted.
   */
  function AcceptOutcome(w: World, requester: Id, invitationId: Id): (r: Outcome)
    ensures Guard(w, requester, invitationId).Failure? ==> r == Reject(w, Guard(w, requester, invitationId).code)
    ensures Guard(w, requester, invitationId).Success? ==>
              var k := Guard(w, requester, invitationId).value;
              var pid := w.invitations[k].project;
              && (r.reply == Err(NotFound) <==> pid !in w.projects)
              && (r.reply == Ok <==> pid in w.projects)
              && (r.reply.Err? ==> r.world == w)
              && (r.reply == Ok ==>
                    r.world == w.(projects := w.projects[pid := Join(w.projects[pid], requester)],
                                  invitations := w.invitations[k := w.invitations[k].(status := Accepted)]))
  {
    match Guard(w, requester, invitationId)
    case Failure(c) => Reject(w, c)
    case Success(k) =>
      var v := w.invitations[k];
      if v.project !in w.projects then Reject(w, NotFound)
      else
        Outcome(Ok, w.(projects := w.projects[v.project := Join(w.projects[v.project], requester)],
                       invitations := w.invitations[k := v.(status := Accepted)]))
  }

  /** `rejectInvitation`: after the shared checks the invitation becomes rejected; no project is read or written. */
  function RejectOutcome(w: World, requester: Id, invitationId: Id): (r: Outcome)
    ensures Guard(w, requester, invitationId).Failure? ==> r == Reject(w, Guard(w, requester, invitationId).code)
    ensures Guard(w, requester, invitationId).Success? ==>
              var k := Guard(w, requester, invitationId).value;
              r == Outcome(Ok, w.(invitations := w.invitations[k := w.invitations[k].(status := Rejected)]))
  {
    match Guard(w, requester, invitationId)
    case Failure(c) => Reject(w, c)
    case Success(k) => Outcome(Ok, w.(invitations := w.invitations[k := w.invitations[k].(status := Rejected)]))
  }

  /** Accepting keeps the project well formed, and the requester is then a member exactly once. */
  lemma AcceptJoinsOnce(w: World, requester: Id, invitationId: Id)
    requires WorldValid(w)
    requires AcceptOutcome(w, requester, invitationId).reply == Ok
    ensures var pid := w.invitations[FindInvitation(w.invitations, invitationId).value].project;
            var p := AcceptOutcome(w, requester, invitationId).world.projects[pid];
            && ProjectWellFormed(p) && requester in p.members
            && (forall m :: m in p.members <==> m in w.projects[pid].members || m == requester)
  {
  }

  /**
   * Both transitions leave `pending` for good: a second accept or reject of
   * the same invitation is refused with 400 and changes nothing.
   */
  lemma TransitionsAreFinal(w: World, requester: Id, invitationId: Id)
    requires WorldValid(w)
    ensures var w1 := AcceptOutcome(w, requester, invitationId).world;
            AcceptOutcome(w, requester, invitationId).reply == Ok ==>
              AcceptOutcome(w1, requester, invitationId) == Reject(w1, BadRequest)
              && RejectOutcome(w1, requester, invitationId) == Reject(w1, BadRequest)
    ensures var w1 := RejectOutcome(w, requester, invitationId).world;
            RejectOutcome(w, requester, invitationId).reply == Ok ==>
              AcceptOutcome(w1, requester, invitationId) == Reject(w1, BadRequest)
              && RejectOutcome(w1, requester, invitationId) == Reject(w1, BadRequest)
  {
    var g := Guard(w, requester, invitationId);
    if g.Success? {
      var k := g.value;
      var v := w.invitations[k];
      var vs1 := w.invitations[k := v.(status := Accepted)];
      var vs2 := w.invitations[k := v.(status := Rejected)];
      assert InvitationIds(vs1) == InvitationIds(w.invitations);
      assert InvitationIds(vs2) == InvitationIds(w.invitations);
      SameFind(w.invitations, vs1, invitationId, k);
      SameFind(w.invitations, vs2, invitationId, k);
    }
  }

  /** Changing the status of the first invitation with an id does not move where that id is found. */
  lemma {:induction false} SameFind(vs: seq<Invitation>, vs': seq<Invitation>, id: Id, k: nat)
    requires FindInvitation(vs, id) == Some(k)
    requires |vs'| == |vs| && forall i :: 0 <= i < |vs| ==> vs'[i].id == vs[i].id
    ensures FindInvitation(vs', id) == Some(k)
  {
    var r := FindInvitation(vs', id);
    assert vs'[k].id == vs[k].id;
    if r.Some? {
      assert vs'[r.value].id == vs[r.value].id;
    }
  }

  method AcceptInvitation(s: Store, requester: Id, invitationId: Id) returns (r: Reply)
    requires s.Valid()
    modifies s
    ensures s.Valid()
    ensures var o := AcceptOutcome(old(s.Model()), requester, invitationId);
            r == o.reply && s.Model() == o.world
  {
    var k := FindInvitation(s.invitations, invitationId);
    if k.None? {
      return Err(NotFound);
    }
    var v := s.invitations[k.value];
    if v.recipient != requester {
      return Err(Forbidden);
    }
    if v.status != Pending {
      return Err(BadRequest);
    }
    if v.project !in s.projects {
      return Err(NotFound);
    }
    var project := s.projects[v.project];
    if requester !in project.members {
      NoDuplicatesAppend(project.members, requester);
      s.projects := s.projects[v.project := project.(members := project.members + [requester])];
    }
    assert InvitationIds(s.invitations[k.value := v.(status := Accepted)]) == InvitationIds(s.invitations);
    s.invitations := s.invitations[k.value := v.(status := Accepted)];
    r := Ok;
  }

  method RejectInvitation(s: Store, requester: Id, invitationId: Id) returns (r: Reply)
    requires s.Valid()
    modifies s
    ensures s.Valid()
    ensures var o := RejectOutcome(old(s.Model()), requester, invitationId);
            r == o.reply && s.Model() == o.world
  {
    var k := FindInvitation(s.invitations, invitationId);
    if k.None? {
      return Err(NotFound);
    }
    var v := s.invitations[k.value];
    if v.recipient != requester {
      return Err(Forbidden);
    }
    if v.status != Pending {
      return Err(BadRequest);
    }
    assert InvitationIds(s.invitations[k.value := v.(status := Rejected)]) == InvitationIds(s.invitations);
    s.invitations := s.invitations[k.value := v.(status := Rejected)];
    r := Ok;
  }
}
