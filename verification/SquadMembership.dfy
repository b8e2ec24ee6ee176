/** Squads, member rows and invites, with the unique keys of the schema.  Each service call is one step. */
module SquadMembership {
  import opened Players

  type InviteId = nat

  datatype Role = Owner | Admin | Member

  datatype Status = Pending | Accepted | Declined

  datatype Invite = Invite(squad: SquadId, inviter: string, invitee: string, status: Status)

  /** `squads` maps each squad to its `ownerId`; ids are fresh uuids, so they are never used again. */
  datatype State = State(
    squads: map<SquadId, string>, members: map<(SquadId, string), Role>, invites: map<InviteId, Invite>,
    nextSquad: SquadId, nextInvite: InviteId)

  const NOTHING := State(map[], map[], map[], 0, 0)

  /** `Conflict` is the database refusing a second row under a unique key. */
  datatype Outcome = Done | Forbidden | NotFound | BadRequest | Conflict

  datatype Request =
    | Create(user: string)
    | Delete(squad: SquadId, user: string)
    | Send(squad: SquadId, inviter: string, invitee: string, exist: bool, friends: bool)
    | Respond(invite: InviteId, user: string, accept: bool)
    | Leave(squad: SquadId, user: string)
    | Kick(squad: SquadId, kicker: string, target: string)
    | ChangeRole(squad: SquadId, owner: string, target: string, admin: bool)

  predicate IsMember(st: State, squad: SquadId, user: string) {
    (squad, user) in st.members
  }

  ghost predicate Invited(st: State, squad: SquadId, user: string, id: InviteId) {
    id in st.invites && st.invites[id].squad == squad && st.invites[id].invitee == user
  }

  /** The row `findUnique` returns for the key (squad, invitee). */
  ghost predicate HasInvite(st: State, squad: SquadId, user: string) {
    exists id :: Invited(st, squad, user, id)
  }

  ghost predicate HasPending(st: State, squad: SquadId, user: string) {
    exists id :: Invited(st, squad, user, id) && st.invites[id].status == Pending
  }

  ghost function Check(st: State, request: Request): Outcome {
    match request
    case Create(user) => Done
    case Delete(squad, user) =>
      if squad !in st.squads then NotFound else if st.squads[squad] != user then Forbidden else Done
    case Send(squad, inviter, invitee, exist, friends) =>
      if !IsMember(st, squad, inviter) then Forbidden
      else if !exist then NotFound
      else if !friends then BadRequest
      else if IsMember(st, squad, invitee) then BadRequest
      else if HasPending(st, squad, invitee) then BadRequest
      else if HasInvite(st, squad, invitee) then Conflict
      else Done
    case Respond(invite, user, accept) =>
      if invite !in st.invites then NotFound
      else if st.invites[invite].invitee != user then Forbidden
      else if st.invites[invite].status != Pending then BadRequest
      else if accept && IsMember(st, st.invites[invite].squad, user) then Conflict
      else Done
    case Leave(squad, user) =>
      if squad !in st.squads then NotFound
      else if st.squads[squad] == user then BadRequest
      else if !IsMember(st, squad, user) then NotFound
      else Done
    case Kick(squad, kicker, target) =>
      if !IsMember(st, squad, kicker) || st.members[(squad, kicker)] == Member then Forbidden
      else if squad !in st.squads then NotFound
      else if st.squads[squad] == target then BadRequest
      else if !IsMember(st, squad, target) then NotFound
      else Done
    case ChangeRole(squad, owner, target, admin) =>
      if squad !in st.squads then NotFound
      else if st.squads[squad] != owner then Forbidden
      else if st.squads[squad] == target then BadRequest
      else if !IsMember(st, squad, target) then NotFound
      else Done
  }

  function Answered(st: State, invite: InviteId, accept: bool): State
    requires invite in st.invites
  {
    st.(invites := st.invites[invite := st.invites[invite].(status := if accept then Accepted else Declined)])
  }

  /** The effect of a request that passes its checks. */
  function Effect(st: State, request: Request): State
    requires request.Respond? ==> request.invite in st.invites
  {
    match request
    case Create(user) =>
      st.(squads := st.squads[st.nextSquad := user], members := st.members[(st.nextSquad, user) := Owner],
          nextSquad := st.nextSquad + 1)
    case Delete(squad, user) =>
      st.(squads := st.squads - {squad},
          members := map key | key in st.members && key.0 != squad :: st.members[key],
          invites := map id | id in st.invites && st.invites[id].squad != squad :: st.invites[id])
    case Send(squad, inviter, invitee, exist, friends) =>
      st.(invites := st.invites[st.nextInvite := Invite(squad, inviter, invitee, Pending)],
        nextInvite := st.nextInvite + 1)
    case Respond(invite, user, accept) =>
      var answered := Answered(st, invite, accept);
      if accept then answered.(members := st.members[(st.invites[invite].squad, user) := Member]) else answered
    case Leave(squad, user) => st.(members := st.members - {(squad, user)})
    case Kick(squad, kicker, target) => st.(members := st.members - {(squad, target)})
    case ChangeRole(squad, owner, target, admin) =>
      st.(members := st.members[(squad, target) := if admin then Admin else Member])
  }

  /** A refused request changes nothing, except that a conflicting accept has already marked its invite. */
  ghost function Step(st: State, request: Request): State {
    match Check(st, request)
    case Done => Effect(st, request)
    case Conflict => if request.Respond? then Answered(st, request.invite, true) else st
    case _ => st
  }

  ghost function Run(st: State, requests: seq<Request>): State
    decreases |requests|
  {
    if requests == [] then st else Run(Step(st, requests[0]), requests[1..])
  }

  // ---------------------------------------------------------------------------------------------
  // The invariant over all runs
  // ---------------------------------------------------------------------------------------------

  /** Each squad has its owner's row, and that is its only OWNER row; rows belong to existing squads. */
  ghost predicate OneOwner(st: State) {
    && (forall s :: s in st.squads ==> s < st.nextSquad && IsMember(st, s, st.squads[s]))
    && (forall s, u :: (s, u) in st.members ==> s in st.squads && (st.members[(s, u)] == Owner <==> st.squads[s] == u))
  }

  /** At most one invite per squad and user; a pending one means that the user is not a member; and every member but
      the owner holds an accepted one. */
  ghost predicate InvitesFit(st: State) {
    && (forall id :: id in st.invites ==> id < st.nextInvite && st.invites[id].squad in st.squads)
    && (forall s, u, i, j :: Invited(st, s, u, i) && Invited(st, s, u, j) ==> i == j)
    && (forall id :: id in st.invites && st.invites[id].status == Pending ==>
          !IsMember(st, st.invites[id].squad, st.invites[id].invitee))
    && (forall s, u :: (s, u) in st.members && s in st.squads && st.squads[s] != u ==> HasAccepted(st, s, u))
  }

  ghost predicate HasAccepted(st: State, squad: SquadId, user: string) {
    exists id :: Invited(st, squad, user, id) && st.invites[id].status == Accepted
  }

  ghost predicate Inv(st: State) {
    OneOwner(st) && InvitesFit(st)
  }

  /** Accepting never meets an existing member row: the unique key cannot be hit. */
  lemma AcceptNeverConflicts(st: State, request: Request)
    requires Inv(st) && request.Respond?
    ensures Check(st, request) != Conflict
  {
  }

  lemma CreateKeepsInv(st: State, user: string)
    requires Inv(st)
    ensures Inv(Effect(st, Create(user)))
  {
    var st' := Effect(st, Create(user));
    forall s, u | (s, u) in st'.members && s in st'.squads && st'.squads[s] != u ensures HasAccepted(st', s, u) {
      var id :| Invited(st, s, u, id) && st.invites[id].status == Accepted;
      assert Invited(st', s, u, id);
    }
    forall s, u, i, j | Invited(st', s, u, i) && Invited(st', s, u, j) ensures i == j {
      assert Invited(st, s, u, i) && Invited(st, s, u, j);
    }
  }

  lemma DeleteKeepsInv(st: State, squad: SquadId, user: string)
    requires Inv(st)
    ensures Inv(Effect(st, Delete(squad, user)))
  {
    var st' := Effect(st, Delete(squad, user));
    forall s, u | (s, u) in st'.members && s in st'.squads && st'.squads[s] != u ensures HasAccepted(st', s, u) {
      var id :| Invited(st, s, u, id) && st.invites[id].status == Accepted;
      assert Invited(st', s, u, id);
    }
    forall s, u, i, j | Invited(st', s, u, i) && Invited(st', s, u, j) ensures i == j {
      assert Invited(st, s, u, i) && Invited(st, s, u, j);
    }
  }

  lemma SendKeepsInv(st: State, request: Request)
    requires Inv(st) && request.Send? && Check(st, request) == Done
    ensures Inv(Effect(st, request))
  {
    var st' := Effect(st, request);
    forall s, u | (s, u) in st'.members && s in st'.squads && st'.squads[s] != u ensures HasAccepted(st', s, u) {
      var id :| Invited(st, s, u, id) && st.invites[id].status == Accepted;
      assert Invited(st', s, u, id);
    }
    forall s, u, i, j | Invited(st', s, u, i) && Invited(st', s, u, j) ensures i == j {
      if i != st.nextInvite { assert Invited(st, s, u, i); }
      if j != st.nextInvite { assert Invited(st, s, u, j); }
    }
  }

  lemma RespondKeepsInv(st: State, request: Request)
    requires Inv(st) && request.Respond? && Check(st, request) == Done
    ensures Inv(Effect(st, request))
  {
    var st' := Effect(st, request);
    var invite := st.invites[request.invite];
    forall s, u, i | Invited(st', s, u, i) ensures Invited(st, s, u, i) {
    }
    forall s, u | (s, u) in st'.members && s in st'.squads && st'.squads[s] != u ensures HasAccepted(st', s, u) {
      if request.accept && s == invite.squad && u == request.user {
        assert Invited(st', s, u, request.invite);
      } else {
        var id :| Invited(st, s, u, id) && st.invites[id].status == Accepted;
        assert Invited(st', s, u, id);
      }
    }
    forall s, u, i, j | Invited(st', s, u, i) && Invited(st', s, u, j) ensures i == j {
      assert Invited(st, s, u, i) && Invited(st, s, u, j);
    }
    forall id | id in st'.invites && st'.invites[id].status == Pending
      ensures !IsMember(st', st'.invites[id].squad, st'.invites[id].invitee)
    {
      assert st'.invites[id] == st.invites[id];
      if st.invites[id].squad == invite.squad && st.invites[id].invitee == invite.invitee {
        assert Invited(st, invite.squad, invite.invitee, id) &&
          Invited(st, invite.squad, invite.invitee, request.invite);
      }
    }
  }

  lemma MemberRowsKeepInv(st: State, request: Request)
    requires Inv(st) && (request.Leave? || request.Kick? || request.ChangeRole?) && Check(st, request) == Done
    ensures Inv(Effect(st, request))
  {
    var st' := Effect(st, request);
    forall s, u | (s, u) in st'.members && s in st'.squads && st'.squads[s] != u ensures HasAccepted(st', s, u) {
      assert (s, u) in st.members;
      var id :| Invited(st, s, u, id) && st.invites[id].status == Accepted;
      assert Invited(st', s, u, id);
    }
    forall s, u, i, j | Invited(st', s, u, i) && Invited(st', s, u, j) ensures i == j {
      assert Invited(st, s, u, i) && Invited(st, s, u, j);
    }
  }

  lemma StepKeepsInv(st: State, request: Request)
    requires Inv(st)
    ensures Inv(Step(st, request))
  {
    if Check(st, request) == Done {
      match request
      case Create(user) => CreateKeepsInv(st, user);
      case Delete(squad, user) => DeleteKeepsInv(st, squad, user);
      case Send(_, _, _, _, _) => SendKeepsInv(st, request);
      case Respond(_, _, _) => RespondKeepsInv(st, request);
      case _ => MemberRowsKeepInv(st, request);
    } else if request.Respond? {
      AcceptNeverConflicts(st, request);
    }
  }

  /** Squad membership over all runs. */
  lemma {:induction false} RunKeepsInv(st: State, requests: seq<Request>)
    requires Inv(st)
    ensures Inv(Run(st, requests))
    decreases |requests|
  {
    if requests != [] {
      StepKeepsInv(st, requests[0]);
      RunKeepsInv(Step(st, requests[0]), requests[1..]);
    }
  }

  lemma ReachableMembership(requests: seq<Request>)
    ensures Inv(Run(NOTHING, requests))
  {
    RunKeepsInv(NOTHING, requests);
  }

  // ---------------------------------------------------------------------------------------------
  // Who may change which row
  // ---------------------------------------------------------------------------------------------

  ghost predicate IsStaff(st: State, squad: SquadId, user: string) {
    IsMember(st, squad, user) && st.members[(squad, user)] != Member
  }

  /** A member row disappears exactly when the owner deletes the squad, a member other than the owner leaves, or the
      owner or an admin kicks a member other than the owner. */
  lemma RowRemovedIff(st: State, request: Request, squad: SquadId, user: string)
    requires Inv(st) && IsMember(st, squad, user)
    ensures !IsMember(Step(st, request), squad, user) <==>
      || request == Delete(squad, st.squads[squad])
      || (st.squads[squad] != user &&
           (request == Leave(squad, user) ||
            (request.Kick? && request.squad == squad && request.target == user && IsStaff(st, squad, request.kicker))))
  {
  }

  /** A member row appears exactly when its user creates the squad or accepts a pending invite of his own. */
  lemma RowAddedIff(st: State, request: Request, squad: SquadId, user: string)
    requires Inv(st) && !IsMember(st, squad, user)
    ensures IsMember(Step(st, request), squad, user) <==>
      || (request == Create(user) && squad == st.nextSquad)
      || (request == Respond(if request.Respond? then request.invite else 0, user, true)
          && Invited(st, squad, user, request.invite) && st.invites[request.invite].status == Pending)
  {
    if request.Respond? {
      AcceptNeverConflicts(st, request);
    }
  }

  /** Who is refused, and how. */
  lemma RefusalsAre(st: State, request: Request)
    requires Inv(st)
    ensures Check(st, request) == Forbidden <==>
      match request
      case Create(_) => false
      case Delete(squad, user) => squad in st.squads && st.squads[squad] != user
      case Send(squad, inviter, _, _, _) => !IsMember(st, squad, inviter)
      case Respond(invite, user, _) => invite in st.invites && st.invites[invite].invitee != user
      case Leave(_, _) => false
      case Kick(squad, kicker, _) => !IsStaff(st, squad, kicker)
      case ChangeRole(squad, owner, _, _) => squad in st.squads && st.squads[squad] != owner
    ensures Check(st, request) == NotFound <==>
      match request
      case Create(_) => false
      case Delete(squad, _) => squad !in st.squads
      case Send(squad, inviter, _, exist, _) => IsMember(st, squad, inviter) && !exist
      case Respond(invite, _, _) => invite !in st.invites
      case Leave(squad, user) => !IsMember(st, squad, user)
      case Kick(squad, kicker, target) => IsStaff(st, squad, kicker) && !IsMember(st, squad, target)
      case ChangeRole(squad, owner, target, _) =>
        squad !in st.squads || (st.squads[squad] == owner && !IsMember(st, squad, target))
    ensures Check(st, request) == BadRequest <==>
      match request
      case Create(_) => false
      case Delete(_, _) => false
      case Send(squad, inviter, invitee, exist, friends) =>
        IsMember(st, squad, inviter) && exist &&
        (!friends || IsMember(st, squad, invitee) || HasPending(st, squad, invitee))
      case Respond(invite, user, _) =>
        invite in st.invites && st.invites[invite].invitee == user && st.invites[invite].status != Pending
      case Leave(squad, user) => squad in st.squads && st.squads[squad] == user
      case Kick(squad, kicker, target) => IsStaff(st, squad, kicker) && st.squads[squad] == target
      case ChangeRole(squad, owner, target, _) => squad in st.squads && st.squads[squad] == owner == target
    ensures Check(st, request) == Conflict ==> request.Send?
  {
    if request.Respond? {
      AcceptNeverConflicts(st, request);
    }
  }

  /** A new row is the owner's if he created the squad, and else a plain member's. */
  lemma RoleOfNewRow(st: State, request: Request, squad: SquadId, user: string)
    requires Inv(st) && !IsMember(st, squad, user) && IsMember(Step(st, request), squad, user)
    ensures Step(st, request).members[(squad, user)] == if request.Create? then Owner else Member
  {
    if request.Respond? {
      AcceptNeverConflicts(st, request);
    }
  }

  /** The role of a member that stays is what the owner asked for in this request, if he asked for another member's, and
      else what it was.  The owner's own role never changes. */
  lemma RoleAfterIs(st: State, request: Request, squad: SquadId, user: string)
    requires Inv(st) && IsMember(st, squad, user) && IsMember(Step(st, request), squad, user)
    ensures Step(st, request).members[(squad, user)] ==
      if request.ChangeRole? && request.squad == squad && request.target == user && user != st.squads[squad]
         && request.owner == st.squads[squad]
      then (if request.admin then Admin else Member) else st.members[(squad, user)]
  {
    if request.Respond? {
      AcceptNeverConflicts(st, request);
    }
  }

  /** A squad appears under a fresh id by its creation, and disappears exactly when its owner deletes it. */
  lemma SquadsAfter(st: State, request: Request, squad: SquadId)
    requires Inv(st)
    ensures squad in Step(st, request).squads <==>
      || (request.Create? && squad == st.nextSquad)
      || (squad in st.squads && request != Delete(squad, st.squads[squad]))
    ensures squad in Step(st, request).squads ==>
      Step(st, request).squads[squad] == if squad in st.squads then st.squads[squad] else request.user
  {
    if request.Respond? {
      AcceptNeverConflicts(st, request);
    }
  }

  // ---------------------------------------------------------------------------------------------
  // Which invites there are
  // ---------------------------------------------------------------------------------------------

  /** An invite appears exactly when a member invites an existing friend of his who is no member and was never invited
      to this squad; it is pending. */
  lemma InviteAddedIff(st: State, request: Request, id: InviteId)
    requires Inv(st) && id !in st.invites
    ensures id in Step(st, request).invites <==>
      && id == st.nextInvite && request.Send? && IsMember(st, request.squad, request.inviter)
      && request.exist && request.friends && !IsMember(st, request.squad, request.invitee)
      && (forall other :: other in st.invites ==>
            st.invites[other].squad != request.squad || st.invites[other].invitee != request.invitee)
    ensures id in Step(st, request).invites ==>
      Step(st, request).invites[id] == Invite(request.squad, request.inviter, request.invitee, Pending)
  {
    if request.Send? {
      PendingIsInvite(st, request.squad, request.invitee);
      if HasInvite(st, request.squad, request.invitee) {
        var other :| Invited(st, request.squad, request.invitee, other);
      } else {
        forall other | other in st.invites
          ensures st.invites[other].squad != request.squad || st.invites[other].invitee != request.invitee
        {
          assert !Invited(st, request.squad, request.invitee, other);
        }
      }
    }
  }

  lemma PendingIsInvite(st: State, squad: SquadId, user: string)
    ensures HasPending(st, squad, user) ==> HasInvite(st, squad, user)
  {
    if HasPending(st, squad, user) {
      var id :| Invited(st, squad, user, id) && st.invites[id].status == Pending;
    }
  }

  /** An invite goes exactly with its squad, and its answer is written exactly when its invitee answers it while it is
      pending. */
  lemma InviteAfterIs(st: State, request: Request, id: InviteId)
    requires Inv(st) && id in st.invites
    ensures st.invites[id].squad in st.squads
    ensures id in Step(st, request).invites <==>
      request != Delete(st.invites[id].squad, st.squads[st.invites[id].squad])
    ensures id in Step(st, request).invites ==>
      Step(st, request).invites[id] ==
      if st.invites[id].status == Pending && request.Respond? && request.invite == id
         && request.user == st.invites[id].invitee
      then st.invites[id].(status := if request.accept then Accepted else Declined) else st.invites[id]
  {
    if request.Respond? {
      AcceptNeverConflicts(st, request);
    }
  }

  lemma {:induction false} RunOfLast(st: State, requests: seq<Request>)
    requires requests != []
    ensures Run(st, requests) == Step(Run(st, requests[..|requests| - 1]), requests[|requests| - 1])
    decreases |requests|
  {
    if |requests| == 1 {
      assert requests[..0] == [];
    } else {
      var rest := requests[1..];
      RunOfLast(Step(st, requests[0]), rest);
      assert rest[..|rest| - 1] == requests[..|requests| - 1][1..];
    }
  }

  /** The request sent this invite, when its inviter was a member of the squad. */
  ghost predicate SentBy(st: State, request: Request, invite: Invite) {
    && request == Send(invite.squad, invite.inviter, invite.invitee, true, true)
    && IsMember(st, invite.squad, invite.inviter)
  }

  /** Over every run from empty tables: every invite was sent by somebody who was a member at that step. */
  lemma {:induction false} InvitesWereSentByMembers(requests: seq<Request>, id: InviteId)
    requires id in Run(NOTHING, requests).invites
    ensures exists i ::
      0 <= i < |requests| && SentBy(Run(NOTHING, requests[..i]), requests[i], Run(NOTHING, requests).invites[id])
    decreases |requests|
  {
    hide Step, Inv;
    if requests != [] {
      var n := |requests| - 1;
      var before, last := Run(NOTHING, requests[..n]), requests[n];
      RunOfLast(NOTHING, requests);
      ReachableMembership(requests[..n]);
      if id in before.invites {
        InvitesWereSentByMembers(requests[..n], id);
        InviteAfterIs(before, last, id);
        var i :| 0 <= i < n && SentBy(Run(NOTHING, requests[..n][..i]), requests[..n][i], before.invites[id]);
        assert requests[..n][..i] == requests[..i] && requests[..n][i] == requests[i];
        assert SentBy(Run(NOTHING, requests[..i]), requests[i], Run(NOTHING, requests).invites[id]);
      } else {
        InviteAddedIff(before, last, id);
        assert SentBy(Run(NOTHING, requests[..n]), requests[n], Run(NOTHING, requests).invites[id]);
      }
    }
  }

  // ---------------------------------------------------------------------------------------------
  // Invites are answered for good
  // ---------------------------------------------------------------------------------------------

  /** The user has answered the squad's invite, or the squad is gone. */
  ghost predicate Settled(st: State, squad: SquadId, user: string) {
    && squad < st.nextSquad
    && (squad in st.squads ==> exists id :: Invited(st, squad, user, id) && st.invites[id].status != Pending)
  }

  lemma SettledStays(st: State, request: Request, squad: SquadId, user: string)
    requires Inv(st) && Settled(st, squad, user)
    ensures Settled(Step(st, request), squad, user)
  {
    var st' := Step(st, request);
    if squad in st'.squads {
      assert squad in st.squads;
      var id :| Invited(st, squad, user, id) && st.invites[id].status != Pending;
      assert Invited(st', squad, user, id) && st'.invites[id].status != Pending;
    }
  }

  ghost predicate Accepts(st: State, request: Request, squad: SquadId, user: string) {
    && request.Respond? && request.accept && request.user == user && Check(st, request) == Done
    && st.invites[request.invite].squad == squad
  }

  lemma AnsweringSettles(st: State, request: Request, squad: SquadId, user: string)
    requires Inv(st) && request.Respond? && request.user == user && Check(st, request) == Done
    requires st.invites[request.invite].squad == squad
    ensures Settled(Step(st, request), squad, user) && !Settled(st, squad, user)
  {
    assert Invited(st, squad, user, request.invite);
    assert Invited(Step(st, request), squad, user, request.invite);
    forall id | Invited(st, squad, user, id) ensures id == request.invite {
    }
  }

  ghost function Acceptances(st: State, requests: seq<Request>, squad: SquadId, user: string): nat
    decreases |requests|
  {
    if requests == [] then 0
    else
      (if Accepts(st, requests[0], squad, user) then 1 else 0) +
      Acceptances(Step(st, requests[0]), requests[1..], squad, user)
  }

  /** Each user accepts at most once in a squad's lifetime, and not at all after a first answer. */
  lemma {:induction false} AcceptsAtMostOnce(st: State, requests: seq<Request>, squad: SquadId, user: string)
    requires Inv(st)
    ensures Acceptances(st, requests, squad, user) <= 1
    ensures Settled(st, squad, user) ==> Acceptances(st, requests, squad, user) == 0
    decreases |requests|
  {
    if requests != [] {
      var request, st' := requests[0], Step(st, requests[0]);
      StepKeepsInv(st, request);
      AcceptsAtMostOnce(st', requests[1..], squad, user);
      if Accepts(st, request, squad, user) {
        AnsweringSettles(st, request, squad, user);
      } else if Settled(st, squad, user) {
        SettledStays(st, request, squad, user);
      }
    }
  }

  /** An invite goes out if and only if the squad never invited this user before: the pending check suggests that an
      answered invite could be repeated, but the unique key refuses it. */
  lemma InviteIffNeverInvited(st: State, squad: SquadId, inviter: string, invitee: string)
    requires Inv(st) && IsMember(st, squad, inviter) && !IsMember(st, squad, invitee)
    ensures Check(st, Send(squad, inviter, invitee, true, true)) == Done <==> !HasInvite(st, squad, invitee)
  {
    if HasPending(st, squad, invitee) {
      var id :| Invited(st, squad, invitee, id) && st.invites[id].status == Pending;
      assert HasInvite(st, squad, invitee);
    }
  }

  /** After a decline, or after an accept followed by leaving, the user is never invited to that squad again. */
  lemma {:induction false} AnsweredIsFinal(st: State, requests: seq<Request>, squad: SquadId, inviter: string,
                                           user: string, exist: bool, friends: bool)
    requires Inv(st) && Settled(st, squad, user)
    ensures Check(Run(st, requests), Send(squad, inviter, user, exist, friends)) != Done
    decreases |requests|
  {
    if requests != [] {
      StepKeepsInv(st, requests[0]);
      SettledStays(st, requests[0], squad, user);
      AnsweredIsFinal(Step(st, requests[0]), requests[1..], squad, inviter, user, exist, friends);
    }
  }
}
