/** The squad service over its three tables.  Lookups of users and friendships are parameters; notifications and reads
    for display are left out. */
module SquadService {
  import opened Wrappers
  import opened Players
  import opened SquadMembership

  class SquadService {
    var squads: map<SquadId, string>
    var members: map<(SquadId, string), Role>
    var invites: map<InviteId, Invite>
    var nextSquad: SquadId
    var nextInvite: InviteId

    constructor ()
      ensures View() == NOTHING
    {
      squads, members, invites, nextSquad, nextInvite := map[], map[], map[], 0, 0;
    }

    function View(): State
      reads this
    {
      State(squads, members, invites, nextSquad, nextInvite)
    }

    method CreateSquad(userId: string) returns (squad: SquadId)
      modifies this
      ensures squad == old(nextSquad) && View() == Step(old(View()), Create(userId))
    {
      squad := nextSquad;
      nextSquad := nextSquad + 1;
      squads := squads[squad := userId];
      members := members[(squad, userId) := Owner];
    }

    method DeleteSquad(squadId: SquadId, userId: string) returns (outcome: Outcome)
      modifies this
      ensures outcome == Check(old(View()), Delete(squadId, userId)) &&
        View() == Step(old(View()), Delete(squadId, userId))
    {
      if squadId !in squads { return NotFound; }
      if squads[squadId] != userId { return Forbidden; }
      squads := squads - {squadId};
      members := map key | key in members && key.0 != squadId :: members[key];
      invites := map id | id in invites && invites[id].squad != squadId :: invites[id];
      outcome := Done;
    }

    /** `findUnique` on the key (squad, invitee). */
    method FindInvite(squadId: SquadId, invitee: string) returns (found: Option<InviteId>)
      ensures found.Some? ==> Invited(View(), squadId, invitee, found.value)
      ensures found.None? ==> !HasInvite(View(), squadId, invitee)
    {
      var ids := invites.Keys;
      while ids != {}
        invariant ids <= invites.Keys
        invariant forall id :: id in invites && id !in ids ==> !Invited(View(), squadId, invitee, id)
        decreases ids
      {
        var id :| id in ids;
        if invites[id].squad == squadId && invites[id].invitee == invitee { return Some(id); }
        ids := ids - {id};
      }
      found := None;
    }

    method InviteToSquad(squadId: SquadId, inviterId: string, invitee: string, exist: bool, friends: bool)
      returns (outcome: Outcome)
      requires Inv(View())
      modifies this
      ensures outcome == Check(old(View()), Send(squadId, inviterId, invitee, exist, friends))
      ensures View() == Step(old(View()), Send(squadId, inviterId, invitee, exist, friends))
    {
      if (squadId, inviterId) !in members { return Forbidden; }
      if !exist { return NotFound; }
      if !friends { return BadRequest; }
      if (squadId, invitee) in members { return BadRequest; }
      var existing := FindInvite(squadId, invitee);
      if existing.Some? {
        assert HasInvite(View(), squadId, invitee);
        if invites[existing.value].status == Pending { return BadRequest; }
        return Conflict;
      }
      invites := invites[nextInvite := Invite(squadId, inviterId, invitee, Pending)];
      nextInvite := nextInvite + 1;
      outcome := Done;
    }

    method RespondToInvite(inviteId: InviteId, userId: string, accept: bool) returns (outcome: Outcome)
      modifies this
      ensures outcome == Check(old(View()), Respond(inviteId, userId, accept))
      ensures View() == Step(old(View()), Respond(inviteId, userId, accept))
    {
      if inviteId !in invites { return NotFound; }
      var invite := invites[inviteId];
      if invite.invitee != userId { return Forbidden; }
      if invite.status != Pending { return BadRequest; }
      invites := invites[inviteId := invite.(status := if accept then Accepted else Declined)];
      if accept {
        if (invite.squad, userId) in members { return Conflict; }
        members := members[(invite.squad, userId) := Member];
      }
      outcome := Done;
    }

    method LeaveSquad(squadId: SquadId, userId: string) returns (outcome: Outcome)
      modifies this
      ensures outcome == Check(old(View()), Leave(squadId, userId)) &&
        View() == Step(old(View()), Leave(squadId, userId))
    {
      if squadId !in squads { return NotFound; }
      if squads[squadId] == userId { return BadRequest; }
      if (squadId, userId) !in members { return NotFound; }
      members := members - {(squadId, userId)};
      outcome := Done;
    }

    method KickMember(squadId: SquadId, kickerId: string, target: string) returns (outcome: Outcome)
      modifies this
      ensures outcome == Check(old(View()), Kick(squadId, kickerId, target))
      ensures View() == Step(old(View()), Kick(squadId, kickerId, target))
    {
      if (squadId, kickerId) !in members || members[(squadId, kickerId)] == Member { return Forbidden; }
      if squadId !in squads { return NotFound; }
      if squads[squadId] == target { return BadRequest; }
      if (squadId, target) !in members { return NotFound; }
      members := members - {(squadId, target)};
      outcome := Done;
    }

    method ChangeMemberRole(squadId: SquadId, ownerId: string, target: string, admin: bool) returns (outcome: Outcome)
      modifies this
      ensures outcome == Check(old(View()), ChangeRole(squadId, ownerId, target, admin))
      ensures View() == Step(old(View()), ChangeRole(squadId, ownerId, target, admin))
    {
      if squadId !in squads { return NotFound; }
      if squads[squadId] != ownerId { return Forbidden; }
      if squads[squadId] == target { return BadRequest; }
      if (squadId, target) !in members { return NotFound; }
      members := members[(squadId, target) := if admin then Admin else Member];
      outcome := Done;
    }
  }
}
