/** The service's own code over tables it updates in place, proved to take the steps of Teams. */
module TeamService {
  import opened Text
  import opened Entities
  import opened Teams
  import opened TeamTheorems
  import opened SeatTheorems

  /** A run and one step more. */
  ghost function Recorded(trace: seq<Event>, e: Event): (longer: seq<Event>)
    ensures longer == trace + [e] && Run(longer) == Step(Run(trace), e)
  {
    RunMore(trace, e);
    trace + [e]
  }

  /** When an invitation is accepted, and which error a request is answered with. */
  predicate AcceptanceAnswered(s: State, r: Result<Role, Error>, id: RowId, email: string, now: int) {
    var pending := id in s.invitations && s.invitations[id].status == PENDING;
    var inTime := pending && now <= s.invitations[id].expiresAt;
    var ofTeam := inTime && s.invitations[id].team in s.teams && !s.teams[s.invitations[id].team].deleted;
    var mine := ofTeam && ToLower(email) == ToLower(s.invitations[id].email);
    && (r == Err(InvitationInvalid) <==> !pending)
    && (r == Err(InvitationExpired) <==> pending && !inTime)
    && (r == Err(TeamNotFound) <==> inTime && !ofTeam)
    && (r == Err(EmailMismatch) <==> ofTeam && !mine)
    && (r.Ok? <==> mine)
  }

  predicate IsMember(s: State, team: TeamId, user: UserId) {
    HasRole(s, team, user, OWNER) || HasRole(s, team, user, ADMIN) || HasRole(s, team, user, MEMBER)
  }

  /** When someone is invited, and which error a request is answered with. */
  predicate InvitationAnswered(s: State, r: Result<RowId, Error>, team: TeamId, role: Role, invitee: Option<UserId>) {
    var joined := invitee.Some? && IsMember(s, team, invitee.value);
    && (r == Err(InvitationInvalidRole) <==> role == OWNER)
    && (r == Err(AlreadyMember) <==> role != OWNER && joined)
    && (r == Err(TeamNotFound) <==> role != OWNER && !joined && team !in s.teams)
    && (r.Ok? <==> role != OWNER && !joined && team in s.teams)
  }

  /** When a role update or removal goes through, and which error it is answered with. */
  predicate ChangeAnswered(s: State, error: Option<Error>, team: TeamId, actor: UserId, target: UserId) {
    var known := IsMember(s, team, actor) && team in s.teams && !s.teams[team].deleted;
    var letIn := known && !HasRole(s, team, actor, MEMBER);
    var found := letIn && IsMember(s, team, target);
    var other := found && actor != target;
    var notOwner := other && !HasRole(s, team, target, OWNER);
    var allowed := notOwner && !(HasRole(s, team, actor, ADMIN) && HasRole(s, team, target, ADMIN));
    && (error == Some(TeamNotFound) <==> !known)
    && (error == Some(MemberNotFound) <==> letIn && !found)
    && (error == Some(CannotModifySelf) <==> found && !other)
    && (error == Some(CannotModifyOwner) <==> other && !notOwner)
    && (error == Some(ForbiddenRole) <==> (known && !letIn) || (notOwner && !allowed))
    && (error == None <==> allowed)
  }

  lemma {:induction false} ChangesAreAnswered(s: State, team: TeamId, actor: UserId, target: UserId)
    ensures var guard := GuardError(s, team, actor);
      ChangeAnswered(s, if guard.Some? then guard else SeatError(s, team, actor, target), team, actor, target)
  {
  }

  class TeamTables {
    var teams: map<TeamId, Team>
    var members: map<Seat, Role>
    var invitations: map<RowId, Invitation>
    var calls: map<RowId, Call>

    /** The steps taken so far, by this process or any other. */
    ghost var history: seq<Event>

    function Snapshot(): State
      reads this
    {
      State(teams, members, invitations, calls)
    }

    /** The tables are what the run so far has made of them: what holds of every run holds of them. */
    ghost predicate Valid()
      reads this
    {
      Snapshot() == Run(history)
    }

    constructor ()
      ensures Valid() && history == []
    {
      teams, members, invitations, calls := map[], map[], map[], map[];
      history := [];
    }

    method CreateTeam(team: TeamId, owner: UserId)
      requires Valid() && team !in teams
      modifies this`teams, this`members, this`history
      ensures Valid() && old(history) <= history
      ensures team in teams && teams == old(teams)[team := teams[team]] && !teams[team].deleted
      ensures teams[team].ownerId == owner && teams[team].config == Some(DEFAULT_CONFIG)
      ensures forall user :: HasRole(Snapshot(), team, user, OWNER) <==> user == owner
    {
      teams := teams[team := Team(owner, false, Some(DEFAULT_CONFIG))];
      members := members[Seat(team, owner) := OWNER];
      history := Recorded(history, CreateEvent(team, owner));
      OneOwnerNow(history, team);
    }

    /** `softDelete`, of a team that is there. */
    method DeleteTeam(team: TeamId) returns (ok: bool)
      requires Valid()
      modifies this`teams, this`history
      ensures Valid() && history == old(history) + [DeleteEvent(team)]
      ensures ok <==> team in old(teams) && !old(teams)[team].deleted
      ensures ok ==> teams == old(teams)[team := teams[team]] && teams[team] == old(teams)[team].(deleted := true)
      ensures !ok ==> teams == old(teams)
    {
      ok := team in teams && !teams[team].deleted;
      if ok {
        teams := teams[team := teams[team].(deleted := true)];
      }
      history := Recorded(history, DeleteEvent(team));
    }

    // Invitations

    /** `invite` up to its first write: the checks in their order. */
    method CheckInvitation(call: RowId, team: TeamId, email: string, role: Role, invitee: Option<UserId>)
      returns (error: Option<Error>)
      requires Valid() && call !in calls
      modifies this`calls, this`history
      ensures Valid() && history == old(history) + [InviteCheckEvent(call, team, email, role, invitee)]
      ensures error == InviteError(Snapshot(), team, role, invitee)
      ensures error.Some? ==> calls == old(calls)
      ensures error.None? ==> role != OWNER && calls == old(calls)[call := Inviting(team, ToLower(email), role, false)]
    {
      if role == OWNER {
        error := Some(InvitationInvalidRole);
      } else if invitee.Some? && Seat(team, invitee.value) in members {
        error := Some(AlreadyMember);
      } else {
        error := None;
        calls := calls[call := Inviting(team, ToLower(email), role, false)];
      }
      history := Recorded(history, InviteCheckEvent(call, team, email, role, invitee));
    }

    /** Afterwards no invitation to the address is pending; all others are as they were. */
    method RevokeStale(call: RowId)
      requires Valid() && CanRevoke(Snapshot(), call)
      modifies this`invitations, this`calls, this`history
      ensures Valid() && history == old(history) + [InviteRevokeEvent(call)]
      ensures calls == old(calls)[call := old(calls)[call].(revoked := true)]
      ensures NonePending(Snapshot(), calls[call].team, calls[call].email)
      ensures invitations.Keys == old(invitations).Keys
      ensures forall i :: i in invitations && !PendingFor(old(invitations)[i], calls[call].team, calls[call].email) ==>
        invitations[i] == old(invitations)[i]
    {
      var team, email := calls[call].team, calls[call].email;
      invitations := map i | i in invitations ::
        if invitations[i].team == team && invitations[i].email == email && invitations[i].status == PENDING
        then invitations[i].(status := REVOKED) else invitations[i];
      calls := calls[call := calls[call].(revoked := true)];
      history := Recorded(history, InviteRevokeEvent(call));
    }

    method InsertInvitation(call: RowId, id: RowId, expiresAt: int) returns (ok: bool)
      requires Valid() && CanInvite(Snapshot(), call, id)
      modifies this`invitations, this`calls, this`history
      ensures Valid() && history == old(history) + [InviteCreateEvent(call, id, expiresAt)]
      ensures calls == old(calls) - {call} && ok == (old(calls)[call].team in teams)
      ensures var c := old(calls)[call];
        invitations == if ok then old(invitations)[id := Invitation(c.team, c.email, c.role, PENDING, expiresAt)]
                       else old(invitations)
    {
      var c := calls[call];
      ok := c.team in teams;
      if ok {
        invitations := invitations[id := Invitation(c.team, c.email, c.role, PENDING, expiresAt)];
      }
      calls := calls - {call};
      history := Recorded(history, InviteCreateEvent(call, id, expiresAt));
    }

    /** `invite` from its checks on: the invitations pending to the address make way for the new one. */
    method ReplaceInvitations(call: RowId, id: RowId, expiresAt: int) returns (ok: bool)
      requires Valid() && CanRevoke(Snapshot(), call) && id !in invitations
      modifies this`invitations, this`calls, this`history
      ensures Valid() && old(history) <= history && calls == old(calls) - {call}
      ensures ok == (old(calls)[call].team in teams)
      ensures var c := old(calls)[call];
        && (forall i :: i in old(invitations) ==>
              && i in invitations
              && (PendingFor(old(invitations)[i], c.team, c.email) || invitations[i] == old(invitations)[i]))
        && invitations.Keys == old(invitations).Keys + (if ok then {id} else {})
        && (ok ==> invitations[id] == Invitation(c.team, c.email, c.role, PENDING, expiresAt))
        && (ok ==> forall i :: IsPending(Snapshot(), i, c.team, c.email) <==> i == id)
    {
      RevokeStale(call);
      ok := InsertInvitation(call, id, expiresAt);
    }

    /** `invite`, where nothing interrupts it: the new invitation is the one pending to its address. */
    method Invite(call: RowId, team: TeamId, id: RowId, email: string, role: Role, invitee: Option<UserId>,
                  expiresAt: int)
      returns (r: Result<RowId, Error>)
      requires Valid() && id !in invitations && call !in calls
      modifies this`invitations, this`calls, this`history
      ensures Valid() && calls == old(calls) && old(history) <= history
      ensures var error := InviteError(old(Snapshot()), team, role, invitee);
        r == if error.Some? then Err(error.value) else if team !in teams then Err(TeamNotFound) else Ok(id)
      ensures InvitationAnswered(old(Snapshot()), r, team, role, invitee)
      ensures r.Ok? ==> forall i :: IsPending(Snapshot(), i, team, ToLower(email)) <==> i == id
      ensures r.Ok? ==>
        && invitations.Keys == old(invitations).Keys + {id}
        && invitations[id] == Invitation(team, ToLower(email), role, PENDING, expiresAt)
      ensures forall i :: i in old(invitations) ==>
        i in invitations && (r.Err? || !PendingFor(old(invitations)[i], team, ToLower(email)) ==>
                               invitations[i] == old(invitations)[i])
    {
      InvitationsHaveTeams(history);
      var error := CheckInvitation(call, team, email, role, invitee);
      if error.Some? {
        return Err(error.value);
      }
      var ok := ReplaceInvitations(call, id, expiresAt);
      assert calls == old(calls);
      return if ok then Ok(id) else Err(TeamNotFound);
    }

    /** The checks of `acceptInvitation` in their order. */
    method AcceptanceError(id: RowId, email: string, now: int) returns (error: Option<Error>)
      ensures error == AcceptError(Snapshot(), id, email, now)
    {
      if id !in invitations || invitations[id].status != PENDING {
        return Some(InvitationInvalid);
      }
      if invitations[id].expiresAt < now {
        return Some(InvitationExpired);
      }
      if invitations[id].team !in teams || teams[invitations[id].team].deleted {
        return Some(TeamNotFound);
      }
      if ToLower(email) != ToLower(invitations[id].email) {
        return Some(EmailMismatch);
      }
      return None;
    }

    /** `acceptInvitation` up to its write. */
    method CheckAcceptance(call: RowId, id: RowId, user: UserId, email: string, now: int) returns (error: Option<Error>)
      requires Valid() && call !in calls
      modifies this`calls, this`history
      ensures Valid() && history == old(history) + [AcceptCheckEvent(call, id, user, email, now)]
      ensures error == AcceptError(Snapshot(), id, email, now)
      ensures error == None ==> calls == old(calls)[call := Accepting(id, user)]
      ensures error == Some(InvitationExpired) ==> calls == old(calls)[call := Expiring(id)]
      ensures error.Some? && error.value != InvitationExpired ==> calls == old(calls)
    {
      error := AcceptanceError(id, email, now);
      if error == Some(InvitationExpired) {
        calls := calls[call := Expiring(id)];
      } else if error.None? {
        calls := calls[call := Accepting(id, user)];
      }
      history := Recorded(history, AcceptCheckEvent(call, id, user, email, now));
    }

    method MarkExpired(call: RowId)
      requires Valid() && call in calls && calls[call].Expiring? && calls[call].invitation in invitations
      modifies this`invitations, this`calls, this`history
      ensures Valid() && history == old(history) + [AcceptWriteEvent(call)] && calls == old(calls) - {call}
      ensures var id := old(calls)[call].invitation;
        invitations == old(invitations)[id := old(invitations)[id].(status := EXPIRED)]
    {
      var id := calls[call].invitation;
      invitations := invitations[id := invitations[id].(status := EXPIRED)];
      calls := calls - {call};
      history := Recorded(history, AcceptWriteEvent(call));
    }

    /** The transaction of an acceptance: whoever is a member already keeps the role they have. */
    method Join(call: RowId)
      requires Valid() && call in calls && calls[call].Accepting? && calls[call].invitation in invitations
      modifies this`members, this`invitations, this`calls, this`history
      ensures Valid() && history == old(history) + [AcceptWriteEvent(call)] && calls == old(calls) - {call}
      ensures var id := old(calls)[call].invitation;
        var row, seat := old(invitations)[id], Seat(old(invitations)[id].team, old(calls)[call].user);
        && invitations == old(invitations)[id := row.(status := ACCEPTED)]
        && seat in members && members == old(members)[seat := members[seat]]
        && members[seat] == if seat in old(members) then old(members)[seat] else row.role
    {
      var id := calls[call].invitation;
      var row := invitations[id];
      var seat := Seat(row.team, calls[call].user);
      if seat !in members {
        members := members[seat := row.role];
      }
      invitations := invitations[id := row.(status := ACCEPTED)];
      calls := calls - {call};
      history := Recorded(history, AcceptWriteEvent(call));
    }

    /** `acceptInvitation`, where nothing interrupts it. */
    method AcceptInvitation(call: RowId, id: RowId, user: UserId, email: string, now: int)
      returns (r: Result<Role, Error>)
      requires Valid() && call !in calls
      modifies this`members, this`invitations, this`calls, this`history
      ensures Valid() && calls == old(calls) && old(history) <= history && invitations.Keys == old(invitations).Keys
      ensures r.Err? <==> AcceptError(old(Snapshot()), id, email, now).Some?
      ensures r.Err? ==> Some(r.error) == AcceptError(old(Snapshot()), id, email, now) && members == old(members)
      ensures AcceptanceAnswered(old(Snapshot()), r, id, email, now)
      ensures forall i :: i in invitations && i != id ==> invitations[i] == old(invitations)[i]
      ensures id in invitations ==>
        invitations[id].status == if r.Ok? then ACCEPTED
                                  else if r.error == InvitationExpired then EXPIRED else old(invitations)[id].status
      ensures r.Ok? ==> id in invitations && HasRole(Snapshot(), invitations[id].team, user, r.value)
      ensures r.Ok? ==>
        var seat := Seat(invitations[id].team, user);
        && members == old(members)[seat := r.value]
        && r.value == if seat in old(members) then old(members)[seat] else invitations[id].role
    {
      var error := CheckAcceptance(call, id, user, email, now);
      if error == Some(InvitationExpired) {
        MarkExpired(call);
        assert calls == old(calls);
        return Err(InvitationExpired);
      }
      if error.Some? {
        return Err(error.value);
      }
      Join(call);
      assert calls == old(calls);
      return Ok(members[Seat(invitations[id].team, user)]);
    }

    // Members

    method GuardRefusal(team: TeamId, actor: UserId) returns (error: Option<Error>)
      ensures error == GuardError(Snapshot(), team, actor)
    {
      if Seat(team, actor) !in members || team !in teams || teams[team].deleted {
        return Some(TeamNotFound);
      }
      if members[Seat(team, actor)] == MEMBER {
        return Some(ForbiddenRole);
      }
      return None;
    }

    /** The guard in front of role updates and removals. */
    method PassGuard(call: RowId, team: TeamId, actor: UserId) returns (error: Option<Error>)
      requires Valid() && call !in calls
      modifies this`calls, this`history
      ensures Valid() && history == old(history) + [GuardEvent(call, team, actor)]
      ensures error == GuardError(Snapshot(), team, actor)
      ensures calls == if error.None? then old(calls)[call := Admitted(team, actor)] else old(calls)
    {
      error := GuardRefusal(team, actor);
      if error.None? {
        calls := calls[call := Admitted(team, actor)];
      }
      history := Recorded(history, GuardEvent(call, team, actor));
    }

    /** The refusals of `updateMemberRole` and `removeMember` in their order. */
    method CheckSeat(call: RowId, target: UserId, change: Option<Assignable>) returns (error: Option<Error>)
      requires Valid() && CanCheckSeat(Snapshot(), call)
      modifies this`calls, this`history
      ensures Valid() && history == old(history) + [SeatCheckEvent(call, target, change)]
      ensures var Admitted(team, actor) := old(calls)[call];
        && error == SeatError(Snapshot(), team, actor, target)
        && calls == if error.None? then old(calls)[call := Changing(actor, Seat(team, target), change)]
                    else old(calls) - {call}
    {
      var Admitted(team, actor) := calls[call];
      error := None;
      if Seat(team, target) !in members {
        error := Some(MemberNotFound);
      } else if actor == target {
        error := Some(CannotModifySelf);
      } else if members[Seat(team, target)] == OWNER {
        error := Some(CannotModifyOwner);
      } else if Seat(team, actor) in members && members[Seat(team, actor)] == ADMIN
                && members[Seat(team, target)] == ADMIN {
        error := Some(ForbiddenRole);
      }
      calls := if error.None? then calls[call := Changing(actor, Seat(team, target), change)] else calls - {call};
      history := Recorded(history, SeatCheckEvent(call, target, change));
    }

    method WriteSeat(call: RowId)
      requires Valid() && CanChange(Snapshot(), call)
      modifies this`members, this`calls, this`history
      ensures Valid() && history == old(history) + [SeatWriteEvent(call)] && calls == old(calls) - {call}
      ensures var Changing(_, seat, change) := old(calls)[call];
        members == if change.Some? then old(members)[seat := change.value] else old(members) - {seat}
    {
      var Changing(_, seat, change) := calls[call];
      members := if change.Some? then members[seat := change.value] else members - {seat};
      calls := calls - {call};
      history := Recorded(history, SeatWriteEvent(call));
    }

    /** `updateMemberRole` and `removeMember` from their reads on. */
    method ChangeSeat(call: RowId, target: UserId, change: Option<Assignable>) returns (error: Option<Error>)
      requires Valid() && CanCheckSeat(Snapshot(), call)
      modifies this`members, this`calls, this`history
      ensures Valid() && calls == old(calls) - {call} && old(history) <= history
      ensures var Admitted(team, actor) := old(calls)[call];
        && error == SeatError(old(Snapshot()), team, actor, target)
        && members == if error.Some? then old(members)
                      else if change.Some? then old(members)[Seat(team, target) := change.value]
                      else old(members) - {Seat(team, target)}
    {
      error := CheckSeat(call, target, change);
      if error.None? {
        WriteSeat(call);
      }
    }

    /**
     `updateMemberRole`, and `removeMember` where `change` is None, behind their guard and where
     nothing interrupts them: one seat changes, an administrator's for the owner only; the owner
     stays the owner, and the actor as they are.
     */
    method ChangeMember(call: RowId, team: TeamId, actor: UserId, target: UserId, change: Option<Assignable>)
      returns (error: Option<Error>)
      requires Valid() && call !in calls
      modifies this`members, this`calls, this`history
      ensures Valid() && calls == old(calls) && old(history) <= history
      ensures error == if GuardError(old(Snapshot()), team, actor).Some? then GuardError(old(Snapshot()), team, actor)
                       else SeatError(old(Snapshot()), team, actor, target)
      ensures ChangeAnswered(old(Snapshot()), error, team, actor, target)
      ensures error.Some? ==> members == old(members)
      ensures error.None? ==>
        && members.Keys == (if change.Some? then old(members).Keys else old(members).Keys - {Seat(team, target)})
        && (change.Some? ==> HasRole(Snapshot(), team, target, change.value))
        && (forall seat :: seat in members && seat != Seat(team, target) ==> members[seat] == old(members)[seat])
        && (HasRole(old(Snapshot()), team, target, ADMIN) ==> IsOwner(Snapshot(), team, actor))
      ensures forall t, user :: HasRole(Snapshot(), t, user, OWNER) <==> HasRole(old(Snapshot()), t, user, OWNER)
    {
      OwnersAndRoles(history, team, actor);
      ChangesAreAnswered(Snapshot(), team, actor, target);
      error := PassGuard(call, team, actor);
      if error.None? {
        error := ChangeSeat(call, target, change);
      }
      assert calls == old(calls);
    }
  }
}
