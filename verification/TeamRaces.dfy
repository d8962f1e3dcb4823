/** Runs in which overlapping requests spoil what each of them promises alone. */
module TeamRaces {
  import opened Text
  import opened Entities
  import opened Teams
  import opened TeamTheorems

  // Parts of requests whose checks let them pass

  /** `invite` up to its insert. */
  lemma {:induction false} PastRevocation(t: seq<Event>, call: RowId, team: TeamId, email: string)
    returns (t': seq<Event>)
    requires call !in Run(t).calls
    ensures t <= t' && Run(t').teams == Run(t).teams && Run(t').members == Run(t).members
    ensures Run(t').invitations == RevokePending(Run(t).invitations, team, ToLower(email))
    ensures Run(t').calls == Run(t).calls[call := Inviting(team, ToLower(email), MEMBER, true)]
  {
    var check, revoke := InviteCheckEvent(call, team, email, MEMBER, None), InviteRevokeEvent(call);
    RunMore(t, check);
    RunMore(t + [check], revoke);
    t' := (t + [check]) + [revoke];
    assert Run(t + [check]).calls == Run(t).calls[call := Inviting(team, ToLower(email), MEMBER, false)];
  }

  lemma {:induction false} Insert(t: seq<Event>, call: RowId, id: RowId, expiresAt: int) returns (t': seq<Event>)
    requires CanInvite(Run(t), call, id) && Run(t).calls[call].team in Run(t).teams
    ensures t <= t' && Run(t').teams == Run(t).teams && Run(t').members == Run(t).members
    ensures var c := Run(t).calls[call];
      Run(t').invitations == Run(t).invitations[id := Invitation(c.team, c.email, c.role, PENDING, expiresAt)]
    ensures Run(t').calls == Run(t).calls - {call}
  {
    RunMore(t, InviteCreateEvent(call, id, expiresAt));
    t' := t + [InviteCreateEvent(call, id, expiresAt)];
  }

  /** `invite` as a whole. */
  lemma {:induction false} WholeInvite(t: seq<Event>, call: RowId, id: RowId, team: TeamId, email: string,
                                       expiresAt: int)
    returns (t': seq<Event>)
    requires team in Run(t).teams && call !in Run(t).calls && id !in Run(t).invitations
    ensures t <= t' && Run(t').teams == Run(t).teams && Run(t').members == Run(t).members
    ensures Run(t').invitations == RevokePending(Run(t).invitations, team, ToLower(email))
                                     [id := Invitation(team, ToLower(email), MEMBER, PENDING, expiresAt)]
    ensures Run(t').calls == Run(t).calls
  {
    t' := PastRevocation(t, call, team, email);
    t' := Insert(t', call, id, expiresAt);
  }

  // Invitations

  lemma {:induction false} TwoPending(trace: seq<Event>, team: TeamId, email: string, i: RowId, j: RowId)
    requires i != j && IsPending(Run(trace), i, team, email) && IsPending(Run(trace), j, team, email)
    ensures !AlwaysOnePending(trace, team, email)
  {
    assert !AtMostOnePending(Run(trace), team, email);
  }

  /** Two overlapping invitations leave two pending to one address, with nothing in flight: in any team, at any time. */
  lemma {:induction false} OverlappingInvitations(trace: seq<Event>, team: TeamId, email: string, a: RowId, b: RowId,
                                                  i: RowId, j: RowId)
    returns (t: seq<Event>)
    requires team in Run(trace).teams && a != b && a !in Run(trace).calls && b !in Run(trace).calls
    requires i != j && i !in Run(trace).invitations && j !in Run(trace).invitations
    ensures trace <= t && Run(t).calls == Run(trace).calls
    ensures IsPending(Run(t), i, team, ToLower(email)) && IsPending(Run(t), j, team, ToLower(email))
    ensures !AlwaysOnePending(t, team, ToLower(email))
  {
    t := PastRevocation(trace, a, team, email);
    t := WholeInvite(t, b, j, team, email, 0);
    t := Insert(t, a, i, 0);
    TwoPending(t, team, ToLower(email), i, j);
  }

  lemma {:induction false} PastAcceptCheck(t: seq<Event>, call: RowId, id: RowId, user: UserId, email: string, now: int)
    returns (t': seq<Event>)
    requires call !in Run(t).calls && AcceptError(Run(t), id, email, now) == None
    ensures t <= t' && Run(t') == Run(t).(calls := Run(t).calls[call := Accepting(id, user)])
  {
    RunMore(t, AcceptCheckEvent(call, id, user, email, now));
    t' := t + [AcceptCheckEvent(call, id, user, email, now)];
  }

  /** An invitation, and an acceptance of it up to its write. */
  lemma {:induction false} AboutToAccept(trace: seq<Event>, team: TeamId, email: string, user: UserId, id: RowId,
                                         a: RowId, b: RowId)
    returns (t: seq<Event>)
    requires team in Run(trace).teams && !Run(trace).teams[team].deleted
    requires a != b && a !in Run(trace).calls && b !in Run(trace).calls && id !in Run(trace).invitations
    ensures trace <= t && Run(t).calls == Run(trace).calls[a := Accepting(id, user)]
    ensures IsPending(Run(t), id, team, ToLower(email)) && Run(t).members == Run(trace).members
  {
    t := WholeInvite(trace, b, id, team, email, 0);
    LowerTwice(email);
    t := PastAcceptCheck(t, a, id, user, email, 0);
  }

  /**
   An acceptance overwrites a revocation: the invitation is revoked to make way for another, and
   accepted afterwards, by a user who becomes a member with it.
   */
  lemma {:induction false} RevokedThenAccepted(trace: seq<Event>, team: TeamId, email: string, user: UserId, id: RowId,
                                               a: RowId, b: RowId)
    returns (revoked: seq<Event>, t: seq<Event>)
    requires team in Run(trace).teams && !Run(trace).teams[team].deleted
    requires a != b && a !in Run(trace).calls && b !in Run(trace).calls && id !in Run(trace).invitations
    ensures trace <= revoked <= t && id in Run(revoked).invitations && id in Run(t).invitations
    ensures Run(revoked).invitations[id].status == REVOKED && Run(t).invitations[id].status == ACCEPTED
    ensures Seat(team, user) in Run(t).members
  {
    revoked := AboutToAccept(trace, team, email, user, id, a, b);
    revoked := PastRevocation(revoked, b, team, email);
    RunMore(revoked, AcceptWriteEvent(a));
    t := revoked + [AcceptWriteEvent(a)];
  }

  // Members

  lemma {:induction false} PastGuard(t: seq<Event>, call: RowId, team: TeamId, actor: UserId) returns (t': seq<Event>)
    requires call !in Run(t).calls && GuardError(Run(t), team, actor) == None
    ensures t <= t' && Run(t') == Run(t).(calls := Run(t).calls[call := Admitted(team, actor)])
  {
    RunMore(t, GuardEvent(call, team, actor));
    t' := t + [GuardEvent(call, team, actor)];
  }

  lemma {:induction false} PastSeatCheck(t: seq<Event>, call: RowId, actor: UserId, seat: Seat,
                                         change: Option<Assignable>)
    returns (t': seq<Event>)
    requires CallIs(Run(t), call, Admitted(seat.team, actor)) && SeatError(Run(t), seat.team, actor, seat.user) == None
    ensures t <= t' && Run(t') == Run(t).(calls := Run(t).calls[call := Changing(actor, seat, change)])
  {
    RunMore(t, SeatCheckEvent(call, seat.user, change));
    t' := t + [SeatCheckEvent(call, seat.user, change)];
  }

  lemma {:induction false} PastSeatWrite(t: seq<Event>, call: RowId, actor: UserId, seat: Seat,
                                         change: Option<Assignable>)
    returns (t': seq<Event>)
    requires CallIs(Run(t), call, Changing(actor, seat, change)) && seat in Run(t).members
    ensures t <= t' && Run(t').teams == Run(t).teams && Run(t').calls == Run(t).calls - {call}
    ensures Run(t').members == if change.Some? then Run(t).members[seat := change.value] else Run(t).members - {seat}
  {
    RunMore(t, SeatWriteEvent(call));
    t' := t + [SeatWriteEvent(call)];
  }

  /** A role update as a whole, by the owner. */
  lemma {:induction false} OwnerGives(t: seq<Event>, call: RowId, seat: Seat, role: Assignable)
    returns (t': seq<Event>)
    requires seat.team in Run(t).teams && !Run(t).teams[seat.team].deleted && call !in Run(t).calls
    requires seat in Run(t).members && Run(t).teams[seat.team].ownerId != seat.user
    ensures t <= t' && Run(t').teams == Run(t).teams && Run(t').calls == Run(t).calls
    ensures Run(t').members == Run(t).members[seat := role]
  {
    var owner := Run(t).teams[seat.team].ownerId;
    RunHasInv(t);
    t' := PastGuard(t, call, seat.team, owner);
    t' := PastSeatCheck(t', call, owner, seat, Some(role));
    t' := PastSeatWrite(t', call, owner, seat, Some(role));
  }

  /**
   An administrator who is demoted between the guard and the checks of a request removes another
   administrator.
   */
  lemma {:induction false} DemotedAdministratorActs(trace: seq<Event>, team: TeamId, actor: UserId, target: UserId,
                                                    a: RowId, b: RowId)
    returns (demoted: seq<Event>, t: seq<Event>)
    requires team in Run(trace).teams && !Run(trace).teams[team].deleted && actor != target
    requires HasRole(Run(trace), team, actor, ADMIN) && HasRole(Run(trace), team, target, ADMIN)
    requires a != b && a !in Run(trace).calls && b !in Run(trace).calls
    ensures trace <= demoted <= t && Seat(team, target) !in Run(t).members
    ensures HasRole(Run(demoted), team, actor, MEMBER) && HasRole(Run(demoted), team, target, ADMIN)
  {
    RunHasInv(trace);
    var seat := Seat(team, target);
    demoted := PastGuard(trace, a, team, actor);
    demoted := OwnerGives(demoted, b, Seat(team, actor), MEMBER);
    t := PastSeatCheck(demoted, a, actor, seat, None);
    t := PastSeatWrite(t, a, actor, seat, None);
  }

  /** A member promoted between the checks and the write of an administrator's request is removed all the same. */
  lemma {:induction false} PromotedSinceTheCheck(trace: seq<Event>, team: TeamId, actor: UserId, target: UserId,
                                                 a: RowId, b: RowId)
    returns (promoted: seq<Event>, t: seq<Event>)
    requires team in Run(trace).teams && !Run(trace).teams[team].deleted
    requires HasRole(Run(trace), team, actor, ADMIN) && HasRole(Run(trace), team, target, MEMBER)
    requires a != b && a !in Run(trace).calls && b !in Run(trace).calls
    ensures trace <= promoted <= t && Seat(team, target) !in Run(t).members
    ensures HasRole(Run(promoted), team, actor, ADMIN) && HasRole(Run(promoted), team, target, ADMIN)
  {
    RunHasInv(trace);
    var seat := Seat(team, target);
    promoted := PastGuard(trace, a, team, actor);
    promoted := PastSeatCheck(promoted, a, actor, seat, None);
    promoted := OwnerGives(promoted, b, seat, ADMIN);
    t := PastSeatWrite(promoted, a, actor, seat, None);
  }
}
