/** What holds of teams and their members whatever overlaps, and of invitations exactly when. */
module TeamTheorems {
  import opened Text
  import opened Entities
  import opened Teams

  // Owners

  lemma {:induction false} OwnerIdKept(s: State, e: Event, team: TeamId)
    requires team in s.teams
    ensures team in Step(s, e).teams && Step(s, e).teams[team].ownerId == s.teams[team].ownerId
  {
  }

  lemma {:induction false} OwnerIdForLife(trace: seq<Event>, more: seq<Event>, team: TeamId)
    requires team in Run(trace).teams
    ensures team in Run(trace + more).teams && Run(trace + more).teams[team].ownerId == Run(trace).teams[team].ownerId
    decreases |more|
  {
    if more == [] {
      assert trace + more == trace;
    } else {
      var fewer, e := more[..|more| - 1], more[|more| - 1];
      assert trace + more == (trace + fewer) + [e];
      OwnerIdForLife(trace, fewer, team);
      RunMore(trace + fewer, e);
      OwnerIdKept(Run(trace + fewer), e, team);
    }
  }

  predicate HasRole(s: State, team: TeamId, user: UserId, role: Role) {
    Seat(team, user) in s.members && s.members[Seat(team, user)] == role
  }

  lemma {:induction false} OneOwnerNow(trace: seq<Event>, team: TeamId)
    requires team in Run(trace).teams
    ensures forall user :: HasRole(Run(trace), team, user, OWNER) <==> user == Run(trace).teams[team].ownerId
  {
    RunHasInv(trace);
  }

  /** Every team has exactly one OWNER, the user who created it, for its whole life. */
  lemma {:induction false} OneOwnerForLife(trace: seq<Event>, more: seq<Event>, team: TeamId, user: UserId)
    requires team in Run(trace).teams
    ensures HasRole(Run(trace + more), team, user, OWNER) <==> user == Run(trace).teams[team].ownerId
  {
    OwnerIdForLife(trace, more, team);
    OneOwnerNow(trace + more, team);
  }

  // Deletion

  ghost predicate WasDeleted(trace: seq<Event>, team: TeamId) {
    exists k :: 0 <= k < |trace| && team in Run(trace[..k]).teams && trace[k] == DeleteEvent(team)
  }

  lemma {:induction false} StepDeletes(s: State, e: Event, team: TeamId)
    requires team in Step(s, e).teams
    ensures Step(s, e).teams[team].deleted
            <==> team in s.teams && (s.teams[team].deleted || e == DeleteEvent(team))
  {
  }

  lemma {:induction false} WasDeletedMore(trace: seq<Event>, e: Event, team: TeamId)
    ensures WasDeleted(trace + [e], team)
            <==> WasDeleted(trace, team) || (team in Run(trace).teams && e == DeleteEvent(team))
  {
    var longer := trace + [e];
    assert longer[..|trace|] == trace && longer[|trace|] == e;
    assert forall k :: 0 <= k < |trace| ==> longer[..k] == trace[..k] && longer[k] == trace[k];
  }

  /** A team is deleted exactly if, once it was there, a deletion was asked for; and it stays so. */
  lemma {:induction false} DeletedExactly(trace: seq<Event>, team: TeamId)
    ensures team in Run(trace).teams ==> (Run(trace).teams[team].deleted <==> WasDeleted(trace, team))
    ensures team !in Run(trace).teams ==> !WasDeleted(trace, team)
  {
    if trace != [] {
      var before, e := trace[..|trace| - 1], trace[|trace| - 1];
      assert trace == before + [e];
      DeletedExactly(before, team);
      WasDeletedMore(before, e, team);
      if team in Run(trace).teams {
        StepDeletes(Run(before), e, team);
      } else if team in Run(before).teams {
        OwnerIdKept(Run(before), e, team);
      }
    }
  }

  // Pending invitations

  predicate IsPending(s: State, id: RowId, team: TeamId, email: string) {
    id in s.invitations && PendingFor(s.invitations[id], team, email)
  }

  ghost predicate AtMostOnePending(s: State, team: TeamId, email: string) {
    forall i, j :: IsPending(s, i, team, email) && IsPending(s, j, team, email) ==> i == j
  }

  ghost predicate NonePending(s: State, team: TeamId, email: string) {
    forall i :: !IsPending(s, i, team, email)
  }

  /** The event creates an invitation to the address. */
  predicate Invites(s: State, e: Event, team: TeamId, email: string) {
    && e.InviteCreateEvent? && CanInvite(s, e.call, e.id) && s.calls[e.call].team in s.teams
    && s.calls[e.call].team == team && s.calls[e.call].email == email
  }

  ghost predicate AlwaysOnePending(trace: seq<Event>, team: TeamId, email: string) {
    && AtMostOnePending(Run(trace), team, email)
    && (trace != [] ==> AlwaysOnePending(trace[..|trace| - 1], team, email))
  }

  lemma {:induction false} PendingComesFrom(s: State, e: Event, id: RowId, team: TeamId, email: string)
    requires IsPending(Step(s, e), id, team, email)
    ensures IsPending(s, id, team, email) || (Invites(s, e, team, email) && id == e.id)
  {
  }

  lemma {:induction false} InvitingKeepsOthers(s: State, e: Event, id: RowId, team: TeamId, email: string)
    requires Invites(s, e, team, email) && IsPending(s, id, team, email)
    ensures !AtMostOnePending(Step(s, e), team, email)
  {
    assert IsPending(Step(s, e), id, team, email) && IsPending(Step(s, e), e.id, team, email);
  }

  /** The invitation was created by another call since this one had revoked, and has been waiting since. */
  ghost predicate CreatedSince(trace: seq<Event>, call: RowId, id: RowId, team: TeamId, email: string, k: int) {
    && 0 <= k < |trace| && Invites(Run(trace[..k]), trace[k], team, email) && trace[k].id == id && trace[k].call != call
    && forall j :: k <= j <= |trace| ==> Ready(Run(trace[..j]), call, team, email)
  }

  /** The call has revoked what was pending to the address and is about to create. */
  predicate Ready(s: State, call: RowId, team: TeamId, email: string) {
    && call in s.calls && s.calls[call].Inviting? && s.calls[call].revoked
    && s.calls[call].team == team && s.calls[call].email == email
  }

  lemma {:induction false} RevokedJustNow(s: State, e: Event, call: RowId, team: TeamId, email: string)
    requires Ready(Step(s, e), call, team, email) && !Ready(s, call, team, email)
    ensures NonePending(Step(s, e), team, email)
  {
  }

  lemma {:induction false} StillCreatedSince(trace: seq<Event>, e: Event, call: RowId, id: RowId, team: TeamId,
                                             email: string, k: int)
    requires CreatedSince(trace, call, id, team, email, k) && Ready(Run(trace + [e]), call, team, email)
    ensures CreatedSince(trace + [e], call, id, team, email, k)
  {
    var longer := trace + [e];
    assert longer[..k] == trace[..k] && longer[k] == trace[k];
    forall j | k <= j <= |longer|
      ensures Ready(Run(longer[..j]), call, team, email)
    {
      if j <= |trace| {
        assert longer[..j] == trace[..j];
      } else {
        assert longer[..j] == longer;
      }
    }
  }

  lemma {:induction false} CreatedJustNow(trace: seq<Event>, e: Event, call: RowId, team: TeamId, email: string)
    requires Invites(Run(trace), e, team, email)
    requires Ready(Run(trace), call, team, email) && Ready(Run(trace + [e]), call, team, email)
    ensures CreatedSince(trace + [e], call, e.id, team, email, |trace|)
  {
    var longer := trace + [e];
    assert longer[..|trace|] == trace && longer[..|longer|] == longer;
    RunMore(trace, e);
    assert e.call != call;
  }

  /**
   An invitation that is pending when a call is about to create one to the same address has been
   created by another call between this one's revocation and its creation.
   */
  lemma {:induction false} PendingIsSinceRevocation(trace: seq<Event>, call: RowId, id: RowId, team: TeamId,
                                                    email: string)
    requires Ready(Run(trace), call, team, email) && IsPending(Run(trace), id, team, email)
    ensures exists k :: CreatedSince(trace, call, id, team, email, k)
  {
    var before, e := trace[..|trace| - 1], trace[|trace| - 1];
    assert trace == before + [e];
    if !Ready(Run(before), call, team, email) {
      RevokedJustNow(Run(before), e, call, team, email);
      assert false;
    } else if IsPending(Run(before), id, team, email) {
      PendingIsSinceRevocation(before, call, id, team, email);
      var k :| CreatedSince(before, call, id, team, email, k);
      StillCreatedSince(before, e, call, id, team, email, k);
    } else {
      PendingComesFrom(Run(before), e, id, team, email);
      CreatedJustNow(before, e, call, team, email);
    }
  }

  /** No call creates an invitation while another, created by another call since its own revocation, is pending. */
  ghost predicate InvitesApart(trace: seq<Event>, team: TeamId, email: string) {
    trace != [] ==>
      && InvitesApart(trace[..|trace| - 1], team, email)
      && (Invites(Run(trace[..|trace| - 1]), trace[|trace| - 1], team, email) ==>
            NothingBetween(trace[..|trace| - 1], trace[|trace| - 1].call, team, email))
  }

  ghost predicate NothingBetween(trace: seq<Event>, call: RowId, team: TeamId, email: string) {
    forall id, k :: CreatedSince(trace, call, id, team, email, k) ==> !IsPending(Run(trace), id, team, email)
  }

  lemma {:induction false} NothingBetweenMeansNonePending(trace: seq<Event>, call: RowId, team: TeamId, email: string)
    requires Ready(Run(trace), call, team, email)
    ensures NothingBetween(trace, call, team, email) <==> NonePending(Run(trace), team, email)
  {
    if id :| IsPending(Run(trace), id, team, email) {
      PendingIsSinceRevocation(trace, call, id, team, email);
    }
  }

  /**
   At every moment of a run at most one invitation to an address of a team is pending, exactly
   if no call creates one while another, created since that call's own revocation, still is.
   */
  lemma {:induction false} OnePendingInvitation(trace: seq<Event>, team: TeamId, email: string)
    ensures AlwaysOnePending(trace, team, email) <==> InvitesApart(trace, team, email)
  {
    if trace != [] {
      var before, e := trace[..|trace| - 1], trace[|trace| - 1];
      var s := Run(before);
      OnePendingInvitation(before, team, email);
      if Invites(s, e, team, email) {
        NothingBetweenMeansNonePending(before, e.call, team, email);
      }
      if AlwaysOnePending(before, team, email) {
        if Invites(s, e, team, email) && !NonePending(s, team, email) {
          var i :| IsPending(s, i, team, email);
          InvitingKeepsOthers(s, e, i, team, email);
        } else {
          forall i, j | IsPending(Run(trace), i, team, email) && IsPending(Run(trace), j, team, email)
            ensures i == j
          {
            PendingComesFrom(s, e, i, team, email);
            PendingComesFrom(s, e, j, team, email);
          }
        }
      }
    }
  }

  lemma {:induction false} InvitationsHaveTeams(trace: seq<Event>)
    ensures forall i :: i in Run(trace).invitations ==> Run(trace).invitations[i].team in Run(trace).teams
  {
    RunHasInv(trace);
  }

  // Settled invitations

  /** A call is going to give the invitation another status than it has. */
  predicate Overwrites(s: State, call: RowId, id: RowId) {
    && call in s.calls && id in s.invitations
    && StatusBy(s.calls[call], id).Some? && StatusBy(s.calls[call], id).value != s.invitations[id].status
  }

  ghost predicate Overwritten(s: State, id: RowId) {
    exists call :: Overwrites(s, call, id)
  }

  lemma {:induction false} SettledStays(s: State, e: Event, id: RowId)
    requires id in s.invitations && s.invitations[id].status != PENDING && !Overwritten(s, id)
    ensures id in Step(s, e).invitations && Step(s, e).invitations[id] == s.invitations[id]
    ensures !Overwritten(Step(s, e), id)
  {
    var s' := Step(s, e);
    if e.AcceptWriteEvent? && CanSettle(s, e.call) && s.calls[e.call].invitation == id {
      assert !Overwrites(s, e.call, id);
    }
    assert s'.invitations[id] == s.invitations[id];
    forall call
      ensures !Overwrites(s', call, id)
    {
      assert !Overwrites(s, call, id);
    }
  }

  ghost predicate SettledForGood(trace: seq<Event>, id: RowId)
    requires id in Run(trace).invitations
  {
    forall more :: SameInvitation(Run(trace), Run(trace + more), id)
  }

  predicate SameInvitation(s: State, s': State, id: RowId) {
    id in s.invitations && id in s'.invitations && s'.invitations[id] == s.invitations[id]
  }

  lemma {:induction false} SettledWithoutCalls(trace: seq<Event>, more: seq<Event>, id: RowId)
    requires id in Run(trace).invitations && Run(trace).invitations[id].status != PENDING
    requires !Overwritten(Run(trace), id)
    ensures SameInvitation(Run(trace), Run(trace + more), id) && !Overwritten(Run(trace + more), id)
    decreases |more|
  {
    if more == [] {
      assert trace + more == trace;
    } else {
      var fewer, e := more[..|more| - 1], more[|more| - 1];
      assert trace + more == (trace + fewer) + [e];
      SettledWithoutCalls(trace, fewer, id);
      RunMore(trace + fewer, e);
      SettledStays(Run(trace + fewer), e, id);
    }
  }

  /**
   An invitation that is no longer pending keeps its status for good, exactly if no acceptance
   or expiry of it that would give it another is between its check and its write.
   */
  lemma {:induction false} InvitationsSettle(trace: seq<Event>, id: RowId)
    requires id in Run(trace).invitations && Run(trace).invitations[id].status != PENDING
    ensures SettledForGood(trace, id) <==> !Overwritten(Run(trace), id)
  {
    if call :| Overwrites(Run(trace), call, id) {
      RunMore(trace, AcceptWriteEvent(call));
      assert !SameInvitation(Run(trace), Run(trace + [AcceptWriteEvent(call)]), id);
    } else {
      forall more
        ensures SameInvitation(Run(trace), Run(trace + more), id)
      {
        SettledWithoutCalls(trace, more, id);
      }
    }
  }

  // Where invitations come from

  predicate InvitesAs(s: State, call: RowId, team: TeamId, email: string, role: Role) {
    call in s.calls && s.calls[call].Inviting? && s.calls[call].team == team && s.calls[call].email == email
    && s.calls[call].role == role
  }

  /** The invitation was asked for at step i, of someone who was no member then, and created at step k. */
  ghost predicate InvitedAt(trace: seq<Event>, id: RowId, row: Invitation, i: int, k: int) {
    && 0 <= i < k < |trace| && trace[i].InviteCheckEvent? && trace[k].InviteCreateEvent?
    && trace[k].id == id && trace[k].expiresAt == row.expiresAt && trace[k].call == trace[i].call
    && trace[i].team == row.team && ToLower(trace[i].email) == row.email && trace[i].role == row.role
    && (trace[i].invitee.Some? ==> Seat(row.team, trace[i].invitee.value) !in Run(trace[..i]).members)
  }

  ghost predicate AskedAt(trace: seq<Event>, call: RowId, team: TeamId, email: string, role: Role, i: int) {
    && 0 <= i < |trace| && trace[i].InviteCheckEvent? && trace[i].call == call
    && trace[i].team == team && ToLower(trace[i].email) == email && trace[i].role == role
    && (trace[i].invitee.Some? ==> Seat(team, trace[i].invitee.value) !in Run(trace[..i]).members)
  }

  lemma {:induction false} NewInviting(s: State, e: Event, call: RowId, team: TeamId, email: string, role: Role)
    requires InvitesAs(Step(s, e), call, team, email, role) && !InvitesAs(s, call, team, email, role)
    ensures e.InviteCheckEvent? && e.call == call && e.team == team && ToLower(e.email) == email && e.role == role
    ensures e.invitee.Some? ==> Seat(team, e.invitee.value) !in s.members
  {
  }

  lemma {:induction false} InvitingWasAsked(trace: seq<Event>, call: RowId, team: TeamId, email: string, role: Role)
    returns (i: int)
    requires InvitesAs(Run(trace), call, team, email, role)
    ensures AskedAt(trace, call, team, email, role, i)
  {
    var before, e := trace[..|trace| - 1], trace[|trace| - 1];
    if InvitesAs(Run(before), call, team, email, role) {
      i := InvitingWasAsked(before, call, team, email, role);
      assert before[..i] == trace[..i] && before[i] == trace[i];
    } else {
      i := |before|;
      NewInviting(Run(before), e, call, team, email, role);
      assert trace[..i] == before;
    }
  }

  lemma {:induction false} NewInvitation(s: State, e: Event, id: RowId)
    requires id in Step(s, e).invitations && id !in s.invitations
    ensures var row := Step(s, e).invitations[id];
      && e.InviteCreateEvent? && e.id == id && e.expiresAt == row.expiresAt
      && InvitesAs(s, e.call, row.team, row.email, row.role)
  {
  }

  lemma {:induction false} InvitationKept(s: State, e: Event, id: RowId)
    requires id in s.invitations
    ensures id in Step(s, e).invitations
    ensures Step(s, e).invitations[id].(status := s.invitations[id].status) == s.invitations[id]
  {
  }

  lemma {:induction false} InvitedNow(trace: seq<Event>, e: Event, id: RowId) returns (i: int)
    requires id in Run(trace + [e]).invitations && id !in Run(trace).invitations
    ensures InvitedAt(trace + [e], id, Run(trace + [e]).invitations[id], i, |trace|)
  {
    RunMore(trace, e);
    NewInvitation(Run(trace), e, id);
    var row := Run(trace + [e]).invitations[id];
    i := InvitingWasAsked(trace, e.call, row.team, row.email, row.role);
    assert (trace + [e])[..i] == trace[..i] && (trace + [e])[i] == trace[i];
  }

  /** Every invitation was asked for: to its team, its address and in its role, and of nobody who was a member then. */
  lemma {:induction false} InvitationsAreAskedFor(trace: seq<Event>, id: RowId) returns (i: int, k: int)
    requires id in Run(trace).invitations
    ensures InvitedAt(trace, id, Run(trace).invitations[id], i, k)
  {
    var before, e := trace[..|trace| - 1], trace[|trace| - 1];
    assert trace == before + [e];
    if id in Run(before).invitations {
      i, k := InvitationsAreAskedFor(before, id);
      InvitationKept(Run(before), e, id);
      assert trace[..i] == before[..i] && trace[i] == before[i] && trace[k] == before[k];
    } else {
      i := InvitedNow(before, e, id);
      k := |before|;
    }
  }

  // Where calls come from

  predicate CallIs(s: State, call: RowId, c: Call) {
    call in s.calls && s.calls[call] == c
  }

  /** The call has been what it is ever since step k made it so. */
  ghost predicate PutAt(trace: seq<Event>, call: RowId, c: Call, k: int) {
    && 0 <= k < |trace| && !CallIs(Run(trace[..k]), call, c)
    && forall j :: k < j <= |trace| ==> CallIs(Run(trace[..j]), call, c)
  }

  lemma {:induction false} StillPut(trace: seq<Event>, e: Event, call: RowId, c: Call, k: int)
    requires PutAt(trace, call, c, k) && CallIs(Run(trace + [e]), call, c)
    ensures PutAt(trace + [e], call, c, k)
  {
    var longer := trace + [e];
    assert longer[..k] == trace[..k];
    forall j | k < j <= |longer|
      ensures CallIs(Run(longer[..j]), call, c)
    {
      assert longer[..j] == if j <= |trace| then trace[..j] else longer;
    }
  }

  lemma {:induction false} JustPut(trace: seq<Event>, e: Event, call: RowId, c: Call)
    requires CallIs(Run(trace + [e]), call, c) && !CallIs(Run(trace), call, c)
    ensures PutAt(trace + [e], call, c, |trace|)
  {
    assert (trace + [e])[..|trace|] == trace && (trace + [e])[..|trace| + 1] == trace + [e];
  }

  lemma {:induction false} CallsWerePut(trace: seq<Event>, call: RowId, c: Call) returns (k: int)
    requires CallIs(Run(trace), call, c)
    ensures PutAt(trace, call, c, k)
  {
    var before, e := trace[..|trace| - 1], trace[|trace| - 1];
    assert trace == before + [e];
    if CallIs(Run(before), call, c) {
      k := CallsWerePut(before, call, c);
      StillPut(before, e, call, c, k);
    } else {
      k := |before|;
      JustPut(before, e, call, c);
    }
  }

  lemma {:induction false} StepAt(trace: seq<Event>, k: int)
    requires 0 <= k < |trace|
    ensures Run(trace[..k + 1]) == Step(Run(trace[..k]), trace[k])
  {
    assert trace[..k + 1] == trace[..k] + [trace[k]];
    RunMore(trace[..k], trace[k]);
  }

  // Where seats come from

  /** At the moment of its check the invitation was pending, not expired, and to the user's address. */
  predicate Checked(s: State, e: Event, call: RowId, id: RowId, user: UserId) {
    && e.AcceptCheckEvent? && e.call == call && e.id == id && e.user == user
    && id in s.invitations && s.invitations[id].status == PENDING && e.now <= s.invitations[id].expiresAt
    && s.invitations[id].team in s.teams && !s.teams[s.invitations[id].team].deleted
    && ToLower(e.email) == ToLower(s.invitations[id].email)
  }

  ghost predicate WasChecked(trace: seq<Event>, call: RowId, id: RowId, user: UserId) {
    exists k :: 0 <= k < |trace| && Checked(Run(trace[..k]), trace[k], call, id, user)
  }

  lemma {:induction false} NewAcceptance(s: State, e: Event, call: RowId, id: RowId, user: UserId)
    requires CallIs(Step(s, e), call, Accepting(id, user)) && !CallIs(s, call, Accepting(id, user))
    ensures Checked(s, e, call, id, user)
  {
  }

  lemma {:induction false} AcceptancesWereChecked(trace: seq<Event>, call: RowId)
    requires call in Run(trace).calls && Run(trace).calls[call].Accepting?
    ensures WasChecked(trace, call, Run(trace).calls[call].invitation, Run(trace).calls[call].user)
  {
    var c := Run(trace).calls[call];
    var k := CallsWerePut(trace, call, c);
    StepAt(trace, k);
    NewAcceptance(Run(trace[..k]), trace[k], call, c.invitation, c.user);
  }

  /** The event makes the user a member by an invitation to the team, in the role it is to. */
  predicate Joins(s: State, e: Event, seat: Seat) {
    && e.AcceptWriteEvent? && CanSettle(s, e.call) && s.calls[e.call].Accepting? && s.calls[e.call].user == seat.user
    && s.invitations[s.calls[e.call].invitation].team == seat.team && seat !in s.members
  }

  ghost predicate JoinedAt(trace: seq<Event>, seat: Seat, k: int) {
    && 0 <= k < |trace| && Joins(Run(trace[..k]), trace[k], seat)
    && WasChecked(trace[..k], trace[k].call, Run(trace[..k]).calls[trace[k].call].invitation, seat.user)
  }

  lemma {:induction false} NewSeat(s: State, e: Event, seat: Seat)
    requires seat !in s.members && seat in Step(s, e).members
    ensures Joins(s, e, seat) || (e.CreateEvent? && seat == Seat(e.team, e.owner))
  {
  }

  lemma {:induction false} JoinedJustNow(trace: seq<Event>, e: Event, seat: Seat)
    requires Joins(Run(trace), e, seat)
    ensures JoinedAt(trace + [e], seat, |trace|)
  {
    AcceptancesWereChecked(trace, e.call);
    assert (trace + [e])[..|trace|] == trace;
  }

  lemma {:induction false} JoinedEarlier(trace: seq<Event>, e: Event, seat: Seat, k: int)
    requires JoinedAt(trace, seat, k)
    ensures JoinedAt(trace + [e], seat, k)
  {
    assert (trace + [e])[..k] == trace[..k] && (trace + [e])[k] == trace[k];
  }

  lemma {:induction false} StillNotOwner(trace: seq<Event>, e: Event, seat: Seat)
    requires seat in Run(trace).members && !HasRole(Run(trace + [e]), seat.team, seat.user, OWNER)
    ensures !HasRole(Run(trace), seat.team, seat.user, OWNER)
  {
    RunHasInv(trace);
    if HasRole(Run(trace), seat.team, seat.user, OWNER) {
      OneOwnerForLife(trace, [e], seat.team, seat.user);
    }
  }

  lemma {:induction false} NewSeatJoins(trace: seq<Event>, e: Event, seat: Seat)
    requires seat !in Run(trace).members && seat in Run(trace + [e]).members
    requires !HasRole(Run(trace + [e]), seat.team, seat.user, OWNER)
    ensures Joins(Run(trace), e, seat)
  {
    RunMore(trace, e);
    NewSeat(Run(trace), e, seat);
  }

  /**
   Every member but a team's owner has joined by accepting an invitation to that team, which
   when it was checked was pending, not expired and to the user's own address.
   */
  lemma {:induction false} SeatsComeFromInvitations(trace: seq<Event>, seat: Seat)
    requires seat in Run(trace).members && !HasRole(Run(trace), seat.team, seat.user, OWNER)
    ensures exists k :: JoinedAt(trace, seat, k)
  {
    var before, e := trace[..|trace| - 1], trace[|trace| - 1];
    assert trace == before + [e];
    if seat in Run(before).members {
      StillNotOwner(before, e, seat);
      SeatsComeFromInvitations(before, seat);
      var k :| JoinedAt(before, seat, k);
      JoinedEarlier(before, e, seat, k);
    } else {
      NewSeatJoins(before, e, seat);
      JoinedJustNow(before, e, seat);
    }
  }

  /** The event gives the member the role: by joining, or by an update. */
  predicate Gives(s: State, e: Event, seat: Seat, role: Role) {
    || (Joins(s, e, seat) && role == s.invitations[s.calls[e.call].invitation].role)
    || (e.SeatWriteEvent? && CanChange(s, e.call)
        && s.calls[e.call].seat == seat && s.calls[e.call].change == Some(role))
  }

  /** A member's role is that given last. */
  ghost predicate LastGiven(trace: seq<Event>, seat: Seat, role: Role, k: int) {
    && 0 <= k < |trace| && Gives(Run(trace[..k]), trace[k], seat, role)
    && forall j :: k < j < |trace| ==> LeavesSeat(Run(trace[..j]), trace[j], seat)
  }

  predicate LeavesSeat(s: State, e: Event, seat: Seat) {
    seat in s.members && seat in Step(s, e).members && Step(s, e).members[seat] == s.members[seat]
  }

  lemma {:induction false} SeatMoves(s: State, e: Event, seat: Seat)
    requires seat in Step(s, e).members && !LeavesSeat(s, e, seat)
    ensures Gives(s, e, seat, Step(s, e).members[seat]) || (e.CreateEvent? && seat == Seat(e.team, e.owner))
  {
  }

  lemma {:induction false} StillLastGiven(trace: seq<Event>, e: Event, seat: Seat, role: Role, k: int)
    requires LastGiven(trace, seat, role, k) && LeavesSeat(Run(trace), e, seat)
    ensures LastGiven(trace + [e], seat, role, k)
  {
    var longer := trace + [e];
    assert longer[..k] == trace[..k] && longer[k] == trace[k];
    forall j | k < j < |longer|
      ensures LeavesSeat(Run(longer[..j]), longer[j], seat)
    {
      if j < |trace| {
        assert longer[..j] == trace[..j] && longer[j] == trace[j];
      } else {
        assert longer[..j] == trace;
      }
    }
  }

  /** Every role but an owner's is the one last given, by an invitation that was accepted or by an update. */
  lemma {:induction false} RolesAreGiven(trace: seq<Event>, seat: Seat)
    requires seat in Run(trace).members && !HasRole(Run(trace), seat.team, seat.user, OWNER)
    ensures exists k :: LastGiven(trace, seat, Run(trace).members[seat], k)
  {
    var before, e := trace[..|trace| - 1], trace[|trace| - 1];
    var role := Run(trace).members[seat];
    RunHasInv(before);
    RunHasInv(trace);
    if LeavesSeat(Run(before), e, seat) {
      RolesAreGiven(before, seat);
      var k :| LastGiven(before, seat, role, k);
      StillLastGiven(before, e, seat, role, k);
      assert trace == before + [e];
    } else {
      SeatMoves(Run(before), e, seat);
      assert Gives(Run(before), e, seat, role);
      assert trace[..|trace| - 1] == before;
      assert LastGiven(trace, seat, role, |trace| - 1);
    }
  }
}
