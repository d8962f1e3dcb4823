/** The service's own code over tables it updates in place, proved to take the steps of RefreshTokens. */
module AuthService {
  import opened Text
  import opened Entities
  import opened RefreshTokens
  import opened RefreshGuarantees
  import opened ResetGuarantees
  import opened RefreshPathTheorems

  /** A run and one step more. */
  ghost function Recorded(trace: seq<Event>, e: Event): (longer: seq<Event>)
    ensures longer == trace + [e] && Run(longer) == Step(Run(trace), e)
  {
    RunMore(trace, e);
    trace + [e]
  }

  /** Who gets a new token, and why others do not. */
  predicate RotationAnswered(s: State, presented: RowId, verified: bool, now: int, userActive: bool,
                             r: Result<RowId, Outcome>)
  {
    var known := verified && presented in s.tokens;
    var unrevoked := known && s.tokens[presented].revokedAt.None?;
    var inTime := unrevoked && now <= s.tokens[presented].expiresAt;
    && (r == Err(ReuseDetected) <==> known && !unrevoked)
    && (r == Err(Expired) <==> unrevoked && !inTime)
    && (r == Err(Invalid) <==> !known || (inTime && !userActive))
    && (r.Ok? <==> inTime && userActive)
  }

  class AuthTables {
    var tokens: map<RowId, Token>
    var resets: map<RowId, Reset>
    var calls: map<RowId, Call>

    /** The steps taken so far, by this process or any other. */
    ghost var history: seq<Event>

    function Snapshot(): State
      reads this
    {
      State(tokens, resets, calls)
    }

    /** The tables are what the run so far has made of them: what holds of every run holds of them. */
    ghost predicate Valid()
      reads this
    {
      Snapshot() == Run(history)
    }

    constructor ()
      ensures Valid() && history == []
    {
      tokens, resets, calls := map[], map[], map[];
      history := [];
    }

    /** `issueTokens` for a login: the one token of a new family. */
    method IssueTokens(user: UserId, id: RowId, family: string, expiresAt: int)
      requires Valid() && id !in tokens && !FamilyUsed(Snapshot(), family)
      modifies this`tokens, this`history
      ensures Valid() && old(history) <= history
      ensures Usable(Snapshot(), id, family) && forall other :: InFamily(Snapshot(), other, family) ==> other == id
      ensures tokens.Keys == old(tokens).Keys + {id} && tokens[id].user == user && tokens[id].expiresAt == expiresAt
      ensures forall other :: other in old(tokens) ==> tokens[other] == old(tokens)[other]
    {
      NoCallNames(history, id);
      tokens := tokens[id := Token(user, family, expiresAt, None, None)];
      history := Recorded(history, LoginEvent(user, id, family, expiresAt));
      NotReplaced(id, family);
    }

    lemma NotReplaced(id: RowId, family: string)
      requires InFamily(Snapshot(), id, family) && Live(Snapshot(), id)
      requires forall c :: c in calls && calls[c].Linking? ==> calls[c].presented != id
      ensures Usable(Snapshot(), id, family)
    {
    }

    method RevokeFamilyTokens(family: string, now: int)
      modifies this`tokens
      ensures tokens == RevokeFamily(old(tokens), family, now)
    {
      tokens := map id | id in tokens ::
        if tokens[id].family == family && tokens[id].revokedAt.None?
        then tokens[id].(revokedAt := Some(now)) else tokens[id];
    }

    /** `rotateRefreshToken` up to its first write: the checks in their order. */
    method CheckRotation(call: RowId, presented: RowId, verified: bool, now: int, userActive: bool)
      returns (outcome: Outcome)
      requires Valid() && call !in calls
      modifies this`tokens, this`calls, this`history
      ensures Valid() && history == old(history) + [RotateCheckEvent(call, presented, verified, now, userActive)]
      ensures outcome == RotateOutcome(old(Snapshot()), presented, verified, now, userActive)
      ensures outcome == Rotated ==> tokens == old(tokens) && calls == old(calls)[call := Rotating(presented)]
      ensures outcome == ReuseDetected ==>
        && calls == old(calls) && presented in tokens && tokens.Keys == old(tokens).Keys
        && Dead(Snapshot(), tokens[presented].family)
        && forall id :: id in tokens && tokens[id].family != tokens[presented].family ==> tokens[id] == old(tokens)[id]
      ensures outcome == Invalid || outcome == Expired ==> Snapshot() == old(Snapshot())
    {
      ghost var e := RotateCheckEvent(call, presented, verified, now, userActive);
      if !verified || presented !in tokens {
        outcome := Invalid;
      } else if tokens[presented].revokedAt.Some? {
        KillLeavesDead(Snapshot(), e);
        RevokeFamilyTokens(tokens[presented].family, now);
        outcome := ReuseDetected;
      } else if tokens[presented].expiresAt < now {
        outcome := Expired;
      } else if !userActive {
        outcome := Invalid;
      } else {
        calls := calls[call := Rotating(presented)];
        outcome := Rotated;
      }
      history := Recorded(history, e);
    }

    /** `signRefreshToken` for a rotation: a live token in the family of the presented one. */
    method CreateSuccessor(call: RowId, id: RowId, expiresAt: int)
      requires Valid() && id !in tokens && call in calls && calls[call].Rotating?
      modifies this`tokens, this`calls, this`history
      ensures Valid() && history == old(history) + [RotateCreateEvent(call, id, expiresAt)]
      ensures old(calls)[call].presented in old(tokens)
      ensures var p := old(tokens)[old(calls)[call].presented];
        tokens == old(tokens)[id := Token(p.user, p.family, expiresAt, None, None)]
      ensures calls == old(calls)[call := Linking(old(calls)[call].presented, id)]
    {
      RunOfCreate(history, call, id, expiresAt);
      var existing := tokens[calls[call].presented];
      tokens := tokens[id := Token(existing.user, existing.family, expiresAt, None, None)];
      calls := calls[call := Linking(calls[call].presented, id)];
      history := history + [RotateCreateEvent(call, id, expiresAt)];
    }

    /** The update of the presented token, which nothing can undo. */
    method LinkSuccessor(call: RowId, now: int)
      requires Valid() && call in calls && calls[call].Linking?
      modifies this`tokens, this`calls, this`history
      ensures Valid() && history == old(history) + [RotateLinkEvent(call, now)]
      ensures calls == old(calls) - {call} && old(calls)[call].presented in old(tokens)
      ensures var p := old(calls)[call].presented;
        tokens == old(tokens)[p :=
          old(tokens)[p].(revokedAt := Some(now), replacedBy := Some(old(calls)[call].successor))]
    {
      RunOfLink(history, call, now);
      var presented := calls[call].presented;
      tokens := tokens[presented :=
        tokens[presented].(revokedAt := Some(now), replacedBy := Some(calls[call].successor))];
      calls := calls - {call};
      history := history + [RotateLinkEvent(call, now)];
    }

    /** `rotateRefreshToken` from its check on. */
    method Replace(call: RowId, id: RowId, expiresAt: int, now: int)
      requires Valid() && id !in tokens && call in calls && calls[call].Rotating?
      modifies this`tokens, this`calls, this`history
      ensures Valid() && old(history) <= history && calls == old(calls) - {call}
      ensures old(calls)[call].presented in old(tokens)
      ensures var p := old(calls)[call].presented;
        var existing := old(tokens)[p];
        tokens == old(tokens)[id := Token(existing.user, existing.family, expiresAt, None, None)]
                             [p := existing.(revokedAt := Some(now), replacedBy := Some(id))]
    {
      CreateSuccessor(call, id, expiresAt);
      LinkSuccessor(call, now);
    }

    /**
     `rotateRefreshToken`, where nothing interrupts it: the presented token passes its place
     in the family to the new one; a revoked one takes the whole family with it.
     */
    method RotateRefreshToken(call: RowId, presented: RowId, verified: bool, now: int, userActive: bool,
                              id: RowId, expiresAt: int)
      returns (r: Result<RowId, Outcome>)
      requires Valid() && id !in tokens && call !in calls
      modifies this`tokens, this`calls, this`history
      ensures Valid() && calls == old(calls) && old(history) <= history
      ensures var outcome := RotateOutcome(old(Snapshot()), presented, verified, now, userActive);
        r == if outcome == Rotated then Ok(id) else Err(outcome)
      ensures RotationAnswered(old(Snapshot()), presented, verified, now, userActive, r)
      ensures r.Ok? ==>
        && tokens.Keys == old(tokens).Keys + {id} && presented in old(tokens)
        && (forall other :: other in old(tokens) && other != presented ==> tokens[other] == old(tokens)[other])
        && tokens[presented].revokedAt == Some(now) && tokens[presented].replacedBy == Some(id)
        && tokens[id].expiresAt == expiresAt
        && tokens[id].user == tokens[presented].user && tokens[id].family == tokens[presented].family
        && Usable(Snapshot(), id, tokens[presented].family)
      ensures r.Ok? ==> var family := old(tokens)[presented].family;
        Usable(old(Snapshot()), presented, family) && AtMostOneUsable(old(Snapshot()), family) ==>
          forall other :: Usable(Snapshot(), other, family) ==> other == id
      ensures r == Err(ReuseDetected) ==> presented in tokens && Dead(Snapshot(), tokens[presented].family)
      ensures r.Err? && r.error != ReuseDetected ==> tokens == old(tokens)
    {
      NoCallNames(history, id);
      var outcome := CheckRotation(call, presented, verified, now, userActive);
      if outcome != Rotated {
        return Err(outcome);
      }
      Replace(call, id, expiresAt, now);
      assert calls == old(calls);
      NotReplaced(id, tokens[id].family);
      forall other | Usable(Snapshot(), other, tokens[presented].family) && other != id
        ensures Usable(old(Snapshot()), other, tokens[presented].family)
      {
        SameUsable(old(Snapshot()), Snapshot(), other, tokens[presented].family);
      }
      return Ok(id);
    }

    /** Logging out leaves no live token in the family, and touches no other. */
    method LogOut(presented: Option<RowId>, now: int)
      requires Valid()
      modifies this`tokens, this`history
      ensures Valid() && old(history) <= history && tokens.Keys == old(tokens).Keys
      ensures presented.Some? && presented.value in tokens ==>
        && Dead(Snapshot(), tokens[presented.value].family)
        && forall id :: id in tokens && tokens[id].family != tokens[presented.value].family ==>
             tokens[id] == old(tokens)[id]
      ensures presented.None? || presented.value !in tokens ==> tokens == old(tokens)
    {
      if presented.Some? && presented.value in tokens {
        ghost var e := LogoutEvent(presented.value, now);
        KillLeavesDead(Snapshot(), e);
        RevokeFamilyTokens(tokens[presented.value].family, now);
        history := Recorded(history, e);
      }
    }

    method ForgotPassword(user: UserId, id: RowId, expiresAt: int)
      requires Valid() && id !in resets
      modifies this`resets, this`history
      ensures Valid() && old(history) <= history
      ensures ResetAccepted(Snapshot(), id, expiresAt) && resets == old(resets)[id := resets[id]]
      ensures resets[id].user == user && resets[id].expiresAt == expiresAt && resets[id].usedAt.None?
    {
      resets := resets[id := Reset(user, expiresAt, None)];
      history := Recorded(history, ForgotEvent(user, id, expiresAt));
    }

    /** `resetPassword` up to the hashing of the new password. */
    method CheckReset(call: RowId, record: RowId, now: int) returns (ok: bool)
      requires Valid() && call !in calls
      modifies this`calls, this`history
      ensures Valid() && history == old(history) + [ResetCheckEvent(call, record, now)]
      ensures ok == ResetAccepted(Snapshot(), record, now)
      ensures calls == if ok then old(calls)[call := Resetting(record)] else old(calls)
    {
      ok := !(record !in resets || resets[record].usedAt.Some? || resets[record].expiresAt < now);
      if ok {
        calls := calls[call := Resetting(record)];
      }
      history := Recorded(history, ResetCheckEvent(call, record, now));
    }

    method RevokeUserTokens(user: UserId, now: int)
      modifies this`tokens
      ensures tokens == RevokeUser(old(tokens), user, now)
    {
      tokens := map id | id in tokens ::
        if tokens[id].user == user && tokens[id].revokedAt.None?
        then tokens[id].(revokedAt := Some(now)) else tokens[id];
    }

    /** The transaction of `resetPassword`: the record is used up, and none of the user's tokens is live. */
    method CommitReset(call: RowId, now: int)
      requires Valid() && call in calls && calls[call].Resetting?
      modifies this
      ensures Valid() && history == old(history) + [ResetCommitEvent(call, now)] && calls == old(calls) - {call}
      ensures var record := old(calls)[call].record;
        && record in old(resets) && Used(Snapshot(), record) && NoneLive(Snapshot(), old(resets)[record].user)
        && (forall r :: r in old(resets) && r != record ==> r in resets && resets[r] == old(resets)[r])
        && (forall id :: id in old(tokens) && old(tokens)[id].user != old(resets)[record].user ==>
              id in tokens && tokens[id] == old(tokens)[id])
    {
      CallNamesRows(history, call);
      CommitOutcome(Snapshot(), call, now);
      WriteReset(call, now);
      history := Recorded(history, ResetCommitEvent(call, now));
    }

    method WriteReset(call: RowId, now: int)
      requires CommitsReset(Snapshot(), call)
      modifies this`tokens, this`resets, this`calls
      ensures Snapshot() == ResetCommit(old(Snapshot()), call, now)
    {
      var record := calls[call].record;
      var user := resets[record].user;
      resets := resets[record := resets[record].(usedAt := Some(now))];
      RevokeUserTokens(user, now);
      calls := calls - {call};
    }

    /** `resetPassword`, where nothing interrupts it: the link is spent and the user's sessions are over. */
    method ResetPassword(call: RowId, record: RowId, now: int) returns (ok: bool)
      requires Valid() && call !in calls
      modifies this
      ensures Valid() && calls == old(calls)
      ensures ok == ResetAccepted(old(Snapshot()), record, now)
      ensures ok <==> record in old(resets) && old(resets)[record].usedAt.None? && now <= old(resets)[record].expiresAt
      ensures ok ==> record in old(resets) && Used(Snapshot(), record) && NoneLive(Snapshot(), old(resets)[record].user)
      ensures ok && !UserRotates(old(Snapshot()), old(resets)[record].user) ==>
        SessionsEnded(history, old(resets)[record].user)
      ensures ok && Waiting(old(Snapshot()), record) == {} ==> NeverAgain(history, record)
      ensures !ok ==> tokens == old(tokens) && resets == old(resets)
    {
      ok := CheckReset(call, record, now);
      if ok {
        ghost var before := history;
        ghost var user := resets[record].user;
        CommitReset(call, now);
        ResetEndsSessions(before, call, now);
        assert UserRotates(Run(before), user) ==> UserRotates(old(Snapshot()), user) by {
          assert forall c :: RotatesFor(Run(before), c, user) ==> RotatesFor(old(Snapshot()), c, user);
        }
        UsedLinkIsSpent(history, record);
      }
    }
  }
}
