/**
 What reuse detection, logout and resets guarantee about refresh tokens, and exactly when: a
 rotation that has passed its check carries on whatever happens to its family meanwhile.
 */
module RefreshGuarantees {
  import opened Text
  import opened Entities
  import opened RefreshTokens

  /** The family has been used, and none of its tokens is live. */
  ghost predicate Dead(s: State, family: string) {
    FamilyUsed(s, family) && forall id :: InFamily(s, id, family) ==> !Live(s, id)
  }

  predicate RotatesIn(s: State, call: RowId, family: string) {
    call in s.calls && s.calls[call].Rotating? && InFamily(s, s.calls[call].presented, family)
  }

  /** A rotation of the family has passed its check and has not created its token yet. */
  ghost predicate RotationInFlight(s: State, family: string) {
    exists call :: RotatesIn(s, call, family)
  }

  // Dead families

  lemma {:induction false} UsedStaysUsed(s: State, e: Event, family: string)
    requires FamilyUsed(s, family)
    ensures FamilyUsed(Step(s, e), family)
  {
    var id :| id in s.tokens && InFamily(s, id, family);
    StepKeeps(s, e);
    assert InFamily(Step(s, e), id, family);
  }

  lemma {:induction false} NoNewRotation(s: State, e: Event, family: string)
    requires Dead(s, family) && CallsFit(s) && !RotationInFlight(s, family)
    ensures !RotationInFlight(Step(s, e), family)
  {
    var s' := Step(s, e);
    StepKeeps(s, e);
    if call :| RotatesIn(s', call, family) {
      if call in s.calls && s.calls[call] == s'.calls[call] {
        assert s.calls[call].presented in s.tokens;
        assert RotatesIn(s, call, family);
      } else {
        assert e.RotateCheckEvent? && e.call == call && Live(s, e.presented);
        assert InFamily(s, e.presented, family);
      }
    }
  }

  lemma {:induction false} StepKeepsDead(s: State, e: Event, family: string)
    requires Dead(s, family) && !Creates(s, e, family)
    ensures Dead(Step(s, e), family)
  {
    var s' := Step(s, e);
    StepKeeps(s, e);
    UsedStaysUsed(s, e, family);
    forall id | InFamily(s', id, family)
      ensures !Live(s', id)
    {
      if id in s.tokens {
        assert InFamily(s, id, family);
      } else {
        NewTokens(s, e, id);
      }
    }
  }

  lemma {:induction false} DeadWithoutRotations(trace: seq<Event>, more: seq<Event>, family: string)
    requires Dead(Run(trace), family) && !RotationInFlight(Run(trace), family)
    ensures Dead(Run(trace + more), family) && !RotationInFlight(Run(trace + more), family)
    decreases |more|
  {
    if more == [] {
      assert trace + more == trace;
    } else {
      var fewer, e := more[..|more| - 1], more[|more| - 1];
      assert trace + more == (trace + fewer) + [e];
      DeadWithoutRotations(trace, fewer, family);
      var s := Run(trace + fewer);
      RunMore(trace + fewer, e);
      RunFits(trace + fewer);
      assert !Creates(s, e, family) by {
        assert Creates(s, e, family) ==> RotatesIn(s, e.call, family);
      }
      StepKeepsDead(s, e, family);
      NoNewRotation(s, e, family);
    }
  }

  /** A rotation in flight makes a live token in its family. */
  lemma {:induction false} RotationRevives(trace: seq<Event>, call: RowId, family: string)
    returns (e: Event)
    requires RotatesIn(Run(trace), call, family)
    ensures Creates(Run(trace), e, family) && e.id !in Run(trace).tokens
    ensures InFamily(Run(trace + [e]), e.id, family) && Live(Run(trace + [e]), e.id)
  {
    var id := FreshText(Run(trace).tokens.Keys);
    e := RotateCreateEvent(call, id, 0);
    RunMore(trace, e);
  }

  ghost predicate DeadForGood(trace: seq<Event>, family: string) {
    forall more :: Dead(Run(trace + more), family)
  }

  /** A family without a live token never has one again, exactly if no rotation of it is past its check. */
  lemma {:induction false} DeadForGoodExactly(trace: seq<Event>, family: string)
    requires Dead(Run(trace), family)
    ensures DeadForGood(trace, family) <==> !RotationInFlight(Run(trace), family)
  {
    if call :| RotatesIn(Run(trace), call, family) {
      var e := RotationRevives(trace, call, family);
      assert !Dead(Run(trace + [e]), family);
    } else {
      forall more
        ensures Dead(Run(trace + more), family)
      {
        DeadWithoutRotations(trace, more, family);
      }
    }
  }

  // Reuse and logout

  /** A presentation of a revoked token, or a logout: what revokes a whole family. */
  predicate Kills(s: State, e: Event) {
    || (e.LogoutEvent? && e.presented in s.tokens)
    || (e.RotateCheckEvent? && e.call !in s.calls
        && RotateOutcome(s, e.presented, e.verified, e.now, e.userActive) == ReuseDetected)
  }

  lemma {:induction false} KillLeavesDead(s: State, e: Event)
    requires Kills(s, e)
    ensures Dead(Step(s, e), s.tokens[e.presented].family)
    ensures forall id :: id in s.tokens && s.tokens[id].family != s.tokens[e.presented].family ==>
      id in Step(s, e).tokens && Step(s, e).tokens[id] == s.tokens[id]
    ensures Step(s, e).calls == s.calls && Step(s, e).tokens.Keys == s.tokens.Keys
  {
    var s' := Step(s, e);
    assert s'.tokens == RevokeFamily(s.tokens, s.tokens[e.presented].family, e.now);
    assert InFamily(s', e.presented, s.tokens[e.presented].family);
  }

  /**
   Presenting a revoked token, and logging out, leave the family without a live token: for
   good, exactly if no rotation of the family was past its check just then.
   */
  lemma {:induction false} ReuseKillsFamily(trace: seq<Event>, e: Event)
    requires Kills(Run(trace), e)
    ensures var family := Run(trace).tokens[e.presented].family;
      && Dead(Run(trace + [e]), family)
      && (DeadForGood(trace + [e], family) <==> !RotationInFlight(Run(trace), family))
  {
    var s, family := Run(trace), Run(trace).tokens[e.presented].family;
    RunMore(trace, e);
    KillLeavesDead(s, e);
    StepKeeps(s, e);
    DeadForGoodExactly(trace + [e], family);
    RunFits(trace);
    forall call
      ensures RotatesIn(Step(s, e), call, family) <==> RotatesIn(s, call, family)
    {
    }
  }
}

/** The same of password resets, which revoke all families of a user. */
module ResetGuarantees {
  import opened Text
  import opened Entities
  import opened RefreshTokens
  import opened RefreshGuarantees

  /** A rotation of one of the user's tokens has passed its check and has not created its token yet. */
  ghost predicate UserRotates(s: State, user: UserId) {
    exists call :: RotatesFor(s, call, user)
  }

  predicate RotatesFor(s: State, call: RowId, user: UserId) {
    call in s.calls && s.calls[call].Rotating? && s.calls[call].presented in s.tokens
    && s.tokens[s.calls[call].presented].user == user
  }

  /** Every live token of the user is of a family that `trace` has not used. */
  ghost predicate OnlyNewFamilies(trace: seq<Event>, later: seq<Event>, user: UserId) {
    forall id :: Live(Run(later), id) && Run(later).tokens[id].user == user ==>
      !FamilyUsed(Run(trace), Run(later).tokens[id].family)
  }

  ghost predicate SessionsEnded(trace: seq<Event>, user: UserId) {
    forall more :: OnlyNewFamilies(trace, trace + more, user)
  }

  ghost predicate NoneLive(s: State, user: UserId) {
    forall id :: id in s.tokens && s.tokens[id].user == user ==> !Live(s, id)
  }

  lemma {:induction false} CommitRevokes(s: State, call: RowId, now: int)
    requires CommitsReset(s, call)
    ensures NoneLive(ResetCommit(s, call, now), s.resets[s.calls[call].record].user)
  {
  }

  /** A reset uses up its record and leaves other records and other users' tokens as they are. */
  lemma {:induction false} CommitOutcome(s: State, call: RowId, now: int)
    requires CommitsReset(s, call)
    ensures var s', record := ResetCommit(s, call, now), s.calls[call].record;
      && Used(s', record) && NoneLive(s', s.resets[record].user) && s'.calls == s.calls - {call}
      && (forall r :: r in s.resets && r != record ==> r in s'.resets && s'.resets[r] == s.resets[r])
      && (forall id :: id in s.tokens && s.tokens[id].user != s.resets[record].user ==>
            id in s'.tokens && s'.tokens[id] == s.tokens[id])
  {
    CommitRevokes(s, call, now);
  }

  /** All of a user's families are dead once none of the user's tokens is live. */
  lemma {:induction false} FamiliesDead(s: State, id: RowId, user: UserId)
    requires OneUser(s) && NoneLive(s, user) && id in s.tokens && s.tokens[id].user == user
    ensures Dead(s, s.tokens[id].family)
  {
    assert InFamily(s, id, s.tokens[id].family);
  }

  lemma {:induction false} EndedWithoutRotations(trace: seq<Event>, more: seq<Event>, user: UserId)
    requires NoneLive(Run(trace), user) && !UserRotates(Run(trace), user)
    ensures OnlyNewFamilies(trace, trace + more, user)
  {
    var s, last := Run(trace), Run(trace + more);
    RunFits(trace);
    RunFits(trace + more);
    forall id | Live(last, id) && last.tokens[id].user == user
      ensures !FamilyUsed(s, last.tokens[id].family)
    {
      var family := last.tokens[id].family;
      if FamilyUsed(s, family) {
        var first :| first in s.tokens && InFamily(s, first, family);
        TokensKept(trace, more, first);
        FamiliesDead(s, first, user);
        assert !RotationInFlight(s, family) by {
          if call :| RotatesIn(s, call, family) {
            assert RotatesFor(s, call, user);
          }
        }
        DeadWithoutRotations(trace, more, family);
        assert InFamily(last, id, family);
      }
    }
  }

  lemma {:induction false} RotationSurvives(trace: seq<Event>, call: RowId, user: UserId)
    requires RotatesFor(Run(trace), call, user)
    ensures !SessionsEnded(trace, user)
  {
    var s := Run(trace);
    var p := s.calls[call].presented;
    assert InFamily(s, p, s.tokens[p].family);
    var e := RotationRevives(trace, call, s.tokens[p].family);
    RunMore(trace, e);
    NewTokens(s, e, e.id);
    RunFits(trace + [e]);
    StepKeeps(s, e);
    assert !OnlyNewFamilies(trace, trace + [e], user);
  }

  /**
   After a reset every live token of the user is of a family opened since, at all times,
   exactly if no rotation of the user's tokens was past its check when the reset was committed.
   */
  lemma {:induction false} ResetEndsSessions(trace: seq<Event>, call: RowId, now: int)
    requires CommitsReset(Run(trace), call)
    ensures var user := Run(trace).resets[Run(trace).calls[call].record].user;
      SessionsEnded(trace + [ResetCommitEvent(call, now)], user) <==> !UserRotates(Run(trace), user)
  {
    var s, user := Run(trace), Run(trace).resets[Run(trace).calls[call].record].user;
    var e := ResetCommitEvent(call, now);
    var s' := Run(trace + [e]);
    RunMore(trace, e);
    CommitRevokes(s, call, now);
    StepKeeps(s, e);
    RunFits(trace);
    forall c
      ensures RotatesFor(s', c, user) <==> RotatesFor(s, c, user)
    {
    }
    if c :| RotatesFor(s', c, user) {
      assert RotatesFor(s, c, user);
      RotationSurvives(trace + [e], c, user);
    } else {
      assert !UserRotates(s, user) by {
        assert forall c :: RotatesFor(s, c, user) ==> RotatesFor(s', c, user);
      }
      forall more
        ensures OnlyNewFamilies(trace + [e], (trace + [e]) + more, user)
      {
        EndedWithoutRotations(trace + [e], more, user);
      }
    }
  }

  /** A token that the user had at a reset and presents afterwards is refused, ever after. */
  lemma {:induction false} OldTokensAreRefused(trace: seq<Event>, call: RowId, now: int, more: seq<Event>,
                                               id: RowId, verified: bool, later: int, userActive: bool)
    requires CommitsReset(Run(trace), call)
    requires id in Run(trace).tokens
    requires Run(trace).tokens[id].user == Run(trace).resets[Run(trace).calls[call].record].user
    ensures RotateOutcome(Run(trace + [ResetCommitEvent(call, now)] + more), id, verified, later, userActive)
            == if verified then ReuseDetected else Invalid
  {
    var e := ResetCommitEvent(call, now);
    RunMore(trace, e);
    StepKeeps(Run(trace), e);
    CommitRevokes(Run(trace), call, now);
    TokensKept(trace + [e], more, id);
  }

  // How often a link works

  predicate CommitsRecord(s: State, e: Event, record: RowId) {
    e.ResetCommitEvent? && CommitsReset(s, e.call) && s.calls[e.call].record == record
  }

  function Commits(trace: seq<Event>, record: RowId): nat {
    if trace == [] then 0
    else
      var before, e := trace[..|trace| - 1], trace[|trace| - 1];
      Commits(before, record) + One(CommitsRecord(Run(before), e, record))
  }

  /** The calls that have passed the check of the record. */
  function Waiting(s: State, record: RowId): set<RowId> {
    set c | c in s.calls && s.calls[c] == Resetting(record)
  }

  predicate Used(s: State, record: RowId) {
    record in s.resets && s.resets[record].usedAt.Some?
  }

  lemma {:induction false} CommitsMore(trace: seq<Event>, e: Event, record: RowId)
    ensures Commits(trace + [e], record) == Commits(trace, record) + One(CommitsRecord(Run(trace), e, record))
  {
    assert (trace + [e])[..|trace|] == trace;
  }

  lemma {:induction false} StepUses(s: State, e: Event, record: RowId)
    ensures Used(Step(s, e), record) <==> Used(s, record) || CommitsRecord(s, e, record)
  {
  }

  /** A record is marked used exactly if it was accepted. */
  lemma {:induction false} UsedMeansCommitted(trace: seq<Event>, record: RowId)
    ensures Used(Run(trace), record) <==> Commits(trace, record) > 0
  {
    if trace != [] {
      UsedMeansCommitted(trace[..|trace| - 1], record);
      StepUses(Run(trace[..|trace| - 1]), trace[|trace| - 1], record);
    }
  }

  lemma {:induction false} StepShrinksWaiting(s: State, e: Event, record: RowId)
    requires Used(s, record)
    ensures Waiting(Step(s, e), record) <= Waiting(s, record)
    ensures CommitsRecord(s, e, record) ==>
      e.call in Waiting(s, record) && Waiting(Step(s, e), record) == Waiting(s, record) - {e.call}
  {
  }

  /** Once used, a record is accepted again only by calls that were waiting then, each once at most. */
  lemma {:induction false} OnlyWaitersCommit(trace: seq<Event>, more: seq<Event>, record: RowId)
    requires Used(Run(trace), record)
    ensures Used(Run(trace + more), record)
    ensures Waiting(Run(trace + more), record) <= Waiting(Run(trace), record)
    ensures Commits(trace + more, record) + |Waiting(Run(trace + more), record)|
         <= Commits(trace, record) + |Waiting(Run(trace), record)|
    decreases |more|
  {
    if more == [] {
      assert trace + more == trace;
    } else {
      var fewer, e := more[..|more| - 1], more[|more| - 1];
      assert trace + more == (trace + fewer) + [e];
      OnlyWaitersCommit(trace, fewer, record);
      var s := Run(trace + fewer);
      RunMore(trace + fewer, e);
      CommitsMore(trace + fewer, e, record);
      StepUses(s, e, record);
      StepShrinksWaiting(s, e, record);
      SubsetSize(Waiting(Step(s, e), record), Waiting(s, record));
    }
  }

  lemma {:induction false} SubsetSize<T>(a: set<T>, b: set<T>)
    requires a <= b
    ensures |a| <= |b|
  {
    assert b == a + (b - a);
  }

  ghost predicate NeverAgain(trace: seq<Event>, record: RowId) {
    forall more :: Commits(trace + more, record) == Commits(trace, record)
  }

  lemma {:induction false} CommitsGrow(trace: seq<Event>, more: seq<Event>, record: RowId)
    ensures Commits(trace + more, record) >= Commits(trace, record)
    decreases |more|
  {
    if more == [] {
      assert trace + more == trace;
    } else {
      var fewer := more[..|more| - 1];
      assert trace + more == (trace + fewer) + [more[|more| - 1]];
      CommitsGrow(trace, fewer, record);
      CommitsMore(trace + fewer, more[|more| - 1], record);
    }
  }

  /** A link that has been used works never again, exactly if no other call is past its check of it. */
  lemma {:induction false} UsedLinkIsSpent(trace: seq<Event>, record: RowId)
    requires Used(Run(trace), record)
    ensures NeverAgain(trace, record) <==> Waiting(Run(trace), record) == {}
  {
    if Waiting(Run(trace), record) == {} {
      forall more
        ensures Commits(trace + more, record) == Commits(trace, record)
      {
        OnlyWaitersCommit(trace, more, record);
        CommitsGrow(trace, more, record);
      }
    } else {
      var c :| c in Waiting(Run(trace), record);
      CommitsMore(trace, ResetCommitEvent(c, 0), record);
      assert Commits(trace + [ResetCommitEvent(c, 0)], record) > Commits(trace, record);
    }
  }
}
