/** Runs in which overlapping requests, or a process that dies, spoil what rotations and resets promise. */
module RefreshRaces {
  import opened Text
  import opened Entities
  import opened RefreshTokens
  import opened RefreshPaths
  import opened RefreshPathTheorems
  import opened RefreshGuarantees
  import opened ResetGuarantees

  // Parts of requests whose checks let them pass

  /** A rotation of a live token up to its first write. */
  lemma {:induction false} PastCheck(t: seq<Event>, call: RowId, p: RowId) returns (t': seq<Event>)
    requires call !in Run(t).calls && Live(Run(t), p)
    ensures t <= t' && Run(t') == Run(t).(calls := Run(t).calls[call := Rotating(p)])
  {
    var e := RotateCheckEvent(call, p, true, Run(t).tokens[p].expiresAt, true);
    RunMore(t, e);
    t' := t + [e];
  }

  lemma {:induction false} PastCreation(t: seq<Event>, call: RowId, p: RowId, n: RowId) returns (t': seq<Event>)
    requires call in Run(t).calls && Run(t).calls[call] == Rotating(p) && p in Run(t).tokens && n !in Run(t).tokens
    ensures t <= t' && Run(t').resets == Run(t).resets && Run(t').calls == Run(t).calls[call := Linking(p, n)]
    ensures var a := Run(t).tokens[p]; Run(t').tokens == Run(t).tokens[n := Token(a.user, a.family, 0, None, None)]
  {
    RunMore(t, RotateCreateEvent(call, n, 0));
    t' := t + [RotateCreateEvent(call, n, 0)];
  }

  lemma {:induction false} PastLink(t: seq<Event>, call: RowId, p: RowId, n: RowId) returns (t': seq<Event>)
    requires call in Run(t).calls && Run(t).calls[call] == Linking(p, n) && p in Run(t).tokens
    ensures t <= t' && Run(t').resets == Run(t).resets && Run(t').calls == Run(t).calls - {call}
    ensures Run(t').tokens == Run(t).tokens[p := Run(t).tokens[p].(revokedAt := Some(0), replacedBy := Some(n))]
  {
    RunMore(t, RotateLinkEvent(call, 0));
    t' := t + [RotateLinkEvent(call, 0)];
  }

  /** A rotation from its check on. */
  lemma {:induction false} Finish(t: seq<Event>, call: RowId, p: RowId, n: RowId) returns (t': seq<Event>)
    requires call in Run(t).calls && Run(t).calls[call] == Rotating(p) && p in Run(t).tokens && n !in Run(t).tokens
    ensures t <= t' && Run(t').resets == Run(t).resets && Run(t').calls == Run(t).calls - {call}
    ensures var a := Run(t).tokens[p];
      Run(t').tokens == Run(t).tokens[n := Token(a.user, a.family, 0, None, None)]
                                     [p := a.(revokedAt := Some(0), replacedBy := Some(n))]
  {
    t' := PastCreation(t, call, p, n);
    t' := PastLink(t', call, p, n);
  }

  /** A rotation as a whole. */
  lemma {:induction false} Rotate(t: seq<Event>, call: RowId, p: RowId, n: RowId) returns (t': seq<Event>)
    requires call !in Run(t).calls && Live(Run(t), p) && n !in Run(t).tokens
    ensures t <= t' && Run(t').resets == Run(t).resets && Run(t').calls == Run(t).calls
    ensures var a := Run(t).tokens[p];
      Run(t').tokens == Run(t).tokens[n := Token(a.user, a.family, 0, None, None)]
                                     [p := a.(revokedAt := Some(0), replacedBy := Some(n))]
  {
    t' := PastCheck(t, call, p);
    t' := Finish(t', call, p, n);
  }

  // Rotations

  /** In a family with two usable tokens neither has a successor, so it is no path. */
  lemma {:induction false} TwoUsable(trace: seq<Event>, a: RowId, b: RowId, family: string)
    requires a != b && Usable(Run(trace), a, family) && Usable(Run(trace), b, family)
    ensures !AlwaysOne(trace, family) && !Path(Run(trace), Issued(trace, family))
  {
    assert !AtMostOneUsable(Run(trace), family);
    MembersOfIssued(trace, family);
    var list := Issued(trace, family);
    assert a in list && b in list;
    var i, j :| 0 <= i < |list| && list[i] == a && 0 <= j < |list| && list[j] == b;
    assert !Spent(Run(trace), list[i]) && !Spent(Run(trace), list[j]);
  }

  /** A token that no call names is not being replaced. */
  lemma {:induction false} NewIsUsable(trace: seq<Event>, t: seq<Event>, n: RowId, family: string)
    requires n !in Run(trace).tokens && Run(t).calls == Run(trace).calls
    requires InFamily(Run(t), n, family) && Live(Run(t), n)
    ensures Usable(Run(t), n, family)
  {
    NoCallNames(trace, n);
  }

  /**
   Two overlapping presentations of one live token leave two usable tokens in its family, with
   nothing of theirs in flight: of any live token, at any time.
   */
  lemma {:induction false} OverlappingRotations(trace: seq<Event>, p: RowId, a: RowId, b: RowId, m: RowId, n: RowId)
    returns (t: seq<Event>)
    requires Live(Run(trace), p) && a != b && a !in Run(trace).calls && b !in Run(trace).calls
    requires m != n && m !in Run(trace).tokens && n !in Run(trace).tokens
    ensures trace <= t && Run(t).calls == Run(trace).calls
    ensures var family := Run(trace).tokens[p].family;
      && Usable(Run(t), m, family) && Usable(Run(t), n, family)
      && !AlwaysOne(t, family) && !Path(Run(t), Issued(t, family))
  {
    t := PastCheck(trace, a, p);
    t := Rotate(t, b, p, n);
    t := Finish(t, a, p, m);
    assert Run(t).calls == Run(trace).calls;
    NewIsUsable(trace, t, m, Run(trace).tokens[p].family);
    NewIsUsable(trace, t, n, Run(trace).tokens[p].family);
    TwoUsable(t, m, n, Run(trace).tokens[p].family);
  }

  /** A process that dies between the two writes of a rotation leaves both tokens usable. */
  lemma {:induction false} DyingRotation(trace: seq<Event>, p: RowId, a: RowId, n: RowId) returns (t: seq<Event>)
    requires p in Run(trace).tokens && Usable(Run(trace), p, Run(trace).tokens[p].family)
    requires a !in Run(trace).calls && n !in Run(trace).tokens
    ensures trace <= t && Run(t).calls == Run(trace).calls
    ensures var family := Run(trace).tokens[p].family;
      && Usable(Run(t), p, family) && Usable(Run(t), n, family)
      && !AlwaysOne(t, family) && !Path(Run(t), Issued(t, family))
  {
    var family := Run(trace).tokens[p].family;
    t := PastCheck(trace, a, p);
    t := PastCreation(t, a, p, n);
    RunMore(t, CallDiesEvent(a));
    t := t + [CallDiesEvent(a)];
    assert Run(t).calls == Run(trace).calls;
    NewIsUsable(trace, t, n, family);
    TwoUsable(t, p, n, family);
  }

  // Reuse detection and logout

  lemma {:induction false} Revived(dead: seq<Event>, t: seq<Event>, m: RowId, family: string)
    requires dead <= t && InFamily(Run(t), m, family) && Live(Run(t), m)
    ensures !DeadForGood(dead, family)
  {
    assert t == dead + t[|dead|..];
    assert !Dead(Run(dead + t[|dead|..]), family);
  }

  /** Presenting a revoked token, which leaves the calls alone and no live token in the family. */
  lemma {:induction false} Reuse(t: seq<Event>, call: RowId, p: RowId) returns (t': seq<Event>)
    requires call !in Run(t).calls && p in Run(t).tokens && !Live(Run(t), p)
    ensures t <= t' && Dead(Run(t'), Run(t).tokens[p].family)
    ensures Run(t').calls == Run(t).calls && Run(t').tokens.Keys == Run(t).tokens.Keys
    ensures forall id :: id in Run(t).tokens ==> Run(t').tokens[id].family == Run(t).tokens[id].family
  {
    var e := RotateCheckEvent(call, p, true, 0, true);
    RunMore(t, e);
    KillLeavesDead(Run(t), e);
    StepKeeps(Run(t), e);
    t' := t + [e];
  }

  /** A live token, which a rotation of it makes revoked and another rotation then waits to replace the new one. */
  lemma {:induction false} RotatedAndWaiting(trace: seq<Event>, p: RowId, a: RowId, n: RowId)
    returns (t: seq<Event>)
    requires Live(Run(trace), p) && a !in Run(trace).calls && n !in Run(trace).tokens
    ensures trace <= t && Run(t).calls == Run(trace).calls[a := Rotating(n)]
    ensures Run(t).tokens.Keys == Run(trace).tokens.Keys + {n} && !Live(Run(t), p)
    ensures Run(t).tokens[n].family == Run(t).tokens[p].family == Run(trace).tokens[p].family
  {
    t := Rotate(trace, a, p, n);
    t := PastCheck(t, a, n);
  }

  /**
   A rotation in flight survives reuse detection: a revoked token is presented again, which
   leaves the family without a live token, and afterwards the family has one.
   */
  lemma {:induction false} ReuseOvertaken(trace: seq<Event>, p: RowId, a: RowId, b: RowId, m: RowId, n: RowId)
    returns (dead: seq<Event>, t: seq<Event>)
    requires Live(Run(trace), p) && a != b && a !in Run(trace).calls && b !in Run(trace).calls
    requires m != n && m !in Run(trace).tokens && n !in Run(trace).tokens
    ensures var family := Run(trace).tokens[p].family;
      && trace <= dead <= t && Dead(Run(dead), family) && InFamily(Run(t), m, family) && Live(Run(t), m)
      && !DeadForGood(dead, family)
  {
    dead := RotatedAndWaiting(trace, p, a, n);
    dead := Reuse(dead, b, p);
    t := Finish(dead, a, n, m);
    Revived(dead, t, m, Run(trace).tokens[p].family);
  }

  // Resets

  lemma {:induction false} PastForgot(t: seq<Event>, user: UserId, r: RowId) returns (t': seq<Event>)
    requires r !in Run(t).resets
    ensures t <= t' && Run(t') == Run(t).(resets := Run(t).resets[r := Reset(user, 0, None)])
  {
    RunMore(t, ForgotEvent(user, r, 0));
    t' := t + [ForgotEvent(user, r, 0)];
  }

  lemma {:induction false} PastResetCheck(t: seq<Event>, call: RowId, r: RowId) returns (t': seq<Event>)
    requires call !in Run(t).calls && ResetAccepted(Run(t), r, 0)
    ensures t <= t' && Run(t') == Run(t).(calls := Run(t).calls[call := Resetting(r)])
  {
    RunMore(t, ResetCheckEvent(call, r, 0));
    t' := t + [ResetCheckEvent(call, r, 0)];
  }

  /** A forgotten password, and a reset up to its transaction. */
  lemma {:induction false} AboutToReset(trace: seq<Event>, user: UserId, call: RowId, r: RowId)
    returns (t: seq<Event>)
    requires call !in Run(trace).calls && r !in Run(trace).resets
    ensures trace <= t && Run(t).tokens == Run(trace).tokens && CommitsReset(Run(t), call)
    ensures Run(t).resets == Run(trace).resets[r := Reset(user, 0, None)]
    ensures Run(t).calls == Run(trace).calls[call := Resetting(r)]
  {
    t := PastForgot(trace, user, r);
    t := PastResetCheck(t, call, r);
  }

  /**
   A rotation in flight survives a password reset: the reset leaves the user no live token, and
   afterwards there is one in a family from before.
   */
  lemma {:induction false} ResetOvertaken(trace: seq<Event>, p: RowId, a: RowId, b: RowId, m: RowId, r: RowId)
    returns (before: seq<Event>, t: seq<Event>)
    requires Live(Run(trace), p) && a != b && a !in Run(trace).calls && b !in Run(trace).calls
    requires m !in Run(trace).tokens && r !in Run(trace).resets
    ensures trace <= before && CommitsReset(Run(before), b) && before + [ResetCommitEvent(b, 0)] <= t
    ensures Run(before).resets[Run(before).calls[b].record].user == Run(trace).tokens[p].user
    ensures NoneLive(Run(before + [ResetCommitEvent(b, 0)]), Run(trace).tokens[p].user)
    ensures InFamily(Run(t), m, Run(trace).tokens[p].family) && Live(Run(t), m)
    ensures !SessionsEnded(before + [ResetCommitEvent(b, 0)], Run(trace).tokens[p].user)
  {
    var user := Run(trace).tokens[p].user;
    before := PastCheck(trace, a, p);
    before := AboutToReset(before, user, b, r);
    assert RotatesFor(Run(before), a, user);
    ResetEndsSessions(before, b, 0);
    t := CommitAndFinish(before, a, b, p, m);
  }

  lemma {:induction false} CommitAndFinish(before: seq<Event>, a: RowId, b: RowId, p: RowId, m: RowId)
    returns (t: seq<Event>)
    requires CommitsReset(Run(before), b) && a in Run(before).calls && Run(before).calls[a] == Rotating(p)
    requires p in Run(before).tokens && m !in Run(before).tokens
    ensures before + [ResetCommitEvent(b, 0)] <= t
    ensures NoneLive(Run(before + [ResetCommitEvent(b, 0)]), Run(before).resets[Run(before).calls[b].record].user)
    ensures InFamily(Run(t), m, Run(before).tokens[p].family) && Live(Run(t), m)
  {
    var e := ResetCommitEvent(b, 0);
    RunMore(before, e);
    CommitRevokes(Run(before), b, 0);
    StepKeeps(Run(before), e);
    t := Finish(before + [e], a, p, m);
  }

  /** Two overlapping resets with one link are both accepted. */
  lemma {:induction false} LinkUsedTwice(trace: seq<Event>, user: UserId, r: RowId, a: RowId, b: RowId)
    returns (t: seq<Event>)
    requires r !in Run(trace).resets && a != b && a !in Run(trace).calls && b !in Run(trace).calls
    ensures trace <= t && Commits(t, r) == 2
  {
    var both := AboutToReset(trace, user, a, r);
    both := PastResetCheck(both, b, r);
    UsedMeansCommitted(both, r);
    var one, two := ResetCommitEvent(a, 0), ResetCommitEvent(b, 0);
    CommitsMore(both, one, r);
    RunMore(both, one);
    CommitsMore(both + [one], two, r);
    t := both + [one] + [two];
  }
}
