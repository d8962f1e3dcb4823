/** What a family of refresh tokens is promised if its rotations do not overlap, whatever else does. */
module RefreshSchedules {
  import opened Entities
  import opened RefreshTokens
  import opened RefreshPaths
  import opened RefreshPathTheorems

  /** The call is a rotation of the family, past its check. */
  predicate Rotates(s: State, call: RowId, family: string) {
    call in s.calls && !s.calls[call].Resetting? && InFamily(s, s.calls[call].presented, family)
  }

  ghost predicate NoRotation(s: State, family: string) {
    forall call :: !Rotates(s, call, family)
  }

  predicate Begins(s: State, e: Event, family: string) {
    && e.RotateCheckEvent? && e.call !in s.calls && InFamily(s, e.presented, family)
    && RotateOutcome(s, e.presented, e.verified, e.now, e.userActive) == Rotated
  }

  /** No rotation of the family begins while another is past its check, and none dies between its two writes. */
  ghost predicate RotationsApart(trace: seq<Event>, family: string) {
    trace != [] ==>
      && RotationsApart(trace[..|trace| - 1], family)
      && Apart(Run(trace[..|trace| - 1]), trace[|trace| - 1], family)
  }

  ghost predicate Apart(s: State, e: Event, family: string) {
    && (Begins(s, e, family) ==> NoRotation(s, family))
    && !(e.CallDiesEvent? && Rotates(s, e.call, family) && s.calls[e.call].Linking?)
  }

  // What such schedules keep

  ghost predicate OneRotation(s: State, family: string) {
    forall a, b :: Rotates(s, a, family) && Rotates(s, b, family) ==> a == b
  }

  ghost predicate NoneLiveIn(s: State, family: string) {
    forall id :: InFamily(s, id, family) ==> !Live(s, id)
  }

  /** What a rotation has checked has no successor, and is live unless the whole family is revoked. */
  ghost predicate CheckedHolds(s: State, family: string) {
    forall call :: Rotates(s, call, family) && s.calls[call].Rotating? ==>
      && !HasSuccessor(s, s.calls[call].presented)
      && (Live(s, s.calls[call].presented) || NoneLiveIn(s, family))
  }

  lemma {:induction false} RotationComesFrom(s: State, e: Event, call: RowId, family: string)
    requires CallsFit(s) && Rotates(Step(s, e), call, family)
    ensures Rotates(s, call, family) || (Begins(s, e, family) && call == e.call)
    ensures Step(s, e).calls[call].Rotating? && Rotates(s, call, family) ==> s.calls[call] == Step(s, e).calls[call]
  {
    StepKeeps(s, e);
  }

  lemma {:induction false} StepKeepsOneRotation(s: State, e: Event, family: string)
    requires CallsFit(s) && OneRotation(s, family) && Apart(s, e, family)
    ensures OneRotation(Step(s, e), family)
  {
    forall a, b | Rotates(Step(s, e), a, family) && Rotates(Step(s, e), b, family)
      ensures a == b
    {
      RotationComesFrom(s, e, a, family);
      RotationComesFrom(s, e, b, family);
    }
  }

  /** A live token is revoked with its whole family, or by the call that replaces it. */
  lemma {:induction false} HowRevoked(s: State, e: Event, id: RowId, family: string)
    requires OneUser(s) && InFamily(s, id, family) && Live(s, id) && !Live(Step(s, e), id)
    ensures NoneLiveIn(Step(s, e), family) || (e.RotateLinkEvent? && e.call in s.calls && Replaces(s.calls[e.call], id))
  {
  }

  lemma {:induction false} StillNoneLive(s: State, e: Event, family: string)
    requires NoneLiveIn(s, family) && !Creates(s, e, family) && FamilyUsed(s, family)
    ensures NoneLiveIn(Step(s, e), family)
  {
    StepKeeps(s, e);
    forall id | InFamily(Step(s, e), id, family)
      ensures !Live(Step(s, e), id)
    {
      if id !in s.tokens {
        NewTokens(s, e, id);
      } else {
        assert InFamily(s, id, family);
      }
    }
  }

  lemma {:induction false} CheckStillHolds(s: State, e: Event, call: RowId, family: string)
    requires Linked(s) && OneUser(s) && OneRotation(s, family) && CheckedHolds(s, family)
    requires Rotates(s, call, family) && s.calls[call].Rotating?
    requires call in Step(s, e).calls && Step(s, e).calls[call] == s.calls[call]
    ensures Live(Step(s, e), s.calls[call].presented) || NoneLiveIn(Step(s, e), family)
    ensures !HasSuccessor(Step(s, e), s.calls[call].presented)
  {
    var p := s.calls[call].presented;
    assert !Creates(s, e, family) by {
      assert Creates(s, e, family) ==> Rotates(s, e.call, family);
    }
    if Live(s, p) && !Live(Step(s, e), p) {
      HowRevoked(s, e, p, family);
      assert e.RotateLinkEvent? && e.call in s.calls && Replaces(s.calls[e.call], p) ==> Rotates(s, e.call, family);
    } else if !Live(s, p) {
      assert InFamily(s, p, family);
      StillNoneLive(s, e, family);
    }
    if n :| Succeeds(Step(s, e), p, n) {
      SucceedsOnlyByCreation(s, e, p, n);
    }
  }

  lemma {:induction false} StepKeepsChecked(s: State, e: Event, family: string)
    requires Linked(s) && OneUser(s) && OneRotation(s, family) && CheckedHolds(s, family) && ReplacedAreRevoked(s)
    requires Apart(s, e, family)
    ensures CheckedHolds(Step(s, e), family)
  {
    var s' := Step(s, e);
    forall call | Rotates(s', call, family) && s'.calls[call].Rotating?
      ensures !HasSuccessor(s', s'.calls[call].presented)
      ensures Live(s', s'.calls[call].presented) || NoneLiveIn(s', family)
    {
      RotationComesFrom(s, e, call, family);
      if Rotates(s, call, family) {
        CheckStillHolds(s, e, call, family);
      } else {
        BegunIsUnreplaced(s, e, family);
      }
    }
  }

  lemma {:induction false} BegunIsUnreplaced(s: State, e: Event, family: string)
    requires Begins(s, e, family) && NoRotation(s, family) && ReplacedAreRevoked(s) && CallsFit(s)
    ensures Live(Step(s, e), e.presented) && !HasSuccessor(Step(s, e), e.presented)
  {
    if n :| Succeeds(Step(s, e), e.presented, n) {
      SucceedsOnlyByCreation(s, e, e.presented, n);
      if call :| Links(s, call, e.presented, n) {
        assert Rotates(s, call, family);
      }
    }
  }

  lemma {:induction false} RunKeepsChecked(trace: seq<Event>, family: string)
    requires RotationsApart(trace, family)
    ensures OneRotation(Run(trace), family) && CheckedHolds(Run(trace), family)
  {
    if trace != [] {
      var before, e := trace[..|trace| - 1], trace[|trace| - 1];
      RunKeepsChecked(before, family);
      RunIsLinked(before);
      RunFits(before);
      ReplacedIsRevoked(before);
      StepKeepsOneRotation(Run(before), e, family);
      StepKeepsChecked(Run(before), e, family);
    }
  }

  // What follows

  lemma {:induction false} NothingOvertaken(s: State, e: Event, family: string)
    requires OneRotation(s, family) && CheckedHolds(s, family) && Apart(s, e, family) && CallsFit(s)
    ensures Overtaken(s, e, family) ==> NoneUsable(s, family)
    ensures !Disturbs(s, e, family)
  {
    if Creates(s, e, family) {
      var p := s.calls[e.call].presented;
      assert Rotates(s, e.call, family);
      if Live(s, p) && BeingReplaced(s, p) {
        var call :| call in s.calls && Replaces(s.calls[call], p);
        assert Rotates(s, call, family);
      }
    } else if e.CallDiesEvent? && e.call in s.calls && s.calls[e.call].Linking? {
      assert InFamily(s, s.calls[e.call].presented, family) ==> Rotates(s, e.call, family);
    }
  }

  lemma {:induction false} ApartIsUndisturbed(trace: seq<Event>, family: string)
    requires RotationsApart(trace, family)
    ensures Undisturbed(trace, family) && NeverDoubled(trace, family)
  {
    if trace != [] {
      var before := trace[..|trace| - 1];
      ApartIsUndisturbed(before, family);
      RunKeepsChecked(before, family);
      RunFits(before);
      NothingOvertaken(Run(before), trace[|trace| - 1], family);
    }
  }

  ghost predicate AtMostOneUnrevoked(s: State, family: string) {
    forall a, b :: InFamily(s, a, family) && InFamily(s, b, family) && Live(s, a) && Live(s, b) ==> a == b
  }

  lemma {:induction false} UnrevokedAtRest(s: State, family: string)
    requires NoRotation(s, family) && AtMostOneUsable(s, family) && CallsFit(s)
    ensures AtMostOneUnrevoked(s, family)
  {
    forall a | InFamily(s, a, family) && Live(s, a)
      ensures Usable(s, a, family)
    {
      if call :| call in s.calls && Replaces(s.calls[call], a) {
        assert Rotates(s, call, family);
      }
    }
  }

  /**
   If no two rotations of a family overlap and none dies between its two writes, whatever logouts,
   resets and presentations of revoked tokens come between: the family is a path, one token at
   most is usable at every moment, and between rotations one at most is unrevoked.
   */
  lemma {:induction false} ApartKeepsOnePath(trace: seq<Event>, family: string)
    requires RotationsApart(trace, family)
    ensures Path(Run(trace), Issued(trace, family)) && AlwaysOne(trace, family)
    ensures NoRotation(Run(trace), family) ==> AtMostOneUnrevoked(Run(trace), family)
  {
    ApartIsUndisturbed(trace, family);
    FamilyIsPath(trace, family);
    AtMostOneLive(trace, family);
    if NoRotation(Run(trace), family) {
      RunFits(trace);
      UnrevokedAtRest(Run(trace), family);
    }
  }
}
