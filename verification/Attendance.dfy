/**
 Who has submitted today and who has not: the counts of the digest, the lists of the
 today board and the addressees of the reminder, all from one snapshot.
 */
module Attendance {
  import opened Text
  import opened Entities

  // Sequences and the sets of their elements

  function Elements<T>(s: seq<T>): set<T> {
    set x | x in s
  }

  lemma {:induction false} ElementsAppend<T>(s: seq<T>, x: T)
    ensures Elements(s + [x]) == Elements(s) + {x}
  {
    assert x == (s + [x])[|s|];
  }

  function Inside<T(==)>(s: seq<T>, x: set<T>): (r: seq<T>)
    ensures Elements(r) == Elements(s) * x
  {
    if s == [] then []
    else
      var rest := Inside(s[..|s| - 1], x);
      assert s == s[..|s| - 1] + [s[|s| - 1]];
      ElementsAppend(s[..|s| - 1], s[|s| - 1]);
      ElementsAppend(rest, s[|s| - 1]);
      if s[|s| - 1] in x then rest + [s[|s| - 1]] else rest
  }

  function Outside<T(==)>(s: seq<T>, x: set<T>): (r: seq<T>)
    ensures Elements(r) == Elements(s) - x
  {
    if s == [] then []
    else
      var rest := Outside(s[..|s| - 1], x);
      assert s == s[..|s| - 1] + [s[|s| - 1]];
      ElementsAppend(s[..|s| - 1], s[|s| - 1]);
      ElementsAppend(rest, s[|s| - 1]);
      if s[|s| - 1] !in x then rest + [s[|s| - 1]] else rest
  }

  /** The list is picked from `s` at the given positions, which go up. */
  ghost predicate PickedAt<T>(list: seq<T>, s: seq<T>, at: seq<nat>) {
    && |at| == |list|
    && (forall i :: 0 <= i < |at| ==> at[i] < |s| && s[at[i]] == list[i])
    && (forall i, j :: 0 <= i < j < |at| ==> at[i] < at[j])
  }

  /** The list has elements of `s`, in their order. */
  ghost predicate InOrder<T>(list: seq<T>, s: seq<T>) {
    exists at :: PickedAt(list, s, at)
  }

  lemma {:induction false} StillInOrder<T>(list: seq<T>, s: seq<T>, x: T)
    requires InOrder(list, s)
    ensures InOrder(list, s + [x]) && InOrder(list + [x], s + [x])
  {
    var at: seq<nat> :| PickedAt(list, s, at);
    assert PickedAt(list, s + [x], at);
    assert PickedAt(list + [x], s + [x], at + [|s|]);
  }

  /** What is inside a set and what is outside keep the order they had. */
  lemma {:induction false} BothInOrder<T>(s: seq<T>, x: set<T>)
    ensures InOrder(Inside(s, x), s) && InOrder(Outside(s, x), s)
  {
    if s == [] {
      assert PickedAt(Inside(s, x), s, []);
    } else {
      var front, last := s[..|s| - 1], s[|s| - 1];
      BothInOrder(front, x);
      assert s == front + [last];
      StillInOrder(Inside(front, x), front, last);
      StillInOrder(Outside(front, x), front, last);
    }
  }

  lemma {:induction false} InsideAndOutside<T>(s: seq<T>, x: set<T>)
    ensures |Inside(s, x)| + |Outside(s, x)| == |s|
    ensures multiset(Inside(s, x)) + multiset(Outside(s, x)) == multiset(s)
  {
    if s != [] {
      InsideAndOutside(s[..|s| - 1], x);
      assert s == s[..|s| - 1] + [s[|s| - 1]];
    }
  }

  lemma {:induction false} ElementsSize<T>(s: seq<T>)
    ensures |Elements(s)| <= |s|
    ensures |Elements(s)| == |s| <==> Distinct(s)
  {
    if s == [] {
      assert Elements(s) == {};
    } else {
      var last, front := s[|s| - 1], s[..|s| - 1];
      ElementsSize(front);
      assert Elements(s) == Elements(front) + {last};
      if last in front {
        var i :| 0 <= i < |front| && front[i] == last;
        assert s[i] == s[|s| - 1];
        assert Elements(s) == Elements(front);
      } else {
        assert |Elements(s)| == |Elements(front)| + 1;
        assert Distinct(front) ==> Distinct(s);
        assert Distinct(s) ==> Distinct(front) by {
          assert forall i :: 0 <= i < |front| ==> front[i] == s[i];
        }
      }
    }
  }

  lemma {:induction false} OutsideDistinct<T>(s: seq<T>, x: set<T>)
    requires Distinct(s)
    ensures Distinct(Outside(s, x))
  {
    if s != [] {
      var last, front := s[|s| - 1], s[..|s| - 1];
      assert forall i :: 0 <= i < |front| ==> front[i] == s[i];
      OutsideDistinct(front, x);
      assert last !in Elements(front);
      assert last !in Elements(Outside(front, x));
    }
  }

  // Digest

  function AuthorList(standups: seq<Standup>): (r: seq<UserId>)
    ensures |r| == |standups|
  {
    if standups == [] then [] else AuthorList(standups[..|standups| - 1]) + [standups[|standups| - 1].user]
  }

  /** `new Set(standups.map(s => s.userId))` */
  function Authors(standups: seq<Standup>): set<UserId> {
    Elements(AuthorList(standups))
  }

  /** `memberCount - submittedCount`: negative when more standups than members are found. */
  function MissingCount(members: seq<UserId>, standups: seq<Standup>): int {
    |members| - |standups|
  }

  /** The members without a standup, in member order. */
  function Missing(members: seq<UserId>, standups: seq<Standup>): seq<UserId> {
    Outside(members, Authors(standups))
  }

  function LateCount(standups: seq<Standup>): (n: nat)
    ensures n <= |standups|
  {
    if standups == [] then 0
    else LateCount(standups[..|standups| - 1]) + if standups[|standups| - 1].isLate then 1 else 0
  }

  function Participation(members: seq<UserId>, standups: seq<Standup>): real {
    if |members| > 0 then |standups| as real / |members| as real else 0.0
  }

  lemma {:induction false} DifferenceSize(all: set<UserId>, authors: set<UserId>)
    ensures |all - authors| >= |all| - |authors|
    ensures |all - authors| == |all| - |authors| <==> authors <= all
  {
    assert |all| == |all - authors| + |all * authors|;
    assert authors == (authors - all) + (all * authors);
    assert |authors| == |authors - all| + |all * authors|;
    assert |authors - all| == 0 <==> authors <= all;
  }

  /**
   The list of missing members is never shorter than the missing count, and the two agree
   exactly when every standup has its own author and every author is a current member.
   */
  lemma {:induction false} MissingListAgainstCount(members: seq<UserId>, standups: seq<Standup>)
    requires Distinct(members)
    ensures |Missing(members, standups)| >= MissingCount(members, standups)
    ensures |Missing(members, standups)| == MissingCount(members, standups)
            <==> Distinct(AuthorList(standups)) && Authors(standups) <= Elements(members)
  {
    var authors := Authors(standups);
    ElementsSize(members);
    OutsideDistinct(members, authors);
    ElementsSize(Outside(members, authors));
    ElementsSize(AuthorList(standups));
    DifferenceSize(Elements(members), authors);
  }

  // Today board

  /** `new Map(standups.map(s => [s.userId, s]))`: the last standup of an author wins. */
  function ByUser(standups: seq<Standup>): (m: map<UserId, Standup>)
    ensures m.Keys == Authors(standups)
    ensures forall u :: u in m ==> m[u] in standups && m[u].user == u
  {
    if standups == [] then map[]
    else
      assert forall p :: p in standups[..|standups| - 1] ==> p in standups;
      ByUser(standups[..|standups| - 1])[standups[|standups| - 1].user := standups[|standups| - 1]]
  }

  /** The standup is its author's last in the list. */
  ghost predicate LastOfAuthor(standups: seq<Standup>, p: Standup) {
    exists i :: 0 <= i < |standups| && standups[i] == p && NoneAfter(standups, p.user, i)
  }

  ghost predicate NoneAfter(standups: seq<Standup>, user: UserId, i: nat) {
    forall j :: i < j < |standups| ==> standups[j].user != user
  }

  lemma {:induction false} ByUserMore(standups: seq<Standup>, p: Standup)
    ensures ByUser(standups + [p]) == ByUser(standups)[p.user := p]
  {
    assert (standups + [p])[..|standups|] == standups;
  }

  lemma {:induction false} LastWins(standups: seq<Standup>, user: UserId) returns (i: nat)
    requires user in ByUser(standups)
    ensures i < |standups| && standups[i] == ByUser(standups)[user] && NoneAfter(standups, user, i)
  {
    var front, last := standups[..|standups| - 1], standups[|standups| - 1];
    assert standups == front + [last];
    ByUserMore(front, last);
    i := |front|;
    if last.user != user {
      i := LastWins(front, user);
      StillNoneAfter(front, last, user, i);
    }
  }

  lemma {:induction false} StillNoneAfter(standups: seq<Standup>, p: Standup, user: UserId, i: nat)
    requires NoneAfter(standups, user, i) && p.user != user
    ensures NoneAfter(standups + [p], user, i)
  {
  }

  /**
   The board's loop. The standups of members, each author's last, and the members without one
   are both listed in member order, and between them they account for all the members.
   */
  method TodayBoard(members: seq<UserId>, standups: seq<Standup>)
    returns (submitted: seq<Standup>, pending: seq<UserId>)
    ensures pending == Missing(members, standups)
    ensures AuthorList(submitted) == Inside(members, Authors(standups))
    ensures forall p :: p in submitted ==> LastOfAuthor(standups, p)
    ensures InOrder(pending, members) && InOrder(AuthorList(submitted), members)
    ensures multiset(AuthorList(submitted)) + multiset(pending) == multiset(members)
  {
    var standupByUserId := ByUser(standups);
    submitted, pending := [], [];
    for i := 0 to |members|
      invariant pending == Outside(members[..i], Authors(standups))
      invariant AuthorList(submitted) == Inside(members[..i], Authors(standups))
      invariant forall p :: p in submitted ==> LastOfAuthor(standups, p)
    {
      var member := members[i];
      assert members[..i + 1][..i] == members[..i];
      if member in standupByUserId {
        var entry := standupByUserId[member];
        ghost var last := LastWins(standups, member);
        assert (submitted + [entry])[..|submitted|] == submitted;
        submitted := submitted + [entry];
      } else {
        pending := pending + [member];
      }
    }
    assert members[..|members|] == members;
    InsideAndOutside(members, Authors(standups));
    BothInOrder(members, Authors(standups));
  }

  // Reminder

  /** No member is left to remind exactly when every member has submitted. */
  lemma {:induction false} NobodyPendingMeansAllSubmitted(members: seq<UserId>, standups: seq<Standup>)
    ensures Missing(members, standups) == [] <==> Elements(members) <= Authors(standups)
  {
    var missing, left := Missing(members, standups), Elements(members) - Authors(standups);
    assert Elements(missing) == left;
    assert missing != [] ==> missing[0] in left;
    assert left == {} <==> Elements(members) <= Authors(standups) by {
      assert forall u :: u in Elements(members) && u !in Authors(standups) ==> u in left;
    }
  }
}
