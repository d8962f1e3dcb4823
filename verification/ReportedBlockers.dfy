/** The blockers of standups, as mentions to be counted, and what their ranking tells of the standups. */
module ReportedBlockers {
  import opened Text
  import opened Entities
  import opened Blockers
  import opened BlockerRanking

  /** What a standup says blocks it, unless that is blank; texts that differ only in case have one key. */
  function MentionOf(s: Standup): Option<Mention<string>> {
    if s.blockers.None? || Trim(s.blockers.value) == "" then None
    else Some(Mention(ToLower(Trim(s.blockers.value)), Trim(s.blockers.value)))
  }

  function Mentions(standups: seq<Standup>): seq<Mention<string>> {
    if standups == [] then []
    else
      var before, m := Mentions(standups[..|standups| - 1]), MentionOf(standups[|standups| - 1]);
      if m.None? then before else before + [m.value]
  }

  ghost predicate RightBlockers(ms: seq<Mention<string>>, top: seq<Entry<string>>) {
    AllCount(ms, top) && |top| <= 5 && InRankOrder(ms, top) && NothingAbove(ms, top)
  }

  // In terms of the standups

  /** The standup names the blocker: its text, trimmed, is that key but for capitals. */
  predicate Names(s: Standup, key: string) {
    s.blockers.Some? && Trim(s.blockers.value) != "" && ToLower(Trim(s.blockers.value)) == key
  }

  function NamedBy(standups: seq<Standup>, key: string): set<nat> {
    set i: nat | i < |standups| && Names(standups[i], key)
  }

  /** The first standup that names the blocker. */
  predicate NamedFirst(standups: seq<Standup>, key: string, i: nat) {
    i < |standups| && Names(standups[i], key) && forall j :: 0 <= j < i ==> !Names(standups[j], key)
  }

  /** More standups name `a` than `b`, or as many, and `a` is named first. */
  ghost predicate Before(standups: seq<Standup>, a: string, b: string) {
    || |NamedBy(standups, a)| > |NamedBy(standups, b)|
    || (|NamedBy(standups, a)| == |NamedBy(standups, b)|
        && exists i: nat, j: nat :: NamedFirst(standups, a, i) && NamedFirst(standups, b, j) && i < j)
  }

  ghost predicate EntryTold(standups: seq<Standup>, e: Entry<string>) {
    && e.count == |NamedBy(standups, e.key)|
    && exists i: nat :: NamedFirst(standups, e.key, i) && e.text == Trim(standups[i].blockers.value)
  }

  ghost predicate Listed(top: seq<Entry<string>>, key: string) {
    exists i :: 0 <= i < |top| && top[i].key == key
  }

  /**
   The five blockers that most standups name, or all where there are fewer: each with the number
   of standups that name it and in the words of the first, in order of that number and, where it
   is equal, of the first; and one that is left out comes after all of five.
   */
  ghost predicate BlockersTold(standups: seq<Standup>, top: seq<Entry<string>>) {
    && |top| <= 5
    && (forall i :: 0 <= i < |top| ==> EntryTold(standups, top[i]))
    && (forall i, j :: 0 <= i < j < |top| ==> Before(standups, top[i].key, top[j].key))
    && (forall s, key :: s in standups && Names(s, key) && !Listed(top, key) ==>
          |top| == 5 && forall i :: 0 <= i < |top| ==> Before(standups, top[i].key, key))
  }

  lemma {:induction false} MentionsMore(standups: seq<Standup>, s: Standup)
    ensures Mentions(standups + [s])
         == Mentions(standups) + if MentionOf(s).Some? then [MentionOf(s).value] else []
  {
    assert (standups + [s])[..|standups|] == standups;
  }

  lemma {:induction false} CountIsNumber(standups: seq<Standup>, key: string)
    ensures KeyCount(Mentions(standups), key) == |NamedBy(standups, key)|
  {
    if standups == [] {
      assert NamedBy(standups, key) == {};
    } else {
      var front, last := standups[..|standups| - 1], standups[|standups| - 1];
      assert standups == front + [last];
      CountIsNumber(front, key);
      MentionsMore(front, last);
      if MentionOf(last).Some? {
        OneMore(Mentions(front), MentionOf(last).value, key);
      }
      OneNameMore(front, last, key);
    }
  }

  lemma {:induction false} OneNameMore(standups: seq<Standup>, s: Standup, key: string)
    ensures |NamedBy(standups + [s], key)| == |NamedBy(standups, key)| + if Names(s, key) then 1 else 0
  {
    var all, few, n := NamedBy(standups + [s], key), NamedBy(standups, key), |standups|;
    forall i
      ensures i in all <==> i in few || (Names(s, key) && i == n)
    {
    }
    assert all == few + if Names(s, key) then {n} else {};
  }

  predicate Increasing(at: seq<nat>) {
    forall k, l :: 0 <= k < l < |at| ==> at[k] < at[l]
  }

  lemma {:induction false} SmallerFirst(at: seq<nat>, l: nat, k: nat)
    requires Increasing(at) && l < |at| && k < |at| && at[l] < at[k]
    ensures l < k
  {
  }

  /** The mention k is that of standup at[k], and they are all that there are. */
  ghost predicate MentionedAt(standups: seq<Standup>, at: seq<nat>) {
    && |at| == |Mentions(standups)|
    && (forall k :: 0 <= k < |at| ==>
          at[k] < |standups| && MentionOf(standups[at[k]]) == Some(Mentions(standups)[k]))
    && Increasing(at)
    && (forall i :: 0 <= i < |standups| && MentionOf(standups[i]).Some? ==> i in at)
  }

  lemma {:induction false} WhereMentioned(standups: seq<Standup>) returns (at: seq<nat>)
    ensures MentionedAt(standups, at)
  {
    at := [];
    if standups != [] {
      var front, last := standups[..|standups| - 1], standups[|standups| - 1];
      assert standups == front + [last];
      at := WhereMentioned(front);
      MentionsMore(front, last);
      var was := at;
      if MentionOf(last).Some? {
        at := at + [|front|];
        assert forall i :: i in at <==> i in was || i == |front|;
      }
    }
  }

  lemma {:induction false} MentionOfStandup(standups: seq<Standup>, at: seq<nat>, j: nat) returns (l: nat)
    requires MentionedAt(standups, at) && j < |standups| && MentionOf(standups[j]).Some?
    ensures l < |at| && at[l] == j && MentionOf(standups[j]) == Some(Mentions(standups)[l])
  {
    assert j in at;
    l :| 0 <= l < |at| && at[l] == j;
  }

  lemma {:induction false} NotNamedBefore(standups: seq<Standup>, at: seq<nat>, key: string, k: nat, j: nat)
    requires MentionedAt(standups, at) && k == First(Mentions(standups), key) < |at| && j < at[k]
    ensures !Names(standups[j], key)
  {
    if MentionOf(standups[j]).Some? {
      var l := MentionOfStandup(standups, at, j);
      SmallerFirst(at, l, k);
      FirstIsFirst(Mentions(standups), key);
      assert Mentions(standups)[l].key != key;
    }
  }

  /** The first mention of a key is that of the first standup that names it. */
  lemma {:induction false} FirstMention(standups: seq<Standup>, at: seq<nat>, key: string)
    requires MentionedAt(standups, at) && First(Mentions(standups), key) < |at|
    ensures NamedFirst(standups, key, at[First(Mentions(standups), key)])
    ensures Mentions(standups)[First(Mentions(standups), key)].text
         == Trim(standups[at[First(Mentions(standups), key)]].blockers.value)
  {
    var k := First(Mentions(standups), key);
    FirstIsFirst(Mentions(standups), key);
    assert MentionOf(standups[at[k]]) == Some(Mentions(standups)[k]);
    forall j: nat | j < at[k]
      ensures !Names(standups[j], key)
    {
      NotNamedBefore(standups, at, key, k, j);
    }
  }

  lemma {:induction false} FirstIsBefore(standups: seq<Standup>, a: string, b: string, i: nat, j: nat)
    requires NamedFirst(standups, a, i) && NamedFirst(standups, b, j)
    requires || |NamedBy(standups, a)| > |NamedBy(standups, b)|
             || (|NamedBy(standups, a)| == |NamedBy(standups, b)| && i < j)
    ensures Before(standups, a, b)
  {
  }

  lemma {:induction false} InTurn(at: seq<nat>, k: nat, l: nat)
    requires Increasing(at) && k < |at| && l < |at|
    ensures k < l ==> at[k] < at[l]
  {
  }

  lemma {:induction false} OutrankingIsBefore(standups: seq<Standup>, at: seq<nat>, a: string, b: string)
    requires MentionedAt(standups, at)
    requires First(Mentions(standups), a) < |at| && First(Mentions(standups), b) < |at|
    requires var ms := Mentions(standups);
      || KeyCount(ms, a) > KeyCount(ms, b)
      || (KeyCount(ms, a) == KeyCount(ms, b) && First(ms, a) < First(ms, b))
    ensures Before(standups, a, b)
  {
    var k, l := First(Mentions(standups), a), First(Mentions(standups), b);
    CountIsNumber(standups, a);
    CountIsNumber(standups, b);
    FirstMention(standups, at, a);
    FirstMention(standups, at, b);
    InTurn(at, k, l);
    FirstIsBefore(standups, a, b, at[k], at[l]);
  }

  lemma {:induction false} EntryIsTold(standups: seq<Standup>, at: seq<nat>, e: Entry<string>)
    requires MentionedAt(standups, at) && EntryCounts(Mentions(standups), e)
    ensures EntryTold(standups, e)
  {
    CountIsNumber(standups, e.key);
    FirstMention(standups, at, e.key);
  }

  lemma {:induction false} NamedIsMentioned(standups: seq<Standup>, at: seq<nat>, s: Standup, key: string)
    returns (k: nat)
    requires MentionedAt(standups, at) && s in standups && Names(s, key)
    ensures k < |at| && Mentions(standups)[k].key == key && First(Mentions(standups), key) < |at|
  {
    var i :| 0 <= i < |standups| && standups[i] == s;
    k := MentionOfStandup(standups, at, i);
    FirstIsFirst(Mentions(standups), key);
  }

  lemma {:induction false} LeftOutIsAfter(standups: seq<Standup>, at: seq<nat>, top: seq<Entry<string>>, s: Standup,
                                          key: string)
    requires MentionedAt(standups, at) && RightBlockers(Mentions(standups), top)
    requires s in standups && Names(s, key) && !Listed(top, key)
    ensures |top| == 5 && forall i :: 0 <= i < |top| ==> Before(standups, top[i].key, key)
  {
    var k := NamedIsMentioned(standups, at, s, key);
    assert IndexOf(top, Mentions(standups)[k].key) == |top|;
    forall i | 0 <= i < |top|
      ensures Before(standups, top[i].key, key)
    {
      assert Above(Mentions(standups), top[i], key) && EntryCounts(Mentions(standups), top[i]);
      OutrankingIsBefore(standups, at, top[i].key, key);
    }
  }

  /** The ranking of mentions tells what it should of the standups. */
  lemma {:induction false} RightIsTold(standups: seq<Standup>, top: seq<Entry<string>>)
    requires RightBlockers(Mentions(standups), top)
    ensures BlockersTold(standups, top)
  {
    var at := WhereMentioned(standups);
    forall i | 0 <= i < |top|
      ensures EntryTold(standups, top[i])
    {
      EntryIsTold(standups, at, top[i]);
    }
    forall i, j | 0 <= i < j < |top|
      ensures Before(standups, top[i].key, top[j].key)
    {
      assert EntryCounts(Mentions(standups), top[i]) && EntryCounts(Mentions(standups), top[j]);
      assert Outranks(Mentions(standups), top[i], top[j]);
      OutrankingIsBefore(standups, at, top[i].key, top[j].key);
    }
    forall s, key | s in standups && Names(s, key) && !Listed(top, key)
      ensures |top| == 5 && forall i :: 0 <= i < |top| ==> Before(standups, top[i].key, key)
    {
      LeftOutIsAfter(standups, at, top, s, key);
    }
  }
}
