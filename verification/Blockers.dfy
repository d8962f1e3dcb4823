/**
 Counting and ranking blockers (reports.service.ts). A mention is a standup's trimmed blocker
 text with the lower-cased text it is counted under; texts are any values here.
 */
module Blockers {

  datatype Mention<K> = Mention(key: K, text: K)

  /** A value of the counting map, with its key. The map keeps its entries in insertion order. */
  datatype Entry<K> = Entry(key: K, text: K, count: nat)

  function IndexOf<K(==)>(entries: seq<Entry<K>>, key: K): (i: nat)
    ensures i <= |entries|
    ensures i < |entries| ==> entries[i].key == key
  {
    if entries == [] || entries[0].key == key then 0 else 1 + IndexOf(entries[1..], key)
  }

  lemma {:induction false} IndexOfIsFirst<K>(entries: seq<Entry<K>>, key: K, i: nat)
    requires i < |entries| && entries[i].key == key
    ensures IndexOf(entries, key) <= i
  {
    if entries[0].key != key {
      IndexOfIsFirst(entries[1..], key, i - 1);
    }
  }

  /** Counts a mention: one more of an entry there is, or a new entry. */
  function Bump<K(==)>(entries: seq<Entry<K>>, m: Mention<K>): seq<Entry<K>> {
    var at := IndexOf(entries, m.key);
    if at < |entries| then entries[at := entries[at].(count := entries[at].count + 1)]
    else entries + [Entry(m.key, m.text, 1)]
  }

  // What is counted

  function KeyCount<K(==)>(ms: seq<Mention<K>>, key: K): nat {
    if ms == [] then 0
    else KeyCount(ms[..|ms| - 1], key) + if ms[|ms| - 1].key == key then 1 else 0
  }

  /** The first mention with a key, or the number of mentions where there is none. */
  function First<K(==)>(ms: seq<Mention<K>>, key: K): (i: nat)
    ensures i <= |ms|
  {
    if ms == [] then 0
    else
      var before := First(ms[..|ms| - 1], key);
      if before < |ms| - 1 || ms[|ms| - 1].key == key then before else |ms|
  }

  lemma {:induction false} FirstIsFirst<K>(ms: seq<Mention<K>>, key: K)
    ensures First(ms, key) < |ms| ==> ms[First(ms, key)].key == key
    ensures forall i :: 0 <= i < First(ms, key) ==> ms[i].key != key
  {
    if ms != [] {
      FirstIsFirst(ms[..|ms| - 1], key);
    }
  }

  lemma {:induction false} OneMore<K>(ms: seq<Mention<K>>, m: Mention<K>, key: K)
    ensures KeyCount(ms + [m], key) == KeyCount(ms, key) + if m.key == key then 1 else 0
    ensures First(ms + [m], key)
         == if First(ms, key) < |ms| || m.key == key then First(ms, key) else |ms| + 1
  {
    assert (ms + [m])[..|ms|] == ms;
  }

  lemma {:induction false} NoneBefore<K>(ms: seq<Mention<K>>, key: K)
    requires First(ms, key) == |ms|
    ensures KeyCount(ms, key) == 0
  {
    if ms != [] {
      NoneBefore(ms[..|ms| - 1], key);
    }
  }

  /** An entry has its key's number of mentions, and the words of the first. */
  predicate EntryCounts<K(==)>(ms: seq<Mention<K>>, e: Entry<K>) {
    && First(ms, e.key) < |ms|
    && e.count == KeyCount(ms, e.key)
    && ms[First(ms, e.key)].text == e.text
  }

  ghost predicate AllCount<K>(ms: seq<Mention<K>>, entries: seq<Entry<K>>) {
    forall i :: 0 <= i < |entries| ==> EntryCounts(ms, entries[i])
  }

  /** Entries stand in the order in which their keys were first mentioned; no key has two. */
  ghost predicate ByAppearance<K>(ms: seq<Mention<K>>, entries: seq<Entry<K>>) {
    forall i, j :: 0 <= i < j < |entries| ==> First(ms, entries[i].key) < First(ms, entries[j].key)
  }

  /** Every key mentioned has an entry. */
  ghost predicate NoneMissing<K>(ms: seq<Mention<K>>, entries: seq<Entry<K>>) {
    forall k :: 0 <= k < |ms| ==> IndexOf(entries, ms[k].key) < |entries|
  }

  function Total<K>(entries: seq<Entry<K>>): nat {
    if entries == [] then 0 else entries[0].count + Total(entries[1..])
  }
}

/** Each mention counted keeps the counts right. */
module BlockerSteps {
  import opened Blockers

  lemma {:induction false} EntryKept<K>(ms: seq<Mention<K>>, m: Mention<K>, e: Entry<K>)
    requires EntryCounts(ms, e)
    ensures EntryCounts(ms + [m], if m.key == e.key then e.(count := e.count + 1) else e)
    ensures First(ms + [m], e.key) == First(ms, e.key)
  {
    OneMore(ms, m, e.key);
  }

  lemma {:induction false} EntryNew<K>(ms: seq<Mention<K>>, m: Mention<K>)
    requires First(ms, m.key) == |ms|
    ensures EntryCounts(ms + [m], Entry(m.key, m.text, 1))
    ensures First(ms + [m], m.key) == |ms|
  {
    OneMore(ms, m, m.key);
    NoneBefore(ms, m.key);
  }

  /** A key has an entry exactly if it was mentioned. */
  lemma {:induction false} EntryIffMentioned<K>(ms: seq<Mention<K>>, entries: seq<Entry<K>>, key: K)
    requires AllCount(ms, entries) && NoneMissing(ms, entries)
    ensures IndexOf(entries, key) < |entries| <==> First(ms, key) < |ms|
  {
    FirstIsFirst(ms, key);
    var at := IndexOf(entries, key);
    if at < |entries| {
      assert EntryCounts(ms, entries[at]);
    }
  }

  lemma {:induction false} OneEntryPerKey<K>(ms: seq<Mention<K>>, entries: seq<Entry<K>>, i: nat)
    requires ByAppearance(ms, entries) && i < |entries|
    ensures IndexOf(entries, entries[i].key) == i
  {
    IndexOfIsFirst(entries, entries[i].key, i);
  }

  lemma {:induction false} BumpAt<K>(ms: seq<Mention<K>>, entries: seq<Entry<K>>, m: Mention<K>, i: nat)
    requires AllCount(ms, entries) && ByAppearance(ms, entries) && NoneMissing(ms, entries)
    requires i < |Bump(entries, m)|
    ensures EntryCounts(ms + [m], Bump(entries, m)[i])
    ensures i < |entries| ==> Bump(entries, m)[i].key == entries[i].key
    ensures First(ms + [m], Bump(entries, m)[i].key) == if i < |entries| then First(ms, entries[i].key) else |ms|
  {
    EntryIffMentioned(ms, entries, m.key);
    if i < |entries| {
      EntryKept(ms, m, entries[i]);
      OneEntryPerKey(ms, entries, i);
    } else {
      EntryNew(ms, m);
    }
  }

  lemma {:induction false} BumpCounts<K>(ms: seq<Mention<K>>, entries: seq<Entry<K>>, m: Mention<K>)
    requires AllCount(ms, entries) && ByAppearance(ms, entries) && NoneMissing(ms, entries)
    ensures AllCount(ms + [m], Bump(entries, m))
  {
    var after := Bump(entries, m);
    forall i | 0 <= i < |after|
      ensures EntryCounts(ms + [m], after[i])
    {
      BumpAt(ms, entries, m, i);
    }
  }

  lemma {:induction false} BumpKeepsOrder<K>(ms: seq<Mention<K>>, entries: seq<Entry<K>>, m: Mention<K>)
    requires AllCount(ms, entries) && ByAppearance(ms, entries) && NoneMissing(ms, entries)
    ensures ByAppearance(ms + [m], Bump(entries, m))
  {
    var after := Bump(entries, m);
    forall i, j | 0 <= i < j < |after|
      ensures First(ms + [m], after[i].key) < First(ms + [m], after[j].key)
    {
      BumpAt(ms, entries, m, i);
      BumpAt(ms, entries, m, j);
      assert EntryCounts(ms, entries[i]);
    }
  }

  lemma {:induction false} BumpHolds<K>(entries: seq<Entry<K>>, m: Mention<K>, key: K)
    requires key == m.key || IndexOf(entries, key) < |entries|
    ensures IndexOf(Bump(entries, m), key) < |Bump(entries, m)|
  {
    var after := Bump(entries, m);
    var i := IndexOf(entries, key);
    assert after[i].key == key;
    IndexOfIsFirst(after, key, i);
  }

  lemma {:induction false} BumpMissesNone<K>(ms: seq<Mention<K>>, entries: seq<Entry<K>>, m: Mention<K>)
    requires NoneMissing(ms, entries)
    ensures NoneMissing(ms + [m], Bump(entries, m))
  {
    forall k | 0 <= k < |ms + [m]|
      ensures IndexOf(Bump(entries, m), (ms + [m])[k].key) < |Bump(entries, m)|
    {
      BumpHolds(entries, m, (ms + [m])[k].key);
    }
  }

  lemma {:induction false} TotalOfUpdate<K>(entries: seq<Entry<K>>, at: nat)
    requires at < |entries|
    ensures Total(entries[at := entries[at].(count := entries[at].count + 1)]) == Total(entries) + 1
  {
    var e := entries[at].(count := entries[at].count + 1);
    if at == 0 {
      assert entries[at := e][1..] == entries[1..];
    } else {
      TotalOfUpdate(entries[1..], at - 1);
      assert entries[at := e][1..] == entries[1..][at - 1 := e];
    }
  }

  lemma {:induction false} TotalOfAppend<K>(entries: seq<Entry<K>>, e: Entry<K>)
    ensures Total(entries + [e]) == Total(entries) + e.count
  {
    if entries == [] {
      assert entries + [e] == [e];
    } else {
      TotalOfAppend(entries[1..], e);
      assert (entries + [e])[1..] == entries[1..] + [e];
    }
  }

  lemma {:induction false} BumpAddsOne<K>(entries: seq<Entry<K>>, m: Mention<K>)
    ensures Total(Bump(entries, m)) == Total(entries) + 1
  {
    var at := IndexOf(entries, m.key);
    if at < |entries| {
      TotalOfUpdate(entries, at);
    } else {
      TotalOfAppend(entries, Entry(m.key, m.text, 1));
    }
  }
}

/** Sorting the counted blockers by count, most first, and taking five. */
module BlockerRanking {
  import opened Blockers

  /** Places an entry after all that are counted at least as often: a stable sort, by insertion. */
  function Insert<K>(ranked: seq<Entry<K>>, e: Entry<K>): seq<Entry<K>> {
    if ranked == [] || ranked[0].count < e.count then [e] + ranked
    else [ranked[0]] + Insert(ranked[1..], e)
  }

  /** `sort((a, b) => b.count - a.count)` */
  function Ranked<K>(entries: seq<Entry<K>>): seq<Entry<K>> {
    if entries == [] then [] else Insert(Ranked(entries[..|entries| - 1]), entries[|entries| - 1])
  }

  /** Counted more often, or as often and mentioned first. */
  predicate Outranks<K(==)>(ms: seq<Mention<K>>, a: Entry<K>, b: Entry<K>) {
    a.count > b.count || (a.count == b.count && First(ms, a.key) < First(ms, b.key))
  }

  ghost predicate InRankOrder<K>(ms: seq<Mention<K>>, ranked: seq<Entry<K>>) {
    forall i, j :: 0 <= i < j < |ranked| ==> Outranks(ms, ranked[i], ranked[j])
  }

  function FirstFive<K>(ranked: seq<Entry<K>>): seq<Entry<K>> {
    if |ranked| <= 5 then ranked else ranked[..5]
  }

  /** As `Outranks`, against all mentions of `key`. */
  predicate Above<K(==)>(ms: seq<Mention<K>>, a: Entry<K>, key: K) {
    a.count > KeyCount(ms, key) || (a.count == KeyCount(ms, key) && First(ms, a.key) < First(ms, key))
  }

  /** What is mentioned but not listed ranks below all five that are. */
  ghost predicate NothingAbove<K>(ms: seq<Mention<K>>, top: seq<Entry<K>>) {
    forall k :: 0 <= k < |ms| && IndexOf(top, ms[k].key) == |top| ==>
      |top| == 5 && forall i :: 0 <= i < |top| ==> Above(ms, top[i], ms[k].key)
  }

  /** The new entry lands at `p`; the entries before and after it stay in their order. */
  function Place<K>(ranked: seq<Entry<K>>, e: Entry<K>): (p: nat)
    ensures p <= |ranked|
  {
    if ranked == [] || ranked[0].count < e.count then 0 else 1 + Place(ranked[1..], e)
  }

  lemma {:induction false} InsertAtPlace<K>(ranked: seq<Entry<K>>, e: Entry<K>)
    ensures Insert(ranked, e) == ranked[..Place(ranked, e)] + [e] + ranked[Place(ranked, e)..]
    ensures forall i :: 0 <= i < Place(ranked, e) ==> ranked[i].count >= e.count
    ensures Place(ranked, e) < |ranked| ==> ranked[Place(ranked, e)].count < e.count
  {
    if ranked != [] && ranked[0].count >= e.count {
      InsertAtPlace(ranked[1..], e);
      var p := Place(ranked[1..], e);
      assert ranked[..p + 1] == [ranked[0]] + ranked[1..][..p];
      assert ranked[p + 1..] == ranked[1..][p..];
    }
  }
}

module BlockerRankingTheorems {
  import opened Blockers
  import opened BlockerRanking

  lemma {:induction false} InsertKeepsRank<K>(ms: seq<Mention<K>>, ranked: seq<Entry<K>>, e: Entry<K>)
    requires InRankOrder(ms, ranked)
    requires forall i :: 0 <= i < |ranked| ==> First(ms, ranked[i].key) < First(ms, e.key)
    ensures InRankOrder(ms, Insert(ranked, e))
  {
    var p, after := Place(ranked, e), Insert(ranked, e);
    InsertAtPlace(ranked, e);
    assert forall i :: 0 <= i < p ==> after[i] == ranked[i];
    assert after[p] == e;
    assert forall i :: p < i < |after| ==> after[i] == ranked[i - 1];
    forall i, j | 0 <= i < j < |after|
      ensures Outranks(ms, after[i], after[j])
    {
      if i == p {
        assert j - 1 > p ==> Outranks(ms, ranked[p], ranked[j - 1]);
      } else if j != p {
        var oldI, oldJ := if i < p then i else i - 1, if j < p then j else j - 1;
        assert Outranks(ms, ranked[oldI], ranked[oldJ]);
      }
    }
  }

  lemma {:induction false} InsertElements<K>(ranked: seq<Entry<K>>, e: Entry<K>)
    ensures multiset(Insert(ranked, e)) == multiset(ranked) + multiset{e}
  {
    InsertAtPlace(ranked, e);
    Amid(ranked, e, Place(ranked, e));
  }

  lemma {:induction false} Amid<T>(s: seq<T>, e: T, p: nat)
    requires p <= |s|
    ensures multiset(s[..p] + [e] + s[p..]) == multiset(s) + multiset{e}
  {
    assert s == s[..p] + s[p..];
  }

  lemma {:induction false} RankedElements<K>(entries: seq<Entry<K>>)
    ensures multiset(Ranked(entries)) == multiset(entries)
  {
    if entries != [] {
      var front, e := entries[..|entries| - 1], entries[|entries| - 1];
      RankedElements(front);
      InsertElements(Ranked(front), e);
      assert multiset(entries) == multiset(front) + multiset{e} by {
        assert entries == front + [e];
      }
    }
  }

  lemma {:induction false} SameElements<K>(entries: seq<Entry<K>>, e: Entry<K>)
    ensures e in Ranked(entries) <==> e in entries
    ensures |Ranked(entries)| == |entries|
  {
    RankedElements(entries);
    assert |multiset(Ranked(entries))| == |Ranked(entries)| && |multiset(entries)| == |entries|;
    assert e in Ranked(entries) <==> e in multiset(Ranked(entries));
  }

  lemma {:induction false} RankedIsSorted<K>(ms: seq<Mention<K>>, entries: seq<Entry<K>>)
    requires ByAppearance(ms, entries)
    ensures InRankOrder(ms, Ranked(entries))
  {
    if entries != [] {
      var front, e := entries[..|entries| - 1], entries[|entries| - 1];
      RankedIsSorted(ms, front);
      var ranked := Ranked(front);
      forall i | 0 <= i < |ranked|
        ensures First(ms, ranked[i].key) < First(ms, e.key)
      {
        SameElements(front, ranked[i]);
        var k :| 0 <= k < |front| && front[k] == ranked[i];
        assert entries[k] == front[k];
      }
      InsertKeepsRank(ms, ranked, e);
    }
  }

  lemma {:induction false} TopCounts<K>(ms: seq<Mention<K>>, entries: seq<Entry<K>>)
    requires AllCount(ms, entries)
    ensures AllCount(ms, FirstFive(Ranked(entries)))
  {
    var top := FirstFive(Ranked(entries));
    forall i | 0 <= i < |top|
      ensures EntryCounts(ms, top[i])
    {
      SameElements(entries, top[i]);
      var k :| 0 <= k < |entries| && entries[k] == top[i];
    }
  }

  lemma {:induction false} TopInOrder<K>(ms: seq<Mention<K>>, entries: seq<Entry<K>>)
    requires ByAppearance(ms, entries)
    ensures InRankOrder(ms, FirstFive(Ranked(entries)))
  {
    RankedIsSorted(ms, entries);
  }

  lemma {:induction false} OutrankedAt<K>(ms: seq<Mention<K>>, entries: seq<Entry<K>>, i: nat, j: nat)
    requires AllCount(ms, entries) && ByAppearance(ms, entries)
    requires i < j < |Ranked(entries)|
    ensures Above(ms, Ranked(entries)[i], Ranked(entries)[j].key)
  {
    RankedIsSorted(ms, entries);
    assert Outranks(ms, Ranked(entries)[i], Ranked(entries)[j]);
    var e := Ranked(entries)[j];
    SameElements(entries, e);
    var k :| 0 <= k < |entries| && entries[k] == e;
    assert EntryCounts(ms, entries[k]);
  }

  /** A text with an entry, but not among the five, stands further down the ranking. */
  lemma {:induction false} FurtherDown<K>(entries: seq<Entry<K>>, key: K) returns (j: nat)
    requires IndexOf(entries, key) < |entries|
    requires IndexOf(FirstFive(Ranked(entries)), key) == |FirstFive(Ranked(entries))|
    ensures 5 <= j < |Ranked(entries)| && Ranked(entries)[j].key == key
  {
    var e := entries[IndexOf(entries, key)];
    var top := FirstFive(Ranked(entries));
    SameElements(entries, e);
    j :| 0 <= j < |Ranked(entries)| && Ranked(entries)[j] == e;
    if j < |top| {
      IndexOfIsFirst(top, key, j);
    }
  }

  lemma {:induction false} TopIsTop<K>(ms: seq<Mention<K>>, entries: seq<Entry<K>>)
    requires AllCount(ms, entries) && ByAppearance(ms, entries) && NoneMissing(ms, entries)
    ensures NothingAbove(ms, FirstFive(Ranked(entries)))
  {
    var top := FirstFive(Ranked(entries));
    forall k | 0 <= k < |ms| && IndexOf(top, ms[k].key) == |top|
      ensures |top| == 5 && forall i :: 0 <= i < |top| ==> Above(ms, top[i], ms[k].key)
    {
      var j := FurtherDown(entries, ms[k].key);
      forall i | 0 <= i < |top|
        ensures Above(ms, top[i], ms[k].key)
      {
        OutrankedAt(ms, entries, i, j);
      }
    }
  }
}
