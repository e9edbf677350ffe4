/**
 The bounded session catalog: one entry per session, ranked, and cut to a limit so that
 every agent keeps a reserve of its best entries.
 */
module SessionCatalog {
  datatype Activity = Working | Waiting | Idle

  datatype Session = Session(agent: string, id: string, activity: Activity, lastActivityAt: int, body: string)

  datatype Key = Key(agent: string, id: string)

  function KeyOf(s: Session): Key {
    Key(s.agent, s.id)
  }

  predicate DistinctKeys(list: seq<Session>) {
    forall i, j :: 0 <= i < |list| && 0 <= j < |list| && i != j ==> KeyOf(list[i]) != KeyOf(list[j])
  }

  // ---------------------------------------------------------------------------
  // One entry per session, ranked
  // ---------------------------------------------------------------------------

  /** The position of a key in an insertion-ordered map, or its size. */
  function Position(merged: seq<Session>, key: Key): (k: nat)
    ensures k <= |merged| && (k < |merged| ==> KeyOf(merged[k]) == key)
    ensures forall i :: 0 <= i < k ==> KeyOf(merged[i]) != key
  {
    if merged == [] || KeyOf(merged[0]) == key then 0 else 1 + Position(merged[1..], key)
  }

  /** A later or equally recent entry replaces the one with its key, in place. */
  function Merged(merged: seq<Session>, s: Session): seq<Session> {
    var k := Position(merged, KeyOf(s));
    if k == |merged| then merged + [s]
    else if s.lastActivityAt >= merged[k].lastActivityAt then merged[k := s]
    else merged
  }

  function Unique(sessions: seq<Session>): seq<Session> {
    if sessions == [] then [] else Merged(Unique(sessions[..|sessions| - 1]), sessions[|sessions| - 1])
  }

  function Urgency(a: Activity): nat {
    match a case Working => 0 case Waiting => 1 case Idle => 2
  }

  predicate Before(a: Session, b: Session) {
    Urgency(a.activity) < Urgency(b.activity)
    || (Urgency(a.activity) == Urgency(b.activity) && a.lastActivityAt > b.lastActivityAt)
  }

  /** Stable: an entry goes behind all that it does not come before. */
  function Inserted(sorted: seq<Session>, s: Session): seq<Session> {
    if sorted == [] || !Before(s, sorted[|sorted| - 1]) then sorted + [s]
    else Inserted(sorted[..|sorted| - 1], s) + [sorted[|sorted| - 1]]
  }

  function Ranked(list: seq<Session>): seq<Session> {
    if list == [] then [] else Inserted(Ranked(list[..|list| - 1]), list[|list| - 1])
  }

  method SortedUniqueSessions(sessions: seq<Session>) returns (result: seq<Session>)
    ensures result == Ranked(Unique(sessions))
  {
    var merged: seq<Session> := [];
    for i := 0 to |sessions|
      invariant merged == Unique(sessions[..i])
    {
      assert sessions[..i + 1][..i] == sessions[..i];
      var k := Position(merged, KeyOf(sessions[i]));
      if k == |merged| {
        merged := merged + [sessions[i]];
      } else if sessions[i].lastActivityAt >= merged[k].lastActivityAt {
        merged := merged[k := sessions[i]];
      }
    }
    assert sessions[..|sessions|] == sessions;
    result := [];
    for i := 0 to |merged|
      invariant result == Ranked(merged[..i])
    {
      assert merged[..i + 1][..i] == merged[..i];
      result := Inserted(result, merged[i]);
    }
    assert merged[..|merged|] == merged;
  }

  lemma {:induction false} UniqueHasDistinctKeys(sessions: seq<Session>)
    ensures DistinctKeys(Unique(sessions))
  {
    if sessions != [] { UniqueHasDistinctKeys(sessions[..|sessions| - 1]); }
  }

  /** The entry for a key is the last one among the most recent with that key. */
  predicate IsLatest(sessions: seq<Session>, s: Session) {
    exists i :: 0 <= i < |sessions| && sessions[i] == s && Beats(sessions, i)
  }

  predicate Beats(sessions: seq<Session>, i: nat)
    requires i < |sessions|
  {
    && (forall j :: 0 <= j < i && KeyOf(sessions[j]) == KeyOf(sessions[i]) ==>
          sessions[j].lastActivityAt <= sessions[i].lastActivityAt)
    && (forall j :: i < j < |sessions| && KeyOf(sessions[j]) == KeyOf(sessions[i]) ==>
          sessions[j].lastActivityAt < sessions[i].lastActivityAt)
  }

  predicate Covers(list: seq<Session>, key: Key) {
    Position(list, key) < |list|
  }

  lemma {:induction false} PositionOf(list: seq<Session>, k: nat)
    requires DistinctKeys(list) && k < |list|
    ensures Position(list, KeyOf(list[k])) == k
  {
  }

  predicate KeepsLatest(sessions: seq<Session>, list: seq<Session>) {
    && (forall k :: 0 <= k < |list| ==> IsLatest(sessions, list[k]))
    && (forall i :: 0 <= i < |sessions| ==> Covers(list, KeyOf(sessions[i])))
  }

  lemma {:induction false} MergedIsLatest(init: seq<Session>, s: Session, u: seq<Session>, k: nat)
    requires KeepsLatest(init, u) && DistinctKeys(u) && k < |Merged(u, s)|
    ensures IsLatest(init + [s], Merged(u, s)[k])
  {
    hide IsLatest, Covers;
    var v := Merged(u, s);
    if k < |u| && v[k] == u[k] {
      PositionOf(u, k);
      LatestStays(init, s, u[k]);
    } else {
      NewIsLatest(init, s, u);
    }
  }

  lemma {:induction false} MergedCovers(init: seq<Session>, s: Session, u: seq<Session>, key: Key)
    requires Covers(u, key) || key == KeyOf(s)
    ensures Covers(Merged(u, s), key)
  {
    var v := Merged(u, s);
    var p := Position(u, key);
    if p < |u| { assert KeyOf(v[p]) == key; } else { assert v == u + [s] && KeyOf(v[|u|]) == key; }
  }

  /** Merging keeps exactly the latest entry of every key. */
  lemma {:induction false} UniqueKeepsLatest(sessions: seq<Session>)
    ensures KeepsLatest(sessions, Unique(sessions)) && DistinctKeys(Unique(sessions))
  {
    UniqueHasDistinctKeys(sessions);
    hide DistinctKeys, IsLatest, Covers, Merged;
    if sessions != [] {
      var init, s := sessions[..|sessions| - 1], sessions[|sessions| - 1];
      UniqueKeepsLatest(init);
      assert sessions == init + [s];
      forall k | 0 <= k < |Unique(sessions)| ensures IsLatest(sessions, Unique(sessions)[k]) {
        MergedIsLatest(init, s, Unique(init), k);
      }
      forall i | 0 <= i < |sessions| ensures Covers(Unique(sessions), KeyOf(sessions[i])) {
        if i < |init| { assert Covers(Unique(init), KeyOf(init[i])); }
        MergedCovers(init, s, Unique(init), KeyOf(sessions[i]));
      }
    }
  }

  lemma {:induction false} LatestStays(init: seq<Session>, s: Session, x: Session)
    requires IsLatest(init, x) && (KeyOf(s) == KeyOf(x) ==> s.lastActivityAt < x.lastActivityAt || s == x)
    ensures IsLatest(init + [s], x)
  {
    var i :| 0 <= i < |init| && init[i] == x && Beats(init, i);
    var all := init + [s];
    if s == x { assert Beats(all, |init|); } else { assert all[i] == x && Beats(all, i); }
  }

  lemma {:induction false} NewIsLatest(init: seq<Session>, s: Session, u: seq<Session>)
    requires KeepsLatest(init, u)
    requires var p := Position(u, KeyOf(s)); p == |u| || s.lastActivityAt >= u[p].lastActivityAt
    ensures IsLatest(init + [s], s)
  {
    var all := init + [s];
    forall j | 0 <= j < |init| && KeyOf(init[j]) == KeyOf(s) ensures init[j].lastActivityAt <= s.lastActivityAt {
      assert Covers(u, KeyOf(init[j]));
      var p := Position(u, KeyOf(s));
      var i :| 0 <= i < |init| && init[i] == u[p] && Beats(init, i);
      assert j <= i || i < j;
    }
    assert all[|init|] == s && Beats(all, |init|);
  }

  predicate InRank(list: seq<Session>) {
    forall i, j :: 0 <= i < j < |list| ==> !Before(list[j], list[i])
  }

  lemma {:induction false} InsertedIsRanked(sorted: seq<Session>, s: Session)
    requires InRank(sorted)
    ensures InRank(Inserted(sorted, s))
    ensures multiset(Inserted(sorted, s)) == multiset(sorted) + multiset{s}
    ensures |Inserted(sorted, s)| == |sorted| + 1
  {
    if sorted != [] && Before(s, sorted[|sorted| - 1]) {
      var init, last := sorted[..|sorted| - 1], sorted[|sorted| - 1];
      InsertedIsRanked(init, s);
      assert sorted == init + [last];
      var t := Inserted(init, s);
      forall i | 0 <= i < |t| ensures !Before(last, t[i]) {
        assert t[i] in multiset(t);
        if t[i] != s {
          assert t[i] in multiset(init);
          var k :| 0 <= k < |init| && init[k] == t[i];
          assert sorted[k] == t[i];
        }
      }
    }
  }

  lemma {:induction false} RankedIsPermutation(list: seq<Session>)
    ensures InRank(Ranked(list)) && multiset(Ranked(list)) == multiset(list)
  {
    if list != [] {
      RankedIsPermutation(list[..|list| - 1]);
      InsertedIsRanked(Ranked(list[..|list| - 1]), list[|list| - 1]);
      assert list == list[..|list| - 1] + [list[|list| - 1]];
    }
  }

  lemma {:induction false} InsertedKeepsDistinct(sorted: seq<Session>, s: Session)
    requires DistinctKeys(sorted) && forall i :: 0 <= i < |sorted| ==> KeyOf(sorted[i]) != KeyOf(s)
    ensures DistinctKeys(Inserted(sorted, s)) && |Inserted(sorted, s)| == |sorted| + 1
    ensures forall i :: 0 <= i < |sorted| + 1 ==> Inserted(sorted, s)[i] == s || Inserted(sorted, s)[i] in sorted
  {
    if sorted != [] && Before(s, sorted[|sorted| - 1]) {
      var init, last := sorted[..|sorted| - 1], sorted[|sorted| - 1];
      InsertedKeepsDistinct(init, s);
      var t := Inserted(init, s);
      forall i | 0 <= i < |t| ensures KeyOf(t[i]) != KeyOf(last) {
        if t[i] != s {
          var k :| 0 <= k < |init| && init[k] == t[i];
          assert sorted[k] == t[i];
        }
      }
    }
  }

  lemma {:induction false} RankedKeepsDistinct(list: seq<Session>)
    requires DistinctKeys(list)
    ensures DistinctKeys(Ranked(list)) && |Ranked(list)| == |list|
    ensures forall i :: 0 <= i < |list| ==> Ranked(list)[i] in list
  {
    if list != [] {
      var init, last := list[..|list| - 1], list[|list| - 1];
      RankedKeepsDistinct(init);
      forall i | 0 <= i < |init| ensures KeyOf(Ranked(init)[i]) != KeyOf(last) {
        var k :| 0 <= k < |init| && init[k] == Ranked(init)[i];
        assert list[k] == init[k];
      }
      InsertedKeepsDistinct(Ranked(init), last);
      assert list == init + [last];
    }
  }

  /** The catalog holds the latest entry of every session once, and nothing else, in rank order. */
  lemma {:induction false} CatalogIsLatestAndRanked(sessions: seq<Session>)
    ensures var list := Ranked(Unique(sessions));
      && DistinctKeys(list) && InRank(list)
      && (forall k :: 0 <= k < |list| ==> IsLatest(sessions, list[k]))
      && multiset(list) == multiset(Unique(sessions))
      && KeepsLatest(sessions, Unique(sessions))
  {
    UniqueKeepsLatest(sessions);
    RankedKeepsDistinct(Unique(sessions));
    RankedIsPermutation(Unique(sessions));
    hide IsLatest, Covers, InRank, DistinctKeys;
    var list := Ranked(Unique(sessions));
    forall k | 0 <= k < |list| ensures IsLatest(sessions, list[k]) {
      var i :| 0 <= i < |Unique(sessions)| && Unique(sessions)[i] == list[k];
    }
  }

  /** Sessions at work come first, then those that wait, then the idle; within each the most recent first. */
  lemma {:induction false} RankIs(list: seq<Session>, i: nat, j: nat)
    requires i < j < |Ranked(list)|
    ensures var a, b := Ranked(list)[i], Ranked(list)[j];
      && (b.activity == Working ==> a.activity == Working)
      && (a.activity == Idle ==> b.activity == Idle)
      && (a.activity == b.activity ==> a.lastActivityAt >= b.lastActivityAt)
  {
    RankedIsPermutation(list);
    hide Ranked;
  }

  function Tie(s: Session, activity: Activity, at: int): seq<Session> {
    if s.activity == activity && s.lastActivityAt == at then [s] else []
  }

  /** The entries of one activity and one time, in their order. */
  function TiedAt(list: seq<Session>, activity: Activity, at: int): seq<Session> {
    if list == [] then [] else TiedAt(list[..|list| - 1], activity, at) + Tie(list[|list| - 1], activity, at)
  }

  lemma {:induction false} OneMoreTied(list: seq<Session>, s: Session, activity: Activity, at: int)
    ensures TiedAt(list + [s], activity, at) == TiedAt(list, activity, at) + Tie(s, activity, at)
  {
    hide Tie;
    assert (list + [s])[..|list|] == list;
  }

  lemma {:induction false} NoTieAcross(a: Session, b: Session, activity: Activity, at: int)
    requires Before(a, b)
    ensures Tie(a, activity, at) == [] || Tie(b, activity, at) == []
  {
  }

  lemma {:induction false} InsertedBehindTies(sorted: seq<Session>, s: Session, activity: Activity, at: int)
    ensures TiedAt(Inserted(sorted, s), activity, at) == TiedAt(sorted, activity, at) + Tie(s, activity, at)
  {
    hide Before, Tie, TiedAt;
    OneMoreTied(sorted, s, activity, at);
    if sorted != [] && Before(s, sorted[|sorted| - 1]) {
      var init, last := sorted[..|sorted| - 1], sorted[|sorted| - 1];
      InsertedBehindTies(init, s, activity, at);
      OneMoreTied(Inserted(init, s), last, activity, at);
      OneMoreTied(init, last, activity, at);
      assert init + [last] == sorted;
      NoTieAcross(s, last, activity, at);
      hide Inserted;
    }
  }

  /** Ranking is stable: entries that tie keep their order. */
  lemma {:induction false} TiesKeepTheirOrder(list: seq<Session>, activity: Activity, at: int)
    ensures TiedAt(Ranked(list), activity, at) == TiedAt(list, activity, at)
  {
    if list != [] {
      var init, last := list[..|list| - 1], list[|list| - 1];
      TiesKeepTheirOrder(init, activity, at);
      InsertedBehindTies(Ranked(init), last, activity, at);
    }
  }

  lemma {:induction false} PositionInConcat(a: seq<Session>, b: seq<Session>, key: Key)
    ensures Position(a + b, key) == if Position(a, key) < |a| then Position(a, key) else |a| + Position(b, key)
  {
    if a == [] {
      assert a + b == b;
    } else {
      assert (a + b)[1..] == a[1..] + b;
      PositionInConcat(a[1..], b, key);
    }
  }

  /** Before ranking, sessions stand in the order in which they were first seen. */
  lemma {:induction false} UniqueInFirstOrder(sessions: seq<Session>, i: nat, j: nat)
    requires i < j < |Unique(sessions)|
    ensures var list := Unique(sessions);
      Position(sessions, KeyOf(list[i])) < Position(sessions, KeyOf(list[j])) < |sessions|
  {
    var init, s := sessions[..|sessions| - 1], sessions[|sessions| - 1];
    var u, v := Unique(init), Unique(sessions);
    assert sessions == init + [s];
    assert forall k :: 0 <= k < |u| ==> KeyOf(v[k]) == KeyOf(u[k]);
    PositionInConcat(init, [s], KeyOf(v[i]));
    PositionInConcat(init, [s], KeyOf(v[j]));
    if j < |u| {
      UniqueInFirstOrder(init, i, j);
    } else {
      FirstSeen(init, i);
      NotSeen(init, KeyOf(s));
    }
  }

  lemma {:induction false} FirstSeen(sessions: seq<Session>, i: nat)
    requires i < |Unique(sessions)|
    ensures Position(sessions, KeyOf(Unique(sessions)[i])) < |sessions|
  {
    UniqueKeepsLatest(sessions);
    assert IsLatest(sessions, Unique(sessions)[i]);
  }

  lemma {:induction false} NotSeen(sessions: seq<Session>, key: Key)
    requires Position(Unique(sessions), key) == |Unique(sessions)|
    ensures Position(sessions, key) == |sessions|
  {
    UniqueKeepsLatest(sessions);
    assert forall i :: 0 <= i < |sessions| ==> Covers(Unique(sessions), KeyOf(sessions[i]));
  }
}
