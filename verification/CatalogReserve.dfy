/** Cutting the ranked catalog to a limit while every agent keeps a reserve of its best entries. */
module CatalogReserve {
  import opened SessionCatalog

  /** How many entries of the same agent rank above entry `i`. */
  function Above(list: seq<Session>, agent: string, i: nat): nat
    requires i <= |list|
  {
    if i == 0 then 0 else Above(list, agent, i - 1) + if list[i - 1].agent == agent then 1 else 0
  }

  lemma {:induction false} AboveCounts(list: seq<Session>, agent: string, i: nat)
    requires i <= |list|
    ensures Above(list, agent, i) == |set j | 0 <= j < i && list[j].agent == agent|
  {
    var upTo := set j | 0 <= j < i && list[j].agent == agent;
    if i > 0 {
      AboveCounts(list, agent, i - 1);
      var before := set j | 0 <= j < i - 1 && list[j].agent == agent;
      assert upTo == before + (if list[i - 1].agent == agent then {i - 1} else {});
    } else {
      assert upTo == {};
    }
  }

  predicate InReserve(list: seq<Session>, i: nat, reserve: nat)
    requires i < |list|
  {
    Above(list, list[i].agent, i) < reserve
  }

  function Agents(list: seq<Session>): seq<string> {
    if list == [] then []
    else
      var rest := Agents(list[..|list| - 1]);
      if list[|list| - 1].agent in rest then rest else rest + [list[|list| - 1].agent]
  }

  /** The picked entries in their original order. */
  function Selected(list: seq<Session>, picked: set<Key>): seq<Session> {
    if list == [] then []
    else Selected(list[..|list| - 1], picked) + if KeyOf(list[|list| - 1]) in picked then [list[|list| - 1]] else []
  }

  function KeysIn(list: seq<Session>): set<Key> {
    if list == [] then {} else KeysIn(list[..|list| - 1]) + {KeyOf(list[|list| - 1])}
  }

  lemma {:induction false} KeysInMembers(list: seq<Session>)
    ensures forall i :: 0 <= i < |list| ==> KeyOf(list[i]) in KeysIn(list)
    ensures forall k :: k in KeysIn(list) ==> exists i :: 0 <= i < |list| && KeyOf(list[i]) == k
  {
    if list != [] {
      var init := list[..|list| - 1];
      KeysInMembers(init);
      forall k | k in KeysIn(list) ensures exists i :: 0 <= i < |list| && KeyOf(list[i]) == k {
        if k in KeysIn(init) {
          var i :| 0 <= i < |init| && KeyOf(init[i]) == k;
          assert list[i] == init[i];
        } else {
          assert KeyOf(list[|list| - 1]) == k;
        }
      }
    }
  }

  lemma {:induction false} AboveGrows(list: seq<Session>, agent: string, i: nat, j: nat)
    requires i <= j <= |list|
    ensures Above(list, agent, i) <= Above(list, agent, j)
  {
    if i < j { AboveGrows(list, agent, i, j - 1); }
  }

  lemma {:induction false} AgentsAreAll(list: seq<Session>)
    ensures forall i :: 0 <= i < |list| ==> list[i].agent in Agents(list)
    ensures forall i, j ::
      0 <= i < |Agents(list)| && 0 <= j < |Agents(list)| && i != j ==> Agents(list)[i] != Agents(list)[j]
  {
    if list != [] { AgentsAreAll(list[..|list| - 1]); }
  }

  /** Entry `i` is of agent `a` and stands before every entry of agent `b`. */
  predicate LeadsAt(list: seq<Session>, a: string, b: string, i: nat) {
    i < |list| && list[i].agent == a && forall j :: 0 <= j < |list| && list[j].agent == b ==> i < j
  }

  /** The agents take their turns in the order in which they first appear. */
  lemma {:induction false} AgentsInFirstOrder(list: seq<Session>, x: nat, y: nat) returns (i: nat)
    requires x < y < |Agents(list)|
    ensures LeadsAt(list, Agents(list)[x], Agents(list)[y], i)
  {
    var init, last := list[..|list| - 1], list[|list| - 1];
    AgentsAreAll(init);
    if y < |Agents(init)| {
      i := AgentsInFirstOrder(init, x, y);
    } else {
      AgentIsThere(init, x);
      i :| 0 <= i < |init| && init[i].agent == Agents(init)[x];
    }
    assert forall j :: 0 <= j < |init| ==> list[j] == init[j];
  }

  lemma {:induction false} AgentIsThere(list: seq<Session>, x: nat)
    requires x < |Agents(list)|
    ensures exists i :: 0 <= i < |list| && list[i].agent == Agents(list)[x]
  {
    if x < |Agents(list[..|list| - 1])| {
      AgentIsThere(list[..|list| - 1], x);
      var i :| 0 <= i < |list| - 1 && list[..|list| - 1][i].agent == Agents(list)[x];
      assert list[i].agent == Agents(list)[x];
    } else {
      assert list[|list| - 1].agent == Agents(list)[x];
    }
  }

  lemma {:induction false} LastIsNew(list: seq<Session>)
    requires DistinctKeys(list) && list != []
    ensures KeyOf(list[|list| - 1]) !in KeysIn(list[..|list| - 1])
  {
    KeysInMembers(list[..|list| - 1]);
  }

  lemma {:induction false} SelectedSize(list: seq<Session>, picked: set<Key>)
    requires DistinctKeys(list)
    ensures |Selected(list, picked)| == |picked * KeysIn(list)|
  {
    if list != [] {
      var init, key := list[..|list| - 1], KeyOf(list[|list| - 1]);
      SelectedSize(init, picked);
      LastIsNew(list);
      assert picked * KeysIn(list) == picked * KeysIn(init) + (if key in picked then {key} else {});
    }
  }

  /** The whole reserve of these agents is picked. */
  predicate ReservedSoFar(list: seq<Session>, picked: set<Key>, agents: seq<string>, reserve: nat) {
    forall i :: 0 <= i < |list| && list[i].agent in agents && InReserve(list, i, reserve) ==> KeyOf(list[i]) in picked
  }

  /** Whatever is picked is in its agent's reserve. */
  predicate OnlyReserved(list: seq<Session>, picked: set<Key>, reserve: nat) {
    forall k :: k in picked ==> exists i :: 0 <= i < |list| && KeyOf(list[i]) == k && InReserve(list, i, reserve)
  }

  /** The entries of one agent above `i` that are in its reserve are picked. */
  predicate ReservedTo(list: seq<Session>, picked: set<Key>, agent: string, reserve: nat, i: nat)
    requires i <= |list|
  {
    forall j :: 0 <= j < i && list[j].agent == agent && InReserve(list, j, reserve) ==> KeyOf(list[j]) in picked
  }

  /** The reserve of one agent, as far as entry `m`. */
  function ReserveKeys(list: seq<Session>, agent: string, reserve: nat, m: nat): set<Key>
    requires m <= |list|
  {
    set i | 0 <= i < m && list[i].agent == agent && InReserve(list, i, reserve) :: KeyOf(list[i])
  }

  lemma {:induction false} OneMoreKey(list: seq<Session>, agent: string, reserve: nat, m: nat)
    requires m < |list|
    ensures ReserveKeys(list, agent, reserve, m + 1) == ReserveKeys(list, agent, reserve, m)
      + (if list[m].agent == agent && InReserve(list, m, reserve) then {KeyOf(list[m])} else {})
  {
    hide Above;
  }

  predicate Earlier(agents: seq<string>, a: string, b: string) {
    exists x, y :: 0 <= x < y < |agents| && agents[x] == a && agents[y] == b
  }

  /** Of two reserved entries, the one whose agent comes first, or which ranks higher for the same agent. */
  predicate HasTurnBefore(list: seq<Session>, agents: seq<string>, j: nat, i: nat)
    requires i < |list| && j < |list|
  {
    Earlier(agents, list[j].agent, list[i].agent) || (list[j].agent == list[i].agent && j < i)
  }

  /** No reserved entry is passed over for one that has its turn later. */
  predicate InTurn(list: seq<Session>, picked: set<Key>, agents: seq<string>, reserve: nat) {
    forall i, j | 0 <= i < |list| && 0 <= j < |list| && InReserve(list, i, reserve) && InReserve(list, j, reserve) ::
      KeyOf(list[i]) !in picked && KeyOf(list[j]) in picked ==> HasTurnBefore(list, agents, j, i)
  }

  lemma {:induction false} TurnStep(list: seq<Session>, before: set<Key>, agents: seq<string>, n: nat,
        reserve: nat, m: nat)
    requires DistinctKeys(list) && n < |agents| && m <= |list|
    requires forall i :: 0 <= i < |list| ==> list[i].agent in agents
    requires InTurn(list, before, agents, reserve) && ReservedSoFar(list, before, agents[..n], reserve)
    ensures InTurn(list, before + ReserveKeys(list, agents[n], reserve, m), agents, reserve)
  {
    hide InReserve, HasTurnBefore;
    var picked := before + ReserveKeys(list, agents[n], reserve, m);
    forall i, j | 0 <= i < |list| && 0 <= j < |list| && InReserve(list, i, reserve) && InReserve(list, j, reserve)
        && KeyOf(list[i]) !in picked && KeyOf(list[j]) in picked
      ensures HasTurnBefore(list, agents, j, i)
    {
      if KeyOf(list[j]) !in before { NewHasTurnBefore(list, before, agents, n, reserve, m, j, i); }
    }
  }

  lemma {:induction false} NewHasTurnBefore(list: seq<Session>, before: set<Key>, agents: seq<string>, n: nat,
        reserve: nat, m: nat, j: nat, i: nat)
    requires DistinctKeys(list) && n < |agents| && m <= |list| && i < |list| && j < |list|
    requires list[i].agent in agents && ReservedSoFar(list, before, agents[..n], reserve)
    requires InReserve(list, i, reserve) && KeyOf(list[i]) !in before + ReserveKeys(list, agents[n], reserve, m)
    requires KeyOf(list[j]) in ReserveKeys(list, agents[n], reserve, m)
    ensures HasTurnBefore(list, agents, j, i)
  {
    hide InReserve;
    var k :| 0 <= k < m && KeyOf(list[k]) == KeyOf(list[j]) && list[k].agent == agents[n]
      && InReserve(list, k, reserve);
    assert k == j;
    if list[i].agent != agents[n] {
      var y :| 0 <= y < |agents| && agents[y] == list[i].agent;
      assert list[i].agent !in agents[..n];
      assert forall x :: 0 <= x < n ==> agents[x] in agents[..n];
    } else {
      assert forall x :: 0 <= x < m && list[x].agent == agents[n] && InReserve(list, x, reserve) ==>
        KeyOf(list[x]) in ReserveKeys(list, agents[n], reserve, m);
    }
  }

  lemma {:induction false} OneMoreReserved(list: seq<Session>, picked: set<Key>, agent: string, reserve: nat, i: nat)
    requires i < |list| && ReservedTo(list, picked, agent, reserve, i)
    ensures ReservedTo(list, picked + {KeyOf(list[i])}, agent, reserve, i + 1)
    ensures list[i].agent != agent || reserve <= Above(list, agent, i)
      ==> ReservedTo(list, picked, agent, reserve, i + 1)
  {
    hide Above;
  }

  lemma {:induction false} OneMoreOnlyReserved(list: seq<Session>, picked: set<Key>, reserve: nat, i: nat)
    requires OnlyReserved(list, picked, reserve) && i < |list| && InReserve(list, i, reserve)
    ensures OnlyReserved(list, picked + {KeyOf(list[i])}, reserve)
  {
    hide InReserve;
  }

  /** Picks the reserve of one agent, in rank order, until the limit is reached. */
  method PickReserve(list: seq<Session>, picked0: set<Key>, agent: string, limit: nat,
        reserve: nat) returns (picked: set<Key>, ghost m: nat)
    requires |picked0| <= limit && OnlyReserved(list, picked0, reserve)
    ensures m <= |list| && picked == picked0 + ReserveKeys(list, agent, reserve, m)
    ensures picked0 <= picked && |picked| <= limit && |picked| <= |picked0| + reserve
    ensures OnlyReserved(list, picked, reserve)
    ensures |picked| < limit || |picked0| + reserve <= limit ==> ReservedSoFar(list, picked, [agent], reserve)
  {
    hide OnlyReserved, ReservedTo, ReserveKeys;
    picked, m := picked0, 0;
    var taken: nat := 0;
    assert ReserveKeys(list, agent, reserve, 0) == {} by { NoKeys(list, agent, reserve); }
    ReservedToNone(list, picked, agent, reserve);
    for i := 0 to |list|
      invariant picked0 <= picked && |picked| <= limit && |picked| <= |picked0| + taken && taken <= reserve
      invariant taken == Above(list, agent, i) || taken == reserve <= Above(list, agent, i)
      invariant OnlyReserved(list, picked, reserve)
      invariant ReservedTo(list, picked, agent, reserve, i)
      invariant m == i && picked == picked0 + ReserveKeys(list, agent, reserve, i)
    {
      OneMoreReserved(list, picked, agent, reserve, i);
      OneMoreKey(list, agent, reserve, i);
      if list[i].agent == agent && taken < reserve {
        if |picked| >= limit { return; }
        OneMoreOnlyReserved(list, picked, reserve, i);
        picked := picked + {KeyOf(list[i])};
        taken := taken + 1;
      }
      m := i + 1;
    }
    ReservedToAll(list, picked, agent, reserve);
  }

  lemma {:induction false} NoKeys(list: seq<Session>, agent: string, reserve: nat)
    ensures ReserveKeys(list, agent, reserve, 0) == {}
  {
  }

  lemma {:induction false} ReservedToNone(list: seq<Session>, picked: set<Key>, agent: string, reserve: nat)
    ensures ReservedTo(list, picked, agent, reserve, 0)
  {
  }

  lemma {:induction false} ReservedToAll(list: seq<Session>, picked: set<Key>, agent: string, reserve: nat)
    requires ReservedTo(list, picked, agent, reserve, |list|)
    ensures ReservedSoFar(list, picked, [agent], reserve)
  {
    hide InReserve;
  }

  /** Everything above entry `n` is picked, and what is picked from there on is in its agent's reserve. */
  predicate FilledTo(list: seq<Session>, picked: set<Key>, reserve: nat, n: nat) {
    && n <= |list|
    && (forall i :: 0 <= i < n ==> KeyOf(list[i]) in picked)
    && (forall i :: n <= i < |list| && KeyOf(list[i]) in picked ==> InReserve(list, i, reserve))
  }

  lemma {:induction false} OnlyReservedByIndex(list: seq<Session>, picked: set<Key>, reserve: nat, i: nat)
    requires DistinctKeys(list) && OnlyReserved(list, picked, reserve) && i < |list| && KeyOf(list[i]) in picked
    ensures InReserve(list, i, reserve)
  {
    var k :| 0 <= k < |list| && KeyOf(list[k]) == KeyOf(list[i]) && InReserve(list, k, reserve);
  }

  lemma {:induction false} NothingIsReserved(list: seq<Session>, reserve: nat)
    ensures OnlyReserved(list, {}, reserve) && ReservedSoFar(list, {}, [], reserve)
  {
  }

  lemma {:induction false} ReservedForMore(list: seq<Session>, before: set<Key>, picked: set<Key>,
        agents: seq<string>, agent: string, reserve: nat)
    requires before <= picked && ReservedSoFar(list, before, agents, reserve)
      && ReservedSoFar(list, picked, [agent], reserve)
    ensures ReservedSoFar(list, picked, agents + [agent], reserve)
  {
    hide InReserve;
  }

  /** The reserves of all agents, one agent after the other. */
  method PickReserves(list: seq<Session>, limit: nat, reserve: nat) returns (picked: set<Key>)
    requires DistinctKeys(list)
    ensures InTurn(list, picked, Agents(list), reserve)
    ensures |picked| <= limit && OnlyReserved(list, picked, reserve)
    ensures |picked| < limit || |Agents(list)| * reserve <= limit ==> ReservedSoFar(list, picked, Agents(list), reserve)
  {
    hide Agents, InReserve, OnlyReserved, ReservedSoFar, InTurn, ReserveKeys;
    AgentsAreAll(list);
    var agents := Agents(list);
    picked := {};
    NothingIsReserved(list, reserve);
    assert InTurn(list, picked, agents, reserve) by { NobodysTurn(list, agents, reserve); }
    ghost var fits := |agents| * reserve <= limit;
    ghost var used: nat := 0;
    assert |agents| * reserve == used + (|agents| - 0) * reserve;
    for n := 0 to |agents|
      invariant |picked| <= limit && |picked| <= used && OnlyReserved(list, picked, reserve)
      invariant fits ==> used + (|agents| - n) * reserve <= limit
      invariant |picked| < limit || fits ==> ReservedSoFar(list, picked, agents[..n], reserve)
      invariant InTurn(list, picked, agents, reserve)
    {
      OneMore(|agents| - n, reserve);
      ghost var before := picked;
      ghost var m;
      picked, m := PickReserve(list, picked, agents[n], limit, reserve);
      if |before| < limit {
        TurnStep(list, before, agents, n, reserve, m);
      } else {
        SubsetIsSmaller(before, picked);
        SameSize(before, picked);
      }
      used := used + reserve;
      assert agents[..n + 1] == agents[..n] + [agents[n]];
      if |picked| < limit || fits {
        SubsetIsSmaller(before, picked);
        ReservedForMore(list, before, picked, agents[..n], agents[n], reserve);
      }
    }
    assert agents[..|agents|] == agents;
  }

  lemma {:induction false} NobodysTurn(list: seq<Session>, agents: seq<string>, reserve: nat)
    ensures InTurn(list, {}, agents, reserve)
  {
  }

  lemma {:induction false} SameSize<T>(a: set<T>, b: set<T>)
    requires a <= b && |b| <= |a|
    ensures a == b
  {
    assert b == a + (b - a);
  }

  lemma {:induction false} OneMore(n: nat, reserve: nat)
    requires n > 0
    ensures n * reserve == reserve + (n - 1) * reserve && (n - 1) * reserve >= 0
  {
  }

  /** Fills the rest from the top, until the limit is reached. */
  method FillUp(list: seq<Session>, picked0: set<Key>, limit: nat, ghost reserve: nat) returns (picked: set<Key>,
        ghost n: nat)
    requires DistinctKeys(list) && |picked0| <= limit && OnlyReserved(list, picked0, reserve)
    ensures picked0 <= picked <= KeysIn(list) && |picked| <= limit && FilledTo(list, picked, reserve, n)
    ensures |picked| < limit ==> n == |list|
  {
    picked, n := picked0, 0;
    KeysInMembers(list);
    forall i | 0 <= i < |list| && KeyOf(list[i]) in picked ensures InReserve(list, i, reserve) {
      OnlyReservedByIndex(list, picked, reserve, i);
    }
    for i := 0 to |list|
      invariant n == i && picked0 <= picked <= KeysIn(list) && |picked| <= limit && FilledTo(list, picked, reserve, i)
    {
      if |picked| >= limit { break; }
      picked := picked + {KeyOf(list[i])};
      n := i + 1;
    }
  }

  lemma {:induction false} SelectedKeys(list: seq<Session>, picked: set<Key>)
    ensures KeysIn(Selected(list, picked)) == picked * KeysIn(list)
  {
    if list != [] {
      var init, last := list[..|list| - 1], list[|list| - 1];
      SelectedKeys(init, picked);
      var s := Selected(init, picked);
      if KeyOf(last) in picked { assert (s + [last])[..|s|] == s; } else { assert s + [] == s; }
    }
  }

  lemma {:induction false} SelectedAll(list: seq<Session>, picked: set<Key>)
    requires KeysIn(list) <= picked
    ensures Selected(list, picked) == list
  {
    if list != [] {
      assert list == list[..|list| - 1] + [list[|list| - 1]];
      SelectedAll(list[..|list| - 1], picked);
    }
  }

  lemma {:induction false} KeysInSize(list: seq<Session>)
    requires DistinctKeys(list)
    ensures |KeysIn(list)| == |list|
  {
    SelectedAll(list, KeysIn(list));
    SelectedSize(list, KeysIn(list));
    assert KeysIn(list) * KeysIn(list) == KeysIn(list);
  }

  lemma {:induction false} SubsetIsSmaller<T>(a: set<T>, b: set<T>)
    requires a <= b
    ensures |a| <= |b|
  {
    assert |b - a| == |b| - |a * b|;
    assert a * b == a;
  }

  lemma {:induction false} FullUnlessAll(list: seq<Session>, picked: set<Key>, limit: nat, n: nat)
    requires DistinctKeys(list) && |list| > limit && |picked| <= limit && n <= |list|
    requires forall i :: 0 <= i < n ==> KeyOf(list[i]) in picked
    requires |picked| < limit ==> n == |list|
    ensures |picked| == limit
  {
    KeysInMembers(list);
    KeysInSize(list);
    if n == |list| { SubsetIsSmaller(KeysIn(list), picked); }
  }

  predicate IsPicked(result: seq<Session>, s: Session) {
    KeyOf(s) in KeysIn(result)
  }

  /**
   The cut keeps the order, fills the limit, gives every agent its whole reserve when the
   reserves fit, and passes over a higher entry only for one in its agent's reserve.
   */
  method PickWithReserve(list: seq<Session>, limit: nat, reserve: nat) returns (result: seq<Session>)
    requires DistinctKeys(list)
    ensures result == Selected(list, KeysIn(result)) && KeysIn(result) <= KeysIn(list)
    ensures |result| == if |list| <= limit then |list| else limit
    ensures |Agents(list)| * reserve <= limit ==>
      forall i :: 0 <= i < |list| && InReserve(list, i, reserve) ==> IsPicked(result, list[i])
    ensures forall i, j :: 0 <= j < i < |list| && IsPicked(result, list[i]) && !IsPicked(result, list[j]) ==>
      InReserve(list, i, reserve)
    ensures forall i, j | 0 <= i < |list| && 0 <= j < |list| && InReserve(list, i, reserve) ::
      !IsPicked(result, list[i]) && IsPicked(result, list[j]) ==>
        InReserve(list, j, reserve) && HasTurnBefore(list, Agents(list), j, i)
  {
    hide InReserve, KeysIn, Selected, Agents, HasTurnBefore;
    if |list| <= limit {
      SelectedAll(list, KeysIn(list));
      KeysInMembers(list);
      return list;
    }
    var reserved := PickReserves(list, limit, reserve);
    ghost var n;
    var picked;
    picked, n := FillUp(list, reserved, limit, reserve);
    result := Selected(list, picked);
    SelectedKeys(list, picked);
    assert KeysIn(result) == picked;
    AgentsAreAll(list);
    FullUnlessAll(list, picked, limit, n);
    SelectedSize(list, picked);
    assert picked * KeysIn(list) == picked;
    if |reserved| < limit {
      AllReservedPicked(list, reserved, picked, reserve);
    } else {
      SameSize(reserved, picked);
      TurnsAreKept(list, picked, reserve);
    }
  }

  lemma {:induction false} AllReservedPicked(list: seq<Session>, reserved: set<Key>, picked: set<Key>, reserve: nat)
    requires reserved <= picked && ReservedSoFar(list, reserved, Agents(list), reserve)
    ensures forall i :: 0 <= i < |list| && InReserve(list, i, reserve) ==> KeyOf(list[i]) in picked
  {
    hide InReserve, Agents;
    AgentsAreAll(list);
  }

  lemma {:induction false} TurnsAreKept(list: seq<Session>, picked: set<Key>, reserve: nat)
    requires DistinctKeys(list) && OnlyReserved(list, picked, reserve)
    requires InTurn(list, picked, Agents(list), reserve)
    ensures forall i, j | 0 <= i < |list| && 0 <= j < |list| && InReserve(list, i, reserve) ::
      KeyOf(list[i]) !in picked && KeyOf(list[j]) in picked ==>
        InReserve(list, j, reserve) && HasTurnBefore(list, Agents(list), j, i)
  {
    hide InReserve, Agents, HasTurnBefore, OnlyReserved;
    forall j | 0 <= j < |list| && KeyOf(list[j]) in picked ensures InReserve(list, j, reserve) {
      OnlyReservedByIndex(list, picked, reserve, j);
    }
  }
}
