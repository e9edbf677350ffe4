/**
 At-most-once delivery of relay frames: a bounded, ordered window of accepted ciphertext
 fingerprints, the fingerprints now in a handler round, and the acknowledgements sent.
 */
module ReplayWindow {
  const MAX_FINGERPRINTS := 2048

  // ---------------------------------------------------------------------------
  // The window
  // ---------------------------------------------------------------------------

  function Last(list: seq<string>, n: nat): seq<string> {
    if |list| <= n then list else list[|list| - n..]
  }

  /** Adding to an insertion-ordered set. */
  function Added(seen: seq<string>, f: string): seq<string> {
    if f in seen then seen else seen + [f]
  }

  function AddedAll(seen: seq<string>, list: seq<string>): seq<string> {
    if list == [] then seen else Added(AddedAll(seen, list[..|list| - 1]), list[|list| - 1])
  }

  /** What a saved file becomes in memory. */
  function Loaded(file: seq<string>): seq<string> {
    AddedAll([], Last(file, MAX_FINGERPRINTS))
  }

  /** The oldest fingerprint makes room, unless it is the empty string, which the code takes for none. */
  function Accepted(seen: seq<string>, f: string): seq<string> {
    var t := Added(seen, f);
    if |t| > MAX_FINGERPRINTS && t[0] != "" then t[1..] else t
  }

  class RelayMessageAcceptance {
    var seen: seq<string>
    var processing: set<string>
    /** The file on disk. */
    var file: seq<string>

    constructor (file: seq<string>)
      ensures seen == Loaded(file) && processing == {} && this.file == file
    {
      this.file := file;
      var list := Last(file, MAX_FINGERPRINTS);
      var s: seq<string> := [];
      for i := 0 to |list|
        invariant s == AddedAll([], list[..i])
      {
        assert list[..i + 1][..i] == list[..i];
        if list[i] !in s { s := s + [list[i]]; }
      }
      assert list[..|list|] == list;
      seen, processing := s, {};
    }

    method HasAccepted(f: string) returns (yes: bool)
      ensures yes <==> f in seen
    {
      yes := f in seen;
    }

    method Begin(f: string) returns (begun: bool)
      modifies `processing
      ensures begun <==> f !in old(processing)
      ensures processing == old(processing) + {f}
    {
      begun := f !in processing;
      processing := processing + {f};
    }

    /** `diskAccepts` tells whether the save succeeds; a failed save is ignored. */
    method Accept(f: string, diskAccepts: bool)
      modifies `seen, `file
      ensures seen == Accepted(old(seen), f)
      ensures file == if diskAccepts then Last(seen, MAX_FINGERPRINTS) else old(file)
    {
      if f !in seen { seen := seen + [f]; }
      if |seen| > MAX_FINGERPRINTS {
        var oldest := seen[0];
        if oldest != "" { seen := seen[1..]; }
      }
      if diskAccepts { file := Last(seen, MAX_FINGERPRINTS); }
    }

    method Finish(f: string)
      modifies `processing
      ensures processing == old(processing) - {f}
    {
      processing := processing - {f};
    }
  }

  // ---------------------------------------------------------------------------
  // The client: frames arrive and handler rounds end in any order
  // ---------------------------------------------------------------------------

  /**
   `dispatched` lists every round ever begun, `log` every fingerprint ever accepted. `history`
   lists the acceptances that no restart has lost, and the first `saved` of them were on disk
   when the last save succeeded.
   */
  datatype State = State(seen: seq<string>, processing: set<string>, file: seq<string>, rounds: map<nat, string>,
                         acknowledged: set<string>, dispatched: seq<string>,
                         log: seq<string>, history: seq<string>, saved: nat)

  datatype Event =
    | Arrives(f: string)
    | RoundEnds(round: nat, accepted: bool, diskAccepts: bool)
    | Restarts

  function Start(file: seq<string>): State {
    State(Loaded(file), {}, file, map[], {}, [], Loaded(file), Loaded(file), |Loaded(file)|)
  }

  function OnArrival(s: State, f: string): State {
    if f in s.seen then s.(acknowledged := s.acknowledged + {f})
    else if f in s.processing then s
    else s.(processing := s.processing + {f}, rounds := s.rounds[|s.dispatched| := f], dispatched := s.dispatched + [f])
  }

  function OnRoundEnd(s: State, round: nat, accepted: bool, diskAccepts: bool): State {
    if round !in s.rounds then s
    else
      var f := s.rounds[round];
      var t := s.(rounds := s.rounds - {round}, processing := s.processing - {f});
      if !accepted then t
      else
        var seen := Accepted(s.seen, f);
        t.(seen := seen, file := if diskAccepts then Last(seen, MAX_FINGERPRINTS) else s.file,
           acknowledged := s.acknowledged + {f}, log := s.log + [f], history := s.history + [f],
           saved := if diskAccepts then |s.history| + 1 else s.saved)
  }

  function OnRestart(s: State): State {
    s.(seen := Loaded(s.file), processing := {}, rounds := map[],
       history := if s.saved <= |s.history| then s.history[..s.saved] else s.history)
  }

  function Next(s: State, e: Event): State {
    match e
    case Arrives(f) => OnArrival(s, f)
    case RoundEnds(round, accepted, diskAccepts) => OnRoundEnd(s, round, accepted, diskAccepts)
    case Restarts => OnRestart(s)
  }

  function Run(s: State, events: seq<Event>): State {
    if events == [] then s else Next(Run(s, events[..|events| - 1]), events[|events| - 1])
  }

  /** A fingerprint is the digest of a ciphertext, and not the empty string. */
  predicate AreReal(events: seq<Event>) {
    forall i :: 0 <= i < |events| && events[i].Arrives? ==> events[i].f != ""
  }

  predicate Distinct(list: seq<string>) {
    forall i, j :: 0 <= i < |list| && 0 <= j < |list| && i != j ==> list[i] != list[j]
  }

  // ---------------------------------------------------------------------------
  // Rounds and acknowledgements
  // ---------------------------------------------------------------------------

  ghost predicate RoundsOk(s: State) {
    && (forall r :: r in s.rounds ==> s.rounds[r] in s.processing && s.rounds[r] !in s.seen && r < |s.dispatched|)
    && (forall f :: f in s.processing ==> exists r :: r in s.rounds && s.rounds[r] == f)
    && (forall r, q :: r in s.rounds && q in s.rounds && s.rounds[r] == s.rounds[q] ==> r == q)
    && (forall f :: f in s.acknowledged ==> f in s.log)
    && (forall f :: f in s.seen ==> f in s.history)
    && (forall f :: f in s.history ==> f in s.log)
  }

  lemma {:induction false} AcceptedMembers(seen: seq<string>, f: string)
    ensures forall g :: g in Accepted(seen, f) ==> g in seen || g == f
  {
  }

  lemma {:induction false} ArrivalKeepsRounds(s: State, f: string)
    requires RoundsOk(s)
    ensures RoundsOk(OnArrival(s, f))
  {
    var t := OnArrival(s, f);
    if f !in s.seen && f !in s.processing {
      assert t.rounds[|s.dispatched|] == f;
      forall g | g in t.processing ensures exists r :: r in t.rounds && t.rounds[r] == g {
        if g != f {
          var r :| r in s.rounds && s.rounds[r] == g;
          assert t.rounds[r] == g;
        }
      }
    }
  }

  lemma {:induction false} RoundEndKeepsRounds(s: State, round: nat, accepted: bool, diskAccepts: bool)
    requires RoundsOk(s)
    ensures RoundsOk(OnRoundEnd(s, round, accepted, diskAccepts))
  {
    if round in s.rounds {
      var f := s.rounds[round];
      var t := OnRoundEnd(s, round, accepted, diskAccepts);
      AcceptedMembers(s.seen, f);
      hide Accepted;
      forall g | g in t.processing ensures exists r :: r in t.rounds && t.rounds[r] == g {
        var r :| r in s.rounds && s.rounds[r] == g;
        assert r != round;
        assert t.rounds[r] == g;
      }
    }
  }

  // ---------------------------------------------------------------------------
  // The window holds the last accepted fingerprints
  // ---------------------------------------------------------------------------

  lemma {:induction false} AddedAllOfDistinct(list: seq<string>)
    requires Distinct(list)
    ensures AddedAll([], list) == list
  {
    if list != [] {
      var init := list[..|list| - 1];
      AddedAllOfDistinct(init);
      assert list == init + [list[|list| - 1]];
      assert list[|list| - 1] !in init;
    }
  }

  lemma {:induction false} AddedAllIsSound(list: seq<string>)
    ensures Distinct(AddedAll([], list)) && |AddedAll([], list)| <= |list|
    ensures forall f :: f in AddedAll([], list) ==> f in list
  {
    if list != [] { AddedAllIsSound(list[..|list| - 1]); }
  }

  lemma {:induction false} LoadedIsSound(file: seq<string>)
    ensures Distinct(Loaded(file)) && |Loaded(file)| <= MAX_FINGERPRINTS
    ensures Last(Loaded(file), MAX_FINGERPRINTS) == Loaded(file)
  {
    AddedAllIsSound(Last(file, MAX_FINGERPRINTS));
  }

  lemma {:induction false} LastIsDistinct(list: seq<string>, n: nat)
    requires Distinct(list)
    ensures Distinct(Last(list, n)) && |Last(list, n)| <= n && Last(Last(list, n), n) == Last(list, n)
  {
  }

  /** A restart after a save that succeeded brings back the same window in the same order. */
  lemma {:induction false} SavedWindowSurvives(seen: seq<string>)
    requires Distinct(seen)
    ensures Loaded(Last(seen, MAX_FINGERPRINTS)) == Last(seen, MAX_FINGERPRINTS)
    ensures |seen| <= MAX_FINGERPRINTS ==> Loaded(Last(seen, MAX_FINGERPRINTS)) == seen
  {
    LastIsDistinct(seen, MAX_FINGERPRINTS);
    AddedAllOfDistinct(Last(seen, MAX_FINGERPRINTS));
    hide Distinct;
  }

  /** The window is a stretch of the latest acceptances, at least the last 2048 of them. */
  predicate IsWindow(seen: seq<string>, history: seq<string>) {
    && |seen| <= |history| && seen == history[|history| - |seen|..]
    && (|seen| >= MAX_FINGERPRINTS || |seen| == |history|)
  }

  lemma {:induction false} AppendedIsDistinct(seen: seq<string>, f: string)
    requires Distinct(seen) && f !in seen
    ensures Distinct(seen + [f])
  {
    forall i | 0 <= i < |seen| ensures (seen + [f])[i] != f { assert seen[i] in seen; }
  }

  lemma {:induction false} RestIsDistinct(list: seq<string>)
    requires Distinct(list) && list != []
    ensures Distinct(list[1..])
  {
  }

  lemma {:induction false} AppendedSuffix(history: seq<string>, d: nat, f: string)
    requires d <= |history|
    ensures history[d..] + [f] == (history + [f])[d..] && (history[d..] + [f])[1..] == (history + [f])[d + 1..]
  {
  }

  /** One more acceptance keeps a full window full, and forgets at most the oldest. */
  lemma {:induction false} AcceptedWindow(seen: seq<string>, history: seq<string>, f: string)
    requires IsWindow(seen, history) && Distinct(seen) && f !in seen
    ensures IsWindow(Accepted(seen, f), history + [f]) && Distinct(Accepted(seen, f))
  {
    AppendedSuffix(history, |history| - |seen|, f);
    AppendedIsDistinct(seen, f);
    RestIsDistinct(seen + [f]);
    hide Distinct;
  }

  lemma {:induction false} LastOfWindow(seen: seq<string>, history: seq<string>)
    requires IsWindow(seen, history)
    ensures Last(seen, MAX_FINGERPRINTS) == Last(history, MAX_FINGERPRINTS)
    ensures |seen| <= MAX_FINGERPRINTS ==> seen == Last(history, MAX_FINGERPRINTS)
  {
  }

  lemma {:induction false} LastIsWindow(history: seq<string>)
    ensures IsWindow(Last(history, MAX_FINGERPRINTS), history)
  {
  }

  /** What is on disk is the window as it was when the last save succeeded. */
  ghost predicate FileOk(s: State) {
    && s.saved <= |s.history|
    && Loaded(s.file) == Last(s.history[..s.saved], MAX_FINGERPRINTS)
    && Distinct(Loaded(s.file))
  }

  ghost predicate WindowOk(s: State) {
    RoundsOk(s) && FileOk(s) && IsWindow(s.seen, s.history) && Distinct(s.seen)
  }

  lemma {:induction false} AcceptanceKeepsFile(s: State, f: string, diskAccepts: bool, t: State)
    requires FileOk(s) && t.history == s.history + [f] && IsWindow(t.seen, t.history) && Distinct(t.seen)
    requires t.saved == if diskAccepts then |t.history| else s.saved
    requires t.file == if diskAccepts then Last(t.seen, MAX_FINGERPRINTS) else s.file
    ensures FileOk(t)
  {
    hide Loaded, IsWindow, Last, Distinct;
    if diskAccepts {
      SavedWindowSurvives(t.seen);
      LastOfWindow(t.seen, t.history);
      LastIsDistinct(t.seen, MAX_FINGERPRINTS);
      assert t.history[..t.saved] == t.history;
    } else {
      assert t.history[..t.saved] == s.history[..s.saved];
    }
  }

  lemma {:induction false} RestartKeepsRounds(s: State)
    requires RoundsOk(s) && FileOk(s)
    ensures RoundsOk(OnRestart(s))
  {
    hide Loaded;
  }

  lemma {:induction false} RestartKeepsWindow(s: State)
    requires WindowOk(s)
    ensures WindowOk(OnRestart(s))
  {
    RestartKeepsRounds(s);
    LastIsWindow(s.history[..s.saved]);
    hide RoundsOk, Loaded, Distinct, Last, IsWindow;
    assert s.history[..s.saved][..s.saved] == s.history[..s.saved];
  }

  lemma {:induction false} RoundEndKeepsWindow(s: State, round: nat, accepted: bool, diskAccepts: bool)
    requires WindowOk(s)
    ensures WindowOk(OnRoundEnd(s, round, accepted, diskAccepts))
  {
    RoundEndKeepsRounds(s, round, accepted, diskAccepts);
    if round in s.rounds && accepted {
      assert s.rounds[round] !in s.seen;
      hide RoundsOk;
      AcceptedWindow(s.seen, s.history, s.rounds[round]);
      hide Accepted, Last, Loaded, FileOk, Distinct, IsWindow;
      AcceptanceKeepsFile(s, s.rounds[round], diskAccepts, OnRoundEnd(s, round, accepted, diskAccepts));
    }
  }

  lemma {:induction false} WindowStep(s: State, e: Event)
    requires WindowOk(s)
    ensures WindowOk(Next(s, e))
  {
    hide OnRoundEnd, OnRestart, RoundsOk, Distinct, IsWindow, Loaded;
    match e
    case Arrives(f) => ArrivalKeepsRounds(s, f);
    case RoundEnds(round, accepted, diskAccepts) => RoundEndKeepsWindow(s, round, accepted, diskAccepts);
    case Restarts => RestartKeepsWindow(s);
  }

  lemma {:induction false} RunKeepsWindow(file: seq<string>, events: seq<Event>)
    ensures WindowOk(Run(Start(file), events))
  {
    hide WindowOk, Next, Loaded, Start;
    if events == [] {
      StartIsOk(file);
    } else {
      RunKeepsWindow(file, events[..|events| - 1]);
      WindowStep(Run(Start(file), events[..|events| - 1]), events[|events| - 1]);
    }
  }

  lemma {:induction false} StartIsOk(file: seq<string>)
    ensures WindowOk(Start(file))
  {
    LoadedIsSound(file);
    LastIsWindow(Loaded(file));
    hide Loaded, Distinct, Last, IsWindow;
    assert Loaded(file)[..|Loaded(file)|] == Loaded(file);
  }

  /**
   Over all interleavings, restarts and failed saves: a fingerprint is in at most one round at
   a time, only accepted fingerprints are acknowledged, and a fingerprint that is dispatched
   again has at least 2048 later acceptances behind it, of those that no restart has lost.
   */
  lemma {:induction false} AtMostOnceInTheWindow(file: seq<string>, events: seq<Event>, f: string, k: nat)
    requires var s := Run(Start(file), events); Next(s, Arrives(f)).dispatched != s.dispatched
    ensures var s := Run(Start(file), events);
      && (forall r :: r in s.rounds ==> s.rounds[r] != f)
      && (forall r, q :: r in s.rounds && q in s.rounds && s.rounds[r] == s.rounds[q] ==> r == q)
      && (forall g :: g in s.acknowledged ==> g in s.log)
      && (k < |s.history| && s.history[k] == f ==> |s.history| - k > MAX_FINGERPRINTS)
  {
    hide FileOk, Distinct, Loaded, Start;
    RunKeepsWindow(file, events);
    var s := Run(Start(file), events);
    hide Run;
    if k < |s.history| && |s.history| - k <= MAX_FINGERPRINTS {
      assert s.seen[k - (|s.history| - |s.seen|)] == s.history[k];
    }
  }

  // ---------------------------------------------------------------------------
  // Saves that failed
  // ---------------------------------------------------------------------------

  lemma {:induction false} SavedStep(s: State, e: Event, k: nat)
    requires k <= s.saved <= |s.history|
    ensures var t := Next(s, e); k <= t.saved <= |t.history| && t.history[..k] == s.history[..k]
  {
  }

  /** What one successful save has covered is lost by no later restart, whatever saves fail after it. */
  lemma {:induction false} SavedIsNeverLost(s: State, more: seq<Event>, k: nat)
    requires k <= s.saved <= |s.history|
    ensures var t := Run(s, more); k <= t.saved <= |t.history| && t.history[..k] == s.history[..k]
  {
    hide Next;
    if more != [] {
      SavedIsNeverLost(s, more[..|more| - 1], k);
      SavedStep(Run(s, more[..|more| - 1]), more[|more| - 1], k);
    }
  }

  /**
   After a restart a fingerprint is dispatched exactly when it is not among the last 2048
   acceptances that the last successful save covered: an acceptance since then is forgotten.
   */
  lemma {:induction false} DispatchedAfterRestartExactlyWhen(file: seq<string>, events: seq<Event>, f: string)
    ensures var s := Run(Start(file), events);
      var t := Next(s, Restarts);
      && s.saved <= |s.history|
      && (Next(t, Arrives(f)).dispatched == s.dispatched + [f]
          <==> f !in Last(s.history[..s.saved], MAX_FINGERPRINTS))
  {
    hide Distinct, Loaded, Start, RoundsOk, Last, IsWindow;
    RunKeepsWindow(file, events);
    hide Run;
  }

  /** A save that fails and a restart: an acknowledged message is dispatched a second time. */
  lemma {:induction false} FailedSaveDispatchesAgain() returns (s: State)
    ensures s == Run(Start([]), [Arrives("a"), RoundEnds(0, true, false), Restarts, Arrives("a")])
    ensures "a" in s.acknowledged && s.log == ["a"] && s.dispatched == ["a", "a"]
  {
    var events := [Arrives("a"), RoundEnds(0, true, false), Restarts, Arrives("a")];
    assert Loaded([]) == [] by { assert Last([], MAX_FINGERPRINTS) == []; }
    assert events[..3][..2][..1][..0] == [];
    var s1 := Next(Start([]), events[0]);
    assert s1.rounds == map[0 := "a"];
    var s2 := Next(s1, events[1]);
    assert s2.file == [] && s2.acknowledged == {"a"};
    var s3 := Next(s2, events[2]);
    assert s3.seen == [];
    s := Next(s3, events[3]);
    assert events[..1] == [events[0]] && events[..1][..0] == [];
    assert Run(Start([]), events[..1]) == s1;
    assert events[..2][..1] == events[..1] && events[..3][..2] == events[..2];
    assert Run(Start([]), events[..2]) == s2;
    assert Run(Start([]), events[..3]) == s3;
  }

  // ---------------------------------------------------------------------------
  // The bound, and the empty fingerprint
  // ---------------------------------------------------------------------------

  /** What a run needs to stay in bounds: nothing empty in the window, on disk, or in a round. */
  ghost predicate BoundOk(s: State) {
    && |s.seen| <= MAX_FINGERPRINTS && "" !in s.seen
    && "" !in Loaded(s.file)
    && (forall r :: r in s.rounds ==> s.rounds[r] != "")
  }

  lemma {:induction false} AcceptedIsBounded(seen: seq<string>, f: string)
    requires |seen| <= MAX_FINGERPRINTS && "" !in seen && f != ""
    ensures |Accepted(seen, f)| <= MAX_FINGERPRINTS && "" !in Accepted(seen, f)
  {
    assert |seen| > 0 ==> seen[0] in seen;
  }

  lemma {:induction false} LoadedMembers(file: seq<string>)
    ensures forall f :: f in Loaded(file) ==> f in file
  {
    AddedAllIsSound(Last(file, MAX_FINGERPRINTS));
  }

  lemma {:induction false} BoundStep(s: State, e: Event)
    requires BoundOk(s) && AreReal([e])
    ensures BoundOk(Next(s, e))
  {
    hide Loaded, Accepted;
    match e
    case Arrives(f) => assert [e][0] == e;
    case Restarts => LoadedIsSound(s.file);
    case RoundEnds(round, _, _) =>
      if round in s.rounds {
        AcceptedIsBounded(s.seen, s.rounds[round]);
        LoadedMembers(Last(Accepted(s.seen, s.rounds[round]), MAX_FINGERPRINTS));
      }
  }

  lemma {:induction false} RunKeepsBound(file: seq<string>, events: seq<Event>)
    requires "" !in Loaded(file) && AreReal(events)
    ensures BoundOk(Run(Start(file), events))
  {
    LoadedIsSound(file);
    hide Next, Loaded;
    if events != [] {
      RunKeepsBound(file, events[..|events| - 1]);
      assert AreReal([events[|events| - 1]]);
      hide BoundOk;
      BoundStep(Run(Start(file), events[..|events| - 1]), events[|events| - 1]);
    }
  }

  /** In bounds, the window is exactly the last 2048 acceptances. */
  lemma {:induction false} WindowIsTheLast(file: seq<string>, events: seq<Event>)
    requires "" !in Loaded(file) && AreReal(events)
    ensures var s := Run(Start(file), events); s.seen == Last(s.history, MAX_FINGERPRINTS)
  {
    RunKeepsWindow(file, events);
    RunKeepsBound(file, events);
    LastOfWindow(Run(Start(file), events).seen, Run(Start(file), events).history);
    hide Last, IsWindow, Run, Start, Loaded;
  }

  function AcceptedAll(seen: seq<string>, fs: seq<string>): seq<string> {
    if fs == [] then seen else Accepted(AcceptedAll(seen, fs[..|fs| - 1]), fs[|fs| - 1])
  }

  /** How many of `n` fingerprints the window has dropped when the empty one stands at `k`. */
  function Dropped(n: nat, k: nat): nat {
    if n <= MAX_FINGERPRINTS then 0 else if n - MAX_FINGERPRINTS <= k then n - MAX_FINGERPRINTS else k
  }

  /** The window drops its oldest one by one until the empty fingerprint is the oldest, and nothing after that. */
  lemma {:induction false} WindowGrows(seen: seq<string>, fs: seq<string>, k: nat)
    requires k < |seen| <= MAX_FINGERPRINTS && seen[k] == "" && Distinct(seen + fs)
    ensures AcceptedAll(seen, fs) == (seen + fs)[Dropped(|seen + fs|, k)..]
  {
    if fs == [] {
      assert seen + fs == seen;
    } else {
      var init, f := fs[..|fs| - 1], fs[|fs| - 1];
      assert seen + fs == (seen + init) + [f];
      PrefixIsDistinct(seen + init, f);
      WindowGrows(seen, init, k);
      hide Distinct, Dropped, Accepted;
      OneMoreGrows(seen + init, f, k);
    }
  }

  lemma {:induction false} PrefixIsDistinct(list: seq<string>, f: string)
    requires Distinct(list + [f])
    ensures Distinct(list) && f !in list
  {
    var all := list + [f];
    assert forall i :: 0 <= i < |list| ==> all[i] == list[i];
    assert all[|list|] == f;
  }

  lemma {:induction false} OneMoreGrows(list: seq<string>, f: string, k: nat)
    requires k < |list| && list[k] == "" && Distinct(list) && f !in list
    ensures Accepted(list[Dropped(|list|, k)..], f) == (list + [f])[Dropped(|list| + 1, k)..]
  {
    var d := Dropped(|list|, k);
    var w := list[d..];
    AppendedSuffix(list, d, f);
    assert w[0] == list[d] && (list[d] == "" <==> d == k);
    assert f !in w;
    hide Distinct;
  }

  /** Fingerprints that no window of this file holds: longer than all of them, each of its own length. */
  function Letters(n: nat): (f: string)
    ensures |f| == n
  {
    seq(n, i => 'a')
  }

  function TotalLength(list: seq<string>): nat {
    if list == [] then 0 else TotalLength(list[..|list| - 1]) + |list[|list| - 1]|
  }

  lemma {:induction false} NoneIsLonger(list: seq<string>, i: nat)
    requires i < |list|
    ensures |list[i]| <= TotalLength(list)
  {
    if i < |list| - 1 { NoneIsLonger(list[..|list| - 1], i); }
  }

  function FreshOnes(list: seq<string>, n: nat): (fs: seq<string>)
    ensures |fs| == n
  {
    seq(n, i requires 0 <= i < n => Letters(TotalLength(list) + 1 + i))
  }

  lemma {:induction false} FreshOnesAreNew(list: seq<string>, n: nat)
    requires Distinct(list)
    ensures Distinct(list + FreshOnes(list, n))
    ensures forall i :: 0 <= i < n ==> FreshOnes(list, n)[i] != ""
  {
    var fs := FreshOnes(list, n);
    var all := list + fs;
    forall i | 0 <= i < n ensures |fs[i]| == TotalLength(list) + 1 + i {
      assert fs[i] == Letters(TotalLength(list) + 1 + i);
    }
    hide FreshOnes;
    forall i, j | 0 <= i < j < |all| ensures all[i] != all[j] {
      if i < |list| {
        NoneIsLonger(list, i);
        if j >= |list| { assert |all[j]| > TotalLength(list); }
      } else {
        assert |all[i]| < |all[j]|;
      }
    }
  }

  /** Every fingerprint arrives, and its round ends well and is saved. */
  function Deliveries(fs: seq<string>): seq<Event> {
    if fs == [] then []
    else Deliveries(fs[..|fs| - 1]) + [Arrives(fs[|fs| - 1]), RoundEnds(|fs| - 1, true, true)]
  }

  lemma {:induction false} DeliveriesAreReal(fs: seq<string>)
    requires forall i :: 0 <= i < |fs| ==> fs[i] != ""
    ensures AreReal(Deliveries(fs)) && |Deliveries(fs)| == 2 * |fs|
  {
    if fs != [] { DeliveriesAreReal(fs[..|fs| - 1]); }
  }

  lemma {:induction false} RunTwo(s: State, events: seq<Event>, a: Event, b: Event)
    ensures Run(s, events + [a, b]) == Next(Next(Run(s, events), a), b)
  {
    var all := events + [a, b];
    assert all[..|all| - 1] == events + [a];
    assert (events + [a])[..|events|] == events;
  }

  lemma {:induction false} Delivered(s: State, f: string)
    requires s.rounds == map[] && s.processing == {} && f !in s.seen
    ensures var t := Next(Next(s, Arrives(f)), RoundEnds(|s.dispatched|, true, true));
      && t.seen == Accepted(s.seen, f)
      && t.rounds == map[] && t.processing == {} && |t.dispatched| == |s.dispatched| + 1
  {
  }

  lemma {:induction false} AcceptedAllMembers(seen: seq<string>, fs: seq<string>)
    ensures forall g :: g in AcceptedAll(seen, fs) ==> g in seen || g in fs
  {
    hide Accepted;
    if fs != [] {
      AcceptedAllMembers(seen, fs[..|fs| - 1]);
      AcceptedMembers(AcceptedAll(seen, fs[..|fs| - 1]), fs[|fs| - 1]);
    }
  }

  /** A client that accepts new fingerprints one after the other has the window they make. */
  lemma {:induction false} DeliveredWindow(file: seq<string>, fs: seq<string>)
    requires Distinct(Loaded(file) + fs)
    ensures var s := Run(Start(file), Deliveries(fs));
      s.seen == AcceptedAll(Loaded(file), fs) && s.rounds == map[] && s.processing == {} && |s.dispatched| == |fs|
  {
    hide Loaded, Accepted;
    if fs != [] {
      var init, f := fs[..|fs| - 1], fs[|fs| - 1];
      var list := Loaded(file);
      assert forall i :: 0 <= i < |list + init| ==> (list + init)[i] == (list + fs)[i];
      DeliveredWindow(file, init);
      var s := Run(Start(file), Deliveries(init));
      AcceptedAllMembers(list, init);
      assert init + [f] == fs;
      NewToAll(list, init, f);
      Delivered(s, f);
      RunTwo(Start(file), Deliveries(init), Arrives(f), RoundEnds(|init|, true, true));
      hide Next, Run;
    }
  }

  lemma {:induction false} NewToAll(list: seq<string>, init: seq<string>, f: string)
    requires Distinct(list + (init + [f]))
    ensures f !in list && f !in init
  {
    var all := list + (init + [f]);
    assert all[|all| - 1] == f;
    forall i | 0 <= i < |list| ensures list[i] != f { assert all[i] == list[i]; }
    forall i | 0 <= i < |init| ensures init[i] != f { assert all[|list| + i] == init[i]; }
  }

  /**
   Behind an empty fingerprint that a file brought in, the window grows with every message:
   after `n` new ones it holds at least `n`, however many the bound allows.
   */
  lemma {:induction false} EmptyFingerprintStopsEviction(file: seq<string>, n: nat) returns (events: seq<Event>)
    requires "" in Loaded(file)
    ensures AreReal(events) && |events| == 2 * n && |Run(Start(file), events).seen| > n
  {
    LoadedIsSound(file);
    hide Loaded;
    var list := Loaded(file);
    var k :| 0 <= k < |list| && list[k] == "";
    var fs := FreshOnes(list, n);
    FreshOnesAreNew(list, n);
    events := Deliveries(fs);
    hide FreshOnes;
    DeliveriesAreReal(fs);
    DeliveredWindow(file, fs);
    WindowGrows(list, fs, k);
    hide Run, Start, AcceptedAll, Deliveries;
  }

  /** Every run of real fingerprints, with any restarts and failed saves, keeps the window within its bound. */
  ghost predicate StaysBounded(file: seq<string>) {
    forall events: seq<Event> :: AreReal(events) ==> |Run(Start(file), events).seen| <= MAX_FINGERPRINTS
  }

  /** The window stays bounded exactly when the file brings in no empty fingerprint. */
  lemma {:induction false} BoundedExactlyWhen(file: seq<string>)
    ensures StaysBounded(file) <==> "" !in Loaded(file)
  {
    hide Loaded, Run, Start;
    if "" in Loaded(file) {
      var events := EmptyFingerprintStopsEviction(file, MAX_FINGERPRINTS);
    } else {
      forall events: seq<Event> | AreReal(events) ensures |Run(Start(file), events).seen| <= MAX_FINGERPRINTS {
        RunKeepsBound(file, events);
      }
    }
  }

  // ---------------------------------------------------------------------------
  // What each event does
  // ---------------------------------------------------------------------------

  /**
   An accepted fingerprint is acknowledged again and not dispatched, one in a round waits, and any
   other is dispatched.
   */
  lemma {:induction false} ArrivalIs(s: State, f: string)
    ensures var t := Next(s, Arrives(f));
      && t.seen == s.seen && t.file == s.file && t.history == s.history && t.log == s.log && t.saved == s.saved
      && t.acknowledged == (if f in s.seen then s.acknowledged + {f} else s.acknowledged)
      && t.dispatched == s.dispatched + (if f in s.seen || f in s.processing then [] else [f])
      && t.processing == (if f in s.seen then s.processing else s.processing + {f})
  {
    if f in s.processing { assert s.processing + {f} == s.processing; }
  }

  /**
   A round that was taken in acknowledges its fingerprint and puts it at the end of the window,
   whose oldest one leaves beyond 2048 unless it is empty; a save writes the last 2048. A round
   that was not leaves its fingerprint to be dispatched again.
   */
  lemma {:induction false} RoundEndIs(file: seq<string>, events: seq<Event>, round: nat, accepted: bool, disk: bool)
    requires round in Run(Start(file), events).rounds
    ensures var s := Run(Start(file), events);
      var t := Next(s, RoundEnds(round, accepted, disk));
      var f := s.rounds[round];
      && t.processing == s.processing - {f} && t.dispatched == s.dispatched
      && if !accepted then
           t.seen == s.seen && t.acknowledged == s.acknowledged && t.file == s.file && t.history == s.history
         else
           && t.acknowledged == s.acknowledged + {f} && t.history == s.history + [f]
           && t.seen == (if |s.seen| >= 2048 && (s.seen + [f])[0] != "" then (s.seen + [f])[1..] else s.seen + [f])
           && t.file == (if !disk then s.file else if |t.seen| <= 2048 then t.seen else t.seen[|t.seen| - 2048..])
           && t.saved == (if disk then |t.history| else s.saved)
  {
    RunKeepsRounds(file, events);
    hide Run;
  }

  lemma {:induction false} RunKeepsRounds(file: seq<string>, events: seq<Event>)
    ensures RoundsOk(Run(Start(file), events))
  {
    RunKeepsWindow(file, events);
  }

  /** A restart forgets every round and reads the file, of which it takes the last 2048. */
  lemma {:induction false} RestartIs(s: State)
    ensures var t := Next(s, Restarts);
      var latest := if |s.file| <= 2048 then s.file else s.file[|s.file| - 2048..];
      && t.processing == {} && t.rounds == map[] && t.file == s.file && t.acknowledged == s.acknowledged
      && (forall f :: f in t.seen <==> f in latest)
      && ((forall i, j :: 0 <= i < j < |latest| ==> latest[i] != latest[j]) ==> t.seen == latest)
  {
    var latest := Last(s.file, MAX_FINGERPRINTS);
    AddedAllMembers(latest);
    if forall i, j :: 0 <= i < j < |latest| ==> latest[i] != latest[j] { AddedAllOfDistinct(latest); }
  }

  lemma {:induction false} AddedAllMembers(list: seq<string>)
    ensures forall f :: f in AddedAll([], list) <==> f in list
  {
    if list != [] {
      var init, last := list[..|list| - 1], list[|list| - 1];
      AddedAllMembers(init);
      assert forall f :: f in list <==> f in init || f == last by { assert list == init + [last]; }
    }
  }
}
