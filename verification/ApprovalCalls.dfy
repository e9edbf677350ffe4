/**
 What one call on the approval registry does when nobody disturbs it: a sequential account
 of every call, from every reachable state, written without the program's steps.
 */
module ApprovalCalls {
  import opened Basics
  import opened Approvals
  import opened ApprovalAgreement
  import Theorems = ApprovalTheorems

  // ---------------------------------------------------------------------------
  // Sessions, requests and handles
  // ---------------------------------------------------------------------------

  /** Nothing but blanks. */
  predicate AllBlank(s: string) {
    forall i :: 0 <= i < |s| ==> s[i] in " \t\r\n"
  }

  lemma {:induction false} TrimLeftOf(s: string) returns (n: nat)
    ensures n <= |s| && TrimLeft(s) == s[n..] && AllBlank(s[..n])
    ensures TrimLeft(s) != [] ==> TrimLeft(s)[0] !in " \t\r\n"
  {
    n := 0;
    if s != [] && IsBlank(s[0]) {
      n := TrimLeftOf(s[1..]);
      assert s[1..][n..] == s[n + 1..];
      assert s[..n + 1] == [s[0]] + s[1..][..n];
      n := n + 1;
    }
  }

  lemma {:induction false} TrimRightOf(s: string) returns (n: nat)
    ensures n <= |s| && TrimRight(s) == s[..n] && AllBlank(s[n..])
    ensures TrimRight(s) != [] ==> TrimRight(s)[|TrimRight(s)| - 1] !in " \t\r\n"
  {
    n := |s|;
    if s != [] && IsBlank(s[|s| - 1]) {
      n := TrimRightOf(s[..|s| - 1]);
      assert s[..|s| - 1][..n] == s[..n];
      assert s[n..] == s[..|s| - 1][n..] + [s[|s| - 1]];
    }
  }

  /** A session id counts without the blanks around it, and one of blanks only counts as none. */
  lemma {:induction false} NormalizedIs(s: string)
    ensures NormalizedSession(Some(s)) == None <==> AllBlank(s)
    ensures NormalizedSession(Some(s)).Some? ==>
      var t := NormalizedSession(Some(s)).value;
      && t != [] && t[0] !in " \t\r\n" && t[|t| - 1] !in " \t\r\n"
      && exists i: nat, j: nat :: i <= j <= |s| && t == s[i..j] && AllBlank(s[..i]) && AllBlank(s[j..])
  {
    var i := TrimLeftOf(s);
    var left := TrimLeft(s);
    var n := TrimRightOf(left);
    var t := TrimRight(left);
    assert t == s[i..i + n];
    assert s[i + n..] == left[n..];
    assert s == s[..i] + t + s[i + n..];
    hide TrimLeft, TrimRight;
    if t == [] {
      assert s == s[..i] + s[i..];
    } else {
      assert s[i] == t[0];
      assert i <= i + n <= |s| && AllBlank(s[..i]) && AllBlank(s[i + n..]);
    }
  }

  predicate SameSession(a: Option<string>, b: Option<string>) {
    NormalizedSession(a) == NormalizedSession(b)
  }

  predicate SameRequest(a: Request, b: Request) {
    a.id == b.id && SameSession(a.session, b.session) && a.isQuestion == b.isQuestion && a.body == b.body
  }

  /** No handle, or the handle of this very registration. */
  predicate Fits(handle: Option<Handle>, r: Record) {
    handle.None?
    || (&& handle.value.requestId == r.request.id && SameSession(handle.value.session, r.request.session)
        && handle.value.generation == r.generation && handle.value.fingerprint == r.fingerprint)
  }

  /** The call means this registration, and an allowed question comes with its answers. */
  predicate Concerns(c: Call, r: Record) {
    match c
    case Accept(d, _, handle) =>
      Fits(handle, r) && SameSession(d.session, r.request.session)
      && !(r.request.isQuestion && d.verdict == Allow && !d.answers)
    case MarkTerminal(_, _, options, _, handle) => Fits(handle, r) && SameSession(options.session, r.request.session)
    case ReadOutcome(_, session, handle) => Fits(handle, r) && SameSession(session, r.request.session)
    case _ => false
  }

  // ---------------------------------------------------------------------------
  // The sequential account
  // ---------------------------------------------------------------------------

  /** What a call that resolves the request puts on record. */
  function OutcomeOf(c: Call, r: Record): Outcome
    requires c.Accept? || c.MarkTerminal?
  {
    var session := NormalizedSession(r.request.session);
    match c
    case Accept(d, now, _) =>
      if now <= r.updatedAt + 300_000 then
        Decided(Decision(d.requestId, d.verdict, session, if d.decidedAt == 0 then now else d.decidedAt,
                         d.answers, d.decidedBy))
      else Terminal(Expired, Resolved(d.requestId, Expired, Some(Deny), session, Some("system"), now))
    case MarkTerminal(id, status, options, now, _) =>
      Terminal(status, Resolved(id, status, options.verdict, session, options.decidedBy,
                                match options.resolvedAt case Some(at) => at case None => now))
  }

  /** The answer to a call that nobody disturbs. */
  function SoleAnswer(s: Store, c: Call): Answer
    requires c.Accept? || c.MarkTerminal? || c.ReadOutcome?
  {
    if Target(c) !in s.records || !Concerns(c, s.records[Target(c)]) then NoMatch
    else
      var r := s.records[Target(c)];
      if NameOf(r) in s.winners then Resolution(r, s.winners[NameOf(r)].outcome, false)
      else if c.ReadOutcome? then NoMatch
      else Resolution(r, OutcomeOf(c, r), true)
  }

  /** What it leaves behind: nothing, or one new winner for the registration on disk. */
  predicate SoleEffect(s: Store, c: Call, t: Store)
    requires c.Accept? || c.MarkTerminal? || c.ReadOutcome?
  {
    && t.records == s.records && t.removed == s.removed && t.published == s.published
    && t.winners == match SoleAnswer(s, c)
         case Resolution(r, outcome, true) =>
           var now := if c.Accept? then c.now else if c.MarkTerminal? then c.now else 0;
           var session := NormalizedSession(r.request.session);
           s.winners[NameOf(r) := Winner(r.request.id, session, r.generation, now, outcome)]
         case _ => s.winners
  }

  function Advances(s: System, p: Pid, n: nat): System {
    if n == 0 then s else Next(Advances(s, p, n - 1), Advance(p))
  }

  /** The call starts, and takes its steps with nobody in between. */
  function Undisturbed(s: System, p: Pid, c: Call): System {
    Advances(Next(s, Spawn(p, c)), p, 8)
  }

  lemma {:induction false} DoneStays(s: System, p: Pid, n: nat)
    requires p in s.processes && s.processes[p].pc.Done?
    ensures Advances(s, p, n) == s
  {
    DoneStands(s, p);
    hide Next;
    if n > 0 { DoneStays(s, p, n - 1); }
  }

  lemma {:induction false} DoneStands(s: System, p: Pid)
    requires p in s.processes && s.processes[p].pc.Done?
    ensures Next(s, Advance(p)) == s
  {
  }

  lemma {:induction false} AdvancesOn(s: System, p: Pid, m: nat, n: nat)
    ensures Advances(Advances(s, p, m), p, n) == Advances(s, p, m + n)
  {
    hide Next;
    if n > 0 { AdvancesOn(s, p, m, n - 1); }
  }

  /** Once answered, the remaining steps change nothing. */
  lemma {:induction false} AnsweredAt(s: System, p: Pid, m: nat, n: nat, t: System)
    requires m <= n && Advances(s, p, m) == t && p in t.processes && t.processes[p].pc.Done?
    ensures Advances(s, p, n) == t
  {
    hide Next;
    AdvancesOn(s, p, m, n - m);
    DoneStays(t, p, n - m);
  }

  lemma {:induction false} FourSteps(s: System, p: Pid)
    ensures Advances(s, p, 1) == Next(s, Advance(p))
    ensures Advances(s, p, 2) == Next(Next(s, Advance(p)), Advance(p))
    ensures Advances(s, p, 4) == Next(Next(Next(Next(s, Advance(p)), Advance(p)), Advance(p)), Advance(p))
  {
    hide Next;
    assert Advances(s, p, 0) == s;
    assert Advances(s, p, 1) == Next(s, Advance(p));
    assert Advances(s, p, 2) == Next(Next(s, Advance(p)), Advance(p));
    assert Advances(s, p, 3) == Next(Next(Next(s, Advance(p)), Advance(p)), Advance(p));
  }

  lemma {:induction false} DiskIsAsRead(s: Store, id: string)
    requires StoreOk(s)
    ensures LookupRecord(s, id) == if id in s.records then Some(s.records[id]) else None
    ensures id in s.records ==>
      var r := s.records[id];
      && r.request.id == id
      && LookupWinner(s, r) == if NameOf(r) in s.winners then Some(s.winners[NameOf(r)]) else None
  {
    if id in s.records && NameOf(s.records[id]) in s.winners { WinnerOnDisk(s, s.records[id]); }
    hide LinksOk, PublishedOk;
  }

  lemma {:induction false} ConcernsIsAdmits(r: Record, c: Call)
    requires c.Accept? || c.MarkTerminal? || c.ReadOutcome?
    ensures Concerns(c, r) <==> Admits(r, c)
  {
    hide NormalizedSession;
  }

  /** Where a call stands after it has read the record. */
  lemma {:induction false} ReadsRecord(s: System, p: Pid)
    requires StoreOk(s.store) && p in s.processes && s.processes[p].pc == AtRecord
    requires var c := Acting(s.processes[p]); c.Accept? || c.MarkTerminal? || c.ReadOutcome?
    ensures var c := Acting(s.processes[p]);
      Next(s, Advance(p)) == Goto(s, p,
        if Target(c) in s.store.records && Concerns(c, s.store.records[Target(c)])
        then AtWinner(s.store.records[Target(c)]) else Done(NoMatch))
  {
    var c := Acting(s.processes[p]);
    DiskIsAsRead(s.store, Target(c));
    if Target(c) in s.store.records { ConcernsIsAdmits(s.store.records[Target(c)], c); }
    hide StoreOk, Acting, Admits, Concerns, LookupRecord;
  }

  /** A contender that finds the name free links its winner and is told so. */
  lemma {:induction false} ContenderWins(s: System, p: Pid, r: Record, w: Winner)
    requires p in s.processes && s.processes[p].pc == AtCandidate(r, w) && NameOf(r) !in s.store.winners
    ensures Advances(s, p, 4) ==
      Goto(s, p, Done(Resolution(r, w.outcome, true)))
        .(store := AddLink(s.store, NameOf(r), Link(p, Acting(s.processes[p]), w)), candidates := s.candidates - {p})
  {
    hide OnRecord, OnWinner, OnPrune, OnWriteRecord, OnChmodRecord;
    FourSteps(s, p);
    var s1 := Next(s, Advance(p));
    assert s1 == Goto(s, p, AtLink(r, w)).(candidates := s.candidates[p := w]);
    assert Acting(s1.processes[p]) == Acting(s.processes[p]);
    hide Acting;
    var s2 := Next(s1, Advance(p));
    assert s2.processes[p].pc == AtChmod(r, w);
    var s3 := Next(s2, Advance(p));
    assert s3.processes[p].pc == AtUnlink(Resolution(r, w.outcome, true));
    var t := Next(s3, Advance(p));
    assert t.candidates == s.candidates[p := w] - {p} == s.candidates - {p};
  }

  /** What a call does with the record it has read, while nobody resolves the request. */
  lemma {:induction false} ReadsWinner(s: System, p: Pid, r: Record)
    requires StoreOk(s.store) && p in s.processes && s.processes[p].pc == AtWinner(r)
    requires r.request.id in s.store.records && s.store.records[r.request.id] == r
    requires var c := Acting(s.processes[p]); c.Accept? || c.MarkTerminal? || c.ReadOutcome?
    ensures var c := Acting(s.processes[p]);
      var t := Next(s, Advance(p));
      if NameOf(r) in s.store.winners then
        t == Goto(s, p, Done(Resolution(r, s.store.winners[NameOf(r)].outcome, false)))
      else if c.ReadOutcome? then t == Goto(s, p, Done(NoMatch))
      else if c.Accept? && c.now > r.updatedAt + 300_000 then
        t == s.(processes := s.processes[p := s.processes[p].(expiring := Some(r), pc := AtRecord)])
      else t == Goto(s, p, AtCandidate(r, WinnerFor(r, OutcomeOf(c, r), c.now)))
  {
    DiskIsAsRead(s.store, r.request.id);
    var c := Acting(s.processes[p]);
    hide StoreOk, Acting, LookupWinner, NormalizedSession;
  }

  /** The call is answered after a few of its own steps, and the rest change nothing. */
  predicate EndsIn(s: System, p: Pid, s0: System, c: Call, n: nat)
    requires c.Accept? || c.MarkTerminal? || c.ReadOutcome?
  {
    var t := Advances(s, p, n);
    && p in t.processes && t.processes[p].pc == Done(SoleAnswer(s0.store, c))
    && SoleEffect(s0.store, c, t.store)
  }

  lemma {:induction false} SoleWin(s: System, p: Pid, s0: System, c: Call, r: Record)
    requires c.Accept? || c.MarkTerminal?
    requires s.store == s0.store && p in s.processes
    requires Target(c) in s.store.records && s.store.records[Target(c)] == r && Concerns(c, r)
    requires NameOf(r) !in s.store.winners
    requires s.processes[p].pc == AtCandidate(r, WinnerFor(r, OutcomeOf(c, r), c.now))
    ensures EndsIn(s, p, s0, c, 4)
  {
    ContenderWins(s, p, r, WinnerFor(r, OutcomeOf(c, r), c.now));
    hide Advances, OutcomeOf, Concerns, Acting;
  }

  /** Late, the decision goes through as an expiry. */
  lemma {:induction false} SoleExpiry(s: System, p: Pid, s0: System, c: Call, r: Record)
    requires c.Accept? && c.now > r.updatedAt + 300_000
    requires s.store == s0.store && StoreOk(s.store) && p in s.processes
    requires s.processes[p] == Process(c, Some(r), AtRecord)
    requires Target(c) in s.store.records && s.store.records[Target(c)] == r && Concerns(c, r)
    requires NameOf(r) !in s.store.winners
    ensures EndsIn(s, p, s0, c, 6)
  {
    ExpiryContends(s, p, c, r);
    FourSteps(s, p);
    var s2 := Next(Next(s, Advance(p)), Advance(p));
    assert Advances(s, p, 2) == s2;
    hide *;
    SoleWin(s2, p, s0, c, r);
    EndsOn(s, p, s0, c, 2, 4);
  }

  lemma {:induction false} ExpiryContends(s: System, p: Pid, c: Call, r: Record)
    requires c.Accept? && c.now > r.updatedAt + 300_000
    requires StoreOk(s.store) && p in s.processes && s.processes[p] == Process(c, Some(r), AtRecord)
    requires Target(c) in s.store.records && s.store.records[Target(c)] == r && Concerns(c, r)
    requires NameOf(r) !in s.store.winners
    ensures var t := Next(Next(s, Advance(p)), Advance(p));
      && t.store == s.store && p in t.processes
      && t.processes[p].pc == AtCandidate(r, WinnerFor(r, OutcomeOf(c, r), c.now))
  {
    var e := ExpiryOf(c, r);
    NormalizedTwice(r.request.session);
    DiskIsAsRead(s.store, Target(c));
    assert Concerns(e, r) && OutcomeOf(e, r) == OutcomeOf(c, r) && Target(e) == Target(c) == r.request.id;
    ReadsRecord(s, p);
    var s1 := Next(s, Advance(p));
    assert s1.processes[p] == Process(c, Some(r), AtWinner(r)) && s1.store == s.store;
    ReadsWinner(s1, p, r);
    hide StoreOk, Concerns, OutcomeOf, NormalizedSession, Next, WinnerFor;
  }

  lemma {:induction false} EndsOn(s: System, p: Pid, s0: System, c: Call, m: nat, n: nat)
    requires c.Accept? || c.MarkTerminal? || c.ReadOutcome?
    requires EndsIn(Advances(s, p, m), p, s0, c, n)
    ensures EndsIn(s, p, s0, c, m + n)
  {
    hide Next, Advances, SoleAnswer, SoleEffect;
    AdvancesOn(s, p, m, n);
  }

  lemma {:induction false} SoleEnd(s: System, p: Pid, s0: System, c: Call, m: nat, n: nat)
    requires c.Accept? || c.MarkTerminal? || c.ReadOutcome?
    requires EndsIn(s, p, s0, c, m) && m <= n
    ensures EndsIn(s, p, s0, c, n)
  {
    hide Next, SoleAnswer, SoleEffect;
    AnsweredAt(s, p, m, n, Advances(s, p, m));
  }

  lemma {:induction false} SoleAnswered(s: System, p: Pid, s0: System, c: Call, r: Record)
    requires c.Accept? || c.MarkTerminal? || c.ReadOutcome?
    requires s.store == s0.store && StoreOk(s.store) && p in s.processes
    requires s.processes[p] == Process(c, None, AtWinner(r))
    requires Target(c) in s.store.records && s.store.records[Target(c)] == r && Concerns(c, r)
    requires NameOf(r) in s.store.winners || c.ReadOutcome?
    ensures EndsIn(s, p, s0, c, 1)
  {
    DiskIsAsRead(s.store, Target(c));
    ReadsWinner(s, p, r);
    FourSteps(s, p);
    hide StoreOk, Next, Advances, Concerns, OutcomeOf;
    assert Acting(s.processes[p]) == c;
    hide Acting;
    var t := Advances(s, p, 1);
    assert t.store == s.store && t.processes[p].pc == Done(SoleAnswer(s.store, c));
  }

  /** A call that has found its record, and that nobody disturbs. */
  lemma {:induction false} SoleAtWinner(s: System, p: Pid, s0: System, c: Call, r: Record)
    requires c.Accept? || c.MarkTerminal? || c.ReadOutcome?
    requires s.store == s0.store && StoreOk(s.store) && p in s.processes
    requires s.processes[p] == Process(c, None, AtWinner(r))
    requires Target(c) in s.store.records && s.store.records[Target(c)] == r && Concerns(c, r)
    ensures EndsIn(s, p, s0, c, 7)
  {
    DiskIsAsRead(s.store, Target(c));
    if NameOf(r) in s.store.winners || c.ReadOutcome? {
      hide StoreOk, Next, Advances, Concerns, EndsIn;
      SoleAnswered(s, p, s0, c, r);
      SoleEnd(s, p, s0, c, 1, 7);
    } else {
      ReadsWinner(s, p, r);
      FourSteps(s, p);
      hide StoreOk, Next, Advances, Concerns, EndsIn, OutcomeOf, WinnerFor;
      var t := Next(s, Advance(p));
      assert t == Advances(s, p, 1);
      if t.processes[p].pc.AtRecord? {
        SoleExpiry(t, p, s0, c, r);
        EndsOn(s, p, s0, c, 1, 6);
      } else {
        SoleWin(t, p, s0, c, r);
        EndsOn(s, p, s0, c, 1, 4);
        SoleEnd(s, p, s0, c, 5, 7);
      }
    }
  }

  lemma {:induction false} StartsAlone(s: System, p: Pid, c: Call)
    requires c.Accept? || c.MarkTerminal? || c.ReadOutcome?
    requires StoreOk(s.store) && p !in s.processes && MayCall(s, c)
    ensures EndsIn(Next(s, Spawn(p, c)), p, s, c, 8)
  {
    var s1 := Next(s, Spawn(p, c));
    assert s1.processes[p] == Process(c, None, AtRecord) && s1.store == s.store;
    ReadsRecord(s1, p);
    FourSteps(s1, p);
    var s2 := Next(s1, Advance(p));
    hide StoreOk, Next, Concerns, OutcomeOf;
    if s2.processes[p].pc.AtWinner? {
      hide EndsIn, Advances;
      SoleAtWinner(s2, p, s, c, s.store.records[Target(c)]);
      EndsOn(s1, p, s, c, 1, 7);
    } else {
      assert EndsIn(s1, p, s, c, 1);
      hide EndsIn, Advances;
      SoleEnd(s1, p, s, c, 1, 8);
    }
  }

  lemma {:induction false} AdvancesReach(s: System, p: Pid, n: nat)
    requires Theorems.Reachable(s)
    ensures Theorems.Reachable(Advances(s, p, n))
  {
    hide Next, Theorems.Reachable;
    if n > 0 {
      AdvancesReach(s, p, n - 1);
      Theorems.Step(Advances(s, p, n - 1), Advance(p));
    }
  }

  lemma {:induction false} UndisturbedIsReachable(s: System, p: Pid, c: Call)
    requires Theorems.Reachable(s)
    ensures Theorems.Reachable(Undisturbed(s, p, c))
  {
    hide Next, Theorems.Reachable, Advances;
    Theorems.Step(s, Spawn(p, c));
    AdvancesReach(Next(s, Spawn(p, c)), p, 8);
  }

  /** The answer and the effect of a call that nobody disturbs, from every reachable state. */
  lemma {:induction false} SoleCall(events: seq<Event>, p: Pid, c: Call)
    requires c.Accept? || c.MarkTerminal? || c.ReadOutcome?
    requires p !in Run(Init(), events).processes && MayCall(Run(Init(), events), c)
    ensures var s := Run(Init(), events);
      var t := Undisturbed(s, p, c);
      && Theorems.Reachable(t)
      && p in t.processes && t.processes[p].pc == Done(SoleAnswer(s.store, c))
      && SoleEffect(s.store, c, t.store)
  {
    RunKeepsInv(events);
    var s := Run(Init(), events);
    StartsAlone(s, p, c);
    assert Theorems.Reachable(s);
    assert StoreOk(s.store);
    hide Run, Inv, StoreOk, Theorems.Reachable;
    UndisturbedIsReachable(s, p, c);
  }

  /**
   A decision in time for a registration that nobody has resolved, with its handle or with none,
   is put on record as it was made, to allow and to deny alike.
   */
  lemma {:induction false} DecisionIsRecorded(events: seq<Event>, p: Pid, d: Decision, now: int, handle: Option<Handle>)
    requires var s := Run(Init(), events);
      && p !in s.processes && d.requestId in s.store.records
      && var r := s.store.records[d.requestId];
         && NameOf(r) !in s.store.winners && now <= r.updatedAt + 300_000
         && SameSession(d.session, r.request.session) && (r.request.isQuestion && d.verdict == Allow ==> d.answers)
         && (handle.Some? ==> handle.value == HandleOf(r))
    ensures var s := Run(Init(), events);
      var t := Undisturbed(s, p, Accept(d, now, handle));
      var name := NameOf(s.store.records[d.requestId]);
      && Theorems.Reachable(t) && name in t.store.winners
      && var outcome := t.store.winners[name].outcome;
         && Theorems.Returned(t, p, name, outcome, true)
         && outcome.Decided? && outcome.decision.verdict == d.verdict && outcome.decision.requestId == d.requestId
         && outcome.decision.answers == d.answers && outcome.decision.decidedBy == d.decidedBy
  {
    var s := Run(Init(), events);
    RunKeepsInv(events);
    OwnHandleFits(s.store, d.requestId);
    SoleCall(events, p, Accept(d, now, handle));
    hide Run, Inv, Theorems.Reachable, Undisturbed, NormalizedSession;
  }

  lemma {:induction false} OwnHandleFits(s: Store, id: string)
    requires StoreOk(s) && id in s.records
    ensures var r := s.records[id];
      r.request.id == id && r.generation < s.nextGeneration && Fits(Some(HandleOf(r)), r)
  {
    hide LinksOk, PublishedOk, NormalizedSession;
    NormalizedTwice(s.records[id].request.session);
  }

  // ---------------------------------------------------------------------------
  // Registrations
  // ---------------------------------------------------------------------------

  /** When the registration on disk was resolved, or else made. */
  function LatestAt(s: Store, r: Record): int {
    if NameOf(r) in s.winners then s.winners[NameOf(r)].acceptedAt else r.updatedAt
  }

  function HandleFor(r: Record): Handle {
    Handle(r.request.id, NormalizedSession(r.request.session), r.generation, r.fingerprint)
  }

  lemma {:induction false} FingerprintTells(s: Store, id: string, request: Request)
    requires StoreOk(s) && id in s.records
    ensures s.records[id].fingerprint == FingerprintOf(request) <==> SameRequest(s.records[id].request, request)
  {
    hide LinksOk, NormalizedSession;
    var r := s.records[id];
    assert Known(s, r) && PublishedOk(s, r.generation);
  }

  lemma {:induction false} NextIsNew(s: Store)
    requires StoreOk(s)
    ensures s.nextGeneration !in s.published
  {
    hide LinksOk;
  }

  /** A request registered within the last day is found again, and refused if another one has taken its id. */
  lemma {:induction false} RegisterFinds(events: seq<Event>, p: Pid, request: Request, now: int)
    requires var s := Run(Init(), events);
      p !in s.processes && request.id in s.store.records
      && now - LatestAt(s.store, s.store.records[request.id]) <= 86_400_000
    ensures var s := Run(Init(), events);
      var t := Advances(Next(s, Spawn(p, Register(request, now))), p, 2);
      var r := s.store.records[request.id];
      && t.store == s.store && p in t.processes
      && t.processes[p].pc == Done(if SameRequest(r.request, request) then Registered(HandleFor(r), false)
                                   else ConflictingRequest)
  {
    RunKeepsInv(events);
    var s := Run(Init(), events);
    assert StoreOk(s.store);
    hide Run, Inv;
    DiskIsAsRead(s.store, request.id);
    FingerprintTells(s.store, request.id, request);
    hide StoreOk, LookupRecord, LookupWinner, FingerprintOf, SameRequest;
    var s1 := Next(s, Spawn(p, Register(request, now)));
    FourSteps(s1, p);
    var s2 := Next(s1, Advance(p));
    assert s2.processes[p].pc == AtWinner(s.store.records[request.id]);
    hide Advances;
  }

  /** Otherwise it is published under a new generation, and its handle is what the call goes on with. */
  lemma {:induction false} RegisterPublishes(events: seq<Event>, p: Pid, request: Request, now: int)
    requires var s := Run(Init(), events);
      p !in s.processes && (request.id in s.store.records ==>
        now - LatestAt(s.store, s.store.records[request.id]) > 86_400_000)
    ensures var s := Run(Init(), events);
      var t := Advances(Next(s, Spawn(p, Register(request, now))), p, if request.id in s.store.records then 4 else 3);
      && p in t.processes && t.processes[p].pc.AtListing? && request.id in t.store.records
      && t.store.winners == s.store.winners
      && t.store.records == s.store.records[request.id := t.store.records[request.id]]
      && var r := t.store.records[request.id];
         && r.request == request && r.updatedAt == now && r.generation == s.store.nextGeneration
         && r.fingerprint == FingerprintOf(request) && r.generation !in s.store.published
         && t.processes[p].pc.answer == Registered(HandleFor(r), true)
  {
    RunKeepsInv(events);
    var s := Run(Init(), events);
    assert StoreOk(s.store);
    hide Run, Inv;
    NextIsNew(s.store);
    RegisterStarts(s, p, request, now);
    hide StoreOk, FingerprintOf, Next, Advances, LatestAt;
    var s1 := Next(s, Spawn(p, Register(request, now)));
    var n := if request.id in s.store.records then 2 else 1;
    Publishes(Advances(s1, p, n), p, request, now);
    AdvancesOn(s1, p, n, 2);
  }

  lemma {:induction false} RegisterStarts(s: System, p: Pid, request: Request, now: int)
    requires StoreOk(s.store) && p !in s.processes
    requires request.id in s.store.records ==> now - LatestAt(s.store, s.store.records[request.id]) > 86_400_000
    ensures var s1 := Next(s, Spawn(p, Register(request, now)));
      var t := Advances(s1, p, if request.id in s.store.records then 2 else 1);
      && t.store == s.store && p in t.processes
      && t.processes[p] == Process(Register(request, now), None, AtWriteRecord)
  {
    DiskIsAsRead(s.store, request.id);
    hide StoreOk, LookupRecord, LookupWinner, FingerprintOf, NormalizedSession;
    var s1 := Next(s, Spawn(p, Register(request, now)));
    FourSteps(s1, p);
    hide Advances;
    if request.id in s.store.records {
      assert Next(s1, Advance(p)).processes[p].pc == AtWinner(s.store.records[request.id]);
    }
  }

  lemma {:induction false} Publishes(s: System, p: Pid, request: Request, now: int)
    requires p in s.processes && s.processes[p] == Process(Register(request, now), None, AtWriteRecord)
    ensures var t := Advances(s, p, 2);
      var r := Record(request, now, s.store.nextGeneration, FingerprintOf(request));
      && t.store == Publish(s.store, r)
      && p in t.processes && t.processes[p].pc == AtListing(now, Registered(HandleFor(r), true))
  {
    hide FingerprintOf, NormalizedSession;
    FourSteps(s, p);
    var r := Record(request, now, s.store.nextGeneration, FingerprintOf(request));
    var t := Next(s, Advance(p));
    assert t.processes[p].pc == AtChmodRecord(r);
    hide Advances;
  }

  // ---------------------------------------------------------------------------
  // Calls that are disturbed
  // ---------------------------------------------------------------------------

  /**
   Whatever others do meanwhile, a decision or a closing made with its own handle is turned away
   only when that registration has left the disk for good.
   */
  lemma {:induction false} RefusedOnlyWhenGone(events: seq<Event>, p: Pid)
    requires var s := Run(Init(), events);
      && p in s.processes && s.processes[p].pc == Done(NoMatch) && IsEntitled(s.store, s.processes[p].call)
    ensures var s := Run(Init(), events);
      var h := Expected(s.processes[p].call).value;
      Gone(s.store, WinnerName(h.requestId, h.generation))
  {
    RunKeepsInv(events);
    var s := Run(Init(), events);
    var proc := s.processes[p];
    Theorems.DoneIsOk(s, p);
    hide Inv, Run, Gone;
    if proc.call.Accept? && proc.expiring.Some? { ExpiryIsEntitled(s.store, proc); }
  }

  lemma {:induction false} ExpiryIsEntitled(s: Store, proc: Process)
    requires proc.call.Accept? && proc.expiring.Some? && ExpiringOk(s, proc) && IsEntitled(s, proc.call)
    ensures IsEntitled(s, Acting(proc))
  {
    hide NormalizedSession;
    NormalizedTwice(proc.expiring.value.request.session);
  }

  /**
   A poll with its own handle does not miss a winner: it finds none only if none lies on disk, or
   its record is gone.
   */
  lemma {:induction false} PollMissesNothing(events: seq<Event>, p: Pid)
    requires var s := Run(Init(), events);
      && p in s.processes && s.processes[p].call.ReadOutcome? && s.processes[p].call.expected.Some?
      && !s.processes[p].pc.Done? && Next(s, Advance(p)).processes[p].pc == Done(NoMatch)
      && var c := s.processes[p].call; OwnHandle(s.store, c.expected.value, c.requestId, c.session)
    ensures var s := Run(Init(), events);
      var h := s.processes[p].call.expected.value;
      var name := WinnerName(h.requestId, h.generation);
      name !in s.store.winners || Gone(s.store, name)
  {
    RunKeepsInv(events);
    var s := Run(Init(), events);
    assert PcOk(s.store, CandidateOf(s, p), p, s.processes[p]);
    assert StoreOk(s.store);
    hide Run, Inv, StoreOk, PruneOk, ExpiringOk, Theorems.Reachable;
    PollReads(s, p);
  }

  lemma {:induction false} PollReads(s: System, p: Pid)
    requires StoreOk(s.store) && p in s.processes && PcOk(s.store, CandidateOf(s, p), p, s.processes[p])
    requires s.processes[p].call.ReadOutcome? && s.processes[p].call.expected.Some?
    requires !s.processes[p].pc.Done? && Next(s, Advance(p)).processes[p].pc == Done(NoMatch)
    requires var c := s.processes[p].call; OwnHandle(s.store, c.expected.value, c.requestId, c.session)
    ensures var h := s.processes[p].call.expected.value;
      var name := WinnerName(h.requestId, h.generation);
      name !in s.store.winners || Gone(s.store, name)
  {
    PollIsReading(s, p);
    var c := s.processes[p].call;
    var name := WinnerName(c.expected.value.requestId, c.expected.value.generation);
    if s.processes[p].pc.AtWinner? {
      if name in s.store.winners { WinnerOnDisk(s.store, s.processes[p].pc.record); }
      hide StoreOk, PruneOk, ExpiringOk, NormalizedSession, Gone, LookupWinner;
    } else {
      DiskIsAsRead(s.store, c.requestId);
      if Live(s.store, name) { LiveIsPublished(s.store, name); }
      hide StoreOk, PcOk, NormalizedSession, LookupWinner;
    }
  }

  lemma {:induction false} LiveIsPublished(s: Store, name: WinnerName)
    requires StoreOk(s) && Live(s, name)
    ensures name.generation in s.published && s.records[name.requestId] == s.published[name.generation]
  {
    hide LinksOk, PublishedOk;
  }

  /** A poll reads the record and then the winner, and nothing else. */
  lemma {:induction false} PollIsReading(s: System, p: Pid)
    requires p in s.processes && PcOk(s.store, CandidateOf(s, p), p, s.processes[p])
    requires s.processes[p].call.ReadOutcome? && !s.processes[p].pc.Done?
    requires Next(s, Advance(p)).processes[p].pc == Done(NoMatch)
    ensures s.processes[p].pc.AtRecord? || s.processes[p].pc.AtWinner?
  {
    hide Held, Seen, Says, ValidWinner, IsAdmissible, LinkedBy, AnswerOk, ExpiringOk, SweepOk, Known;
    hide LookupRecord, LookupWinner, Admits;
  }

  /** A call starts where its program starts, and may crash anywhere before it has returned: its files stay. */
  lemma {:induction false} StartsAndCrashes(s: System, p: Pid, c: Call)
    ensures p !in s.processes && MayCall(s, c) ==>
      Next(s, Spawn(p, c)) == System(s.store, s.candidates,
        s.processes[p := Process(c, None, if c.Prune? then AtListing(c.now, Pruned) else AtRecord)])
    ensures p in s.processes && !s.processes[p].pc.Done? ==>
      Next(s, Crash(p)) == System(s.store, s.candidates, s.processes[p := s.processes[p].(pc := Crashed)])
    ensures p in s.processes && s.processes[p].pc == Crashed ==> Next(s, Advance(p)) == s
    ensures MayCall(s, c) <==> Expected(c) == None || Expected(c).value.generation < s.store.nextGeneration
  {
  }

  predicate IsThrown(pc: Pc) {
    (pc.AtUnlink? || pc.Done?) && pc.answer == Threw
  }

  /**
   A call fails with an error exactly when a file of its own was reaped under it: its candidate
   before the link, its winner right after, or its record right after the rename.
   */
  lemma {:induction false} ThrowsExactlyWhen(s: System, p: Pid)
    requires p in s.processes && !IsThrown(s.processes[p].pc) && !IsPruning(s.processes[p].pc)
    ensures p in Next(s, Advance(p)).processes
    ensures IsThrown(Next(s, Advance(p)).processes[p].pc) <==>
      match s.processes[p].pc
      case AtLink(_, _) => p !in s.candidates
      case AtChmod(r, _) => WinnerName(r.request.id, r.generation) !in s.store.winners
      case AtChmodRecord(r) => r.request.id !in s.store.records
      case _ => false
  {
    hide LookupRecord, LookupWinner, Admits, EffectiveAt, WinnerFor, TerminalOutcome, StoredDecision, Acting;
  }
}
