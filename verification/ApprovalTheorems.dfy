/** What the approval registry promises over whole runs. */
module ApprovalTheorems {
  import opened Basics
  import opened Approvals
  import opened ApprovalAgreement

  /** Call `p` returned outcome `o` for the generation called `name`. */
  ghost predicate Returned(s: System, p: Pid, name: WinnerName, o: Outcome, newly: bool) {
    && p in s.processes && s.processes[p].pc.Done?
    && var a := s.processes[p].pc.answer;
       a.Resolution? && NameOf(a.record) == name && a.outcome == o && a.newlyResolved == newly
  }

  lemma {:induction false} ReturnedIsLinked(s: System, p: Pid, name: WinnerName, o: Outcome, newly: bool)
    requires Inv(s) && Returned(s, p, name, o, newly)
    ensures exists l :: (&& l in LinksOf(s.store, name) && l.winner.outcome == o
                         && (newly ==> l.pid == p && l.call == Acting(s.processes[p])))
  {
    var r := s.processes[p].pc.answer.record;
    assert PcOk(s.store, CandidateOf(s, p), p, s.processes[p]) by { hide StoreOk, PcOk; }
    assert AnswerOk(s.store, p, Acting(s.processes[p]), s.processes[p].pc.answer) by {
      hide Inv, AnswerOk, PruneOk, ExpiringOk;
    }
    hide Inv, PcOk, Held;
    if newly {
      var m :| m in LinksOf(s.store, NameOf(r)) && m.winner.outcome == o && m.pid == p
        && m.call == Acting(s.processes[p]);
    } else {
      var l :| l in LinksOf(s.store, NameOf(r)) && l.winner.outcome == o;
    }
  }

  lemma {:induction false} SoleLink(s: Store, name: WinnerName, l: Link, m: Link)
    requires StoreOk(s) && name !in s.removed && l in LinksOf(s, name) && m in LinksOf(s, name)
    ensures l == m && name in s.winners && s.winners[name] == l.winner
  {
    hide Says, ValidWinner, IsAdmissible, Known, PublishedOk, Gone;
    assert LinksOk(s, name);
  }

  lemma {:induction false} RunIsOk(events: seq<Event>)
    ensures StoreOk(Run(Init(), events).store)
  {
    RunKeepsInv(events);
  }

  /**
   Agreement. While the winner of a generation has not been removed, all calls that ever
   returned an outcome for it returned the outcome on disk, and only one of them was told
   that it resolved the request.
   */
  lemma {:induction false} Agreement(events: seq<Event>, p: Pid, q: Pid, name: WinnerName, o: Outcome, o': Outcome,
        newly: bool, newly': bool)
    requires var s := Run(Init(), events);
      Returned(s, p, name, o, newly) && Returned(s, q, name, o', newly') && name !in s.store.removed
    ensures var s := Run(Init(), events);
      name in s.store.winners && o == o' == s.store.winners[name].outcome && (newly && newly' ==> p == q)
  {
    var s := Run(Init(), events);
    RunKeepsInv(events);
    ReturnedIsLinked(s, p, name, o, newly);
    ReturnedIsLinked(s, q, name, o', newly');
    var l :| l in LinksOf(s.store, name) && l.winner.outcome == o && (newly ==> l.pid == p);
    var m :| m in LinksOf(s.store, name) && m.winner.outcome == o' && (newly' ==> m.pid == q);
    hide Inv, Returned, LinksOf;
    assert StoreOk(s.store) by { RunIsOk(events); }
    SoleLink(s.store, name, l, m);
  }

  lemma {:induction false} WinnerIsKnown(s: Store, name: WinnerName)
    requires StoreOk(s) && name in s.winners
    ensures name.generation < s.nextGeneration
  {
    hide PublishedOk, ValidWinner, Says, IsAdmissible;
    assert LinksOk(s, name);
  }

  lemma {:induction false} WinnerSurvivesBoth(s: Store, t: Store, u: Store, name: WinnerName)
    requires StoreOk(s) && Grows(s, t) && Grows(t, u) && name in s.winners && Live(u, name)
    ensures name in u.winners && u.winners[name] == s.winners[name]
  {
    WinnerIsKnown(s, name);
    hide StoreOk;
    assert Live(t, name) by { assert !Gone(t, name); }
  }

  lemma {:induction false} GrowsTwice(s: Store, t: Store, u: Store)
    requires StoreOk(s) && Grows(s, t) && Grows(t, u)
    ensures Grows(s, u)
  {
    forall name | name in s.winners && Live(u, name) ensures name in u.winners && u.winners[name] == s.winners[name] {
      WinnerSurvivesBoth(s, t, u, name);
    }
    hide StoreOk, Gone, Live;
  }

  lemma {:induction false} RunGrows(s: System, more: seq<Event>)
    requires Inv(s)
    ensures Inv(Run(s, more)) && Grows(s.store, Run(s, more).store)
  {
    if more == [] {
      NothingGrows(s.store);
    } else {
      var t := Run(s, more[..|more| - 1]);
      RunGrows(s, more[..|more| - 1]);
      assert StoreOk(s.store);
      hide Inv, StoreOk, Grows, Next;
      NextKeepsInv(t, more[|more| - 1]);
      GrowsTwice(s.store, t.store, Next(t, more[|more| - 1]).store);
    }
  }

  lemma {:induction false} RunConcat(s: System, first: seq<Event>, more: seq<Event>)
    ensures Run(s, first + more) == Run(Run(s, first), more)
  {
    if more == [] {
      assert first + more == first;
    } else {
      assert (first + more)[..|first + more| - 1] == first + more[..|more| - 1];
      RunConcat(s, first, more[..|more| - 1]);
    }
  }

  lemma {:induction false} RemovedIsGone(s: System, t: System, name: WinnerName)
    requires Inv(s) && Grows(s.store, t.store) && name in s.store.removed
    ensures !Live(s.store, name) && !Live(t.store, name)
  {
    hide LinksOk, PcOk, Known, PublishedOk;
    assert Gone(s.store, name);
  }

  /** A winner is removed only when its record has left the disk for good. */
  lemma {:induction false} RemovedOnlyWhenGone(events: seq<Event>, more: seq<Event>, name: WinnerName)
    requires name in Run(Init(), events).store.removed
    ensures !Live(Run(Init(), events).store, name)
    ensures !Live(Run(Init(), events + more).store, name)
  {
    hide Inv, Grows, Live;
    RunKeepsInv(events);
    RunConcat(Init(), events, more);
    var s := Run(Init(), events);
    RunGrows(s, more);
    RemovedIsGone(s, Run(s, more), name);
  }

  lemma {:induction false} OnlySweepsRemoveWinners(s: System, e: Event, name: WinnerName)
    requires name in s.store.winners
    requires e.Advance? && e.pid in s.processes ==>
      !s.processes[e.pid].pc.Evicting? && !s.processes[e.pid].pc.AtOrphan?
    ensures name in Next(s, e).store.winners && Next(s, e).store.winners[name] == s.store.winners[name]
  {
  }

  lemma {:induction false} SweptNameIsGone(s: System, p: Pid)
    requires Inv(s) && p in s.processes
    ensures s.processes[p].pc.Evicting? ==> Gone(s.store, NameOf(s.processes[p].pc.item))
    ensures s.processes[p].pc.AtOrphan? ==> Gone(s.store, s.processes[p].pc.name)
  {
    hide StoreOk, AnswerOk, ReportOk, ScannedOk, Contends, Held, Linked, LinkedBy, Gone, ExpiringOk;
    assert PcOk(s.store, CandidateOf(s, p), p, s.processes[p]);
  }

  /** No event, of a pruner or of anyone, takes away or changes the winner of a live record. */
  lemma {:induction false} LiveWinnerIsImmutable(events: seq<Event>, e: Event, name: WinnerName)
    requires var s := Run(Init(), events).store; Live(s, name) && name in s.winners
    ensures var s := Run(Init(), events);
      name in Next(s, e).store.winners && Next(s, e).store.winners[name] == s.store.winners[name]
  {
    hide Inv, OnRecord, OnWinner, OnLink, OnSweep;
    RunKeepsInv(events);
    var s := Run(Init(), events);
    if e.Advance? && e.pid in s.processes && (s.processes[e.pid].pc.Evicting? || s.processes[e.pid].pc.AtOrphan?) {
      SweptNameIsGone(s, e.pid);
    } else {
      OnlySweepsRemoveWinners(s, e, name);
    }
  }

  /**
   Every link that ever succeeded carries a file that readers accept, says what the call that
   linked it said, and an accepted decision is in time and answers the questions it allows.
   */
  lemma {:induction false} EveryLinkIsValidAndTimely(events: seq<Event>, name: WinnerName, l: Link)
    requires l in LinksOf(Run(Init(), events).store, name)
    ensures var s := Run(Init(), events).store;
      && name.generation in s.published
      && ValidWinner(l.winner, s.published[name.generation])
      && Says(l.call, l.winner.outcome)
      && (l.winner.outcome.Decided? ==>
            var r := s.published[name.generation];
            && l.winner.acceptedAt - r.updatedAt <= MAX_PENDING_AGE_MS
            && (r.request.isQuestion && l.winner.outcome.decision.verdict == Allow
                ==> l.winner.outcome.decision.answers))
  {
    RunKeepsInv(events);
    assert LinksOk(Run(Init(), events).store, name);
  }

  /** Which registration a file is about, and its outcome as well: id, generation, session and status all agree. */
  lemma {:induction false} EveryLinkIsOfItsRequest(events: seq<Event>, name: WinnerName, l: Link)
    requires l in LinksOf(Run(Init(), events).store, name)
    ensures var s := Run(Init(), events).store;
      && name.generation in s.published && s.published[name.generation].request.id == name.requestId
      && l.winner.requestId == name.requestId && l.winner.generation == name.generation
      && var session := NormalizedSession(s.published[name.generation].request.session);
         && NormalizedSession(l.winner.session) == session
         && match l.winner.outcome
            case Decided(d) => d.requestId == name.requestId && NormalizedSession(d.session) == session
            case Terminal(status, resolved) =>
              && resolved.requestId == name.requestId && resolved.status == status
              && NormalizedSession(resolved.session) == session
  {
    RunIsOk(events);
    var s := Run(Init(), events).store;
    hide Run, NormalizedSession, Says, IsAdmissible, Known, PublishedOk;
    assert LinksOk(s, name);
  }

  /** The record that an answered call judged its decision's age by. */
  function Judged(proc: Process): Record
    requires proc.pc.Done? && proc.pc.answer.Resolution?
  {
    if proc.expiring.Some? then proc.expiring.value else proc.pc.answer.record
  }

  predicate IsExpiry(o: Outcome) {
    o.Terminal? && o.status == Expired && o.resolved.verdict == Some(Deny) && o.resolved.decidedBy == Some("system")
  }

  /**
   A call that is told it resolved the request finds its own terminal status in the outcome;
   a decision finds its own verdict exactly when it came within five minutes of the
   registration it judged, and else an expiry.
   */
  lemma {:induction false} ResolverIsHeard(events: seq<Event>, p: Pid, name: WinnerName, o: Outcome)
    requires Returned(Run(Init(), events), p, name, o, true)
    ensures var proc := Run(Init(), events).processes[p];
      && (proc.call.MarkTerminal? ==> Says(proc.call, o))
      && (proc.call.Accept? ==>
            && (Says(proc.call, o) <==> proc.call.now - Judged(proc).updatedAt <= MAX_PENDING_AGE_MS)
            && (!Says(proc.call, o) ==> IsExpiry(o)))
  {
    var s := Run(Init(), events);
    RunKeepsInv(events);
    DoneIsOk(s, p);
    ReturnedIsLinked(s, p, name, o, true);
    var l :| l in LinksOf(s.store, name) && l.winner.outcome == o && l.pid == p && l.call == Acting(s.processes[p]);
    EveryLinkIsValidAndTimely(events, name, l);
    hide Inv, Run, Seen, Matches, Held, Linked, LinkedBy, NormalizedSession;
  }

  /**
   The registration judged is the one resolved, unless the call had no handle and a newer one lay
   there on a second look.
   */
  lemma {:induction false} JudgedIsResolved(events: seq<Event>, p: Pid, name: WinnerName, o: Outcome)
    requires Returned(Run(Init(), events), p, name, o, true)
    ensures var proc := Run(Init(), events).processes[p];
      && Judged(proc).request.id == name.requestId && Judged(proc).generation <= name.generation
      && (proc.call.Accept? && (proc.call.expected.Some? || Judged(proc).generation == name.generation)
          ==> Judged(proc) == proc.pc.answer.record)
  {
    var s := Run(Init(), events);
    RunKeepsInv(events);
    DoneIsOk(s, p);
    hide Inv, Run, AnswerOk, ExpiringOk;
    JudgedOk(s.store, p, s.processes[p]);
  }

  lemma {:induction false} JudgedOk(s: Store, p: Pid, proc: Process)
    requires proc.pc.Done? && proc.pc.answer.Resolution?
    requires AnswerOk(s, p, Acting(proc), proc.pc.answer) && ExpiringOk(s, proc)
    ensures Judged(proc).request.id == proc.pc.answer.record.request.id
    ensures Judged(proc).generation <= proc.pc.answer.record.generation
    ensures proc.call.Accept?
      && (proc.call.expected.Some? || Judged(proc).generation == proc.pc.answer.record.generation)
      ==> Judged(proc) == proc.pc.answer.record
  {
    hide Linked, LinkedBy, Says, InTime, NormalizedSession, LinksOf;
  }

  /**
   A registration returns the handle of a record that was published for the same request; if
   it is told that the record is new, it is the record of this very call.
   */
  lemma {:induction false} HandleIsOfOwnRequest(events: seq<Event>, p: Pid)
    requires var s := Run(Init(), events);
      p in s.processes && s.processes[p].pc.Done? && s.processes[p].pc.answer.Registered?
    ensures var s := Run(Init(), events);
      var h := s.processes[p].pc.answer.handle;
      && s.processes[p].call.Register?
      && h.generation in s.store.published
      && h == HandleOf(s.store.published[h.generation])
      && FingerprintOf(s.store.published[h.generation].request) == FingerprintOf(s.processes[p].call.request)
      && (s.processes[p].pc.answer.newlyRegistered ==>
            && s.store.published[h.generation].request == s.processes[p].call.request
            && s.store.published[h.generation].updatedAt == s.processes[p].call.now)
  {
    RunKeepsInv(events);
    var s := Run(Init(), events);
    hide Inv, PcOk;
    DoneIsOk(s, p);
    PublishedIsOk(s, s.processes[p].pc.answer.handle.generation);
  }

  lemma {:induction false} DoneIsOk(s: System, p: Pid)
    requires Inv(s) && p in s.processes && s.processes[p].pc.Done?
    ensures AnswerOk(s.store, p, Acting(s.processes[p]), s.processes[p].pc.answer)
    ensures ExpiringOk(s.store, s.processes[p])
  {
    hide StoreOk, AnswerOk, ExpiringOk;
    assert PcOk(s.store, CandidateOf(s, p), p, s.processes[p]);
  }

  lemma {:induction false} PublishedIsOk(s: System, g: nat)
    requires Inv(s) && g in s.store.published
    ensures PublishedOk(s.store, g)
  {
    hide LinksOk, PcOk;
  }

  function SessionOf(c: Call): Option<string> {
    match c
    case Register(r, _) => r.session
    case Accept(d, _, _) => d.session
    case MarkTerminal(_, _, options, _, _) => options.session
    case ReadOutcome(_, session, _) => session
    case Prune(_) => None
  }

  /**
   A call is answered only for a request of its own id and session, and, if it was made with
   a handle, only for the generation of that handle.
   */
  lemma {:induction false} HandleScopesAnswer(events: seq<Event>, p: Pid, name: WinnerName, o: Outcome, newly: bool)
    requires Returned(Run(Init(), events), p, name, o, newly)
    ensures var s := Run(Init(), events);
      var c := s.processes[p].call;
      var r := s.processes[p].pc.answer.record;
      var h := Expected(c);
      && r.request.id == Target(c) == name.requestId
      && NormalizedSession(r.request.session) == NormalizedSession(SessionOf(c))
      && (h.Some? ==> (&& h.value.requestId == name.requestId
                       && h.value.generation == name.generation
                       && h.value.fingerprint == r.fingerprint))
  {
    RunKeepsInv(events);
    var s := Run(Init(), events);
    hide Inv, NormalizedSession, FingerprintOf;
    DoneIsOk(s, p);
    if s.processes[p].expiring.Some? { NormalizedTwice(s.processes[p].expiring.value.request.session); }
    hide Linked, LinkedBy, InTime, Says, Seen, Run;
  }

  // ---------------------------------------------------------------------------
  // Nobody waits for anybody
  // ---------------------------------------------------------------------------

  /** How far a call is from its answer: which part of its work it is in, the last one being 0. */
  function Part(proc: Process): nat {
    match proc.pc
    case Done(_) => 0
    case Crashed => 0
    case Inspecting(_, _, _) => 1
    case AtOrphan(_, _, _, _) => 1
    case AtArtifacts(_) => 2
    case Judging(_, _, _, _) => 3
    case Evicting(_, _, _, _, _) => 3
    case Scanning(_, _, _, _) => 4
    case ScanningWinner(_, _, _, _, _) => 4
    case AtListing(_, _) => 5
    case _ => 6
  }

  /** An upper bound on the file operations a call still makes in this part of its work. */
  function StepsLeft(proc: Process): nat {
    match proc.pc
    case AtRecord => if proc.call.Accept? && proc.expiring.None? then 10 else 8
    case AtWinner(_) => if proc.call.Accept? && proc.expiring.None? then 9 else 7
    case AtCandidate(_, _) => 6
    case AtLink(_, _) => 5
    case AtLostLink(_) => 4
    case AtChmod(_, _) => 4
    case AtWriteRecord => 3
    case AtChmodRecord(_) => 2
    case AtUnlink(_) => 1
    case Scanning(_, files, _, _) => 2 * |files|
    case ScanningWinner(_, files, _, _, _) => 2 * |files| + 1
    case Judging(_, todo, _, _) => 2 * |todo|
    case Evicting(_, todo, _, _, _) => 2 * |todo| + 1
    case Inspecting(names, owners, _) => 2 * (|names| + |owners|)
    case AtOrphan(names, owners, _, _) => 2 * (|names| + |owners|) + 1
    case _ => 0
  }

  /** Closer to the answer: in a later part of the work, or with less left of the same part. */
  predicate IsCloser(t: Process, s: Process) {
    Part(t) < Part(s) || (Part(t) == Part(s) && StepsLeft(t) < StepsLeft(s))
  }

  lemma {:induction false} OneFewer<T>(a: set<T>, x: T)
    requires x in a
    ensures |a - {x}| < |a|
  {
    assert a == (a - {x}) + {x};
  }

  /** The program counter fits the call. */
  predicate FitsPc(proc: Process) {
    && (proc.pc.AtWinner? ==> !Acting(proc).Prune?)
    && (proc.pc.AtWriteRecord? ==> Acting(proc).Register?)
  }

  /** The steps of a contender and of a registration. */
  lemma {:induction false} ContenderIsCloser(s: System, p: Pid)
    requires p in s.processes && FitsPc(s.processes[p]) && Part(s.processes[p]) == 6 && OnAdvance(s, p) != s
    ensures p in OnAdvance(s, p).processes && IsCloser(OnAdvance(s, p).processes[p], s.processes[p])
  {
    hide LookupRecord, LookupWinner, Admits, ValidWinner, EffectiveAt, WinnerFor, TerminalOutcome, StoredDecision;
    hide OnPrune;
  }

  lemma {:induction false} PrunerIsCloser(s: System, p: Pid)
    requires p in s.processes && OnPrune(s, p, s.processes[p].pc) != s
    ensures var t := OnPrune(s, p, s.processes[p].pc);
      p in t.processes && IsCloser(t.processes[p], s.processes[p])
  {
    hide LookupWinner, RemoveWinner;
  }

  lemma {:induction false} AdvanceIsCloser(s: System, p: Pid)
    requires p in s.processes && FitsPc(s.processes[p]) && OnAdvance(s, p) != s
    ensures p in OnAdvance(s, p).processes && IsCloser(OnAdvance(s, p).processes[p], s.processes[p])
  {
    if Part(s.processes[p]) == 6 {
      ContenderIsCloser(s, p);
    } else {
      hide OnPrune, IsCloser, OnRecord, OnWinner, OnLink, OnChmod, OnLostLink, OnWriteRecord, OnChmodRecord;
      PrunerIsCloser(s, p);
    }
  }

  lemma {:induction false} ScanIsCloser(s: System, p: Pid, id: string)
    requires p in s.processes && s.processes[p].pc.Scanning? && id in s.processes[p].pc.files
    ensures var t := OnSweep(s, Scan(p, id), p); p in t.processes && IsCloser(t.processes[p], s.processes[p])
  {
    hide LookupRecord;
    OneFewer(s.processes[p].pc.files, id);
  }

  lemma {:induction false} JudgeIsCloser(s: System, p: Pid, item: Scanned, last: bool)
    requires p in s.processes && s.processes[p].pc.Judging? && item in s.processes[p].pc.todo
    ensures var t := OnSweep(s, Judge(p, item, last), p); p in t.processes && IsCloser(t.processes[p], s.processes[p])
  {
    hide IsVictim, RemoveRecord;
    OneFewer(s.processes[p].pc.todo, item);
  }

  lemma {:induction false} InspectIsCloser(s: System, e: Event)
    requires e.pid in s.processes && s.processes[e.pid].pc.Inspecting?
    requires (e.InspectWinner? && e.name in s.processes[e.pid].pc.names)
      || (e.InspectCandidate? && e.owner in s.processes[e.pid].pc.owners)
    ensures var t := OnSweep(s, e, e.pid); e.pid in t.processes && IsCloser(t.processes[e.pid], s.processes[e.pid])
  {
    hide Live;
    if e.InspectWinner? {
      OneFewer(s.processes[e.pid].pc.names, e.name);
    } else {
      OneFewer(s.processes[e.pid].pc.owners, e.owner);
    }
  }

  lemma {:induction false} SweepIsCloser(s: System, e: Event)
    requires e.pid in s.processes && OnSweep(s, e, e.pid) != s
    ensures e.pid in OnSweep(s, e, e.pid).processes
    ensures IsCloser(OnSweep(s, e, e.pid).processes[e.pid], s.processes[e.pid])
  {
    var pc := s.processes[e.pid].pc;
    match e {
      case Scan(p, id) => assert pc.Scanning? && id in pc.files;
      case Judge(p, item, _) => assert pc.Judging? && item in pc.todo;
      case InspectWinner(_, name, _) => assert pc.Inspecting? && name in pc.names;
      case InspectCandidate(_, owner, _) => assert pc.Inspecting? && owner in pc.owners;
      case _ =>
    }
    hide OnSweep, IsCloser;
    match e
    case Scan(p, id) => ScanIsCloser(s, p, id);
    case Judge(p, item, last) => JudgeIsCloser(s, p, item, last);
    case _ => InspectIsCloser(s, e);
  }

  lemma {:induction false} OthersStay(s: System, e: Event, p: Pid)
    requires p in s.processes && e.pid != p
    ensures p in Next(s, e).processes && Next(s, e).processes[p] == s.processes[p]
  {
    hide LookupRecord, LookupWinner, Admits, EffectiveAt, WinnerFor, TerminalOutcome, StoredDecision, IsVictim, Live;
  }

  lemma {:induction false} CallFitsPc(s: System, p: Pid)
    requires Inv(s) && p in s.processes
    ensures FitsPc(s.processes[p])
  {
    hide StoreOk, ExpiringOk;
    assert PcOk(s.store, CandidateOf(s, p), p, s.processes[p]);
  }

  /**
   Whatever a call itself does brings it closer to its answer, the sweep of a pruner
   included, and no step of another process changes where it stands.
   */
  lemma {:induction false} WaitFree(events: seq<Event>, e: Event, p: Pid)
    requires p in Run(Init(), events).processes
    ensures var s := Run(Init(), events);
      && p in Next(s, e).processes
      && (e.pid != p ==> Next(s, e).processes[p] == s.processes[p])
      && (e.pid == p && Next(s, e) != s ==> IsCloser(Next(s, e).processes[p], s.processes[p]))
  {
    hide Inv, Run, OnAdvance, OnSweep, IsCloser;
    var s := Run(Init(), events);
    RunKeepsInv(events);
    CallFitsPc(s, p);
    hide FitsPc;
    if e.pid != p {
      OthersStay(s, e, p);
    } else if Next(s, e) != s {
      match e
      case Spawn(_, _) =>
      case Crash(_) => CrashIsCloser(s, p);
      case Advance(_) => AdvanceIsCloser(s, p);
      case _ => SweepIsCloser(s, e);
    }
  }

  lemma {:induction false} CrashIsCloser(s: System, p: Pid)
    requires p in s.processes && Next(s, Crash(p)) != s
    ensures IsCloser(Next(s, Crash(p)).processes[p], s.processes[p])
  {
  }

  /** And until it has returned or crashed there always is something for it to do. */
  lemma {:induction false} NeverBlocked(events: seq<Event>, p: Pid) returns (e: Event)
    requires var s := Run(Init(), events); p in s.processes && !s.processes[p].pc.Done? && !s.processes[p].pc.Crashed?
    ensures var s := Run(Init(), events);
      e.pid == p && !e.Spawn? && !e.Crash? && p in Next(s, e).processes
        && IsCloser(Next(s, e).processes[p], s.processes[p])
  {
    var s := Run(Init(), events);
    RunKeepsInv(events);
    CallFitsPc(s, p);
    hide Inv, Run, IsCloser, FitsPc;
    e := OwnEvent(s.processes[p].pc, p);
    OwnEventDoesSomething(s, p, e);
    hide Next;
    WaitFree(events, e, p);
  }

  lemma {:induction false} OwnEventDoesSomething(s: System, p: Pid, e: Event)
    requires p in s.processes && FitsPc(s.processes[p]) && e == OwnEvent(s.processes[p].pc, p)
    requires !s.processes[p].pc.Done? && !s.processes[p].pc.Crashed?
    ensures Next(s, e) != s
  {
    hide LookupRecord, LookupWinner, Admits, EffectiveAt, WinnerFor, TerminalOutcome, StoredDecision, IsVictim, Live;
    if e.Advance? {
      assert OnAdvance(s, p).processes[p] != s.processes[p] by { AdvanceMoves(s, p); }
    } else {
      assert OnSweep(s, e, p).processes[p] != s.processes[p];
    }
  }

  lemma {:induction false} AdvanceMoves(s: System, p: Pid)
    requires p in s.processes && FitsPc(s.processes[p])
    requires !s.processes[p].pc.Done? && !s.processes[p].pc.Crashed?
    requires s.processes[p].pc.Scanning? ==> s.processes[p].pc.files == {}
    requires s.processes[p].pc.Judging? ==> s.processes[p].pc.todo == {}
    requires s.processes[p].pc.Inspecting? ==> s.processes[p].pc.names == {} && s.processes[p].pc.owners == {}
    ensures p in OnAdvance(s, p).processes && OnAdvance(s, p).processes[p] != s.processes[p]
  {
    hide LookupRecord, LookupWinner, Admits, EffectiveAt, WinnerFor, TerminalOutcome, StoredDecision;
  }

  ghost function OwnEvent(pc: Pc, p: Pid): (e: Event)
    ensures e.pid == p && !e.Spawn? && !e.Crash?
  {
    if pc.Scanning? && pc.files != {} then var id :| id in pc.files; Scan(p, id)
    else if pc.Judging? && pc.todo != {} then var item :| item in pc.todo; Judge(p, item, false)
    else if pc.Inspecting? && pc.names != {} then var name :| name in pc.names; InspectWinner(p, name, 0)
    else if pc.Inspecting? && pc.owners != {} then var owner :| owner in pc.owners; InspectCandidate(p, owner, 0)
    else Advance(p)
  }

  // ---------------------------------------------------------------------------
  // Why agreement stops at the removal of the winner
  // ---------------------------------------------------------------------------

  ghost predicate Reachable(s: System) {
    exists events: seq<Event> :: Run(Init(), events) == s
  }

  lemma {:induction false} Step(s: System, e: Event)
    requires Reachable(s)
    ensures Reachable(Next(s, e))
  {
    var events: seq<Event> :| Run(Init(), events) == s;
    assert (events + [e])[..|events|] == events;
    assert Run(Init(), events + [e]) == Next(s, e);
  }

  /** A contender that reaches its link while the name is free resolves the request. */
  lemma {:induction false} FreeNameResolves(s: System, p: Pid, r: Record, w: Winner) returns (t: System)
    requires Reachable(s) && p in s.processes && s.processes[p].pc == AtCandidate(r, w)
    requires NameOf(r) !in s.store.winners
    ensures Reachable(t) && Returned(t, p, NameOf(r), w.outcome, true)
    ensures t.store == AddLink(s.store, NameOf(r), Link(p, Acting(s.processes[p]), w))
    ensures t.processes == s.processes[p := s.processes[p].(pc := Done(Resolution(r, w.outcome, true)))]
  {
    hide Reachable, OnRecord, OnWinner, OnPrune, OnWriteRecord, OnChmodRecord;
    var s1 := Next(s, Advance(p));
    assert s1.processes[p].pc == AtLink(r, w) && s1.candidates[p] == w;
    assert Acting(s1.processes[p]) == Acting(s.processes[p]);
    hide Acting;
    var s2 := Next(s1, Advance(p));
    assert s2.processes[p].pc == AtChmod(r, w);
    var s3 := Next(s2, Advance(p));
    assert s3.processes[p].pc == AtUnlink(Resolution(r, w.outcome, true));
    t := Next(s3, Advance(p));
    Step(s, Advance(p)); Step(s1, Advance(p)); Step(s2, Advance(p)); Step(s3, Advance(p));
  }

  const REQUEST := Request("r", None, false, "")
  const RECORD := Record(REQUEST, 0, 0, Fingerprint("r", None, false, ""))
  const REGISTER := Register(REQUEST, 0)
  const LATE := TERMINAL_RETENTION_MS + 2

  function CancelAt(now: int): Call {
    MarkTerminal("r", Cancelled, TerminalOptions(Some(Deny), None, None, None), now, None)
  }

  function CancelledAt(now: int): Winner {
    Winner("r", None, 0, now, Terminal(Cancelled, Resolved("r", Cancelled, Some(Deny), None, None, now)))
  }

  lemma {:induction false} RegisterAlone() returns (t: System)
    ensures Reachable(t) && t.candidates == map[] && t.store.nextGeneration == 1
    ensures t.processes == map[0 := Process(REGISTER, None, AtChmodRecord(RECORD))]
    ensures t.store.records == map["r" := RECORD] && t.store.winners == map[] && t.store.removed == {}
  {
    assert Run(Init(), []) == Init();
    var s1 := Next(Init(), Spawn(0, REGISTER));
    var s2 := Next(s1, Advance(0));
    assert s2.processes[0].pc == AtWriteRecord;
    t := Next(s2, Advance(0));
    assert t.store.records["r"] == RECORD;
    Step(Init(), Spawn(0, REGISTER)); Step(s1, Advance(0)); Step(s2, Advance(0));
  }

  /** Call `p` reads the record, finds no winner, and prepares its own. */
  lemma {:induction false} Contend(s: System, p: Pid, now: int) returns (t: System)
    requires Reachable(s) && p !in s.processes
    requires s.store.records == map["r" := RECORD] && s.store.winners == map[]
    ensures Reachable(t) && t.store == s.store
    ensures t.processes == s.processes[p := Process(CancelAt(now), None, AtCandidate(RECORD, CancelledAt(now)))]
  {
    hide Reachable, OnLink, OnChmod, OnLostLink, OnPrune;
    var s1 := Next(s, Spawn(p, CancelAt(now)));
    var s2 := Next(s1, Advance(p));
    assert s2.processes[p].pc == AtWinner(RECORD);
    t := Next(s2, Advance(p));
    Step(s, Spawn(p, CancelAt(now))); Step(s1, Advance(p)); Step(s2, Advance(p));
  }

  /** A pruner about to list the directory has read its one record and is ready to judge it. */
  lemma {:induction false} ScanOne(s: System, p: Pid, now: int, a: Answer, r: Record) returns (t: System)
    requires Reachable(s) && p in s.processes && s.processes[p].pc == AtListing(now, a)
    requires s.store.records == map[r.request.id := r]
    ensures Reachable(t) && t.store == s.store && t.candidates == s.candidates
    ensures var item := Scanned(r, LookupWinner(s.store, r));
      t.processes == s.processes[p := s.processes[p].(pc := Judging(now, {item}, {item}, a))]
  {
    hide Reachable, OnRecord, OnWinner, OnLink, OnChmod, OnLostLink, OnWriteRecord, OnChmodRecord, LookupWinner;
    var id := r.request.id;
    var item := Scanned(r, LookupWinner(s.store, r));
    var s1 := Next(s, Advance(p));
    assert s1.processes[p].pc == Scanning(now, {id}, {}, a);
    var s2 := Next(s1, Scan(p, id));
    assert s2.processes[p].pc == ScanningWinner(now, {}, {}, r, a);
    var s3 := Next(s2, Advance(p));
    assert s3.processes[p].pc == Scanning(now, {}, {item}, a);
    t := Next(s3, Advance(p));
    Step(s, Advance(p)); Step(s1, Scan(p, id)); Step(s2, Advance(p)); Step(s3, Advance(p));
  }

  /** A pruner of its own that has read the one record. */
  lemma {:induction false} PrunerAlone(s: System, p: Pid, now: int, r: Record) returns (t: System)
    requires Reachable(s) && p !in s.processes && s.store.records == map[r.request.id := r]
    ensures Reachable(t) && t.store == s.store && t.candidates == s.candidates
    ensures var item := Scanned(r, LookupWinner(s.store, r));
      t.processes == s.processes[p := Process(Prune(now), None, Judging(now, {item}, {item}, Pruned))]
  {
    hide Reachable, OnAdvance, OnSweep, LookupWinner;
    var s1 := Next(s, Spawn(p, Prune(now)));
    Step(s, Spawn(p, Prune(now)));
    t := ScanOne(s1, p, now, Pruned, r);
  }

  /** The pruner drops a record that was past its retention when it read it. */
  lemma {:induction false} DropOne(s: System, p: Pid, now: int, item: Scanned) returns (t: System)
    requires Reachable(s) && p in s.processes && s.processes[p].pc == Judging(now, {item}, {item}, Pruned)
    requires now - TimeOf(item) > TERMINAL_RETENTION_MS
    ensures t == Next(s, Judge(p, item, false))
    ensures Reachable(t) && t.store == RemoveRecord(s.store, item.record.request.id)
    ensures t.processes == s.processes[p := s.processes[p].(pc := Evicting(now, {}, {item}, item.record, Pruned))]
  {
    hide Reachable, OnAdvance, Outranking;
    t := Next(s, Judge(p, item, false));
    assert {item} - {item} == {};
    Step(s, Judge(p, item, false));
  }

  /** Then it drops the winner. */
  lemma {:induction false} DropWinner(s: System, p: Pid, now: int, item: Scanned) returns (t: System)
    requires Reachable(s) && p in s.processes
    requires s.processes[p].pc == Evicting(now, {}, {item}, item.record, Pruned)
    ensures Reachable(t) && t.store == RemoveWinner(s.store, NameOf(item.record))
    ensures t.processes == s.processes[p := s.processes[p].(pc := Judging(now, {}, {item}, Pruned))]
  {
    hide Reachable, OnSweep;
    t := Next(s, Advance(p));
    Step(s, Advance(p));
  }

  /** Call 1 stalls before its link, and call 2 resolves the request. */
  lemma {:induction false} StallsWhileResolved() returns (t: System)
    ensures Reachable(t) && t.processes.Keys == {0, 1, 2}
    ensures t.store.records == map["r" := RECORD] && t.store.winners == map[NameOf(RECORD) := CancelledAt(1)]
    ensures t.processes[1].pc == AtCandidate(RECORD, CancelledAt(1))
    ensures Returned(t, 2, NameOf(RECORD), CancelledAt(1).outcome, true)
  {
    hide Reachable, Acting;
    var s1 := RegisterAlone();
    var s2 := Contend(s1, 1, 1);
    var s3 := Contend(s2, 2, 1);
    t := FreeNameResolves(s3, 2, RECORD, CancelledAt(1));
  }

  /** A pruner that looks a day later drops the record and its winner. */
  lemma {:induction false} PrunedAway(s: System, p: Pid) returns (t: System)
    requires Reachable(s) && p !in s.processes
    requires s.store.records == map["r" := RECORD] && s.store.winners == map[NameOf(RECORD) := CancelledAt(1)]
    ensures Reachable(t) && t.store.winners == map[]
    ensures forall q :: q in s.processes ==> q in t.processes && t.processes[q] == s.processes[q]
  {
    assert LookupWinner(s.store, RECORD) == Some(CancelledAt(1));
    hide Reachable, LookupWinner;
    var item := Scanned(RECORD, Some(CancelledAt(1)));
    var s1 := PrunerAlone(s, p, LATE, RECORD);
    var s2 := DropOne(s1, p, LATE, item);
    t := DropWinner(s2, p, LATE, item);
  }

  /**
   Why agreement stops at the removal of the winner: a call that stalls between reading the
   record and linking, while another call resolves the request and a pruner removes it a day
   later, is also told that it resolved the request.
   */
  lemma {:induction false} StalledCallResolvesAgain() returns (s: System)
    ensures Reachable(s)
    ensures var o := CancelledAt(1).outcome;
      Returned(s, 1, NameOf(RECORD), o, true) && Returned(s, 2, NameOf(RECORD), o, true)
  {
    hide Reachable, Acting;
    var s1 := StallsWhileResolved();
    var s2 := PrunedAway(s1, 3);
    s := FreeNameResolves(s2, 1, RECORD, CancelledAt(1));
  }

  /** Exactly when a contender at its link resolves a request that was resolved before: its winner was removed. */
  lemma {:induction false} ResolvesAgainExactlyWhen(events: seq<Event>, p: Pid, r: Record, w: Winner)
    requires var s := Run(Init(), events);
      p in s.processes && s.processes[p].pc == AtLink(r, w) && p in s.candidates
    ensures var s := Run(Init(), events);
      var t := Next(s, Advance(p));
      var name := NameOf(r);
      (LinksOf(s.store, name) != []
       && LinksOf(t.store, name) == LinksOf(s.store, name) + [Link(p, Acting(s.processes[p]), w)])
      <==> name in s.store.removed && name !in s.store.winners
  {
    RunKeepsInv(events);
    var s := Run(Init(), events);
    CandidateAtLink(s, p, r, w);
    LinkedUnlessRemoved(s.store, NameOf(r));
    hide Inv, PcOk, Acting;
  }

  lemma {:induction false} CandidateAtLink(s: System, p: Pid, r: Record, w: Winner)
    requires Inv(s) && p in s.processes && s.processes[p].pc == AtLink(r, w) && p in s.candidates
    ensures StoreOk(s.store) && s.candidates[p] == w
  {
    hide StoreOk, ExpiringOk, Contends;
    assert PcOk(s.store, CandidateOf(s, p), p, s.processes[p]);
  }

  lemma {:induction false} LinkedUnlessRemoved(s: Store, name: WinnerName)
    requires StoreOk(s)
    ensures name in s.removed ==> LinksOf(s, name) != []
    ensures LinksOf(s, name) != [] && name !in s.removed ==> name in s.winners
  {
    hide Says, ValidWinner, IsAdmissible, Known, PublishedOk, Gone;
    if name in s.links { assert LinksOk(s, name); }
  }

  // ---------------------------------------------------------------------------
  // What a pruner takes away
  // ---------------------------------------------------------------------------

  /**
   A record leaves the disk only when a pruner drops it, and the pruner has seen a record of
   the same request that was a day old or outranked by 300 others.
   */
  lemma {:induction false} RecordsLeaveByPruning(s: System, e: Event, id: string)
    requires id in s.store.records && id !in Next(s, e).store.records
    ensures e.Judge? && e.item.record.request.id == id
    ensures e.pid in s.processes && s.processes[e.pid].pc.Judging? && e.item in s.processes[e.pid].pc.scanned
    ensures var pc := s.processes[e.pid].pc;
      pc.now - TimeOf(e.item) > 86_400_000 || Outranking(pc.scanned, e.item, e.last) >= 300
  {
    hide LookupRecord, LookupWinner, EffectiveAt, Admits, WinnerFor, StoredDecision, TerminalOutcome, Outranking;
  }

  /**
   Ranked behind its ties, a record is dropped as soon as the sweep has found 300 others as
   recent, or a day has passed.
   */
  lemma {:induction false} KeptAreFew(scanned: set<Scanned>, now: int)
    ensures var kept := set x | x in scanned && !IsVictim(scanned, x, now, true);
      |kept| <= 300 && forall x :: x in kept ==> now - TimeOf(x) <= 86_400_000
    ensures |scanned| <= 300 ==>
      forall x, last :: x in scanned && IsVictim(scanned, x, now, last) ==> now - TimeOf(x) > 86_400_000
  {
    var kept := set x | x in scanned && !IsVictim(scanned, x, now, true);
    if kept != {} {
      var oldest := OldestOf(kept);
      var above := set x | x in scanned && x != oldest
        && (TimeOf(x) > TimeOf(oldest) || (true && TimeOf(x) == TimeOf(oldest)));
      assert |above| == Outranking(scanned, oldest, true) < MAX_RECORDS;
      assert kept - {oldest} <= above;
      SubsetIsSmaller(kept - {oldest}, above);
      OneFewer(kept, oldest);
    }
    if |scanned| <= 300 {
      forall x, last | x in scanned && IsVictim(scanned, x, now, last) ensures now - TimeOf(x) > 86_400_000 {
        FewOutrank(scanned, x, x, last);
        assert scanned - {x} + {x} == scanned;
      }
    }
    hide Outranking;
  }

  lemma {:induction false} OldestOf(items: set<Scanned>) returns (oldest: Scanned)
    requires items != {}
    ensures oldest in items && forall x :: x in items ==> TimeOf(x) >= TimeOf(oldest)
  {
    var x :| x in items;
    if items - {x} == {} {
      oldest := x;
      assert forall z :: z in items ==> z == x || z in items - {x};
    } else {
      var y := OldestOf(items - {x});
      oldest := if TimeOf(x) < TimeOf(y) then x else y;
      assert forall z :: z in items ==> z == x || z in items - {x};
    }
  }

  /** A file nobody needs is reaped after a minute: a winner without its record, or a candidate. */
  lemma {:induction false} ReapedWhenOld(s: System, p: Pid, name: WinnerName, owner: Pid, age: int)
    requires p in s.processes && s.processes[p].pc.Inspecting?
    ensures name in s.processes[p].pc.names ==>
      var pc := Next(s, InspectWinner(p, name, age)).processes[p].pc;
      if name in s.store.winners && !Live(s.store, name) && age > 60_000 then pc.AtOrphan? && pc.name == name
      else pc.Inspecting? && Next(s, InspectWinner(p, name, age)).store == s.store
    ensures owner in s.processes[p].pc.owners ==>
      Next(s, InspectCandidate(p, owner, age)).candidates
      == if age > 60_000 then s.candidates - {owner} else s.candidates
  {
  }

  /**
   A sweep lists every record, goes on only when it has read and judged each of them, takes the
   winner with an evicted record, then lists every winner and candidate, and ends when it has
   inspected each of those.
   */
  lemma {:induction false} SweepIsThorough(s: System, p: Pid)
    requires p in s.processes && IsPruning(s.processes[p].pc)
    ensures var pc := s.processes[p].pc;
      var t := Next(s, Advance(p));
      && p in t.processes
      && (pc.AtListing? ==> t.processes[p].pc == Scanning(pc.now, s.store.records.Keys, {}, pc.answer))
      && (pc.Scanning? && pc.files != {} ==> t == s)
      && (pc.Scanning? && pc.files == {} ==>
            t.processes[p].pc == Judging(pc.now, pc.scanned, pc.scanned, pc.answer))
      && (pc.Judging? && pc.todo != {} ==> t == s)
      && (pc.Judging? && pc.todo == {} ==> t.processes[p].pc == AtArtifacts(pc.answer))
      && (pc.Evicting? ==>
            && t.store.winners == s.store.winners - {WinnerName(pc.item.request.id, pc.item.generation)}
            && t.processes[p].pc == Judging(pc.now, pc.todo, pc.scanned, pc.answer))
      && (pc.AtArtifacts? ==>
            t.processes[p].pc == Inspecting(s.store.winners.Keys, s.candidates.Keys, pc.answer))
      && (pc.Inspecting? && (pc.names != {} || pc.owners != {}) ==> t == s)
      && (pc.Inspecting? && pc.names == {} && pc.owners == {} ==> t.processes[p].pc == Done(pc.answer))
      && (pc.AtOrphan? ==>
            && t.store.winners == s.store.winners - {pc.name}
            && t.processes[p].pc == Inspecting(pc.names, pc.owners, pc.answer))
  {
    hide OnRecord, OnWinner, OnLink, OnChmod, OnLostLink, OnWriteRecord, OnChmodRecord;
    if s.processes[p].pc.Evicting? { NoneToRemove(s.store.winners, NameOf(s.processes[p].pc.item)); }
    if s.processes[p].pc.AtOrphan? { NoneToRemove(s.store.winners, s.processes[p].pc.name); }
  }

  lemma {:induction false} NoneToRemove(winners: map<WinnerName, Winner>, name: WinnerName)
    ensures name !in winners ==> winners - {name} == winners
  {
  }

  /** It reads each file as it lies there then, with its winner, and judges what it read. */
  lemma {:induction false} SweepReads(s: System, p: Pid, id: string, item: Scanned, last: bool)
    requires p in s.processes
    ensures var pc := s.processes[p].pc;
      pc.Scanning? && id in pc.files ==>
        Next(s, Scan(p, id)) == Goto(s, p,
          if id in s.store.records && s.store.records[id].request.id == id
          then ScanningWinner(pc.now, pc.files - {id}, pc.scanned, s.store.records[id], pc.answer)
          else Scanning(pc.now, pc.files - {id}, pc.scanned, pc.answer))
    ensures var pc := s.processes[p].pc;
      pc.Judging? && item in pc.todo ==>
        var t := Next(s, Judge(p, item, last));
        if IsVictim(pc.scanned, item, pc.now, last) then
          && t.store.records == s.store.records - {item.record.request.id}
          && t.processes[p].pc == Evicting(pc.now, pc.todo - {item}, pc.scanned, item.record, pc.answer)
        else t == Goto(s, p, Judging(pc.now, pc.todo - {item}, pc.scanned, pc.answer))
  {
    hide IsVictim;
  }

  /** What lies on disk for the request of a scanned record, as a pruner that looked now would read it. */
  function Now(s: Store, item: Scanned): Scanned
    requires item.record.request.id in s.records
  {
    var r := s.records[item.record.request.id];
    Scanned(r, LookupWinner(s, r))
  }

  /** A pruner that looked at this request now would keep its record, breaking ties the same way. */
  predicate WouldKeep(s: Store, scanned: set<Scanned>, item: Scanned, now: int, last: bool) {
    && item.record.request.id in s.records
    && !IsVictim(scanned - {item} + {Now(s, item)}, Now(s, item), now, last)
  }

  /** Since the scan the request was registered anew, or its record was resolved. */
  predicate ChangedSinceScan(s: Store, item: Scanned) {
    && item.record.request.id in s.records
    && var r := s.records[item.record.request.id];
       || r.generation > item.record.generation
       || (r == item.record && item.winner.None? && LookupWinner(s, r).Some?)
  }

  lemma {:induction false} ItemIsScanned(s: System, p: Pid, item: Scanned)
    requires Inv(s) && p in s.processes && s.processes[p].pc.Judging? && item in s.processes[p].pc.todo
    ensures ScanOk(s.store, item)
  {
    hide StoreOk, ExpiringOk, ScanOk, ReportOk;
    assert PcOk(s.store, CandidateOf(s, p), p, s.processes[p]);
  }

  lemma {:induction false} UnchangedIsTheItem(s: Store, item: Scanned)
    requires ScanOk(s, item) && StoreOk(s) && item.record.request.id in s.records && !ChangedSinceScan(s, item)
    ensures Now(s, item) == item
  {
    hide LinksOk, PublishedOk, ValidWinner;
    var r := s.records[item.record.request.id];
    assert Known(s, r) && Known(s, item.record);
    assert r == item.record;
  }

  lemma {:induction false} KeptOnlyWhenChanged(s: Store, scanned: set<Scanned>, item: Scanned, now: int, last: bool)
    requires StoreOk(s) && ScanOk(s, item) && IsVictim(scanned, item, now, last)
    ensures WouldKeep(s, scanned, item, now, last) ==> ChangedSinceScan(s, item)
  {
    if item.record.request.id in s.records && !ChangedSinceScan(s, item) {
      UnchangedIsTheItem(s, item);
      assert scanned - {item} + {item} == scanned;
    }
    hide StoreOk, ScanOk, LookupWinner, Outranking;
  }

  /** The process is a pruner about to evict this record, which it scanned earlier. */
  predicate IsEvicting(s: System, p: Pid, item: Scanned, last: bool) {
    && p in s.processes && s.processes[p].pc.Judging? && item in s.processes[p].pc.todo
    && IsVictim(s.processes[p].pc.scanned, item, s.processes[p].pc.now, last)
  }

  /**
   A pruner unlinks by path what it judged earlier, whatever lies there now, which is never
   older than what it scanned. It takes away a record that it would keep if it looked now only
   when the request was registered anew or resolved since the scan.
   */
  lemma {:induction false} EvictsKeptOnlyWhenChanged(events: seq<Event>, p: Pid, item: Scanned, last: bool)
    requires IsEvicting(Run(Init(), events), p, item, last)
    ensures var s := Run(Init(), events);
      var pc := s.processes[p].pc;
      var id := item.record.request.id;
      && Next(s, Judge(p, item, last)).store.records == s.store.records - {id}
      && (id in s.store.records ==> s.store.records[id].generation >= item.record.generation)
      && (WouldKeep(s.store, pc.scanned, item, pc.now, last) ==> ChangedSinceScan(s.store, item))
  {
    var s := Run(Init(), events);
    RunKeepsInv(events);
    ItemIsScanned(s, p, item);
    assert StoreOk(s.store) by { RunIsOk(events); }
    hide Inv, Run, StoreOk, WouldKeep, ChangedSinceScan, IsVictim;
    KeptOnlyWhenChanged(s.store, s.processes[p].pc.scanned, item, s.processes[p].pc.now, last);
  }

  /**
   The clocks agree about a change since the scan: its time is within a day of the sweep's, and
   later than those of all others, if the sweep found more than it may keep.
   */
  predicate ClocksAgree(s: Store, scanned: set<Scanned>, item: Scanned, now: int) {
    ChangedSinceScan(s, item) ==>
      && now - TimeOf(Now(s, item)) <= TERMINAL_RETENTION_MS
      && (|scanned| > MAX_RECORDS ==> forall x :: x in scanned && x != item ==> TimeOf(x) < TimeOf(Now(s, item)))
  }

  /** With clocks that agree, that is exactly when. */
  lemma {:induction false} EvictsKeptExactlyWhen(events: seq<Event>, p: Pid, item: Scanned, last: bool)
    requires IsEvicting(Run(Init(), events), p, item, last)
    requires var s := Run(Init(), events);
      ClocksAgree(s.store, s.processes[p].pc.scanned, item, s.processes[p].pc.now)
    ensures var s := Run(Init(), events);
      var pc := s.processes[p].pc;
      WouldKeep(s.store, pc.scanned, item, pc.now, last) <==> ChangedSinceScan(s.store, item)
  {
    var s := Run(Init(), events);
    var pc := s.processes[p].pc;
    EvictsKeptOnlyWhenChanged(events, p, item, last);
    hide Run, LookupWinner;
    if ChangedSinceScan(s.store, item) { FewOutrank(pc.scanned, item, Now(s.store, item), last); }
    hide ChangedSinceScan, Outranking, Now;
  }

  lemma {:induction false} FewOutrank(scanned: set<Scanned>, item: Scanned, again: Scanned, last: bool)
    requires item in scanned
    requires |scanned| > MAX_RECORDS ==> forall x :: x in scanned && x != item ==> TimeOf(x) < TimeOf(again)
    ensures Outranking(scanned - {item} + {again}, again, last) < MAX_RECORDS
  {
    var above := set x | x in scanned - {item} + {again} && x != again
      && (TimeOf(x) > TimeOf(again) || (last && TimeOf(x) == TimeOf(again)));
    assert above <= scanned - {item};
    SubsetIsSmaller(above, scanned - {item});
    OneFewer(scanned, item);
    if |scanned| > MAX_RECORDS { assert above == {}; }
  }

  lemma {:induction false} SubsetIsSmaller<T>(a: set<T>, b: set<T>)
    requires a <= b
    ensures |a| <= |b|
  {
    assert b == a + (b - a);
  }

  const AGAIN := Register(REQUEST, LATE)
  const RECORD_AGAIN := Record(REQUEST, LATE, 1, Fingerprint("r", None, false, ""))

  /** A registration of the same request a day later finds the old record stale. */
  lemma {:induction false} FindsStale(s: System, p: Pid) returns (t: System)
    requires Reachable(s) && p !in s.processes
    requires s.store.records == map["r" := RECORD] && s.store.winners == map[]
    ensures Reachable(t) && t.store == s.store && t.candidates == s.candidates
    ensures t.processes == s.processes[p := Process(AGAIN, None, AtWriteRecord)]
  {
    hide Reachable, OnLink, OnChmod, OnLostLink, OnPrune;
    var s1 := Next(s, Spawn(p, AGAIN));
    var s2 := Next(s1, Advance(p));
    assert s2.processes[p].pc == AtWinner(RECORD);
    t := Next(s2, Advance(p));
    Step(s, Spawn(p, AGAIN)); Step(s1, Advance(p)); Step(s2, Advance(p));
  }

  /** It then publishes a new generation. */
  lemma {:induction false} PublishAgain(s: System, p: Pid) returns (t: System)
    requires Reachable(s) && p !in s.processes
    requires s.store.records == map["r" := RECORD] && s.store.winners == map[] && s.store.nextGeneration == 1
    ensures Reachable(t) && t.candidates == s.candidates
    ensures t.store.records == map["r" := RECORD_AGAIN] && t.store.winners == map[]
    ensures t.processes ==
      s.processes[p := Process(AGAIN, None, AtListing(LATE, Registered(HandleOf(RECORD_AGAIN), true)))]
  {
    hide Reachable, OnRecord, OnWinner, OnLink, OnChmod, OnLostLink, OnPrune;
    var s1 := FindsStale(s, p);
    var s2 := Next(s1, Advance(p));
    assert s2.processes[p].pc == AtChmodRecord(RECORD_AGAIN);
    t := Next(s2, Advance(p));
    Step(s1, Advance(p)); Step(s2, Advance(p));
  }

  /** Its own pruning keeps the new record, and it returns. */
  lemma {:induction false} RegisterAgain(s: System, p: Pid) returns (t: System)
    requires Reachable(s) && p !in s.processes && s.candidates == map[]
    requires s.store.records == map["r" := RECORD] && s.store.winners == map[] && s.store.nextGeneration == 1
    ensures Reachable(t) && t.store.records == map["r" := RECORD_AGAIN] && t.store.winners == map[]
    ensures t.processes == s.processes[p := Process(AGAIN, None, Done(Registered(HandleOf(RECORD_AGAIN), true)))]
  {
    hide Reachable;
    var a := Registered(HandleOf(RECORD_AGAIN), true);
    var item := Scanned(RECORD_AGAIN, None);
    var s1 := PublishAgain(s, p);
    var s2 := ScanOne(s1, p, LATE, a, RECORD_AGAIN);
    t := KeepOne(s2, p, LATE, a, item);
  }

  /** A pruner that keeps the one record it read, and finds no artifacts. */
  lemma {:induction false} KeepOne(s: System, p: Pid, now: int, a: Answer, item: Scanned) returns (t: System)
    requires Reachable(s) && p in s.processes && s.processes[p].pc == Judging(now, {item}, {item}, a)
    requires now - TimeOf(item) <= TERMINAL_RETENTION_MS && s.store.winners == map[] && s.candidates == map[]
    ensures Reachable(t) && t.store == s.store
    ensures t.processes == s.processes[p := s.processes[p].(pc := Done(a))]
  {
    hide Reachable, OnRecord, OnWinner, OnLink, OnChmod, OnLostLink, OnWriteRecord, OnChmodRecord;
    NothingOutranksOne(item);
    hide Outranking;
    var s1 := Next(s, Judge(p, item, false));
    assert s1.processes[p].pc == Judging(now, {}, {item}, a);
    var s2 := Next(s1, Advance(p));
    assert s2.processes[p].pc == AtArtifacts(a);
    var s3 := Next(s2, Advance(p));
    assert s3.processes[p].pc == Inspecting({}, {}, a);
    t := Next(s3, Advance(p));
    Step(s, Judge(p, item, false)); Step(s1, Advance(p)); Step(s2, Advance(p)); Step(s3, Advance(p));
  }

  lemma {:induction false} NothingOutranksOne(item: Scanned)
    ensures Outranking({item}, item, false) == 0
  {
    assert (set x | x in {item} && x != item && TimeOf(x) > TimeOf(item)) == {};
  }

  /**
   A pruner that scanned the old record of a request and unlinks its path only after the
   request was registered anew takes the new record away: the registration has returned a
   handle that no call will ever be answered for.
   */
  lemma {:induction false} LatePrunerDropsAFreshRecord() returns (s: System)
    ensures Reachable(s) && 2 in s.processes
    ensures s.processes[2] == Process(AGAIN, None, Done(Registered(HandleOf(RECORD_AGAIN), true)))
    ensures "r" !in s.store.records
  {
    hide Reachable;
    var item := Scanned(RECORD, None);
    var s1 := RegisterAlone();
    var s2 := PrunerAlone(s1, 1, LATE, RECORD);
    var s3 := RegisterAgain(s2, 2);
    s := DropOne(s3, 1, LATE, item);
  }

  /**
   The same with a record that is resolved after the scan: at the very time the pruner counts
   from, a call resolves the request, and the pruner drops the record with its new winner.
   */
  lemma {:induction false} LatePrunerDropsAFreshWinner() returns (before: System, s: System)
    ensures Reachable(before) && Reachable(s) && s == Next(before, Judge(1, Scanned(RECORD, None), false))
    ensures Returned(before, 2, NameOf(RECORD), CancelledAt(LATE).outcome, true)
    ensures 1 in before.processes && before.processes[1].pc.Judging? && before.processes[1].pc.now == LATE
    ensures "r" in before.store.records && EffectiveAt(before.store, RECORD) == LATE
    ensures "r" !in s.store.records
  {
    var item := Scanned(RECORD, None);
    var s1 := RegisterAlone();
    var s2 := PrunerAlone(s1, 1, LATE, RECORD);
    var s3 := Contend(s2, 2, LATE);
    before := FreeNameResolves(s3, 2, RECORD, CancelledAt(LATE));
    assert LookupWinner(before.store, RECORD) == Some(CancelledAt(LATE));
    hide Reachable, LookupWinner;
    s := DropOne(before, 1, LATE, item);
  }

  // ---------------------------------------------------------------------------
  // A late decision and a new registration
  // ---------------------------------------------------------------------------

  const TOO_LATE := Accept(Decision("r", Allow, None, 1, false, None), LATE, None)

  /** An accepted decision finds the record, and finds that it comes too late for it. */
  lemma {:induction false} AcceptTooLate(s: System, p: Pid) returns (t: System)
    requires Reachable(s) && p !in s.processes
    requires s.store.records == map["r" := RECORD] && s.store.winners == map[]
    ensures Reachable(t) && t.store == s.store && t.candidates == s.candidates
    ensures t.processes == s.processes[p := Process(TOO_LATE, Some(RECORD), AtRecord)]
  {
    hide Reachable, OnLink, OnChmod, OnLostLink, OnPrune;
    var s1 := Next(s, Spawn(p, TOO_LATE));
    var s2 := Next(s1, Advance(p));
    assert s2.processes[p].pc == AtWinner(RECORD);
    t := Next(s2, Advance(p));
    Step(s, Spawn(p, TOO_LATE)); Step(s1, Advance(p)); Step(s2, Advance(p));
  }

  const EXPIRED_AGAIN := Winner("r", None, 1, LATE,
    Terminal(Expired, Resolved("r", Expired, Some(Deny), None, Some("system"), LATE)))

  /** Starting over as an expiry, it finds the record of the new registration. */
  lemma {:induction false} ExpireAgain(s: System, p: Pid) returns (t: System)
    requires Reachable(s) && p in s.processes && s.processes[p] == Process(TOO_LATE, Some(RECORD), AtRecord)
    requires s.store.records == map["r" := RECORD_AGAIN] && s.store.winners == map[]
    ensures Reachable(t) && t.store == s.store
    ensures t.processes == s.processes[p := Process(TOO_LATE, Some(RECORD), AtCandidate(RECORD_AGAIN, EXPIRED_AGAIN))]
  {
    hide Reachable, OnLink, OnChmod, OnLostLink, OnPrune;
    var s1 := Next(s, Advance(p));
    assert s1.processes[p].pc == AtWinner(RECORD_AGAIN);
    t := Next(s1, Advance(p));
    Step(s, Advance(p)); Step(s1, Advance(p));
  }

  /**
   A decision made without a handle that came too late for one registration expires the next:
   the request was registered anew between the two looks, and is resolved at age zero.
   */
  lemma {:induction false} LateDecisionExpiresANewRequest() returns (s: System)
    ensures Reachable(s)
    ensures 1 in s.processes && s.processes[1].call == TOO_LATE
    ensures Returned(s, 1, NameOf(RECORD_AGAIN), EXPIRED_AGAIN.outcome, true)
    ensures TOO_LATE.now - RECORD_AGAIN.updatedAt == 0
  {
    hide Reachable;
    var s1 := RegisterAlone();
    var s2 := AcceptTooLate(s1, 1);
    var s3 := RegisterAgain(s2, 2);
    var s4 := ExpireAgain(s3, 1);
    s := FreeNameResolves(s4, 1, RECORD_AGAIN, EXPIRED_AGAIN);
  }

  // ---------------------------------------------------------------------------
  // A request that was registered and allowed
  // ---------------------------------------------------------------------------

  const ALLOW := Accept(Decision("r", Allow, None, 1, true, None), 1, None)
  const ALLOWED := Winner("r", None, 0, 1, Decided(Decision("r", Allow, None, 1, true, None)))

  /** The first registration prunes, keeps its record, and returns. */
  lemma {:induction false} RegistrationReturns() returns (t: System)
    ensures Reachable(t) && t.store.records == map["r" := RECORD] && t.store.winners == map[]
    ensures t.processes == map[0 := Process(REGISTER, None, Done(Registered(HandleOf(RECORD), true)))]
  {
    hide OnRecord, OnWinner, OnLink, OnChmod, OnLostLink, OnPrune;
    var s1 := RegisterAlone();
    var s2 := Next(s1, Advance(0));
    Step(s1, Advance(0));
    hide Reachable, OnAdvance;
    var a := Registered(HandleOf(RECORD), true);
    var s3 := ScanOne(s2, 0, 0, a, RECORD);
    t := KeepOne(s3, 0, 0, a, Scanned(RECORD, None));
  }

  /** Then a decision allows the request, and its winner lies on disk beside the live record. */
  lemma {:induction false} RequestIsAllowed() returns (t: System)
    ensures Reachable(t) && t.store.records == map["r" := RECORD] && t.store.winners == map[NameOf(RECORD) := ALLOWED]
    ensures 0 in t.processes && t.processes[0] == Process(REGISTER, None, Done(Registered(HandleOf(RECORD), true)))
  {
    hide Reachable, OnLink, OnChmod, OnLostLink, OnPrune;
    var s1 := RegistrationReturns();
    var s2 := Next(s1, Spawn(1, ALLOW));
    var s3 := Next(s2, Advance(1));
    assert s3.processes[1].pc == AtWinner(RECORD);
    var s4 := Next(s3, Advance(1));
    assert s4.processes[1].pc == AtCandidate(RECORD, ALLOWED);
    Step(s1, Spawn(1, ALLOW)); Step(s2, Advance(1)); Step(s3, Advance(1));
    t := FreeNameResolves(s4, 1, RECORD, ALLOWED);
  }
}
