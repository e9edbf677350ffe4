/**
 Agreement on approval outcomes, for every interleaving of every number of processes.

 `Inv` is kept by every event. The proof separates what one process owns (`PcOk`) from
 what all share (`StoreOk`), and shows that other processes only ever see the shared
 state `Grow`.
 */
module ApprovalAgreement {
  import opened Basics
  import opened Approvals

  // ---------------------------------------------------------------------------
  // The invariant
  // ---------------------------------------------------------------------------

  ghost predicate Known(s: Store, r: Record) {
    && r.generation in s.published
    && s.published[r.generation] == r
    && r.generation < s.nextGeneration
  }

  /** Read from the disk at some time: no older record of its request lies there now. */
  ghost predicate Seen(s: Store, r: Record) {
    Known(s, r) && (r.request.id in s.records ==> s.records[r.request.id].generation >= r.generation)
  }

  /** A linked decision is in time, and does not allow a question without answering it. */
  ghost predicate IsAdmissible(w: Winner, r: Record) {
    w.outcome.Decided? ==>
      && w.acceptedAt - r.updatedAt <= MAX_PENDING_AGE_MS
      && (r.request.isQuestion && w.outcome.decision.verdict == Allow ==> w.outcome.decision.answers)
  }

  /** The outcome is what the call asked for: its decision's verdict, or its terminal status. */
  predicate Says(c: Call, o: Outcome) {
    match c
    case Accept(d, _, _) =>
      && o.Decided? && o.decision.requestId == d.requestId && o.decision.verdict == d.verdict
      && o.decision.answers == d.answers && o.decision.decidedBy == d.decidedBy
    case MarkTerminal(id, status, options, _, _) =>
      && o.Terminal? && o.status == status && o.resolved.requestId == id
      && o.resolved.verdict == options.verdict && o.resolved.decidedBy == options.decidedBy
    case _ => false
  }

  /** Issued, and no longer the record on disk. Such a name never becomes live again. */
  ghost predicate Gone(s: Store, name: WinnerName) {
    name.generation < s.nextGeneration && !Live(s, name)
  }

  ghost predicate NameOk(s: Store, name: WinnerName) {
    && name.generation in s.published
    && NameOf(s.published[name.generation]) == name
    && name.generation < s.nextGeneration
  }

  ghost predicate LinksOk(s: Store, name: WinnerName) {
    && NameOk(s, name)
    && LinksOf(s, name) != []
    && (forall l :: l in LinksOf(s, name) ==>
          && Says(l.call, l.winner.outcome)
          && ValidWinner(l.winner, s.published[name.generation])
          && IsAdmissible(l.winner, s.published[name.generation]))
    && (name in s.winners ==> s.winners[name] == LinksOf(s, name)[|LinksOf(s, name)| - 1].winner)
    && (name !in s.removed ==> |LinksOf(s, name)| == 1 && name in s.winners)
  }

  ghost predicate PublishedOk(s: Store, g: nat)
    requires g in s.published
  {
    && g < s.nextGeneration
    && s.published[g].generation == g
    && s.published[g].fingerprint == FingerprintOf(s.published[g].request)
  }

  ghost predicate StoreOk(s: Store) {
    && (forall id :: id in s.records ==> s.records[id].request.id == id && Known(s, s.records[id]))
    && (forall g :: g in s.published ==> PublishedOk(s, g))
    && (forall name :: name in s.winners ==> name in s.links)
    && (forall name :: name in s.links ==> LinksOk(s, name))
    && (forall name :: name in s.removed ==> name in s.links && Gone(s, name))
  }

  ghost predicate Linked(s: Store, r: Record, o: Outcome) {
    exists l :: l in LinksOf(s, NameOf(r)) && l.winner.outcome == o
  }

  ghost predicate LinkedBy(s: Store, p: Pid, c: Call, r: Record, o: Outcome) {
    exists l :: l in LinksOf(s, NameOf(r)) && l.winner.outcome == o && l.pid == p && l.call == c
  }

  /** A record that a call has read and that admits the call. */
  ghost predicate Held(s: Store, c: Call, r: Record) {
    Known(s, r) && r.request.id == Target(c) && Admits(r, c)
  }

  ghost predicate AnswerOk(s: Store, p: Pid, c: Call, a: Answer) {
    match a
    case Resolution(r, o, newly) => !c.Register? && Held(s, c, r) && Linked(s, r, o)
          && (newly ==> LinkedBy(s, p, c, r, o) && InTime(c, r))
    case Registered(h, newly) =>
      && c.Register?
      && h.generation in s.published
      && h == HandleOf(s.published[h.generation])
      && h.fingerprint == FingerprintOf(c.request)
      && h.requestId == c.request.id
      && h.generation < s.nextGeneration
      && (newly ==> s.published[h.generation] == Record(c.request, c.now, h.generation, FingerprintOf(c.request)))
    case NoMatch =>
      IsEntitled(s, c) ==> Gone(s, WinnerName(Expected(c).value.requestId, Expected(c).value.generation))
    case _ => true
  }

  /** The handle was issued for a request with this id and session. */
  ghost predicate OwnHandle(s: Store, h: Handle, id: string, session: Option<string>) {
    && h.generation in s.published
    && s.published[h.generation].request.id == id
    && Matches(s.published[h.generation], Some(h))
    && NormalizedSession(session) == NormalizedSession(s.published[h.generation].request.session)
  }

  /** The call may resolve the generation of its handle: it is of its request and session, and answers its question. */
  ghost predicate IsEntitled(s: Store, c: Call) {
    && Expected(c).Some?
    && match c
       case Accept(d, _, Some(h)) =>
         && OwnHandle(s, h, d.requestId, d.session)
         && (d.verdict == Allow && s.published[h.generation].request.isQuestion ==> d.answers)
       case MarkTerminal(id, _, options, _, Some(h)) => OwnHandle(s, h, id, options.session)
       case _ => false
  }

  /** An accepted decision is in time for the record it resolves. */
  predicate InTime(c: Call, r: Record) {
    c.Accept? ==> c.now - r.updatedAt <= MAX_PENDING_AGE_MS
  }

  /** The record that a process has in hand, or has answered for. */
  function RecordIn(pc: Pc): Option<Record> {
    match pc
    case AtWinner(r) => Some(r)
    case AtCandidate(r, _) => Some(r)
    case AtLink(r, _) => Some(r)
    case AtChmod(r, _) => Some(r)
    case AtLostLink(r) => Some(r)
    case AtUnlink(Resolution(r, _, _)) => Some(r)
    case Done(Resolution(r, _, _)) => Some(r)
    case _ => None
  }

  /** A decision that turned into an expiry was late for a record it read, and reads none older than that. */
  ghost predicate ExpiringOk(s: Store, proc: Process) {
    proc.expiring.Some? ==>
      && proc.call.Accept?
      && var r := proc.expiring.value;
         && Seen(s, r) && r.request.id == proc.call.decision.requestId && Matches(r, proc.call.expected)
         && NormalizedSession(r.request.session) == NormalizedSession(proc.call.decision.session)
         && proc.call.now - r.updatedAt > MAX_PENDING_AGE_MS
         && (RecordIn(proc.pc).Some? ==> RecordIn(proc.pc).value.generation >= r.generation)
  }

  /** Only these calls contend for a winner. */
  predicate Resolves(c: Call) {
    c.Accept? || c.MarkTerminal?
  }

  /** `candidate` is the candidate file this process has on disk, if any. */
  ghost predicate PcOk(s: Store, candidate: Option<Winner>, p: Pid, proc: Process) {
    var c := Acting(proc);
    && (Expected(c).Some? ==> Expected(c).value.generation < s.nextGeneration)
    && ExpiringOk(s, proc)
    && PruneOk(s, p, c, proc.pc)
    && match proc.pc
       case AtWinner(r) => Held(s, c, r) && Seen(s, r)
       case AtCandidate(r, w) => Contends(s, c, r, w)
       case AtLink(r, w) => Contends(s, c, r, w) && (candidate.Some? ==> candidate.value == w)
       case AtChmod(r, w) => Resolves(c) && Held(s, c, r) && InTime(c, r) && LinkedBy(s, p, c, r, w.outcome)
       case AtLostLink(r) => Resolves(c) && Held(s, c, r) && NameOf(r) in s.links
       case AtUnlink(a) => Resolves(c) && AnswerOk(s, p, c, a)
       case Done(a) => AnswerOk(s, p, c, a)
       case AtWriteRecord => c.Register?
       case AtChmodRecord(r) =>
         Known(s, r) && c.Register? && r == Record(c.request, c.now, r.generation, FingerprintOf(c.request))
       case _ => true
  }

  predicate IsPruning(pc: Pc) {
    || pc.AtListing? || pc.Scanning? || pc.ScanningWinner? || pc.Judging? || pc.Evicting?
    || pc.AtArtifacts? || pc.Inspecting? || pc.AtOrphan?
  }

  /** What a pruner answers once it is through: it pruned for itself, or for a registration. */
  ghost predicate ReportOk(s: Store, p: Pid, c: Call, a: Answer) {
    (a.Registered? || a.Pruned?) && AnswerOk(s, p, c, a)
  }

  /** What a pruner has scanned, and what it is about to drop. */
  ghost predicate SweepOk(s: Store, pc: Pc) {
    && (pc.Scanning? || pc.ScanningWinner? || pc.Judging? || pc.Evicting? ==> ScannedOk(s, pc.scanned))
    && (pc.Judging? || pc.Evicting? ==> pc.todo <= pc.scanned)
    && (pc.ScanningWinner? ==> Seen(s, pc.item))
    && (pc.Evicting? ==> Gone(s, NameOf(pc.item)))
    && (pc.AtOrphan? ==> Gone(s, pc.name))
  }

  /** The same for the steps of a pruner. */
  ghost predicate PruneOk(s: Store, p: Pid, c: Call, pc: Pc) {
    IsPruning(pc) ==> ReportOk(s, p, c, pc.answer) && SweepOk(s, pc)
  }

  ghost predicate Contends(s: Store, c: Call, r: Record, w: Winner) {
    Held(s, c, r) && Resolves(c) && InTime(c, r) && Says(c, w.outcome) && ValidWinner(w, r) && IsAdmissible(w, r)
  }

  /** While the record lies on disk, the winner that was found for it is still there. */
  ghost predicate ScanOk(s: Store, x: Scanned) {
    && Seen(s, x.record)
    && (x.winner.Some? && Live(s, NameOf(x.record)) ==> LookupWinner(s, x.record) == x.winner)
  }

  ghost predicate ScannedOk(s: Store, scanned: set<Scanned>) {
    forall x :: x in scanned ==> ScanOk(s, x)
  }

  function CandidateOf(s: System, p: Pid): Option<Winner> {
    if p in s.candidates then Some(s.candidates[p]) else None
  }

  ghost predicate Inv(s: System) {
    && StoreOk(s.store)
    && (forall p :: p in s.processes ==> PcOk(s.store, CandidateOf(s, p), p, s.processes[p]))
  }

  // ---------------------------------------------------------------------------
  // What one step of anybody may do to the rest
  // ---------------------------------------------------------------------------

  /** History only grows, and what is gone stays gone. */
  ghost predicate Grows(s: Store, t: Store) {
    && s.nextGeneration <= t.nextGeneration
    && (forall g :: g in s.published ==> g in t.published && t.published[g] == s.published[g])
    && (forall g :: g in t.published && g < s.nextGeneration ==> g in s.published)
    && (forall name :: name in s.links ==> name in t.links && s.links[name] <= t.links[name])
    && (forall name :: Gone(s, name) ==> Gone(t, name))
    && (forall id :: id in t.records ==>
          t.records[id].generation >= s.nextGeneration
          || (id in s.records && t.records[id].generation >= s.records[id].generation))
    && (forall name :: name in s.winners && Live(t, name) ==> name in t.winners && t.winners[name] == s.winners[name])
  }

  lemma {:induction false} AnswerStable(s: Store, t: Store, p: Pid, c: Call, a: Answer)
    requires Grows(s, t) && StoreOk(s) && AnswerOk(s, p, c, a)
    requires Expected(c).Some? ==> Expected(c).value.generation < s.nextGeneration
    ensures AnswerOk(t, p, c, a)
  {
    if a.Resolution? {
      var r, o := a.record, a.outcome;
      var l :| l in LinksOf(s, NameOf(r)) && l.winner.outcome == o;
      assert l in LinksOf(t, NameOf(r));
      if a.newlyResolved {
        var m :| m in LinksOf(s, NameOf(r)) && m.winner.outcome == o && m.pid == p && m.call == c;
        assert m in LinksOf(t, NameOf(r));
      }
    }
  }

  lemma {:induction false} SeenStable(s: Store, t: Store, r: Record)
    requires Grows(s, t) && Seen(s, r)
    ensures Seen(t, r)
  {
  }

  lemma {:induction false} ScanStable(s: Store, t: Store, x: Scanned)
    requires Grows(s, t) && ScanOk(s, x)
    ensures ScanOk(t, x)
  {
    hide ValidWinner;
    var name := NameOf(x.record);
    SeenStable(s, t, x.record);
    if x.winner.Some? && Live(t, name) {
      assert Live(s, name) by { assert !Gone(s, name); }
    }
  }

  lemma {:induction false} ScannedStable(s: Store, t: Store, scanned: set<Scanned>)
    requires Grows(s, t) && ScannedOk(s, scanned)
    ensures ScannedOk(t, scanned)
  {
    forall x | x in scanned ensures ScanOk(t, x) { ScanStable(s, t, x); }
  }

  lemma {:induction false} ReportStable(s: Store, t: Store, p: Pid, c: Call, a: Answer)
    requires Grows(s, t) && StoreOk(s) && ReportOk(s, p, c, a)
    requires Expected(c).Some? ==> Expected(c).value.generation < s.nextGeneration
    ensures ReportOk(t, p, c, a)
  {
    hide StoreOk, AnswerOk;
    AnswerStable(s, t, p, c, a);
  }

  lemma {:induction false} PruneStable(s: Store, t: Store, p: Pid, c: Call, pc: Pc)
    requires Grows(s, t) && StoreOk(s) && PruneOk(s, p, c, pc)
    requires Expected(c).Some? ==> Expected(c).value.generation < s.nextGeneration
    ensures PruneOk(t, p, c, pc)
  {
    hide StoreOk, ReportOk, ScannedOk, Seen, Gone;
    match pc
    case AtListing(_, a) => ReportStable(s, t, p, c, a);
    case Scanning(_, _, scanned, a) => ScannedStable(s, t, scanned); ReportStable(s, t, p, c, a);
    case ScanningWinner(_, _, scanned, item, a) =>
      ScannedStable(s, t, scanned);
      SeenStable(s, t, item);
      ReportStable(s, t, p, c, a);
    case Judging(_, _, scanned, a) => ScannedStable(s, t, scanned); ReportStable(s, t, p, c, a);
    case Evicting(_, _, scanned, _, a) => ScannedStable(s, t, scanned); ReportStable(s, t, p, c, a);
    case AtArtifacts(a) => ReportStable(s, t, p, c, a);
    case Inspecting(_, _, a) => ReportStable(s, t, p, c, a);
    case AtOrphan(_, _, _, a) => ReportStable(s, t, p, c, a);
    case _ =>
  }

  lemma {:induction false} ExpiringStable(s: Store, t: Store, proc: Process)
    requires Grows(s, t) && ExpiringOk(s, proc)
    ensures ExpiringOk(t, proc)
  {
    hide Seen, Matches, NormalizedSession, RecordIn;
    if proc.expiring.Some? { SeenStable(s, t, proc.expiring.value); }
  }

  /** Another process's step leaves this process's part of the invariant alone. */
  lemma {:induction false} PcStable(s: Store, t: Store, candidate: Option<Winner>, candidate': Option<Winner>, p: Pid,
        proc: Process)
    requires Grows(s, t) && StoreOk(s) && PcOk(s, candidate, p, proc)
    requires candidate' == candidate || candidate' == None
    ensures PcOk(t, candidate', p, proc)
  {
    hide StoreOk, PruneOk, ExpiringOk, Seen, Admits, InTime, Says, ValidWinner, IsAdmissible, AnswerOk;
    var c := Acting(proc);
    ExpiringStable(s, t, proc);
    PruneStable(s, t, p, c, proc.pc);
    match proc.pc
    case AtWinner(r) => SeenStable(s, t, r);
    case AtChmod(r, w) =>
      var m :| m in LinksOf(s, NameOf(r)) && m.winner.outcome == w.outcome && m.pid == p && m.call == c;
      assert m in LinksOf(t, NameOf(r));
    case AtUnlink(a) => AnswerStable(s, t, p, c, a);
    case Done(a) => AnswerStable(s, t, p, c, a);
    case _ =>
  }

  // ---------------------------------------------------------------------------
  // Session ids: normalising twice is normalising once
  // ---------------------------------------------------------------------------

  lemma {:induction false} TrimRightKeepsHead(s: string)
    requires s != [] && !IsBlank(s[0])
    ensures TrimRight(s) != [] && TrimRight(s)[0] == s[0] && !IsBlank(TrimRight(s)[|TrimRight(s)| - 1])
  {
    if IsBlank(s[|s| - 1]) { TrimRightKeepsHead(s[..|s| - 1]); }
  }

  lemma {:induction false} TrimLeftHead(s: string)
    ensures TrimLeft(s) != [] ==> !IsBlank(TrimLeft(s)[0])
  {
    if s != [] && IsBlank(s[0]) { TrimLeftHead(s[1..]); }
  }

  lemma {:induction false} NormalizedTwice(session: Option<string>)
    ensures NormalizedSession(NormalizedSession(session)) == NormalizedSession(session)
  {
    if session.Some? && TrimLeft(session.value) != [] {
      var u := TrimLeft(session.value);
      TrimLeftHead(session.value);
      TrimRightKeepsHead(u);
    }
  }

  // ---------------------------------------------------------------------------
  // The four operations that change the store
  // ---------------------------------------------------------------------------

  /** What is known of one name depends on that name only. */
  lemma {:induction false} SameLinks(s: Store, t: Store, n: WinnerName)
    requires LinksOk(s, n) && s.nextGeneration <= t.nextGeneration
    requires n.generation in s.published && n.generation in t.published
          && t.published[n.generation] == s.published[n.generation]
    requires LinksOf(t, n) == LinksOf(s, n) && (n in s.removed ==> n in t.removed)
    requires n in t.winners ==> n in s.winners && t.winners[n] == s.winners[n]
    requires n in s.winners && n !in t.winners ==> n in t.removed
    ensures LinksOk(t, n)
  {
    hide Says, ValidWinner, IsAdmissible;
  }

  lemma {:induction false} NameIsPublished(s: Store, n: WinnerName)
    requires LinksOk(s, n)
    ensures n.generation in s.published && n.generation < s.nextGeneration
  {
  }

  lemma {:induction false} AddLinkDecides(s: Store, r: Record, link: Link)
    requires StoreOk(s) && Known(s, r) && NameOf(r) !in s.winners
    requires Says(link.call, link.winner.outcome) && ValidWinner(link.winner, r) && IsAdmissible(link.winner, r)
    ensures LinksOk(AddLink(s, NameOf(r), link), NameOf(r))
    ensures LinkedBy(AddLink(s, NameOf(r), link), link.pid, link.call, r, link.winner.outcome)
  {
    var name := NameOf(r);
    var t := AddLink(s, name, link);
    assert link in LinksOf(t, name);
    if name in s.links { assert LinksOk(s, name); }
  }

  lemma {:induction false} AddLinkKeeps(s: Store, r: Record, link: Link)
    requires StoreOk(s) && Known(s, r) && NameOf(r) !in s.winners
    requires Says(link.call, link.winner.outcome) && ValidWinner(link.winner, r) && IsAdmissible(link.winner, r)
    ensures var t := AddLink(s, NameOf(r), link);
      StoreOk(t) && Grows(s, t) && LinkedBy(t, link.pid, link.call, r, link.winner.outcome)
  {
    hide LinksOk, Says, ValidWinner, IsAdmissible;
    var t := AddLink(s, NameOf(r), link);
    AddLinkDecides(s, r, link);
    forall n | n in t.links ensures LinksOk(t, n) {
      if n != NameOf(r) {
        NameIsPublished(s, n);
        SameLinks(s, t, n);
      }
    }
  }

  lemma {:induction false} PublishGrows(s: Store, r: Record)
    requires StoreOk(s) && r.generation == s.nextGeneration
    ensures Grows(s, Publish(s, r))
  {
    hide LinksOk;
  }

  lemma {:induction false} PublishKeepsLinks(s: Store, r: Record, n: WinnerName)
    requires StoreOk(s) && r.generation == s.nextGeneration && n in s.links
    ensures LinksOk(Publish(s, r), n)
  {
    hide PublishedOk, Known, Gone;
    assert LinksOk(s, n);
    NameIsPublished(s, n);
    hide StoreOk, LinksOk;
    SameLinks(s, Publish(s, r), n);
  }

  lemma {:induction false} PublishKeeps(s: Store, r: Record)
    requires StoreOk(s) && r.generation == s.nextGeneration && r.fingerprint == FingerprintOf(r.request)
    ensures StoreOk(Publish(s, r)) && Grows(s, Publish(s, r)) && Known(Publish(s, r), r)
  {
    PublishGrows(s, r);
    forall n | n in s.links ensures LinksOk(Publish(s, r), n) { PublishKeepsLinks(s, r, n); }
    hide LinksOk, FingerprintOf, Grows;
  }

  lemma {:induction false} RemoveWinnerKeeps(s: Store, name: WinnerName)
    requires StoreOk(s) && Gone(s, name)
    ensures StoreOk(RemoveWinner(s, name)) && Grows(s, RemoveWinner(s, name))
  {
    hide LinksOk;
    var t := RemoveWinner(s, name);
    forall n | n in t.links ensures LinksOk(t, n) {
      NameIsPublished(s, n);
      SameLinks(s, t, n);
    }
  }

  lemma {:induction false} RemoveRecordKeeps(s: Store, id: string)
    requires StoreOk(s)
    ensures StoreOk(RemoveRecord(s, id)) && Grows(s, RemoveRecord(s, id))
  {
    hide LinksOk;
    var t := RemoveRecord(s, id);
    forall n | n in t.links ensures LinksOk(t, n) {
      NameIsPublished(s, n);
      SameLinks(s, t, n);
    }
  }

  // ---------------------------------------------------------------------------
  // The steps of one process
  // ---------------------------------------------------------------------------

  /** What a step of process `p` must show: the rest of the invariant then follows. */
  ghost predicate StepOk(s: System, t: System, p: Pid) {
    && StoreOk(t.store) && Grows(s.store, t.store)
    && p in t.processes && PcOk(t.store, CandidateOf(t, p), p, t.processes[p])
    && (forall q :: q != p && q in t.processes ==> q in s.processes && t.processes[q] == s.processes[q])
    && (forall q :: q != p ==> CandidateOf(t, q) == CandidateOf(s, q) || CandidateOf(t, q) == None)
  }

  lemma {:induction false} StepKeepsInv(s: System, t: System, p: Pid)
    requires Inv(s) && StepOk(s, t, p)
    ensures Inv(t)
  {
    forall q | q in t.processes ensures PcOk(t.store, CandidateOf(t, q), q, t.processes[q]) {
      if q != p { PcStable(s.store, t.store, CandidateOf(s, q), CandidateOf(t, q), q, s.processes[q]); }
    }
  }

  ghost predicate Ready(s: System, p: Pid) {
    StoreOk(s.store) && p in s.processes && PcOk(s.store, CandidateOf(s, p), p, s.processes[p])
  }

  /** A winner on disk is valid, and is one of the links made for its name. */
  lemma {:induction false} WinnerOnDisk(s: Store, r: Record)
    requires StoreOk(s) && Known(s, r) && NameOf(r) in s.winners
    ensures LookupWinner(s, r) == Some(s.winners[NameOf(r)])
    ensures Linked(s, r, s.winners[NameOf(r)].outcome)
  {
    var ls := LinksOf(s, NameOf(r));
    assert LinksOk(s, NameOf(r));
    assert ls[|ls| - 1] in ls;
  }

  /** The name exists for a loser, unless it was already removed as nobody's. */
  lemma {:induction false} LostLink(s: Store, r: Record)
    requires StoreOk(s) && Known(s, r) && NameOf(r) in s.links
    ensures NameOf(r) in s.winners ==> LookupWinner(s, r).Some? && Linked(s, r, LookupWinner(s, r).value.outcome)
    ensures LookupWinner(s, r).None? ==> Gone(s, NameOf(r))
  {
    assert LinksOk(s, NameOf(r));
    if NameOf(r) in s.winners { WinnerOnDisk(s, r); }
  }

  /** A step that changes only the process itself. */
  lemma {:induction false} OwnStep(s: System, p: Pid, proc: Process)
    requires StoreOk(s.store) && PcOk(s.store, CandidateOf(s, p), p, proc)
    ensures StepOk(s, s.(processes := s.processes[p := proc]), p)
  {
    hide StoreOk, PcOk;
    NothingGrows(s.store);
    hide Grows;
  }

  lemma {:induction false} RecordStep(s: System, p: Pid)
    requires Ready(s, p) && s.processes[p].pc.AtRecord?
    ensures StepOk(s, OnRecord(s, p), p)
  {
    hide StoreOk, Admits, Matches, AnswerOk, StepOk;
    var c := Acting(s.processes[p]);
    match LookupRecord(s.store, Target(c)) {
      case Some(r) =>
        DiskIsSeen(s.store, Target(c));
        if !Admits(r, c) { UnadmittedIsNoMatch(s.store, p, c, r); }
      case None => AbsentIsNoMatch(s.store, p, c);
    }
    OwnStep(s, p, OnRecord(s, p).processes[p]);
  }

  /** No record on disk: the generation of the handle is gone. */
  lemma {:induction false} AbsentIsNoMatch(s: Store, p: Pid, c: Call)
    requires StoreOk(s) && LookupRecord(s, Target(c)).None?
    requires Expected(c).Some? ==> Expected(c).value.generation < s.nextGeneration
    ensures AnswerOk(s, p, c, NoMatch)
  {
    hide LinksOk, PublishedOk;
  }

  /** A record that does not admit the call is of another generation than its handle. */
  lemma {:induction false} UnadmittedIsNoMatch(s: Store, p: Pid, c: Call, r: Record)
    requires StoreOk(s) && LookupRecord(s, Target(c)) == Some(r) && !Admits(r, c)
    requires Expected(c).Some? ==> Expected(c).value.generation < s.nextGeneration
    ensures AnswerOk(s, p, c, NoMatch)
  {
    hide LinksOk, PublishedOk, NormalizedSession;
  }

  lemma {:induction false} NewContender(s: Store, c: Call, r: Record)
    requires Held(s, c, r) && (c.Accept? ==> c.now - r.updatedAt <= MAX_PENDING_AGE_MS)
    ensures c.Accept? ==> Contends(s, c, r, WinnerFor(r, Decided(StoredDecision(c.decision, r, c.now)), c.now))
    ensures c.MarkTerminal? ==> Contends(s, c, r, WinnerFor(r, TerminalOutcome(c, r), c.now))
  {
    hide NormalizedSession;
    NormalizedTwice(r.request.session);
  }

  /** A decision found to be late goes on as an expiry. */
  lemma {:induction false} LateIsExpiring(s: Store, proc: Process, r: Record)
    requires proc.call.Accept? && Held(s, proc.call, r) && Seen(s, r)
    requires proc.call.now - r.updatedAt > MAX_PENDING_AGE_MS
    ensures ExpiringOk(s, proc.(expiring := Some(r), pc := AtRecord))
  {
    hide Seen, Matches, NormalizedSession;
  }

  lemma {:induction false} PruneHoldsNothing(s: Store, c: Call, r: Record)
    requires Held(s, c, r)
    ensures !c.Prune?
  {
  }

  lemma {:induction false} WinnerStep(s: System, p: Pid, r: Record)
    requires Ready(s, p) && s.processes[p].pc == AtWinner(r)
    ensures StepOk(s, OnWinner(s, p, r), p)
  {
    hide StoreOk, Grows, StepOk, LinkedBy, Linked, Contends, WinnerFor, TerminalOutcome, StoredDecision;
    hide Seen, Matches, ExpiringOk, Admits, Says;
    var proc := s.processes[p];
    var c := Acting(proc);
    var proc' := OnWinner(s, p, r).processes[p];
    PruneHoldsNothing(s.store, c, r);
    if NameOf(r) in s.store.winners { WinnerOnDisk(s.store, r); }
    if c.Register? { KnownIsPublished(s.store, r); }
    if !c.Accept? || c.now - r.updatedAt <= MAX_PENDING_AGE_MS { NewContender(s.store, c, r); }
    if proc'.expiring != proc.expiring {
      LateIsExpiring(s.store, proc, r);
    } else {
      ExpiringIgnoresPc(s.store, proc, proc'.pc);
    }
    OwnStep(s, p, proc');
  }

  lemma {:induction false} KnownIsPublished(s: Store, r: Record)
    requires StoreOk(s) && Known(s, r)
    ensures PublishedOk(s, r.generation)
  {
  }

  lemma {:induction false} WinnerHasLinks(s: Store, name: WinnerName)
    requires StoreOk(s) && name in s.winners
    ensures name in s.links
  {
    hide LinksOk, PublishedOk;
  }

  lemma {:induction false} LinkStep(s: System, p: Pid, r: Record, w: Winner)
    requires Ready(s, p) && s.processes[p].pc == AtLink(r, w)
    ensures StepOk(s, OnLink(s, p, r, w), p)
  {
    hide StoreOk, Admits, Matches, Seen, Says, ValidWinner, IsAdmissible, Gone, Grows;
    if p !in s.candidates {
      hide StepOk;
      OwnStep(s, p, OnLink(s, p, r, w).processes[p]);
    } else if NameOf(r) in s.store.winners {
      hide StepOk;
      WinnerHasLinks(s.store, NameOf(r));
      OwnStep(s, p, OnLink(s, p, r, w).processes[p]);
    } else {
      WinStep(s, p, r, w);
    }
  }

  lemma {:induction false} WinStep(s: System, p: Pid, r: Record, w: Winner)
    requires Ready(s, p) && s.processes[p].pc == AtLink(r, w)
    requires p in s.candidates && NameOf(r) !in s.store.winners
    ensures StepOk(s, OnLink(s, p, r, w), p)
  {
    hide StoreOk, Admits, Matches, Says, ValidWinner, IsAdmissible, Gone, LinkedBy, AnswerOk;
    var link := Link(p, Acting(s.processes[p]), w);
    AddLinkKeeps(s.store, r, link);
    var t := AddLink(s.store, NameOf(r), link);
    if s.processes[p].expiring.Some? { SeenStable(s.store, t, s.processes[p].expiring.value); }
    hide Grows, Seen, AddLink;
  }

  lemma {:induction false} ChmodStep(s: System, p: Pid, r: Record, w: Winner)
    requires Ready(s, p) && s.processes[p].pc == AtChmod(r, w)
    ensures StepOk(s, OnChmod(s, p, r, w), p)
  {
    hide StoreOk, Admits, Matches, Seen, Says, Gone, StepOk;
    LinkedByIsLinked(s.store, p, Acting(s.processes[p]), r, w.outcome);
    hide LinkedBy, Linked;
    OwnStep(s, p, OnChmod(s, p, r, w).processes[p]);
  }

  lemma {:induction false} LostLinkStep(s: System, p: Pid, r: Record)
    requires Ready(s, p) && s.processes[p].pc == AtLostLink(r)
    ensures StepOk(s, OnLostLink(s, p, r), p)
  {
    hide StoreOk, Seen, Says, Gone, StepOk, NormalizedSession;
    LostLink(s.store, r);
    hide LinkedBy, Linked, LookupWinner;
    OwnStep(s, p, OnLostLink(s, p, r).processes[p]);
  }

  lemma {:induction false} SettleStep(s: System, p: Pid)
    requires Ready(s, p)
    requires var pc := s.processes[p].pc; pc.AtCandidate? || pc.AtUnlink? || pc.AtChmodRecord?
    ensures StepOk(s, OnAdvance(s, p), p)
  {
    hide StoreOk, Admits, Matches, Seen, Says, ValidWinner, IsAdmissible, Grows, Gone, Linked, LinkedBy;
    NothingGrows(s.store);
    if s.processes[p].pc.AtChmodRecord? {
      KnownIsPublished(s.store, s.processes[p].pc.record);
    }
  }

  lemma {:induction false} LinkedByIsLinked(s: Store, p: Pid, c: Call, r: Record, o: Outcome)
    requires LinkedBy(s, p, c, r, o)
    ensures Linked(s, r, o)
  {
    var m :| m in LinksOf(s, NameOf(r)) && m.winner.outcome == o && m.pid == p && m.call == c;
  }

  lemma {:induction false} PublishStep(s: System, p: Pid)
    requires Ready(s, p) && s.processes[p].pc.AtWriteRecord?
    ensures StepOk(s, OnWriteRecord(s, p), p)
  {
    var c := Acting(s.processes[p]);
    PublishKeeps(s.store, Record(c.request, c.now, s.store.nextGeneration, FingerprintOf(c.request)));
  }

  /** A pruner's step that changes its program counter and perhaps the store. */
  lemma {:induction false} PrunerStep(s: System, p: Pid, pc: Pc, store: Store)
    requires Ready(s, p) && RecordIn(pc) == None && StoreOk(store) && Grows(s.store, store)
    requires match pc
             case Done(a) => AnswerOk(s.store, p, Acting(s.processes[p]), a)
             case _ => IsPruning(pc) && PruneOk(s.store, p, Acting(s.processes[p]), pc)
    ensures StepOk(s, Goto(s, p, pc).(store := store), p)
  {
    hide StoreOk, Grows, PruneOk, AnswerOk, Seen, Matches;
    var proc := s.processes[p].(pc := pc);
    if !IsPruning(pc) { NothingToPrune(s.store, p, Acting(proc), pc); }
    assert PcOk(s.store, CandidateOf(s, p), p, proc);
    PcStable(s.store, store, CandidateOf(s, p), CandidateOf(s, p), p, proc);
    hide PcOk;
  }

  lemma {:induction false} NothingToPrune(s: Store, p: Pid, c: Call, pc: Pc)
    requires !IsPruning(pc)
    ensures PruneOk(s, p, c, pc)
  {
  }

  lemma {:induction false} FreshScan(s: Store, scanned: set<Scanned>, r: Record)
    requires ScannedOk(s, scanned) && Seen(s, r)
    ensures ScannedOk(s, scanned + {Scanned(r, LookupWinner(s, r))})
  {
    hide ValidWinner, Seen;
  }

  /** A pruner that moves on by itself. */
  lemma {:induction false} PruneStep(s: System, p: Pid)
    requires Ready(s, p) && IsPruning(s.processes[p].pc) && OnPrune(s, p, s.processes[p].pc) != s
    ensures StepOk(s, OnPrune(s, p, s.processes[p].pc), p)
  {
    hide StoreOk, Grows, AnswerOk, StepOk, ExpiringOk;
    var t := OnPrune(s, p, s.processes[p].pc);
    NothingGrows(s.store);
    match s.processes[p].pc {
      case ScanningWinner(_, _, scanned, r, _) => FreshScan(s.store, scanned, r);
      case Evicting(_, _, _, item, _) => RemoveWinnerKeeps(s.store, NameOf(item));
      case AtOrphan(_, _, name, _) => RemoveWinnerKeeps(s.store, name);
      case _ =>
    }
    assert ScannedOk(s.store, {});
    hide ScannedOk, Seen, Gone, RemoveWinner, LookupWinner;
    PrunerStep(s, p, t.processes[p].pc, t.store);
  }

  lemma {:induction false} DiskIsSeen(s: Store, id: string)
    requires StoreOk(s) && LookupRecord(s, id).Some?
    ensures Seen(s, LookupRecord(s, id).value)
  {
    hide LinksOk, PublishedOk;
  }

  lemma {:induction false} WinnerIsIssued(s: Store, name: WinnerName)
    requires StoreOk(s) && name in s.winners
    ensures name.generation < s.nextGeneration
  {
    assert LinksOk(s, name);
  }

  lemma {:induction false} EvictedIsGone(s: Store, r: Record)
    requires Seen(s, r)
    ensures Gone(RemoveRecord(s, r.request.id), NameOf(r))
  {
  }

  lemma {:induction false} ScanStep(s: System, p: Pid, id: string)
    requires Ready(s, p) && Next(s, Scan(p, id)) != s
    ensures StepOk(s, Next(s, Scan(p, id)), p)
  {
    hide StoreOk, Grows, AnswerOk, StepOk, ExpiringOk, ScannedOk, Seen;
    var t := Next(s, Scan(p, id));
    NothingGrows(s.store);
    if LookupRecord(s.store, id).Some? { DiskIsSeen(s.store, id); }
    PrunerStep(s, p, t.processes[p].pc, s.store);
  }

  lemma {:induction false} JudgeStep(s: System, p: Pid, item: Scanned, last: bool)
    requires Ready(s, p) && Next(s, Judge(p, item, last)) != s
    ensures StepOk(s, Next(s, Judge(p, item, last)), p)
  {
    hide StoreOk, Grows, AnswerOk, StepOk, ExpiringOk, Seen, IsVictim;
    var t := Next(s, Judge(p, item, last));
    var pc := s.processes[p].pc;
    NothingGrows(s.store);
    assert item in pc.scanned && ScanOk(s.store, item);
    if IsVictim(pc.scanned, item, pc.now, last) {
      Evict(s, p, item, last);
    } else {
      hide ScannedOk;
      PrunerStep(s, p, t.processes[p].pc, s.store);
    }
  }

  lemma {:induction false} Evict(s: System, p: Pid, item: Scanned, last: bool)
    requires Ready(s, p) && s.processes[p].pc.Judging? && item in s.processes[p].pc.todo
    requires var pc := s.processes[p].pc; IsVictim(pc.scanned, item, pc.now, last)
    ensures StepOk(s, Next(s, Judge(p, item, last)), p)
  {
    hide StoreOk, Grows, AnswerOk, ExpiringOk, Seen, IsVictim, ScannedOk;
    var pc := s.processes[p].pc;
    var u := RemoveRecord(s.store, item.record.request.id);
    var c := Acting(s.processes[p]);
    assert ScanOk(s.store, item) by { ScanOfItem(s.store, pc.scanned, item); }
    RemoveRecordKeeps(s.store, item.record.request.id);
    EvictedIsGone(s.store, item.record);
    PcStable(s.store, u, CandidateOf(s, p), CandidateOf(s, p), p, s.processes[p]);
    hide Gone, Matches;
    assert PruneOk(u, p, c, pc);
    assert ExpiringOk(u, s.processes[p]);
    ExpiringIgnoresPc(u, s.processes[p], Evicting(pc.now, pc.todo - {item}, pc.scanned, item.record, pc.answer));
  }

  lemma {:induction false} ScanOfItem(s: Store, scanned: set<Scanned>, item: Scanned)
    requires ScannedOk(s, scanned) && item in scanned
    ensures ScanOk(s, item)
  {
  }

  lemma {:induction false} ExpiringIgnoresPc(s: Store, proc: Process, pc: Pc)
    requires ExpiringOk(s, proc) && (RecordIn(pc) == None || RecordIn(pc) == RecordIn(proc.pc))
    ensures ExpiringOk(s, proc.(pc := pc))
  {
  }

  lemma {:induction false} InspectStep(s: System, e: Event)
    requires e.InspectWinner? || e.InspectCandidate?
    requires Ready(s, e.pid) && Next(s, e) != s
    ensures StepOk(s, Next(s, e), e.pid)
  {
    hide StoreOk, Grows, ReportOk, AnswerOk, ExpiringOk, Seen, LinksOk, ScannedOk;
    var t := Next(s, e);
    var p := e.pid;
    NothingGrows(s.store);
    if e.InspectWinner? && e.name in s.store.winners { WinnerIsIssued(s.store, e.name); }
    ExpiringIgnoresPc(s.store, s.processes[p], t.processes[p].pc);
  }

  lemma {:induction false} NothingGrows(s: Store)
    ensures Grows(s, s)
  {
  }

  lemma {:induction false} StartStop(s: System, e: Event)
    requires Inv(s) && Next(s, e) != s && (e.Spawn? || e.Crash?)
    ensures StepOk(s, Next(s, e), e.pid)
  {
    hide StoreOk, StepOk, Seen, Matches;
    var proc := Next(s, e).processes[e.pid];
    if e.Crash? { ExpiringIgnoresPc(s.store, s.processes[e.pid], Crashed); }
    OwnStep(s, e.pid, proc);
  }

  lemma {:induction false} AdvanceStep(s: System, p: Pid)
    requires Inv(s) && p in s.processes && OnAdvance(s, p) != s
    ensures StepOk(s, OnAdvance(s, p), p)
  {
    hide StoreOk, PcOk, StepOk, OnRecord, OnWinner, OnLink, OnChmod, OnLostLink, OnWriteRecord, OnChmodRecord;
    match s.processes[p].pc
    case AtRecord => RecordStep(s, p);
    case AtWinner(r) => WinnerStep(s, p, r);
    case AtLink(r, w) => LinkStep(s, p, r, w);
    case AtWriteRecord => PublishStep(s, p);
    case AtCandidate(_, _) => SettleStep(s, p);
    case AtChmod(r, w) => ChmodStep(s, p, r, w);
    case AtLostLink(r) => LostLinkStep(s, p, r);
    case AtUnlink(_) => SettleStep(s, p);
    case AtChmodRecord(_) => SettleStep(s, p);
    case _ => PruneStep(s, p);
  }

  /** Every event keeps the invariant, whoever performs it and whenever. */
  lemma {:induction false} NextKeepsInv(s: System, e: Event)
    requires Inv(s)
    ensures Inv(Next(s, e)) && Grows(s.store, Next(s, e).store)
  {
    hide StoreOk, PcOk, OnSweep, OnPrune, OnRecord, OnWinner, OnLink, OnChmod, OnLostLink, OnWriteRecord, OnChmodRecord;
    var t := Next(s, e);
    var p := e.pid;
    if t != s {
      match e {
        case Spawn(_, _) => StartStop(s, e);
        case Crash(_) => StartStop(s, e);
        case Scan(_, id) => ScanStep(s, p, id);
        case Judge(_, item, last) => JudgeStep(s, p, item, last);
        case InspectWinner(_, _, _) => InspectStep(s, e);
        case InspectCandidate(_, _, _) => InspectStep(s, e);
        case Advance(_) => AdvanceStep(s, p);
      }
      assert StepOk(s, t, p);
      StepKeepsInv(s, t, p);
    }
  }

  lemma {:induction false} RunKeepsInv(events: seq<Event>)
    ensures Inv(Run(Init(), events))
  {
    if events != [] {
      RunKeepsInv(events[..|events| - 1]);
      NextKeepsInv(Run(Init(), events[..|events| - 1]), events[|events| - 1]);
    }
  }
}
