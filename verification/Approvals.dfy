/**
 The shared approval registry of the bridge: records, immutable winner files, and the
 calls that hooks, the MCP server, the monitor, cancellers and timeouts make on it.

 Every call is a process with a program counter, and one event performs one file operation
 of one process, so a run of events is an arbitrary interleaving with arbitrary crashes.
 Nothing is locked; the only synchronisation is that a hard link to an existing name fails.
 */
module Approvals {
  import opened Basics

  const MAX_RECORDS := 300
  const MAX_PENDING_AGE_MS := 300_000
  const TERMINAL_RETENTION_MS := 86_400_000
  const ARTIFACT_AGE_MS := 60_000

  // ---------------------------------------------------------------------------
  // Entities
  // ---------------------------------------------------------------------------

  datatype Verdict = Allow | Deny

  /** `body` stands for agent, tool, title, command, cwd, risk and details. */
  datatype Request = Request(id: string, session: Option<string>, isQuestion: bool, body: string)

  /** SHA-256 over the listed fields is taken to be injective, so the digest is the fields. */
  datatype Fingerprint = Fingerprint(id: string, session: Option<string>, isQuestion: bool, body: string)

  datatype Record = Record(request: Request, updatedAt: int, generation: nat, fingerprint: Fingerprint)

  /** `answers` tells whether the decision's note answers the request's questions. */
  datatype Decision = Decision(requestId: string, verdict: Verdict, session: Option<string>,
                               decidedAt: int, answers: bool, decidedBy: Option<string>)

  datatype Status = Cancelled | Expired

  datatype Resolved = Resolved(requestId: string, status: Status, verdict: Option<Verdict>,
                               session: Option<string>, decidedBy: Option<string>, resolvedAt: int)

  datatype Outcome = Decided(decision: Decision) | Terminal(status: Status, resolved: Resolved)

  datatype Winner = Winner(requestId: string, session: Option<string>, generation: nat,
                           acceptedAt: int, outcome: Outcome)

  datatype Handle = Handle(requestId: string, session: Option<string>, generation: nat, fingerprint: Fingerprint)

  /** A winner file is named by the request and the generation it resolves. */
  datatype WinnerName = WinnerName(requestId: string, generation: nat)

  predicate IsBlank(c: char) {
    c == ' ' || c == '\t' || c == '\n' || c == '\r'
  }

  function TrimLeft(s: string): string {
    if s != [] && IsBlank(s[0]) then TrimLeft(s[1..]) else s
  }

  function TrimRight(s: string): string {
    if s != [] && IsBlank(s[|s| - 1]) then TrimRight(s[..|s| - 1]) else s
  }

  /** Blank session ids count as absent. */
  function NormalizedSession(session: Option<string>): Option<string> {
    match session
    case None => None
    case Some(s) => var t := TrimRight(TrimLeft(s)); if t == [] then None else Some(t)
  }

  function FingerprintOf(r: Request): Fingerprint {
    Fingerprint(r.id, NormalizedSession(r.session), r.isQuestion, r.body)
  }

  function NameOf(r: Record): WinnerName {
    WinnerName(r.request.id, r.generation)
  }

  function HandleOf(r: Record): Handle {
    Handle(r.request.id, NormalizedSession(r.request.session), r.generation, r.fingerprint)
  }

  predicate Matches(r: Record, expected: Option<Handle>) {
    expected.Some? ==>
      && expected.value.requestId == r.request.id
      && NormalizedSession(expected.value.session) == NormalizedSession(r.request.session)
      && expected.value.generation == r.generation
      && expected.value.fingerprint == r.fingerprint
  }

  predicate IsDecision(d: Decision, r: Record) {
    && d.requestId == r.request.id
    && NormalizedSession(d.session) == NormalizedSession(r.request.session)
  }

  predicate IsOutcome(o: Outcome, r: Record) {
    match o
    case Decided(d) => IsDecision(d, r)
    case Terminal(status, resolved) =>
      && resolved.requestId == r.request.id
      && resolved.status == status
      && NormalizedSession(resolved.session) == NormalizedSession(r.request.session)
  }

  /** What a reader of a winner file checks before it believes the file. */
  predicate ValidWinner(w: Winner, r: Record) {
    && w.requestId == r.request.id
    && w.generation == r.generation
    && NormalizedSession(w.session) == NormalizedSession(r.request.session)
    && IsOutcome(w.outcome, r)
  }

  // ---------------------------------------------------------------------------
  // Calls, program counters and the shared state
  // ---------------------------------------------------------------------------

  datatype TerminalOptions = TerminalOptions(verdict: Option<Verdict>, decidedBy: Option<string>,
                                             session: Option<string>, resolvedAt: Option<int>)

  datatype Call =
    | Register(request: Request, now: int)
    | Accept(decision: Decision, now: int, expected: Option<Handle>)
    | MarkTerminal(requestId: string, status: Status, options: TerminalOptions, now: int, expected: Option<Handle>)
    | ReadOutcome(requestId: string, session: Option<string>, expected: Option<Handle>)
    | Prune(now: int)

  datatype Answer =
    | NoMatch
    | Resolution(record: Record, outcome: Outcome, newlyResolved: bool)
    | Registered(handle: Handle, newlyRegistered: bool)
    | ConflictingRequest
    | Threw
    | Pruned

  /** A record as a pruner read it, with the winner it then found for it. */
  datatype Scanned = Scanned(record: Record, winner: Option<Winner>)

  /** Where a call stands. A pruner lists, scans, ranks and unlinks records, then lists and reaps artifacts. */
  datatype Pc =
    | AtRecord
    | AtWinner(record: Record)
    | AtCandidate(record: Record, winner: Winner)
    | AtLink(record: Record, winner: Winner)
    | AtChmod(record: Record, winner: Winner)
    | AtLostLink(record: Record)
    | AtUnlink(answer: Answer)
    | AtWriteRecord
    | AtChmodRecord(record: Record)
    | AtListing(now: int, answer: Answer)
    | Scanning(now: int, files: set<string>, scanned: set<Scanned>, answer: Answer)
    | ScanningWinner(now: int, files: set<string>, scanned: set<Scanned>, item: Record, answer: Answer)
    | Judging(now: int, todo: set<Scanned>, scanned: set<Scanned>, answer: Answer)
    | Evicting(now: int, todo: set<Scanned>, scanned: set<Scanned>, item: Record, answer: Answer)
    | AtArtifacts(answer: Answer)
    | Inspecting(names: set<WinnerName>, owners: set<Pid>, answer: Answer)
    | AtOrphan(names: set<WinnerName>, owners: set<Pid>, name: WinnerName, answer: Answer)
    | Done(answer: Answer)
    | Crashed

  /** `expiring` is the record that an accepted decision came too late for: the call then goes on as its expiry. */
  datatype Process = Process(call: Call, expiring: Option<Record>, pc: Pc)

  type Pid = nat

  /** One successful hard link: who linked, in which call, and what. */
  datatype Link = Link(pid: Pid, call: Call, winner: Winner)

  /**
   The directory, as all processes see it, with its history: every record ever published,
   every link that ever succeeded, every winner ever removed. The history is never read.
   */
  datatype Store = Store(
    records: map<string, Record>,
    winners: map<WinnerName, Winner>,
    nextGeneration: nat,
    published: map<nat, Record>,
    links: map<WinnerName, seq<Link>>,
    removed: set<WinnerName>)

  /** The store, the candidate file of each contender, and the processes. */
  datatype System = System(store: Store, candidates: map<Pid, Winner>, processes: map<Pid, Process>)

  datatype Event =
    | Spawn(pid: Pid, call: Call)
    | Crash(pid: Pid)
    | Advance(pid: Pid)
    | Scan(pid: Pid, requestId: string)
    | Judge(pid: Pid, item: Scanned, last: bool)
    | InspectWinner(pid: Pid, name: WinnerName, age: int)
    | InspectCandidate(pid: Pid, owner: Pid, age: int)

  function Init(): System {
    System(Store(map[], map[], 0, map[], map[], {}), map[], map[])
  }

  function Expected(c: Call): Option<Handle> {
    if c.Accept? || c.MarkTerminal? || c.ReadOutcome? then c.expected else None
  }

  function Target(c: Call): string {
    match c
    case Register(r, _) => r.id
    case Accept(d, _, _) => d.requestId
    case MarkTerminal(id, _, _, _, _) => id
    case ReadOutcome(id, _, _) => id
    case Prune(_) => ""
  }

  function Goto(s: System, p: Pid, pc: Pc): System
    requires p in s.processes
  {
    s.(processes := s.processes[p := s.processes[p].(pc := pc)])
  }

  function LookupRecord(s: Store, id: string): Option<Record> {
    if id in s.records && s.records[id].request.id == id then Some(s.records[id]) else None
  }

  function LookupWinner(s: Store, r: Record): Option<Winner> {
    if NameOf(r) in s.winners && ValidWinner(s.winners[NameOf(r)], r) then Some(s.winners[NameOf(r)]) else None
  }

  /** The time that retention counts from. */
  function TimeOf(x: Scanned): int {
    match x.winner case Some(w) => w.acceptedAt case None => x.record.updatedAt
  }

  function EffectiveAt(s: Store, r: Record): int {
    TimeOf(Scanned(r, LookupWinner(s, r)))
  }

  /** Does the record admit the call at all: same handle, same session, answered questions. */
  predicate Admits(r: Record, c: Call) {
    match c
    case Register(_, _) => true
    case Accept(d, _, expected) =>
      && Matches(r, expected)
      && NormalizedSession(d.session) == NormalizedSession(r.request.session)
      && (r.request.isQuestion && d.verdict == Allow ==> d.answers)
    case MarkTerminal(_, _, options, _, expected) =>
      && Matches(r, expected)
      && NormalizedSession(options.session) == NormalizedSession(r.request.session)
    case ReadOutcome(_, session, expected) =>
      && NormalizedSession(r.request.session) == NormalizedSession(session)
      && Matches(r, expected)
    case Prune(_) => false
  }

  /** A decision that comes too late turns into an expiry, which starts over. */
  function ExpiryOf(c: Call, r: Record): Call
    requires c.Accept?
  {
    MarkTerminal(c.decision.requestId, Expired,
                 TerminalOptions(Some(Deny), Some("system"), NormalizedSession(r.request.session), None),
                 c.now, c.expected)
  }

  /** What the process does: its call, or the expiry that a late decision has become. */
  function Acting(proc: Process): Call {
    if proc.call.Accept? && proc.expiring.Some? then ExpiryOf(proc.call, proc.expiring.value) else proc.call
  }

  function OnRecord(s: System, p: Pid): System
    requires p in s.processes
  {
    var c := Acting(s.processes[p]);
    match LookupRecord(s.store, Target(c))
    case None => Goto(s, p, if c.Register? then AtWriteRecord else Done(NoMatch))
    case Some(r) => Goto(s, p, if Admits(r, c) then AtWinner(r) else Done(NoMatch))
  }

  function WinnerFor(r: Record, outcome: Outcome, now: int): Winner {
    Winner(r.request.id, NormalizedSession(r.request.session), r.generation, now, outcome)
  }

  function StoredDecision(d: Decision, r: Record, now: int): Decision {
    d.(session := NormalizedSession(r.request.session), decidedAt := if d.decidedAt != 0 then d.decidedAt else now)
  }

  function TerminalOutcome(c: Call, r: Record): Outcome
    requires c.MarkTerminal?
  {
    var at := if c.options.resolvedAt.Some? then c.options.resolvedAt.value else c.now;
    Terminal(c.status, Resolved(c.requestId, c.status, c.options.verdict,
                                NormalizedSession(r.request.session), c.options.decidedBy, at))
  }

  function OnWinner(s: System, p: Pid, r: Record): System
    requires p in s.processes
  {
    var c := Acting(s.processes[p]);
    var w := LookupWinner(s.store, r);
    match c
    case Register(request, now) =>
      if now - EffectiveAt(s.store, r) > TERMINAL_RETENTION_MS then Goto(s, p, AtWriteRecord)
      else if r.fingerprint != FingerprintOf(request) then Goto(s, p, Done(ConflictingRequest))
      else Goto(s, p, Done(Registered(HandleOf(r), false)))
    case Accept(d, now, expected) =>
      if w.Some? then Goto(s, p, Done(Resolution(r, w.value.outcome, false)))
      else if now - r.updatedAt > MAX_PENDING_AGE_MS then
        s.(processes := s.processes[p := s.processes[p].(expiring := Some(r), pc := AtRecord)])
      else Goto(s, p, AtCandidate(r, WinnerFor(r, Decided(StoredDecision(d, r, now)), now)))
    case MarkTerminal(_, _, _, now, _) =>
      if w.Some? then Goto(s, p, Done(Resolution(r, w.value.outcome, false)))
      else Goto(s, p, AtCandidate(r, WinnerFor(r, TerminalOutcome(c, r), now)))
    case ReadOutcome(_, _, _) =>
      if w.Some? then Goto(s, p, Done(Resolution(r, w.value.outcome, false))) else Goto(s, p, Done(NoMatch))
    case Prune(_) => s
  }

  function LinksOf(s: Store, name: WinnerName): seq<Link> {
    if name in s.links then s.links[name] else []
  }

  function AddLink(s: Store, name: WinnerName, link: Link): Store {
    s.(winners := s.winners[name := link.winner], links := s.links[name := LinksOf(s, name) + [link]])
  }

  /** The hard link: fails if the candidate was reaped, loses if the name exists, else decides. */
  function OnLink(s: System, p: Pid, r: Record, w: Winner): System
    requires p in s.processes
  {
    var name := NameOf(r);
    if p !in s.candidates then Goto(s, p, AtUnlink(Threw))
    else if name in s.store.winners then Goto(s, p, AtLostLink(r))
    else Goto(s, p, AtChmod(r, w)).(store := AddLink(s.store, name, Link(p, Acting(s.processes[p]), s.candidates[p])))
  }

  function OnChmod(s: System, p: Pid, r: Record, w: Winner): System
    requires p in s.processes
  {
    Goto(s, p, AtUnlink(if NameOf(r) in s.store.winners then Resolution(r, w.outcome, true) else Threw))
  }

  function OnLostLink(s: System, p: Pid, r: Record): System
    requires p in s.processes
  {
    var w := LookupWinner(s.store, r);
    Goto(s, p, AtUnlink(if w.Some? then Resolution(r, w.value.outcome, false) else NoMatch))
  }

  function Publish(s: Store, r: Record): Store {
    s.(records := s.records[r.request.id := r], published := s.published[r.generation := r],
       nextGeneration := s.nextGeneration + 1)
  }

  /** The rename that publishes a new generation over whatever record was there. */
  function OnWriteRecord(s: System, p: Pid): System
    requires p in s.processes
  {
    var c := s.processes[p].call;
    if !c.Register? then s
    else
      var r := Record(c.request, c.now, s.store.nextGeneration, FingerprintOf(c.request));
      Goto(s, p, AtChmodRecord(r)).(store := Publish(s.store, r))
  }

  function OnChmodRecord(s: System, p: Pid, r: Record): System
    requires p in s.processes
  {
    Goto(s, p,
         if r.request.id in s.store.records then AtListing(r.updatedAt, Registered(HandleOf(r), true))
         else Done(Threw))
  }

  function RemoveWinner(s: Store, name: WinnerName): Store {
    if name in s.winners then s.(winners := s.winners - {name}, removed := s.removed + {name}) else s
  }

  /** A pruner's next step where it has none to choose. */
  function OnPrune(s: System, p: Pid, pc: Pc): System
    requires p in s.processes
  {
    match pc
    case AtListing(now, a) => Goto(s, p, Scanning(now, s.store.records.Keys, {}, a))
    case Scanning(now, files, scanned, a) => if files == {} then Goto(s, p, Judging(now, scanned, scanned, a)) else s
    case ScanningWinner(now, files, scanned, r, a) =>
      Goto(s, p, Scanning(now, files, scanned + {Scanned(r, LookupWinner(s.store, r))}, a))
    case Judging(now, todo, scanned, a) => if todo == {} then Goto(s, p, AtArtifacts(a)) else s
    case Evicting(now, todo, scanned, item, a) =>
      Goto(s, p, Judging(now, todo, scanned, a)).(store := RemoveWinner(s.store, NameOf(item)))
    case AtArtifacts(a) => Goto(s, p, Inspecting(s.store.winners.Keys, s.candidates.Keys, a))
    case Inspecting(names, owners, a) => if names == {} && owners == {} then Goto(s, p, Done(a)) else s
    case AtOrphan(names, owners, name, a) =>
      Goto(s, p, Inspecting(names, owners, a)).(store := RemoveWinner(s.store, name))
    case _ => s
  }

  function OnAdvance(s: System, p: Pid): System
    requires p in s.processes
  {
    match s.processes[p].pc
    case AtRecord => OnRecord(s, p)
    case AtWinner(r) => OnWinner(s, p, r)
    case AtCandidate(r, w) => Goto(s, p, AtLink(r, w)).(candidates := s.candidates[p := w])
    case AtLink(r, w) => OnLink(s, p, r, w)
    case AtChmod(r, w) => OnChmod(s, p, r, w)
    case AtLostLink(r) => OnLostLink(s, p, r)
    case AtUnlink(a) => Goto(s, p, Done(a)).(candidates := s.candidates - {p})
    case AtWriteRecord => OnWriteRecord(s, p)
    case AtChmodRecord(r) => OnChmodRecord(s, p, r)
    case pc => OnPrune(s, p, pc)
  }

  /**
   How many of the scanned records rank above this one, which is sorted before or behind (`last`)
   the records of the same time.
   */
  function Outranking(scanned: set<Scanned>, item: Scanned, last: bool): nat {
    |set x | x in scanned && x != item && (TimeOf(x) > TimeOf(item) || (last && TimeOf(x) == TimeOf(item)))|
  }

  /** A pruner drops what is past retention, or what at least MAX_RECORDS scanned records outrank. */
  predicate IsVictim(scanned: set<Scanned>, item: Scanned, now: int, last: bool) {
    item in scanned && (Outranking(scanned, item, last) >= MAX_RECORDS || now - TimeOf(item) > TERMINAL_RETENTION_MS)
  }

  predicate Live(s: Store, name: WinnerName) {
    name.requestId in s.records && s.records[name.requestId].generation == name.generation
  }

  function RemoveRecord(s: Store, id: string): Store {
    s.(records := s.records - {id})
  }

  /** A pruner reads the record in one of the files it listed. */
  function OnScan(s: System, p: Pid, id: string): System
    requires p in s.processes
  {
    var pc := s.processes[p].pc;
    if !pc.Scanning? || id !in pc.files then s
    else
      match LookupRecord(s.store, id)
      case Some(r) => Goto(s, p, ScanningWinner(pc.now, pc.files - {id}, pc.scanned, r, pc.answer))
      case None => Goto(s, p, Scanning(pc.now, pc.files - {id}, pc.scanned, pc.answer))
  }

  /** It judges one of the records it read, breaking ties as the event says, and unlinks a victim by its path. */
  function OnJudge(s: System, p: Pid, item: Scanned, last: bool): System
    requires p in s.processes
  {
    var pc := s.processes[p].pc;
    if !pc.Judging? || item !in pc.todo then s
    else if !IsVictim(pc.scanned, item, pc.now, last) then
      Goto(s, p, Judging(pc.now, pc.todo - {item}, pc.scanned, pc.answer))
    else
      Goto(s, p, Evicting(pc.now, pc.todo - {item}, pc.scanned, item.record, pc.answer))
        .(store := RemoveRecord(s.store, item.record.request.id))
  }

  /** It inspects one of the winners it listed. */
  function OnInspectWinner(s: System, p: Pid, name: WinnerName, age: int): System
    requires p in s.processes
  {
    var pc := s.processes[p].pc;
    if !pc.Inspecting? || name !in pc.names then s
    else if name in s.store.winners && !Live(s.store, name) && age > ARTIFACT_AGE_MS then
      Goto(s, p, AtOrphan(pc.names - {name}, pc.owners, name, pc.answer))
    else Goto(s, p, Inspecting(pc.names - {name}, pc.owners, pc.answer))
  }

  /** It inspects one of the candidate files it listed. */
  function OnInspectCandidate(s: System, p: Pid, owner: Pid, age: int): System
    requires p in s.processes
  {
    var pc := s.processes[p].pc;
    if !pc.Inspecting? || owner !in pc.owners then s
    else
      var t := Goto(s, p, Inspecting(pc.names, pc.owners - {owner}, pc.answer));
      if age > ARTIFACT_AGE_MS then t.(candidates := s.candidates - {owner}) else t
  }

  /** A pruner takes one file of its list, in any order. */
  function OnSweep(s: System, e: Event, p: Pid): System
    requires p in s.processes
  {
    match e
    case Scan(_, id) => OnScan(s, p, id)
    case Judge(_, item, last) => OnJudge(s, p, item, last)
    case InspectWinner(_, name, age) => OnInspectWinner(s, p, name, age)
    case InspectCandidate(_, owner, age) => OnInspectCandidate(s, p, owner, age)
    case _ => s
  }

  /** Handles come only from registrations, so a call cannot expect a generation not yet issued. */
  predicate MayCall(s: System, c: Call) {
    Expected(c).Some? ==> Expected(c).value.generation < s.store.nextGeneration
  }

  /** One event. An event that is not enabled changes nothing. */
  function Next(s: System, e: Event): System {
    match e
    case Spawn(p, c) =>
      if p in s.processes || !MayCall(s, c) then s
      else s.(processes := s.processes[p := Process(c, None, if c.Prune? then AtListing(c.now, Pruned) else AtRecord)])
    case Crash(p) =>
      if p in s.processes && !s.processes[p].pc.Done? then Goto(s, p, Crashed) else s
    case Advance(p) =>
      if p in s.processes then OnAdvance(s, p) else s
    case _ =>
      if e.pid in s.processes then OnSweep(s, e, e.pid) else s
  }

  function Run(s: System, events: seq<Event>): System {
    if events == [] then s else Next(Run(s, events[..|events| - 1]), events[|events| - 1])
  }
}
