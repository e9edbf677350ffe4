/**
 The phases of a durable task, decided from the journal file and appended to it. The file
 may be cut by a crash in any append; the events it holds are always a path of the graph.
 */
module TaskPhases {
  import opened Basics
  import opened Journal

  datatype Phase = Staged | Claimed | Running | Uncertain | Delivered | Failed | Rejected | Completed | Cancelled

  datatype InboxState = InboxState(phase: Phase, updatedAt: nat, claimId: Option<string>,
                                   attemptId: Option<string>, sessionId: Option<string>, code: Option<string>)

  function PhaseTransitions(phase: Phase): set<Phase> {
    match phase
    case Staged => {Claimed, Failed, Cancelled}
    case Claimed => {Running, Failed, Cancelled}
    case Running => {Delivered, Uncertain, Failed}
    case Uncertain => {Delivered, Failed, Rejected, Cancelled}
    case Delivered => {Completed}
    case Failed => {Rejected, Completed}
    case Rejected => {Cancelled}
    case Cancelled => {}
    case Completed => {}
  }

  predicate IsTerminal(phase: Phase) {
    phase == Completed || phase == Cancelled
  }

  predicate FitsWithin(text: Option<string>, limit: nat) {
    text.Some? ==> 1 <= |text.value| <= limit
  }

  /** The schema every event must satisfy before it is appended. */
  predicate ValidState(s: InboxState) {
    FitsWithin(s.attemptId, 180) && FitsWithin(s.sessionId, 180) && FitsWithin(s.code, 80)
  }

  /** A detail of a transition: absent, or present, possibly as an explicit undefined. */
  datatype Detail = Keep | Put(value: Option<string>)

  datatype Details = Details(attemptId: Detail, sessionId: Detail, code: Detail)

  function Patch(current: Option<string>, detail: Detail): Option<string> {
    match detail case Keep => current case Put(v) => v
  }

  function InitialState(stagedAt: nat): InboxState {
    InboxState(Staged, stagedAt, None, None, None, None)
  }

  /** The event that `reserveClaim` appends, if it appends one. */
  function ReserveEvent(current: InboxState, claimId: string, now: nat): Option<InboxState> {
    if current.claimId.Some? || current.phase != Staged then None
    else Some(InboxState(Staged, now, Some(claimId), None, None, None))
  }

  predicate NamesAttempt(details: Details) {
    details.attemptId.Put? && details.attemptId.value.Some? && details.attemptId.value.value != ""
  }

  /** The event that `transition` appends, if it appends one. */
  function TransitionEvent(current: InboxState, phase: Phase, details: Details, now: nat): Option<InboxState> {
    if phase !in PhaseTransitions(current.phase) then None
    else if phase == Running && !NamesAttempt(details) then None
    else
      var event := InboxState(phase, now, current.claimId, Patch(current.attemptId, details.attemptId),
                              Patch(current.sessionId, details.sessionId), Patch(current.code, details.code));
      if ValidState(event) then Some(event) else None
  }

  /** The phases no transition leads out of are the two a job ends in. */
  lemma {:induction false} TerminalIs(phase: Phase)
    ensures IsTerminal(phase) <==> PhaseTransitions(phase) == {}
    ensures IsTerminal(phase) <==> phase in {Completed, Cancelled}
  {
  }

  /** Where each phase is entered from. */
  lemma {:induction false} EnteredFrom(phase: Phase)
    ensures Staged !in PhaseTransitions(phase)
    ensures Claimed in PhaseTransitions(phase) <==> phase == Staged
    ensures Running in PhaseTransitions(phase) <==> phase == Claimed
    ensures Uncertain in PhaseTransitions(phase) <==> phase == Running
    ensures Delivered in PhaseTransitions(phase) <==> phase in {Running, Uncertain}
    ensures Failed in PhaseTransitions(phase) <==> phase in {Staged, Claimed, Running, Uncertain}
    ensures Rejected in PhaseTransitions(phase) <==> phase in {Uncertain, Failed}
    ensures Completed in PhaseTransitions(phase) <==> phase in {Delivered, Failed}
    ensures Cancelled in PhaseTransitions(phase) <==> phase in {Staged, Claimed, Uncertain, Rejected}
  {
  }

  /** What a detail is after a transition: as it was, unless the transition names it. */
  predicate IsPatched(before: Option<string>, detail: Detail, after: Option<string>) {
    after == if detail == Keep then before else detail.value
  }

  predicate IsShort(text: Option<string>, limit: nat) {
    text == None || (text.value != "" && |text.value| <= limit)
  }

  /**
   A transition is admitted exactly when the graph has its edge, a run names its attempt, and the
   details are neither empty nor too long. It keeps the claim and what it does not name.
   */
  lemma {:induction false} TransitsExactlyWhen(current: InboxState, phase: Phase, details: Details, now: nat,
        attemptId: Option<string>, sessionId: Option<string>, code: Option<string>)
    requires IsPatched(current.attemptId, details.attemptId, attemptId)
    requires IsPatched(current.sessionId, details.sessionId, sessionId)
    requires IsPatched(current.code, details.code, code)
    ensures TransitionEvent(current, phase, details, now) ==
      if && phase in PhaseTransitions(current.phase)
         && (phase == Running ==> details.attemptId != Keep && attemptId != None && attemptId != Some(""))
         && IsShort(attemptId, 180) && IsShort(sessionId, 180) && IsShort(code, 80)
      then Some(InboxState(phase, now, current.claimId, attemptId, sessionId, code)) else None
  {
  }

  /** A claim is recorded exactly once, while the job is staged. */
  lemma {:induction false} ReservesExactlyWhen(current: InboxState, claimId: string, now: nat)
    ensures ReserveEvent(current, claimId, now) ==
      if current.phase == Staged && current.claimId == None
      then Some(InitialState(now).(claimId := Some(claimId))) else None
  {
  }

  // ---------------------------------------------------------------------------
  // Paths of the phase graph
  // ---------------------------------------------------------------------------

  predicate Follows(previous: InboxState, next: InboxState) {
    || (previous.phase == Staged && previous.claimId == None && next.phase == Staged && next.claimId.Some?)
    || (&& next.phase in PhaseTransitions(previous.phase)
        && next.claimId == previous.claimId
        && (next.phase == Running ==> next.attemptId.Some? && next.attemptId.value != ""))
  }

  predicate IsPath(initial: InboxState, events: seq<InboxState>) {
    events != [] ==>
      && IsPath(initial, events[..|events| - 1])
      && Follows(StateOf(events[..|events| - 1], initial), events[|events| - 1])
  }

  /** How far a job has come. Every event of a path comes strictly further. */
  function Progress(s: InboxState): nat {
    match s.phase
    case Staged => if s.claimId.Some? then 1 else 0
    case Claimed => 2
    case Running => 3
    case Uncertain => 4
    case Delivered => 5
    case Failed => 5
    case Rejected => 6
    case Completed => 7
    case Cancelled => 7
  }

  lemma {:induction false} PathProgresses(initial: InboxState, events: seq<InboxState>, i: nat)
    requires initial.phase == Staged && initial.claimId == None && IsPath(initial, events) && i < |events|
    ensures i + 1 <= Progress(events[i]) <= Progress(events[|events| - 1])
    ensures i < |events| - 1 ==> Progress(events[i]) < Progress(events[|events| - 1])
    ensures events[i].claimId.Some? ==> events[|events| - 1].claimId == events[i].claimId
    ensures events[i].phase == Running ==> events[i].attemptId.Some? && events[i].attemptId.value != ""
  {
    var init := events[..|events| - 1];
    if i < |init| {
      PathProgresses(initial, init, i);
    } else if init != [] {
      PathProgresses(initial, init, |init| - 1);
    }
  }

  lemma {:induction false} PathPrefix(initial: InboxState, events: seq<InboxState>, n: nat)
    requires IsPath(initial, events) && n <= |events|
    ensures IsPath(initial, events[..n])
  {
    if n < |events| {
      PathPrefix(initial, events[..|events| - 1], n);
      assert events[..|events| - 1][..n] == events[..n];
    } else {
      assert events[..n] == events;
    }
  }

  /** What every journal that is a path promises. */
  ghost predicate KeepsPromises(events: seq<InboxState>) {
    && |events| <= 7
    && (forall i :: 0 <= i < |events| && events[i].phase == Running ==> events[i].attemptId.Some?)
    && (forall i, j :: 0 <= i < j < |events| ==> !(events[i].phase == Running && events[j].phase == Running))
    && (forall i :: 0 <= i < |events| - 1 ==> !IsTerminal(events[i].phase))
    && (forall i, j :: 0 <= i < j < |events| && events[i].claimId.Some? ==> events[j].claimId == events[i].claimId)
  }

  lemma {:induction false} PathKeepsPromises(initial: InboxState, events: seq<InboxState>)
    requires initial.phase == Staged && initial.claimId == None && IsPath(initial, events)
    ensures KeepsPromises(events)
  {
    if events != [] { PathProgresses(initial, events, |events| - 1); }
    forall i | 0 <= i < |events| && events[i].phase == Running ensures events[i].attemptId.Some? {
      PathProgresses(initial, events, i);
    }
    forall i, j | 0 <= i < j < |events|
      ensures Progress(events[i]) < Progress(events[j])
      ensures Progress(events[j]) <= 7
      ensures events[i].claimId.Some? ==> events[j].claimId == events[i].claimId
    {
      PathPrefix(initial, events, j + 1);
      PathProgresses(initial, events[..j + 1], i);
    }
  }

  // ---------------------------------------------------------------------------
  // Every history of calls, restarts and torn appends
  // ---------------------------------------------------------------------------

  /** `written` counts the bytes of the record that reached the disk. */
  datatype Operation =
    | ReserveClaim(claimId: string, at: nat, written: nat)
    | Transition(phase: Phase, details: Details, at: nat, written: nat)
    | Restart

  function EventOf(current: InboxState, op: Operation): Option<InboxState> {
    match op
    case ReserveClaim(claimId, at, _) => ReserveEvent(current, claimId, at)
    case Transition(phase, details, at, _) => TransitionEvent(current, phase, details, at)
    case Restart => None
  }

  /** An operation reads the whole journal, decides, and appends. It remembers nothing else. */
  function Perform(c: Codec<InboxState>, stagedAt: nat, data: seq<Byte>, op: Operation): seq<Byte> {
    match Replay(c, Lines(data), InitialState(stagedAt))
    case Err => data
    case Ok(r) =>
      match EventOf(r.state, op)
      case None => data
      case Some(event) => AfterAppend(c, data, InitialState(stagedAt), event, op.written)
  }

  function Life(c: Codec<InboxState>, stagedAt: nat, ops: seq<Operation>): seq<Byte> {
    if ops == [] then [] else Perform(c, stagedAt, Life(c, stagedAt, ops[..|ops| - 1]), ops[|ops| - 1])
  }

  lemma {:induction false} EventFollows(current: InboxState, op: Operation)
    requires EventOf(current, op).Some?
    ensures Follows(current, EventOf(current, op).value)
  {
  }

  lemma {:induction false} PathExtends(initial: InboxState, events: seq<InboxState>, event: InboxState)
    requires IsPath(initial, events) && Follows(StateOf(events, initial), event)
    ensures IsPath(initial, events + [event])
  {
    assert (events + [event])[..|events|] == events;
  }

  /** The file always is the rendering of a path and a torn tail. */
  lemma {:induction false} LifeIsPath(c: Codec<InboxState>, stagedAt: nat, ops: seq<Operation>)
      returns (events: seq<InboxState>, tail: seq<Byte>)
    requires Faithful(c)
    ensures IsPath(InitialState(stagedAt), events) && NEWLINE !in tail
    ensures Life(c, stagedAt, ops) == Render(c, events) + tail
  {
    var initial := InitialState(stagedAt);
    events, tail := [], [];
    if ops != [] {
      events, tail := LifeIsPath(c, stagedAt, ops[..|ops| - 1]);
      ReadsBack(c, events, tail, initial);
      var op := ops[|ops| - 1];
      var current := StateOf(events, initial);
      if EventOf(current, op).Some? {
        var event := EventOf(current, op).value;
        EventFollows(current, op);
        PathExtends(initial, events, event);
        tail := AppendRefines(c, events, tail, initial, event, op.written);
        if op.written >= |RecordOf(c, events + [event])| { events := events + [event]; }
      }
    }
  }

  /**
   Over every history the journal can be read, and the events in it run at most once, with
   an attempt id, never leave a terminal phase, never change a reserved claim, and are at
   most seven.
   */
  lemma {:induction false} LifeKeepsPromises(c: Codec<InboxState>, stagedAt: nat, ops: seq<Operation>)
    requires Faithful(c)
    ensures var lines := Lines(Life(c, stagedAt, ops));
      && Replay(c, lines, InitialState(stagedAt)).Ok?
      && Replay(c, lines, InitialState(stagedAt)).value.state == StateOf(EventsIn(c, lines), InitialState(stagedAt))
      && KeepsPromises(EventsIn(c, lines))
  {
    var events, tail := LifeIsPath(c, stagedAt, ops);
    ReadsBack(c, events, tail, InitialState(stagedAt));
    PathKeepsPromises(InitialState(stagedAt), events);
  }

  /** The bound of seven is reached. */
  lemma {:induction false} SevenRecords(initial: InboxState, claim: string) returns (events: seq<InboxState>)
    requires initial == InitialState(0)
    ensures IsPath(initial, events) && |events| == 7
  {
    var e := InboxState(Staged, 1, Some(claim), None, None, None);
    var run := e.(phase := Running, attemptId := Some("a"));
    events := [];
    PathExtends(initial, events, e); events := events + [e];
    PathExtends(initial, events, e.(phase := Claimed)); events := events + [e.(phase := Claimed)];
    PathExtends(initial, events, run); events := events + [run];
    PathExtends(initial, events, run.(phase := Uncertain)); events := events + [run.(phase := Uncertain)];
    PathExtends(initial, events, run.(phase := Failed)); events := events + [run.(phase := Failed)];
    PathExtends(initial, events, run.(phase := Rejected)); events := events + [run.(phase := Rejected)];
    PathExtends(initial, events, run.(phase := Cancelled)); events := events + [run.(phase := Cancelled)];
  }
}
