/**
 One approval round trip: register, connect, send the request, and wait for the phone, for
 another process to resolve the record, for a timeout, for a cancellation, or for the
 transport to fail. Its calls on the registry run interleaved with everybody else's.
 */
module ApprovalWaiter {
  import opened Basics
  import opened Approvals
  import opened ApprovalAgreement
  import Theorems = ApprovalTheorems

  datatype Reason = Conflict | Aborted | NoOutcome

  datatype Phase =
    | Registering
    | Opening
    | Refused
    | Waiting(replies: seq<Decision>, settled: Option<Option<Decision>>, sent: bool)
    | Expiring
    | Failing
    | Returned(decision: Decision, closed: Option<Reason>)
    | Rejected

  datatype Waiter = Waiter(request: Request, handle: Option<Handle>, phase: Phase)

  datatype World = World(system: System, waiter: Waiter)

  /** Either somebody performs one file operation, or the waiter consumes one happening. */
  datatype Happening =
    | Registry(event: Event)
    | RegistrationReturns(pid: Pid)
    | AbortSeen
    | ConnectFails
    | Connects
    | PollReturns(pid: Pid)
    | MessageReturns(pid: Pid)
    | ReplyFinishes(index: nat)
    | GivesUp
    | RequestSent
    | TransportFails
    | Resumes
    | MarkReturns(pid: Pid)

  function FailClosed(request: Request, cause: string): Decision {
    Decision(request.id, Deny, request.session, 0, false, Some(cause))
  }

  function DecisionFromOutcome(o: Outcome, request: Request): Decision {
    match o
    case Decided(d) => d
    case Terminal(_, resolved) =>
      Decision(request.id, if resolved.verdict.Some? then resolved.verdict.value else Deny, request.session,
               resolved.resolvedAt, false,
               Some(if resolved.decidedBy.Some? then resolved.decidedBy.value else "system"))
  }

  /** The answer of a finished call of process `p`. */
  function AnswerOf(s: System, p: Pid): Option<Answer> {
    if p in s.processes && s.processes[p].pc.Done? then Some(s.processes[p].pc.answer) else None
  }

  predicate IsOwnMark(c: Call, w: Waiter, cause: string) {
    && c.MarkTerminal? && w.handle.Some?
    && c.requestId == w.request.id && c.expected == w.handle && c.status == Expired
    && c.options == TerminalOptions(Some(Deny), Some(cause), w.request.session, None)
  }

  /** A decision that arrived for this request and session is accepted with the waiter's handle. */
  predicate IsOwnDecision(c: Call, w: Waiter) {
    && c.Accept? && w.handle.Some? && c.expected == w.handle
    && c.decision.requestId == w.request.id
    && NormalizedSession(c.decision.session) == NormalizedSession(w.request.session)
  }

  /** A promise settles once. */
  function Settle(w: Waiter, decision: Option<Decision>): Waiter
    requires w.phase.Waiting?
  {
    if w.phase.settled.Some? then w else w.(phase := w.phase.(settled := Some(decision)))
  }

  function OnMarked(s: System, w: Waiter, p: Pid, cause: string, onThrow: Phase): Waiter {
    if p !in s.processes || !IsOwnMark(s.processes[p].call, w, cause) then w
    else match AnswerOf(s, p)
      case Some(Resolution(_, o, _)) => w.(phase := Returned(DecisionFromOutcome(o, w.request), None))
      case Some(NoMatch) => w.(phase := Returned(FailClosed(w.request, cause), Some(NoOutcome)))
      case Some(Threw) => w.(phase := onThrow)
      case _ => w
  }

  function Consume(s: System, w: Waiter, h: Happening): Waiter {
    match (w.phase, h)
    case (Registering, RegistrationReturns(p)) =>
      if p in s.processes && s.processes[p].call.Register? && s.processes[p].call.request == w.request then
        match AnswerOf(s, p)
        case Some(Registered(handle, _)) => w.(handle := Some(handle), phase := Opening)
        case Some(ConflictingRequest) => w.(phase := Returned(FailClosed(w.request, "system"), Some(Conflict)))
        case Some(Threw) => w.(phase := Rejected)
        case _ => w
      else w
    case (Opening, AbortSeen) => w.(phase := Returned(FailClosed(w.request, "system"), Some(Aborted)))
    case (Opening, ConnectFails) => w.(phase := Refused)
    case (Opening, Connects) => w.(phase := Waiting([], None, false))
    case (Refused, MarkReturns(p)) => OnMarked(s, w, p, "unreachable", Failing)
    case (Waiting(_, _, _), PollReturns(p)) =>
      if p in s.processes && w.handle.Some?
         && s.processes[p].call == ReadOutcome(w.request.id, w.request.session, w.handle) then
        match AnswerOf(s, p)
        case Some(Resolution(_, o, _)) => Settle(w, Some(DecisionFromOutcome(o, w.request)))
        case _ => w
      else w
    case (Waiting(replies, _, _), MessageReturns(p)) =>
      // a late decision is answered by its expiry
      if p in s.processes && IsOwnDecision(s.processes[p].call, w) then
        match AnswerOf(s, p)
        case Some(Resolution(_, o, _)) =>
          w.(phase := w.phase.(replies := replies + [DecisionFromOutcome(o, w.request)]))
        case _ => w
      else w
    case (Waiting(replies, _, _), ReplyFinishes(i)) => if i < |replies| then Settle(w, Some(replies[i])) else w
    case (Waiting(_, _, _), GivesUp) => Settle(w, None)
    case (Waiting(_, _, _), RequestSent) => w.(phase := w.phase.(sent := true))
    case (Waiting(_, _, sent), TransportFails) => if sent then w else w.(phase := Failing)
    case (Waiting(_, settled, sent), Resumes) =>
      if !sent || settled.None? then w
      else if settled.value.Some? then w.(phase := Returned(settled.value.value, None))
      else w.(phase := Expiring)
    case (Expiring, MarkReturns(p)) => OnMarked(s, w, p, "expired", Failing)
    case (Failing, MarkReturns(p)) => OnMarked(s, w, p, "unreachable", Rejected)
    case _ => w
  }

  function Happen(world: World, h: Happening): World {
    match h
    case Registry(e) => world.(system := Next(world.system, e))
    case _ => world.(waiter := Consume(world.system, world.waiter, h))
  }

  function Play(request: Request, happenings: seq<Happening>): World {
    if happenings == [] then World(Init(), Waiter(request, None, Registering))
    else Happen(Play(request, happenings[..|happenings| - 1]), happenings[|happenings| - 1])
  }

  // ---------------------------------------------------------------------------
  // What the waiter does with each happening
  // ---------------------------------------------------------------------------

  /** The denial of a caller that has no outcome to go by. */
  predicate IsDenial(d: Decision, request: Request, cause: string) {
    && d.requestId == request.id && d.session == request.session && d.verdict == Deny
    && !d.answers && d.decidedBy == Some(cause)
  }

  /** A registration that conflicts is denied at once, and one that fails to write is an error. */
  lemma {:induction false} RegistrationEnds(s: System, w: Waiter, p: Pid)
    requires w.phase == Registering && p in s.processes && s.processes[p].pc.Done?
    requires s.processes[p].call.Register? && s.processes[p].call.request == w.request
    ensures var t := Consume(s, w, RegistrationReturns(p));
      match s.processes[p].pc.answer
      case Registered(handle, _) => t == w.(handle := Some(handle), phase := Opening)
      case ConflictingRequest =>
        && t.phase.Returned? && t.phase.closed == Some(Conflict) && t.handle == w.handle
        && IsDenial(t.phase.decision, w.request, "system")
      case Threw => t.phase == Rejected
      case _ => t == w
  {
  }

  /**
   Connecting leads to waiting, and failing to connect to a closing of the request; so does a
   transport that fails, or a time that is up, and what has settled is returned.
   */
  lemma {:induction false} WaiterMoves(s: System, w: Waiter)
    ensures w.phase == Opening ==>
      && Consume(s, w, Connects).phase == Waiting([], None, false) && Consume(s, w, ConnectFails).phase == Refused
      && var t := Consume(s, w, AbortSeen);
         t.phase.Returned? && t.phase.closed == Some(Aborted) && IsDenial(t.phase.decision, w.request, "system")
    ensures w.phase.Waiting? ==>
      && Consume(s, w, RequestSent).phase == w.phase.(sent := true)
      && Consume(s, w, TransportFails).phase == (if w.phase.sent then w.phase else Failing)
      && Consume(s, w, GivesUp).phase == (if w.phase.settled == None then w.phase.(settled := Some(None)) else w.phase)
      && Consume(s, w, Resumes).phase ==
           (if !w.phase.sent || w.phase.settled == None then w.phase
            else if w.phase.settled == Some(None) then Expiring
            else Returned(w.phase.settled.value.value, None))
  {
  }

  /** What settles first stands: later answers, messages and timeouts do not change it. */
  lemma {:induction false} SettledStands(s: System, w: Waiter, h: Happening)
    requires w.phase.Waiting? && w.phase.settled != None
    ensures var t := Consume(s, w, h).phase;
      || (t.Waiting? && t.settled == w.phase.settled)
      || (t == Failing && h == TransportFails && !w.phase.sent)
      || (h == Resumes && w.phase.sent && t == (if w.phase.settled == Some(None) then Expiring
                                                else Returned(w.phase.settled.value.value, None)))
  {
    hide DecisionFromOutcome, IsOwnDecision, AnswerOf;
  }

  /** A message for another request, another session or another registration is nothing to this caller. */
  lemma {:induction false} ForeignMessageIsIgnored(s: System, w: Waiter, p: Pid)
    requires p in s.processes && s.processes[p].call.Accept?
    requires var c := s.processes[p].call;
      || c.decision.requestId != w.request.id || c.expected != w.handle
      || NormalizedSession(c.decision.session) != NormalizedSession(w.request.session)
    ensures Consume(s, w, MessageReturns(p)) == w
  {
    hide DecisionFromOutcome, NormalizedSession;
  }

  /** A closing that throws is tried once more with another cause, and then is the caller's error. */
  lemma {:induction false} ClosingThrows(s: System, w: Waiter, p: Pid)
    requires p in s.processes && s.processes[p].pc == Done(Threw)
    requires IsOwnMark(s.processes[p].call, w, if w.phase.Expiring? then "expired" else "unreachable")
    ensures w.phase.Refused? || w.phase.Expiring? ==> Consume(s, w, MarkReturns(p)).phase == Failing
    ensures w.phase.Failing? ==> Consume(s, w, MarkReturns(p)).phase == Rejected
  {
  }

  // ---------------------------------------------------------------------------
  // Every decision in the waiter's hands comes from a link of its own generation
  // ---------------------------------------------------------------------------

  function NameIn(h: Handle): WinnerName {
    WinnerName(h.requestId, h.generation)
  }

  /** The decision is what some winner, linked for the generation of the handle, says. */
  ghost predicate FromLink(s: Store, handle: Option<Handle>, request: Request, d: Decision) {
    && handle.Some?
    && exists l :: l in LinksOf(s, NameIn(handle.value)) && DecisionFromOutcome(l.winner.outcome, request) == d
  }

  ghost predicate WaiterOk(s: Store, w: Waiter) {
    && (w.handle.Some? ==> OwnHandle(s, w.handle.value, w.request.id, w.request.session))
    && match w.phase
       case Waiting(replies, settled, _) =>
         && w.handle.Some?
         && (forall d :: d in replies ==> FromLink(s, w.handle, w.request, d))
         && (settled.Some? && settled.value.Some? ==> FromLink(s, w.handle, w.request, settled.value.value))
       case Returned(d, None) => FromLink(s, w.handle, w.request, d)
       case Returned(d, Some(reason)) =>
         && d.requestId == w.request.id && d.session == w.request.session && d.verdict == Deny && !d.answers
         && d.decidedBy in (if reason == NoOutcome then [Some("expired"), Some("unreachable")] else [Some("system")])
         && (reason == Conflict ==> w.handle.None?)
         && (reason == Aborted ==> w.handle.Some? && d == FailClosed(w.request, "system"))
         && (reason == NoOutcome ==> w.handle.Some? && Gone(s, NameIn(w.handle.value)))
       case Registering => w.handle.None?
       case Rejected => true
       case _ => w.handle.Some?
  }

  lemma {:induction false} FromLinkStable(s: Store, t: Store, w: Waiter, d: Decision)
    requires Grows(s, t) && FromLink(s, w.handle, w.request, d)
    ensures FromLink(t, w.handle, w.request, d)
  {
    var l :| l in LinksOf(s, NameIn(w.handle.value)) && DecisionFromOutcome(l.winner.outcome, w.request) == d;
    assert l in LinksOf(t, NameIn(w.handle.value));
  }

  lemma {:induction false} WaiterStable(s: Store, t: Store, w: Waiter)
    requires Grows(s, t) && WaiterOk(s, w)
    ensures WaiterOk(t, w)
  {
    hide FromLink;
    match w.phase
    case Waiting(replies, settled, _) =>
      forall d | d in replies ensures FromLink(t, w.handle, w.request, d) { FromLinkStable(s, t, w, d); }
      if settled.Some? && settled.value.Some? { FromLinkStable(s, t, w, settled.value.value); }
    case Returned(d, None) => FromLinkStable(s, t, w, d);
    case _ =>
  }

  /** What an answered call with the waiter's handle hands to the waiter. */
  lemma {:induction false} AnswerIsFromLink(s: System, w: Waiter, p: Pid)
    requires Inv(s) && WaiterOk(s.store, w) && p in s.processes && w.handle.Some?
    requires Expected(s.processes[p].call) == w.handle
    requires AnswerOf(s, p).Some? && AnswerOf(s, p).value.Resolution?
    ensures FromLink(s.store, w.handle, w.request, DecisionFromOutcome(AnswerOf(s, p).value.outcome, w.request))
  {
    Theorems.DoneIsOk(s, p);
    hide Inv, ExpiringOk, WaiterOk, InTime;
    var a := s.processes[p].pc.answer;
    assert NameOf(a.record) == NameIn(w.handle.value);
    var l :| l in LinksOf(s.store, NameOf(a.record)) && l.winner.outcome == a.outcome;
  }

  lemma {:induction false} MarkedOk(s: System, w: Waiter, p: Pid, cause: string, onThrow: Phase)
    requires Inv(s) && WaiterOk(s.store, w) && (onThrow.Failing? || onThrow.Rejected?)
    requires cause in ["expired", "unreachable"]
    ensures WaiterOk(s.store, OnMarked(s, w, p, cause, onThrow))
  {
    hide Inv, FromLink, OwnHandle, Gone;
    if p in s.processes && IsOwnMark(s.processes[p].call, w, cause) && AnswerOf(s, p).Some? {
      Theorems.DoneIsOk(s, p);
      hide LinkedBy, Linked, Held, InTime, ExpiringOk;
      if AnswerOf(s, p).value.Resolution? { AnswerIsFromLink(s, w, p); }
    }
  }

  lemma {:induction false} RegistrationGivesOwnHandle(s: System, w: Waiter, p: Pid)
    requires Inv(s) && p in s.processes && s.processes[p].call.Register? && s.processes[p].call.request == w.request
    requires AnswerOf(s, p).Some? && AnswerOf(s, p).value.Registered?
    ensures OwnHandle(s.store, AnswerOf(s, p).value.handle, w.request.id, w.request.session)
  {
    Theorems.DoneIsOk(s, p);
    hide Inv, ExpiringOk;
    var h := AnswerOf(s, p).value.handle;
    NormalizedTwice(s.store.published[h.generation].request.session);
  }

  lemma {:induction false} ConsumeOk(s: System, w: Waiter, h: Happening)
    requires Inv(s) && WaiterOk(s.store, w)
    ensures WaiterOk(s.store, Consume(s, w, h))
  {
    hide Inv, StoreOk, FromLink, OwnHandle, OnMarked;
    match (w.phase, h)
    case (Registering, RegistrationReturns(p)) =>
      if p in s.processes && s.processes[p].call.Register? && s.processes[p].call.request == w.request
         && AnswerOf(s, p).Some? && AnswerOf(s, p).value.Registered? {
        RegistrationGivesOwnHandle(s, w, p);
      }
    case (Refused, MarkReturns(p)) => MarkedOk(s, w, p, "unreachable", Failing);
    case (Expiring, MarkReturns(p)) => MarkedOk(s, w, p, "expired", Failing);
    case (Failing, MarkReturns(p)) => MarkedOk(s, w, p, "unreachable", Rejected);
    case (Waiting(_, _, _), PollReturns(p)) =>
      if p in s.processes && w.handle.Some? && Expected(s.processes[p].call) == w.handle
         && AnswerOf(s, p).Some? && AnswerOf(s, p).value.Resolution? {
        AnswerIsFromLink(s, w, p);
      }
    case (Waiting(_, _, _), MessageReturns(p)) =>
      if p in s.processes && w.handle.Some? && Expected(s.processes[p].call) == w.handle
         && AnswerOf(s, p).Some? && AnswerOf(s, p).value.Resolution? {
        AnswerIsFromLink(s, w, p);
      }
    case _ =>
  }

  lemma {:induction false} LiveOk(request: Request, happenings: seq<Happening>)
    ensures var world := Play(request, happenings);
      Inv(world.system) && WaiterOk(world.system.store, world.waiter) && world.waiter.request == request
  {
    hide Inv, WaiterOk, Consume, Next, Grows;
    if happenings == [] {
      StartOk(request);
    } else {
      var h := happenings[|happenings| - 1];
      LiveOk(request, happenings[..|happenings| - 1]);
      var world := Play(request, happenings[..|happenings| - 1]);
      if h.Registry? {
        NextKeepsInv(world.system, h.event);
        WaiterStable(world.system.store, Next(world.system, h.event).store, world.waiter);
      } else {
        ConsumeOk(world.system, world.waiter, h);
        RequestIsKept(world.system, world.waiter, h);
      }
    }
  }

  lemma {:induction false} StartOk(request: Request)
    ensures Inv(Init()) && WaiterOk(Init().store, Waiter(request, None, Registering))
  {
  }

  lemma {:induction false} RequestIsKept(s: System, w: Waiter, h: Happening)
    ensures Consume(s, w, h).request == w.request
  {
  }

  predicate CarriesAllow(o: Outcome) {
    match o
    case Decided(d) => d.verdict == Allow
    case Terminal(_, resolved) => resolved.verdict == Some(Allow)
  }

  /** Allow is returned only when a winner linked for the waiter's own generation carries it, as its call said. */
  lemma {:induction false} AllowNeedsOwnWinner(request: Request, happenings: seq<Happening>)
    requires var w := Play(request, happenings).waiter; w.phase.Returned? && w.phase.decision.verdict == Allow
    ensures var world := Play(request, happenings);
      && world.waiter.handle.Some?
      && exists l :: l in LinksOf(world.system.store, NameIn(world.waiter.handle.value))
           && DecisionFromOutcome(l.winner.outcome, request) == world.waiter.phase.decision
           && CarriesAllow(l.winner.outcome) && Says(l.call, l.winner.outcome)
  {
    LiveOk(request, happenings);
    var world := Play(request, happenings);
    var l :| l in LinksOf(world.system.store, NameIn(world.waiter.handle.value))
      && DecisionFromOutcome(l.winner.outcome, request) == world.waiter.phase.decision;
    LinkSays(world.system, NameIn(world.waiter.handle.value), l);
    hide Inv, WaiterOk, Says;
    assert CarriesAllow(l.winner.outcome);
  }

  lemma {:induction false} LinkSays(s: System, name: WinnerName, l: Link)
    requires Inv(s) && l in LinksOf(s.store, name)
    ensures Says(l.call, l.winner.outcome)
  {
    hide PcOk, Says, ValidWinner, IsAdmissible, Known, PublishedOk;
    assert LinksOk(s.store, name);
  }

  /** The agent had stopped waiting when the registration returned: the abort is seen before the relay is asked. */
  ghost predicate AbortedBeforeConnecting(request: Request, happenings: seq<Happening>) {
    exists i :: 0 <= i < |happenings| && happenings[i] == AbortSeen
      && Play(request, happenings[..i]).waiter.phase == Opening
  }

  lemma {:induction false} AbortStep(s: System, w: Waiter, h: Happening)
    ensures w.phase.Returned? ==> Consume(s, w, h) == w
    ensures !w.phase.Returned? ==>
      (IsAborted(Consume(s, w, h)) <==> h == AbortSeen && w.phase == Opening)
  {
    hide AnswerOf, IsOwnMark, IsOwnDecision, DecisionFromOutcome;
  }

  predicate IsAborted(w: Waiter) {
    w.phase.Returned? && w.phase.closed == Some(Aborted)
  }

  lemma {:induction false} AbortedExactlyWhen(request: Request, happenings: seq<Happening>)
    ensures IsAborted(Play(request, happenings).waiter) <==> AbortedBeforeConnecting(request, happenings)
  {
    hide Consume, Next;
    if happenings != [] {
      var init, h := happenings[..|happenings| - 1], happenings[|happenings| - 1];
      var world := Play(request, init);
      AbortedExactlyWhen(request, init);
      AbortStep(world.system, world.waiter, h);
      OneMoreHappening(request, init, h);
      assert happenings == init + [h];
    }
  }

  lemma {:induction false} OneMoreHappening(request: Request, init: seq<Happening>, h: Happening)
    ensures AbortedBeforeConnecting(request, init + [h])
      <==> (|| AbortedBeforeConnecting(request, init)
            || (h == AbortSeen && Play(request, init).waiter.phase == Opening))
  {
    var all := init + [h];
    assert forall i :: 0 <= i <= |init| ==> all[..i] == init[..i];
    assert init[..|init|] == init;
    if AbortedBeforeConnecting(request, init) {
      var i :| 0 <= i < |init| && init[i] == AbortSeen && Play(request, init[..i]).waiter.phase == Opening;
      assert all[i] == AbortSeen && Play(request, all[..i]).waiter.phase == Opening;
    }
    if h == AbortSeen && Play(request, init).waiter.phase == Opening {
      assert all[|init|] == AbortSeen && Play(request, all[..|init|]).waiter.phase == Opening;
    }
    if AbortedBeforeConnecting(request, all) {
      var i :| 0 <= i < |all| && all[i] == AbortSeen && Play(request, all[..i]).waiter.phase == Opening;
      if i < |init| { assert init[i] == AbortSeen && Play(request, init[..i]).waiter.phase == Opening; }
    }
  }

  /** The caller was given the decision of the winner on disk. */
  predicate GotTheWinner(world: World)
    requires world.waiter.phase.Returned? && world.waiter.handle.Some?
  {
    var name := NameIn(world.waiter.handle.value);
    && name in world.system.store.winners
    && world.waiter.phase.decision
       == DecisionFromOutcome(world.system.store.winners[name].outcome, world.waiter.request)
  }

  /** The winner on disk happens to say just what an aborted caller is told. */
  predicate WinnerIsTheAbort(world: World)
    requires world.waiter.handle.Some?
  {
    var name := NameIn(world.waiter.handle.value);
    && name in world.system.store.winners
    && DecisionFromOutcome(world.system.store.winners[name].outcome, world.waiter.request)
       == FailClosed(world.waiter.request, "system")
  }

  /**
   A caller whose record is still on disk gets the decision of the winner on disk, whatever
   raced the phone, exactly when it was not aborted before it connected: then it is told a
   fixed deny, which may or may not be what the winner says.
   */
  lemma {:induction false} CallerGetsTheWinner(request: Request, happenings: seq<Happening>)
    requires var world := Play(request, happenings);
      && world.waiter.phase.Returned?
      && world.waiter.handle.Some?
      && Live(world.system.store, NameIn(world.waiter.handle.value))
    ensures var world := Play(request, happenings);
      GotTheWinner(world) <==> !AbortedBeforeConnecting(request, happenings) || WinnerIsTheAbort(world)
  {
    LiveOk(request, happenings);
    AbortedExactlyWhen(request, happenings);
    var world := Play(request, happenings);
    hide Play, AbortedBeforeConnecting;
    if !IsAborted(world.waiter) { ReturnedIsTheWinner(world); }
    hide Inv;
  }

  /**
   What the caller reads off an outcome: the decision itself, or a decision with the verdict,
   decider and time of the closing, with deny and "system" where the closing names none.
   */
  predicate Tells(d: Decision, o: Outcome) {
    match o
    case Decided(decision) => d == decision
    case Terminal(_, closing) =>
      && d.requestId == closing.requestId && NormalizedSession(d.session) == NormalizedSession(closing.session)
      && d.verdict == (if closing.verdict == Some(Allow) then Allow else Deny)
      && d.decidedBy == Some(if closing.decidedBy == None then "system" else closing.decidedBy.value)
      && d.decidedAt == closing.resolvedAt && !d.answers
  }

  /** Unless it was aborted before it connected, the caller is told what the winner on disk says, and nothing else. */
  lemma {:induction false} CallerIsTold(request: Request, happenings: seq<Happening>)
    requires var world := Play(request, happenings);
      && world.waiter.phase.Returned?
      && world.waiter.handle.Some?
      && Live(world.system.store, NameIn(world.waiter.handle.value))
      && !AbortedBeforeConnecting(request, happenings)
    ensures var world := Play(request, happenings);
      var name := NameIn(world.waiter.handle.value);
      var d := world.waiter.phase.decision;
      && name in world.system.store.winners
      && Tells(d, world.system.store.winners[name].outcome)
      && (d.verdict == Allow <==> CarriesAllow(world.system.store.winners[name].outcome))
  {
    CallerGetsTheWinner(request, happenings);
    LiveOk(request, happenings);
    var world := Play(request, happenings);
    OutcomeIsOfRequest(world.system, world.waiter);
    hide Play, Inv, WaiterOk, NormalizedSession;
  }

  /** A caller that was answered without an outcome was denied: with "system", "expired" or "unreachable". */
  lemma {:induction false} ClosedIsDenied(request: Request, happenings: seq<Happening>)
    requires var w := Play(request, happenings).waiter; w.phase.Returned? && w.phase.closed.Some?
    ensures var world := Play(request, happenings);
      var d := world.waiter.phase.decision;
      && d.requestId == request.id && d.session == request.session && d.verdict == Deny && !d.answers
      && match world.waiter.phase.closed.value
         case Conflict => d.decidedBy == Some("system") && world.waiter.handle == None
         case Aborted => d.decidedBy == Some("system") && world.waiter.handle != None
         case NoOutcome =>
           && d.decidedBy in [Some("expired"), Some("unreachable")] && world.waiter.handle != None
           && Gone(world.system.store, NameIn(world.waiter.handle.value))
  {
    LiveOk(request, happenings);
    hide Play, Inv, Gone;
  }

  lemma {:induction false} OutcomeIsOfRequest(s: System, w: Waiter)
    requires Inv(s) && WaiterOk(s.store, w) && w.handle.Some? && NameIn(w.handle.value) in s.store.winners
    ensures match s.store.winners[NameIn(w.handle.value)].outcome
            case Terminal(_, closing) => closing.requestId == w.request.id
              && NormalizedSession(closing.session) == NormalizedSession(w.request.session)
            case _ => true
  {
    hide PcOk, Says, IsAdmissible, Known, PublishedOk, NormalizedSession, FromLink, Gone;
    assert LinksOk(s.store, NameIn(w.handle.value));
  }

  lemma {:induction false} ReturnedIsTheWinner(world: World)
    requires Inv(world.system) && WaiterOk(world.system.store, world.waiter)
    requires world.waiter.phase.Returned? && world.waiter.handle.Some? && !IsAborted(world.waiter)
    requires Live(world.system.store, NameIn(world.waiter.handle.value))
    ensures GotTheWinner(world)
  {
    var name := NameIn(world.waiter.handle.value);
    var l :| l in LinksOf(world.system.store, name)
      && DecisionFromOutcome(l.winner.outcome, world.waiter.request) == world.waiter.phase.decision;
    LiveNameHasSoleLink(world.system.store, name, l);
    hide Inv, StoreOk;
  }

  lemma {:induction false} LiveNameHasSoleLink(s: Store, name: WinnerName, l: Link)
    requires StoreOk(s) && Live(s, name) && l in LinksOf(s, name)
    ensures name in s.winners && s.winners[name] == l.winner
  {
    hide Says, ValidWinner, IsAdmissible, Known, PublishedOk;
    assert LinksOk(s, name);
  }

  // ---------------------------------------------------------------------------
  // An aborted caller
  // ---------------------------------------------------------------------------

  /** What happens in the registry before the waiter looks at anything. */
  function RegistryOnly(events: seq<Event>): seq<Happening> {
    if events == [] then [] else RegistryOnly(events[..|events| - 1]) + [Registry(events[|events| - 1])]
  }

  lemma {:induction false} RegistryFirst(request: Request, events: seq<Event>)
    ensures Play(request, RegistryOnly(events)) == World(Run(Init(), events), Waiter(request, None, Registering))
  {
    hide Next, Init;
    if events != [] {
      RegistryFirst(request, events[..|events| - 1]);
      PlayStep(request, RegistryOnly(events[..|events| - 1]), Registry(events[|events| - 1]));
    }
  }

  lemma {:induction false} PlayStep(request: Request, happenings: seq<Happening>, h: Happening)
    ensures Play(request, happenings + [h]) == Happen(Play(request, happenings), h)
  {
    assert (happenings + [h])[..|happenings|] == happenings;
  }

  /** The phone allows the request while its caller is gone: the record says allow, the caller is told deny. */
  lemma {:induction false} AbortedCallerMissesTheAllow() returns (happenings: seq<Happening>)
    ensures var world := Play(Theorems.REQUEST, happenings);
      && world.waiter.phase == Returned(FailClosed(Theorems.REQUEST, "system"), Some(Aborted))
      && world.waiter.handle == Some(HandleOf(Theorems.RECORD))
      && Live(world.system.store, NameOf(Theorems.RECORD))
      && NameOf(Theorems.RECORD) in world.system.store.winners
      && CarriesAllow(world.system.store.winners[NameOf(Theorems.RECORD)].outcome)
  {
    var s := Theorems.RequestIsAllowed();
    var events: seq<Event> :| Run(Init(), events) == s;
    RegistryFirst(Theorems.REQUEST, events);
    var first := RegistryOnly(events);
    PlayStep(Theorems.REQUEST, first, RegistrationReturns(0));
    PlayStep(Theorems.REQUEST, first + [RegistrationReturns(0)], AbortSeen);
    happenings := first + [RegistrationReturns(0)] + [AbortSeen];
    hide Play, RegistryOnly, Run;
  }
}
