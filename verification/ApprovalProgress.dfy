/** The waiter always gets an answer: its own closing call returns, and a decision of the phone reaches it. */
module ApprovalProgress {
  import opened Basics
  import opened Approvals
  import opened ApprovalAgreement
  import opened ApprovalWaiter
  import Theorems = ApprovalTheorems
  import Calls = ApprovalCalls

  function EventsOf(happenings: seq<Happening>): seq<Event> {
    if happenings == [] then []
    else
      var h := happenings[|happenings| - 1];
      EventsOf(happenings[..|happenings| - 1]) + if h.Registry? then [h.event] else []
  }

  lemma {:induction false} PlayIsRun(request: Request, happenings: seq<Happening>)
    ensures Play(request, happenings).system == Run(Init(), EventsOf(happenings))
  {
    hide Next, Consume, Init;
    if happenings != [] {
      var init, h := happenings[..|happenings| - 1], happenings[|happenings| - 1];
      PlayIsRun(request, init);
      var events := EventsOf(init);
      if h.Registry? {
        assert (events + [h.event])[..|events|] == events;
        assert Run(Init(), events + [h.event]) == Next(Run(Init(), events), h.event);
      } else {
        assert events + [] == events;
      }
    }
  }

  function AdvancesOf(p: Pid, n: nat): seq<Happening> {
    if n == 0 then [] else AdvancesOf(p, n - 1) + [Registry(Advance(p))]
  }

  /** A whole call of its own on the registry, with nobody in between. */
  function CallOf(p: Pid, c: Call): seq<Happening> {
    [Registry(Spawn(p, c))] + AdvancesOf(p, 8)
  }

  lemma {:induction false} PlayAdvances(request: Request, happenings: seq<Happening>, p: Pid, n: nat)
    ensures Play(request, happenings + AdvancesOf(p, n))
      == World(Calls.Advances(Play(request, happenings).system, p, n), Play(request, happenings).waiter)
  {
    hide Next, Consume;
    if n == 0 {
      assert happenings + [] == happenings;
    } else {
      PlayAdvances(request, happenings, p, n - 1);
      PlayStep(request, happenings + AdvancesOf(p, n - 1), Registry(Advance(p)));
      assert happenings + AdvancesOf(p, n) == happenings + AdvancesOf(p, n - 1) + [Registry(Advance(p))];
    }
  }

  lemma {:induction false} PlayCall(request: Request, happenings: seq<Happening>, p: Pid, c: Call)
    ensures Play(request, happenings + CallOf(p, c))
      == World(Calls.Undisturbed(Play(request, happenings).system, p, c), Play(request, happenings).waiter)
  {
    hide Next, Consume, AdvancesOf, Calls.Advances;
    PlayStep(request, happenings, Registry(Spawn(p, c)));
    PlayAdvances(request, happenings + [Registry(Spawn(p, c))], p, 8);
    assert happenings + CallOf(p, c) == happenings + [Registry(Spawn(p, c))] + AdvancesOf(p, 8);
  }

  lemma {:induction false} OwnCallIsIssued(s: System, w: Waiter, c: Call)
    requires Inv(s) && WaiterOk(s.store, w) && w.handle.Some? && Expected(c) == w.handle
    ensures MayCall(s, c)
  {
    hide PcOk, LinksOk, NormalizedSession, FromLink, Gone;
    assert PublishedOk(s.store, w.handle.value.generation);
  }

  /** The calls the waiter makes when the relay fails or the time is up. */
  function ClosingCall(w: Waiter, now: int): Call {
    MarkTerminal(w.request.id, Expired,
                 TerminalOptions(Some(Deny), Some(if w.phase.Expiring? then "expired" else "unreachable"),
                                 w.request.session, None), now, w.handle)
  }

  /** A live registration of the waiter's is the one its own calls are about. */
  lemma {:induction false} OwnRecordFits(s: Store, w: Waiter)
    requires StoreOk(s) && w.handle.Some? && OwnHandle(s, w.handle.value, w.request.id, w.request.session)
    ensures Live(s, NameIn(w.handle.value)) ==>
      && w.request.id in s.records
      && var r := s.records[w.request.id];
         && NameOf(r) == NameIn(w.handle.value) && r.request.id == w.request.id
         && Calls.Fits(w.handle, r) && Calls.SameSession(w.request.session, r.request.session)
  {
    hide LinksOk, NormalizedSession;
    if Live(s, NameIn(w.handle.value)) {
      Calls.LiveIsPublished(s, NameIn(w.handle.value));
      assert PublishedOk(s, w.handle.value.generation);
    }
  }

  /** The waiter's phase once its closing call has answered. */
  function Closed(w: Waiter, a: Answer): Phase {
    match a
    case Resolution(_, o, _) => Returned(DecisionFromOutcome(o, w.request), None)
    case _ =>
      Returned(FailClosed(w.request, if w.phase.Expiring? then "expired" else "unreachable"), Some(NoOutcome))
  }

  lemma {:induction false} MarkEnds(s: System, w: Waiter, p: Pid, now: int)
    requires w.handle.Some? && (w.phase.Refused? || w.phase.Expiring? || w.phase.Failing?)
    requires p in s.processes && s.processes[p].call == ClosingCall(w, now) && s.processes[p].pc.Done?
    requires s.processes[p].pc.answer.Resolution? || s.processes[p].pc.answer.NoMatch?
    ensures Consume(s, w, MarkReturns(p)).phase == Closed(w, s.processes[p].pc.answer)
  {
    hide DecisionFromOutcome;
  }

  lemma {:induction false} WaiterFacts(request: Request, happenings: seq<Happening>)
    ensures var world := Play(request, happenings);
      && world.waiter.request == request && StoreOk(world.system.store)
      && (world.waiter.phase.Refused? || world.waiter.phase.Expiring? || world.waiter.phase.Failing? ==>
            world.waiter.handle.Some?)
      && (world.waiter.handle.Some? ==>
            OwnHandle(world.system.store, world.waiter.handle.value, request.id, request.session))
  {
    LiveOk(request, happenings);
    hide Play, StoreOk, OwnHandle, FromLink, Gone;
  }

  lemma {:induction false} ClosingAnswers(request: Request, happenings: seq<Happening>, p: Pid, now: int)
    requires var world := Play(request, happenings);
      && (world.waiter.phase.Refused? || world.waiter.phase.Expiring? || world.waiter.phase.Failing?)
      && p !in world.system.processes
    ensures var world := Play(request, happenings);
      var c := ClosingCall(world.waiter, now);
      var after := Play(request, happenings + CallOf(p, c) + [MarkReturns(p)]);
      && world.waiter.handle.Some? && world.waiter.request == request
      && OwnHandle(world.system.store, world.waiter.handle.value, request.id, request.session)
      && StoreOk(world.system.store)
      && after.waiter.phase == Closed(world.waiter, Calls.SoleAnswer(world.system.store, c))
      && after.waiter.handle == world.waiter.handle
      && Calls.SoleEffect(world.system.store, c, after.system.store)
  {
    WaiterFacts(request, happenings);
    hide StoreOk, OwnHandle, Calls.SoleEffect, CallOf, Consume;
    var world := Play(request, happenings);
    var c := ClosingCall(world.waiter, now);
    OwnCallAnswers(request, happenings, p, c);
    PlayStep(request, happenings + CallOf(p, c), MarkReturns(p));
    var before := Play(request, happenings + CallOf(p, c));
    hide Play;
    assert Calls.SoleAnswer(world.system.store, c).Resolution? || Calls.SoleAnswer(world.system.store, c).NoMatch?;
    hide Calls.SoleAnswer;
    MarkEnds(before.system, world.waiter, p, now);
    MarkKeepsHandle(before.system, world.waiter, p);
  }

  lemma {:induction false} MarkKeepsHandle(s: System, w: Waiter, p: Pid)
    ensures Consume(s, w, MarkReturns(p)).handle == w.handle
  {
    hide DecisionFromOutcome, FailClosed;
  }

  /** What a call of the waiter's own leaves behind. */
  lemma {:induction false} OwnCallAnswers(request: Request, happenings: seq<Happening>, p: Pid, c: Call)
    requires c.Accept? || c.MarkTerminal? || c.ReadOutcome?
    requires var world := Play(request, happenings);
      p !in world.system.processes && world.waiter.handle.Some? && Expected(c) == world.waiter.handle
    ensures var world := Play(request, happenings);
      var after := Play(request, happenings + CallOf(p, c));
      && after.waiter == world.waiter && p in after.system.processes
      && after.system.processes[p].call == c
      && after.system.processes[p].pc == Done(Calls.SoleAnswer(world.system.store, c))
      && Calls.SoleEffect(world.system.store, c, after.system.store)
  {
    LiveOk(request, happenings);
    var world := Play(request, happenings);
    PlayIsRun(request, happenings);
    PlayCall(request, happenings, p, c);
    OwnCallIsIssued(world.system, world.waiter, c);
    Calls.SoleCall(EventsOf(happenings), p, c);
    hide Run, Play, EventsOf, CallOf, Theorems.Reachable, Inv, Calls.SoleAnswer, Calls.SoleEffect;
    CallIsKept(Next(world.system, Spawn(p, c)), p, 8);
  }

  lemma {:induction false} CallIsKept(s: System, p: Pid, n: nat)
    requires p in s.processes
    ensures p in Calls.Advances(s, p, n).processes
    ensures Calls.Advances(s, p, n).processes[p].call == s.processes[p].call
  {
    hide Next;
    if n > 0 {
      CallIsKept(s, p, n - 1);
      StepKeepsCall(Calls.Advances(s, p, n - 1), p);
    }
  }

  lemma {:induction false} StepKeepsCall(s: System, p: Pid)
    requires p in s.processes
    ensures p in Next(s, Advance(p)).processes
    ensures Next(s, Advance(p)).processes[p].call == s.processes[p].call
  {
    hide LookupRecord, LookupWinner, Admits, EffectiveAt, WinnerFor, TerminalOutcome, StoredDecision, Acting;
  }

  lemma {:induction false} TellsClosing(d: Decision, s: Store, c: Call, w: Waiter)
    requires c.MarkTerminal? && w.handle.Some? && w.request.id in s.records && c.requestId == w.request.id
    requires Calls.Concerns(c, s.records[w.request.id]) && NameOf(s.records[w.request.id]) !in s.winners
    requires d == DecisionFromOutcome(Calls.SoleAnswer(s, c).outcome, w.request)
    ensures d.verdict == (if c.options.verdict == Some(Allow) then Allow else Deny)
    ensures d.decidedBy == Some(if c.options.decidedBy == None then "system" else c.options.decidedBy.value)
  {
    hide Calls.Concerns, NormalizedSession;
  }

  /**
   A caller that closes its request itself returns. If its registration is still there, it is
   told what the winner says; and if there was no winner, its own denial is that winner.
   */
  lemma {:induction false} ClosingReturns(request: Request, happenings: seq<Happening>, p: Pid, now: int)
    requires var world := Play(request, happenings);
      && (world.waiter.phase.Refused? || world.waiter.phase.Expiring? || world.waiter.phase.Failing?)
      && p !in world.system.processes
    ensures var world := Play(request, happenings);
      var after := Play(request, happenings + CallOf(p, ClosingCall(world.waiter, now)) + [MarkReturns(p)]);
      && world.waiter.handle.Some? && after.waiter.phase.Returned?
      && var name := NameIn(world.waiter.handle.value);
         (Live(world.system.store, name) ==>
            && name in after.system.store.winners
            && Tells(after.waiter.phase.decision, after.system.store.winners[name].outcome)
            && (name !in world.system.store.winners ==>
                  && after.waiter.phase.decision.verdict == Deny
                  && after.waiter.phase.decision.decidedBy
                     == Some(if world.waiter.phase.Expiring? then "expired" else "unreachable")))
  {
    ClosingAnswers(request, happenings, p, now);
    var world := Play(request, happenings);
    var c := ClosingCall(world.waiter, now);
    var all := happenings + CallOf(p, c) + [MarkReturns(p)];
    var name := NameIn(world.waiter.handle.value);
    if Live(world.system.store, name) {
      OwnRecordFits(world.system.store, world.waiter);
      hide StoreOk, OwnHandle, CallOf, Tells, Play;
      assert Calls.Concerns(c, world.system.store.records[request.id]);
      ClosedIsNotAborted(request, all);
      CallerIsTold(request, all);
      if name !in world.system.store.winners {
        TellsClosing(Play(request, all).waiter.phase.decision, world.system.store, c, world.waiter);
      }
    }
    hide Play;
  }

  lemma {:induction false} ClosedIsNotAborted(request: Request, happenings: seq<Happening>)
    requires var w := Play(request, happenings).waiter; w.phase.Returned? && w.phase.closed == None
    ensures !AbortedBeforeConnecting(request, happenings)
  {
    AbortedExactlyWhen(request, happenings);
    hide Play, AbortedBeforeConnecting;
  }

  /** Whatever has happened, a registered caller can still return by steps of its own. */
  lemma {:induction false} CallerCanReturn(request: Request, happenings: seq<Happening>) returns (more: seq<Happening>)
    requires var w := Play(request, happenings).waiter; !w.phase.Registering? && !w.phase.Rejected?
    ensures Play(request, happenings + more).waiter.phase.Returned?
  {
    hide Play, CallOf, Tells;
    var waiting := Resume(request, happenings);
    var world := Play(request, happenings + waiting);
    if world.waiter.phase.Returned? {
      more := waiting;
    } else {
      var p := FreshPid(world.system.processes.Keys);
      ClosingReturns(request, happenings + waiting, p, 0);
      more := waiting + (CallOf(p, ClosingCall(world.waiter, 0)) + [MarkReturns(p)]);
      assert happenings + more == happenings + waiting + CallOf(p, ClosingCall(world.waiter, 0)) + [MarkReturns(p)];
    }
  }

  /** Connecting may fail and waiting may end: then the caller returns, or closes its request itself. */
  lemma {:induction false} Resume(request: Request, happenings: seq<Happening>) returns (more: seq<Happening>)
    requires var w := Play(request, happenings).waiter; !w.phase.Registering? && !w.phase.Rejected?
    ensures var phase := Play(request, happenings + more).waiter.phase;
      phase.Returned? || phase.Refused? || phase.Expiring? || phase.Failing?
  {
    hide Play, DecisionFromOutcome, OnMarked, FailClosed;
    var w := Play(request, happenings).waiter;
    more := [];
    if w.phase.Opening? {
      more := [ConnectFails];
      PlayStep(request, happenings, ConnectFails);
    } else if w.phase.Waiting? {
      more := [GivesUp, RequestSent, Resumes];
      PlayStep(request, happenings, GivesUp);
      PlayStep(request, happenings + [GivesUp], RequestSent);
      PlayStep(request, happenings + [GivesUp] + [RequestSent], Resumes);
      assert happenings + more == happenings + [GivesUp] + [RequestSent] + [Resumes];
      GivingUpEnds(Play(request, happenings).system, w);
      hide Consume;
    } else {
      assert happenings + [] == happenings;
    }
  }

  lemma {:induction false} GivingUpEnds(s: System, w: Waiter)
    requires w.phase.Waiting?
    ensures var phase := Consume(s, Consume(s, Consume(s, w, GivesUp), RequestSent), Resumes).phase;
      phase.Returned? || phase.Expiring?
  {
    hide DecisionFromOutcome, OnMarked, FailClosed, AnswerOf;
  }

  lemma {:induction false} FreshPid(taken: set<Pid>) returns (p: Pid)
    ensures forall q :: q in taken ==> q < p
  {
    p := 0;
    if taken != {} {
      var q :| q in taken;
      var r := FreshPid(taken - {q});
      p := if r <= q then q + 1 else r;
      assert forall x :: x in taken ==> x == q || x in taken - {q};
    }
  }

  lemma {:induction false} MessageSettles(s: System, w: Waiter, p: Pid, o: Outcome)
    requires w.phase.Waiting? && w.phase.settled == None
    requires p in s.processes && IsOwnDecision(s.processes[p].call, w)
    requires AnswerOf(s, p).Some? && AnswerOf(s, p).value.Resolution? && AnswerOf(s, p).value.outcome == o
    ensures var n := |w.phase.replies|;
      Consume(s, Consume(s, Consume(s, Consume(s, w, MessageReturns(p)), ReplyFinishes(n)), RequestSent), Resumes).phase
      == Returned(DecisionFromOutcome(o, w.request), None)
  {
    hide DecisionFromOutcome, IsOwnDecision, OnMarked, AnswerOf;
  }

  lemma {:induction false} FourHappenings(request: Request, happenings: seq<Happening>, p: Pid, n: nat)
    ensures var world := Play(request, happenings);
      var s := world.system;
      Play(request, happenings + [MessageReturns(p), ReplyFinishes(n), RequestSent, Resumes]) == World(s,
        Consume(s, Consume(s, Consume(s, Consume(s, world.waiter, MessageReturns(p)), ReplyFinishes(n)), RequestSent),
                Resumes))
  {
    hide Consume;
    PlayStep(request, happenings, MessageReturns(p));
    PlayStep(request, happenings + [MessageReturns(p)], ReplyFinishes(n));
    PlayStep(request, happenings + [MessageReturns(p)] + [ReplyFinishes(n)], RequestSent);
    PlayStep(request, happenings + [MessageReturns(p)] + [ReplyFinishes(n)] + [RequestSent], Resumes);
    hide Play;
    assert happenings + [MessageReturns(p), ReplyFinishes(n), RequestSent, Resumes]
        == happenings + [MessageReturns(p)] + [ReplyFinishes(n)] + [RequestSent] + [Resumes];
  }

  /** A decision of the phone that comes in time reaches the caller that waits for it, as it was made. */
  lemma {:induction false} DecisionReachesCaller(request: Request, happenings: seq<Happening>, p: Pid, d: Decision,
        now: int) returns (more: seq<Happening>)
    requires var world := Play(request, happenings);
      && world.waiter.phase.Waiting? && world.waiter.phase.settled == None && world.waiter.handle.Some?
      && p !in world.system.processes
      && d.requestId == request.id && Calls.SameSession(d.session, request.session)
      && var name := NameIn(world.waiter.handle.value);
         && Live(world.system.store, name) && name !in world.system.store.winners
         && var r := world.system.store.records[name.requestId];
            now <= r.updatedAt + 300_000 && (r.request.isQuestion && d.verdict == Allow ==> d.answers)
    ensures var after := Play(request, happenings + more);
      && after.waiter.phase.Returned? && after.waiter.phase.decision.verdict == d.verdict
      && after.waiter.phase.decision.requestId == d.requestId && after.waiter.phase.decision.answers == d.answers
  {
    hide Play, StoreOk, OwnHandle, Consume, CallOf, NormalizedSession, Calls.SoleEffect, Calls.Fits;
    WaiterFacts(request, happenings);
    var world := Play(request, happenings);
    var c := Accept(d, now, world.waiter.handle);
    OwnRecordFits(world.system.store, world.waiter);
    OwnCallAnswers(request, happenings, p, c);
    var n := |world.waiter.phase.replies|;
    FourHappenings(request, happenings + CallOf(p, c), p, n);
    var s := Play(request, happenings + CallOf(p, c)).system;
    MessageSettles(s, world.waiter, p, Calls.SoleAnswer(world.system.store, c).outcome);
    more := CallOf(p, c) + [MessageReturns(p), ReplyFinishes(n), RequestSent, Resumes];
    assert happenings + more
        == happenings + CallOf(p, c) + [MessageReturns(p), ReplyFinishes(n), RequestSent, Resumes];
  }

  lemma {:induction false} PollSettles(s: System, w: Waiter, p: Pid, o: Outcome)
    requires w.phase.Waiting? && w.phase.settled == None && w.handle.Some?
    requires p in s.processes && s.processes[p].call == ReadOutcome(w.request.id, w.request.session, w.handle)
    requires s.processes[p].pc.Done? && s.processes[p].pc.answer.Resolution? && s.processes[p].pc.answer.outcome == o
    ensures Consume(s, Consume(s, Consume(s, w, PollReturns(p)), RequestSent), Resumes).phase
      == Returned(DecisionFromOutcome(o, w.request), None)
  {
    hide DecisionFromOutcome, OnMarked;
  }

  lemma {:induction false} ThreeHappenings(request: Request, happenings: seq<Happening>, p: Pid)
    ensures var world := Play(request, happenings);
      var s := world.system;
      Play(request, happenings + [PollReturns(p), RequestSent, Resumes])
      == World(s, Consume(s, Consume(s, Consume(s, world.waiter, PollReturns(p)), RequestSent), Resumes))
  {
    hide Consume;
    PlayStep(request, happenings, PollReturns(p));
    PlayStep(request, happenings + [PollReturns(p)], RequestSent);
    PlayStep(request, happenings + [PollReturns(p)] + [RequestSent], Resumes);
    hide Play;
    assert happenings + [PollReturns(p), RequestSent, Resumes]
        == happenings + [PollReturns(p)] + [RequestSent] + [Resumes];
  }

  lemma {:induction false} PollIsAnswered(s: Store, w: Waiter)
    requires StoreOk(s) && w.handle.Some? && OwnHandle(s, w.handle.value, w.request.id, w.request.session)
    requires Live(s, NameIn(w.handle.value)) && NameIn(w.handle.value) in s.winners
    ensures var a := Calls.SoleAnswer(s, ReadOutcome(w.request.id, w.request.session, w.handle));
      a.Resolution? && a.outcome == s.winners[NameIn(w.handle.value)].outcome
  {
    hide StoreOk, OwnHandle, NormalizedSession, Calls.Fits, Calls.SameSession, Calls.OutcomeOf;
    OwnRecordFits(s, w);
  }

  lemma {:induction false} VerdictIsTold(o: Outcome, request: Request)
    ensures DecisionFromOutcome(o, request).verdict == Allow <==> CarriesAllow(o)
  {
  }

  /** And a decision that somebody else put on record reaches it by the next poll. */
  lemma {:induction false} PollReachesCaller(request: Request, happenings: seq<Happening>, p: Pid)
        returns (more: seq<Happening>)
    requires var world := Play(request, happenings);
      && world.waiter.phase.Waiting? && world.waiter.phase.settled == None && world.waiter.handle.Some?
      && p !in world.system.processes
      && var name := NameIn(world.waiter.handle.value);
         Live(world.system.store, name) && name in world.system.store.winners
    ensures var world := Play(request, happenings);
      var after := Play(request, happenings + more);
      && after.waiter.phase.Returned?
      && (after.waiter.phase.decision.verdict == Allow
          <==> CarriesAllow(world.system.store.winners[NameIn(world.waiter.handle.value)].outcome))
  {
    hide Play, StoreOk, OwnHandle, Consume, CallOf, CarriesAllow, DecisionFromOutcome, Live, NameIn;
    WaiterFacts(request, happenings);
    var world := Play(request, happenings);
    var c := ReadOutcome(request.id, request.session, world.waiter.handle);
    var outcome := world.system.store.winners[NameIn(world.waiter.handle.value)].outcome;
    PollIsAnswered(world.system.store, world.waiter);
    assert Expected(c) == world.waiter.handle;
    hide *;
    VerdictIsTold(outcome, request);
    OwnCallAnswers(request, happenings, p, c);
    ThreeHappenings(request, happenings + CallOf(p, c), p);
    PollSettles(Play(request, happenings + CallOf(p, c)).system, world.waiter, p, outcome);
    more := CallOf(p, c) + [PollReturns(p), RequestSent, Resumes];
    assert happenings + more == happenings + CallOf(p, c) + [PollReturns(p), RequestSent, Resumes];
  }
}
