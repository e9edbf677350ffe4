/** What every run of the outbound queue keeps, whatever order its events come in. */
module OutboundSafety {
  import opened Basics
  import opened OutboundQueue

  function TotalBytes(jobs: seq<Job>): nat {
    if jobs == [] then 0 else TotalBytes(jobs[..|jobs| - 1]) + |jobs[|jobs| - 1].frame|
  }

  lemma {:induction false} TotalBytesOfConcat(a: seq<Job>, b: seq<Job>)
    ensures TotalBytes(a + b) == TotalBytes(a) + TotalBytes(b)
  {
    if b == [] {
      assert a + b == a;
    } else {
      assert (a + b)[..|a + b| - 1] == a + b[..|b| - 1];
      TotalBytesOfConcat(a, b[..|b| - 1]);
    }
  }

  lemma {:induction false} TotalBytesOfRest(jobs: seq<Job>)
    requires jobs != []
    ensures TotalBytes(jobs[1..]) == TotalBytes(jobs) - |jobs[0].frame|
  {
    assert [jobs[0]] + jobs[1..] == jobs;
    TotalBytesOfConcat([jobs[0]], jobs[1..]);
    assert [jobs[0]][..0] == [];
  }

  function Ids(jobs: seq<Job>): set<nat> {
    set j | j in jobs :: j.id
  }

  /** The budget: the byte counter is the sum over waiting frames, within both bounds. */
  predicate WithinBudget(s: State) {
    && s.bytes == TotalBytes(s.controls) + TotalBytes(s.snapshots)
    && s.bytes <= MAX_BYTES
    && |s.controls| + |s.snapshots| <= MAX_FRAMES
  }

  /** One write at a time; and an open, idle, credited queue that has work always has a timer. */
  predicate NeverStalls(s: State) {
    && (s.running <==> s.inFlight.Some?)
    && (s.timer.Some? ==> !s.running && !s.closed && HasWork(s) && s.nextAt <= s.timer.value)
    && (!s.closed && !s.running && HasCredit(s) && HasWork(s) ==> s.timer.Some?)
    && (s.closed ==> !HasWork(s))
  }

  predicate CreditOk(s: State) {
    && s.received <= s.sent
    && (s.window.Some? ==> MIN_WINDOW <= s.window.value <= MAX_WINDOW)
    && s.sent == |s.history.starts|
  }

  /** Each lane starts its frames in the order it accepted them. */
  predicate LaneOk(accepted: seq<Job>, started: seq<Job>, waiting: seq<Job>, closed: bool) {
    if closed then started <= accepted else accepted == started + waiting
  }

  predicate LanesOk(s: State) {
    && LaneOk(s.history.acceptedControls, s.history.startedControls, s.controls, s.closed)
    && LaneOk(s.history.acceptedSnapshots, s.history.startedSnapshots, s.snapshots, s.closed)
  }

  /** Ids number the accepted frames without repetition. */
  predicate AreNumbers(all: seq<Job>) {
    && (forall i :: 0 <= i < |all| ==> all[i].id < |all|)
    && (forall i, j :: 0 <= i < j < |all| ==> all[i].id != all[j].id)
  }

  predicate Numbered(s: State) {
    AreNumbers(s.history.acceptedControls + s.history.acceptedSnapshots)
  }

  /** Exactly the finished frames have settled: all of them once closed, else all started but the one in flight. */
  predicate SettledOk(s: State) {
    var started := s.history.startedControls + s.history.startedSnapshots;
    var accepted := s.history.acceptedControls + s.history.acceptedSnapshots;
    && (s.inFlight.Some? ==> s.inFlight.value in started)
    && s.settled.Keys ==
       if s.closed then Ids(accepted)
       else if s.inFlight.Some? then Ids(started) - {s.inFlight.value.id}
       else Ids(started)
  }

  predicate PacedOk(s: State) {
    var starts := s.history.starts;
    && (forall i :: 0 <= i < |starts| - 1 ==> starts[i + 1] - starts[i] >= s.interval)
    && (starts != [] && s.running ==> starts[|starts| - 1] <= s.clock)
    && (starts != [] && !s.running ==> starts[|starts| - 1] + s.interval <= s.nextAt)
  }

  // ---------------------------------------------------------------------------
  // Each part is kept by every event
  // ---------------------------------------------------------------------------

  /** What the lanes, the budget and the promises have to do with each other. */
  predicate QueueOk(s: State) {
    WithinBudget(s) && LanesOk(s) && Numbered(s) && SettledOk(s) && (s.closed ==> !HasWork(s))
  }

  /** Clock, timer, pacing and credit are none of its business. */
  lemma {:induction false} QueueOkIgnoresTime(s: State, t: State)
    requires QueueOk(s)
    requires t == s.(clock := t.clock, timer := t.timer, nextAt := t.nextAt, window := t.window, received := t.received)
    ensures QueueOk(t)
  {
  }

  lemma {:induction false} EnqueueKeepsLanes(s: State, frame: seq<Byte>, urgent: bool)
    requires QueueOk(s) && Admits(s, frame)
    ensures var t := Enqueue(s, frame, urgent); WithinBudget(t) && LanesOk(t)
  {
    var job := Job(NextId(s), frame);
    hide Numbered, SettledOk;
    assert [job][..0] == [];
    TotalBytesOfConcat(s.controls, [job]);
    TotalBytesOfConcat(s.snapshots, [job]);
  }

  lemma {:induction false} OneMoreNumber(all: seq<Job>, k: nat, job: Job)
    requires AreNumbers(all) && k <= |all| && job.id == |all|
    ensures AreNumbers(all[..k] + [job] + all[k..])
  {
    var all' := all[..k] + [job] + all[k..];
    forall i | 0 <= i < |all'| ensures all'[i] == if i < k then all[i] else if i == k then job else all[i - 1] {}
  }

  lemma {:induction false} EnqueueKeepsNumbers(s: State, frame: seq<Byte>, urgent: bool)
    requires Numbered(s)
    ensures Numbered(Enqueue(s, frame, urgent))
  {
    hide AreNumbers;
    var t := Enqueue(s, frame, urgent);
    var a, b := s.history.acceptedControls, s.history.acceptedSnapshots;
    var all, job := a + b, Job(|a + b|, frame);
    var k := if urgent then |a| else |all|;
    OneMoreNumber(all, k, job);
    assert t.history.acceptedControls + t.history.acceptedSnapshots == all[..k] + [job] + all[k..];
  }

  /** A frame just accepted has neither started nor settled. */
  lemma {:induction false} EnqueueKeepsPromises(s: State, frame: seq<Byte>, urgent: bool)
    requires SettledOk(s) && !s.closed
    ensures SettledOk(Enqueue(s, frame, urgent))
  {
  }

  lemma {:induction false} PumpKeepsBudget(s: State)
    requires WithinBudget(s)
    ensures WithinBudget(Pump(s))
  {
    if s.controls != [] {
      TotalBytesOfRest(s.controls);
    } else if s.snapshots != [] {
      TotalBytesOfRest(s.snapshots);
    }
  }

  lemma {:induction false} PumpKeepsLanes(s: State)
    requires LanesOk(s)
    ensures LanesOk(Pump(s))
  {
    if s.controls != [] {
      assert s.controls == [s.controls[0]] + s.controls[1..];
    } else if s.snapshots != [] {
      assert s.snapshots == [s.snapshots[0]] + s.snapshots[1..];
    }
  }

  lemma {:induction false} SameAccepted(s: State, t: State)
    requires Numbered(s) && t.history.acceptedControls == s.history.acceptedControls
      && t.history.acceptedSnapshots == s.history.acceptedSnapshots
    ensures Numbered(t)
  {
  }

  /** A waiting frame has not started. */
  lemma {:induction false} WaitingIsNew(s: State, job: Job)
    requires LanesOk(s) && Numbered(s) && !s.closed && job in s.controls + s.snapshots
    ensures job.id !in Ids(s.history.startedControls + s.history.startedSnapshots)
  {
    var h := s.history;
    var all := h.acceptedControls + h.acceptedSnapshots;
    var k: nat;
    if job in s.controls {
      var i :| 0 <= i < |s.controls| && s.controls[i] == job;
      k := |h.startedControls| + i;
    } else {
      var i :| 0 <= i < |s.snapshots| && s.snapshots[i] == job;
      k := |h.acceptedControls| + |h.startedSnapshots| + i;
    }
    assert all[k] == job;
    forall j | j in h.startedControls + h.startedSnapshots ensures j.id != job.id {
      if j in h.startedControls {
        var i :| 0 <= i < |h.startedControls| && h.startedControls[i] == j;
        assert all[i] == j && i != k;
      } else {
        var i :| 0 <= i < |h.startedSnapshots| && h.startedSnapshots[i] == j;
        assert all[|h.acceptedControls| + i] == j && |h.acceptedControls| + i != k;
      }
    }
  }

  lemma {:induction false} PumpKeepsPromises(s: State)
    requires QueueOk(s) && s.inFlight.None?
    ensures SettledOk(Pump(s))
  {
    hide WithinBudget;
    if !s.closed && HasCredit(s) && HasWork(s) {
      var job := if s.controls != [] then s.controls[0] else s.snapshots[0];
      WaitingIsNew(s, job);
      hide LanesOk, Numbered;
      var h, h' := s.history, Pump(s).history;
      assert forall j ::
        j in h'.startedControls + h'.startedSnapshots <==> j in h.startedControls + h.startedSnapshots || j == job;
      assert Ids(h'.startedControls + h'.startedSnapshots) == Ids(h.startedControls + h.startedSnapshots) + {job.id};
    }
  }

  lemma {:induction false} SettleAllKeys(settled: map<nat, Settlement>, jobs: seq<Job>, how: Settlement)
    ensures SettleAll(settled, jobs, how).Keys == settled.Keys + Ids(jobs)
    ensures forall id :: id in settled ==> SettleAll(settled, jobs, how)[id] == settled[id]
    ensures forall id ::
      id in SettleAll(settled, jobs, how) && id !in settled ==> SettleAll(settled, jobs, how)[id] == how
  {
    if jobs != [] {
      var init := jobs[..|jobs| - 1];
      SettleAllKeys(settled, init, how);
      assert forall j :: j in jobs <==> j in init || j == jobs[|jobs| - 1];
      assert Ids(jobs) == Ids(init) + {jobs[|jobs| - 1].id};
    }
  }

  lemma {:induction false} CloseKeepsQueue(s: State)
    requires QueueOk(s)
    ensures QueueOk(Close(s))
  {
    hide Numbered, WithinBudget, Settle, SettleAll, SettledOk;
    SameAccepted(s, Close(s));
    NoWorkIsWithinBudget(Close(s));
    CloseSettlesAll(s);
  }

  lemma {:induction false} CloseSettlesAll(s: State)
    requires LanesOk(s) && SettledOk(s) && (s.closed ==> !HasWork(s))
    ensures SettledOk(Close(s))
  {
    var h := s.history;
    var flying := if s.inFlight.Some? then Settle(s.settled, s.inFlight.value, RejectedByClose) else s.settled;
    SettleAllKeys(flying, s.controls + s.snapshots, RejectedByClose);
    hide SettleAll;
    if !s.closed {
      assert forall j :: (j in h.acceptedControls + h.acceptedSnapshots <==>
                          j in h.startedControls + h.startedSnapshots || j in s.controls + s.snapshots);
      assert Ids(h.acceptedControls + h.acceptedSnapshots)
        == Ids(h.startedControls + h.startedSnapshots) + Ids(s.controls + s.snapshots);
    } else {
      assert forall j :: j in h.startedControls + h.startedSnapshots ==> j in h.acceptedControls + h.acceptedSnapshots;
      assert s.controls + s.snapshots == [];
    }
  }

  lemma {:induction false} NoWorkIsWithinBudget(s: State)
    requires !HasWork(s) && s.bytes == 0
    ensures WithinBudget(s)
  {
  }

  lemma {:induction false} CompleteKeepsQueue(s: State, ok: bool)
    requires QueueOk(s)
    ensures QueueOk(Complete(s, ok))
  {
    if s.inFlight.Some? {
      var how := if s.closed then RejectedByClose else if ok then Resolved else RejectedByWrite;
      var t := s.(settled := Settle(s.settled, s.inFlight.value, how), inFlight := None, running := false);
      var h := s.history;
      if s.closed {
        assert s.inFlight.value in h.acceptedControls + h.acceptedSnapshots;
      }
      assert SettledOk(t);
      assert QueueOk(t);
      QueueOkIgnoresTime(t, Complete(s, ok));
    }
  }

  lemma {:induction false} SendStep(s: State, frame: seq<Byte>, urgent: bool)
    requires QueueOk(s)
    ensures QueueOk(OnSend(s, frame, urgent))
  {
    if Admits(s, frame) {
      EnqueueKeepsLanes(s, frame, urgent);
      EnqueueKeepsNumbers(s, frame, urgent);
      EnqueueKeepsPromises(s, frame, urgent);
      QueueOkIgnoresTime(Enqueue(s, frame, urgent), OnSend(s, frame, urgent));
    }
    hide WithinBudget, LanesOk, Numbered, SettledOk;
  }

  lemma {:induction false} PumpKeepsQueue(s: State)
    requires QueueOk(s) && s.inFlight.None?
    ensures QueueOk(Pump(s))
  {
    PumpKeepsBudget(s);
    PumpKeepsLanes(s);
    PumpKeepsPromises(s);
    assert Pump(s).history.acceptedControls == s.history.acceptedControls;
    assert Pump(s).history.acceptedSnapshots == s.history.acceptedSnapshots;
    SameAccepted(s, Pump(s));
    hide WithinBudget, LanesOk, Numbered, SettledOk;
  }

  lemma {:induction false} TimerStep(s: State)
    requires QueueOk(s) && NeverStalls(s)
    ensures QueueOk(OnTimer(s))
  {
    hide QueueOk;
    QueueOkIgnoresTime(s, s.(timer := None));
    if s.timer.Some? { PumpKeepsQueue(s.(timer := None)); }
  }

  lemma {:induction false} CreditKeepsQueue(s: State, e: Event)
    requires QueueOk(s) && (e.Enable? || e.Acknowledge?)
    ensures QueueOk(Next(s, e))
  {
    hide QueueOk;
    QueueOkIgnoresTime(s, Next(s, e));
  }

  lemma {:induction false} QueueStep(s: State, e: Event)
    requires QueueOk(s) && NeverStalls(s)
    ensures QueueOk(Next(s, e))
  {
    hide QueueOk, OnSend, OnTimer, Complete, Close, OnEnable, OnAcknowledge;
    match e
    case Cancel => CloseKeepsQueue(s);
    case Enable(_, _) => CreditKeepsQueue(s, e);
    case Acknowledge(_, _) => CreditKeepsQueue(s, e);
    case Send(frame, urgent, at) =>
      QueueOkIgnoresTime(s, Tick(s, at));
      SendStep(Tick(s, at), frame, urgent);
    case TimerFires(at) =>
      QueueOkIgnoresTime(s, Tick(s, at));
      TimerStep(Tick(s, at));
    case WriteCompletes(ok, at) =>
      QueueOkIgnoresTime(s, Tick(s, at));
      CompleteKeepsQueue(Tick(s, at), ok);
  }

  lemma {:induction false} StallStep(s: State, e: Event)
    requires NeverStalls(s)
    ensures NeverStalls(Next(s, e))
  {
  }

  lemma {:induction false} CreditStep(s: State, e: Event)
    requires CreditOk(s)
    ensures CreditOk(Next(s, e))
  {
  }

  /** What waits in the lanes does not matter to the pace. */
  lemma {:induction false} PacedIgnoresLanes(s: State, t: State)
    requires PacedOk(s) && t.history.starts == s.history.starts && t.interval == s.interval
    requires t.running == s.running && t.clock >= s.clock && t.nextAt == s.nextAt
    ensures PacedOk(t)
  {
  }

  lemma {:induction false} PacedPump(s: State)
    requires PacedOk(s) && !s.running && s.nextAt <= s.clock
    ensures PacedOk(Pump(s))
  {
  }

  lemma {:induction false} PacedStep(s: State, e: Event)
    requires PacedOk(s) && NeverStalls(s)
    ensures PacedOk(Next(s, e))
  {
    if e.TimerFires? {
      var t := Tick(s, e.at).(timer := None);
      PacedIgnoresLanes(s, Tick(s, e.at));
      PacedIgnoresLanes(s, t);
      if s.timer.Some? && s.timer.value <= t.clock { PacedPump(t); }
      hide PacedOk, Pump;
    } else if !e.WriteCompletes? {
      hide PacedOk;
      PacedIgnoresLanes(s, Next(s, e));
    }
  }

  ghost predicate Inv(s: State) {
    QueueOk(s) && NeverStalls(s) && CreditOk(s) && PacedOk(s)
  }

  lemma {:induction false} NextKeepsInv(s: State, e: Event)
    requires Inv(s)
    ensures Inv(Next(s, e))
  {
    hide QueueOk, NeverStalls, CreditOk, PacedOk, Next;
    QueueStep(s, e);
    StallStep(s, e);
    CreditStep(s, e);
    PacedStep(s, e);
  }

  lemma {:induction false} IntervalIsFixed(s: State, e: Event)
    ensures Next(s, e).interval == s.interval
  {
  }

  lemma {:induction false} InitIsInv(interval: real)
    ensures Inv(Init(interval))
  {
  }

  lemma {:induction false} RunKeepsInv(interval: real, events: seq<Event>)
    ensures Inv(Run(interval, events)) && Run(interval, events).interval == interval
  {
    hide Inv, Next, Init;
    if events == [] {
      InitIsInv(interval);
      assert Init(interval).interval == interval by { IntervalOfInit(interval); }
    } else {
      RunKeepsInv(interval, events[..|events| - 1]);
      NextKeepsInv(Run(interval, events[..|events| - 1]), events[|events| - 1]);
      IntervalIsFixed(Run(interval, events[..|events| - 1]), events[|events| - 1]);
    }
  }

  lemma {:induction false} IntervalOfInit(interval: real)
    ensures Init(interval).interval == interval
  {
  }

  // ---------------------------------------------------------------------------
  // The promises of the queue
  // ---------------------------------------------------------------------------

  /** Byte and frame budgets, credit, and no lost wake-up. */
  lemma {:induction false} BoundedAndAwake(interval: real, events: seq<Event>)
    ensures var s := Run(interval, events);
      && s.bytes == TotalBytes(s.controls) + TotalBytes(s.snapshots)
      && s.bytes <= 8_388_608 && |s.controls| + |s.snapshots| <= 2048
      && ((&& !s.closed && s.inFlight == None && s.controls + s.snapshots != []
           && (s.window.Some? ==> s.sent - s.received < s.window.value)) ==> s.timer.Some?)
      && s.received <= s.sent == |s.history.starts|
      && (s.window.Some? ==> 16 <= s.window.value <= 64)
  {
    RunKeepsInv(interval, events);
  }

  /** Both lanes are first in, first out: what started is a prefix of what was accepted. */
  lemma {:induction false} FirstInFirstOut(interval: real, events: seq<Event>)
    ensures var h := Run(interval, events).history;
      h.startedControls <= h.acceptedControls && h.startedSnapshots <= h.acceptedSnapshots
  {
    RunKeepsInv(interval, events);
    hide WithinBudget, Numbered, SettledOk, NeverStalls, CreditOk, PacedOk;
  }

  /**
   A snapshot starts only when no control waits, a frame only while fewer frames than the window
   are unacknowledged, and nothing after a close.
   */
  lemma {:induction false} StartsAreJustified(s: State, e: Event)
    ensures var t := Next(s, e);
      && (t.history.startedSnapshots != s.history.startedSnapshots ==> s.controls == [])
      && (t.history.starts != s.history.starts ==>
            && !s.closed && e.TimerFires?
            && (s.window.Some? ==> s.sent - s.received < s.window.value && t.sent - t.received <= s.window.value))
      && (s.closed ==> t.closed)
      && s.received <= t.received
  {
  }

  /** Frames are written one at a time: one starts only when none is in flight, and is then in flight itself. */
  lemma {:induction false} OneWriteAtATime(interval: real, events: seq<Event>, e: Event)
    requires Next(Run(interval, events), e).history.starts != Run(interval, events).history.starts
    ensures var s := Run(interval, events);
      var t := Next(s, e);
      && s.inFlight.None? && t.inFlight.Some?
      && |t.history.starts| == |s.history.starts| + 1
      && (t.history.startedControls == s.history.startedControls + [t.inFlight.value]
          || t.history.startedSnapshots == s.history.startedSnapshots + [t.inFlight.value])
  {
    RunKeepsInv(interval, events);
  }

  lemma {:induction false} RunSteps(interval: real, events: seq<Event>, e: Event)
    ensures Run(interval, []) == Init(interval) && Run(interval, events + [e]) == Next(Run(interval, events), e)
    ensures Init(interval)
      == State(interval, [], [], 0, false, None, false, None, 0.0, None, 0, 0, 0.0, map[], History([], [], [], [], []))
  {
    assert (events + [e])[..|events|] == events;
  }

  /** A frame is taken exactly while the queue is open and the frame fits both budgets; else nothing changes. */
  lemma {:induction false} SendAdmits(interval: real, events: seq<Event>, frame: seq<Byte>, urgent: bool, at: real)
    ensures var s := Run(interval, events);
      var t := Next(s, Send(frame, urgent, at));
      var job := Job(|s.history.acceptedControls| + |s.history.acceptedSnapshots|, frame);
      if && !s.closed && TotalBytes(s.controls) + TotalBytes(s.snapshots) + |frame| <= 8_388_608
         && |s.controls| + |s.snapshots| < 2048 then
        && t.controls == (if urgent then s.controls + [job] else s.controls)
        && t.snapshots == (if urgent then s.snapshots else s.snapshots + [job])
        && t.history.acceptedControls == s.history.acceptedControls + (if urgent then [job] else [])
        && t.history.acceptedSnapshots == s.history.acceptedSnapshots + (if urgent then [] else [job])
        && t.settled == s.settled && t.inFlight == s.inFlight
      else t == s.(clock := if s.clock < at then at else s.clock)
  {
    BoundedAndAwake(interval, events);
    hide Run;
  }

  /** A due timer starts the oldest control, or else the oldest snapshot, exactly while the window has room. */
  lemma {:induction false} TimerStarts(interval: real, events: seq<Event>, at: real)
    ensures var s := Run(interval, events);
      var t := Next(s, TimerFires(at));
      var now := if s.clock < at then at else s.clock;
      if s.timer.Some? && s.timer.value <= now then
        && t.timer == None
        && if s.window.Some? && s.sent - s.received >= s.window.value then t == s.(timer := None, clock := now)
           else
             && s.controls + s.snapshots != []
             && t.inFlight == Some(if s.controls != [] then s.controls[0] else s.snapshots[0])
             && t.history.starts == s.history.starts + [now]
             && t.controls + t.snapshots == (s.controls + s.snapshots)[1..]
             && t.sent == s.sent + 1 && t.received == s.received && t.settled == s.settled
      else t == s.(clock := now)
  {
    RunKeepsInv(interval, events);
    var s := Run(interval, events);
    assert s.timer.Some? ==> !s.closed && (s.controls != [] || s.snapshots != []);
    hide Run, Inv;
    if s.controls != [] { assert (s.controls + s.snapshots)[1..] == s.controls[1..] + s.snapshots; }
  }

  /** Windows below 16 are ignored and those above 64 cut; an acknowledgement counts unless it goes back or too far. */
  lemma {:induction false} CreditIs(s: State, value: Option<int>, at: real)
    ensures Next(s, Enable(value, at)).window
      == if value == None || value.value < 16 then s.window else if value.value > 64 then Some(64) else value
    ensures Next(s, Enable(value, at)).received == s.received
    ensures Next(s, Acknowledge(value, at)).received
      == if s.window != None && value != None && s.received < value.value <= s.sent then value.value else s.received
    ensures Next(s, Acknowledge(value, at)).window == s.window
    ensures s.window == None || value == None || value.value <= s.received || value.value > s.sent ==>
      Next(s, Acknowledge(value, at)) == s.(clock := if s.clock < at then at else s.clock)
  {
  }

  /** A write that ends makes room for the next one, one interval later; without one in flight it means nothing. */
  lemma {:induction false} WriteEnds(s: State, ok: bool, at: real)
    ensures var t := Next(s, WriteCompletes(ok, at));
      var now := if s.clock < at then at else s.clock;
      if s.inFlight == None then t == s.(clock := now)
      else
        && t.inFlight == None && t.nextAt == now + s.interval
        && t.controls == s.controls && t.snapshots == s.snapshots && t.closed == s.closed
        && s.inFlight.value.id in t.settled
        && t.settled == if s.inFlight.value.id in s.settled then s.settled
             else s.settled[s.inFlight.value.id :=
               if s.closed then RejectedByClose else if ok then Resolved else RejectedByWrite]
  {
  }

  /** A close empties both lanes and stops the timer. */
  lemma {:induction false} CloseIs(s: State)
    ensures Next(s, Cancel) == s.(closed := true, timer := None, controls := [], snapshots := [], bytes := 0,
                                  settled := Next(s, Cancel).settled)
    ensures forall j :: j in s.controls + s.snapshots && j.id !in s.settled ==>
      j.id in Next(s, Cancel).settled && Next(s, Cancel).settled[j.id] == RejectedByClose
    ensures s.inFlight.Some? && s.inFlight.value.id !in s.settled ==>
      s.inFlight.value.id in Next(s, Cancel).settled
      && Next(s, Cancel).settled[s.inFlight.value.id] == RejectedByClose
  {
    var flying := if s.inFlight.Some? then Settle(s.settled, s.inFlight.value, RejectedByClose) else s.settled;
    SettleAllKeys(flying, s.controls + s.snapshots, RejectedByClose);
  }

  /** How the frame of this id settles in this event. */
  predicate SettlesAs(s: State, e: Event, id: nat, how: Settlement) {
    || (e.Cancel? && how == RejectedByClose)
    || (&& e.WriteCompletes? && s.inFlight.Some? && id == s.inFlight.value.id
        && how == if e.ok then Resolved else RejectedByWrite)
  }

  /** A frame settles as its write ended, or is rejected by the close that took it away. */
  lemma {:induction false} SettledAsItEnded(interval: real, events: seq<Event>, e: Event, id: nat)
    requires id !in Run(interval, events).settled && id in Next(Run(interval, events), e).settled
    ensures var s := Run(interval, events); SettlesAs(s, e, id, Next(s, e).settled[id])
  {
    RunKeepsInv(interval, events);
    var s := Run(interval, events);
    hide WithinBudget, LanesOk, Numbered, NeverStalls, CreditOk, PacedOk, Run;
    if e.Cancel? {
      var flying := if s.inFlight.Some? then Settle(s.settled, s.inFlight.value, RejectedByClose) else s.settled;
      SettleAllKeys(flying, s.controls + s.snapshots, RejectedByClose);
    } else if e.WriteCompletes? && s.closed && s.inFlight.Some? {
      StartedIsAccepted(s, s.inFlight.value);
    }
  }

  lemma {:induction false} StartedIsAccepted(s: State, job: Job)
    requires LanesOk(s) && job in s.history.startedControls + s.history.startedSnapshots
    ensures job.id in Ids(s.history.acceptedControls + s.history.acceptedSnapshots)
  {
    var h := s.history;
    if job in h.startedControls {
      var i :| 0 <= i < |h.startedControls| && h.startedControls[i] == job;
      assert h.acceptedControls[i] == job;
    } else {
      var i :| 0 <= i < |h.startedSnapshots| && h.startedSnapshots[i] == job;
      assert h.acceptedSnapshots[i] == job;
    }
    assert job in h.acceptedControls + h.acceptedSnapshots;
  }

  /** Every accepted frame settles at most once: when its write ended, or when the queue closed. */
  lemma {:induction false} SettlesOnce(interval: real, events: seq<Event>, e: Event)
    ensures var s := Run(interval, events);
      var t := Next(s, e);
      && (forall id :: id in s.settled ==> id in t.settled && t.settled[id] == s.settled[id])
      && (t.closed ==> t.settled.Keys == Ids(t.history.acceptedControls + t.history.acceptedSnapshots))
      && (!t.closed && t.inFlight.None? ==>
            t.settled.Keys == Ids(t.history.startedControls + t.history.startedSnapshots))
      && (!t.closed ==> forall j :: j in t.controls + t.snapshots ==> j.id !in t.settled)
  {
    RunKeepsInv(interval, events);
    var s := Run(interval, events);
    NextKeepsInv(s, e);
    SettlementsStay(s, e);
    WaitingIsUnsettled(Next(s, e));
    hide WithinBudget, LanesOk, Numbered, NeverStalls, CreditOk, PacedOk, Next;
  }

  lemma {:induction false} SettlementsStay(s: State, e: Event)
    ensures forall id :: id in s.settled ==> id in Next(s, e).settled && Next(s, e).settled[id] == s.settled[id]
  {
    if e.Cancel? {
      var flying := if s.inFlight.Some? then Settle(s.settled, s.inFlight.value, RejectedByClose) else s.settled;
      SettleAllKeys(flying, s.controls + s.snapshots, RejectedByClose);
    }
  }

  lemma {:induction false} WaitingIsUnsettled(s: State)
    requires QueueOk(s)
    ensures !s.closed ==> forall j :: j in s.controls + s.snapshots ==> j.id !in s.settled
  {
    if !s.closed {
      var h := s.history;
      forall j | j in s.controls + s.snapshots ensures j.id !in Ids(h.startedControls + h.startedSnapshots) {
        WaitingIsNew(s, j);
      }
    }
  }

  lemma {:induction false} SpanOf(starts: seq<real>, interval: real, i: nat, k: nat)
    requires forall j :: 0 <= j < |starts| - 1 ==> starts[j + 1] - starts[j] >= interval
    requires i + k < |starts|
    ensures starts[i + k] - starts[i] >= k as real * interval
  {
    if k > 0 { SpanOf(starts, interval, i, k - 1); }
  }

  /** Any k + 1 frame starts span at least k intervals. */
  lemma {:induction false} Paced(interval: real, events: seq<Event>, i: nat, k: nat)
    requires i + k < |Run(interval, events).history.starts|
    ensures var starts := Run(interval, events).history.starts; starts[i + k] - starts[i] >= k as real * interval
  {
    RunKeepsInv(interval, events);
    hide QueueOk, NeverStalls, CreditOk;
    SpanOf(Run(interval, events).history.starts, interval, i, k);
  }
}
