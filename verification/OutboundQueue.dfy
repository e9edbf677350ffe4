/**
 The outbound frame queue of one relay connection: two lanes, a byte and frame budget, a
 credit window, pacing, cancellation, and one promise per accepted frame.
 */
module OutboundQueue {
  import opened Basics

  const MAX_BYTES := 8 * 1024 * 1024
  const MAX_FRAMES := 2048
  const MIN_WINDOW := 16
  const MAX_WINDOW := 64

  /** `id` numbers the accepted frames, and stands for the promise handed to the sender. */
  datatype Job = Job(id: nat, frame: seq<Byte>)

  datatype Settlement = Resolved | RejectedByWrite | RejectedByClose

  /** The frames accepted and started in each lane, and when each frame started. */
  datatype History = History(acceptedControls: seq<Job>, acceptedSnapshots: seq<Job>,
                             startedControls: seq<Job>, startedSnapshots: seq<Job>, starts: seq<real>)

  /**
   The fields of the queue, the monotone clock, how each promise settled, and the history.
   `timer` holds the earliest time at which the pending timer may fire.
   */
  datatype State = State(
    interval: real,
    controls: seq<Job>, snapshots: seq<Job>, bytes: int,
    running: bool, inFlight: Option<Job>, closed: bool, timer: Option<real>, nextAt: real,
    window: Option<int>, sent: int, received: int,
    clock: real, settled: map<nat, Settlement>, history: History)

  function Init(interval: real): State {
    State(interval, [], [], 0, false, None, false, None, 0.0, None, 0, 0, 0.0, map[], History([], [], [], [], []))
  }

  // ---------------------------------------------------------------------------
  // Steps
  // ---------------------------------------------------------------------------

  function Later(a: real, b: real): real {
    if a < b then b else a
  }

  function Tick(s: State, at: real): State {
    s.(clock := Later(s.clock, at))
  }

  predicate HasCredit(s: State) {
    s.window.Some? ==> s.sent - s.received < s.window.value
  }

  predicate HasWork(s: State) {
    s.controls != [] || s.snapshots != []
  }

  function Schedule(s: State): State {
    if s.closed || s.running || s.timer.Some? || !HasCredit(s) || !HasWork(s) then s
    else s.(timer := Some(Later(s.clock, s.nextAt)))
  }

  lemma {:induction false} ScheduleKeepsLanes(s: State)
    ensures NextId(Schedule(s)) == NextId(s)
  {
  }

  predicate Admits(s: State, frame: seq<Byte>) {
    !s.closed && s.bytes + |frame| <= MAX_BYTES && |s.controls| + |s.snapshots| < MAX_FRAMES
  }

  function NextId(s: State): nat {
    |s.history.acceptedControls| + |s.history.acceptedSnapshots|
  }

  function Accepted(h: History, job: Job, urgent: bool): History {
    if urgent then h.(acceptedControls := h.acceptedControls + [job])
    else h.(acceptedSnapshots := h.acceptedSnapshots + [job])
  }

  function Started(h: History, job: Job, urgent: bool, at: real): History {
    var t := h.(starts := h.starts + [at]);
    if urgent then t.(startedControls := h.startedControls + [job])
    else t.(startedSnapshots := h.startedSnapshots + [job])
  }

  function Enqueue(s: State, frame: seq<Byte>, urgent: bool): State {
    var job := Job(NextId(s), frame);
    var t := s.(bytes := s.bytes + |frame|, history := Accepted(s.history, job, urgent));
    if urgent then t.(controls := s.controls + [job]) else t.(snapshots := s.snapshots + [job])
  }

  /** A promise keeps its first settlement. */
  function Settle(settled: map<nat, Settlement>, job: Job, how: Settlement): map<nat, Settlement> {
    if job.id in settled then settled else settled[job.id := how]
  }

  function SettleAll(settled: map<nat, Settlement>, jobs: seq<Job>, how: Settlement): map<nat, Settlement> {
    if jobs == [] then settled
    else Settle(SettleAll(settled, jobs[..|jobs| - 1], how), jobs[|jobs| - 1], how)
  }

  function Close(s: State): State {
    var flying := if s.inFlight.Some? then Settle(s.settled, s.inFlight.value, RejectedByClose) else s.settled;
    s.(closed := true, timer := None, controls := [], snapshots := [], bytes := 0,
       settled := SettleAll(flying, s.controls + s.snapshots, RejectedByClose))
  }

  /** Takes the next frame, controls first, and starts to write it. */
  function Pump(s: State): State {
    if s.closed || !HasCredit(s) || !HasWork(s) then s
    else
      var job := if s.controls != [] then s.controls[0] else s.snapshots[0];
      var t := s.(running := true, inFlight := Some(job), bytes := s.bytes - |job.frame|, sent := s.sent + 1,
                  history := Started(s.history, job, s.controls != [], s.clock));
      if s.controls != [] then t.(controls := s.controls[1..]) else t.(snapshots := s.snapshots[1..])
  }

  /** The write of the frame in flight completes, well or badly. */
  function Complete(s: State, ok: bool): State {
    if s.inFlight.None? then s
    else
      var how := if s.closed then RejectedByClose else if ok then Resolved else RejectedByWrite;
      Schedule(s.(settled := Settle(s.settled, s.inFlight.value, how), inFlight := None, running := false,
                  nextAt := s.clock + s.interval))
  }

  datatype Event =
    | Send(frame: seq<Byte>, urgent: bool, at: real)
    | Enable(window: Option<int>, at: real)        // None: not a safe integer
    | Acknowledge(received: Option<int>, at: real)
    | TimerFires(at: real)
    | WriteCompletes(ok: bool, at: real)
    | Cancel

  function OnSend(s: State, frame: seq<Byte>, urgent: bool): State {
    if Admits(s, frame) then Schedule(Enqueue(s, frame, urgent)) else s
  }

  function OnEnable(s: State, window: Option<int>): State {
    if window.None? || window.value < MIN_WINDOW then s
    else Schedule(s.(window := Some(if window.value < MAX_WINDOW then window.value else MAX_WINDOW)))
  }

  function OnAcknowledge(s: State, received: Option<int>): State {
    if s.window.None? || received.None? || received.value <= s.received || received.value > s.sent then s
    else Schedule(s.(received := received.value))
  }

  function OnTimer(s: State): State {
    if s.timer.Some? && s.timer.value <= s.clock then Pump(s.(timer := None)) else s
  }

  function Next(s: State, e: Event): State {
    match e
    case Send(frame, urgent, at) => OnSend(Tick(s, at), frame, urgent)
    case Enable(window, at) => OnEnable(Tick(s, at), window)
    case Acknowledge(received, at) => OnAcknowledge(Tick(s, at), received)
    case TimerFires(at) => OnTimer(Tick(s, at))
    case WriteCompletes(ok, at) => Complete(Tick(s, at), ok)
    case Cancel => Close(s)
  }

  function Run(interval: real, events: seq<Event>): State {
    if events == [] then Init(interval)
    else Next(Run(interval, events[..|events| - 1]), events[|events| - 1])
  }

  // ---------------------------------------------------------------------------
  // The queue object
  // ---------------------------------------------------------------------------

  class OutboundFrameQueue {
    const interval: real
    var controls: seq<Job>
    var snapshots: seq<Job>
    var bytes: int
    var running: bool
    var inFlight: Option<Job>
    var closed: bool
    var timer: Option<real>
    var nextAt: real
    var window: Option<int>
    var sent: int
    var received: int
    var clock: real
    var accepted: nat
    var settled: map<nat, Settlement>
    ghost var history: History

    ghost function View(): State
      reads this
    {
      State(interval, controls, snapshots, bytes, running, inFlight, closed, timer, nextAt, window, sent, received,
            clock, settled, history)
    }

    ghost predicate Valid()
      reads this
    {
      accepted == NextId(View())
    }

    constructor (interval: real)
      ensures Valid() && View() == Init(interval)
    {
      this.interval := interval;
      controls, snapshots, bytes := [], [], 0;
      running, inFlight, closed, timer, nextAt := false, None, false, None, 0.0;
      window, sent, received, clock, accepted := None, 0, 0, 0.0, 0;
      settled, history := map[], History([], [], [], [], []);
    }

    method ObserveClock(at: real)
      modifies `clock
      ensures View() == Tick(old(View()), at)
    {
      if clock < at { clock := at; }
    }

    method ScheduleTimer()
      modifies `timer
      ensures View() == Schedule(old(View()))
    {
      if closed || running || timer.Some? || !(window.Some? ==> sent - received < window.value)
         || (controls == [] && snapshots == []) {
        return;
      }
      timer := Some(Later(clock, nextAt));
    }

    method EnableIngressWindow(value: Option<int>, at: real)
      requires Valid()
      modifies this
      ensures Valid() && View() == Next(old(View()), Enable(value, at))
    {
      ObserveClock(at);
      if value.None? || value.value < MIN_WINDOW { return; }
      window := Some(if value.value < MAX_WINDOW then value.value else MAX_WINDOW);
      ScheduleTimer();
    }

    method AcknowledgeIngress(value: Option<int>, at: real)
      requires Valid()
      modifies this
      ensures Valid() && View() == Next(old(View()), Acknowledge(value, at))
    {
      ObserveClock(at);
      if window.None? || value.None? || value.value <= received || value.value > sent { return; }
      received := value.value;
      ScheduleTimer();
    }

    /** None: rejected at once. Otherwise the number of the promise. */
    method SendFrame(frame: seq<Byte>, urgent: bool, at: real) returns (promise: Option<nat>)
      requires Valid()
      modifies this
      ensures Valid() && View() == Next(old(View()), Send(frame, urgent, at))
      ensures promise == if Admits(old(View()), frame) then Some(NextId(old(View()))) else None
    {
      hide Schedule;
      ObserveClock(at);
      ghost var s := View();
      if closed || bytes + |frame| > MAX_BYTES || |controls| + |snapshots| >= MAX_FRAMES { return None; }
      var job := Job(accepted, frame);
      if urgent { controls := controls + [job]; } else { snapshots := snapshots + [job]; }
      bytes, accepted := bytes + |frame|, accepted + 1;
      history := Accepted(history, job, urgent);
      assert View() == Enqueue(s, frame, urgent);
      ScheduleKeepsLanes(View());
      ScheduleTimer();
      assert View() == OnSend(s, frame, urgent);
      promise := Some(job.id);
    }

    method CancelAll()
      requires Valid()
      modifies this
      ensures Valid() && View() == Next(old(View()), Cancel)
    {
      hide Settle, SettleAll;
      closed, timer := true, None;
      if inFlight.Some? { settled := Settle(settled, inFlight.value, RejectedByClose); }
      RejectAll(controls + snapshots);
      controls, snapshots, bytes := [], [], 0;
    }

    method RejectAll(jobs: seq<Job>)
      modifies `settled
      ensures settled == SettleAll(old(settled), jobs, RejectedByClose)
    {
      for i := 0 to |jobs|
        invariant settled == SettleAll(old(settled), jobs[..i], RejectedByClose)
      {
        assert jobs[..i + 1][..i] == jobs[..i];
        settled := Settle(settled, jobs[i], RejectedByClose);
      }
      assert jobs[..|jobs|] == jobs;
    }

    /** Takes the next frame to write, if the queue is open, credited and not empty. */
    method PumpQueue() returns (frame: Option<seq<Byte>>)
      requires Valid()
      modifies this
      ensures Valid() && View() == Pump(old(View()))
      ensures frame == if View() == old(View()) then None else Some(inFlight.value.frame)
    {
      if closed || !(window.Some? ==> sent - received < window.value) { return None; }
      if controls == [] && snapshots == [] { return None; }
      ghost var h := Started(history, if controls != [] then controls[0] else snapshots[0], controls != [], clock);
      var job;
      if controls != [] {
        job, controls := controls[0], controls[1..];
      } else {
        job, snapshots := snapshots[0], snapshots[1..];
      }
      hide Started;
      running, inFlight, bytes, sent := true, Some(job), bytes - |job.frame|, sent + 1;
      history := h;
      frame := Some(job.frame);
    }

    method FireTimer(at: real) returns (frame: Option<seq<Byte>>)
      requires Valid()
      modifies this
      ensures Valid() && View() == Next(old(View()), TimerFires(at))
      ensures frame.Some? ==> inFlight.Some? && inFlight.value.frame == frame.value
    {
      ObserveClock(at);
      frame := None;
      if timer.Some? && timer.value <= clock {
        timer := None;
        frame := PumpQueue();
      }
    }

    method CompleteWrite(ok: bool, at: real)
      requires Valid()
      modifies this
      ensures Valid() && View() == Next(old(View()), WriteCompletes(ok, at))
    {
      hide Schedule;
      ObserveClock(at);
      ghost var s := View();
      if inFlight.None? { return; }
      settled := Settle(settled, inFlight.value,
                 if closed then RejectedByClose else if ok then Resolved else RejectedByWrite);
      inFlight, running, nextAt := None, false, clock + interval;
      ScheduleKeepsLanes(View());
      ScheduleTimer();
      assert View() == Complete(s, ok);
    }
  }
}
