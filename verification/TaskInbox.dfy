/**
 The receiver's durable inbox: a request file and a journal per job, and receipts that
 outlive them. Staging, claims, transitions and the receipt of a retirement happen under
 the store lock; the removal of a job's directory happens after the lock is released, one
 file at a time, and a crash may stop it anywhere.
 */
module TaskInbox {
  import opened Basics
  import opened Journal
  import opened TaskPhases

  const RETENTION_MS := 604_800_000

  /** The digest of a job is taken to be injective, so it is the job. */
  datatype Job = Job(id: string, expiresAt: nat, body: string)

  datatype Scope = Scope(room: string, peer: string, job: Job)

  datatype RequestRecord = RequestRecord(scope: Scope, stagedAt: nat)

  datatype Receipt = Receipt(scope: Scope, retainUntil: nat, state: InboxState)

  /** All that is on disk for one job id, and how many retirements still have its directory to remove. */
  datatype Slot = Slot(request: Option<RequestRecord>, journal: seq<InboxState>, receipt: Option<Receipt>,
                       removers: nat)

  datatype StageResult = NewlyStaged | Existing | Conflict

  const EMPTY := Slot(None, [], None, 0)

  function CurrentState(s: Slot, stagedAt: nat): InboxState {
    StateOf(s.journal, InitialState(stagedAt))
  }

  function StageAnswer(s: Slot, scope: Scope): StageResult {
    if s.receipt.Some? then (if s.receipt.value.scope == scope then Existing else Conflict)
    else if s.request.Some? then (if s.request.value.scope == scope then Existing else Conflict)
    else NewlyStaged
  }

  function AfterStage(s: Slot, scope: Scope, now: nat): Slot {
    if StageAnswer(s, scope) == NewlyStaged then s.(request := Some(RequestRecord(scope, now))) else s
  }

  function AfterEvent(s: Slot, event: Option<InboxState>): Slot {
    if event.Some? then s.(journal := s.journal + [event.value]) else s
  }

  function AfterReserve(s: Slot, claimId: string, now: nat): Slot {
    if s.request.None? then s
    else AfterEvent(s, ReserveEvent(CurrentState(s, s.request.value.stagedAt), claimId, now))
  }

  function AfterTransition(s: Slot, phase: Phase, details: Details, now: nat): Slot {
    if s.request.None? then s
    else AfterEvent(s, TransitionEvent(CurrentState(s, s.request.value.stagedAt), phase, details, now))
  }

  function Max(a: nat, b: nat): nat {
    if a < b then b else a
  }

  /** Does `retire` answer true, so that its caller goes on to remove the directory. */
  predicate Retires(s: Slot) {
    if s.request.None? then s.receipt.Some?
    else
      && IsTerminal(CurrentState(s, s.request.value.stagedAt).phase)
      && (s.receipt.Some? ==> s.receipt.value.scope == s.request.value.scope)
  }

  /** The receipt is written under the lock, and an earlier receipt of the same scope is kept. */
  function AfterRetire(s: Slot): Slot {
    if !Retires(s) then s
    else if s.request.None? || s.receipt.Some? then s.(removers := s.removers + 1)
    else
      var state := CurrentState(s, s.request.value.stagedAt);
      var scope := s.request.value.scope;
      s.(receipt := Some(Receipt(scope, Max(scope.job.expiresAt, state.updatedAt) + RETENTION_MS, state)),
         removers := s.removers + 1)
  }

  function AfterPurge(s: Slot, now: nat): Slot {
    if s.receipt.Some? && now > s.receipt.value.retainUntil then s.(receipt := None) else s
  }

  /** Does the journal, as `maintain` and `pendingRecords` read it, say that the job has finished. */
  predicate HasFinished(s: Slot) {
    IsTerminal(CurrentState(s, 0).phase)
  }

  /**
   `maintain` retires and removes a directory with a finished journal before it purges. It stops
   short of purging when the retirement fails.
   */
  function AfterMaintain(s: Slot, now: nat): Slot {
    if !HasFinished(s) then AfterPurge(s, now)
    else if !Retires(s) then s
    else AfterPurge(AfterRetire(s).(request := None, journal := [], removers := s.removers), now)
  }

  /** `status` believes the receipt first. */
  function Status(s: Slot): Option<InboxState> {
    if s.receipt.Some? then Some(s.receipt.value.state)
    else if s.request.Some? then Some(CurrentState(s, s.request.value.stagedAt))
    else None
  }

  /** Is the job handed to the worker again: this looks at the request and the journal only. */
  predicate IsPending(s: Slot) {
    s.request.Some? && !HasFinished(s)
  }

  // ---------------------------------------------------------------------------
  // The inbox object
  // ---------------------------------------------------------------------------

  /** The job directories and receipts of one room. */
  class TaskDispatchInbox {
    const room: string
    var slots: map<string, Slot>

    constructor (room: string)
      ensures this.room == room && slots == map[]
    {
      this.room := room;
      slots := map[];
    }

    function SlotOf(id: string): (slot: Slot)
      reads this
      ensures id in slots ==> slot == slots[id]
      ensures id !in slots ==> slot == Slot(None, [], None, 0)
    {
      if id in slots then slots[id] else EMPTY
    }

    method Stage(job: Job, peer: string, now: nat) returns (result: StageResult)
      modifies this
      ensures result == StageAnswer(old(SlotOf(job.id)), Scope(room, peer, job))
      ensures slots == old(slots)[job.id := AfterStage(old(SlotOf(job.id)), Scope(room, peer, job), now)]
    {
      var slot := SlotOf(job.id);
      var scope := Scope(room, peer, job);
      if slot.receipt.Some? {
        result := if slot.receipt.value.scope == scope then Existing else Conflict;
      } else if slot.request.Some? {
        result := if slot.request.value.scope == scope then Existing else Conflict;
      } else {
        slot := slot.(request := Some(RequestRecord(scope, now)));
        result := NewlyStaged;
      }
      slots := slots[job.id := slot];
    }

    /** None stands for the error that no durable attempt was recorded, or that nothing is staged. */
    method ReserveClaim(id: string, newId: string, now: nat) returns (claim: Option<string>)
      modifies this
      ensures slots == old(slots)[id := AfterReserve(old(SlotOf(id)), newId, now)]
      ensures claim == if SlotOf(id).request.None? then None
        else CurrentState(SlotOf(id), SlotOf(id).request.value.stagedAt).claimId
    {
      var slot := SlotOf(id);
      claim := None;
      if slot.request.Some? {
        var current := CurrentState(slot, slot.request.value.stagedAt);
        if current.claimId.Some? {
          claim := current.claimId;
        } else if current.phase == Staged {
          slot := slot.(journal := slot.journal + [InboxState(Staged, now, Some(newId), None, None, None)]);
          claim := Some(newId);
        }
      }
      slots := slots[id := slot];
    }

    method Transition(id: string, phase: Phase, details: Details, now: nat) returns (done: bool)
      modifies this
      ensures slots == old(slots)[id := AfterTransition(old(SlotOf(id)), phase, details, now)]
      ensures done <==> |SlotOf(id).journal| == |old(SlotOf(id)).journal| + 1
    {
      var slot := SlotOf(id);
      done := false;
      if slot.request.Some? {
        var event := TransitionEvent(CurrentState(slot, slot.request.value.stagedAt), phase, details, now);
        if event.Some? {
          slot := slot.(journal := slot.journal + [event.value]);
          done := true;
        }
      }
      slots := slots[id := slot];
    }

    /** The part of a retirement that holds the lock. */
    method WriteReceipt(id: string) returns (retired: bool)
      modifies this
      ensures retired == Retires(old(SlotOf(id)))
      ensures slots == old(slots)[id := AfterRetire(old(SlotOf(id)))]
    {
      var slot := SlotOf(id);
      retired := false;
      if slot.request.None? {
        retired := slot.receipt.Some?;
      } else {
        var current := CurrentState(slot, slot.request.value.stagedAt);
        var scope := slot.request.value.scope;
        if IsTerminal(current.phase) {
          if slot.receipt.Some? {
            retired := slot.receipt.value.scope == scope;
          } else {
            slot := slot.(receipt := Some(Receipt(scope,
              Max(scope.job.expiresAt, current.updatedAt) + RETENTION_MS, current)));
            retired := true;
          }
        }
      }
      slots := slots[id := if retired then slot.(removers := slot.removers + 1) else slot];
    }

    method Purge(id: string, now: nat)
      modifies this
      ensures slots == old(slots)[id := AfterPurge(old(SlotOf(id)), now)]
    {
      var slot := SlotOf(id);
      if slot.receipt.Some? && now > slot.receipt.value.retainUntil { slot := slot.(receipt := None); }
      slots := slots[id := slot];
    }

    /** The turn of one job in the housekeeping, with nobody in between. */
    method Maintain(id: string, now: nat)
      modifies this
      ensures slots == old(slots)[id := AfterMaintain(old(SlotOf(id)), now)]
    {
      if HasFinished(SlotOf(id)) {
        var retired := WriteReceipt(id);
        if !retired { return; }
        var slot := SlotOf(id);
        slots := slots[id := slot.(request := None, journal := [], removers := slot.removers - 1)];
      }
      Purge(id, now);
    }
  }

  // ---------------------------------------------------------------------------
  // Runs
  // ---------------------------------------------------------------------------

  datatype Event =
    | Stage(scope: Scope, now: nat)
    | Reserve(claimId: string, now: nat)
    | Transit(phase: Phase, details: Details, now: nat)
    | Retire
    | DeleteJournal
    | DeleteRequest
    | RemoverStops          // done, or crashed
    | Purge(now: nat)

  function Next(s: Slot, e: Event): Slot {
    match e
    case Stage(scope, now) => AfterStage(s, scope, now)
    case Reserve(claimId, now) => AfterReserve(s, claimId, now)
    case Transit(phase, details, now) => AfterTransition(s, phase, details, now)
    case Retire => AfterRetire(s)
    case DeleteJournal => if s.removers > 0 then s.(journal := []) else s
    case DeleteRequest => if s.removers > 0 then s.(request := None) else s
    case RemoverStops => if s.removers > 0 then s.(removers := s.removers - 1) else s
    case Purge(now) => AfterPurge(s, now)
  }

  function Run(s: Slot, events: seq<Event>): Slot {
    if events == [] then s else Next(Run(s, events[..|events| - 1]), events[|events| - 1])
  }

  lemma {:induction false} RunSteps(s: Slot, events: seq<Event>, e: Event)
    ensures Run(s, events + [e]) == Next(Run(s, events), e)
  {
    assert (events + [e])[..|events|] == events;
  }

  /** The events of one undisturbed turn of `maintain`. */
  function MaintainEvents(s: Slot, now: nat): seq<Event> {
    if !HasFinished(s) then [Purge(now)]
    else if !Retires(s) then []
    else [Retire, DeleteJournal, DeleteRequest, RemoverStops, Purge(now)]
  }

  /** That turn is one run among all those below, and its purge finds no finished journal. */
  lemma {:induction false} MaintainIsARun(s: Slot, now: nat)
    ensures AfterMaintain(s, now) == Run(s, MaintainEvents(s, now))
    ensures PurgesAfterPass(s, MaintainEvents(s, now))
  {
    hide Run, HasFinished, Retires, AfterRetire, AfterPurge, PurgesAfterPass;
    NothingDone(s);
    if !HasFinished(s) {
      PurgeAtTheEnd(s, [], now);
      assert [] + [Purge(now)] == MaintainEvents(s, now);
    } else if Retires(s) {
      RemovalIsARun(s);
      PurgeAtTheEnd(s, [Retire, DeleteJournal, DeleteRequest, RemoverStops], now);
      assert [Retire, DeleteJournal, DeleteRequest, RemoverStops] + [Purge(now)] == MaintainEvents(s, now);
    }
  }

  lemma {:induction false} NothingDone(s: Slot)
    ensures Run(s, []) == s && PurgesAfterPass(s, [])
  {
  }

  lemma {:induction false} PurgeAtTheEnd(s: Slot, before: seq<Event>, now: nat)
    requires !HasFinished(Run(s, before)) && forall i :: 0 <= i < |before| ==> !before[i].Purge?
    ensures Run(s, before + [Purge(now)]) == AfterPurge(Run(s, before), now)
    ensures PurgesAfterPass(s, before + [Purge(now)])
  {
    RunSteps(s, before, Purge(now));
    hide Run, HasFinished;
    assert (before + [Purge(now)])[..|before|] == before;
  }

  lemma {:induction false} RemovalIsARun(s: Slot)
    requires Retires(s)
    ensures Run(s, [Retire, DeleteJournal, DeleteRequest, RemoverStops])
      == AfterRetire(s).(request := None, journal := [], removers := s.removers)
    ensures !HasFinished(Run(s, [Retire, DeleteJournal, DeleteRequest, RemoverStops]))
  {
    RunSteps(s, [], Retire);
    RunSteps(s, [Retire], DeleteJournal);
    RunSteps(s, [Retire] + [DeleteJournal], DeleteRequest);
    RunSteps(s, [Retire] + [DeleteJournal] + [DeleteRequest], RemoverStops);
    assert [] + [Retire] == [Retire];
    assert [Retire] + [DeleteJournal] + [DeleteRequest] + [RemoverStops]
        == [Retire, DeleteJournal, DeleteRequest, RemoverStops];
    hide Run;
  }

  /**
   Receipts are purged only by `maintain`, behind its pass over the directories. The events here
   purge at any time, which also covers what others do between the pass and the purge.
   */
  ghost predicate PurgesAfterPass(s: Slot, events: seq<Event>) {
    forall i :: 0 <= i < |events| ==> PurgeIsAfterPass(Run(s, events[..i]), events[i])
  }

  predicate PurgeIsAfterPass(s: Slot, e: Event) {
    e.Purge? ==> !HasFinished(s)
  }

  /** No receipt is purged while a retirement still has the directory to remove. */
  ghost predicate PurgesAfterRemoval(s: Slot, events: seq<Event>) {
    forall i :: 0 <= i < |events| ==> PurgeIsLate(Run(s, events[..i]), events[i])
  }

  predicate PurgeIsLate(s: Slot, e: Event) {
    e.Purge? ==> s.removers == 0
  }

  predicate KeepsReceipt(s: Slot, e: Event) {
    s.receipt.Some? ==> Next(s, e).receipt.Some?
  }

  predicate RemovalIsCovered(s: Slot) {
    s.removers > 0 ==> s.receipt.Some?
  }

  lemma {:induction false} CoveredStep(s: Slot, e: Event)
    requires RemovalIsCovered(s) && PurgeIsLate(s, e)
    ensures RemovalIsCovered(Next(s, e))
  {
  }

  lemma {:induction false} RunIsCovered(events: seq<Event>)
    requires PurgesAfterRemoval(EMPTY, events)
    ensures RemovalIsCovered(Run(EMPTY, events))
  {
    hide Next, RemovalIsCovered, PurgeIsLate;
    if events == [] {
      assert RemovalIsCovered(EMPTY) by { NothingToCover(); }
    } else {
      var init := events[..|events| - 1];
      assert forall i :: 0 <= i < |init| ==> events[..i] == init[..i] && events[i] == init[i];
      RunIsCovered(init);
      assert PurgeIsLate(Run(EMPTY, events[..|events| - 1]), events[|events| - 1]);
      CoveredStep(Run(EMPTY, init), events[|events| - 1]);
    }
  }

  lemma {:induction false} NothingToCover()
    ensures RemovalIsCovered(EMPTY)
  {
  }

  /** A receipt is kept for seven days beyond the expiry of its job and its last event. */
  predicate Outlives(r: Receipt) {
    r.retainUntil >= r.scope.job.expiresAt + RETENTION_MS && r.retainUntil >= r.state.updatedAt + RETENTION_MS
  }

  /** The job is known under this scope, by its request or by its receipt. */
  predicate Knows(s: Slot, scope: Scope) {
    && (s.receipt.Some? || s.request.Some?)
    && (s.receipt.Some? ==> s.receipt.value.scope == scope && Outlives(s.receipt.value))
    && (s.request.Some? ==> s.request.value.scope == scope)
    && RemovalIsCovered(s)
  }

  lemma {:induction false} KnownStep(s: Slot, scope: Scope, e: Event)
    requires Knows(s, scope) && KeepsReceipt(s, e)
    ensures Knows(Next(s, e), scope)
  {
  }

  lemma {:induction false} KnownStaysKnown(s: Slot, scope: Scope, more: seq<Event>)
    requires Knows(s, scope) && KeepReceipts(s, more)
    ensures Knows(Run(s, more), scope)
  {
    hide Next, Knows;
    if more != [] {
      var init := more[..|more| - 1];
      assert forall i :: 0 <= i < |init| ==> more[..i] == init[..i] && more[i] == init[i];
      KnownStaysKnown(s, scope, init);
      assert KeepsReceipt(Run(s, more[..|more| - 1]), more[|more| - 1]);
      KnownStep(Run(s, init), scope, more[|more| - 1]);
    }
  }

  /** No event of the list takes a receipt away. */
  ghost predicate KeepReceipts(s: Slot, more: seq<Event>) {
    forall i :: 0 <= i < |more| ==> KeepsReceipt(Run(s, more[..i]), more[i])
  }

  /** Whatever follows, the job is answered as staged under this scope until its receipt is purged. */
  ghost predicate StaysStaged(s: Slot, scope: Scope) {
    forall more: seq<Event>, again: Scope :: KeepReceipts(s, more) ==>
      StageAnswer(Run(s, more), again) == if again == scope then Existing else Conflict
  }

  lemma {:induction false} NewlyStagedIsKnown(s: Slot, scope: Scope, now: nat)
    requires StageAnswer(s, scope) == NewlyStaged && s.removers == 0
    ensures Knows(Next(s, Stage(scope, now)), scope)
  {
  }

  lemma {:induction false} RemoverTakesTheRequest(s: Slot, scope: Scope, now: nat)
    requires StageAnswer(s, scope) == NewlyStaged && s.removers > 0
    ensures !StaysStaged(Next(s, Stage(scope, now)), scope)
  {
    var t := Next(s, Stage(scope, now));
    var more := [DeleteRequest];
    RunSteps(t, [], DeleteRequest);
    assert [] + [DeleteRequest] == more && more[..0] == [];
    assert Run(t, more).request.None? && Run(t, more).receipt.None?;
    hide Run;
    assert StageAnswer(Run(t, more), scope) == NewlyStaged;
    assert KeepReceipts(t, more);
  }

  /**
   A job that is staged stays staged, whatever follows until its receipt is purged, exactly
   when no earlier retirement still has the directory to remove: across claims, transitions,
   restarts, retirements, and removals cut off anywhere.
   */
  lemma {:induction false} StaysStagedExactlyWhen(s: Slot, scope: Scope, now: nat)
    requires StageAnswer(s, scope) == NewlyStaged
    ensures StaysStaged(Next(s, Stage(scope, now)), scope) <==> s.removers == 0
  {
    hide Next, StaysStaged, Knows;
    if s.removers == 0 {
      NewlyStagedIsKnown(s, scope, now);
      KnownStays(Next(s, Stage(scope, now)), scope);
    } else {
      RemoverTakesTheRequest(s, scope, now);
    }
  }

  lemma {:induction false} KnownStays(s: Slot, scope: Scope)
    requires Knows(s, scope)
    ensures StaysStaged(s, scope)
  {
    forall more: seq<Event>, again: Scope | KeepReceipts(s, more)
      ensures StageAnswer(Run(s, more), again) == if again == scope then Existing else Conflict
    {
      KnownStaysKnown(s, scope, more);
    }
  }

  /** Once a job was staged with no removal under way, no later call stages it again, and any other scope conflicts. */
  lemma {:induction false} StagedOnce(before: seq<Event>, scope: Scope, now: nat, more: seq<Event>, again: Scope)
    requires Run(EMPTY, before).removers == 0
    requires StageAnswer(Run(EMPTY, before), scope) == NewlyStaged
    requires KeepReceipts(Next(Run(EMPTY, before), Stage(scope, now)), more)
    ensures var s := Next(Run(EMPTY, before), Stage(scope, now));
      StageAnswer(Run(s, more), again) == if again == scope then Existing else Conflict
  {
    hide Next;
    StaysStagedExactlyWhen(Run(EMPTY, before), scope, now);
  }

  /** If every purge waits for the removals under way, none is under way when a job is staged. */
  lemma {:induction false} PurgesThatWaitAreEnough(before: seq<Event>, scope: Scope)
    requires PurgesAfterRemoval(EMPTY, before)
    requires StageAnswer(Run(EMPTY, before), scope) == NewlyStaged
    ensures Run(EMPTY, before).removers == 0
  {
    RunIsCovered(before);
  }

  /**
   The same for a caller who only knows the clock: no purge up to seven days after the job
   expires lets a job that was staged be staged again.
   */
  lemma {:induction false} StagedOnceForAWeek(before: seq<Event>, scope: Scope, now: nat, more: seq<Event>,
        again: Scope)
    requires Run(EMPTY, before).removers == 0
    requires StageAnswer(Run(EMPTY, before), scope) == NewlyStaged
    requires forall i :: 0 <= i < |more| && more[i].Purge? ==> more[i].now <= scope.job.expiresAt + RETENTION_MS
    ensures var s := Next(Run(EMPTY, before), Stage(scope, now));
      StageAnswer(Run(s, more), again) == if again == scope then Existing else Conflict
  {
    NewlyStagedIsKnown(Run(EMPTY, before), scope, now);
    KnownForAWeek(Next(Run(EMPTY, before), Stage(scope, now)), scope, more);
  }

  lemma {:induction false} KnownForAWeek(s: Slot, scope: Scope, more: seq<Event>)
    requires Knows(s, scope)
    requires forall i :: 0 <= i < |more| && more[i].Purge? ==> more[i].now <= scope.job.expiresAt + RETENTION_MS
    ensures Knows(Run(s, more), scope)
  {
    if more != [] {
      KnownForAWeek(s, scope, more[..|more| - 1]);
      KnownStep(Run(s, more[..|more| - 1]), scope, more[|more| - 1]);
    }
  }

  const SCOPE := Scope("room", "peer", Job("job", 0, ""))
  const NO_DETAILS := Details(Keep, Keep, Keep)

  /** A job is staged, cancelled and retired, and its directory is still to be removed. */
  lemma {:induction false} FinishedRun() returns (events: seq<Event>)
    ensures var state := InitialState(0).(phase := Cancelled);
      Run(EMPTY, events) == Slot(Some(RequestRecord(SCOPE, 0)), [state], Some(Receipt(SCOPE, RETENTION_MS, state)), 1)
    ensures forall i :: 0 <= i < |events| ==> !events[i].Purge?
  {
    RunSteps(EMPTY, [], Stage(SCOPE, 0));
    RunSteps(EMPTY, [] + [Stage(SCOPE, 0)], Transit(Cancelled, NO_DETAILS, 0));
    RunSteps(EMPTY, [] + [Stage(SCOPE, 0)] + [Transit(Cancelled, NO_DETAILS, 0)], Retire);
    events := [] + [Stage(SCOPE, 0)] + [Transit(Cancelled, NO_DETAILS, 0)] + [Retire];
  }

  /** A second retirement removes the directory and the receipt is purged, while the first remover is still to come. */
  lemma {:induction false} RemoverOutlasts() returns (events: seq<Event>)
    ensures Run(EMPTY, events) == Slot(None, [], None, 1) && PurgesAfterPass(EMPTY, events)
  {
    var f := FinishedRun();
    RunSteps(EMPTY, f, Retire);
    RunSteps(EMPTY, f + [Retire], DeleteJournal);
    RunSteps(EMPTY, f + [Retire] + [DeleteJournal], DeleteRequest);
    RunSteps(EMPTY, f + [Retire] + [DeleteJournal] + [DeleteRequest], RemoverStops);
    var g := f + [Retire] + [DeleteJournal] + [DeleteRequest] + [RemoverStops];
    PurgeAtTheEnd(EMPTY, g, RETENTION_MS + 1);
    events := g + [Purge(RETENTION_MS + 1)];
    hide Run;
  }

  /**
   Why the purge must not overtake the removal: a remover that was late by a whole
   retention period deletes a job that was staged after the purge, and the job is staged
   twice with no purge in between.
   */
  lemma {:induction false} LateRemoverLosesAJob() returns (events: seq<Event>, s: Slot)
    ensures s == Run(EMPTY, events) && PurgesAfterPass(EMPTY, events)
    ensures StageAnswer(s, SCOPE) == NewlyStaged
    ensures var t := Next(Next(s, Stage(SCOPE, 1)), DeleteRequest);
      t.receipt == None && StageAnswer(t, SCOPE) == NewlyStaged
  {
    events := RemoverOutlasts();
    s := Run(EMPTY, events);
    hide Run;
  }

  // ---------------------------------------------------------------------------
  // A journal left behind
  // ---------------------------------------------------------------------------

  /** A newly staged job is handed to the worker exactly when no finished journal was left behind. */
  lemma {:induction false} NewlyStagedIsPendingExactlyWhen(s: Slot, scope: Scope, now: nat)
    requires StageAnswer(s, scope) == NewlyStaged
    ensures IsPending(Next(s, Stage(scope, now))) <==> !HasFinished(s)
    ensures Status(Next(s, Stage(scope, now))) == Some(CurrentState(s, now))
  {
  }

  /** Where neither receipt nor request is left, the journal does not say that the job has finished. */
  predicate LeavesNoneFinished(s: Slot) {
    RemovalIsCovered(s) && (s.receipt.None? && s.request.None? ==> !HasFinished(s))
  }

  lemma {:induction false} LeavesNoneStep(s: Slot, e: Event)
    requires LeavesNoneFinished(s) && PurgeIsLate(s, e) && PurgeIsAfterPass(s, e)
    ensures LeavesNoneFinished(Next(s, e))
  {
    CoveredStep(s, e);
    hide TransitionEvent, ReserveEvent;
  }

  lemma {:induction false} RunLeavesNone(events: seq<Event>)
    requires PurgesAfterRemoval(EMPTY, events) && PurgesAfterPass(EMPTY, events)
    ensures LeavesNoneFinished(Run(EMPTY, events))
  {
    hide Next, PurgeIsLate, PurgeIsAfterPass;
    if events != [] {
      hide LeavesNoneFinished;
      var init, e := events[..|events| - 1], events[|events| - 1];
      assert forall i :: 0 <= i < |init| ==> events[..i] == init[..i] && events[i] == init[i];
      RunLeavesNone(init);
      assert PurgeIsLate(Run(EMPTY, events[..|events| - 1]), e);
      assert PurgeIsAfterPass(Run(EMPTY, events[..|events| - 1]), e);
      LeavesNoneStep(Run(EMPTY, init), e);
    }
  }

  /**
   So every newly staged job is handed to the worker, if each purge comes behind the pass of
   `maintain` and waits for the removals under way.
   */
  lemma {:induction false} NewlyStagedIsPending(before: seq<Event>, scope: Scope, now: nat)
    requires PurgesAfterRemoval(EMPTY, before) && PurgesAfterPass(EMPTY, before)
    requires StageAnswer(Run(EMPTY, before), scope) == NewlyStaged
    ensures IsPending(Next(Run(EMPTY, before), Stage(scope, now)))
  {
    RunLeavesNone(before);
    NewlyStagedIsPendingExactlyWhen(Run(EMPTY, before), scope, now);
    hide Run, Next, HasFinished;
  }

  lemma {:induction false} PassesStay(events: seq<Event>, more: seq<Event>)
    requires PurgesAfterPass(EMPTY, events) && forall i :: 0 <= i < |more| ==> !more[i].Purge?
    ensures PurgesAfterPass(EMPTY, events + more)
  {
    hide Run, HasFinished;
    var all := events + more;
    assert forall i :: 0 <= i < |events| ==> all[..i] == events[..i] && all[i] == events[i];
  }

  /**
   A purge that does not wait is enough to break it: the late remover takes the request of a job
   that was cancelled meanwhile, and the job is cancelled from the start when it is staged again.
   */
  lemma {:induction false} LateRemoverLeavesAJournal() returns (events: seq<Event>, s: Slot)
    ensures s == Run(EMPTY, events) && PurgesAfterPass(EMPTY, events)
    ensures StageAnswer(s, SCOPE) == NewlyStaged
    ensures var t := Next(s, Stage(SCOPE, 3)); !IsPending(t) && Status(t).value.phase == Cancelled
  {
    var before := RemoverOutlasts();
    var f := before + [Stage(SCOPE, 1)];
    var g := f + [Transit(Cancelled, NO_DETAILS, 2)];
    RunSteps(EMPTY, before, Stage(SCOPE, 1));
    RunSteps(EMPTY, f, Transit(Cancelled, NO_DETAILS, 2));
    RunSteps(EMPTY, g, DeleteRequest);
    events := before + [Stage(SCOPE, 1), Transit(Cancelled, NO_DETAILS, 2), DeleteRequest];
    assert events == g + [DeleteRequest];
    s := Run(EMPTY, events);
    hide Run, Next, HasFinished;
    PassesStay(before, [Stage(SCOPE, 1), Transit(Cancelled, NO_DETAILS, 2), DeleteRequest]);
  }

  // ---------------------------------------------------------------------------
  // What each call does
  // ---------------------------------------------------------------------------

  /** Staging is answered by the receipt, then by the request, and only stages when there is neither. */
  lemma {:induction false} StageIs(s: Slot, scope: Scope, now: nat)
    ensures s.receipt != None ==>
      StageAnswer(s, scope) == if s.receipt.value.scope == scope then Existing else Conflict
    ensures s.receipt == None && s.request != None ==>
      StageAnswer(s, scope) == if s.request.value.scope == scope then Existing else Conflict
    ensures s.receipt == None && s.request == None ==>
      StageAnswer(s, scope) == NewlyStaged && Next(s, Stage(scope, now)).request == Some(RequestRecord(scope, now))
    ensures s.receipt != None || s.request != None ==> Next(s, Stage(scope, now)) == s
    ensures Next(s, Stage(scope, now)) == s.(request := Next(s, Stage(scope, now)).request)
  {
  }

  /** A claim or a transition of a job with a request appends the event it makes of the last state, and nothing else. */
  lemma {:induction false} EventsAreAppended(s: Slot, claimId: string, phase: Phase, details: Details, now: nat)
    ensures s.request == None ==>
      Next(s, Reserve(claimId, now)) == s && Next(s, Transit(phase, details, now)) == s
    ensures s.request != None ==>
      var last := if s.journal == [] then InitialState(s.request.value.stagedAt) else s.journal[|s.journal| - 1];
      var reserved, event := ReserveEvent(last, claimId, now), TransitionEvent(last, phase, details, now);
      && Next(s, Reserve(claimId, now))
         == s.(journal := s.journal + if reserved == None then [] else [reserved.value])
      && Next(s, Transit(phase, details, now))
         == s.(journal := s.journal + if event == None then [] else [event.value])
  {
    hide ReserveEvent, TransitionEvent;
    assert s.journal + [] == s.journal;
  }

  /** A receipt of another scope stops a retirement. A purge drops a receipt once its time is over. */
  lemma {:induction false} ReceiptsAreKept(s: Slot, now: nat)
    ensures s.request != None && s.receipt != None && s.request.value.scope != s.receipt.value.scope ==>
      !Retires(s) && Next(s, Retire) == s
    ensures s.request == None ==> (Retires(s) <==> s.receipt != None)
    ensures Next(s, Purge(now))
      == if s.receipt != None && now > s.receipt.value.retainUntil then s.(receipt := None) else s
    ensures Status(s) == if s.receipt != None then Some(s.receipt.value.state)
      else if s.request == None then None
      else if s.journal == [] then Some(InitialState(s.request.value.stagedAt))
      else Some(s.journal[|s.journal| - 1])
  {
  }

  // ---------------------------------------------------------------------------
  // The end of a job
  // ---------------------------------------------------------------------------

  /** What the last event of the journal says. */
  function LastPhase(s: Slot): Phase {
    if s.journal == [] then Staged else s.journal[|s.journal| - 1].phase
  }

  /** A request and a receipt that lie there together are of one scope. */
  predicate IsOneScope(s: Slot) {
    s.request.Some? && s.receipt.Some? ==> s.request.value.scope == s.receipt.value.scope
  }

  lemma {:induction false} OneScopeStep(s: Slot, e: Event)
    requires IsOneScope(s)
    ensures IsOneScope(Next(s, e))
  {
  }

  lemma {:induction false} RunIsOneScope(events: seq<Event>)
    ensures IsOneScope(Run(EMPTY, events))
  {
    hide Next;
    if events != [] {
      RunIsOneScope(events[..|events| - 1]);
      OneScopeStep(Run(EMPTY, events[..|events| - 1]), events[|events| - 1]);
    }
  }

  /**
   Over every run, a job with a request has ended when its last event says completed or
   cancelled. Then, and only then, it is not pending, and a retirement answers true and leaves
   a receipt: of its scope and its last phase, if there was none yet, for seven days.
   */
  lemma {:induction false} EndsExactlyWhen(events: seq<Event>)
    requires Run(EMPTY, events).request.Some?
    ensures var s := Run(EMPTY, events);
      var scope := s.request.value.scope;
      && (LastPhase(s) in {Completed, Cancelled} <==> Retires(s))
      && (LastPhase(s) in {Completed, Cancelled} <==> !IsPending(s))
      && (!Retires(s) ==> Next(s, Retire) == s)
      && (Retires(s) && s.receipt.Some? ==> Next(s, Retire) == s.(removers := s.removers + 1))
      && (Retires(s) && s.receipt.None? ==>
            var state := if s.journal == [] then InitialState(s.request.value.stagedAt) else s.journal[|s.journal| - 1];
            var until := if scope.job.expiresAt < state.updatedAt then state.updatedAt else scope.job.expiresAt;
            && state.phase == LastPhase(s)
            && Next(s, Retire)
               == s.(receipt := Some(Receipt(scope, until + 604_800_000, state)), removers := s.removers + 1))
  {
    RunIsOneScope(events);
    hide Run;
  }

  // ---------------------------------------------------------------------------
  // Status and retirement
  // ---------------------------------------------------------------------------

  /** Retiring, removing and crashing leave the reported status alone. */
  predicate IsHousekeeping(e: Event) {
    e.Retire? || e.DeleteJournal? || e.DeleteRequest? || e.RemoverStops?
  }

  /**
   `status` answers the same before and after every step of retirement and removal, unless a
   remover outlasted the receipt and finds a newly staged request: then, and only then, it
   can take the status away.
   */
  lemma {:induction false} HousekeepingKeepsStatus(s: Slot)
    ensures (forall e :: IsHousekeeping(e) ==> Status(Next(s, e)) == Status(s))
      <==> s.removers == 0 || s.receipt.Some? || s.request.None?
  {
    if s.removers > 0 && s.receipt.None? && s.request.Some? {
      assert IsHousekeeping(DeleteRequest) && Status(Next(s, DeleteRequest)) != Status(s);
    }
  }

  /** Removal in an order that takes the request before the journal. */
  predicate RequestFirst(s: Slot, e: Event) {
    e.DeleteJournal? ==> s.request.None?
  }

  /** A job with a receipt has finished, as far as its directory still tells. */
  predicate RetiredAtRest(s: Slot) {
    s.receipt.Some? && s.request.Some? ==>
      IsTerminal(CurrentState(s, 0).phase) && IsTerminal(CurrentState(s, s.request.value.stagedAt).phase)
  }

  lemma {:induction false} PhaseIgnoresStagedAt(s: Slot, a: nat, b: nat)
    ensures CurrentState(s, a).phase == CurrentState(s, b).phase
  {
  }

  lemma {:induction false} TerminalStays(current: InboxState, phase: Phase, details: Details, now: nat, claimId: string)
    requires IsTerminal(current.phase)
    ensures TransitionEvent(current, phase, details, now) == None && ReserveEvent(current, claimId, now) == None
  {
  }

  lemma {:induction false} RetiredStep(s: Slot, e: Event)
    requires RetiredAtRest(s) && RequestFirst(s, e)
    ensures RetiredAtRest(Next(s, e))
  {
    if s.request.Some? {
      PhaseIgnoresStagedAt(s, 0, s.request.value.stagedAt);
      var current := CurrentState(s, s.request.value.stagedAt);
      if IsTerminal(current.phase) {
        match e
        case Transit(phase, details, now) => TerminalStays(current, phase, details, now, "");
        case Reserve(claimId, _) => TerminalStays(current, Staged, NO_DETAILS, 0, claimId);
        case _ =>
      }
    }
  }

  /** If every removal takes the request first, a job with a receipt is never handed out again. */
  lemma {:induction false} RetiredIsNotPending(events: seq<Event>)
    requires forall i :: 0 <= i < |events| ==> RequestFirst(Run(EMPTY, events[..i]), events[i])
    ensures RetiredAtRest(Run(EMPTY, events))
    ensures Run(EMPTY, events).receipt.Some? ==> !IsPending(Run(EMPTY, events))
  {
    hide Next, RequestFirst;
    if events != [] {
      var init := events[..|events| - 1];
      var e := events[|events| - 1];
      assert forall i :: 0 <= i < |init| ==> events[..i] == init[..i] && events[i] == init[i];
      RetiredIsNotPending(init);
      assert RequestFirst(Run(EMPTY, events[..|events| - 1]), e);
      RetiredStep(Run(EMPTY, init), e);
    }
  }

  /**
   What hands a finished job out again: a job with a receipt that is not pending becomes
   pending in one event exactly when a remover deletes the journal of a request still there.
   */
  lemma {:induction false} PendingAgainExactlyWhen(s: Slot, e: Event)
    requires s.receipt.Some? && !IsPending(s)
    ensures IsPending(Next(s, e)) <==> e.DeleteJournal? && s.removers > 0 && s.request.Some?
  {
    if s.request.Some? {
      PhaseIgnoresStagedAt(s, 0, s.request.value.stagedAt);
      var current := CurrentState(s, s.request.value.stagedAt);
      match e
      case Transit(phase, details, now) => TerminalStays(current, phase, details, now, "");
      case Reserve(claimId, _) => TerminalStays(current, Staged, NO_DETAILS, 0, claimId);
      case _ =>
    }
  }

  /**
   Over a whole run, with any events in between, a job that is pending although it has a
   receipt lost its journal to a remover while its request was still there.
   */
  lemma {:induction false} RevivedByARemover(events: seq<Event>) returns (i: nat)
    requires Run(EMPTY, events).receipt.Some? && IsPending(Run(EMPTY, events))
    ensures i < |events| && events[i].DeleteJournal?
    ensures var s := Run(EMPTY, events[..i]);
      s.receipt.Some? && s.request.Some? && s.removers > 0 && !IsPending(s)
  {
    hide Next, IsPending;
    i := 0;
    if events != [] {
      var init, e := events[..|events| - 1], events[|events| - 1];
      var s := Run(EMPTY, init);
      if s.receipt.Some? && IsPending(s) {
        i := RevivedByARemover(init);
        assert init[..i] == events[..i];
      } else {
        i := |init|;
        if s.receipt.Some? { PendingAgainExactlyWhen(s, e); } else { FreshReceiptIsNotPending(s, e); }
      }
    }
  }

  lemma {:induction false} FreshReceiptIsNotPending(s: Slot, e: Event)
    requires s.receipt.None?
    ensures Next(s, e).receipt.Some? ==> !IsPending(Next(s, e))
  {
    if s.request.Some? { PhaseIgnoresStagedAt(s, 0, s.request.value.stagedAt); }
  }

  predicate TakesJournal(s: Slot, e: Event) {
    e.DeleteJournal? && s.removers > 0
  }

  predicate TakesRequest(s: Slot, e: Event) {
    e.DeleteRequest? && s.removers > 0
  }

  /** A transition that the journal admits, and that ends the job. */
  predicate Finishes(s: Slot, e: Event) {
    e.Transit? && IsTerminal(e.phase) && Next(s, e).journal != s.journal
  }

  /** No remover came to the request. */
  predicate KeepsRequest(s: Slot, events: seq<Event>) {
    events == []
    || (&& KeepsRequest(s, events[..|events| - 1])
        && !TakesRequest(Run(s, events[..|events| - 1]), events[|events| - 1]))
  }

  /** A remover came to the journal, and the job has not finished another time since. */
  predicate IsRevived(s: Slot, events: seq<Event>) {
    && events != []
    && var t, e := Run(s, events[..|events| - 1]), events[|events| - 1];
       TakesJournal(t, e) || (IsRevived(s, events[..|events| - 1]) && !Finishes(t, e))
  }

  lemma {:induction false} RevivedStep(s: Slot, e: Event)
    requires s.receipt.Some? && KeepsReceipt(s, e)
    ensures Next(s, e).request == if TakesRequest(s, e) then None else s.request
    ensures s.request.Some? ==>
      (!HasFinished(Next(s, e)) <==> TakesJournal(s, e) || (!HasFinished(s) && !Finishes(s, e)))
  {
    if s.request.Some? {
      PhaseIgnoresStagedAt(s, 0, s.request.value.stagedAt);
      var current := CurrentState(s, s.request.value.stagedAt);
      if IsTerminal(current.phase) {
        match e
        case Transit(phase, details, now) => TerminalStays(current, phase, details, now, "");
        case Reserve(claimId, _) => TerminalStays(current, Staged, NO_DETAILS, 0, claimId);
        case _ =>
      }
    }
  }

  /**
   Whatever happens after a job was retired, for as long as its receipt is kept: it is pending
   again exactly when some remover has deleted its journal, none has deleted its request, and
   it was not brought to an end another time.
   */
  lemma {:induction false} RevivedExactlyWhen(s: Slot, events: seq<Event>)
    requires s.receipt.Some? && s.request.Some? && HasFinished(s) && KeepReceipts(s, events)
    ensures var t := Run(s, events);
      && t.receipt.Some?
      && t.request == (if KeepsRequest(s, events) then s.request else None)
      && (KeepsRequest(s, events) ==> (!HasFinished(t) <==> IsRevived(s, events)))
      && (IsPending(t) <==> KeepsRequest(s, events) && IsRevived(s, events))
  {
    hide Next, HasFinished, TakesJournal, TakesRequest, Finishes;
    if events != [] {
      var init, e := events[..|events| - 1], events[|events| - 1];
      assert forall i :: 0 <= i < |init| ==> events[..i] == init[..i] && events[i] == init[i];
      RevivedExactlyWhen(s, init);
      assert KeepsReceipt(Run(s, events[..|events| - 1]), e);
      RevivedStep(Run(s, init), e);
    }
  }

  /**
   The order is not fixed: a removal that deletes the journal and then crashes hands a
   cancelled job out again, and the inbox admits its claim and its running event.
   */
  lemma {:induction false} InterruptedRemovalRevivesAJob() returns (before: seq<Event>, s: Slot)
    ensures s == Run(EMPTY, before + [DeleteJournal] + [RemoverStops])
    ensures var r := Run(EMPTY, before); r.receipt.Some? && !IsPending(r) && Status(r).value.phase == Cancelled
    ensures s.receipt.Some? && s.removers == 0 && IsPending(s) && !Retires(s)
    ensures var details := Details(Put(Some("a")), Keep, Keep);
      var t := Next(Next(s, Transit(Claimed, NO_DETAILS, 1)), Transit(Running, details, 2));
      |t.journal| == 2 && t.journal[1].phase == Running && Status(t).value.phase == Cancelled
  {
    before := FinishedRun();
    RunSteps(EMPTY, before, DeleteJournal);
    RunSteps(EMPTY, before + [DeleteJournal], RemoverStops);
    s := Run(EMPTY, before + [DeleteJournal] + [RemoverStops]);
    assert s.journal == [] && s.request == Some(RequestRecord(SCOPE, 0)) && s.receipt == Run(EMPTY, before).receipt;
    hide Run, Next;
    RevivedJobRuns(s);
  }

  lemma {:induction false} RevivedJobRuns(s: Slot)
    requires s.request == Some(RequestRecord(SCOPE, 0)) && s.journal == []
    ensures var details := Details(Put(Some("a")), Keep, Keep);
      var t := Next(Next(s, Transit(Claimed, NO_DETAILS, 1)), Transit(Running, details, 2));
      |t.journal| == 2 && t.journal[1].phase == Running && t.receipt == s.receipt
  {
    var t := Next(s, Transit(Claimed, NO_DETAILS, 1));
    assert t.journal == [InitialState(0).(phase := Claimed, updatedAt := 1)];
  }
}
