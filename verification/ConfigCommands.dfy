/**
 Configuration commands from a controller: a revision, a bounded ledger of applied
 operations, and a runtime configuration saved before the ledger is.
 */
module ConfigCommands {
  import opened Basics

  const CLOCK_SKEW_MS := 120_000
  const MAX_COMMANDS := 256

  datatype SessionLevel = SessionLevel(sessionId: string, level: Option<string>, authorizeProjectAsk: bool)
  datatype ProjectLevel = ProjectLevel(projectId: string, level: Option<string>)
  datatype Cortex = Cortex(projectId: string, enabled: bool, maxTokens: int)
  datatype CortexSetting = CortexSetting(enabled: bool, maxTokens: int)

  /** The part of a command that changes something. Its SHA-256 is taken to be injective, so it is its own digest. */
  datatype Mutation = Mutation(
    enabled: Option<bool>, excludeSession: Option<string>, includeSession: Option<string>,
    autoAcceptDefault: Option<string>, autoAcceptPaused: Option<bool>,
    autoAcceptSession: Option<SessionLevel>, autoAcceptProject: Option<ProjectLevel>,
    provider: Option<string>, providerEnabled: Option<bool>,
    meshEnabled: Option<bool>, contextCompilerEnabled: Option<bool>, cortex: Option<Cortex>)

  datatype ConfigSet = ConfigSet(mutation: Mutation, operationId: Option<string>, baseRevision: Option<nat>,
                                 payloadDigest: Option<Mutation>, expiresAt: Option<int>, instanceEpoch: Option<string>)

  datatype Runtime = Runtime(
    enabled: bool, excluded: seq<string>, autoAcceptDefault: string, paused: bool,
    bySession: map<string, string>, byProject: map<string, string>, providers: map<string, bool>,
    mesh: bool, compiler: bool, cortex: map<string, CortexSetting>)

  datatype CommandRecord = CommandRecord(operationId: string, digest: Mutation, revision: nat)

  /** What is on disk: the command ledger, the runtime configuration, and the epoch of this installation. */
  datatype State = State(revision: nat, requireFresh: bool, commands: seq<CommandRecord>,
                         runtime: Runtime, epoch: string)

  datatype Reason = Expired | Conflict | DigestMismatch | LegacyBlocked | StaleInstance | GrantRefused

  datatype Answer = Applied(revision: nat) | Replay(revision: nat) | Rejected(reason: Reason)

  /** Present and not empty. */
  predicate IsGiven(text: Option<string>) {
    text.Some? && text.value != ""
  }

  // ---------------------------------------------------------------------------
  // The runtime patch
  // ---------------------------------------------------------------------------

  function Removed(list: seq<string>, item: string): seq<string> {
    if list == [] then []
    else Removed(list[..|list| - 1], item) + (if list[|list| - 1] == item then [] else [list[|list| - 1]])
  }

  function Leveled(levels: map<string, string>, key: string, level: Option<string>): map<string, string> {
    match level case None => levels - {key} case Some(l) => levels[key := l]
  }

  function PatchedSessions(excluded: seq<string>, m: Mutation): seq<string> {
    var e := if IsGiven(m.excludeSession) && m.excludeSession.value !in excluded
             then excluded + [m.excludeSession.value] else excluded;
    if IsGiven(m.includeSession) then Removed(e, m.includeSession.value) else e
  }

  function Patched(r: Runtime, m: Mutation): Runtime {
    Runtime(
      if m.enabled.Some? then m.enabled.value else r.enabled,
      PatchedSessions(r.excluded, m),
      if IsGiven(m.autoAcceptDefault) then m.autoAcceptDefault.value else r.autoAcceptDefault,
      if m.autoAcceptPaused.Some? then m.autoAcceptPaused.value else r.paused,
      if m.autoAcceptSession.Some?
        then Leveled(r.bySession, m.autoAcceptSession.value.sessionId, m.autoAcceptSession.value.level)
        else r.bySession,
      if m.autoAcceptProject.Some?
        then Leveled(r.byProject, m.autoAcceptProject.value.projectId, m.autoAcceptProject.value.level)
        else r.byProject,
      if IsGiven(m.provider) && m.providerEnabled.Some?
        then r.providers[m.provider.value := m.providerEnabled.value] else r.providers,
      if m.meshEnabled.Some? then m.meshEnabled.value else r.mesh,
      if m.contextCompilerEnabled.Some? then m.contextCompilerEnabled.value else r.compiler,
      if m.cortex.Some?
        then r.cortex[m.cortex.value.projectId := CortexSetting(m.cortex.value.enabled, m.cortex.value.maxTokens)]
        else r.cortex)
  }

  /** One setting of the runtime configuration. */
  datatype Place =
    | Enabled
    | ExcludedSession(session: string)
    | Default
    | Paused
    | BySession(session: string)
    | ByProject(project: string)
    | ByProvider(provider: string)
    | Mesh
    | Compiler
    | CortexOf(project: string)

  datatype Setting = Flag(on: Option<bool>) | Level(level: Option<string>) | Budget(setting: Option<CortexSetting>)

  function Lookup<T>(entries: map<string, T>, key: string): Option<T> {
    if key in entries then Some(entries[key]) else None
  }

  function SettingAt(r: Runtime, place: Place): Setting {
    match place
    case Enabled => Flag(Some(r.enabled))
    case ExcludedSession(session) => Flag(Some(session in r.excluded))
    case Default => Level(Some(r.autoAcceptDefault))
    case Paused => Flag(Some(r.paused))
    case BySession(session) => Level(Lookup(r.bySession, session))
    case ByProject(project) => Level(Lookup(r.byProject, project))
    case ByProvider(provider) => Flag(Lookup(r.providers, provider))
    case Mesh => Flag(Some(r.mesh))
    case Compiler => Flag(Some(r.compiler))
    case CortexOf(project) => Budget(Lookup(r.cortex, project))
  }

  /** What a command writes at a place, if anything. Of an exclusion and an inclusion at once, the inclusion. */
  function WrittenAt(m: Mutation, place: Place): Option<Setting> {
    match place
    case Enabled => if m.enabled.Some? then Some(Flag(m.enabled)) else None
    case ExcludedSession(session) =>
      if session != "" && m.includeSession == Some(session) then Some(Flag(Some(false)))
      else if session != "" && m.excludeSession == Some(session) then Some(Flag(Some(true)))
      else None
    case Default => if IsGiven(m.autoAcceptDefault) then Some(Level(m.autoAcceptDefault)) else None
    case Paused => if m.autoAcceptPaused.Some? then Some(Flag(m.autoAcceptPaused)) else None
    case BySession(session) =>
      if m.autoAcceptSession.Some? && m.autoAcceptSession.value.sessionId == session
      then Some(Level(m.autoAcceptSession.value.level)) else None
    case ByProject(project) =>
      if m.autoAcceptProject.Some? && m.autoAcceptProject.value.projectId == project
      then Some(Level(m.autoAcceptProject.value.level)) else None
    case ByProvider(provider) =>
      if provider != "" && m.provider == Some(provider) && m.providerEnabled.Some?
      then Some(Flag(m.providerEnabled)) else None
    case Mesh => if m.meshEnabled.Some? then Some(Flag(m.meshEnabled)) else None
    case Compiler => if m.contextCompilerEnabled.Some? then Some(Flag(m.contextCompilerEnabled)) else None
    case CortexOf(project) =>
      if m.cortex.Some? && m.cortex.value.projectId == project
      then Some(Budget(Some(CortexSetting(m.cortex.value.enabled, m.cortex.value.maxTokens)))) else None
  }

  /** A patch changes exactly the places its command writes, and writes there what the command says. */
  lemma {:induction false} PatchedAt(r: Runtime, m: Mutation, place: Place)
    ensures SettingAt(Patched(r, m), place)
      == match WrittenAt(m, place) case Some(setting) => setting case None => SettingAt(r, place)
  {
    if place.ExcludedSession? { ExcludedAfterPatch(r, m, place.session); }
    hide PatchedSessions;
  }

  /** The same settings at every place: that is the same runtime, up to the order of the exclusion list. */
  ghost predicate SameSettings(a: Runtime, b: Runtime) {
    forall place :: SettingAt(a, place) == SettingAt(b, place)
  }

  lemma {:induction false} SameEntries<T>(a: map<string, T>, b: map<string, T>)
    requires forall k :: Lookup(a, k) == Lookup(b, k)
    ensures a == b
  {
    forall k ensures k in a <==> k in b { assert Lookup(a, k) == Lookup(b, k); }
    forall k | k in a ensures a[k] == b[k] { assert Lookup(a, k) == Lookup(b, k); }
  }

  lemma {:induction false} SettingsAreAll(a: Runtime, b: Runtime)
    requires SameSettings(a, b) && a.excluded == b.excluded
    ensures a == b
  {
    forall k ensures Lookup(a.bySession, k) == Lookup(b.bySession, k) {
      assert SettingAt(a, BySession(k)) == SettingAt(b, BySession(k));
    }
    forall k ensures Lookup(a.byProject, k) == Lookup(b.byProject, k) {
      assert SettingAt(a, ByProject(k)) == SettingAt(b, ByProject(k));
    }
    forall k ensures Lookup(a.providers, k) == Lookup(b.providers, k) {
      assert SettingAt(a, ByProvider(k)) == SettingAt(b, ByProvider(k));
    }
    forall k ensures Lookup(a.cortex, k) == Lookup(b.cortex, k) {
      assert SettingAt(a, CortexOf(k)) == SettingAt(b, CortexOf(k));
    }
    SameEntries(a.bySession, b.bySession);
    SameEntries(a.byProject, b.byProject);
    SameEntries(a.providers, b.providers);
    SameEntries(a.cortex, b.cortex);
    assert SettingAt(a, Enabled) == SettingAt(b, Enabled) && SettingAt(a, Default) == SettingAt(b, Default);
    assert SettingAt(a, Paused) == SettingAt(b, Paused) && SettingAt(a, Mesh) == SettingAt(b, Mesh);
    assert SettingAt(a, Compiler) == SettingAt(b, Compiler);
  }

  // ---------------------------------------------------------------------------
  // One command
  // ---------------------------------------------------------------------------

  /** The index of the first record of an operation, or the length of the ledger. */
  function Find(commands: seq<CommandRecord>, operationId: string): (k: nat)
    ensures k <= |commands| && (k < |commands| ==> commands[k].operationId == operationId)
  {
    if commands == [] || commands[0].operationId == operationId then 0 else 1 + Find(commands[1..], operationId)
  }

  /** The decision before anything is changed. `grantRefused` is the verdict on an asked-for controller grant. */
  function Decided(s: State, c: ConfigSet, now: int, grantRefused: bool): Answer {
    if c.payloadDigest.Some? && c.payloadDigest.value != c.mutation then Rejected(DigestMismatch)
    else if c.expiresAt.Some? && c.expiresAt.value + CLOCK_SKEW_MS <= now then Rejected(Expired)
    else if IsGiven(c.operationId) && Find(s.commands, c.operationId.value) < |s.commands| then
      var previous := s.commands[Find(s.commands, c.operationId.value)];
      if previous.digest != c.mutation then Rejected(DigestMismatch) else Replay(previous.revision)
    else if IsGiven(c.operationId) && c.baseRevision.Some? && c.baseRevision.value != s.revision then Rejected(Conflict)
    else if !IsGiven(c.operationId) && s.requireFresh then Rejected(LegacyBlocked)
    else if (if IsGiven(c.instanceEpoch) then c.instanceEpoch.value != s.epoch else s.requireFresh)
      then Rejected(StaleInstance)
    else if AsksForGrant(c)
        && (!IsGiven(c.operationId) || c.expiresAt.None? || c.expiresAt.value == 0 || !IsGiven(c.instanceEpoch))
      then Rejected(LegacyBlocked)
    else if AsksForGrant(c) && grantRefused then Rejected(GrantRefused)
    else Applied(s.revision + 1)
  }

  predicate AsksForGrant(c: ConfigSet) {
    c.mutation.autoAcceptSession.Some? && c.mutation.autoAcceptSession.value.authorizeProjectAsk
  }

  function Recent(commands: seq<CommandRecord>): seq<CommandRecord> {
    if |commands| <= MAX_COMMANDS then commands else commands[|commands| - MAX_COMMANDS..]
  }

  function Recorded(s: State, c: ConfigSet): State {
    s.(revision := s.revision + 1,
       commands := if IsGiven(c.operationId)
                   then Recent(s.commands + [CommandRecord(c.operationId.value, c.mutation, s.revision + 1)])
                   else s.commands)
  }

  /** The runtime is saved first, the ledger second; a crash may come between. */
  function AfterCommand(s: State, c: ConfigSet, now: int, grantRefused: bool, crash: bool): State {
    if !Decided(s, c, now, grantRefused).Applied? then s
    else
      var t := s.(runtime := Patched(s.runtime, c.mutation));
      if crash then t else Recorded(t, c)
  }

  class ConfigStore {
    var revision: nat
    var requireFresh: bool
    var commands: seq<CommandRecord>
    var runtime: Runtime
    var epoch: string

    function View(): State
      reads this
    {
      State(revision, requireFresh, commands, runtime, epoch)
    }

    constructor (runtime: Runtime, epoch: string)
      ensures View() == State(0, false, [], runtime, epoch)
    {
      this.runtime := runtime;
      this.epoch := epoch;
      revision, requireFresh, commands := 0, false, [];
    }

    method ApplyRuntimePatch(m: Mutation)
      modifies `runtime
      ensures runtime == Patched(old(runtime), m)
    {
      hide Removed, Leveled;
      var Runtime(enabled, excluded, autoAcceptDefault, paused, bySession, byProject, providers,
            mesh, compiler, cortex) := runtime;
      if m.enabled.Some? { enabled := m.enabled.value; }
      if IsGiven(m.excludeSession) && m.excludeSession.value !in excluded {
        excluded := excluded + [m.excludeSession.value];
      }
      if IsGiven(m.includeSession) { excluded := Removed(excluded, m.includeSession.value); }
      if IsGiven(m.autoAcceptDefault) { autoAcceptDefault := m.autoAcceptDefault.value; }
      if m.autoAcceptPaused.Some? { paused := m.autoAcceptPaused.value; }
      if m.autoAcceptSession.Some? {
        bySession := Leveled(bySession, m.autoAcceptSession.value.sessionId, m.autoAcceptSession.value.level);
      }
      if m.autoAcceptProject.Some? {
        byProject := Leveled(byProject, m.autoAcceptProject.value.projectId, m.autoAcceptProject.value.level);
      }
      if IsGiven(m.provider) && m.providerEnabled.Some? {
        providers := providers[m.provider.value := m.providerEnabled.value];
      }
      if m.meshEnabled.Some? { mesh := m.meshEnabled.value; }
      if m.contextCompilerEnabled.Some? { compiler := m.contextCompilerEnabled.value; }
      if m.cortex.Some? {
        cortex := cortex[m.cortex.value.projectId := CortexSetting(m.cortex.value.enabled, m.cortex.value.maxTokens)];
      }
      runtime := Runtime(enabled, excluded, autoAcceptDefault, paused, bySession, byProject, providers,
              mesh, compiler, cortex);
    }

    method ApplyConfigSet(c: ConfigSet, now: int, grantRefused: bool) returns (answer: Answer)
      modifies this
      ensures answer == Decided(old(View()), c, now, grantRefused)
      ensures View() == AfterCommand(old(View()), c, now, grantRefused, false)
    {
      hide Patched, Recent, Find, AsksForGrant;
      if c.payloadDigest.Some? && c.payloadDigest.value != c.mutation { return Rejected(DigestMismatch); }
      if c.expiresAt.Some? && c.expiresAt.value + CLOCK_SKEW_MS <= now { return Rejected(Expired); }
      if IsGiven(c.operationId) {
        var k := Find(commands, c.operationId.value);
        if k < |commands| {
          return if commands[k].digest != c.mutation then Rejected(DigestMismatch) else Replay(commands[k].revision);
        }
        if c.baseRevision.Some? && c.baseRevision.value != revision { return Rejected(Conflict); }
      } else if requireFresh {
        return Rejected(LegacyBlocked);
      }
      if IsGiven(c.instanceEpoch) {
        if c.instanceEpoch.value != epoch { return Rejected(StaleInstance); }
      } else if requireFresh {
        return Rejected(StaleInstance);
      }
      if AsksForGrant(c) {
        if !IsGiven(c.operationId) || c.expiresAt.None? || c.expiresAt.value == 0 || !IsGiven(c.instanceEpoch) {
          return Rejected(LegacyBlocked);
        }
        if grantRefused { return Rejected(GrantRefused); }
      }
      ApplyRuntimePatch(c.mutation);
      revision := revision + 1;
      if IsGiven(c.operationId) {
        commands := Recent(commands + [CommandRecord(c.operationId.value, c.mutation, revision)]);
      }
      answer := Applied(revision);
    }
  }

  // ---------------------------------------------------------------------------
  // Applying twice is applying once
  // ---------------------------------------------------------------------------

  lemma {:induction false} RemovedMembers(list: seq<string>, item: string)
    ensures item !in Removed(list, item)
    ensures forall x :: x in Removed(list, item) ==> x in list
    ensures forall x :: x in list && x != item ==> x in Removed(list, item)
  {
    if list != [] {
      RemovedMembers(list[..|list| - 1], item);
      assert list == list[..|list| - 1] + [list[|list| - 1]];
    }
  }

  lemma {:induction false} RemovedNothing(list: seq<string>, item: string)
    requires item !in list
    ensures Removed(list, item) == list
  {
    if list != [] {
      RemovedNothing(list[..|list| - 1], item);
      assert list == list[..|list| - 1] + [list[|list| - 1]];
    }
  }

  lemma {:induction false} SessionsTwice(excluded: seq<string>, m: Mutation)
    ensures PatchedSessions(PatchedSessions(excluded, m), m) == PatchedSessions(excluded, m)
  {
    var once := PatchedSessions(excluded, m);
    if IsGiven(m.includeSession) {
      var item := m.includeSession.value;
      var e := if IsGiven(m.excludeSession) && m.excludeSession.value !in excluded
               then excluded + [m.excludeSession.value] else excluded;
      RemovedMembers(e, item);
      if IsGiven(m.excludeSession) && m.excludeSession.value == item {
        // excluded and included at once: the inclusion wins both times
        assert (once + [item])[..|once|] == once;
        RemovedNothing(once, item);
      } else {
        RemovedNothing(once, item);
      }
    }
  }

  /** After a patch exactly the old exclusions and the new one are excluded, save the one included. */
  lemma {:induction false} ExcludedAfterPatch(r: Runtime, m: Mutation, session: string)
    ensures session in Patched(r, m).excluded
      <==> (&& (session in r.excluded || (IsGiven(m.excludeSession) && session == m.excludeSession.value))
            && !(IsGiven(m.includeSession) && session == m.includeSession.value))
  {
    var e := if IsGiven(m.excludeSession) && m.excludeSession.value !in r.excluded
             then r.excluded + [m.excludeSession.value] else r.excluded;
    if IsGiven(m.includeSession) { RemovedMembers(e, m.includeSession.value); }
  }

  /** The runtime patch is idempotent, whatever the command mixes. */
  lemma {:induction false} PatchTwice(r: Runtime, m: Mutation)
    ensures Patched(Patched(r, m), m) == Patched(r, m)
  {
    hide PatchedSessions;
    SessionsTwice(r.excluded, m);
  }

  /**
   A crash between the two saves, followed by the same grant-free command again, leaves what
   one application would have left, and answers the same.
   */
  lemma {:induction false} CrashThenRetry(s: State, c: ConfigSet, now: int, later: int)
    requires !AsksForGrant(c) && Decided(s, c, now, false).Applied?
    requires c.expiresAt.Some? ==> later < c.expiresAt.value + CLOCK_SKEW_MS
    ensures var crashed := AfterCommand(s, c, now, false, true);
      && Decided(crashed, c, later, false) == Decided(s, c, now, false)
      && AfterCommand(crashed, c, later, false, false) == AfterCommand(s, c, now, false, false)
  {
    hide Patched;
    PatchTwice(s.runtime, c.mutation);
  }

  // ---------------------------------------------------------------------------
  // Every refusal
  // ---------------------------------------------------------------------------

  predicate IsNamed(text: Option<string>) {
    text != None && text != Some("")
  }

  /** The ledger records this operation first at `k`. */
  predicate RecordedAt(commands: seq<CommandRecord>, id: Option<string>, k: nat) {
    && IsNamed(id) && k < |commands| && Some(commands[k].operationId) == id
    && forall i :: 0 <= i < k ==> Some(commands[i].operationId) != id
  }

  /** The content is what its digest says, and the deadline, with two minutes of grace, has not passed. */
  predicate IsFresh(c: ConfigSet, now: int) {
    && (c.payloadDigest == None || c.payloadDigest == Some(c.mutation))
    && (c.expiresAt == None || now < c.expiresAt.value + 120_000)
  }

  /** An answer given before the ledger is looked at, or from its record. */
  lemma {:induction false} AnsweredByContent(s: State, c: ConfigSet, now: int, grantRefused: bool, k: nat)
    ensures var answer := Decided(s, c, now, grantRefused);
      && (c.payloadDigest != None && c.payloadDigest != Some(c.mutation) ==> answer == Rejected(DigestMismatch))
      && ((c.payloadDigest == None || c.payloadDigest == Some(c.mutation)) && !IsFresh(c, now) ==>
            answer == Rejected(Expired))
      && (IsFresh(c, now) && RecordedAt(s.commands, c.operationId, k) ==>
            answer == if s.commands[k].digest == c.mutation then Replay(s.commands[k].revision)
                      else Rejected(DigestMismatch))
  {
    if RecordedAt(s.commands, c.operationId, k) { FindRecord(s.commands, c.operationId.value, k); }
    hide Find;
  }

  lemma {:induction false} FindRecord(commands: seq<CommandRecord>, id: string, k: nat)
    requires k < |commands| && commands[k].operationId == id
    requires forall i :: 0 <= i < k ==> commands[i].operationId != id
    ensures Find(commands, id) == k
  {
    if k > 0 { FindRecord(commands[1..], id, k - 1); }
  }

  lemma {:induction false} FindNothing(commands: seq<CommandRecord>, id: string)
    requires forall i :: 0 <= i < |commands| ==> commands[i].operationId != id
    ensures Find(commands, id) == |commands|
  {
    if commands != [] { FindNothing(commands[1..], id); }
  }

  /** Does the command ask for a grant that needs an operation, a deadline and an epoch. */
  predicate WantsGrant(c: ConfigSet) {
    c.mutation.autoAcceptSession != None && c.mutation.autoAcceptSession.value.authorizeProjectAsk
  }

  /** A fresh command whose operation is not on record is applied exactly when nothing of this is wrong with it. */
  lemma {:induction false} AnsweredByGuards(s: State, c: ConfigSet, now: int, grantRefused: bool)
    requires IsFresh(c, now) && forall i :: 0 <= i < |s.commands| ==>
      !IsNamed(c.operationId) || Some(s.commands[i].operationId) != c.operationId
    ensures var isBehind := IsNamed(c.operationId) && c.baseRevision != None && c.baseRevision != Some(s.revision);
      var isBlocked := !IsNamed(c.operationId) && s.requireFresh;
      var isElsewhere := if IsNamed(c.instanceEpoch) then c.instanceEpoch != Some(s.epoch) else s.requireFresh;
      var isVague := c.expiresAt == None || c.expiresAt == Some(0)
        || !IsNamed(c.operationId) || !IsNamed(c.instanceEpoch);
      Decided(s, c, now, grantRefused) ==
        if isBehind then Rejected(Conflict)
        else if isBlocked then Rejected(LegacyBlocked)
        else if isElsewhere then Rejected(StaleInstance)
        else if WantsGrant(c) && isVague then Rejected(LegacyBlocked)
        else if WantsGrant(c) && grantRefused then Rejected(GrantRefused)
        else Applied(s.revision + 1)
  {
    if IsNamed(c.operationId) { FindNothing(s.commands, c.operationId.value); }
    hide Find;
  }

  /** A refused command changes nothing. An applied one is patched in, counted, and recorded if it has an operation. */
  lemma {:induction false} AppliedIs(s: State, c: ConfigSet, now: int, grantRefused: bool)
    ensures var t := AfterCommand(s, c, now, grantRefused, false);
      if Decided(s, c, now, grantRefused) != Applied(s.revision + 1) then t == s
      else
        && t.revision == s.revision + 1 && t.requireFresh == s.requireFresh && t.epoch == s.epoch
        && t.runtime == Patched(s.runtime, c.mutation)
        && if !IsNamed(c.operationId) then t.commands == s.commands
           else
             && var all := s.commands + [CommandRecord(c.operationId.value, c.mutation, s.revision + 1)];
                t.commands == if |all| <= 256 then all else all[|all| - 256..]
  {
    hide Patched;
  }

  // ---------------------------------------------------------------------------
  // Whole runs
  // ---------------------------------------------------------------------------

  datatype Event =
    | Command(c: ConfigSet, now: int, grantRefused: bool, crash: bool)
    | RequireFresh(required: bool)
    | NewEpoch(epoch: string)
    | LedgerLost             // an unreadable file is read as an empty ledger

  function Next(s: State, e: Event): State {
    match e
    case Command(c, now, grantRefused, crash) => AfterCommand(s, c, now, grantRefused, crash)
    case RequireFresh(required) => s.(requireFresh := required)
    case NewEpoch(epoch) => s.(epoch := epoch)
    case LedgerLost => s.(revision := 0, requireFresh := false, commands := [])
  }

  function Run(s: State, events: seq<Event>): State {
    if events == [] then s else Next(Run(s, events[..|events| - 1]), events[|events| - 1])
  }

  /** A lost ledger reads as no revision, no record and no need for fresh commands; the runtime is another file. */
  lemma {:induction false} OtherEventsAre(s: State, required: bool, epoch: string)
    ensures Next(s, RequireFresh(required)) == State(s.revision, required, s.commands, s.runtime, s.epoch)
    ensures Next(s, NewEpoch(epoch)) == State(s.revision, s.requireFresh, s.commands, s.runtime, epoch)
    ensures Next(s, LedgerLost) == State(0, false, [], s.runtime, s.epoch)
  {
  }

  /** The command of this event was answered `Applied`, that is, recorded. */
  predicate IsApplied(s: State, e: Event) {
    e.Command? && !e.crash && Decided(s, e.c, e.now, e.grantRefused).Applied?
  }

  /** The revision counts the applied commands, one by one. */
  lemma {:induction false} RevisionStep(s: State, e: Event)
    requires !e.LedgerLost?
    ensures Next(s, e).revision == s.revision + if IsApplied(s, e) then 1 else 0
    ensures IsApplied(s, e) ==> Decided(s, e.c, e.now, e.grantRefused) == Applied(Next(s, e).revision)
  {
  }

  /** How many commands of a run were applied. */
  function AppliedIn(s: State, events: seq<Event>): nat {
    if events == [] then 0
    else
      var init := events[..|events| - 1];
      AppliedIn(s, init) + if IsApplied(Run(s, init), events[|events| - 1]) then 1 else 0
  }

  /** The revision of a run counts its applied commands: no command is counted twice or missed, whatever crashes. */
  lemma {:induction false} RevisionCountsApplied(s: State, events: seq<Event>)
    requires forall k :: 0 <= k < |events| ==> !events[k].LedgerLost?
    ensures Run(s, events).revision == s.revision + AppliedIn(s, events)
  {
    hide Next, IsApplied;
    if events != [] {
      RevisionCountsApplied(s, events[..|events| - 1]);
      RevisionStep(Run(s, events[..|events| - 1]), events[|events| - 1]);
    }
  }

  lemma {:induction false} RevisionRises(s: State, events: seq<Event>, i: nat, j: nat)
    requires i <= j <= |events| && forall k :: 0 <= k < |events| ==> !events[k].LedgerLost?
    ensures Run(s, events[..i]).revision <= Run(s, events[..j]).revision
    ensures i < j && IsApplied(Run(s, events[..i]), events[i]) ==>
      Run(s, events[..i]).revision < Run(s, events[..j]).revision
  {
    if i < j {
      RevisionRises(s, events, i, j - 1);
      assert events[..j][..j - 1] == events[..j - 1];
      RevisionStep(Run(s, events[..j - 1]), events[j - 1]);
    }
  }

  /**
   A command with an operation id and a base revision is applied at most once in a whole run,
   even when its record has long left the ledger.
   */
  lemma {:induction false} AppliedAtMostOnce(s: State, events: seq<Event>, i: nat, j: nat)
    requires i < j < |events| && forall k :: 0 <= k < |events| ==> !events[k].LedgerLost?
    requires events[i].Command? && events[j].Command? && events[i].c == events[j].c
    requires IsGiven(events[i].c.operationId) && events[i].c.baseRevision.Some?
    ensures !(IsApplied(Run(s, events[..i]), events[i]) && IsApplied(Run(s, events[..j]), events[j]))
  {
    RevisionRises(s, events, i, j);
  }

  lemma {:induction false} FindNone(commands: seq<CommandRecord>, id: string, k: nat)
    requires k < Find(commands, id)
    ensures commands[k].operationId != id
  {
    if k > 0 { FindNone(commands[1..], id, k - 1); }
  }

  /** The first record of an operation is where no earlier one is. */
  lemma {:induction false} FindAt(commands: seq<CommandRecord>, id: string, k: nat)
    requires k < |commands| && commands[k].operationId == id
    requires forall i :: 0 <= i < k ==> commands[i].operationId != id
    ensures Find(commands, id) == k
  {
    if Find(commands, id) > k { FindNone(commands, id, k); }
  }

  /** Position `p` holds the first record of its operation. */
  predicate FirstAt(commands: seq<CommandRecord>, record: CommandRecord, p: nat) {
    && p < |commands| && commands[p] == record
    && forall i :: 0 <= i < p ==> commands[i].operationId != record.operationId
  }

  /** The ledger still knows the record, with at most `n` records behind it. */
  predicate Remembers(commands: seq<CommandRecord>, record: CommandRecord, n: nat) {
    var p := Find(commands, record.operationId);
    FirstAt(commands, record, p) && |commands| <= p + 1 + n
  }

  lemma {:induction false} AppendedIsRemembered(commands: seq<CommandRecord>, record: CommandRecord)
    requires Find(commands, record.operationId) == |commands|
    ensures Remembers(Recent(commands + [record]), record, 0)
  {
    var t := Recent(commands + [record]);
    var d := |commands| + 1 - |t|;
    forall i | 0 <= i < |t| - 1 ensures t[i].operationId != record.operationId {
      FindNone(commands, record.operationId, d + i);
    }
    FindAt(t, record.operationId, |t| - 1);
  }

  /** Neither a record behind nor records dropped from the front change which one is first. */
  lemma {:induction false} FirstStaysFirst(commands: seq<CommandRecord>, record: CommandRecord, p: nat,
        other: CommandRecord, d: nat)
    requires FirstAt(commands, record, p) && d <= p
    ensures FirstAt((commands + [other])[d..], record, p - d)
  {
    var t := (commands + [other])[d..];
    assert t[p - d] == commands[p];
    forall i | 0 <= i < p - d ensures t[i].operationId != record.operationId {
      assert t[i] == commands[d + i];
    }
  }

  lemma {:induction false} AnotherIsRemembered(commands: seq<CommandRecord>, record: CommandRecord, n: nat,
        other: CommandRecord)
    requires Remembers(commands, record, n) && n + 1 < MAX_COMMANDS
    ensures Remembers(Recent(commands + [other]), record, n + 1)
  {
    hide Find;
    var p := Find(commands, record.operationId);
    var all := commands + [other];
    var d := if |all| <= MAX_COMMANDS then 0 else |all| - MAX_COMMANDS;
    assert Recent(all) == all[d..];
    FirstStaysFirst(commands, record, p, other, d);
    FindAt(all[d..], record.operationId, p - d);
    hide Recent;
  }

  /** Did this event add a record to the ledger. */
  predicate AddsRecord(s: State, e: Event) {
    IsApplied(s, e) && IsGiven(e.c.operationId)
  }

  /** How many records a run adds to the ledger. */
  function RecordsAdded(s: State, events: seq<Event>): nat {
    if events == [] then 0
    else
      var init := events[..|events| - 1];
      RecordsAdded(s, init) + if AddsRecord(Run(s, init), events[|events| - 1]) then 1 else 0
  }

  lemma {:induction false} RecordStays(s: State, more: seq<Event>, record: CommandRecord)
    requires Remembers(s.commands, record, 0) && RecordsAdded(s, more) < MAX_COMMANDS
    requires forall k :: 0 <= k < |more| ==> !more[k].LedgerLost?
    ensures Remembers(Run(s, more).commands, record, RecordsAdded(s, more))
  {
    hide Remembers, Recent, Decided, Patched;
    if more != [] {
      var init, e := more[..|more| - 1], more[|more| - 1];
      RecordStays(s, init, record);
      var t := Run(s, init);
      if AddsRecord(t, e) {
        AnotherIsRemembered(t.commands, record, RecordsAdded(s, init),
                            CommandRecord(e.c.operationId.value, e.c.mutation, t.revision + 1));
      }
    }
  }

  /** Until 256 more commands were recorded, a command sent again changes nothing and is told its own revision. */
  lemma {:induction false} ReplayTellsTheRevision(s: State, e: Event, more: seq<Event>, again: int)
    requires IsApplied(s, e) && IsGiven(e.c.operationId)
    requires RecordsAdded(Next(s, e), more) < MAX_COMMANDS
    requires forall k :: 0 <= k < |more| ==> !more[k].LedgerLost?
    requires e.c.expiresAt.Some? ==> again < e.c.expiresAt.value + CLOCK_SKEW_MS
    ensures var t := Run(Next(s, e), more);
      && Decided(t, e.c, again, false) == Replay(s.revision + 1)
      && AfterCommand(t, e.c, again, false, false) == t
  {
    hide Patched, Recent;
    AppendedIsRemembered(s.commands, CommandRecord(e.c.operationId.value, e.c.mutation, s.revision + 1));
    RecordStays(Next(s, e), more, CommandRecord(e.c.operationId.value, e.c.mutation, s.revision + 1));
  }

  // ---------------------------------------------------------------------------
  // A lost ledger
  // ---------------------------------------------------------------------------

  /** No record of this operation is in the ledger. */
  predicate IsUnrecorded(commands: seq<CommandRecord>, id: string) {
    forall i :: 0 <= i < |commands| ==> commands[i].operationId != id
  }

  lemma {:induction false} UnrecordedIsNotFound(commands: seq<CommandRecord>, id: string)
    requires IsUnrecorded(commands, id)
    ensures Find(commands, id) == |commands|
  {
    if commands != [] { UnrecordedIsNotFound(commands[1..], id); }
  }

  /** No event of the run records this operation. */
  ghost predicate NeverRecords(s: State, events: seq<Event>, id: string) {
    forall i :: 0 <= i < |events| ==> !Records(Run(s, events[..i]), events[i], id)
  }

  predicate Records(s: State, e: Event, id: string) {
    AddsRecord(s, e) && e.c.operationId == Some(id)
  }

  lemma {:induction false} UnrecordedStep(s: State, e: Event, id: string)
    requires IsUnrecorded(s.commands, id) && !Records(s, e, id)
    ensures IsUnrecorded(Next(s, e).commands, id)
  {
    hide Decided, Patched;
  }

  lemma {:induction false} StaysUnrecorded(s: State, events: seq<Event>, id: string)
    requires IsUnrecorded(s.commands, id) && NeverRecords(s, events, id)
    ensures IsUnrecorded(Run(s, events).commands, id)
  {
    hide Next, IsUnrecorded, Records;
    if events != [] {
      var init, e := events[..|events| - 1], events[|events| - 1];
      assert forall i :: 0 <= i < |init| ==> events[..i] == init[..i] && events[i] == init[i];
      StaysUnrecorded(s, init, id);
      assert !Records(Run(s, events[..|events| - 1]), events[|events| - 1], id);
      UnrecordedStep(Run(s, init), e, id);
    }
  }

  /** What a command must meet besides its base revision: expiry, epoch or freshness, and its grant. */
  predicate RestAdmits(s: State, c: ConfigSet, now: int, grantRefused: bool) {
    && (c.expiresAt.Some? ==> now < c.expiresAt.value + CLOCK_SKEW_MS)
    && (if IsGiven(c.instanceEpoch) then c.instanceEpoch.value == s.epoch else !s.requireFresh)
    && (AsksForGrant(c) ==> !grantRefused)
  }

  /**
   While the ledger is kept, a command that was applied is applied again exactly when it
   named no base revision, its record has left the ledger, and the rest of its guards admit it.
   */
  lemma {:induction false} AppliedAgainExactlyWhen(s: State, e: Event, more: seq<Event>, later: int, grantRefused: bool)
    requires IsApplied(s, e) && IsGiven(e.c.operationId)
    requires forall k :: 0 <= k < |more| ==> !more[k].LedgerLost?
    ensures var t := Run(Next(s, e), more);
      IsApplied(t, Command(e.c, later, grantRefused, false))
      <==> (&& e.c.baseRevision == None && IsUnrecorded(t.commands, e.c.operationId.value)
            && RestAdmits(t, e.c, later, grantRefused))
  {
    hide Patched;
    var id := e.c.operationId.value;
    var t := Run(Next(s, e), more);
    RevisionCountsApplied(Next(s, e), more);
    assert t.revision > s.revision;
    if IsUnrecorded(t.commands, id) {
      UnrecordedIsNotFound(t.commands, id);
    } else {
      RecordedIsFound(t.commands, id);
    }
    hide Run, AppliedIn, Find, IsUnrecorded;
  }

  lemma {:induction false} RecordedIsFound(commands: seq<CommandRecord>, id: string)
    requires !IsUnrecorded(commands, id)
    ensures Find(commands, id) < |commands|
  {
    var i :| 0 <= i < |commands| && commands[i].operationId == id;
    if Find(commands, id) == |commands| { FindNone(commands, id, i); }
  }

  /** The latest records of the ledger, as many as the run added, are of other operations. */
  lemma {:induction false} LatestAreOthers(s: State, events: seq<Event>, id: string)
    requires NeverRecords(s, events, id) && forall k :: 0 <= k < |events| ==> !events[k].LedgerLost?
    ensures var t := Run(s, events).commands;
      var n := RecordsAdded(s, events);
      && (n > 0 ==> |t| <= MAX_COMMANDS)
      && (forall i :: 0 <= i < |t| && |t| - n <= i ==> t[i].operationId != id)
  {
    hide Decided, Patched, Recent;
    if events != [] {
      var init, e := events[..|events| - 1], events[|events| - 1];
      var t := Run(s, init);
      assert forall i :: 0 <= i < |init| ==> events[..i] == init[..i] && events[i] == init[i];
      LatestAreOthers(s, init, id);
      assert !Records(Run(s, events[..|events| - 1]), e, id);
      if AddsRecord(t, e) {
        OneMoreOfOthers(t.commands, RecordsAdded(s, init),
                CommandRecord(e.c.operationId.value, e.c.mutation, t.revision + 1), id);
      }
    }
  }

  lemma {:induction false} OneMoreOfOthers(commands: seq<CommandRecord>, n: nat, record: CommandRecord, id: string)
    requires forall i :: 0 <= i < |commands| && |commands| - n <= i ==> commands[i].operationId != id
    requires record.operationId != id
    ensures var t := Recent(commands + [record]);
      |t| <= MAX_COMMANDS && forall i :: 0 <= i < |t| && |t| - (n + 1) <= i ==> t[i].operationId != id
  {
  }

  /** A record leaves the ledger exactly when 256 more were added. */
  lemma {:induction false} LeavesTheLedgerExactlyWhen(s: State, e: Event, more: seq<Event>)
    requires IsApplied(s, e) && IsGiven(e.c.operationId)
    requires forall k :: 0 <= k < |more| ==> !more[k].LedgerLost?
    requires NeverRecords(Next(s, e), more, e.c.operationId.value)
    ensures IsUnrecorded(Run(Next(s, e), more).commands, e.c.operationId.value)
      <==> RecordsAdded(Next(s, e), more) >= 256
  {
    hide Patched, Recent;
    var id := e.c.operationId.value;
    var record := CommandRecord(id, e.c.mutation, s.revision + 1);
    if RecordsAdded(Next(s, e), more) >= MAX_COMMANDS {
      LatestAreOthers(Next(s, e), more, id);
      hide Run, RecordsAdded, NeverRecords, Next;
    } else {
      AppendedIsRemembered(s.commands, record);
      RecordStays(Next(s, e), more, record);
      hide Run, RecordsAdded, NeverRecords, Next;
    }
  }

  /**
   So, until it is applied again, an applied command is applied again exactly when it named no
   base revision, 256 more commands were recorded, and the rest of its guards admit it.
   */
  lemma {:induction false} AppliedAgainAfter256(s: State, e: Event, more: seq<Event>, later: int, grantRefused: bool)
    requires IsApplied(s, e) && IsGiven(e.c.operationId)
    requires forall k :: 0 <= k < |more| ==> !more[k].LedgerLost?
    requires NeverRecords(Next(s, e), more, e.c.operationId.value)
    ensures var t := Run(Next(s, e), more);
      IsApplied(t, Command(e.c, later, grantRefused, false))
      <==> (&& e.c.baseRevision == None && RecordsAdded(Next(s, e), more) >= MAX_COMMANDS
            && RestAdmits(t, e.c, later, grantRefused))
  {
    LeavesTheLedgerExactlyWhen(s, e, more);
    AppliedAgainExactlyWhen(s, e, more, later, grantRefused);
    hide Run, RecordsAdded, IsUnrecorded, NeverRecords, Next, IsApplied, RestAdmits;
  }

  /** The command passed every check, and its patch was saved, whether or not it was then recorded. */
  predicate GotThrough(s: State, e: Event) {
    e.Command? && Decided(s, e.c, e.now, e.grantRefused).Applied?
  }

  /**
   When the ledger is lost at any time after a command got through, the command is applied
   again at any later point exactly when the rest of its guards admit it and its base revision
   is missing or happens to be the number of commands applied since the last loss.
   */
  lemma {:induction false} LostLedgerAppliesAgain(s: State, e: Event, between: seq<Event>, more: seq<Event>,
        later: int, grantRefused: bool)
    requires GotThrough(s, e) && IsGiven(e.c.operationId)
    requires forall k :: 0 <= k < |more| ==> !more[k].LedgerLost?
    requires NeverRecords(Next(Run(Next(s, e), between), LedgerLost), more, e.c.operationId.value)
    ensures var lost := Next(Run(Next(s, e), between), LedgerLost);
      IsApplied(Run(lost, more), Command(e.c, later, grantRefused, false))
      <==> (&& (e.c.baseRevision == None || e.c.baseRevision == Some(AppliedIn(lost, more)))
            && RestAdmits(Run(lost, more), e.c, later, grantRefused))
  {
    hide Patched;
    var lost := Next(Run(Next(s, e), between), LedgerLost);
    assert lost.commands == [] && lost.revision == 0;
    RevisionCountsApplied(lost, more);
    StaysUnrecorded(lost, more, e.c.operationId.value);
    UnrecordedIsNotFound(Run(lost, more).commands, e.c.operationId.value);
    hide Run, AppliedIn, Find, IsUnrecorded, NeverRecords, Next;
  }

  // ---------------------------------------------------------------------------
  // Commands torn by a crash
  // ---------------------------------------------------------------------------

  /** The patch of the command was saved, and its record was not. */
  predicate IsTorn(s: State, e: Event) {
    e.Command? && e.crash && Decided(s, e.c, e.now, e.grantRefused).Applied?
  }

  /** The runtime that the applied commands of a run make, one after the other. */
  function AppliedRuntime(s: State, events: seq<Event>): Runtime {
    if events == [] then s.runtime
    else
      var init, e := events[..|events| - 1], events[|events| - 1];
      if IsApplied(Run(s, init), e) then Patched(AppliedRuntime(s, init), e.c.mutation) else AppliedRuntime(s, init)
  }

  /** A torn command is followed at once by another try of it that gets as far. */
  ghost predicate TornIsRetried(s: State, events: seq<Event>, i: nat)
    requires i < |events|
  {
    IsTorn(Run(s, events[..i]), events[i]) ==>
      && i + 1 < |events| && events[i + 1].Command? && events[i + 1].c == events[i].c
      && (IsTorn(Run(s, events[..i + 1]), events[i + 1]) || IsApplied(Run(s, events[..i + 1]), events[i + 1]))
  }

  lemma {:induction false} RuntimeStep(s: State, e: Event)
    ensures Next(s, e).runtime
      == if IsApplied(s, e) || IsTorn(s, e) then Patched(s.runtime, e.c.mutation) else s.runtime
  {
    hide Patched, Decided;
  }

  lemma {:induction false} RuntimeOfPrefix(s: State, events: seq<Event>, n: nat)
    requires n <= |events| && forall i :: 0 <= i < |events| ==> TornIsRetried(s, events, i)
    ensures n > 0 && IsTorn(Run(s, events[..n - 1]), events[n - 1]) ==>
      Run(s, events[..n]).runtime == Patched(AppliedRuntime(s, events[..n]), events[n - 1].c.mutation)
    ensures !(n > 0 && IsTorn(Run(s, events[..n - 1]), events[n - 1])) ==>
      Run(s, events[..n]).runtime == AppliedRuntime(s, events[..n])
  {
    hide Next, IsTorn, IsApplied, Patched;
    if n > 0 {
      var init, e := events[..n - 1], events[n - 1];
      assert events[..n][..n - 1] == init;
      RuntimeOfPrefix(s, events, n - 1);
      RuntimeStep(Run(s, init), e);
      TornIsNotApplied(Run(s, init), e);
      if n > 1 && e.Command? {
        assert TornIsRetried(s, events, n - 2);
        PatchTwice(AppliedRuntime(s, init), e.c.mutation);
      }
    }
  }

  lemma {:induction false} TornIsNotApplied(s: State, e: Event)
    ensures !(IsTorn(s, e) && IsApplied(s, e))
    ensures IsTorn(s, e) || IsApplied(s, e) ==> e.Command?
  {
  }

  /**
   The runtime departs from what the applied commands make exactly at a torn command whose patch
   changes a setting.
   */
  lemma {:induction false} DepartsExactlyWhen(s: State, events: seq<Event>, e: Event)
    requires Run(s, events).runtime == AppliedRuntime(s, events)
    ensures Run(s, events + [e]).runtime != AppliedRuntime(s, events + [e])
      <==> IsTorn(Run(s, events), e) && Patched(Run(s, events).runtime, e.c.mutation) != Run(s, events).runtime
  {
    hide Patched, Decided;
    assert (events + [e])[..|events|] == events;
    RuntimeStep(Run(s, events), e);
    TornIsNotApplied(Run(s, events), e);
    hide Next, IsTorn, IsApplied;
  }

  /** If every torn command is tried again at once, the runtime is to the letter what the applied commands make. */
  lemma {:induction false} RetriedAtOnceIsIdentical(s: State, events: seq<Event>)
    requires forall i :: 0 <= i < |events| ==> TornIsRetried(s, events, i)
    ensures Run(s, events).runtime == AppliedRuntime(s, events)
  {
    RuntimeOfPrefix(s, events, |events|);
    assert events[..|events|] == events;
    if events != [] { assert TornIsRetried(s, events, |events| - 1); }
  }

  /** What a torn command left at a place, if no command that got through has written there since. */
  function TornAt(s: State, events: seq<Event>, place: Place): Option<Setting> {
    if events == [] then None
    else
      var init, e := events[..|events| - 1], events[|events| - 1];
      if !GotThrough(Run(s, init), e) || WrittenAt(e.c.mutation, place).None? then TornAt(s, init, place)
      else if e.crash then WrittenAt(e.c.mutation, place)
      else None
  }

  lemma {:induction false} GotThroughIsTornOrApplied(s: State, e: Event)
    ensures GotThrough(s, e) <==> IsTorn(s, e) || IsApplied(s, e)
    ensures GotThrough(s, e) ==> (e.crash <==> IsTorn(s, e)) && (e.crash <==> !IsApplied(s, e))
  {
  }

  /** Every setting is what a torn command left there last, or else what the applied commands made of it. */
  lemma {:induction false} SettingIsTornOrApplied(s: State, events: seq<Event>, place: Place)
    ensures SettingAt(Run(s, events).runtime, place)
      == match TornAt(s, events, place)
         case Some(setting) => setting
         case None => SettingAt(AppliedRuntime(s, events), place)
  {
    hide Next, Decided, Patched, SettingAt, WrittenAt, IsTorn, IsApplied, GotThrough;
    if events != [] {
      var init, e := events[..|events| - 1], events[|events| - 1];
      SettingIsTornOrApplied(s, init, place);
      RuntimeStep(Run(s, init), e);
      GotThroughIsTornOrApplied(Run(s, init), e);
      TornIsNotApplied(Run(s, init), e);
      if e.Command? {
        PatchedAt(Run(s, init).runtime, e.c.mutation, place);
        PatchedAt(AppliedRuntime(s, init), e.c.mutation, place);
      }
    }
  }

  /**
   In any run a setting differs from what the applied commands make of it exactly when a torn
   command wrote something else there and no command that got through has written there since.
   */
  lemma {:induction false} DiffersExactlyWhen(s: State, events: seq<Event>, place: Place)
    ensures SettingAt(Run(s, events).runtime, place) != SettingAt(AppliedRuntime(s, events), place)
      <==> (&& TornAt(s, events, place).Some?
            && TornAt(s, events, place).value != SettingAt(AppliedRuntime(s, events), place))
  {
    SettingIsTornOrApplied(s, events, place);
    hide Run, AppliedRuntime, TornAt, SettingAt;
  }

  /** A torn command is tried again at some later time, and is applied then. */
  ghost predicate TornIsAppliedLater(s: State, events: seq<Event>, i: nat)
    requires i < |events|
  {
    IsTorn(Run(s, events[..i]), events[i]) ==>
      exists j :: i < j < |events| && IsApplied(Run(s, events[..j]), events[j])
        && events[j].c.mutation == events[i].c.mutation
  }

  /** Where a torn command left something, no later command of the same content was applied. */
  lemma {:induction false} TornAtIsLast(s: State, events: seq<Event>, place: Place) returns (i: nat)
    requires TornAt(s, events, place).Some?
    ensures i < |events| && IsTorn(Run(s, events[..i]), events[i])
    ensures events[i].Command? && WrittenAt(events[i].c.mutation, place).Some?
    ensures !TornIsAppliedLater(s, events, i)
  {
    hide Next, IsTorn, IsApplied, Decided, WrittenAt;
    i := 0;
    if events != [] {
      var init, e := events[..|events| - 1], events[|events| - 1];
      GotThroughIsTornOrApplied(Run(s, init), e);
      if !GotThrough(Run(s, init), e) || WrittenAt(e.c.mutation, place).None? {
        i := TornAtIsLast(s, init, place);
        OneMoreAppliesNothing(s, events, i, place);
      } else {
        i := |init|;
      }
    }
  }

  lemma {:induction false} OneMoreAppliesNothing(s: State, events: seq<Event>, i: nat, place: Place)
    requires i < |events| - 1
    requires var init := events[..|events| - 1];
      && events[i].Command? && WrittenAt(events[i].c.mutation, place).Some?
      && IsTorn(Run(s, init[..i]), init[i]) && !TornIsAppliedLater(s, init, i)
    requires var init, e := events[..|events| - 1], events[|events| - 1];
      IsApplied(Run(s, init), e) ==> WrittenAt(e.c.mutation, place).None?
    ensures IsTorn(Run(s, events[..i]), events[i]) && !TornIsAppliedLater(s, events, i)
  {
    hide Run, IsTorn, IsApplied, WrittenAt;
    var init := events[..|events| - 1];
    assert forall j :: 0 <= j < |init| ==> events[..j] == init[..j] && events[j] == init[j];
  }

  /**
   If every torn command is applied at some later time, whatever came between, every setting
   is what the applied commands make of it: only the order of the exclusion list may differ.
   */
  lemma {:induction false} RuntimeIsWhatWasApplied(s: State, events: seq<Event>)
    requires forall i :: 0 <= i < |events| ==> TornIsAppliedLater(s, events, i)
    ensures SameSettings(Run(s, events).runtime, AppliedRuntime(s, events))
  {
    hide Run, AppliedRuntime, TornAt, SettingAt, IsTorn, IsApplied;
    forall place ensures SettingAt(Run(s, events).runtime, place) == SettingAt(AppliedRuntime(s, events), place) {
      SettingIsTornOrApplied(s, events, place);
      if TornAt(s, events, place).Some? {
        var i := TornAtIsLast(s, events, place);
      }
    }
  }

  /** The order of the list may differ: it shows in which order sessions were excluded first. */
  lemma {:induction false} OrderMayDiffer(s: State, first: Event, second: Event, again: Event, a: string, b: string)
    requires s.runtime.excluded == [] && a != "" && b != "" && a != b
    requires IsTorn(s, first) && IsApplied(Next(s, first), second) && IsApplied(Next(Next(s, first), second), again)
    requires first.c.mutation == again.c.mutation
    requires first.c.mutation.excludeSession == Some(a) && first.c.mutation.includeSession == None
    requires second.c.mutation.excludeSession == Some(b) && second.c.mutation.includeSession == None
    ensures Run(s, [first, second, again]).runtime.excluded == [a, b]
    ensures AppliedRuntime(s, [first, second, again]).excluded == [b, a]
  {
    hide Decided;
    var events := [first, second, again];
    assert events[..2] == [first, second] && [first, second][..1] == [first] && [first][..0] == [];
    assert Run(s, [first]) == Next(s, first);
    assert Run(s, [first, second]) == Next(Next(s, first), second);
    assert AppliedRuntime(s, [first]) == s.runtime by { TornIsNotApplied(s, first); }
  }

  /**
   A torn command that named a base revision and is overtaken by another is refused for as long as
   the ledger is kept.
   */
  lemma {:induction false} OvertakenIsRefused(s: State, torn: Event, other: Event, more: seq<Event>, later: int,
        grantRefused: bool)
    requires IsTorn(s, torn) && IsApplied(Next(s, torn), other)
    requires IsGiven(torn.c.operationId) && torn.c.baseRevision.Some?
    requires forall k :: 0 <= k < |more| ==> !more[k].LedgerLost?
    ensures !IsApplied(Run(Next(Next(s, torn), other), more), Command(torn.c, later, grantRefused, false))
  {
    hide Patched;
    var t := Next(Next(s, torn), other);
    RevisionCountsApplied(t, more);
    hide Run, AppliedIn;
  }

  /** No command of the run that got through wrote at this place. */
  ghost predicate NeverWrites(s: State, events: seq<Event>, place: Place) {
    forall i :: 0 <= i < |events| ==> !Writes(Run(s, events[..i]), events[i], place)
  }

  predicate Writes(s: State, e: Event, place: Place) {
    GotThrough(s, e) && WrittenAt(e.c.mutation, place).Some?
  }

  lemma {:induction false} UnwrittenStep(s: State, e: Event, place: Place)
    requires !Writes(s, e, place)
    ensures SettingAt(Next(s, e).runtime, place) == SettingAt(s.runtime, place)
  {
    hide Decided, Patched, SettingAt, WrittenAt;
    RuntimeStep(s, e);
    if e.Command? { PatchedAt(s.runtime, e.c.mutation, place); }
  }

  lemma {:induction false} UnwrittenStays(s: State, events: seq<Event>, place: Place)
    requires NeverWrites(s, events, place)
    ensures SettingAt(Run(s, events).runtime, place) == SettingAt(s.runtime, place)
  {
    hide Next, SettingAt, Writes;
    if events != [] {
      var init, e := events[..|events| - 1], events[|events| - 1];
      assert forall i :: 0 <= i < |init| ==> events[..i] == init[..i] && events[i] == init[i];
      UnwrittenStays(s, init, place);
      assert !Writes(Run(s, events[..|events| - 1]), e, place);
      UnwrittenStep(Run(s, init), e, place);
    }
  }

  /**
   What a torn command wrote stays, even past a lost ledger, until another command writes
   there.
   */
  lemma {:induction false} TornSettingStays(s: State, torn: Event, more: seq<Event>, place: Place)
    requires IsTorn(s, torn) && WrittenAt(torn.c.mutation, place).Some? && NeverWrites(Next(s, torn), more, place)
    ensures SettingAt(Run(Next(s, torn), more).runtime, place) == WrittenAt(torn.c.mutation, place).value
  {
    hide Next, Decided, Patched, SettingAt, WrittenAt;
    RuntimeStep(s, torn);
    PatchedAt(s.runtime, torn.c.mutation, place);
    UnwrittenStays(Next(s, torn), more, place);
  }
}
