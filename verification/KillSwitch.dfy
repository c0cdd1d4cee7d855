/**
 * KillSwitch: the global and per-agent kill state, its epoch, and what a
 * process restart makes of it when any save may fail.
 */
module KillSwitch {
  import opened Wrappers
  import opened Disk
  import opened KillStateFile
  import opened KillStateStore

  const MAX_SCOPED_KILL_REASON_CHARS: nat := 128

  datatype RestoreAuthorization = RestoreAuthorization(ceremonyId: string, ownerId: string, completedAt: real)

  datatype AuditEntry =
    | KillEntry(event: KillEvent)
    | RestoreEntry(auth: RestoreAuthorization)
    | AgentKillEntry(agentId: string, event: KillEvent)
    | AgentRestoreEntry(agentId: string, auth: RestoreAuthorization)

  /** The switch's memory. */
  datatype Switch = Switch(
    killed: bool,
    epoch: int,
    log: seq<AuditEntry>,
    consumed: set<string>,
    lastKill: Option<KillEvent>,
    agents: map<string, KillEvent>,
    degraded: bool,
    quarantineFailed: bool)

  const Armed: Switch := Switch(false, 0, [], {}, None, map[], false, false)

  /** What a gateway enforces: does the switch stop this agent? */
  predicate Stops(sw: Switch, agentId: string) {
    sw.killed || agentId in sw.agents
  }

  // ---- reasons -----------------------------------------------------------------

  predicate IsControl(c: char) {
    c <= '\U{1f}' || c == '\U{7f}'
  }

  function Capped(s: string): string {
    if |s| <= MAX_SCOPED_KILL_REASON_CHARS then s else s[..MAX_SCOPED_KILL_REASON_CHARS]
  }

  function SanitizeScopedKillReason(reason: string): (r: string)
    ensures |r| <= MAX_SCOPED_KILL_REASON_CHARS && |r| <= |reason|
    ensures forall i :: 0 <= i < |r| ==>
              r[i] == if reason[i] as int < 32 || reason[i] as int == 127 then ' ' else reason[i]
    ensures |reason| <= MAX_SCOPED_KILL_REASON_CHARS ==> |r| == |reason|
  {
    Capped(seq(|reason|, i requires 0 <= i < |reason| => if IsControl(reason[i]) then ' ' else reason[i]))
  }

  // ---- transitions in memory ------------------------------------------------------

  function Engaged(sw: Switch, e: KillEvent): Switch {
    sw.(epoch := sw.epoch + 1, log := sw.log + [KillEntry(e)], lastKill := Some(e), killed := true)
  }

  /** A bad id, or a full table, escalates to the global kill. */
  predicate Escalates(sw: Switch, agentId: string) {
    || !IsValidAgentId(agentId)
    || (agentId !in sw.agents && |sw.agents| >= MAX_KILLED_AGENTS)
  }

  function AgentEngaged(sw: Switch, agentId: string, e: KillEvent): Switch {
    if Escalates(sw, agentId) then Engaged(sw, e)
    else sw.(epoch := sw.epoch + 1, log := sw.log + [AgentKillEntry(agentId, e)], agents := sw.agents[agentId := e])
  }

  predicate Authorizes(sw: Switch, auth: RestoreAuthorization) {
    auth.ceremonyId != "" && auth.ownerId != "" && auth.ceremonyId !in sw.consumed
  }

  predicate CanRestore(sw: Switch, auth: RestoreAuthorization) {
    sw.killed && Authorizes(sw, auth)
  }

  function Restored(sw: Switch, auth: RestoreAuthorization): Switch {
    sw.(consumed := sw.consumed + {auth.ceremonyId}, log := sw.log + [RestoreEntry(auth)], killed := false)
  }

  predicate CanRestoreAgent(sw: Switch, agentId: string, auth: RestoreAuthorization) {
    agentId in sw.agents && Authorizes(sw, auth)
  }

  function AgentRestored(sw: Switch, agentId: string, auth: RestoreAuthorization): Switch {
    sw.(consumed := sw.consumed + {auth.ceremonyId},
        log := sw.log + [AgentRestoreEntry(agentId, auth)],
        agents := sw.agents - {agentId})
  }

  // ---- persistence ------------------------------------------------------------------

  /** The document persist() writes: lastKill only while killed. */
  function Document(sw: Switch): PersistedKillState {
    PersistedKillState(sw.killed, sw.epoch, if sw.killed then sw.lastKill else None, sw.agents)
  }

  /** How one persist went: the save, and the quarantine after a failed one. */
  datatype Persisted = Persisted(size: nat, result: SaveResult, saved: KillDir, quarantined: bool, honest: bool)

  ghost predicate PersistSpec(sw: Switch, d: KillDir, p: Persisted, sw': Switch, d': KillDir) {
    && SaveSpec(d, FileOf(Document(sw), p.size), p.saved, p.result)
    && match p.result
       case Published(durable) =>
         && d' == p.saved
         && sw' == sw.(degraded := !durable, quarantineFailed := false)
       case Threw =>
         && DegradeSpec(p.saved, d', p.quarantined, p.honest)
         && sw' == sw.(degraded := true, quarantineFailed := !p.quarantined)
  }

  /** What a loaded file puts back into memory. */
  function Resumed(s: PersistedKillState): Switch {
    Armed.(killed := s.killed,
           epoch := s.epoch,
           lastKill := s.lastKill,
           agents := s.agentKills,
           log := (if s.lastKill.Some? then [KillEntry(s.lastKill.value)] else []))
  }

  /** After the global kill's entry, if any: one entry for each scoped kill, in some order. */
  ghost predicate ReseatedLog(log: seq<AuditEntry>, s: PersistedKillState) {
    var head := Resumed(s).log;
    && head <= log
    && (forall i :: |head| <= i < |log| ==>
          && log[i].AgentKillEntry? && log[i].agentId in s.agentKills
          && log[i].event == s.agentKills[log[i].agentId])
    && (forall i, j :: |head| <= i < j < |log| ==> log[i] != log[j])
    && (forall id :: id in s.agentKills ==> AgentKillEntry(id, s.agentKills[id]) in log)
  }

  /** The constructor: absent boots armed, corrupt boots killed, else resume. */
  ghost predicate BootSpec(
    d: KillDir, io: LoadIo, e: KillEvent, p: Persisted, healed: KillDir, sw': Switch, d': KillDir)
  {
    HealSpec(d, healed)
    && match LoadOf(d, io)
       case Absent => sw' == Armed && d' == healed
       case Corrupt => PersistSpec(Engaged(Armed, e), healed, p, sw', d')
       case Loaded(s) => sw' == Resumed(s).(log := sw'.log) && ReseatedLog(sw'.log, s) && d' == healed
  }

  class KillSwitch {
    var killedState: bool
    var epochCounter: int
    var log: seq<AuditEntry>
    var consumedCeremonies: set<string>
    var lastKillEvent: Option<KillEvent>
    var agentKillMap: map<string, KillEvent>
    var degraded: bool
    var quarantineFailedState: bool
    const store: KillStateFileStore

    function Memory(): Switch
      reads this
    {
      Switch(killedState, epochCounter, log, consumedCeremonies, lastKillEvent, agentKillMap,
             degraded, quarantineFailedState)
    }

    function Directory(): KillDir
      reads this, store.volume
    {
      store.volume.Now()
    }

    ghost predicate Valid()
      reads this, store.volume
    {
      Sound(Directory())
    }

    constructor (store: KillStateFileStore, now: real, size: nat)
      requires Sound(store.volume.Now())
      modifies store.volume
      ensures this.store == store && Valid()
      ensures exists io, e, p, healed :: BootSpec(old(store.volume.Now()), io, e, p, healed, Memory(), Directory())
    {
      this.store := store;
      killedState, epochCounter, log, consumedCeremonies := false, 0, [], {};
      lastKillEvent, agentKillMap := None, map[];
      degraded, quarantineFailedState := false, false;
      new;
      ghost var before := store.volume.Now();
      var loaded, io := store.Load();
      ghost var healed := store.volume.Now();
      ghost var p := Persisted(size, Threw, healed, false, true);
      var boot := KillEvent(Api, None, now, false);
      match loaded {
        case Absent =>
        case Corrupt =>
          p := Engage(Api, None, now, false, size);
        case Loaded(s) => Resume(s);
      }
      assert BootSpec(before, io, boot, p, healed, Memory(), Directory());
    }

    /** What a loaded file says is in force again, each kill with its audit entry. */
    method Resume(s: PersistedKillState)
      requires Memory() == Armed
      modifies this
      ensures Memory() == Resumed(s).(log := log) && ReseatedLog(log, s)
    {
      killedState := s.killed;
      epochCounter := s.epoch;
      if s.lastKill.Some? {
        lastKillEvent := s.lastKill;
        log := log + [KillEntry(s.lastKill.value)];
      }
      ReseatAgents(s.agentKills);
    }

    /** Scoped kills come back one by one, each with its audit entry. */
    method ReseatAgents(table: map<string, KillEvent>)
      requires agentKillMap == map[]
      modifies this`agentKillMap, this`log
      ensures agentKillMap == table
      ensures old(log) <= log
      ensures forall i :: |old(log)| <= i < |log| ==>
                && log[i].AgentKillEntry? && log[i].agentId in table && log[i].event == table[log[i].agentId]
      ensures forall i, j :: |old(log)| <= i < j < |log| ==> log[i] != log[j]
      ensures forall id :: id in table ==> AgentKillEntry(id, table[id]) in log
    {
      var left := table.Keys;
      while left != {}
        invariant left <= table.Keys
        invariant agentKillMap.Keys == table.Keys - left
        invariant forall id :: id in agentKillMap ==> agentKillMap[id] == table[id]
        invariant old(log) <= log
        invariant forall i :: |old(log)| <= i < |log| ==>
                && log[i].AgentKillEntry? && log[i].agentId in table.Keys - left
                && log[i].event == table[log[i].agentId]
        invariant forall i, j :: |old(log)| <= i < j < |log| ==> log[i] != log[j]
        invariant forall id :: id in table.Keys - left ==> AgentKillEntry(id, table[id]) in log
      {
        var id :| id in left;
        agentKillMap := agentKillMap[id := table[id]];
        log := log + [AgentKillEntry(id, table[id])];
        left := left - {id};
      }
    }

    method Persist(size: nat) returns (ghost p: Persisted)
      requires Valid()
      modifies this`degraded, this`quarantineFailedState, store.volume
      ensures Valid()
      ensures PersistSpec(old(Memory()), old(Directory()), p, Memory(), Directory())
    {
      var state := Document(Memory());
      var result := store.Save(StateJson(state), size);
      ghost var saved := store.volume.Now();
      if result.Threw? {
        degraded := true;
        var quarantined, honest := store.Degrade();
        quarantineFailedState := !quarantined;
        p := Persisted(size, result, saved, quarantined, honest);
      } else {
        degraded := !result.durable;
        quarantineFailedState := false;
        p := Persisted(size, result, saved, false, true);
      }
    }

    method Engage(source: KillSource, reason: Option<string>, now: real, unauthenticated: bool, size: nat)
      returns (ghost p: Persisted)
      requires Valid()
      modifies this, store.volume
      ensures Valid()
      ensures PersistSpec(Engaged(old(Memory()), KillEvent(source, reason, now, unauthenticated)),
                          old(Directory()), p, Memory(), Directory())
    {
      epochCounter := epochCounter + 1;
      var event := KillEvent(source, reason, now, unauthenticated);
      log := log + [KillEntry(event)];
      lastKillEvent := Some(event);
      killedState := true;
      p := Persist(size);
    }

    method EngageAgent(
      agentId: string, source: KillSource, reason: Option<string>, now: real, unauthenticated: bool, size: nat)
      returns (escalated: bool, ghost e: KillEvent, ghost p: Persisted)
      requires Valid()
      modifies this, store.volume
      ensures Valid()
      ensures escalated == Escalates(old(Memory()), agentId)
      ensures PersistSpec(AgentEngaged(old(Memory()), agentId, e), old(Directory()), p, Memory(), Directory())
      ensures e.source == source && e.at == now && e.unauthenticated == unauthenticated
      ensures !escalated && reason.Some? ==> e.reason == Some(SanitizeScopedKillReason(reason.value))
    {
      hide StateJson;
      var sanitized := if reason.Some? then Some(SanitizeScopedKillReason(reason.value)) else None;
      if !IsValidAgentId(agentId) || (agentId !in agentKillMap && |agentKillMap| >= MAX_KILLED_AGENTS) {
        e := KillEvent(source, sanitized, now, unauthenticated);
        p := Engage(source, sanitized, now, unauthenticated, size);
        return true, e, p;
      }
      epochCounter := epochCounter + 1;
      var event := KillEvent(source, sanitized, now, unauthenticated);
      e := event;
      log := log + [AgentKillEntry(agentId, event)];
      agentKillMap := agentKillMap[agentId := event];
      p := Persist(size);
      escalated := false;
    }

    method Restore(auth: RestoreAuthorization, size: nat) returns (r: Result<()>, ghost p: Persisted)
      requires Valid()
      modifies this, store.volume
      ensures Valid()
      ensures r.Ok? == CanRestore(old(Memory()), auth)
      ensures r.Ok? ==> PersistSpec(Restored(old(Memory()), auth), old(Directory()), p, Memory(), Directory())
      ensures r.Err? ==> Memory() == old(Memory()) && Directory() == old(Directory())
    {
      p := Persisted(size, Threw, Directory(), false, true);
      if !killedState || auth.ceremonyId == "" || auth.ownerId == "" || auth.ceremonyId in consumedCeremonies {
        return Err, p;
      }
      consumedCeremonies := consumedCeremonies + {auth.ceremonyId};
      log := log + [RestoreEntry(auth)];
      killedState := false;
      p := Persist(size);
      r := Ok(());
    }

    method RestoreAgent(agentId: string, auth: RestoreAuthorization, size: nat)
      returns (r: Result<()>, ghost p: Persisted)
      requires Valid()
      modifies this, store.volume
      ensures Valid()
      ensures r.Ok? == CanRestoreAgent(old(Memory()), agentId, auth)
      ensures r.Ok? ==>
                PersistSpec(AgentRestored(old(Memory()), agentId, auth), old(Directory()), p, Memory(), Directory())
      ensures r.Err? ==> Memory() == old(Memory()) && Directory() == old(Directory())
    {
      p := Persisted(size, Threw, Directory(), false, true);
      if agentId !in agentKillMap || auth.ceremonyId == "" || auth.ownerId == ""
         || auth.ceremonyId in consumedCeremonies {
        return Err, p;
      }
      consumedCeremonies := consumedCeremonies + {auth.ceremonyId};
      log := log + [AgentRestoreEntry(agentId, auth)];
      agentKillMap := agentKillMap - {agentId};
      p := Persist(size);
      r := Ok(());
    }
  }

  // ---- runs: transitions, failing saves, restarts ---------------------------------------

  datatype World = World(sw: Switch, dir: KillDir)

  datatype Step =
    | EngageStep(e: KillEvent, p: Persisted)
    | EngageAgentStep(agentId: string, e: KillEvent, p: Persisted)
    | RestoreStep(auth: RestoreAuthorization, p: Persisted)
    | RestoreAgentStep(agentId: string, auth: RestoreAuthorization, p: Persisted)
    | RestartStep(io: LoadIo, e: KillEvent, p: Persisted, healed: KillDir)

  ghost predicate Next(w: World, step: Step, w': World) {
    match step
    case EngageStep(e, p) => PersistSpec(Engaged(w.sw, e), w.dir, p, w'.sw, w'.dir)
    case EngageAgentStep(agentId, e, p) => PersistSpec(AgentEngaged(w.sw, agentId, e), w.dir, p, w'.sw, w'.dir)
    case RestoreStep(auth, p) => CanRestore(w.sw, auth) && PersistSpec(Restored(w.sw, auth), w.dir, p, w'.sw, w'.dir)
    case RestoreAgentStep(agentId, auth, p) =>
      CanRestoreAgent(w.sw, agentId, auth) && PersistSpec(AgentRestored(w.sw, agentId, auth), w.dir, p, w'.sw, w'.dir)
    case RestartStep(io, e, p, healed) => BootSpec(w.dir, io, e, p, healed, w'.sw, w'.dir)
  }

  /** A run starts by booting from whatever directory it finds. */
  ghost predicate Run(d: KillDir, ws: seq<World>, steps: seq<Step>) {
    && |ws| == |steps| && |steps| > 0
    && steps[0].RestartStep?
    && BootSpec(d, steps[0].io, steps[0].e, steps[0].p, steps[0].healed, ws[0].sw, ws[0].dir)
    && forall i :: 0 < i < |steps| ==> Next(ws[i - 1], steps[i], ws[i])
  }

  /** What a restart would find agrees with memory, or would fail closed. */
  ghost predicate DiskBacks(w: World) {
    !w.sw.quarantineFailed ==>
      match w.dir.state.visible
      case None => w.dir.marker.visible.Some? || w.sw == Armed
      case Some(f) => ReadText(f) == Corrupt || ReadText(f) == Loaded(Document(w.sw))
  }

  /** A printed state reads back as itself or not at all. */
  lemma PrintedLoadsAsItselfOrFails(s: PersistedKillState)
    ensures AsPersistedKillState(StateJson(s)) in {None, Some(s)}
  {
    var j := StateJson(s);
    if AsPersistedKillState(j).Some? {
      var r := AsPersistedKillState(j).value;
      LoadedStateWasPrinted(j);
      assert (s.epoch as real).Floor == s.epoch;
      if s.lastKill.Some? {
        EventRoundTrip(s.lastKill.value);
      }
      if |s.agentKills| > 0 {
        assert s.agentKills.Keys == TableJson(s.agentKills).entries.Keys;
        forall id | id in s.agentKills
          ensures r.agentKills[id] == s.agentKills[id]
        {
          EventRoundTrip(s.agentKills[id]);
        }
        assert r.agentKills == s.agentKills;
      } else {
        assert s.agentKills == map[];
      }
    }
  }

  /**
   * Within a process the epoch counts kills: a kill of either kind bumps it
   * by one, stops what it names and un-stops nothing.
   */
  lemma KillBumpsEpoch(w: World, step: Step, w': World)
    requires Next(w, step, w') && (step.EngageStep? || step.EngageAgentStep?)
    ensures w'.sw.epoch == w.sw.epoch + 1 && w'.sw.consumed == w.sw.consumed
    ensures step.EngageStep? ==> w'.sw.killed
    ensures step.EngageAgentStep? ==> Stops(w'.sw, step.agentId)
    ensures forall a :: Stops(w.sw, a) ==> Stops(w'.sw, a)
  {
  }

  /** A restore leaves the epoch alone, lifts one stop, and spends its ceremony. */
  lemma RestoreLiftsOneStop(w: World, step: Step, w': World)
    requires Next(w, step, w') && (step.RestoreStep? || step.RestoreAgentStep?)
    ensures w'.sw.epoch == w.sw.epoch
    ensures step.auth.ceremonyId !in w.sw.consumed
    ensures w'.sw.consumed == w.sw.consumed + {step.auth.ceremonyId}
    ensures step.RestoreStep? ==> w'.sw.agents == w.sw.agents
    ensures step.RestoreAgentStep? ==> w'.sw.killed == w.sw.killed && w'.sw.agents == w.sw.agents - {step.agentId}
  {
  }

  // ---- exactly when a restart keeps every stop ------------------------------------------------

  predicate DocumentStops(s: PersistedKillState, agentId: string) {
    s.killed || agentId in s.agentKills
  }

  /** Did the step run persist()? */
  predicate Persists(before: KillDir, step: Step) {
    step.RestartStep? ==> LoadOf(before, step.io) == Corrupt
  }

  /**
   * The save threw, the unlink failed, and the probe that closes degrade()
   * failed too and so reported quarantine: the old file is still in place.
   */
  predicate Lied(before: KillDir, step: Step) {
    Persists(before, step) && step.p.result.Threw? && step.p.quarantined && !step.p.honest
  }

  /** A lie over a document that lets an agent act whom memory stops. */
  ghost predicate Fooled(before: KillDir, step: Step, sw: Switch) {
    && Lied(before, step)
    && before.state.visible.Some?
    && var stale := ReadText(before.state.visible.value);
       stale.Loaded? && exists a :: Stops(sw, a) && !DocumentStops(stale.state, a)
  }

  /** The directory a run's step found. */
  function Before(d: KillDir, ws: seq<World>, i: nat): KillDir
    requires i <= |ws|
  {
    if i == 0 then d else ws[i - 1].dir
  }

  /** What the directory holds after a persist that did not admit failure. */
  lemma PersistLeaves(sw: Switch, d: KillDir, p: Persisted, w': World)
    requires PersistSpec(sw, d, p, w'.sw, w'.dir) && !w'.sw.quarantineFailed
    ensures w'.dir.marker.visible.Some?
    ensures Document(w'.sw) == Document(sw)
    ensures p.result.Threw? && !p.honest ==> w'.dir.state.visible == d.state.visible
    ensures p.result.Threw? && p.honest ==> w'.dir.state.visible == None
    ensures p.result.Published? ==> w'.dir.state.visible == Some(FileOf(Document(sw), p.size))
  {
  }

  /** The one way a step's own outcome can differ from what a readable restart finds. */
  lemma PersistOutcome(sw: Switch, d: KillDir, p: Persisted, w': World)
    requires PersistSpec(sw, d, p, w'.sw, w'.dir) && !w'.sw.quarantineFailed
    ensures w'.dir.marker.visible.Some?
    ensures var x := w'.dir.state.visible;
            if p.result.Threw? && p.quarantined && !p.honest then x == d.state.visible
            else x == None || ReadText(x.value) in {Corrupt, Loaded(Document(w'.sw))}
  {
    PersistLeaves(sw, d, p, w');
    PrintedLoadsAsItselfOrFails(Document(sw));
  }

  lemma BootOutcome(d: KillDir, io: LoadIo, e: KillEvent, p: Persisted, healed: KillDir, w': World)
    requires BootSpec(d, io, e, p, healed, w'.sw, w'.dir) && LoadOf(d, io) != Corrupt
    ensures var x := w'.dir.state.visible;
            (w'.sw == Armed && x == None) || (x.Some? && ReadText(x.value) == Loaded(Document(w'.sw)))
  {
    if LoadOf(d, io).Loaded? {
      LoadedStateWasPrinted(d.state.visible.value.text);
    }
  }

  /** A step leaves what memory says, or nothing that loads, or (probe lying) what was there. */
  lemma StepOutcome(w: World, step: Step, w': World)
    requires Next(w, step, w') && !w'.sw.quarantineFailed
    ensures Outcome(w.dir, step, w')
  {
    match step {
      case EngageStep(e, p) => PersistOutcome(Engaged(w.sw, e), w.dir, p, w');
      case EngageAgentStep(agentId, e, p) => PersistOutcome(AgentEngaged(w.sw, agentId, e), w.dir, p, w');
      case RestoreStep(auth, p) => PersistOutcome(Restored(w.sw, auth), w.dir, p, w');
      case RestoreAgentStep(agentId, auth, p) => PersistOutcome(AgentRestored(w.sw, agentId, auth), w.dir, p, w');
      case RestartStep(io, e, p, healed) => RestartOutcome(w.dir, step, w');
    }
  }

  lemma RestartOutcome(d: KillDir, step: Step, w': World)
    requires step.RestartStep? && BootSpec(d, step.io, step.e, step.p, step.healed, w'.sw, w'.dir)
    requires !w'.sw.quarantineFailed
    ensures Outcome(d, step, w')
  {
    if LoadOf(d, step.io) == Corrupt {
      PersistOutcome(Engaged(Armed, step.e), step.healed, step.p, w');
    } else {
      BootOutcome(d, step.io, step.e, step.p, step.healed, w');
    }
  }

  ghost predicate Outcome(before: KillDir, step: Step, w': World) {
    var x := w'.dir.state.visible;
    if Persists(before, step) then
      && w'.dir.marker.visible.Some?
      && if Lied(before, step) then x == before.state.visible
         else x == None || ReadText(x.value) in {Corrupt, Loaded(Document(w'.sw))}
    else
      || (w'.sw == Armed && x == None)
      || (x.Some? && ReadText(x.value) == Loaded(Document(w'.sw)))
  }

  /** What a restart stops: everything when it fails closed, else what the document says. */
  lemma RestartStops(d: KillDir, io: LoadIo, e: KillEvent, p: Persisted, healed: KillDir, w': World, a: string)
    requires BootSpec(d, io, e, p, healed, w'.sw, w'.dir)
    ensures Stops(w'.sw, a)
            <==> match LoadOf(d, io)
                 case Absent => false
                 case Corrupt => true
                 case Loaded(s) => DocumentStops(s, a)
  {
  }

  lemma RunOutcome(d: KillDir, ws: seq<World>, steps: seq<Step>, i: nat)
    requires Run(d, ws, steps) && i < |ws| && !ws[i].sw.quarantineFailed
    ensures Outcome(Before(d, ws, i), steps[i], ws[i])
  {
    if i == 0 {
      RestartOutcome(d, steps[0], ws[0]);
    } else {
      assert Next(ws[i - 1], steps[i], ws[i]);
      StepOutcome(ws[i - 1], steps[i], ws[i]);
    }
  }

  /** The lie kept a document that loads, and not memory's. */
  predicate Stale(before: KillDir, step: Step, sw: Switch) {
    && Lied(before, step) && before.state.visible.Some?
    && ReadText(before.state.visible.value) !in {Corrupt, Loaded(Document(sw))}
  }

  /**
   * In every reachable world the directory backs memory, or would fail closed,
   * exactly when quarantine is admitted to have failed or the last step left
   * no stale document behind a lie.
   */
  lemma RunBacks(d: KillDir, ws: seq<World>, steps: seq<Step>, i: nat)
    requires Run(d, ws, steps) && i < |ws|
    ensures DiskBacks(ws[i]) <==> ws[i].sw.quarantineFailed || !Stale(Before(d, ws, i), steps[i], ws[i].sw)
  {
    if !ws[i].sw.quarantineFailed {
      RunOutcome(d, ws, steps, i);
    }
  }

  /**
   * In any run, whatever failed and whatever lied before: after any state that
   * did not admit failed quarantine, a restart keeps every stop in force if and
   * only if the file could not be read, or the step before was not fooled and
   * the restart's own probe, where it needs one, sees the marker.
   */
  lemma KillSurvivesExactly(
    d: KillDir, ws: seq<World>, steps: seq<Step>, i: nat, io: LoadIo, e: KillEvent, p: Persisted, healed: KillDir,
    w': World)
    requires Run(d, ws, steps) && i < |ws|
    requires var w := ws[i]; !w.sw.quarantineFailed && BootSpec(w.dir, io, e, p, healed, w'.sw, w'.dir)
    ensures var w := ws[i];
            (forall a :: Stops(w.sw, a) ==> Stops(w'.sw, a))
            <==> || !io.readable
                 || (&& !Fooled(Before(d, ws, i), steps[i], w.sw)
                     && (w.dir.state.visible.Some? || io.honest || forall a :: !Stops(w.sw, a)))
  {
    var w, before := ws[i], Before(d, ws, i);
    RunOutcome(d, ws, steps, i);
    forall a
      ensures Stops(w'.sw, a)
              <==> match LoadOf(w.dir, io)
                   case Absent => false
                   case Corrupt => true
                   case Loaded(s) => DocumentStops(s, a)
    {
      RestartStops(w.dir, io, e, p, healed, w', a);
    }
    KeptExactly(before, steps[i], w, io, w'.sw);
  }

  predicate SameKills(sw: Switch, sw': Switch) {
    sw'.killed == sw.killed && sw'.epoch == sw.epoch && sw'.agents == sw.agents
  }

  /** What the lie left in place, as a restart reads it. */
  function LeftBehind(before: KillDir): Switch {
    if before.state.visible.Some? && ReadText(before.state.visible.value).Loaded?
    then Resumed(ReadText(before.state.visible.value).state) else Armed
  }

  /**
   * A restart comes back globally killed or with the same killed flag, epoch
   * and scoped kills, exactly when it fails closed, or reads a document that a
   * lie did not make stale, or has nothing to bring back.
   */
  lemma KillSurvivesRestart(
    d: KillDir, ws: seq<World>, steps: seq<Step>, i: nat, io: LoadIo, e: KillEvent, p: Persisted, healed: KillDir,
    w': World)
    requires Run(d, ws, steps) && i < |ws|
    requires var w := ws[i]; !w.sw.quarantineFailed && BootSpec(w.dir, io, e, p, healed, w'.sw, w'.dir)
    ensures var w, before := ws[i], Before(d, ws, i);
            w'.sw.killed || SameKills(w.sw, w'.sw)
            <==> match LoadOf(w.dir, io)
                 case Corrupt => true
                 case Absent => SameKills(w.sw, Armed)
                 case Loaded(_) =>
                   || !Lied(before, steps[i])
                   || LeftBehind(before).killed || SameKills(w.sw, LeftBehind(before))
  {
    RunOutcome(d, ws, steps, i);
  }

  /**
   * And its epoch: one when it fails closed, zero when it takes the directory
   * for a first boot, the stale document's after a lie, and otherwise the
   * epoch it had. It is kept exactly when that is the same number.
   */
  lemma EpochAcrossRestart(
    d: KillDir, ws: seq<World>, steps: seq<Step>, i: nat, io: LoadIo, e: KillEvent, p: Persisted, healed: KillDir,
    w': World)
    requires Run(d, ws, steps) && i < |ws|
    requires var w := ws[i]; !w.sw.quarantineFailed && BootSpec(w.dir, io, e, p, healed, w'.sw, w'.dir)
    ensures var w, before := ws[i], Before(d, ws, i);
            w'.sw.epoch == match LoadOf(w.dir, io)
                           case Corrupt => 1
                           case Absent => 0
                           case Loaded(_) => if Lied(before, steps[i]) then LeftBehind(before).epoch else w.sw.epoch
    ensures var w, before := ws[i], Before(d, ws, i);
            w'.sw.epoch == w.sw.epoch
            <==> match LoadOf(w.dir, io)
                 case Corrupt => w.sw.epoch == 1
                 case Absent => w.sw.epoch == 0
                 case Loaded(_) => Lied(before, steps[i]) ==> LeftBehind(before).epoch == w.sw.epoch
  {
    RunOutcome(d, ws, steps, i);
  }

  lemma KeptExactly(before: KillDir, step: Step, w: World, io: LoadIo, sw': Switch)
    requires Outcome(before, step, w)
    requires forall a :: Stops(sw', a)
                         <==> match LoadOf(w.dir, io)
                              case Absent => false
                              case Corrupt => true
                              case Loaded(s) => DocumentStops(s, a)
    ensures (forall a :: Stops(w.sw, a) ==> Stops(sw', a))
            <==> || !io.readable
                 || (&& !Fooled(before, step, w.sw)
                     && (w.dir.state.visible.Some? || io.honest || forall a :: !Stops(w.sw, a)))
  {
    forall a
      ensures DocumentStops(Document(w.sw), a) <==> Stops(w.sw, a)
    {
    }
  }

  // ---- a run that loses a kill ---------------------------------------------------------------

  function Durable(s: PersistedKillState): KillDir {
    var n := KillStateStore.MARKER_NOTE_BYTES;
    var f, m := Some(FileOf(s, 100)), Some(File((), n, n, true));
    Dir(Entry(f, {f}), Entry(m, {m}))
  }

  const Blank: KillDir := Dir(Entry(None, {None}), Entry(None, {None}))

  /** Any directory takes a durable save. */
  lemma SavesDurably(d: KillDir, sw: Switch, d': KillDir, p: Persisted)
    requires Sound(d)
    requires d' == Durable(Document(sw)) && p == Persisted(100, Published(true), d', false, true)
    ensures PersistSpec(sw, d, p, sw.(degraded := false, quarantineFailed := false), d')
  {
  }

  /** Every call of this save and of the quarantine after it fails, and so does the closing probe. */
  lemma FailsSilently(d: KillDir, stale: PersistedKillState, sw: Switch, p: Persisted)
    requires d == Durable(stale) && Loadable(stale) && p == Persisted(100, Threw, d, true, false)
    ensures PersistSpec(sw, d, p, sw.(degraded := true, quarantineFailed := false), d)
    ensures LoadOf(d, LoadIo(true, true)) == Loaded(stale)
  {
    DegradeFooledByProbe(d, stale, 100);
  }

  lemma ReadsBack(d: KillDir, e: KillEvent, p: Persisted, s: PersistedKillState)
    requires Sound(d) && LoadOf(d, LoadIo(true, true)) == Loaded(s) && s.agentKills == map[]
    ensures BootSpec(d, LoadIo(true, true), e, p, d, Resumed(s), d)
  {
  }

  lemma FourSteps(d: KillDir, w0: World, w1: World, w2: World, w3: World, s0: Step, s1: Step, s2: Step, s3: Step)
    requires s0.RestartStep? && BootSpec(d, s0.io, s0.e, s0.p, s0.healed, w0.sw, w0.dir)
    requires Next(w0, s1, w1) && Next(w1, s2, w2) && Next(w2, s3, w3)
    ensures Run(d, [w0, w1, w2, w3], [s0, s1, s2, s3])
  {
    hide Next, BootSpec;
    var ws, steps := [w0, w1, w2, w3], [s0, s1, s2, s3];
    forall i | 0 < i < |steps|
      ensures Next(ws[i - 1], steps[i], ws[i])
    {
      if i == 1 {
      } else if i == 2 {
      } else {
        assert i == 3;
      }
    }
  }

  /** A kill and its restore, both saved durably. */
  lemma KilledAndRestored(e: KillEvent, auth: RestoreAuthorization)
    returns (w0: World, w1: World, w2: World, s0: Step, s1: Step, s2: Step)
    requires auth.ceremonyId != "" && auth.ownerId != ""
    ensures s0.RestartStep? && BootSpec(Blank, s0.io, s0.e, s0.p, s0.healed, w0.sw, w0.dir)
    ensures Next(w0, s1, w1) && Next(w1, s2, w2)
    ensures w2.sw == Restored(Engaged(Armed, e), auth) && w2.dir == Durable(Document(w2.sw))
  {
    hide Durable;
    var sw1 := Engaged(Armed, e);
    var sw2 := Restored(sw1, auth);
    var d1, d2 := Durable(Document(sw1)), Durable(Document(sw2));
    var p1, p2 := Persisted(100, Published(true), d1, false, true), Persisted(100, Published(true), d2, false, true);
    SavesDurably(Blank, sw1, d1, p1);
    DurableIsSound(Document(sw1));
    SavesDurably(d1, sw2, d2, p2);
    s0 := RestartStep(LoadIo(true, true), e, Persisted(100, Threw, Blank, false, true), Blank);
    w0, w1, w2, s1, s2 := World(Armed, Blank), World(sw1, d1), World(sw2, d2), EngageStep(e, p1), RestoreStep(auth, p2);
  }

  lemma DurableIsSound(s: PersistedKillState)
    ensures Sound(Durable(s))
  {
  }

  /** The next kill is neither saved nor quarantined, the probe lies, and a restart reads the old state. */
  lemma KillGoesUnsaved(w: World, e: KillEvent) returns (step: Step, w': World, boot: Step, w'': World)
    requires w.dir == Durable(Document(w.sw)) && Loadable(Document(w.sw)) && w.sw.agents == map[] && !w.sw.killed
    ensures Next(w, step, w') && w'.sw.killed && !w'.sw.quarantineFailed
    ensures boot.RestartStep? && boot.io == LoadIo(true, true) && Next(w', boot, w'') && !w''.sw.killed
  {
    var stale := Document(w.sw);
    var p := Persisted(100, Threw, w.dir, true, false);
    FailsSilently(w.dir, stale, Engaged(w.sw, e), p);
    step, w' := EngageStep(e, p), World(Engaged(w.sw, e).(degraded := true, quarantineFailed := false), w.dir);
    DurableIsSound(stale);
    ReadsBack(w.dir, e, p, stale);
    boot, w'' := RestartStep(LoadIo(true, true), e, p, w.dir), World(Resumed(stale), w.dir);
  }

  /**
   * A run that loses a kill: boot, kill, restore, and a second kill whose save
   * fails, with the unlink and the stat that close degrade() failing as well.
   * The switch reports quarantine; the restart reads the restored state.
   */
  lemma LyingProbeLosesKill(e: KillEvent, auth: RestoreAuthorization)
    returns (ws: seq<World>, steps: seq<Step>, boot: Step, w': World)
    requires auth.ceremonyId != "" && auth.ownerId != ""
    ensures Run(Blank, ws, steps) && |ws| == 4
    ensures ws[3].sw.killed && !ws[3].sw.quarantineFailed
    ensures boot.RestartStep? && boot.io == LoadIo(true, true) && Next(ws[3], boot, w')
    ensures !w'.sw.killed
  {
    hide Next, BootSpec, Durable;
    var w0, w1, w2, s0, s1, s2 := KilledAndRestored(e, auth);
    var s3, w3;
    s3, w3, boot, w' := KillGoesUnsaved(w2, e);
    FourSteps(Blank, w0, w1, w2, w3, s0, s1, s2, s3);
    ws, steps := [w0, w1, w2, w3], [s0, s1, s2, s3];
  }

  /** A save that threw, and a quarantine after it that truly removed the file. */
  lemma FailsClosed(s: PersistedKillState, sw: Switch) returns (p: Persisted, d': KillDir)
    ensures Sound(d') && LoadOf(d', LoadIo(true, true)) == Corrupt && p.honest
    ensures PersistSpec(sw, Durable(s), p, sw.(degraded := true, quarantineFailed := false), d')
  {
    var d := Durable(s);
    d' := Dir(Entry(None, {None}), d.marker);
    p := Persisted(100, Threw, d, true, true);
  }

  lemma ThreeSteps(d: KillDir, w0: World, w1: World, w2: World, s0: Step, s1: Step, s2: Step)
    returns (ws: seq<World>, steps: seq<Step>)
    requires s0.RestartStep? && BootSpec(d, s0.io, s0.e, s0.p, s0.healed, w0.sw, w0.dir)
    requires Next(w0, s1, w1) && Next(w1, s2, w2)
    ensures Run(d, ws, steps) && |ws| == 3 && ws[2] == w2 && steps[0] == s0 && steps[1] == s1 && steps[2] == s2
  {
    hide Next, BootSpec;
    ws, steps := [w0, w1, w2], [s0, s1, s2];
    forall i | 0 < i < |steps|
      ensures Next(ws[i - 1], steps[i], ws[i])
    {
      if i == 1 {
      } else {
        assert i == 2;
      }
    }
  }

  /**
   * A run with every probe honest whose restart lowers the epoch: two kills,
   * the second one's save failing and its quarantine succeeding. The restart
   * is killed, at epoch one.
   */
  lemma EpochFalls(e: KillEvent) returns (ws: seq<World>, steps: seq<Step>, boot: Step, w': World)
    ensures Run(Blank, ws, steps) && |ws| == 3
    ensures (forall i :: 0 <= i < 3 ==> steps[i].p.honest) && !ws[2].sw.quarantineFailed && ws[2].sw.epoch == 2
    ensures boot.RestartStep? && boot.io == LoadIo(true, true) && boot.p.honest && Next(ws[2], boot, w')
    ensures w'.sw.killed && w'.sw.epoch == 1
  {
    hide Document;
    var none := Persisted(100, Threw, Blank, false, true);
    var sw1 := Engaged(Armed, e);
    var d1 := Durable(Document(sw1));
    var p1 := Persisted(100, Published(true), d1, false, true);
    SavesDurably(Blank, sw1, d1, p1);
    var p2, d2 := FailsClosed(Document(sw1), Engaged(sw1, e));
    var w2 := World(Engaged(sw1, e).(degraded := true), d2);
    var s0 := RestartStep(LoadIo(true, true), e, none, Blank);
    ws, steps := ThreeSteps(Blank, World(Armed, Blank), World(sw1, d1), w2, s0, EngageStep(e, p1), EngageStep(e, p2));
    SavesDurably(d2, sw1, d1, p1);
    boot, w' := RestartStep(LoadIo(true, true), e, p1, d2), World(sw1, d1);
  }
}
