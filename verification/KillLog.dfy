/**
 * The audit log tells the kill state: replayed from its first entry it gives
 * exactly the stops in force, their events and the ceremonies spent.
 */
module KillLog {
  import opened Wrappers
  import opened Disk
  import opened KillStateFile
  import opened KillStateStore
  import opened KillSwitch

  /** The global kill's event while it stands, each scoped kill's event, and the ceremonies spent. */
  datatype Told = Told(global: Option<KillEvent>, agents: map<string, KillEvent>, spent: set<string>)

  function Heard(t: Told, entry: AuditEntry): Told {
    match entry
    case KillEntry(e) => t.(global := Some(e))
    case RestoreEntry(auth) => t.(global := None, spent := t.spent + {auth.ceremonyId})
    case AgentKillEntry(a, e) => t.(agents := t.agents[a := e])
    case AgentRestoreEntry(a, auth) => t.(agents := t.agents - {a}, spent := t.spent + {auth.ceremonyId})
  }

  function Replay(log: seq<AuditEntry>): Told {
    if |log| == 0 then Told(None, map[], {}) else Heard(Replay(log[..|log| - 1]), log[|log| - 1])
  }

  function SpentBy(entry: AuditEntry): Option<string> {
    match entry
    case RestoreEntry(auth) => Some(auth.ceremonyId)
    case AgentRestoreEntry(_, auth) => Some(auth.ceremonyId)
    case _ => None
  }

  /** Memory is what its log tells, and no ceremony restored twice. */
  ghost predicate Tells(sw: Switch) {
    && Replay(sw.log) == Told(if sw.killed then sw.lastKill else None, sw.agents, sw.consumed)
    && (sw.killed ==> sw.lastKill.Some?)
    && forall i, j :: 0 <= i < j < |sw.log| && SpentBy(sw.log[i]).Some? ==> SpentBy(sw.log[j]) != SpentBy(sw.log[i])
  }

  // ---- one entry -------------------------------------------------------------------------------------

  lemma {:induction false} SpentIsReplayed(log: seq<AuditEntry>, id: string)
    ensures id in Replay(log).spent <==> exists i :: 0 <= i < |log| && SpentBy(log[i]) == Some(id)
  {
    if |log| > 0 {
      SpentIsReplayed(log[..|log| - 1], id);
    }
  }

  /** One more entry that spends nothing, or something unspent. */
  lemma EntryTells(sw: Switch, entry: AuditEntry, sw': Switch)
    requires Tells(sw) && sw'.log == sw.log + [entry]
    requires SpentBy(entry).Some? ==> SpentBy(entry).value !in sw.consumed
    requires Told(if sw'.killed then sw'.lastKill else None, sw'.agents, sw'.consumed)
             == Heard(Told(if sw.killed then sw.lastKill else None, sw.agents, sw.consumed), entry)
    requires sw'.killed ==> sw'.lastKill.Some?
    ensures Tells(sw')
  {
    assert sw'.log[..|sw'.log| - 1] == sw.log;
    forall i, j | 0 <= i < j < |sw'.log| && SpentBy(sw'.log[i]).Some?
      ensures SpentBy(sw'.log[j]) != SpentBy(sw'.log[i])
    {
      if j == |sw.log| {
        SpentIsReplayed(sw.log, SpentBy(sw.log[i]).value);
        assert SpentBy(sw.log[i]) == Some(SpentBy(sw.log[i]).value);
      }
    }
  }

  /** Entries that put table events back, for as far as they have come. */
  lemma {:induction false} ReseatingTells(log: seq<AuditEntry>, n: nat, table: map<string, KillEvent>)
    requires n <= |log| && Replay(log[..n]).agents == map[] && Replay(log[..n]).spent == {}
    requires forall i :: n <= i < |log| ==>
               log[i].AgentKillEntry? && log[i].agentId in table && log[i].event == table[log[i].agentId]
    ensures Replay(log).global == Replay(log[..n]).global && Replay(log).spent == {}
    ensures forall a :: a in Replay(log).agents ==> a in table && Replay(log).agents[a] == table[a]
    ensures forall a :: a in Replay(log).agents
              <==> exists i :: n <= i < |log| && log[i].AgentKillEntry? && log[i].agentId == a
  {
    if |log| == n {
      assert log[..n] == log;
    } else {
      var front := log[..|log| - 1];
      assert front[..n] == log[..n];
      ReseatingTells(front, n, table);
    }
  }

  lemma ResumedTells(s: PersistedKillState, sw: Switch)
    requires sw == Resumed(s).(log := sw.log) && ReseatedLog(sw.log, s) && s.killed == s.lastKill.Some?
    ensures Tells(sw)
  {
    var head := Resumed(s).log;
    assert sw.log[..|head|] == head;
    assert |head| > 0 ==> head[..|head| - 1] == [];
    ReseatingTells(sw.log, |head|, s.agentKills);
    forall a | a in s.agentKills
      ensures a in Replay(sw.log).agents
    {
      var i :| 0 <= i < |sw.log| && sw.log[i] == AgentKillEntry(a, s.agentKills[a]);
      assert sw.log[i].AgentKillEntry? && i >= |head|;
    }
    assert Replay(sw.log).agents == s.agentKills;
    assert forall i :: 0 <= i < |sw.log| ==> SpentBy(sw.log[i]).None?;
  }

  lemma PersistedTells(sw: Switch, d: KillDir, p: Persisted, sw': Switch, d': KillDir)
    requires PersistSpec(sw, d, p, sw', d') && Tells(sw)
    ensures Tells(sw') && sw'.log == sw.log && sw'.epoch == sw.epoch
  {
  }

  lemma BootTells(
    d: KillDir, io: LoadIo, e: KillEvent, p: Persisted, healed: KillDir, sw': Switch, d': KillDir)
    requires BootSpec(d, io, e, p, healed, sw', d')
    ensures Tells(sw')
  {
    match LoadOf(d, io) {
      case Absent => assert Replay([]) == Told(None, map[], {});
      case Corrupt =>
        assert Tells(Armed);
        EntryTells(Armed, KillEntry(e), Engaged(Armed, e));
      case Loaded(s) =>
        LoadedStateWasPrinted(d.state.visible.value.text);
        ResumedTells(s, sw');
    }
  }

  // ---- the steps, by the entry they add ----------------------------------------------------------------

  /** What a step puts on the log: the scoped kill becomes a global one for a bad id or a full table. */
  function EntryOf(sw: Switch, step: Step): AuditEntry
    requires !step.RestartStep?
  {
    match step
    case EngageStep(e, _) => KillEntry(e)
    case EngageAgentStep(a, e, _) =>
      if IsValidAgentId(a) && (a in sw.agents || |sw.agents| < 64) then AgentKillEntry(a, e) else KillEntry(e)
    case RestoreStep(auth, _) => RestoreEntry(auth)
    case RestoreAgentStep(a, auth, _) => AgentRestoreEntry(a, auth)
  }

  /**
   * Each kill or restore is exactly one entry, and changes memory exactly as a
   * reader of the log would: the stops, their events and the ceremonies spent.
   */
  lemma StepIsItsEntry(w: World, step: Step, w': World)
    requires Next(w, step, w') && !step.RestartStep? && Tells(w.sw)
    ensures w'.sw.log == w.sw.log + [EntryOf(w.sw, step)] && Tells(w'.sw)
    ensures SpentBy(EntryOf(w.sw, step)).Some? ==>
              SpentBy(EntryOf(w.sw, step)).value !in w.sw.consumed + {""}
    ensures w'.sw.epoch == w.sw.epoch + if step.EngageStep? || step.EngageAgentStep? then 1 else 0
  {
    hide PersistSpec, Replay;
    var sw := Moved(w.sw, step);
    MovedByEntry(w, step, w');
    EntryTells(w.sw, EntryOf(w.sw, step), sw);
    PersistedTells(sw, w.dir, step.p, w'.sw, w'.dir);
  }

  /** Memory after the step's own transition, before it is persisted. */
  function Moved(sw: Switch, step: Step): Switch
    requires !step.RestartStep?
  {
    match step
    case EngageStep(e, _) => Engaged(sw, e)
    case EngageAgentStep(a, e, _) => AgentEngaged(sw, a, e)
    case RestoreStep(auth, _) => Restored(sw, auth)
    case RestoreAgentStep(a, auth, _) => AgentRestored(sw, a, auth)
  }

  lemma MovedByEntry(w: World, step: Step, w': World)
    requires Next(w, step, w') && !step.RestartStep?
    ensures var sw, entry := Moved(w.sw, step), EntryOf(w.sw, step);
            && PersistSpec(sw, w.dir, step.p, w'.sw, w'.dir)
            && sw.log == w.sw.log + [entry]
            && (SpentBy(entry).Some? ==> SpentBy(entry).value !in w.sw.consumed + {""})
            && Told(if sw.killed then sw.lastKill else None, sw.agents, sw.consumed)
               == Heard(Told(if w.sw.killed then w.sw.lastKill else None, w.sw.agents, w.sw.consumed), entry)
            && ((w.sw.killed ==> w.sw.lastKill.Some?) ==> sw.killed ==> sw.lastKill.Some?)
            && sw.epoch == w.sw.epoch + if step.EngageStep? || step.EngageAgentStep? then 1 else 0
  {
    hide PersistSpec, IsValidAgentId;
  }

  /**
   * In every reachable world, whatever saves failed, probes lied and processes
   * restarted: what is stopped, and by which event, is what the audit log
   * replays to, and no ceremony on it restored twice.
   */
  lemma {:induction false} LogTellsState(d: KillDir, ws: seq<World>, steps: seq<Step>, i: nat)
    requires Run(d, ws, steps) && i < |ws|
    ensures Tells(ws[i].sw)
  {
    if i == 0 {
      BootTells(d, steps[0].io, steps[0].e, steps[0].p, steps[0].healed, ws[0].sw, ws[0].dir);
    } else {
      LogTellsState(d, ws, steps, i - 1);
      assert Next(ws[i - 1], steps[i], ws[i]);
      if steps[i].RestartStep? {
        BootTells(ws[i - 1].dir, steps[i].io, steps[i].e, steps[i].p, steps[i].healed, ws[i].sw, ws[i].dir);
      } else {
        StepIsItsEntry(ws[i - 1], steps[i], ws[i]);
      }
    }
  }

  /**
   * And the file: after a step whose save was published, what a reader finds
   * there, if it can be read at all, is what the log replays to.
   */
  lemma FileSaysWhatTheLogSays(d: KillDir, ws: seq<World>, steps: seq<Step>, i: nat)
    requires Run(d, ws, steps) && 0 < i < |ws| && !steps[i].RestartStep? && steps[i].p.result.Published?
    ensures var x, t := ws[i].dir.state.visible, Replay(ws[i].sw.log);
            && x.Some?
            && match ReadText(x.value)
               case Loaded(s) =>
                 s.lastKill == t.global && s.killed == t.global.Some? && s.agentKills == t.agents
                 && s.epoch == ws[i].sw.epoch
               case Corrupt => true
               case Absent => false
  {
    LogTellsState(d, ws, steps, i);
    PublishedTells(ws[i - 1], steps[i], ws[i]);
    PrintedLoadsAsItselfOrFails(Document(ws[i].sw));
  }

  lemma PublishedTells(w: World, step: Step, w': World)
    requires Next(w, step, w') && !step.RestartStep? && step.p.result.Published?
    ensures w'.dir.state.visible == Some(FileOf(Document(w'.sw), step.p.size))
  {
    hide SaveSpec;
    PersistPublishes(Moved(w.sw, step), w.dir, step.p, w'.sw, w'.dir);
  }

  lemma PersistPublishes(sw: Switch, d: KillDir, p: Persisted, sw': Switch, d': KillDir)
    requires PersistSpec(sw, d, p, sw', d') && p.result.Published?
    ensures d'.state.visible == Some(FileOf(Document(sw'), p.size))
  {
  }
}
