/**
 * Restores over whole runs: every un-kill is earned by one ceremony of the
 * same scope and owner, after its cooldown, with no kill in between.
 */
module ProtocolCeremonies {
  import opened Wrappers
  import opened VetoWindows
  import opened Protocol
  import opened ProtocolWindows
  import opened ProtocolGrants
  import TwoGo

  ghost predicate StartedAt(h: seq<Fact>, j: int, id: string, r: CeremonyRecord) {
    0 <= j < |h| && h[j] == CeremonyStarted(r.ceremony.startedAt, id, r.ceremony.ownerId, r.agentId)
  }

  /** A ceremony record is backed by its start; its epoch is current only if no kill came since. */
  ghost predicate RecordOk(h: seq<Fact>, epoch: int, clock: int, id: string, r: CeremonyRecord) {
    && r.epoch <= epoch
    && (r.ceremony.status.Ready? ==> clock - r.ceremony.startedAt >= TwoGo.COOLDOWN_MS)
    && exists j :: StartedAt(h, j, id, r) && (r.epoch == epoch ==> KillFree(h, j))
  }

  ghost predicate MintedAt(h: seq<Fact>, k: int, id: string, c: RestoreChallenge) {
    0 <= k < |h| && h[k] == RestoreChallengeMinted(c.expiresAt - RESTORE_CHALLENGE_TTL_MS, id, c.challenge)
  }

  /** A pending GO 2/2 challenge was minted for this ceremony after its cooldown. */
  ghost predicate Go2Ok(
    h: seq<Fact>, epoch: int, records: map<string, CeremonyRecord>, id: string, c: RestoreChallenge)
  {
    && id in records
    && c.killEpoch == epoch
    && c.expiresAt - RESTORE_CHALLENGE_TTL_MS - records[id].ceremony.startedAt >= TwoGo.COOLDOWN_MS
    && exists k :: MintedAt(h, k, id, c) && KillFree(h, k)
  }

  predicate Completed(records: map<string, CeremonyRecord>, id: string) {
    id in records && records[id].ceremony.status.Completed?
  }

  /** The map never holds two records for one owner and scope. */
  predicate OnePerScope(cs: Ceremonies) {
    && cs.live <= cs.records.Keys
    && forall a, b :: a in cs.live && b in cs.live && a != b ==>
         || cs.records[a].ceremony.ownerId != cs.records[b].ceremony.ownerId
         || cs.records[a].agentId != cs.records[b].agentId
  }

  /** The ceremony a restore spends: same scope and owner, 30 s to 5 min old, no kill since. */
  ghost predicate StartBacks(h: seq<Fact>, j: int, i: int)
    requires 0 <= i < |h| && h[i].Restored?
  {
    && NoKillBetween(h, j, i)
    && h[j].CeremonyStarted?
    && h[j].ceremonyId == h[i].ceremonyId && h[j].owner == h[i].owner && h[j].agentId == h[i].agentId
    && TwoGo.COOLDOWN_MS <= h[i].at - h[j].at < TwoGo.TTL_MS
  }

  /** With a passkey enrolled: the signed challenge, minted once the ceremony was ready. */
  ghost predicate ChallengeBacks(h: seq<Fact>, k: int, i: int)
    requires 0 <= i < |h| && h[i].Restored?
  {
    && NoKillBetween(h, k, i)
    && h[k].RestoreChallengeMinted?
    && h[k].ceremonyId == h[i].ceremonyId && h[i].signed == Some(h[k].challenge)
    && h[i].at - h[k].at < RESTORE_CHALLENGE_TTL_MS
  }

  ghost predicate RestoreBacked(cfg: Config, h: seq<Fact>, i: int)
    requires 0 <= i < |h| && h[i].Restored?
  {
    && (exists j :: StartBacks(h, j, i))
    && (cfg.passkey ==> exists k :: ChallengeBacks(h, k, i))
  }

  ghost predicate OnceOnly(h: seq<Fact>, i: int)
    requires 0 <= i < |h| && h[i].Restored?
  {
    forall k :: 0 <= k < |h| && k != i && h[k].Restored? ==> h[k].ceremonyId != h[i].ceremonyId
  }

  ghost predicate CeremoniesInv(s: State) {
    && OnePerScope(s.ceremonies)
    && (forall id :: id in s.ceremonies.records ==>
          RecordOk(s.history, s.kill.epoch, s.clock, id, s.ceremonies.records[id]))
    && (forall id :: id in s.ceremonies.challenges ==>
          Go2Ok(s.history, s.kill.epoch, s.ceremonies.records, id, s.ceremonies.challenges[id]))
    && (forall id :: id in s.kill.consumed ==> Completed(s.ceremonies.records, id))
  }

  ghost predicate RestoreTraceInv(s: State) {
    forall i :: 0 <= i < |s.history| && s.history[i].Restored? ==>
      && RestoreBacked(s.cfg, s.history, i)
      && OnceOnly(s.history, i)
      && Completed(s.ceremonies.records, s.history[i].ceremonyId)
  }

  // ---- everything but ceremony handlers leaves ceremonies alone ----------------------------

  ghost predicate Steady(s: State, s': State) {
    && s'.cfg == s.cfg && s'.clock == s.clock && s'.kill.consumed == s.kill.consumed
    && s'.ceremonies.records == s.ceremonies.records && s'.ceremonies.live == s.ceremonies.live
    && (s'.ceremonies.challenges == s.ceremonies.challenges || s'.ceremonies.challenges == map[])
    && s.kill.epoch <= s'.kill.epoch && (s.kill.killed ==> s'.kill.killed) && s.kill.agents <= s'.kill.agents
    && (s'.kill.epoch == s.kill.epoch
        || (s'.ceremonies.challenges == map[] && !KillFree(s'.history, |s.history|)))
    && (s'.kill.epoch == s.kill.epoch ==> s'.kill.agents == s.kill.agents && s'.kill.killed == s.kill.killed)
    && |s.history| <= |s'.history| && s'.history[..|s.history|] == s.history
    && (forall i :: |s.history| <= i < |s'.history| ==>
          !s'.history[i].Restored? && !s'.history[i].CeremonyStarted?
          && (s.kill.epoch == s'.kill.epoch ==> !s'.history[i].Killed?))
  }

  lemma SteadyComposes(s: State, t: State, u: State)
    requires Steady(s, t) && Steady(t, u)
    ensures Steady(s, u)
  {
    assert forall k :: 0 <= k < |s.history| ==> u.history[k] == t.history[k] == s.history[k];
    assert u.history[..|s.history|] == s.history;
  }

  lemma RecordStays(
    h: seq<Fact>, h': seq<Fact>, epoch: int, epoch': int, clock: int, clock': int, id: string, r: CeremonyRecord)
    requires RecordOk(h, epoch, clock, id, r) && epoch <= epoch' && clock <= clock'
    requires |h| <= |h'| && h'[..|h|] == h
    requires epoch == epoch' ==> forall i :: |h| <= i < |h'| ==> !h'[i].Killed?
    ensures RecordOk(h', epoch', clock', id, r)
  {
    var j :| StartedAt(h, j, id, r) && (r.epoch == epoch ==> KillFree(h, j));
    assert forall i :: 0 <= i < |h| ==> h'[i] == h[i];
    assert StartedAt(h', j, id, r);
  }

  lemma Go2Stays(
    h: seq<Fact>, h': seq<Fact>, epoch: int, epoch': int, rs: map<string, CeremonyRecord>,
    rs': map<string, CeremonyRecord>, id: string, c: RestoreChallenge)
    requires Go2Ok(h, epoch, rs, id, c) && epoch == epoch'
    requires |h| <= |h'| && h'[..|h|] == h
    requires forall i :: |h| <= i < |h'| ==> !h'[i].Killed?
    requires id in rs' && rs'[id].ceremony.startedAt == rs[id].ceremony.startedAt
    ensures Go2Ok(h', epoch', rs', id, c)
  {
    var k :| MintedAt(h, k, id, c) && KillFree(h, k);
    assert forall i :: 0 <= i < |h| ==> h'[i] == h[i];
    assert MintedAt(h', k, id, c);
  }

  lemma BackingStays(cfg: Config, h: seq<Fact>, h': seq<Fact>, i: int)
    requires 0 <= i < |h| <= |h'| && h'[..|h|] == h && h[i].Restored? && RestoreBacked(cfg, h, i)
    ensures h'[i].Restored? && RestoreBacked(cfg, h', i)
  {
    assert forall k :: 0 <= k < |h| ==> h'[k] == h[k];
    var j :| StartBacks(h, j, i);
    assert StartBacks(h', j, i);
    if cfg.passkey {
      var k :| ChallengeBacks(h, k, i);
      assert ChallengeBacks(h', k, i);
    }
  }

  lemma SteadyKeepsCeremonies(s: State, s': State)
    requires CeremoniesInv(s) && Steady(s, s')
    ensures CeremoniesInv(s')
  {
    forall id | id in s'.ceremonies.records
      ensures RecordOk(s'.history, s'.kill.epoch, s'.clock, id, s'.ceremonies.records[id])
    {
      RecordStays(s.history, s'.history, s.kill.epoch, s'.kill.epoch, s.clock, s'.clock, id, s.ceremonies.records[id]);
    }
    forall id | id in s'.ceremonies.challenges
      ensures Go2Ok(s'.history, s'.kill.epoch, s'.ceremonies.records, id, s'.ceremonies.challenges[id])
    {
      Go2Stays(s.history, s'.history, s.kill.epoch, s'.kill.epoch, s.ceremonies.records, s'.ceremonies.records,
               id, s.ceremonies.challenges[id]);
    }
  }

  /** The trace keeps its backing when no restore is logged and no ceremony un-completes. */
  lemma TraceKept(s: State, s': State)
    requires RestoreTraceInv(s) && s'.cfg == s.cfg
    requires |s.history| <= |s'.history| && s'.history[..|s.history|] == s.history
    requires forall i :: |s.history| <= i < |s'.history| ==> !s'.history[i].Restored?
    requires forall id :: Completed(s.ceremonies.records, id) ==> Completed(s'.ceremonies.records, id)
    ensures RestoreTraceInv(s')
  {
    assert forall k :: 0 <= k < |s.history| ==> s'.history[k] == s.history[k];
    forall i | 0 <= i < |s'.history| && s'.history[i].Restored?
      ensures RestoreBacked(s'.cfg, s'.history, i) && OnceOnly(s'.history, i)
      ensures Completed(s'.ceremonies.records, s'.history[i].ceremonyId)
    {
      BackingStays(s.cfg, s.history, s'.history, i);
      assert OnceOnly(s.history, i);
    }
  }

  // ---- steady handlers ------------------------------------------------------------------------

  lemma EngageSteady(s: State, agentId: Option<string>, persistLost: bool)
    ensures Steady(s, Engage(s, agentId, persistLost))
  {
    assert Engage(s, agentId, persistLost).history[|s.history|].Killed?;
  }

  lemma SeveredSteady(s: State, id: string)
    requires id in s.lane.devices
    ensures Steady(s, Severed(s, id))
  {
  }

  lemma ExportedSteady(s: State, exported: bool, persistLost: bool)
    ensures Steady(s, Exported(s, exported, persistLost))
  {
    EngageSteady(s.(lane := s.lane.(quarantined := true)), None, persistLost);
  }

  lemma {:induction false} SupersededSteady(s: State, aliases: seq<string>)
    ensures Steady(s, Superseded(s, aliases))
    decreases |aliases|
  {
    if |aliases| > 0 {
      var n := |aliases| - 1;
      var before := Superseded(s, aliases[..n]);
      SupersededSteady(s, aliases[..n]);
      if Supersedable(before, aliases[n]) {
        SeveredSteady(before, aliases[n]);
        SteadyComposes(s, before, Severed(before, aliases[n]));
      }
    }
  }

  lemma CleansedSteady(s: State, id: string)
    ensures Steady(s, Cleansed(s, id))
  {
  }

  lemma SeveredExportedSteady(s: State, id: string, exported: bool, persistLost: bool)
    requires id in s.lane.devices
    ensures Steady(s, Exported(Severed(s, id), exported, persistLost))
  {
    SeveredSteady(s, id);
    ExportedSteady(Severed(s, id), exported, persistLost);
    SteadyComposes(s, Severed(s, id), Exported(Severed(s, id), exported, persistLost));
  }

  lemma CleansedExportedSteady(s: State, id: string, exported: bool, persistLost: bool)
    ensures Steady(s, Exported(Cleansed(s, id), exported, persistLost))
  {
    CleansedSteady(s, id);
    ExportedSteady(Cleansed(s, id), exported, persistLost);
    SteadyComposes(s, Cleansed(s, id), Exported(Cleansed(s, id), exported, persistLost));
  }

  lemma RevokeStaticSteady(s: State, id: string, exported: bool, persistLost: bool)
    ensures Steady(s, DoRevokeStatic(s, id, exported, persistLost).0)
  {
    RevokeStaticOutcomes(s, id, exported, persistLost);
    if id in s.lane.devices {
      SeveredExportedSteady(s, id, exported, persistLost);
    }
  }

  lemma RevokeEnrolledSteady(s: State, id: string, published: bool, exported: bool, persistLost: bool)
    ensures Steady(s, DoRevokeEnrolled(s, id, published, exported, persistLost).0)
  {
    RevokeEnrolledOutcomes(s, id, published, exported, persistLost);
    CleansedExportedSteady(s, id, exported, persistLost);
    EngageSteady(s.(lane := Unresolved(s.lane)), None, persistLost);
    if id in s.lane.devices {
      SeveredExportedSteady(s, id, exported, persistLost);
    }
  }

  lemma AdmitSteady(s: State, e: Event)
    requires e.Admit?
    ensures Steady(s, Handle(s, e).0)
  {
    hide HandleWindows, HandleApprovals, HandleSwitch, Superseded, Exported;
    var s1 := s.(lane := s.lane.(devices := s.lane.devices[e.deviceId := Device(1, None, true, true)]));
    SupersededSteady(s1, e.aliases);
    var s2 := Superseded(s1, e.aliases);
    ExportedSteady(s2, false, e.persistLost);
    SteadyComposes(s1, s2, Exported(s2, false, e.persistLost));
  }

  lemma DetailSteady(s: State, e: Event)
    requires e.Detail?
    ensures Steady(s, Handle(s, e).0)
  {
    hide HandleApprovals, HandleSwitch, HandleDevices;
  }

  lemma RegisterSteady(s: State, e: Event)
    requires e.Register? || e.Veto?
    ensures Steady(s, Handle(s, e).0)
  {
    hide HandleApprovals, HandleSwitch, HandleDevices;
  }

  lemma ReadingSteady(s: State, e: Event)
    requires e.ReadVeto? || e.Poll?
    ensures Steady(s, Handle(s, e).0)
  {
    hide HandleApprovals, HandleSwitch, HandleDevices;
  }

  lemma SeenSteady(s: State, e: Event)
    requires e.SeenBy?
    ensures Steady(s, Handle(s, e).0)
  {
    hide HandleApprovals, HandleSwitch, HandleDevices, DoSeen;
    SeenOutcome(s, e.id, e.deviceId, e.deliveryId, e.revision, e.content);
  }

  lemma ApprovalEventsSteady(s: State, e: Event)
    requires e.ApprovalChallengeStart? || e.ApprovalChallengeFinish? || e.Commit?
    ensures Steady(s, Handle(s, e).0)
  {
    hide HandleWindows, HandleSwitch, HandleDevices;
  }

  lemma ApproveSteady(s: State, e: Event)
    requires e.Approve?
    ensures Steady(s, Handle(s, e).0)
  {
    hide HandleWindows, HandleSwitch, HandleDevices;
  }

  lemma KillSteady(s: State, e: Event)
    requires e.EngageKill? || e.RegistryLost?
    ensures Steady(s, Handle(s, e).0)
  {
    hide HandleWindows, HandleApprovals;
    if e.EngageKill? {
      EngageSteady(s, e.agentId, e.persistLost);
    }
  }

  lemma RestoreChallengeStartSteady(s: State, e: Event)
    requires e.RestoreChallengeStart?
    ensures Steady(s, Handle(s, e).0)
  {
    hide HandleWindows, HandleApprovals, HandleDevices;
  }

  predicate ChangesCeremonies(e: Event) {
    e.CeremonyStart? || e.RestoreChallengeFinish? || e.Restore?
  }

  lemma OthersSteady(s: State, e: Event)
    requires !ChangesCeremonies(e)
    ensures Steady(s, Handle(s, e).0)
  {
    if e.RevokeStatic? {
      RevokeStaticSteady(s, e.deviceId, e.exported, e.persistLost);
    } else if e.RevokeEnrolled? {
      RevokeEnrolledSteady(s, e.deviceId, e.published, e.exported, e.persistLost);
    } else if e.Admit? {
      AdmitSteady(s, e);
    } else if e.SeenBy? {
      SeenSteady(s, e);
    } else if e.Detail? {
      DetailSteady(s, e);
    } else if e.Register? || e.Veto? {
      RegisterSteady(s, e);
    } else if e.ReadVeto? || e.Poll? {
      ReadingSteady(s, e);
    } else if e.EngageKill? || e.RegistryLost? {
      KillSteady(s, e);
    } else if e.RestoreChallengeStart? {
      RestoreChallengeStartSteady(s, e);
    } else if e.Approve? {
      ApproveSteady(s, e);
    } else {
      ApprovalEventsSteady(s, e);
    }
  }

  // ---- the ceremony handlers --------------------------------------------------------------------

  /** Ticking records under the present clock changes nothing a restore relies on. */
  lemma TickedRecordOk(h: seq<Fact>, epoch: int, clock: int, id: string, r: CeremonyRecord)
    requires RecordOk(h, epoch, clock, id, r)
    ensures RecordOk(h, epoch, clock, id, TickRecord(r, clock))
  {
    var j :| StartedAt(h, j, id, r) && (r.epoch == epoch ==> KillFree(h, j));
    assert StartedAt(h, j, id, TickRecord(r, clock));
  }

  lemma TickingKeepsOnePerScope(cs: Ceremonies, live: set<string>, held: set<string>, now: int)
    requires OnePerScope(cs) && live <= cs.live
    ensures OnePerScope(cs.(live := live, records := TickRecords(cs.records, held, now)))
  {
    var rs := TickRecords(cs.records, held, now);
    assert forall id :: id in rs ==>
      rs[id].ceremony.ownerId == cs.records[id].ceremony.ownerId && rs[id].agentId == cs.records[id].agentId;
  }

  lemma TickingKeepsOneGo2(s: State, held: set<string>, id: string, c: RestoreChallenge)
    requires Go2Ok(s.history, s.kill.epoch, s.ceremonies.records, id, c)
    ensures Go2Ok(s.history, s.kill.epoch, TickRecords(s.ceremonies.records, held, s.clock), id, c)
  {
    var rs := TickRecords(s.ceremonies.records, held, s.clock);
    assert rs[id].ceremony.startedAt == s.ceremonies.records[id].ceremony.startedAt;
    Go2Stays(s.history, s.history, s.kill.epoch, s.kill.epoch, s.ceremonies.records, rs, id, c);
  }

  lemma TickingKeepsGo2(s: State, held: set<string>)
    requires CeremoniesInv(s)
    ensures forall id :: id in s.ceremonies.challenges ==>
              Go2Ok(s.history, s.kill.epoch, TickRecords(s.ceremonies.records, held, s.clock), id,
                    s.ceremonies.challenges[id])
  {
    var rs := TickRecords(s.ceremonies.records, held, s.clock);
    forall id | id in s.ceremonies.challenges
      ensures Go2Ok(s.history, s.kill.epoch, rs, id, s.ceremonies.challenges[id])
    {
      TickingKeepsOneGo2(s, held, id, s.ceremonies.challenges[id]);
    }
  }

  lemma PurgeKeepsCeremonies(s: State, live: set<string>, held: set<string>)
    requires CeremoniesInv(s) && live <= s.ceremonies.live
    ensures var cs := s.ceremonies.(live := live, records := TickRecords(s.ceremonies.records, held, s.clock));
            CeremoniesInv(s.(ceremonies := cs))
  {
    var rs := TickRecords(s.ceremonies.records, held, s.clock);
    TickingKeepsOnePerScope(s.ceremonies, live, held, s.clock);
    forall id | id in rs
      ensures RecordOk(s.history, s.kill.epoch, s.clock, id, rs[id])
    {
      TickedRecordOk(s.history, s.kill.epoch, s.clock, id, s.ceremonies.records[id]);
    }
    TickingKeepsGo2(s, held);
    assert forall id :: Completed(s.ceremonies.records, id) ==> Completed(rs, id);
  }

  /** A new ceremony joins a map that holds nothing for its owner and scope. */
  lemma NewCeremony(s: State, id: string, owner: string, agentId: Option<string>)
    requires CeremoniesInv(s) && RestoreTraceInv(s) && id !in s.ceremonies.records
    requires forall x :: x in s.ceremonies.live ==> !HoldsFor(s, x, owner, agentId)
    ensures var r := CeremonyRecord(TwoGo.Started(owner, s.clock), s.kill.epoch, agentId);
            var s' := Log(s.(ceremonies := s.ceremonies.(records := s.ceremonies.records[id := r],
                                                        live := s.ceremonies.live + {id})),
                          CeremonyStarted(s.clock, id, owner, agentId));
            CeremoniesInv(s') && RestoreTraceInv(s')
  {
    var r := CeremonyRecord(TwoGo.Started(owner, s.clock), s.kill.epoch, agentId);
    var rs := s.ceremonies.records[id := r];
    var f := CeremonyStarted(s.clock, id, owner, agentId);
    var h := s.history + [f];
    assert StartedAt(h, |s.history|, id, r) && KillFree(h, |s.history|);
    forall x | x in rs
      ensures RecordOk(h, s.kill.epoch, s.clock, x, rs[x])
    {
      if x != id {
        RecordStays(s.history, h, s.kill.epoch, s.kill.epoch, s.clock, s.clock, x, rs[x]);
      }
    }
    forall x | x in s.ceremonies.challenges
      ensures Go2Ok(h, s.kill.epoch, rs, x, s.ceremonies.challenges[x])
    {
      Go2Stays(s.history, h, s.kill.epoch, s.kill.epoch, s.ceremonies.records, rs, x, s.ceremonies.challenges[x]);
    }
    TraceKept(s, Log(s.(ceremonies := s.ceremonies.(records := rs, live := s.ceremonies.live + {id})), f));
  }

  lemma StartOrReuseKeeps(s: State, id: string, owner: string, agentId: Option<string>, licensed: bool)
    requires CeremoniesInv(s) && RestoreTraceInv(s) && id !in s.ceremonies.records
    ensures CeremoniesInv(StartOrReuse(s, id, owner, agentId, licensed).0)
    ensures RestoreTraceInv(StartOrReuse(s, id, owner, agentId, licensed).0)
  {
    hide CeremoniesInv, RestoreTraceInv;
    var cs := s.ceremonies;
    var held := set x | x in cs.live && HoldsFor(s, x, owner, agentId);
    PurgeKeepsCeremonies(s, cs.live, held);
    TraceKept(s, s.(ceremonies := cs.(records := TickRecords(cs.records, held, s.clock))));
    if held == {} {
      assert forall x :: x in cs.live && HoldsFor(s, x, owner, agentId) ==> x in held;
      NewCeremony(s, id, owner, agentId);
    }
  }

  lemma CeremonyStartKeeps(s: State, id: string, owner: string, agentId: Option<string>, licensed: bool)
    requires CeremoniesInv(s) && RestoreTraceInv(s) && id !in s.ceremonies.records
    ensures CeremoniesInv(DoCeremonyStart(s, id, owner, agentId, licensed).0)
    ensures RestoreTraceInv(DoCeremonyStart(s, id, owner, agentId, licensed).0)
  {
    hide CeremoniesInv, RestoreTraceInv, StartOrReuse;
    var purged := s.(ceremonies := s.ceremonies.(live := Purged(s)));
    PurgeKeepsCeremonies(s, Purged(s), {});
    assert TickRecords(s.ceremonies.records, {}, s.clock) == s.ceremonies.records;
    TraceKept(s, purged);
    StartOrReuseKeeps(purged, id, owner, agentId, licensed);
  }

  /** Replacing one record by its ticked or confirmed form. */
  lemma OneRecord(s: State, id: string, r': CeremonyRecord)
    requires CeremoniesInv(s) && RestoreTraceInv(s) && id in s.ceremonies.records
    requires r'.ceremony.startedAt == s.ceremonies.records[id].ceremony.startedAt
    requires r'.ceremony.ownerId == s.ceremonies.records[id].ceremony.ownerId
    requires r'.agentId == s.ceremonies.records[id].agentId
    requires Completed(s.ceremonies.records, id) ==> r'.ceremony.status.Completed?
    requires RecordOk(s.history, s.kill.epoch, s.clock, id, r')
    ensures var s' := s.(ceremonies := s.ceremonies.(records := s.ceremonies.records[id := r']));
            CeremoniesInv(s') && RestoreTraceInv(s')
  {
    hide RecordOk;
    var rs := s.ceremonies.records[id := r'];
    forall x | x in s.ceremonies.challenges
      ensures Go2Ok(s.history, s.kill.epoch, rs, x, s.ceremonies.challenges[x])
    {
      Go2Stays(s.history, s.history, s.kill.epoch, s.kill.epoch, s.ceremonies.records, rs, x,
               s.ceremonies.challenges[x]);
    }
    TraceKept(s, s.(ceremonies := s.ceremonies.(records := rs)));
  }

  /** Leaving the await: the request is over, nothing else moved. */
  lemma RequestOver(s: State, request: string)
    requires CeremoniesFine(s)
    ensures CeremoniesFine(s.(inFlight := s.inFlight - {request}))
  {
    var s1 := s.(inFlight := s.inFlight - {request});
    SteadyKeepsCeremonies(s, s1);
    TraceKept(s, s1);
  }

  lemma TickingOneKeeps(s: State, id: string)
    requires CeremoniesFine(s) && id in s.ceremonies.records
    ensures CeremoniesFine(WithTicked(s, id))
  {
    TickedRecordOk(s.history, s.kill.epoch, s.clock, id, s.ceremonies.records[id]);
    OneRecord(s, id, TickRecord(s.ceremonies.records[id], s.clock));
  }

  /** The finish of a GO 2/2 request leaves one of three states behind. */
  lemma RestoreChallengeOutcomes(s: State, request: string, challenge: string, id: string)
    requires request in s.inFlight && s.inFlight[request] == RestoreInFlight(id) && id in s.ceremonies.records
    ensures var s' := DoRestoreChallengeFinish(s, request, challenge).0;
            var s1 := s.(inFlight := s.inFlight - {request});
            var s2 := WithTicked(s1, id);
            || s' == s1
            || s' == s2
            || (s2.ceremonies.records[id].ceremony.status.Ready? && s' == WithGo2(s2, id, challenge))
  {
  }

  ghost predicate CeremoniesFine(s: State) {
    CeremoniesInv(s) && RestoreTraceInv(s)
  }

  lemma RestoreChallengeKeeps(s: State, request: string, challenge: string)
    requires CeremoniesFine(s)
    ensures CeremoniesFine(DoRestoreChallengeFinish(s, request, challenge).0)
  {
    if request in s.inFlight && s.inFlight[request].RestoreInFlight?
       && s.inFlight[request].ceremonyId in s.ceremonies.records {
      var id := s.inFlight[request].ceremonyId;
      RestoreChallengeOutcomes(s, request, challenge, id);
      RequestOver(s, request);
      Go2Outcomes(s.(inFlight := s.inFlight - {request}), id, challenge);
    }
  }

  lemma Go2Outcomes(s: State, id: string, challenge: string)
    requires CeremoniesFine(s) && id in s.ceremonies.records
    ensures CeremoniesFine(WithTicked(s, id))
    ensures WithTicked(s, id).ceremonies.records[id].ceremony.status.Ready? ==>
              CeremoniesFine(WithGo2(WithTicked(s, id), id, challenge))
  {
    TickingOneKeeps(s, id);
    if WithTicked(s, id).ceremonies.records[id].ceremony.status.Ready? {
      MintGo2(WithTicked(s, id), id, challenge);
    }
  }

  /** The fresh challenge is the newest fact, minted for a ceremony that is ready. */
  lemma FreshGo2(h: seq<Fact>, s: State, id: string, challenge: string)
    requires CeremoniesInv(s) && id in s.ceremonies.records && s.ceremonies.records[id].ceremony.status.Ready?
    requires h == s.history + [RestoreChallengeMinted(s.clock, id, challenge)]
    ensures Go2Ok(h, s.kill.epoch, s.ceremonies.records, id,
                  RestoreChallenge(challenge, s.kill.epoch, s.clock + RESTORE_CHALLENGE_TTL_MS))
  {
    assert MintedAt(h, |s.history|, id, RestoreChallenge(challenge, s.kill.epoch, s.clock + RESTORE_CHALLENGE_TTL_MS));
  }

  lemma MintGo2(s: State, id: string, challenge: string)
    requires CeremoniesFine(s) && id in s.ceremonies.records
    requires s.ceremonies.records[id].ceremony.status.Ready?
    ensures CeremoniesFine(WithGo2(s, id, challenge))
  {
    hide CeremoniesInv, RestoreTraceInv, Go2Ok;
    var t := Log(s, RestoreChallengeMinted(s.clock, id, challenge));
    FreshGo2(t.history, s, id, challenge);
    SteadyKeepsCeremonies(s, t);
    TraceKept(s, t);
    AddedGo2(t, WithGo2(s, id, challenge), id);
  }

  lemma AddedGo2(t: State, u: State, id: string)
    requires CeremoniesFine(t) && id in u.ceremonies.challenges
    requires Go2Ok(t.history, t.kill.epoch, t.ceremonies.records, id, u.ceremonies.challenges[id])
    requires var cs := t.ceremonies;
             u == t.(ceremonies := cs.(challenges := cs.challenges[id := u.ceremonies.challenges[id]]))
    ensures CeremoniesFine(u)
  {
  }

  /** A confirmed ceremony restores exactly its own scope, once, and is then spent. */
  lemma ConfirmBacks(s: State, owner: string, id: string, signed: Option<string>, j: int, k: int)
    requires RestoreTraceInv(s) && id in s.ceremonies.records && !Completed(s.ceremonies.records, id)
    requires var r := s.ceremonies.records[id];
             && r.ceremony.ownerId == owner
             && StartedAt(s.history, j, id, r) && KillFree(s.history, j)
             && TwoGo.COOLDOWN_MS <= s.clock - r.ceremony.startedAt < TwoGo.TTL_MS
    requires s.cfg.passkey ==>
               && 0 <= k < |s.history| && KillFree(s.history, k) && s.history[k].RestoreChallengeMinted?
               && s.history[k].ceremonyId == id && signed == Some(s.history[k].challenge)
               && s.clock - s.history[k].at < RESTORE_CHALLENGE_TTL_MS
    ensures var f := Restored(s.clock, id, owner, s.ceremonies.records[id].agentId, signed);
            RestoreBacked(s.cfg, s.history + [f], |s.history|) && OnceOnly(s.history + [f], |s.history|)
  {
    var f := Restored(s.clock, id, owner, s.ceremonies.records[id].agentId, signed);
    var h := s.history + [f];
    assert StartBacks(h, j, |s.history|);
    if s.cfg.passkey {
      assert ChallengeBacks(h, k, |s.history|);
    }
  }

  /** Appending a backed restore of a ceremony that is now complete. */
  lemma RestoreExtendsTrace(s: State, s': State, f: Fact)
    requires RestoreTraceInv(s) && s'.cfg == s.cfg && s'.history == s.history + [f] && f.Restored?
    requires RestoreBacked(s.cfg, s'.history, |s.history|) && OnceOnly(s'.history, |s.history|)
    requires Completed(s'.ceremonies.records, f.ceremonyId)
    requires forall id :: Completed(s.ceremonies.records, id) ==> Completed(s'.ceremonies.records, id)
    ensures RestoreTraceInv(s')
  {
    forall i | 0 <= i < |s'.history| && s'.history[i].Restored?
      ensures RestoreBacked(s'.cfg, s'.history, i) && OnceOnly(s'.history, i)
      ensures Completed(s'.ceremonies.records, s'.history[i].ceremonyId)
    {
      if i < |s.history| {
        BackingStays(s.cfg, s.history, s'.history, i);
        assert OnceOnly(s.history, i);
      }
    }
  }

  lemma RestoredKeepsCeremonies(s: State, kill: Kill, f: Fact, id: string)
    requires CeremoniesInv(s) && Completed(s.ceremonies.records, id) && f.Restored?
    requires kill.epoch == s.kill.epoch && kill.consumed == s.kill.consumed + {id}
    ensures CeremoniesInv(Log(s.(kill := kill), f))
  {
    var h := s.history + [f];
    forall x | x in s.ceremonies.records
      ensures RecordOk(h, kill.epoch, s.clock, x, s.ceremonies.records[x])
    {
      RecordStays(s.history, h, kill.epoch, kill.epoch, s.clock, s.clock, x, s.ceremonies.records[x]);
    }
    forall x | x in s.ceremonies.challenges
      ensures Go2Ok(h, kill.epoch, s.ceremonies.records, x, s.ceremonies.challenges[x])
    {
      Go2Stays(s.history, h, kill.epoch, kill.epoch, s.ceremonies.records, s.ceremonies.records, x,
               s.ceremonies.challenges[x]);
    }
  }

  /** Confirming one record, whether or not the restore then goes ahead. */
  lemma ConfirmedRecordKeeps(s: State, id: string) returns (j: int)
    requires CeremoniesInv(s) && RestoreTraceInv(s) && id in s.ceremonies.records
    requires s.ceremonies.records[id].epoch == s.kill.epoch
    ensures StartedAt(s.history, j, id, s.ceremonies.records[id]) && KillFree(s.history, j)
    ensures var c := s.ceremonies.records[id].ceremony;
            c.status.Ready? ==> s.clock - c.startedAt >= TwoGo.COOLDOWN_MS
    ensures var r := s.ceremonies.records[id];
            var confirmed := r.(ceremony := TwoGo.Confirmed(r.ceremony, s.clock));
            var s1 := s.(ceremonies := s.ceremonies.(records := s.ceremonies.records[id := confirmed]));
            CeremoniesInv(s1) && RestoreTraceInv(s1)
  {
    hide RestoreTraceInv;
    var r := s.ceremonies.records[id];
    var confirmed := r.(ceremony := TwoGo.Confirmed(r.ceremony, s.clock));
    j :| StartedAt(s.history, j, id, r) && KillFree(s.history, j);
    assert StartedAt(s.history, j, id, confirmed);
    OneRecord(s, id, confirmed);
  }

  lemma ConfirmKeeps(s: State, owner: string, id: string, signed: Option<string>, persistLost: bool, k: int)
    requires CeremoniesInv(s) && RestoreTraceInv(s) && RestoreAdmissible(s, owner, id)
    requires s.cfg.passkey ==>
               && 0 <= k < |s.history| && KillFree(s.history, k) && s.history[k].RestoreChallengeMinted?
               && s.history[k].ceremonyId == id && signed == Some(s.history[k].challenge)
               && s.clock - s.history[k].at < RESTORE_CHALLENGE_TTL_MS
    ensures CeremoniesInv(ConfirmAndRestore(s, owner, id, signed, persistLost).0)
    ensures RestoreTraceInv(ConfirmAndRestore(s, owner, id, signed, persistLost).0)
  {
    hide CeremoniesInv, RestoreTraceInv, StartedAt, RestoreBacked, OnceOnly;
    var s' := ConfirmAndRestore(s, owner, id, signed, persistLost).0;
    var r := s.ceremonies.records[id];
    var j := ConfirmedRecordKeeps(s, id);
    var confirmed := r.(ceremony := TwoGo.Confirmed(r.ceremony, s.clock));
    var s1 := s.(ceremonies := s.ceremonies.(records := s.ceremonies.records[id := confirmed]));
    if s' != s1 {
      var f := Restored(s.clock, id, owner, r.agentId, signed);
      ConfirmBacks(s, owner, id, signed, j, k);
      RestoredKeepsCeremonies(s1, s'.kill, f, id);
      RestoreExtendsTrace(s, s', f);
    }
  }

  lemma RestoreKeeps(s: State, owner: string, id: string, signed: Option<string>, persistLost: bool)
    requires CeremoniesInv(s) && RestoreTraceInv(s)
    ensures CeremoniesInv(DoRestore(s, owner, id, signed, persistLost).0)
    ensures RestoreTraceInv(DoRestore(s, owner, id, signed, persistLost).0)
  {
    hide ConfirmAndRestore;
    if RestoreAdmissible(s, owner, id) {
      if s.cfg.passkey {
        var s1 := s.(ceremonies := s.ceremonies.(challenges := s.ceremonies.challenges - {id}));
        TraceKept(s, s1);
        if RestoreSigned(s, id, signed) {
          var c := s.ceremonies.challenges[id];
          assert Go2Ok(s.history, s.kill.epoch, s.ceremonies.records, id, c);
          var k :| MintedAt(s.history, k, id, c) && KillFree(s.history, k);
          ConfirmKeeps(s1, owner, id, signed, persistLost, k);
        }
      } else {
        ConfirmKeeps(s, owner, id, None, persistLost, 0);
      }
    }
  }

  lemma ClockKeepsCeremonies(s: State, now: int)
    requires CeremoniesInv(s) && RestoreTraceInv(s) && s.clock <= now
    ensures CeremoniesInv(s.(clock := now)) && RestoreTraceInv(s.(clock := now))
  {
    forall id | id in s.ceremonies.records
      ensures RecordOk(s.history, s.kill.epoch, now, id, s.ceremonies.records[id])
    {
      RecordStays(s.history, s.history, s.kill.epoch, s.kill.epoch, s.clock, now, id, s.ceremonies.records[id]);
    }
    TraceKept(s, s.(clock := now));
  }

  lemma OthersKeepCeremonies(s: State, e: Event)
    requires CeremoniesInv(s) && RestoreTraceInv(s) && !ChangesCeremonies(e)
    ensures CeremoniesInv(Handle(s, e).0) && RestoreTraceInv(Handle(s, e).0)
  {
    OthersSteady(s, e);
    SteadyKeepsCeremonies(s, Handle(s, e).0);
    TraceKept(s, Handle(s, e).0);
  }

  lemma StepKeepsCeremonies(s0: State, e: Event, now: int)
    requires CeremoniesInv(s0) && RestoreTraceInv(s0) && Enabled(s0, e, now)
    ensures CeremoniesInv(Step(s0, e, now).0) && RestoreTraceInv(Step(s0, e, now).0)
  {
    hide CeremoniesInv, RestoreTraceInv, HandleWindows, HandleApprovals, HandleDevices;
    hide DoCeremonyStart, DoRestoreChallengeFinish, DoRestore;
    var s := s0.(clock := now);
    ClockKeepsCeremonies(s0, now);
    if e.CeremonyStart? {
      CeremonyStartKeeps(s, e.id, e.owner, e.agentId, e.licensed);
    } else if e.RestoreChallengeFinish? {
      RestoreChallengeKeeps(s, e.request, e.challenge);
    } else if e.Restore? {
      RestoreKeeps(s, e.owner, e.id, e.signed, e.persistLost);
    } else {
      OthersKeepCeremonies(s, e);
    }
  }

  lemma {:induction false} RunKeepsCeremonies(ss: seq<State>, es: seq<Timed>, i: nat)
    requires Run(ss, es) && i < |ss|
    ensures CeremoniesInv(ss[i]) && RestoreTraceInv(ss[i])
  {
    if i > 0 {
      RunKeepsCeremonies(ss, es, i - 1);
      StepKeepsCeremonies(ss[i - 1], es[i - 1].event, es[i - 1].now);
    }
  }
}
