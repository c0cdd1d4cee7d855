/**
 * When a ceremony restores: what the server keeps of ceremonies, ticked
 * lazily and purged, decides exactly what the trace of starts, kills and
 * restores decides.
 */
module ProtocolRestores {
  import opened Wrappers
  import opened VetoWindows
  import opened KillStateFile
  import opened Protocol
  import opened ProtocolWindows
  import opened ProtocolCeremonies
  import TwoGo

  ghost predicate RestoredAs(h: seq<Fact>, i: int, id: string) {
    0 <= i < |h| && h[i].Restored? && h[i].ceremonyId == id
  }

  /** The start at j is this record's, and its epoch is the present one exactly while no kill came since. */
  ghost predicate StartHolds(s: State, j: int)
    requires 0 <= j < |s.history| && s.history[j].CeremonyStarted?
  {
    var id := s.history[j].ceremonyId;
    && id in s.ceremonies.records && StartedAt(s.history, j, id, s.ceremonies.records[id])
    && (s.ceremonies.records[id].epoch == s.kill.epoch <==> KillFree(s.history, j))
  }

  /** What the record's status says of the clock and the trace, and what leaving the map does. */
  ghost predicate RecordHolds(s: State, id: string)
    requires id in s.ceremonies.records
  {
    var r := s.ceremonies.records[id];
    && r.epoch <= s.kill.epoch
    && (exists j :: StartedAt(s.history, j, id, r))
    && (r.ceremony.status.Expired? ==> s.clock - r.ceremony.startedAt >= TwoGo.TTL_MS)
    && (r.ceremony.status.Ready? ==> s.clock - r.ceremony.startedAt >= TwoGo.COOLDOWN_MS)
    && (r.ceremony.status.Completed? ==>
          id == "" || r.ceremony.ownerId == "" || exists i :: RestoredAs(s.history, i, id))
    && (id !in s.ceremonies.live ==> Dead(s, r))
  }

  ghost predicate RestoresInv(s: State) {
    && (forall j :: 0 <= j < |s.history| && s.history[j].CeremonyStarted? ==> StartHolds(s, j))
    && (forall id :: id in s.ceremonies.records ==> RecordHolds(s, id))
  }

  // ---- how records age ---------------------------------------------------------------------------

  predicate SameStart(r: CeremonyRecord, r': CeremonyRecord) {
    && r'.ceremony.startedAt == r.ceremony.startedAt && r'.ceremony.ownerId == r.ceremony.ownerId
    && r'.agentId == r.agentId && r'.epoch == r.epoch
  }

  /** A record is ticked, or completed with its restore. */
  ghost predicate RecordAges(s: State, s': State, id: string)
    requires id in s.ceremonies.records && id in s'.ceremonies.records
  {
    var r, r' := s.ceremonies.records[id], s'.ceremonies.records[id];
    && SameStart(r, r')
    && (|| r'.ceremony.status == r.ceremony.status
        || r'.ceremony.status == TwoGo.Ticked(r.ceremony, s'.clock).status
        || (&& r'.ceremony.status.Completed?
            && (id == "" || r.ceremony.ownerId == "" || exists i :: RestoredAs(s'.history, i, id))))
    && (id in s.ceremonies.live && id !in s'.ceremonies.live ==> Dead(s', r'))
  }

  ghost predicate KillsOn(s: State, s': State) {
    && s.clock <= s'.clock && s.kill.epoch <= s'.kill.epoch
    && |s.history| <= |s'.history| && s'.history[..|s.history|] == s.history
    && (s'.kill.epoch == s.kill.epoch <==> KillFree(s'.history, |s.history|))
    && (s'.kill.epoch == s.kill.epoch ==> s'.kill.agents <= s.kill.agents)
  }

  ghost predicate Ages(s: State, s': State) {
    && KillsOn(s, s')
    && (forall i :: |s.history| <= i < |s'.history| ==> !s'.history[i].CeremonyStarted?)
    && s'.ceremonies.records.Keys == s.ceremonies.records.Keys && s'.ceremonies.live <= s.ceremonies.live
    && forall id :: id in s.ceremonies.records ==> RecordAges(s, s', id)
  }

  lemma StartStays(s: State, s': State, j: int)
    requires KillsOn(s, s') && 0 <= j < |s.history| && s.history[j].CeremonyStarted? && StartHolds(s, j)
    requires var id := s.history[j].ceremonyId;
             && id in s'.ceremonies.records && SameStart(s.ceremonies.records[id], s'.ceremonies.records[id])
             && s.ceremonies.records[id].epoch <= s.kill.epoch
    ensures s'.history[j] == s.history[j] && StartHolds(s', j)
  {
    assert forall k :: 0 <= k < |s.history| ==> s'.history[k] == s.history[k];
    if KillFree(s'.history, j) {
      assert KillFree(s.history, j);
    }
  }

  lemma DeadStays(s: State, s': State, r: CeremonyRecord, r': CeremonyRecord)
    requires KillsOn(s, s') && Dead(s, r) && SameStart(r, r') && r.epoch <= s.kill.epoch
    requires r.ceremony.status.Completed? ==> r'.ceremony.status.Completed?
    ensures Dead(s', r')
  {
  }

  lemma RecordStays(s: State, s': State, id: string)
    requires KillsOn(s, s') && id in s.ceremonies.records && id in s'.ceremonies.records
    requires RecordHolds(s, id) && RecordAges(s, s', id) && (id !in s.ceremonies.live ==> id !in s'.ceremonies.live)
    ensures RecordHolds(s', id)
  {
    var r, r' := s.ceremonies.records[id], s'.ceremonies.records[id];
    assert forall k :: 0 <= k < |s.history| ==> s'.history[k] == s.history[k];
    var j :| StartedAt(s.history, j, id, r);
    assert StartedAt(s'.history, j, id, r');
    if i :| RestoredAs(s.history, i, id) {
      assert RestoredAs(s'.history, i, id);
    }
    if id !in s.ceremonies.live {
      DeadStays(s, s', r, r');
    }
  }

  lemma AgesKeeps(s: State, s': State)
    requires RestoresInv(s) && Ages(s, s')
    ensures RestoresInv(s')
  {
    hide RecordHolds, RecordAges, StartHolds;
    forall j | 0 <= j < |s'.history| && s'.history[j].CeremonyStarted?
      ensures StartHolds(s', j)
    {
      assert s'.history[j] == s.history[j];
      StartOfRecord(s, j);
      SameStartOf(s, s', s.history[j].ceremonyId);
      StartStays(s, s', j);
    }
    forall id | id in s'.ceremonies.records
      ensures RecordHolds(s', id)
    {
      RecordStays(s, s', id);
    }
  }

  lemma StartOfRecord(s: State, j: int)
    requires RestoresInv(s) && 0 <= j < |s.history| && s.history[j].CeremonyStarted?
    ensures var id := s.history[j].ceremonyId;
            id in s.ceremonies.records && s.ceremonies.records[id].epoch <= s.kill.epoch
  {
    assert StartHolds(s, j) && RecordHolds(s, s.history[j].ceremonyId);
  }

  lemma SameStartOf(s: State, s': State, id: string)
    requires Ages(s, s') && id in s.ceremonies.records
    ensures id in s'.ceremonies.records && SameStart(s.ceremonies.records[id], s'.ceremonies.records[id])
  {
    assert RecordAges(s, s', id);
  }

  // ---- every step --------------------------------------------------------------------------------

  lemma SteadyAges(s: State, s': State)
    requires Steady(s, s')
    ensures Ages(s, s')
  {
    if s'.kill.epoch == s.kill.epoch {
      assert KillFree(s'.history, |s.history|);
    }
  }

  /** Purged, then ticked: what a start does before it opens anything. */
  lemma PurgingAges(s: State, held: set<string>)
    ensures var cs := s.ceremonies.(live := Purged(s), records := TickRecords(s.ceremonies.records, held, s.clock));
            Ages(s, s.(ceremonies := cs))
  {
  }

  lemma TickingAges(s: State, held: set<string>)
    ensures Ages(s, s.(ceremonies := s.ceremonies.(records := TickRecords(s.ceremonies.records, held, s.clock))))
  {
  }

  lemma OpeningKeeps(s: State, id: string, owner: string, agentId: Option<string>)
    requires RestoresInv(s) && id !in s.ceremonies.records
    ensures var r := CeremonyRecord(TwoGo.Started(owner, s.clock), s.kill.epoch, agentId);
            var cs := s.ceremonies;
            RestoresInv(Log(s.(ceremonies := cs.(records := cs.records[id := r], live := cs.live + {id})),
                            CeremonyStarted(s.clock, id, owner, agentId)))
  {
    var r := CeremonyRecord(TwoGo.Started(owner, s.clock), s.kill.epoch, agentId);
    var cs := s.ceremonies;
    var s' := Log(s.(ceremonies := cs.(records := cs.records[id := r], live := cs.live + {id})),
                  CeremonyStarted(s.clock, id, owner, agentId));
    var n := |s.history|;
    assert KillsOn(s, s');
    forall j | 0 <= j < |s'.history| && s'.history[j].CeremonyStarted?
      ensures StartHolds(s', j)
    {
      if j < n {
        assert StartHolds(s, j);
        StartOfRecord(s, j);
        StartStays(s, s', j);
      }
    }
    forall x | x in s'.ceremonies.records
      ensures RecordHolds(s', x)
    {
      if x == id {
        assert StartedAt(s'.history, n, id, r);
      } else {
        assert RecordHolds(s, x);
        RecordStays(s, s', x);
      }
    }
  }

  lemma StartOrReuseRestores(s: State, id: string, owner: string, agentId: Option<string>, licensed: bool)
    requires RestoresInv(s) && id !in s.ceremonies.records
    ensures RestoresInv(StartOrReuse(s, id, owner, agentId, licensed).0)
  {
    hide RestoresInv, Ages;
    var held := set x | x in s.ceremonies.live && HoldsFor(s, x, owner, agentId);
    if held != {} {
      TickingAges(s, held);
      AgesKeeps(s, StartOrReuse(s, id, owner, agentId, licensed).0);
    } else {
      OpeningKeeps(s, id, owner, agentId);
    }
  }

  lemma CeremonyStartRestores(s: State, id: string, owner: string, agentId: Option<string>, licensed: bool)
    requires RestoresInv(s) && id !in s.ceremonies.records
    ensures RestoresInv(DoCeremonyStart(s, id, owner, agentId, licensed).0)
  {
    hide RestoresInv, Ages, StartOrReuse;
    var s1 := s.(ceremonies := s.ceremonies.(live := Purged(s)));
    PurgingAges(s, {});
    assert TickRecords(s.ceremonies.records, {}, s.clock) == s.ceremonies.records;
    AgesKeeps(s, s1);
    StartOrReuseRestores(s1, id, owner, agentId, licensed);
  }

  lemma WithTickedAges(s: State, id: string)
    requires id in s.ceremonies.records
    ensures Ages(s, WithTicked(s, id))
  {
  }

  lemma MintingAges(s: State, id: string, challenge: string)
    requires id in s.ceremonies.records
    ensures Ages(s, MintRestoreChallenge(s, id, challenge).0)
  {
    WithTickedAges(s, id);
  }

  lemma ChallengeAges(s: State, request: string, challenge: string)
    ensures Ages(s, DoRestoreChallengeFinish(s, request, challenge).0)
  {
    hide MintRestoreChallenge;
    if request in s.inFlight && s.inFlight[request].RestoreInFlight?
       && s.inFlight[request].ceremonyId in s.ceremonies.records {
      MintingAges(s.(inFlight := s.inFlight - {request}), s.inFlight[request].ceremonyId, challenge);
    }
  }

  /** confirm() completes the record only from ready; the restore is then logged, unless a name is empty. */
  lemma ConfirmAges(s: State, owner: string, id: string, signed: Option<string>, persistLost: bool)
    requires id in s.ceremonies.records && (id in s.kill.consumed ==> Completed(s.ceremonies.records, id))
    ensures Ages(s, ConfirmAndRestore(s, owner, id, signed, persistLost).0)
  {
    hide RecordAges;
    var s' := ConfirmAndRestore(s, owner, id, signed, persistLost).0;
    forall x | x in s.ceremonies.records
      ensures RecordAges(s, s', x)
    {
      if x == id {
        ConfirmedAges(s, owner, id, signed, persistLost);
      } else {
        UntouchedAges(s, s', x);
      }
    }
  }

  lemma UntouchedAges(s: State, s': State, x: string)
    requires x in s.ceremonies.records && x in s'.ceremonies.records && s'.ceremonies.live == s.ceremonies.live
    requires s'.ceremonies.records[x] == s.ceremonies.records[x]
    ensures RecordAges(s, s', x)
  {
  }

  lemma ConfirmedAges(s: State, owner: string, id: string, signed: Option<string>, persistLost: bool)
    requires id in s.ceremonies.records && (id in s.kill.consumed ==> Completed(s.ceremonies.records, id))
    ensures RecordAges(s, ConfirmAndRestore(s, owner, id, signed, persistLost).0, id)
  {
    var s' := ConfirmAndRestore(s, owner, id, signed, persistLost).0;
    if |s'.history| > |s.history| {
      assert RestoredAs(s'.history, |s.history|, id);
    }
  }

  lemma RestoreAges(s: State, owner: string, id: string, signed: Option<string>, persistLost: bool)
    requires forall x :: x in s.kill.consumed ==> Completed(s.ceremonies.records, x)
    ensures Ages(s, DoRestore(s, owner, id, signed, persistLost).0)
  {
    hide ConfirmAndRestore, RestoreSigned, Ages;
    var s1 := s.(ceremonies := s.ceremonies.(challenges := s.ceremonies.challenges - {id}));
    SpendingAges(s, s);
    SpendingAges(s, s1);
    if RestoreAdmissible(s, owner, id) {
      ConfirmAges(s1, owner, id, signed, persistLost);
      AgesFrom(s, s1, ConfirmAndRestore(s1, owner, id, signed, persistLost).0);
      ConfirmAges(s, owner, id, None, persistLost);
    }
  }

  lemma SpendingAges(s: State, s': State)
    requires s' == s.(ceremonies := s.ceremonies.(challenges := s'.ceremonies.challenges))
    ensures Ages(s, s')
  {
  }

  lemma AgesFrom(s: State, t: State, u: State)
    requires t == s.(ceremonies := s.ceremonies.(challenges := t.ceremonies.challenges)) && Ages(t, u)
    ensures Ages(s, u)
  {
    forall id | id in s.ceremonies.records
      ensures RecordAges(s, u, id)
    {
      assert RecordAges(t, u, id);
    }
  }

  lemma ClockAges(s: State, now: int)
    requires s.clock <= now
    ensures Ages(s, s.(clock := now))
  {
  }

  lemma StepKeepsRestores(s0: State, e: Event, now: int)
    requires RestoresInv(s0) && Enabled(s0, e, now)
    requires forall x :: x in s0.kill.consumed ==> Completed(s0.ceremonies.records, x)
    ensures RestoresInv(Step(s0, e, now).0)
  {
    hide RestoresInv, Ages, HandleWindows, HandleApprovals, HandleDevices;
    hide DoCeremonyStart, DoRestoreChallengeFinish, DoRestore;
    var s := s0.(clock := now);
    ClockAges(s0, now);
    AgesKeeps(s0, s);
    if e.CeremonyStart? {
      CeremonyStartRestores(s, e.id, e.owner, e.agentId, e.licensed);
    } else {
      if e.RestoreChallengeFinish? {
        ChallengeAges(s, e.request, e.challenge);
      } else if e.Restore? {
        RestoreAges(s, e.owner, e.id, e.signed, e.persistLost);
      } else {
        OthersSteady(s, e);
        SteadyAges(s, Handle(s, e).0);
      }
      AgesKeeps(s, Handle(s, e).0);
    }
  }

  lemma {:induction false} RunKeepsRestores(ss: seq<State>, es: seq<Timed>, i: nat)
    requires Run(ss, es) && i < |ss|
    ensures RestoresInv(ss[i])
  {
    hide Step, Enabled;
    if i > 0 {
      RunKeepsRestores(ss, es, i - 1);
      RunKeepsCeremonies(ss, es, i - 1);
      StepKeepsRestores(ss[i - 1], es[i - 1].event, es[i - 1].now);
    }
  }
}
