/**
 * Grants over whole runs: one per window, only by approval, and a window that
 * was committed for dispatch is never also vetoed.
 */
module ProtocolGrants {
  import opened Wrappers
  import opened VetoWindows
  import opened Protocol
  import opened ProtocolWindows

  ghost predicate MutuallyInverse(g: Grants) {
    && (forall jti :: jti in g.minted ==> g.minted[jti] in g.byWindow && g.byWindow[g.minted[jti]] == jti)
    && (forall id :: id in g.byWindow ==> g.byWindow[id] in g.minted && g.minted[g.byWindow[id]] == id)
  }

  ghost predicate GrantsInv(s: State) {
    && MutuallyInverse(s.grants)
    && s.grants.granted == s.grants.byWindow.Keys
    && s.grants.committed <= s.grants.minted.Keys
    && (forall id :: id in s.grants.granted ==> id in s.windows && s.windows[id].approval.Some?)
    && (forall jti :: jti in s.grants.committed && s.grants.minted[jti] in s.windows ==>
          !s.windows[s.grants.minted[jti]].status.Vetoed?)
  }

  /** A pending approval ceremony was minted for this very call, in its epoch. */
  ghost predicate ChallengeOk(s: State, id: string, c: ApprovalChallenge) {
    && id in s.windows
    && c.killEpoch == s.kill.epoch
    && c.call == s.windows[id].call
    && exists k :: 0 <= k < |s.history|
         && s.history[k] == ApprovalChallengeMinted(c.expiresAt - APPROVAL_CHALLENGE_TTL_MS, id, c.call, c.challenge)
         && KillFree(s.history, k)
  }

  ghost predicate ApprovalsInv(s: State) {
    forall id :: id in s.approvals ==> ChallengeOk(s, id, s.approvals[id])
  }

  // ---- what each accepted fact rests on --------------------------------------------------

  ghost predicate NoKillBetween(h: seq<Fact>, j: int, i: int) {
    0 <= j < i < |h| && forall k :: j <= k < i ==> !h[k].Killed?
  }

  /** The approval a commit spends, with no kill of any kind since. */
  ghost predicate CommitBacked(h: seq<Fact>, i: int)
    requires 0 <= i < |h| && h[i].Committed?
  {
    exists j :: NoKillBetween(h, j, i) && h[j].Approved? && h[j].windowId == h[i].windowId
  }

  /** The passkey-signed ceremony an approval redeems. */
  ghost predicate ApprovalBacked(cfg: Config, h: seq<Fact>, i: int)
    requires 0 <= i < |h| && h[i].Approved?
  {
    cfg.passkey ==>
      exists j :: NoKillBetween(h, j, i) && h[j].ApprovalChallengeMinted? && h[j].windowId == h[i].windowId
        && h[i].signed == Some(h[j].challenge) && h[i].at - h[j].at < APPROVAL_CHALLENGE_TTL_MS
  }

  ghost predicate FirstGrant(h: seq<Fact>, i: int)
    requires 0 <= i < |h| && h[i].GrantMinted?
  {
    forall j :: 0 <= j < i && h[j].GrantMinted? ==> h[j].windowId != h[i].windowId && h[j].jti != h[i].jti
  }

  ghost predicate GrantFactOk(cfg: Config, h: seq<Fact>, i: int)
    requires 0 <= i < |h|
  {
    && (h[i].Committed? ==> CommitBacked(h, i))
    && (h[i].Approved? ==> ApprovalBacked(cfg, h, i))
    && (h[i].GrantMinted? ==> FirstGrant(h, i))
  }

  ghost predicate GrantTraceInv(s: State) {
    && (forall i :: 0 <= i < |s.history| ==> GrantFactOk(s.cfg, s.history, i))
    && (forall i :: 0 <= i < |s.history| && s.history[i].GrantMinted? ==>
          s.history[i].windowId in s.grants.granted && s.history[i].jti in s.grants.minted)
  }

  ghost predicate Inv(s: State) {
    WindowsInv(s) && GrantsInv(s) && ApprovalsInv(s) && GrantTraceInv(s)
  }

  // ---- how the trace grows --------------------------------------------------------------------

  predicate Authority(f: Fact) {
    f.Committed? || f.Approved? || f.GrantMinted? || f.Registered?
  }

  /** What a window is registered with never changes. */
  predicate SameTerms(w: Window, w': Window) {
    w'.call == w.call && w'.purpose == w.purpose && w'.killEpoch == w.killEpoch && w'.extensionMs == w.extensionMs
  }

  /** What most handlers do: windows move on, grants stay, nothing authoritative is logged. */
  ghost predicate Drifts(s: State, s': State) {
    && s'.cfg == s.cfg && s'.grants == s.grants
    && |s.history| <= |s'.history| && s'.history[..|s.history|] == s.history
    && (forall i :: |s.history| <= i < |s'.history| ==> !Authority(s'.history[i]))
    && s.kill.epoch <= s'.kill.epoch
    && (s.kill.epoch == s'.kill.epoch <==> KillFree(s'.history, |s.history|))
    && (forall id :: id in s'.approvals ==> id in s.approvals && s'.approvals[id] == s.approvals[id])
    && (s'.kill.epoch == s.kill.epoch || s'.approvals == map[])
    && s'.windows.Keys == s.windows.Keys
    && (forall id :: id in s.windows ==>
          && SameTerms(s.windows[id], s'.windows[id]) && s'.windows[id].approval == s.windows[id].approval
          && (s'.windows[id].status.Vetoed? ==> s.windows[id].status.Vetoed? || !CommittedForDispatch(s.grants, id)))
  }

  lemma FactStays(cfg: Config, h: seq<Fact>, h': seq<Fact>, i: int)
    requires 0 <= i < |h| <= |h'| && h'[..|h|] == h && GrantFactOk(cfg, h, i)
    ensures GrantFactOk(cfg, h', i)
  {
    assert forall k :: 0 <= k < |h| ==> h'[k] == h[k];
    if h[i].Committed? {
      var j :| NoKillBetween(h, j, i) && h[j].Approved? && h[j].windowId == h[i].windowId;
      assert NoKillBetween(h', j, i);
    }
    if h[i].Approved? && cfg.passkey {
      var j :| NoKillBetween(h, j, i) && h[j].ApprovalChallengeMinted? && h[j].windowId == h[i].windowId
        && h[i].signed == Some(h[j].challenge) && h[i].at - h[j].at < APPROVAL_CHALLENGE_TTL_MS;
      assert NoKillBetween(h', j, i);
    }
  }

  lemma DriftKeepsTrace(s: State, s': State)
    requires GrantTraceInv(s) && Drifts(s, s')
    ensures GrantTraceInv(s')
  {
    assert forall k :: 0 <= k < |s.history| ==> s'.history[k] == s.history[k];
    forall i | 0 <= i < |s'.history|
      ensures GrantFactOk(s'.cfg, s'.history, i)
    {
      if i < |s.history| {
        FactStays(s.cfg, s.history, s'.history, i);
      }
    }
  }

  lemma DriftKeepsGrants(s: State, s': State)
    requires GrantsInv(s) && Drifts(s, s')
    ensures GrantsInv(s')
  {
    forall jti | jti in s'.grants.committed && s'.grants.minted[jti] in s'.windows
      ensures !s'.windows[s'.grants.minted[jti]].status.Vetoed?
    {
      var id := s.grants.minted[jti];
      assert id in s.grants.granted;
      assert CommittedForDispatch(s.grants, id);
    }
  }

  lemma ChallengeStays(s: State, s': State, id: string, c: ApprovalChallenge)
    requires Drifts(s, s') && ChallengeOk(s, id, c) && s'.kill.epoch == s.kill.epoch
    ensures ChallengeOk(s', id, c)
  {
    var k :| 0 <= k < |s.history|
      && s.history[k] == ApprovalChallengeMinted(c.expiresAt - APPROVAL_CHALLENGE_TTL_MS, id, c.call, c.challenge)
      && KillFree(s.history, k);
    assert s'.history[k] == s'.history[..|s.history|][k];
    forall i | k <= i < |s'.history|
      ensures !s'.history[i].Killed?
    {
      if i < |s.history| {
        assert s'.history[i] == s'.history[..|s.history|][i];
      }
    }
  }

  lemma DriftKeepsApprovals(s: State, s': State)
    requires ApprovalsInv(s) && Drifts(s, s')
    ensures ApprovalsInv(s')
  {
    forall id | id in s'.approvals
      ensures ChallengeOk(s', id, s'.approvals[id])
    {
      ChallengeStays(s, s', id, s.approvals[id]);
    }
  }

  lemma DriftKeepsInv(s: State, s': State)
    requires Inv(s) && Drifts(s, s') && WindowsInv(s')
    ensures Inv(s')
  {
    DriftKeepsGrants(s, s');
    DriftKeepsApprovals(s, s');
    DriftKeepsTrace(s, s');
  }

  lemma DriftsCompose(s: State, t: State, u: State)
    requires Drifts(s, t) && Drifts(t, u)
    ensures Drifts(s, u)
  {
    assert forall k :: 0 <= k < |s.history| ==> u.history[k] == t.history[k] == s.history[k];
    assert u.history[..|s.history|] == s.history;
  }

  // ---- the handlers that drift -------------------------------------------------------------------

  lemma EngageDrifts(s: State, agentId: Option<string>, persistLost: bool)
    ensures Drifts(s, Engage(s, agentId, persistLost))
  {
    assert Engage(s, agentId, persistLost).history[|s.history|].Killed?;
  }

  /** Ticking and clearing evidence leave call and approval alone, and veto nothing. */
  predicate SameAuthority(w: Window, w': Window) {
    SameTerms(w, w') && w'.approval == w.approval && (w'.status.Vetoed? <==> w.status.Vetoed?)
  }

  lemma ClearingKeepsAuthority(w: Window, deviceId: string, now: int, stands: bool)
    ensures SameAuthority(w, EvidenceRevoked(w, deviceId, now, stands))
  {
  }

  /** Every window keeps its authority, and the trace does not move. */
  lemma SameAuthorityDrifts(s: State, s': State)
    requires CalmTrace(s, s') && s'.history == s.history && s'.windows.Keys == s.windows.Keys
    requires forall id :: id in s.windows ==> SameAuthority(s.windows[id], s'.windows[id])
    ensures Drifts(s, s')
  {
  }

  lemma CleansedDrifts(s: State, id: string)
    ensures Drifts(s, Cleansed(s, id))
  {
    forall x | x in s.windows
      ensures SameAuthority(s.windows[x], Cleansed(s, id).windows[x])
    {
      ClearingKeepsAuthority(s.windows[x], id, s.clock, Stands(s.kill, s.lane, s.windows[x]));
    }
    SameAuthorityDrifts(s, Cleansed(s, id));
  }

  lemma SeveredDrifts(s: State, id: string)
    requires id in s.lane.devices
    ensures Drifts(s, Severed(s, id))
  {
    hide Drifts, Cleansed;
    var marked := s.(lane := s.lane.(devices := s.lane.devices[id := RevokedDevice(s.lane.devices[id], s.clock)]));
    NoWindowDrifts(s, marked);
    CleansedDrifts(marked, id);
    DriftsCompose(s, marked, Cleansed(marked, id));
    NoWindowDrifts(Cleansed(marked, id), Severed(s, id));
    DriftsCompose(s, Cleansed(marked, id), Severed(s, id));
  }

  lemma ExportedDrifts(s: State, exported: bool, persistLost: bool)
    ensures Drifts(s, Exported(s, exported, persistLost))
  {
    var s1 := s.(lane := s.lane.(quarantined := true));
    assert Drifts(s, s1);
    EngageDrifts(s1, None, persistLost);
    DriftsCompose(s, s1, Engage(s1, None, persistLost));
  }

  lemma {:induction false} SupersededDrifts(s: State, aliases: seq<string>)
    ensures Drifts(s, Superseded(s, aliases))
    decreases |aliases|
  {
    if |aliases| > 0 {
      var n := |aliases| - 1;
      var before := Superseded(s, aliases[..n]);
      SupersededDrifts(s, aliases[..n]);
      if Supersedable(before, aliases[n]) {
        SeveredDrifts(before, aliases[n]);
        DriftsCompose(s, before, Severed(before, aliases[n]));
      }
    }
  }

  lemma SeveredExportedDrifts(s: State, id: string, exported: bool, persistLost: bool)
    requires id in s.lane.devices
    ensures Drifts(s, Exported(Severed(s, id), exported, persistLost))
  {
    SeveredDrifts(s, id);
    ExportedDrifts(Severed(s, id), exported, persistLost);
    DriftsCompose(s, Severed(s, id), Exported(Severed(s, id), exported, persistLost));
  }

  lemma CleansedExportedDrifts(s: State, id: string, exported: bool, persistLost: bool)
    ensures Drifts(s, Exported(Cleansed(s, id), exported, persistLost))
  {
    CleansedDrifts(s, id);
    ExportedDrifts(Cleansed(s, id), exported, persistLost);
    DriftsCompose(s, Cleansed(s, id), Exported(Cleansed(s, id), exported, persistLost));
  }

  lemma LostDrifts(s: State, persistLost: bool)
    ensures Drifts(s, Engage(s.(lane := Unresolved(s.lane)), None, persistLost))
  {
    var lost := s.(lane := Unresolved(s.lane));
    NoWindowDrifts(s, lost);
    EngageDrifts(lost, None, persistLost);
    DriftsCompose(s, lost, Engage(lost, None, persistLost));
  }

  lemma RevokeStaticDrifts(s: State, id: string, exported: bool, persistLost: bool)
    ensures Drifts(s, DoRevokeStatic(s, id, exported, persistLost).0)
  {
    RevokeStaticOutcomes(s, id, exported, persistLost);
    NoWindowDrifts(s, s);
    NoWindowDrifts(s, s.(lane := s.lane.(quarantined := false)));
    if id in s.lane.devices {
      SeveredExportedDrifts(s, id, exported, persistLost);
    }
  }

  lemma RevokeEnrolledDrifts(s: State, id: string, published: bool, exported: bool, persistLost: bool)
    ensures Drifts(s, DoRevokeEnrolled(s, id, published, exported, persistLost).0)
  {
    RevokeEnrolledOutcomes(s, id, published, exported, persistLost);
    NoWindowDrifts(s, s);
    CleansedExportedDrifts(s, id, exported, persistLost);
    LostDrifts(s, persistLost);
    if id in s.lane.devices {
      SeveredExportedDrifts(s, id, exported, persistLost);
    }
  }

  lemma AdmitDrifts(s: State, e: Event)
    requires e.Admit?
    ensures Drifts(s, Handle(s, e).0)
  {
    hide HandleWindows, HandleApprovals, HandleSwitch, Drifts, Superseded, Exported;
    var s1 := s.(lane := s.lane.(devices := s.lane.devices[e.deviceId := Device(1, None, true, true)]));
    NoWindowDrifts(s, s1);
    SupersededDrifts(s1, e.aliases);
    var s2 := Superseded(s1, e.aliases);
    DriftsCompose(s, s1, s2);
    ExportedDrifts(s2, false, e.persistLost);
    DriftsCompose(s, s2, Exported(s2, false, e.persistLost));
  }

  /** At most one harmless fact, and no kill state or approval ceremony moved. */
  ghost predicate CalmTrace(s: State, s': State) {
    && s'.cfg == s.cfg && s'.grants == s.grants && s'.approvals == s.approvals && s'.kill.epoch == s.kill.epoch
    && (s'.history == s.history
        || (|s'.history| == |s.history| + 1 && s'.history[..|s.history|] == s.history
            && !Authority(s'.history[|s.history|]) && !s'.history[|s.history|].Killed?))
  }

  lemma OneWindowDrifts(s: State, s': State, id: string)
    requires CalmTrace(s, s') && id in s.windows && id in s'.windows && s'.windows == s.windows[id := s'.windows[id]]
    requires SameTerms(s.windows[id], s'.windows[id]) && s'.windows[id].approval == s.windows[id].approval
    requires s'.windows[id].status.Vetoed? ==> s.windows[id].status.Vetoed? || !CommittedForDispatch(s.grants, id)
    ensures Drifts(s, s')
  {
  }

  lemma NoWindowDrifts(s: State, s': State)
    requires CalmTrace(s, s') && s'.windows == s.windows
    ensures Drifts(s, s')
  {
  }

  lemma DetailDrifts(s: State, e: Event)
    requires e.Detail?
    ensures Drifts(s, Handle(s, e).0)
  {
    hide HandleApprovals, HandleSwitch, HandleDevices;
    var s' := Handle(s, e).0;
    if e.id in s.windows && Authenticates(s, e.deviceId) {
      OneWindowDrifts(s, s', e.id);
    }
  }

  lemma SeenDrifts(s: State, e: Event)
    requires e.SeenBy?
    ensures Drifts(s, Handle(s, e).0)
  {
    hide HandleApprovals, HandleSwitch, HandleDevices, DoSeen, Drifts;
    var s' := Handle(s, e).0;
    SeenOutcome(s, e.id, e.deviceId, e.deliveryId, e.revision, e.content);
    if s'.windows != s.windows {
      OneWindowDrifts(s, s', e.id);
    } else {
      NoWindowDrifts(s, s');
    }
  }

  lemma PollDrifts(s: State, e: Event)
    requires e.Poll?
    ensures Drifts(s, Handle(s, e).0)
  {
    hide HandleApprovals, HandleSwitch, HandleDevices, Drifts;
    SameAuthorityDrifts(s, Handle(s, e).0);
  }

  lemma VetoDrifts(s: State, e: Event)
    requires e.Veto?
    ensures Drifts(s, Handle(s, e).0)
  {
    hide HandleApprovals, HandleSwitch, HandleDevices;
    var s' := Handle(s, e).0;
    if s' != s {
      OneWindowDrifts(s, s', e.id);
    }
  }

  lemma CeremonyStartCalm(s: State, id: string, owner: string, agentId: Option<string>, licensed: bool)
    ensures CalmTrace(s, DoCeremonyStart(s, id, owner, agentId, licensed).0)
    ensures DoCeremonyStart(s, id, owner, agentId, licensed).0.windows == s.windows
  {
    hide DoCeremonyStart;
    CeremonyStartOutcome(s, id, owner, agentId, licensed);
  }

  lemma CeremonyStartDrifts(s: State, e: Event)
    requires e.CeremonyStart?
    ensures Drifts(s, Handle(s, e).0)
  {
    hide HandleWindows, HandleApprovals, HandleDevices, DoCeremonyStart, Drifts, CalmTrace;
    CeremonyStartCalm(s, e.id, e.owner, e.agentId, e.licensed);
    NoWindowDrifts(s, Handle(s, e).0);
  }

  lemma ApprovalStartDrifts(s: State, e: Event)
    requires e.ApprovalChallengeStart?
    ensures Drifts(s, Handle(s, e).0)
  {
    hide HandleWindows, HandleSwitch, HandleDevices;
    NoWindowDrifts(s, Handle(s, e).0);
  }

  lemma RestoreChallengeStartCalm(s: State, request: string, owner: string, id: string)
    ensures CalmTrace(s, DoRestoreChallengeStart(s, request, owner, id).0)
    ensures DoRestoreChallengeStart(s, request, owner, id).0.windows == s.windows
  {
  }

  lemma RestoreChallengeFinishCalm(s: State, request: string, challenge: string)
    ensures CalmTrace(s, DoRestoreChallengeFinish(s, request, challenge).0)
    ensures DoRestoreChallengeFinish(s, request, challenge).0.windows == s.windows
  {
  }

  lemma RestoreChallengeDrifts(s: State, e: Event)
    requires e.RestoreChallengeStart? || e.RestoreChallengeFinish?
    ensures Drifts(s, Handle(s, e).0)
  {
    hide HandleWindows, HandleApprovals, HandleDevices, DoRestoreChallengeStart, DoRestoreChallengeFinish;
    hide Drifts, CalmTrace;
    if e.RestoreChallengeStart? {
      RestoreChallengeStartCalm(s, e.request, e.owner, e.id);
    } else {
      RestoreChallengeFinishCalm(s, e.request, e.challenge);
    }
    NoWindowDrifts(s, Handle(s, e).0);
  }

  lemma KillDrifts(s: State, e: Event)
    requires e.EngageKill?
    ensures Drifts(s, Handle(s, e).0)
  {
    hide HandleWindows, HandleApprovals, HandleDevices, Engage, Drifts;
    EngageDrifts(s, e.agentId, e.persistLost);
    NoWindowDrifts(s, s);
  }

  lemma ConfirmDrifts(s: State, owner: string, id: string, signed: Option<string>, persistLost: bool)
    requires id in s.ceremonies.records
    ensures Drifts(s, ConfirmAndRestore(s, owner, id, signed, persistLost).0)
  {
    NoWindowDrifts(s, ConfirmAndRestore(s, owner, id, signed, persistLost).0);
  }

  lemma RestoreDrifts(s: State, e: Event)
    requires e.Restore?
    ensures Drifts(s, Handle(s, e).0)
  {
    hide HandleWindows, HandleApprovals, HandleDevices;
    if RestoreAdmissible(s, e.owner, e.id) {
      var s1 := s.(ceremonies := s.ceremonies.(challenges := s.ceremonies.challenges - {e.id}));
      NoWindowDrifts(s, s1);
      ConfirmDrifts(s1, e.owner, e.id, e.signed, e.persistLost);
      DriftsCompose(s, s1, ConfirmAndRestore(s1, e.owner, e.id, e.signed, e.persistLost).0);
      ConfirmDrifts(s, e.owner, e.id, None, e.persistLost);
    }
  }

  // ---- the handlers that create authority --------------------------------------------------------

  /** The finish of an approval request: it is over, or one challenge was minted. */
  lemma ApprovalChallengeOutcome(s: State, request: string, challenge: string, rendered: bool)
    ensures var s' := DoApprovalChallengeFinish(s, request, challenge, rendered).0;
            var s1 := s.(inFlight := s.inFlight - {request});
            || s' == s
            || s' == s1
            || exists id: string :: id in s.windows && s' == WithApprovalChallenge(s1, id, challenge)
  {
    var s' := DoApprovalChallengeFinish(s, request, challenge, rendered).0;
    var s1 := s.(inFlight := s.inFlight - {request});
    if s' != s && s' != s1 {
      assert s' == WithApprovalChallenge(s1, s.inFlight[request].windowId, challenge);
    }
  }

  /** One more approval challenge, for the call and the epoch of the moment. */
  function WithApprovalChallenge(s: State, id: string, challenge: string): State
    requires id in s.windows
  {
    var call := s.windows[id].call;
    var c := ApprovalChallenge(challenge, call, s.kill.epoch, s.clock + APPROVAL_CHALLENGE_TTL_MS);
    Log(s.(approvals := s.approvals[id := c]), ApprovalChallengeMinted(s.clock, id, call, challenge))
  }

  lemma FreshChallengeOk(s: State, id: string, challenge: string)
    requires id in s.windows
    ensures var s' := WithApprovalChallenge(s, id, challenge);
            ChallengeOk(s', id, s'.approvals[id])
  {
    var s' := WithApprovalChallenge(s, id, challenge);
    assert KillFree(s'.history, |s.history|);
  }

  lemma MintedChallengeKeepsInv(s: State, id: string, challenge: string)
    requires GrantsInv(s) && ApprovalsInv(s) && GrantTraceInv(s) && id in s.windows
    ensures var s' := WithApprovalChallenge(s, id, challenge);
            GrantsInv(s') && ApprovalsInv(s') && GrantTraceInv(s')
  {
    hide ChallengeOk, Drifts, GrantsInv, GrantTraceInv;
    var s' := WithApprovalChallenge(s, id, challenge);
    var plain := s'.(approvals := s.approvals);
    NoWindowDrifts(s, plain);
    DriftKeepsGrants(s, plain);
    DriftKeepsApprovals(s, plain);
    DriftKeepsTrace(s, plain);
    FreshChallengeOk(s, id, challenge);
    OneApproval(plain, s', id);
    SameGrants(plain, s');
  }

  lemma SameGrants(s: State, s': State)
    requires GrantsInv(s) && GrantTraceInv(s)
    requires s'.windows == s.windows && s'.grants == s.grants && s'.history == s.history && s'.cfg == s.cfg
    ensures GrantsInv(s') && GrantTraceInv(s')
  {
  }

  lemma ApprovalChallengeKeepsInv(s: State, e: Event)
    requires Inv(s) && e.ApprovalChallengeFinish? && WindowsInv(Handle(s, e).0)
    ensures Inv(Handle(s, e).0)
  {
    hide HandleWindows, HandleSwitch, HandleDevices, DoApprovalChallengeFinish;
    hide WindowsInv, GrantsInv, ApprovalsInv, GrantTraceInv, Drifts, WithApprovalChallenge;
    var s' := Handle(s, e).0;
    ApprovalChallengeOutcome(s, e.request, e.challenge, e.rendered);
    var s1 := s.(inFlight := s.inFlight - {e.request});
    NoWindowDrifts(s, s1);
    DriftKeepsGrants(s, s1);
    DriftKeepsApprovals(s, s1);
    DriftKeepsTrace(s, s1);
    if s' != s && s' != s1 {
      var id: string :| id in s.windows && s' == WithApprovalChallenge(s1, id, e.challenge);
      MintedChallengeKeepsInv(s1, id, e.challenge);
    }
  }

  lemma OneApproval(s: State, s': State, id: string)
    requires ApprovalsInv(s) && id in s'.approvals && ChallengeOk(s', id, s'.approvals[id])
    requires s' == s.(approvals := s.approvals[id := s'.approvals[id]])
    ensures ApprovalsInv(s')
  {
    forall x | x in s'.approvals
      ensures ChallengeOk(s', x, s'.approvals[x])
    {
      if x != id {
        assert ChallengeOk(s, x, s.approvals[x]);
      }
    }
  }

  /** A fact resting on an earlier one with no kill since. */
  lemma KillFreeToNow(h: seq<Fact>, j: int, f: Fact)
    requires 0 <= j < |h| && KillFree(h, j)
    ensures NoKillBetween(h + [f], j, |h|)
  {
  }

  lemma AuthorityKeepsTrace(s: State, s': State)
    requires GrantTraceInv(s) && s'.cfg == s.cfg
    requires |s'.history| == |s.history| + 1 && s'.history[..|s.history|] == s.history
    requires GrantFactOk(s.cfg, s'.history, |s.history|)
    requires s.grants.granted <= s'.grants.granted && s.grants.minted.Keys <= s'.grants.minted.Keys
    requires var f := s'.history[|s.history|];
             f.GrantMinted? ==> f.windowId in s'.grants.granted && f.jti in s'.grants.minted
    ensures GrantTraceInv(s')
  {
    assert forall k :: 0 <= k < |s.history| ==> s'.history[k] == s.history[k];
    forall i | 0 <= i < |s'.history|
      ensures GrantFactOk(s'.cfg, s'.history, i)
    {
      if i < |s.history| {
        FactStays(s.cfg, s.history, s'.history, i);
      }
    }
  }

  lemma ReadVetoKeepsInv(s: State, e: Event)
    requires Inv(s) && e.ReadVeto? && e.jti !in s.grants.minted && WindowsInv(Handle(s, e).0)
    ensures Inv(Handle(s, e).0)
  {
    hide WindowsInv, HandleApprovals, HandleSwitch, HandleDevices;
    if e.id in s.windows {
      var s1 := s.(windows := s.windows[e.id := TickedIn(s, s.windows[e.id])]);
      OneWindowDrifts(s, s1, e.id);
      DriftKeepsGrants(s, s1);
      DriftKeepsApprovals(s, s1);
      DriftKeepsTrace(s, s1);
      var s' := Handle(s, e).0;
      if s' != s1 {
        MintKeepsInv(s1, s', e.id, e.jti);
      }
    }
  }

  lemma RegisterKeepsInv(s: State, e: Event)
    requires Inv(s) && e.Register? && e.id !in s.windows && WindowsInv(Handle(s, e).0)
    ensures Inv(Handle(s, e).0)
  {
    hide WindowsInv, HandleApprovals, HandleSwitch, HandleDevices;
    var s' := Handle(s, e).0;
    if s' != s {
      var more := s.(windows := s'.windows);
      MoreWindowsKeepInv(s, more);
      AuthorityKeepsTrace(more, s');
      ApprovalsIgnoreGrants(more, s');
    }
  }

  lemma MoreWindowsKeepInv(s: State, s': State)
    requires GrantsInv(s) && ApprovalsInv(s) && GrantTraceInv(s)
    requires s' == s.(windows := s'.windows) && s.windows.Keys <= s'.windows.Keys
    requires forall id :: id in s.windows ==> s'.windows[id] == s.windows[id]
    requires forall id :: id in s'.windows && id !in s.windows ==> !s'.windows[id].status.Vetoed?
    ensures GrantsInv(s') && ApprovalsInv(s') && GrantTraceInv(s')
  {
    forall id | id in s'.approvals
      ensures ChallengeOk(s', id, s'.approvals[id])
    {
      assert ChallengeOk(s, id, s.approvals[id]);
    }
  }

  lemma MintKeepsInv(s: State, s': State, id: string, jti: string)
    requires GrantsInv(s) && ApprovalsInv(s) && GrantTraceInv(s) && WindowsInv(s')
    requires id in s.windows && s.windows[id].approval.Some? && id !in s.grants.granted && jti !in s.grants.minted
    requires s' == Log(s.(grants := MintedFor(s.grants, id, jti)), GrantMinted(s.clock, id, jti))
    ensures Inv(s')
  {
    assert FirstGrant(s'.history, |s.history|);
    AuthorityKeepsTrace(s, s');
    GrantingKeepsGrants(s, id, jti);
    ApprovalsIgnoreGrants(s, s');
  }

  lemma GrantingKeepsGrants(s: State, id: string, jti: string)
    requires GrantsInv(s) && id in s.windows && s.windows[id].approval.Some?
    requires id !in s.grants.granted && jti !in s.grants.minted
    ensures GrantsInv(s.(grants := MintedFor(s.grants, id, jti)))
  {
  }

  /** One more fact that is no kill: every pending ceremony keeps its standing. */
  lemma ApprovalsIgnoreGrants(s: State, s': State)
    requires ApprovalsInv(s) && s'.windows == s.windows && s'.kill == s.kill && s'.approvals == s.approvals
    requires |s'.history| == |s.history| + 1 && s'.history[..|s.history|] == s.history
    requires !s'.history[|s.history|].Killed?
    ensures ApprovalsInv(s')
  {
    var f := s'.history[|s.history|];
    assert s'.history == s.history + [f];
    forall id | id in s'.approvals
      ensures ChallengeOk(s', id, s'.approvals[id])
    {
      ChallengeOutlivesFact(s, s', f, id, s.approvals[id]);
    }
  }

  lemma ChallengeOutlivesFact(s: State, s': State, f: Fact, id: string, c: ApprovalChallenge)
    requires ChallengeOk(s, id, c) && s'.windows == s.windows && s'.kill == s.kill
    requires s'.history == s.history + [f] && !f.Killed?
    ensures ChallengeOk(s', id, c)
  {
    var k :| 0 <= k < |s.history|
      && s.history[k] == ApprovalChallengeMinted(c.expiresAt - APPROVAL_CHALLENGE_TTL_MS, id, c.call, c.challenge)
      && KillFree(s.history, k);
    assert s'.history[k] == s.history[k];
  }

  lemma CommittingKeepsGrants(s: State, jti: string)
    requires GrantsInv(s) && CommitAllowed(s, jti)
    ensures GrantsInv(DoCommit(s, jti).0)
  {
  }

  lemma CommitIsBacked(s: State, jti: string)
    requires WindowsInv(s) && CommitAllowed(s, jti)
    ensures CommitBacked(DoCommit(s, jti).0.history, |s.history|)
  {
    var id := s.grants.minted[jti];
    var a := s.windows[id].approval.value;
    assert WindowOk(s.history, s.kill, s.lane.devices, id, s.windows[id]);
    var j :| ApprovedAt(s.history, j, id, a) && (a.epoch == s.kill.epoch ==> KillFree(s.history, j));
    KillFreeToNow(s.history, j, Committed(s.clock, id, jti));
  }

  lemma CommitKeepsInv(s: State, jti: string)
    requires Inv(s) && WindowsInv(DoCommit(s, jti).0)
    ensures Inv(DoCommit(s, jti).0)
  {
    if CommitAllowed(s, jti) {
      CommittingKeepsGrants(s, jti);
      CommitIsBacked(s, jti);
      AuthorityKeepsTrace(s, DoCommit(s, jti).0);
      ApprovalsIgnoreGrants(s, DoCommit(s, jti).0);
    }
  }

  /** Redeeming a live approval ceremony backs the approval it yields. */
  lemma RedemptionBacks(s: State, id: string, signed: Option<string>, f: Fact)
    requires ApprovalsInv(s) && id in s.windows && ApprovalSigned(s, id, s.windows[id], signed)
    requires f.Approved? && f.at == s.clock && f.windowId == id && f.signed == signed
    ensures ApprovalBacked(s.cfg, s.history + [f], |s.history|)
  {
    var c := s.approvals[id];
    assert ChallengeOk(s, id, c);
    var k :| 0 <= k < |s.history|
      && s.history[k] == ApprovalChallengeMinted(c.expiresAt - APPROVAL_CHALLENGE_TTL_MS, id, c.call, c.challenge)
      && KillFree(s.history, k);
    KillFreeToNow(s.history, k, f);
  }

  lemma ApprovingKeepsInv(s: State, id: string, owner: string, signed: Option<string>)
    requires GrantsInv(s) && ApprovalsInv(s) && GrantTraceInv(s) && id in s.windows
    requires ApprovalBacked(s.cfg, s.history + [Approved(s.clock, id, owner, signed)], |s.history|)
    requires WindowsInv(ApproveWindow(s, id, owner, signed).0) && WindowsInv(s)
    ensures Inv(ApproveWindow(s, id, owner, signed).0)
  {
    hide WindowsInv;
    var s' := ApproveWindow(s, id, owner, signed).0;
    if s' != s {
      AuthorityKeepsTrace(s, s');
      var t := s.(windows := s'.windows);
      assert ApprovalsInv(t) by {
        forall x | x in t.approvals
          ensures ChallengeOk(t, x, t.approvals[x])
        {
          assert ChallengeOk(s, x, s.approvals[x]);
        }
      }
      ApprovalsIgnoreGrants(t, s');
    }
  }

  /** An approval attempt spends the ceremony it redeems. */
  lemma SpendingKeepsInv(s: State, id: string)
    requires Inv(s)
    ensures Inv(s.(approvals := s.approvals - {id}))
  {
    hide WindowsInv, GrantsInv, ApprovalsInv, GrantTraceInv, Drifts;
    var dropped := s.(approvals := s.approvals - {id});
    ApprovalGone(s, id);
    SameWindowsInv(s, dropped);
    DriftKeepsInv(s, dropped);
  }

  lemma ApprovalGone(s: State, id: string)
    ensures Drifts(s, s.(approvals := s.approvals - {id}))
  {
  }

  lemma ApproveKeepsInv(s: State, e: Event)
    requires Inv(s) && e.Approve? && WindowsInv(Handle(s, e).0)
    ensures Inv(Handle(s, e).0)
  {
    hide HandleWindows, HandleSwitch, HandleDevices;
    hide ApprovalBacked;
    if s.cfg.passkey {
      var dropped := s.(approvals := s.approvals - {e.id});
      SpendingKeepsInv(s, e.id);
      if e.id in s.windows && ApprovalSigned(s, e.id, s.windows[e.id], e.signed) {
        RedemptionBacks(s, e.id, e.signed, Approved(s.clock, e.id, e.owner, e.signed));
        if Handle(s, e).0 == ApproveWindow(dropped, e.id, e.owner, e.signed).0 {
          ApprovingKeepsInv(dropped, e.id, e.owner, e.signed);
        }
      }
    } else if e.id in s.windows {
      KeyApprovalBacks(s, e.id, e.owner);
      if Handle(s, e).0 == ApproveWindow(s, e.id, e.owner, None).0 {
        ApprovingKeepsInv(s, e.id, e.owner, None);
      }
    }
  }

  lemma KeyApprovalBacks(s: State, id: string, owner: string)
    requires !s.cfg.passkey
    ensures ApprovalBacked(s.cfg, s.history + [Approved(s.clock, id, owner, None)], |s.history|)
  {
  }

  predicate CreatesAuthority(e: Event) {
    e.Register? || e.ReadVeto? || e.Commit? || e.Approve? || e.ApprovalChallengeFinish?
  }

  lemma OthersDrift(s: State, e: Event)
    requires !CreatesAuthority(e)
    ensures Drifts(s, Handle(s, e).0)
  {
    hide HandleWindows, HandleApprovals, HandleSwitch, DoRevokeEnrolled, DoRevokeStatic, DoAdmit;
    if e.RevokeStatic? {
      RevokeStaticDrifts(s, e.deviceId, e.exported, e.persistLost);
    } else if e.RevokeEnrolled? {
      RevokeEnrolledDrifts(s, e.deviceId, e.published, e.exported, e.persistLost);
    } else if e.RegistryLost? {
      NoWindowDrifts(s, Handle(s, e).0);
    } else if e.Admit? {
      AdmitDrifts(s, e);
    } else if e.Veto? {
      VetoDrifts(s, e);
    } else if e.EngageKill? {
      KillDrifts(s, e);
    } else if e.Restore? {
      RestoreDrifts(s, e);
    } else if e.Poll? {
      PollDrifts(s, e);
    } else if e.Detail? {
      DetailDrifts(s, e);
    } else if e.SeenBy? {
      SeenDrifts(s, e);
    } else if e.CeremonyStart? {
      CeremonyStartDrifts(s, e);
    } else if e.ApprovalChallengeStart? {
      ApprovalStartDrifts(s, e);
    } else {
      RestoreChallengeDrifts(s, e);
    }
  }

  lemma ClockKeepsInv(s: State, now: int)
    requires Inv(s)
    ensures Inv(s.(clock := now))
  {
    NoWindowDrifts(s, s.(clock := now));
    DriftKeepsInv(s, s.(clock := now));
  }

  lemma StepKeepsInv(s0: State, e: Event, now: int)
    requires Inv(s0) && Enabled(s0, e, now)
    ensures Inv(Step(s0, e, now).0)
  {
    hide HandleWindows, HandleSwitch, HandleDevices, WindowsInv, GrantsInv, ApprovalsInv, GrantTraceInv, Drifts;
    StepWindows(s0, e, now);
    var s := s0.(clock := now);
    ClockKeepsInv(s0, now);
    if e.Register? {
      RegisterKeepsInv(s, e);
    } else if e.ReadVeto? {
      ReadVetoKeepsInv(s, e);
    } else if e.Commit? {
      CommitKeepsInv(s, e.jti);
    } else if e.Approve? {
      ApproveKeepsInv(s, e);
    } else if e.ApprovalChallengeFinish? {
      ApprovalChallengeKeepsInv(s, e);
    } else {
      OthersDrift(s, e);
      DriftKeepsInv(s, Handle(s, e).0);
    }
  }

  lemma {:induction false} RunKeepsInv(ss: seq<State>, es: seq<Timed>, i: nat)
    requires Run(ss, es) && i < |ss|
    ensures Inv(ss[i])
  {
    if i > 0 {
      RunKeepsInv(ss, es, i - 1);
      StepKeepsInv(ss[i - 1], es[i - 1].event, es[i - 1].now);
    }
  }
}
