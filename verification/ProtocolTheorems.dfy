/**
 * What the authority protocol promises over whole runs, whatever order the
 * requests arrive in and however device standing and the kill switch move.
 */
module ProtocolTheorems {
  import opened Wrappers
  import opened VetoWindows
  import opened KillStateFile
  import opened Protocol
  import opened ProtocolWindows
  import opened ProtocolGrants
  import opened ProtocolCeremonies
  import opened ProtocolShowings
  import R = ProtocolRestores
  import TwoGo

  // ---- epochs are sufficient -------------------------------------------------------------

  /** A current approval epoch, or a current epoch on a released window, rules out every stop. */
  lemma CurrentEpochMeansLive(ss: seq<State>, es: seq<Timed>, i: nat, id: string)
    requires Run(ss, es) && i < |ss| && id in ss[i].windows
    ensures var w, kill := ss[i].windows[id], ss[i].kill;
            || (w.approval.Some? && w.approval.value.epoch == kill.epoch)
            || (w.status.Released? && w.killEpoch == kill.epoch)
            ==> !kill.killed && w.call.agentId !in kill.agents
  {
    RunWindows(ss, es, i);
    assert WindowOk(ss[i].history, ss[i].kill, ss[i].lane.devices, id, ss[i].windows[id]);
  }

  /** The commit handler's kill and agent checks are implied by its epoch check. */
  lemma CommitNeedsOnlyTheEpoch(ss: seq<State>, es: seq<Timed>, i: nat, jti: string)
    requires Run(ss, es) && i < |ss|
    ensures CommitAllowed(ss[i], jti) <==>
              && jti in ss[i].grants.minted && ss[i].grants.minted[jti] in ss[i].windows
              && var w := ss[i].windows[ss[i].grants.minted[jti]];
                 !w.status.Vetoed? && w.approval.Some? && w.approval.value.epoch == ss[i].kill.epoch
  {
    if jti in ss[i].grants.minted && ss[i].grants.minted[jti] in ss[i].windows {
      CurrentEpochMeansLive(ss, es, i, ss[i].grants.minted[jti]);
    }
  }

  /** GET /veto answers "released", or hands out a grant, only while nothing stops the agent. */
  lemma NothingReleasedUnderAKill(ss: seq<State>, es: seq<Timed>, i: nat)
    requires Run(ss, es) && i < |es| && es[i].event.ReadVeto?
    requires var a := Step(ss[i], es[i].event, es[i].now).1; a == Showing(Released) || a.Grant?
    ensures es[i].event.id in ss[i].windows
    ensures !ss[i].kill.killed && ss[i].windows[es[i].event.id].call.agentId !in ss[i].kill.agents
  {
    CurrentEpochMeansLive(ss, es, i + 1, es[i].event.id);
  }

  /** A minted grant rests on an unexpired approval of its window with no kill since. */
  lemma GrantMeans(s: State, id: string, jti: string)
    requires DoReadVeto(s, id, jti).1.Grant?
    ensures id in s.windows && s.windows[id].approval.Some?
    ensures var a := s.windows[id].approval.value;
            a.epoch == s.kill.epoch && s.clock < a.at + s.cfg.grantTtlMs
  {
  }

  lemma GrantRestsOnApproval(ss: seq<State>, es: seq<Timed>, i: nat)
    requires Run(ss, es) && i < |es| && es[i].event.ReadVeto?
    requires Step(ss[i], es[i].event, es[i].now).1.Grant?
    ensures exists j :: 0 <= j < |ss[i].history| && KillFree(ss[i].history, j) && ss[i].history[j].Approved?
              && ss[i].history[j].windowId == es[i].event.id
              && es[i].now < ss[i].history[j].at + ss[i].cfg.grantTtlMs
  {
    hide DoReadVeto;
    var id := es[i].event.id;
    GrantMeans(ss[i].(clock := es[i].now), id, es[i].event.jti);
    RunWindows(ss, es, i);
    assert WindowOk(ss[i].history, ss[i].kill, ss[i].lane.devices, id, ss[i].windows[id]);
    var a := ss[i].windows[id].approval.value;
    var j :| ApprovedAt(ss[i].history, j, id, a) && (a.epoch == ss[i].kill.epoch ==> KillFree(ss[i].history, j));
  }

  // ---- grants are exclusive -----------------------------------------------------------------

  /** A window yields at most one grant, and a grant belongs to one window. */
  lemma OneGrantPerWindow(ss: seq<State>, es: seq<Timed>, i: nat, a: nat, b: nat)
    requires Run(ss, es) && i < |ss| && a < b < |ss[i].history|
    requires ss[i].history[a].GrantMinted? && ss[i].history[b].GrantMinted?
    ensures ss[i].history[a].windowId != ss[i].history[b].windowId
    ensures ss[i].history[a].jti != ss[i].history[b].jti
    ensures MutuallyInverse(ss[i].grants)
  {
    RunKeepsInv(ss, es, i);
    assert GrantFactOk(ss[i].cfg, ss[i].history, b);
  }

  /**
   * Every commit spends an approval of its own window that no kill, global or
   * scoped, came after; with a passkey, that approval redeemed a challenge of
   * the window likewise.
   */
  lemma CommitsAreApproved(ss: seq<State>, es: seq<Timed>, i: nat, c: nat)
    requires Run(ss, es) && i < |ss| && c < |ss[i].history| && ss[i].history[c].Committed?
    ensures exists j :: NoKillBetween(ss[i].history, j, c) && ss[i].history[j].Approved?
              && ss[i].history[j].windowId == ss[i].history[c].windowId
              && (ss[i].cfg.passkey ==> ApprovalBacked(ss[i].cfg, ss[i].history, j))
  {
    RunKeepsInv(ss, es, i);
    var h := ss[i].history;
    assert GrantFactOk(ss[i].cfg, h, c);
    var j :| NoKillBetween(h, j, c) && h[j].Approved? && h[j].windowId == h[c].windowId;
    assert GrantFactOk(ss[i].cfg, h, j);
  }

  // ---- how windows move --------------------------------------------------------------------

  /** What one step may do to a window: a veto is final, an approval sticks, a release is witnessed. */
  predicate WindowMoves(kill: Kill, lane: Lane, now: int, w: Window, w': Window) {
    && SameTerms(w, w')
    && (w.status.Vetoed? ==> w' == w)
    && (w.approval.Some? ==> w'.approval == w.approval)
    && (!IsOpen(w) ==>
          && w' == w.(status := w'.status, approval := w'.approval, vetoedBy := w'.vetoedBy)
          && (w'.status == w.status || w'.status.Vetoed?))
    && (IsOpen(w) && w'.status.Released? ==>
          && Stands(kill, lane, w) && now >= w.deadline
          && w'.releasedAt == Some(w.deadline) && w'.evidence == w.evidence && w'.revision == w.revision)
  }

  predicate Moves(s: State, s': State) {
    && s.grants.committed <= s'.grants.committed
    && (forall id :: id in s.grants.byWindow ==>
          id in s'.grants.byWindow && (s.grants.byWindow[id] == s'.grants.byWindow[id] || id !in s.grants.granted))
    && (forall id :: id in s.windows ==>
          id in s'.windows && WindowMoves(s.kill, s.lane, s.clock, s.windows[id], s'.windows[id]))
  }

  /** A revocation sweep: an open window keeps its evidence untouched or loses it. */
  predicate Swept(kill: Kill, lane: Lane, now: int, w: Window, w': Window) {
    && WindowMoves(kill, lane, now, w, w')
    && (!IsOpen(w) ==> w' == w)
    && (IsOpen(w') && w'.evidence.Some? ==> w' == w)
  }

  predicate FewerUsable(lane: Lane, lane': Lane) {
    && lane'.quarantined == lane.quarantined
    && lane'.devices.Keys == lane.devices.Keys
    && forall d :: d in lane'.devices && Usable(lane'.devices[d]) ==> lane'.devices[d] == lane.devices[d]
  }

  predicate Sweeps(s: State, s': State) {
    && s'.kill == s.kill && s'.clock == s.clock && s'.grants == s.grants
    && FewerUsable(s.lane, s'.lane)
    && s'.windows.Keys == s.windows.Keys
    && forall id :: id in s.windows ==> Swept(s.kill, s.lane, s.clock, s.windows[id], s'.windows[id])
  }

  lemma SweptComposes(kill: Kill, lane: Lane, lane': Lane, now: int, w: Window, w': Window, w'': Window)
    requires FewerUsable(lane, lane') && Swept(kill, lane, now, w, w') && Swept(kill, lane', now, w', w'')
    ensures Swept(kill, lane, now, w, w'')
  {
    if IsOpen(w) && w''.status.Released? && IsOpen(w') {
      assert Stands(kill, lane', w');
      assert w' == w;
    }
  }

  lemma SweepsCompose(s: State, t: State, u: State)
    requires Sweeps(s, t) && Sweeps(t, u)
    ensures Sweeps(s, u)
  {
    forall id | id in s.windows
      ensures Swept(s.kill, s.lane, s.clock, s.windows[id], u.windows[id])
    {
      SweptComposes(s.kill, s.lane, t.lane, s.clock, s.windows[id], t.windows[id], u.windows[id]);
    }
  }

  lemma CleansedSweeps(s: State, id: string)
    ensures Sweeps(s, Cleansed(s, id))
  {
  }

  lemma SeveredSweeps(s: State, id: string)
    requires id in s.lane.devices
    ensures Sweeps(s, Severed(s, id))
  {
    var marked := s.(lane := s.lane.(devices := s.lane.devices[id := RevokedDevice(s.lane.devices[id], s.clock)]));
    CleansedSweeps(marked, id);
    assert Sweeps(s, marked);
    SweepsCompose(s, marked, Cleansed(marked, id));
  }

  lemma {:induction false} SupersededSweeps(s: State, aliases: seq<string>)
    ensures Sweeps(s, Superseded(s, aliases))
    decreases |aliases|
  {
    if |aliases| > 0 {
      var n := |aliases| - 1;
      var before := Superseded(s, aliases[..n]);
      SupersededSweeps(s, aliases[..n]);
      if Supersedable(before, aliases[n]) {
        SeveredSweeps(before, aliases[n]);
        SweepsCompose(s, before, Severed(before, aliases[n]));
      }
    }
  }

  lemma SweepsMove(s: State, t: State, s': State)
    requires Sweeps(s, t) && s'.windows == t.windows && s'.grants == s.grants
    ensures Moves(s, s')
  {
  }

  lemma RevokeStaticMoves(s: State, id: string, exported: bool, persistLost: bool)
    ensures Moves(s, DoRevokeStatic(s, id, exported, persistLost).0)
  {
    var s' := DoRevokeStatic(s, id, exported, persistLost).0;
    RevokeStaticOutcomes(s, id, exported, persistLost);
    if s'.windows == s.windows {
      NoWindowMoves(s, s');
    } else {
      SeveredSweeps(s, id);
      SweepsMove(s, Severed(s, id), s');
    }
  }

  lemma RevokeEnrolledMoves(s: State, id: string, published: bool, exported: bool, persistLost: bool)
    ensures Moves(s, DoRevokeEnrolled(s, id, published, exported, persistLost).0)
  {
    var s' := DoRevokeEnrolled(s, id, published, exported, persistLost).0;
    RevokeEnrolledOutcomes(s, id, published, exported, persistLost);
    CleansedSweeps(s, id);
    if s'.windows == s.windows {
      NoWindowMoves(s, s');
    } else if s'.windows == Cleansed(s, id).windows {
      SweepsMove(s, Cleansed(s, id), s');
    } else {
      SeveredSweeps(s, id);
      SweepsMove(s, Severed(s, id), s');
    }
  }

  /** Evidence names a device the lane already knew, so a newcomer changes no verdict. */
  lemma NewcomerMoves(s: State, t: State, u: State, deviceId: string, d: Device)
    requires WindowsInv(s) && deviceId !in s.lane.devices
    requires t == s.(lane := s.lane.(devices := s.lane.devices[deviceId := d])) && Sweeps(t, u)
    ensures Moves(s, u)
  {
    forall id | id in s.windows
      ensures WindowMoves(s.kill, s.lane, s.clock, s.windows[id], u.windows[id])
    {
      assert WindowOk(s.history, s.kill, s.lane.devices, id, s.windows[id]);
      assert Swept(t.kill, t.lane, t.clock, t.windows[id], u.windows[id]);
    }
  }

  lemma AdmitMoves(s: State, deviceId: string, aliases: seq<string>, exported: bool, persistLost: bool)
    requires WindowsInv(s) && deviceId !in s.lane.devices
    ensures Moves(s, DoAdmit(s, deviceId, aliases, exported, persistLost).0)
  {
    hide Superseded, HandleWindows, HandleApprovals, HandleSwitch;
    var d := Device(1, None, true, true);
    var t := s.(lane := s.lane.(devices := s.lane.devices[deviceId := d]));
    SupersededSweeps(t, aliases);
    NewcomerMoves(s, t, Superseded(t, aliases), deviceId, d);
  }

  lemma TickedMoves(s: State, w: Window)
    ensures WindowMoves(s.kill, s.lane, s.clock, w, TickedIn(s, w))
  {
  }

  /** Only one window changes, and it moves as it may. */
  lemma OneMoves(s: State, s': State, id: string)
    requires id in s.windows && id in s'.windows && s'.windows == s.windows[id := s'.windows[id]]
    requires WindowMoves(s.kill, s.lane, s.clock, s.windows[id], s'.windows[id])
    requires s'.grants == s.grants
    ensures Moves(s, s')
  {
  }

  lemma ReadVetoMoves(s: State, id: string, jti: string)
    requires s.grants.granted == s.grants.byWindow.Keys
    ensures Moves(s, DoReadVeto(s, id, jti).0)
  {
    if id in s.windows {
      TickedMoves(s, s.windows[id]);
      OneMoves(s, s.(windows := s.windows[id := TickedIn(s, s.windows[id])]), id);
    }
  }

  lemma PollMoves(s: State)
    ensures Moves(s, DoPoll(s).0)
  {
  }

  lemma DetailMoves(s: State, id: string, deviceId: string, deliveryId: string)
    ensures Moves(s, DoDetail(s, id, deviceId, deliveryId).0)
  {
    var s' := DoDetail(s, id, deviceId, deliveryId).0;
    if id in s.windows && s'.windows != s.windows {
      OneMoves(s, s', id);
    }
  }

  /** An ack gives an open window evidence, and touches nothing else of it. */
  lemma AckTouchesEvidence(
    s: State, id: string, deviceId: string, deliveryId: string, revision: int, content: Call)
    requires id in s.windows && deviceId in s.lane.devices
    ensures var s' := AcceptAck(s, id, deviceId, deliveryId, revision, content).0;
            && s'.grants == s.grants
            && (s'.windows == s.windows
                || (&& id in s'.windows && IsOpen(s.windows[id]) && s'.windows == s.windows[id := s'.windows[id]]
                    && s'.windows[id] == s.windows[id].(evidence := s'.windows[id].evidence)))
  {
  }

  lemma SeenMoves(s: State, id: string, deviceId: string, deliveryId: string, revision: int, content: Call)
    ensures Moves(s, DoSeen(s, id, deviceId, deliveryId, revision, content).0)
  {
    hide AcceptAck;
    var s' := DoSeen(s, id, deviceId, deliveryId, revision, content).0;
    if id in s.windows && Authenticates(s, deviceId) {
      var s1 := s.(windows := s.windows[id := TickedIn(s, s.windows[id])]);
      AckTouchesEvidence(s1, id, deviceId, deliveryId, revision, content);
      if s'.windows != s.windows {
        OneMoves(s, s', id);
      }
    }
  }

  lemma RegisterMoves(s: State, id: string, call: Call, purpose: Option<Purpose>)
    requires id !in s.windows
    ensures Moves(s, DoRegister(s, id, call, purpose).0)
  {
    hide IsValidAgentId;
  }

  lemma VetoMoves(s: State, id: string, who: string)
    ensures Moves(s, DoVeto(s, id, who).0)
  {
    var s' := DoVeto(s, id, who).0;
    if s'.windows != s.windows {
      OneMoves(s, s', id);
    }
  }

  lemma ApproveWindowMoves(s: State, t: State, id: string, owner: string, signed: Option<string>)
    requires id in s.windows && t == s.(approvals := t.approvals)
    ensures Moves(s, ApproveWindow(t, id, owner, signed).0)
  {
    var s' := ApproveWindow(t, id, owner, signed).0;
    if s'.windows != s.windows {
      OneMoves(s, s', id);
    }
  }

  lemma ApproveMoves(s: State, id: string, owner: string, signed: Option<string>)
    ensures Moves(s, DoApprove(s, id, owner, signed).0)
  {
    hide ApproveWindow, ApprovalSigned, Moves;
    var dropped := s.(approvals := s.approvals - {id});
    NoWindowMoves(s, s);
    NoWindowMoves(s, dropped);
    if id in s.windows {
      ApproveWindowMoves(s, dropped, id, owner, signed);
      ApproveWindowMoves(s, s, id, owner, None);
    }
  }

  lemma CommitMoves(s: State, jti: string)
    ensures Moves(s, DoCommit(s, jti).0)
  {
  }

  lemma NoWindowMoves(s: State, s': State)
    requires s'.windows == s.windows && s'.grants == s.grants
    ensures Moves(s, s')
  {
  }

  lemma ApprovalChallengeStays(s: State, e: Event)
    requires e.ApprovalChallengeStart? || e.ApprovalChallengeFinish?
    ensures HandleApprovals(s, e).0.windows == s.windows && HandleApprovals(s, e).0.grants == s.grants
  {
  }

  lemma SwitchMoves(s: State, e: Event)
    requires e.EngageKill? || e.CeremonyStart? || e.RestoreChallengeStart? || e.RestoreChallengeFinish?
             || e.ApprovalChallengeStart? || e.ApprovalChallengeFinish? || e.RegistryLost?
    ensures Moves(s, Handle(s, e).0)
  {
    hide HandleWindows, DoCeremonyStart, DoRestoreChallengeStart, DoRestoreChallengeFinish;
    hide DoApprovalChallengeStart, DoApprovalChallengeFinish, Moves;
    if e.CeremonyStart? {
      CeremonyStartCalm(s, e.id, e.owner, e.agentId, e.licensed);
    } else if e.RestoreChallengeStart? {
      RestoreChallengeStartCalm(s, e.request, e.owner, e.id);
    } else if e.RestoreChallengeFinish? {
      RestoreChallengeFinishCalm(s, e.request, e.challenge);
    } else if OfApprovals(e) {
      ApprovalChallengeStays(s, e);
    }
    NoWindowMoves(s, Handle(s, e).0);
  }

  lemma RestoreMoves(s: State, owner: string, id: string, signed: Option<string>, persistLost: bool)
    ensures Moves(s, DoRestore(s, owner, id, signed, persistLost).0)
  {
    NoWindowMoves(s, DoRestore(s, owner, id, signed, persistLost).0);
  }

  lemma StepMoves(s0: State, e: Event, now: int)
    requires WindowsInv(s0) && s0.grants.granted == s0.grants.byWindow.Keys && Enabled(s0, e, now)
    ensures Moves(s0.(clock := now), Step(s0, e, now).0)
  {
    hide Moves, DoRegister, DoReadVeto, DoPoll, DoDetail, DoSeen, DoVeto, DoApprove, DoCommit, DoRestore;
    hide DoRevokeStatic, DoRevokeEnrolled, DoAdmit;
    var s := s0.(clock := now);
    if e.RevokeStatic? {
      RevokeStaticMoves(s, e.deviceId, e.exported, e.persistLost);
    } else if e.RevokeEnrolled? {
      RevokeEnrolledMoves(s, e.deviceId, e.published, e.exported, e.persistLost);
    } else if e.Admit? {
      AdmitMoves(s, e.deviceId, e.aliases, e.exported, e.persistLost);
    } else if e.ReadVeto? {
      ReadVetoMoves(s, e.id, e.jti);
    } else if e.Poll? {
      PollMoves(s);
    } else if e.Detail? {
      DetailMoves(s, e.id, e.deviceId, e.deliveryId);
    } else if e.SeenBy? {
      SeenMoves(s, e.id, e.deviceId, e.deliveryId, e.revision, e.content);
    } else if e.Commit? {
      CommitMoves(s, e.jti);
    } else if e.Restore? {
      RestoreMoves(s, e.owner, e.id, e.signed, e.persistLost);
    } else if e.Register? {
      RegisterMoves(s, e.id, e.call, e.purpose);
    } else if e.Veto? {
      VetoMoves(s, e.id, e.who);
    } else if e.Approve? {
      ApproveMoves(s, e.id, e.owner, e.signed);
    } else {
      SwitchMoves(s, e);
    }
  }

  lemma RunMoves(ss: seq<State>, es: seq<Timed>, i: nat)
    requires Run(ss, es) && i < |es|
    ensures Moves(ss[i].(clock := es[i].now), ss[i + 1])
  {
    RunWindows(ss, es, i);
    GrantedWindowsOf(ss, es, i);
    StepMoves(ss[i], es[i].event, es[i].now);
  }

  lemma StickyStep(ss: seq<State>, es: seq<Timed>, i: nat, id: string)
    requires Run(ss, es) && i < |es|
    ensures id in ss[i].windows && ss[i].windows[id].status.Vetoed? ==>
              id in ss[i + 1].windows && ss[i + 1].windows[id].status.Vetoed?
    ensures CommittedForDispatch(ss[i].grants, id) ==> CommittedForDispatch(ss[i + 1].grants, id)
  {
    RunMoves(ss, es, i);
    GrantedWindowsOf(ss, es, i);
    if id in ss[i].windows {
      assert WindowMoves(ss[i].kill, ss[i].lane, es[i].now, ss[i].windows[id], ss[i + 1].windows[id]);
    }
  }

  lemma GrantedWindowsOf(ss: seq<State>, es: seq<Timed>, i: nat)
    requires Run(ss, es) && i < |ss|
    ensures ss[i].grants.granted == ss[i].grants.byWindow.Keys
  {
    RunKeepsInv(ss, es, i);
  }

  predicate VetoedIn(s: State, id: string) {
    id in s.windows && s.windows[id].status.Vetoed?
  }

  /** A fact that no single step undoes holds in every later state. */
  lemma {:induction false} Persists(held: seq<bool>, i: nat, j: nat)
    requires i <= j < |held| && held[i]
    requires forall k :: 0 < k < |held| ==> held[k - 1] ==> held[k]
    ensures held[j]
    decreases j
  {
    if i < j {
      Persists(held, i, j - 1);
    }
  }

  lemma VetoAndCommitStick(ss: seq<State>, es: seq<Timed>, i: nat, j: nat, id: string)
    requires Run(ss, es) && i <= j < |ss|
    ensures VetoedIn(ss[i], id) ==> VetoedIn(ss[j], id)
    ensures CommittedForDispatch(ss[i].grants, id) ==> CommittedForDispatch(ss[j].grants, id)
  {
    var vetoed := seq(|ss|, k requires 0 <= k < |ss| => VetoedIn(ss[k], id));
    var committed := seq(|ss|, k requires 0 <= k < |ss| => CommittedForDispatch(ss[k].grants, id));
    forall k | 0 < k < |ss|
      ensures (vetoed[k - 1] ==> vetoed[k]) && (committed[k - 1] ==> committed[k])
    {
      StickyStep(ss, es, k - 1, id);
    }
    if vetoed[i] {
      Persists(vetoed, i, j);
    }
    if committed[i] {
      Persists(committed, i, j);
    }
  }

  lemma NotBothAt(ss: seq<State>, es: seq<Timed>, k: nat, id: string)
    requires Run(ss, es) && k < |ss| && CommittedForDispatch(ss[k].grants, id)
    ensures !VetoedIn(ss[k], id)
  {
    RunKeepsInv(ss, es, k);
    assert ss[k].grants.byWindow[id] in ss[k].grants.committed;
  }

  /** A window vetoed at any time is committed at none, whichever request won. */
  lemma NeverVetoedAndCommitted(ss: seq<State>, es: seq<Timed>, i: nat, j: nat, id: string)
    requires Run(ss, es) && i < |ss| && j < |ss|
    requires id in ss[i].windows && ss[i].windows[id].status.Vetoed?
    ensures !CommittedForDispatch(ss[j].grants, id)
  {
    if CommittedForDispatch(ss[j].grants, id) {
      var k := if i < j then j else i;
      VetoAndCommitStick(ss, es, i, k, id);
      VetoAndCommitStick(ss, es, j, k, id);
      NotBothAt(ss, es, k, id);
    }
  }

  // ---- silence releases are witnessed ---------------------------------------------------------

  /**
   * The ack behind a release: same call and showing, 60 s early, its device
   * unrevoked since; and behind the ack a showing of that call to that device.
   */
  ghost predicate Witnesses(h: seq<Fact>, j: int, id: string, w: Window) {
    && 0 <= j < |h| && h[j].Acked? && h[j].windowId == id
    && (exists k :: Redeems(h, k, j))
    && h[j].call == w.call && h[j].revision == w.revision && h[j].deadline == w.deadline
    && h[j].at <= w.deadline - MIN_VETO_RESPONSE_MS
    && RevokeFree(h, j, h[j].deviceId)
  }

  /**
   * A window is released by silence only past its deadline, while neither
   * killed nor quarantined, and only on a witnessed showing.
   */
  lemma SilenceIsWitnessed(ss: seq<State>, es: seq<Timed>, i: nat, id: string)
    requires Run(ss, es) && i < |es| && id in ss[i].windows && IsOpen(ss[i].windows[id])
    requires id in ss[i + 1].windows && ss[i + 1].windows[id].status.Released?
    ensures !ss[i].kill.killed && !ss[i].lane.quarantined
    ensures es[i].now >= ss[i].windows[id].deadline
    ensures ss[i + 1].windows[id].releasedAt == Some(ss[i].windows[id].deadline)
    ensures exists j :: Witnesses(ss[i].history, j, id, ss[i].windows[id])
              && var deviceId := ss[i].history[j].deviceId;
                 && deviceId in ss[i].lane.devices && ss[i].lane.devices[deviceId].revokedAt.None?
                 && ss[i].lane.devices[deviceId].resolvable
                 && ss[i].lane.devices[deviceId].generation == ss[i].history[j].generation
  {
    RunMoves(ss, es, i);
    RunWindows(ss, es, i);
    RunKeepsShowings(ss, es, i);
    var s, w := ss[i], ss[i].windows[id];
    assert WindowMoves(s.kill, s.lane, es[i].now, w, ss[i + 1].windows[id]);
    assert WindowOk(s.history, s.kill, s.lane.devices, id, w);
    var j :| AckedAt(s.history, j, id, w, w.evidence.value)
          && WitnessOk(s.history, j, s.lane.devices, w.evidence.value);
    assert Witnesses(s.history, j, id, w);
  }

  /** In any state, however long after, a released window still shows the ack it was released on. */
  lemma ReleasedWasAcked(ss: seq<State>, es: seq<Timed>, i: nat, id: string)
    requires Run(ss, es) && i < |ss| && id in ss[i].windows && ss[i].windows[id].status.Released?
    ensures var w := ss[i].windows[id];
            && w.releasedAt == Some(w.deadline)
            && exists j :: 0 <= j < |ss[i].history| && w.evidence.Some?
                 && AckedAt(ss[i].history, j, id, w, w.evidence.value) && exists k :: Redeems(ss[i].history, k, j)
  {
    RunWindows(ss, es, i);
    RunKeepsShowings(ss, es, i);
    assert WindowOk(ss[i].history, ss[i].kill, ss[i].lane.devices, id, ss[i].windows[id]);
    var w := ss[i].windows[id];
    var j :| AckedAt(ss[i].history, j, id, w, w.evidence.value)
          && WitnessOk(ss[i].history, j, ss[i].lane.devices, w.evidence.value);
  }

  /**
   * VetoWindow says a release that is due wins over a later revocation. In the
   * revoke handler it does exactly when another device witnessed the window:
   * the device is marked revoked before the windows are ticked.
   */
  lemma DueReleaseSurvivesRevoke(s: State, deviceId: string, id: string)
    requires deviceId in s.lane.devices && id in s.windows
    requires IsOpen(s.windows[id]) && s.clock >= s.windows[id].deadline && Stands(s.kill, s.lane, s.windows[id])
    ensures DoPoll(s).0.windows[id].status.Released?
    ensures Severed(s, deviceId).windows[id].status.Released? <==> s.windows[id].evidence.value.deviceId != deviceId
  {
  }

  /** One more request at the end of a run. */
  lemma Extends(ss: seq<State>, es: seq<Timed>, e: Event, now: int)
    requires Run(ss, es) && Enabled(ss[|es|], e, now)
    ensures Run(ss + [Step(ss[|es|], e, now).0], es + [Timed(e, now)])
  {
  }

  lemma Registers(s: State, id: string, call: Call, t: int)
    requires IsValidAgentId(call.agentId) && call.agentId !in s.kill.agents
    ensures Step(s, Register(id, call, None), t).0
            == s.(clock := t,
                  windows := s.windows[id :=
                    Opened(call, None, s.kill.epoch, DEFAULT_WINDOW_MS, DEFAULT_EXTENSION_MS, t)],
                  history := s.history + [Registered(t, id, call, None)])
  {
  }

  /** A fresh window shown to a device is acknowledged by it at once. */
  lemma ShowsAndAcks(s: State, id: string, deviceId: string, deliveryId: string, t: int)
    requires id in s.windows && Authenticates(s, deviceId) && !s.lane.quarantined && !s.kill.killed
    requires var w := s.windows[id];
             IsOpen(w) && w.evidence.None? && w.call.renderable && t <= w.deadline - MIN_VETO_RESPONSE_MS
    ensures var w := s.windows[id];
            var shown := Step(s, Detail(id, deviceId, deliveryId), t).0;
            var acked := Step(shown, SeenBy(id, deviceId, deliveryId, w.revision, w.call), t).0;
            && shown.clock == t
            && acked.windows
               == s.windows[id := Delivered(w, Evidence(deviceId, s.lane.devices[deviceId].generation, t))]
            && acked.kill == s.kill && acked.lane.devices == s.lane.devices && !acked.lane.quarantined
            && acked.clock == t
  {
    var w, g := s.windows[id], s.lane.devices[deviceId].generation;
    var shown := Step(s, Detail(id, deviceId, deliveryId), t).0;
    assert Ticked(w, t, Stands(s.kill, s.lane, w)) == w;
    assert shown.windows == s.windows[id := w] == s.windows;
    var d := shown.lane.deliveries[deliveryId];
    assert d == Delivery(id, w.revision, w.call, deviceId, g, t + DELIVERY_TTL_MS, false);
    var acked := Step(shown, SeenBy(id, deviceId, deliveryId, w.revision, w.call), t).0;
    var s1 := shown.(clock := t);
    assert TickedIn(s1, w) == w;
    assert AckValid(s1, id, w, deviceId, d, w.revision, w.call);
  }

  /** Revoking a static device severs it, and a released window stays released. */
  lemma RevokeKeepsReleased(s: State, deviceId: string, id: string)
    requires id in s.windows && deviceId in s.lane.devices && !s.lane.devices[deviceId].enrolled
    ensures var s' := DoRevokeStatic(s, deviceId, true, false).0;
            && id in s'.windows
            && (s.lane.devices[deviceId].revokedAt.None? ==> s'.windows == Severed(s, deviceId).windows)
            && (s.windows[id].status.Released? ==> s'.windows[id].status.Released?)
  {
  }

  /** At the deadline: revoking the witness first loses the release; polling first keeps it. */
  lemma OrderDecides(s: State, id: string, deviceId: string, now: int)
    requires s.clock <= now
    requires id in s.windows && deviceId in s.lane.devices && !s.lane.devices[deviceId].enrolled
    requires var w := s.windows[id];
             IsOpen(w) && now >= w.deadline && Stands(s.kill, s.lane, w) && w.evidence.value.deviceId == deviceId
    ensures var revoke := RevokeStatic(deviceId, true, false);
            var lost, polled := Step(s, revoke, now).0, Step(s, Event.Poll, now).0;
            var kept := Step(polled, revoke, now).0;
            && Enabled(s, revoke, now) && Enabled(s, Event.Poll, now) && Enabled(polled, revoke, now)
            && id in lost.windows && !lost.windows[id].status.Released?
            && id in kept.windows && kept.windows[id].status.Released?
  {
    hide HandleApprovals, HandleSwitch, Severed;
    var present := s.(clock := now);
    DueReleaseSurvivesRevoke(present, deviceId, id);
    RevokeKeepsReleased(present, deviceId, id);
    RevokeKeepsReleased(DoPoll(present).0, deviceId, id);
  }

  function ShowAndAck(id: string, deviceId: string, deliveryId: string, call: Call): seq<Event> {
    [Register(id, call, None), Detail(id, deviceId, deliveryId), SeenBy(id, deviceId, deliveryId, 1, call)]
  }

  /** From boot: registered, shown and acknowledged at t, so due at the first deadline. */
  lemma ShownFromBoot(s: State, t: int, id: string, call: Call, deviceId: string, deliveryId: string)
    requires Init(s) && s.clock <= t && Authenticates(s, deviceId)
    requires !s.kill.killed && call.renderable && IsValidAgentId(call.agentId) && call.agentId !in s.kill.agents
    ensures var es := ShowAndAck(id, deviceId, deliveryId, call);
            var s1 := Step(s, es[0], t).0;
            var s2 := Step(s1, es[1], t).0;
            var s3 := Step(s2, es[2], t).0;
            && Enabled(s, es[0], t) && Enabled(s1, es[1], t) && Enabled(s2, es[2], t)
            && s3.clock == t && s3.lane.devices == s.lane.devices && id in s3.windows
            && var w := s3.windows[id];
               IsOpen(w) && w.deadline == t + DEFAULT_WINDOW_MS && Stands(s3.kill, s3.lane, w)
               && w.evidence.value.deviceId == deviceId
  {
    Registers(s, id, call, t);
    ShowsAndAcks(Step(s, Register(id, call, None), t).0, id, deviceId, deliveryId, t);
  }

  /** Three requests from boot, and then either of two orders for what comes last. */
  lemma TwoOrders(s: State, e1: Timed, e2: Timed, e3: Timed, last: Timed, between: Timed)
    returns (ss: seq<State>, es: seq<Timed>, ss': seq<State>, es': seq<Timed>)
    requires Init(s)
    requires Enabled(s, e1.event, e1.now)
    requires var s1 := Step(s, e1.event, e1.now).0; Enabled(s1, e2.event, e2.now)
    requires var s2 := Step(Step(s, e1.event, e1.now).0, e2.event, e2.now).0; Enabled(s2, e3.event, e3.now)
    requires var s3 := Step(Step(Step(s, e1.event, e1.now).0, e2.event, e2.now).0, e3.event, e3.now).0;
             && Enabled(s3, last.event, last.now) && Enabled(s3, between.event, between.now)
             && Enabled(Step(s3, between.event, between.now).0, last.event, last.now)
    ensures Run(ss, es) && Run(ss', es') && ss[0] == ss'[0] == s
    ensures es == [e1, e2, e3, last] && es' == [e1, e2, e3, between, last]
    ensures var s3 := Step(Step(Step(s, e1.event, e1.now).0, e2.event, e2.now).0, e3.event, e3.now).0;
            && ss[4] == Step(s3, last.event, last.now).0
            && ss'[5] == Step(Step(s3, between.event, between.now).0, last.event, last.now).0
  {
    hide *;
    var s1 := Step(s, e1.event, e1.now).0;
    var s2 := Step(s1, e2.event, e2.now).0;
    var s3 := Step(s2, e3.event, e3.now).0;
    Extends([s], [], e1.event, e1.now);
    assert [] + [e1] == [e1];
    Extends([s] + [s1], [e1], e2.event, e2.now);
    Extends([s] + [s1] + [s2], [e1] + [e2], e3.event, e3.now);
    var ss3, es3 := [s] + [s1] + [s2] + [s3], [e1] + [e2] + [e3];
    Extends(ss3, es3, last.event, last.now);
    ss, es := ss3 + [Step(s3, last.event, last.now).0], es3 + [last];
    Extends(ss3, es3, between.event, between.now);
    var polled := Step(s3, between.event, between.now).0;
    Extends(ss3 + [polled], es3 + [between], last.event, last.now);
    ss', es' := ss3 + [polled] + [Step(polled, last.event, last.now).0], es3 + [between] + [last];
  }

  /**
   * From any boot with a usable static device: a window registered, shown,
   * acknowledged in time, and due. One run revokes the witness and never
   * releases; the same run with a poll in between releases for good.
   */
  lemma RevokeOvertakesDueRelease(s: State, t: int, id: string, call: Call, deviceId: string, deliveryId: string)
    returns (ss: seq<State>, es: seq<Timed>, ss': seq<State>, es': seq<Timed>)
    requires Init(s) && s.clock <= t && Authenticates(s, deviceId) && !s.lane.devices[deviceId].enrolled
    requires !s.kill.killed && call.renderable && IsValidAgentId(call.agentId) && call.agentId !in s.kill.agents
    ensures Run(ss, es) && Run(ss', es') && ss[0] == ss'[0] == s
    ensures |es| == 4 && |es'| == 5 && es'[..3] == es[..3] && es'[4] == es[3]
    ensures es[3] == Timed(RevokeStatic(deviceId, true, false), t + DEFAULT_WINDOW_MS)
    ensures es'[3] == Timed(Event.Poll, t + DEFAULT_WINDOW_MS)
    ensures id in ss[4].windows && !ss[4].windows[id].status.Released?
    ensures id in ss'[5].windows && ss'[5].windows[id].status.Released?
  {
    hide Step;
    var now, shown := t + DEFAULT_WINDOW_MS, ShowAndAck(id, deviceId, deliveryId, call);
    var e1, e2, e3 := Timed(shown[0], t), Timed(shown[1], t), Timed(shown[2], t);
    ShownFromBoot(s, t, id, call, deviceId, deliveryId);
    OrderDecides(Step(Step(Step(s, e1.event, t).0, e2.event, t).0, e3.event, t).0, id, deviceId, now);
    ss, es, ss', es' := TwoOrders(s, e1, e2, e3, Timed(RevokeStatic(deviceId, true, false), now),
                                  Timed(Event.Poll, now));
  }

  // ---- restores are earned ----------------------------------------------------------------------

  lemma OnlyRestoreLifts(s: State, e: Event)
    requires !e.Restore?
    ensures s.kill.killed ==> Handle(s, e).0.kill.killed
    ensures s.kill.agents <= Handle(s, e).0.kill.agents
  {
    hide HandleWindows, HandleApprovals, HandleDevices;
    if ChangesCeremonies(e) {
    } else {
      OthersSteady(s, e);
    }
  }

  /** The restore a step logged, and what it lifted: its own scope and nothing else. */
  ghost predicate Lifts(s: State, s': State, agentId: Option<string>) {
    && |s'.history| == |s.history| + 1 && s'.history[..|s.history|] == s.history
    && s'.history[|s.history|].Restored? && s'.history[|s.history|].agentId == agentId
    && s'.kill.killed == (s.kill.killed && agentId.Some?)
    && s'.kill.agents == (if agentId.Some? then s.kill.agents - {agentId.value} else s.kill.agents)
    && s'.kill.epoch == s.kill.epoch
  }

  lemma ConfirmLifts(s: State, owner: string, id: string, signed: Option<string>, persistLost: bool)
    requires RestoreAdmissible(s, owner, id)
    ensures var s' := ConfirmAndRestore(s, owner, id, signed, persistLost).0;
            s'.kill == s.kill || Lifts(s, s', s.ceremonies.records[id].agentId)
  {
  }

  lemma RestoreLifts(s: State, owner: string, id: string, signed: Option<string>, persistLost: bool)
    ensures var s' := DoRestore(s, owner, id, signed, persistLost).0;
            s'.kill == s.kill || (id in s.ceremonies.records && Lifts(s, s', s.ceremonies.records[id].agentId))
  {
    hide ConfirmAndRestore;
    if RestoreAdmissible(s, owner, id) {
      var s1 := s.(ceremonies := s.ceremonies.(challenges := s.ceremonies.challenges - {id}));
      ConfirmLifts(s1, owner, id, signed, persistLost);
      ConfirmLifts(s, owner, id, None, persistLost);
    }
  }

  /**
   * Every un-kill is a restore of that very scope, backed by one ceremony of the
   * same owner and scope, 30 s to 5 min old with no kill in between, which over
   * the rest of the run restores nothing else.
   */
  lemma UnkillIsEarned(ss: seq<State>, es: seq<Timed>, i: nat, agentId: Option<string>)
    requires Run(ss, es) && i < |es|
    requires if agentId.None? then ss[i].kill.killed && !ss[i + 1].kill.killed
             else agentId.value in ss[i].kill.agents && agentId.value !in ss[i + 1].kill.agents
    ensures Lifts(ss[i], ss[i + 1], agentId)
    ensures RestoreBacked(ss[i].cfg, ss[i + 1].history, |ss[i].history|)
    ensures forall n :: i < n < |ss| ==>
              && ss[i + 1].history <= ss[n].history
              && OnceOnly(ss[n].history, |ss[i].history|)
  {
    var s, e := ss[i].(clock := es[i].now), es[i].event;
    if !e.Restore? {
      OnlyRestoreLifts(s, e);
      assert false;
    }
    RestoreLifts(s, e.owner, e.id, e.signed, e.persistLost);
    RunKeepsCeremonies(ss, es, i + 1);
    TraceGrows(ss, es, i);
    forall n | i < n < |ss|
      ensures ss[i + 1].history <= ss[n].history && OnceOnly(ss[n].history, |ss[i].history|)
    {
      HistoryGrows(ss, es, i + 1, n);
      RunKeepsCeremonies(ss, es, n);
    }
  }

  /** The trace only grows, whatever the event. */
  lemma StepGrows(s: State, e: Event)
    requires e.Register? ==> e.id !in s.windows
    ensures s.history <= Handle(s, e).0.history && Handle(s, e).0.cfg == s.cfg
  {
    if !ChangesCeremonies(e) {
      OthersSteady(s, e);
    } else {
      OthersDrift(s, e);
    }
  }

  lemma TraceGrows(ss: seq<State>, es: seq<Timed>, i: nat)
    requires Run(ss, es) && i < |es|
    ensures ss[i].history <= ss[i + 1].history && ss[i + 1].cfg == ss[i].cfg
  {
    StepGrows(ss[i].(clock := es[i].now), es[i].event);
  }

  lemma {:induction false} PrefixChain(hs: seq<seq<Fact>>, i: nat, n: nat)
    requires i <= n < |hs|
    requires forall k :: 0 < k < |hs| ==> hs[k - 1] <= hs[k]
    ensures hs[i] <= hs[n]
    decreases n
  {
    if i < n {
      PrefixChain(hs, i, n - 1);
    }
  }

  lemma HistoryGrows(ss: seq<State>, es: seq<Timed>, i: nat, n: nat)
    requires Run(ss, es) && i <= n < |ss|
    ensures ss[i].history <= ss[n].history
  {
    var hs := seq(|ss|, k requires 0 <= k < |ss| => ss[k].history);
    forall k | 0 < k < |ss|
      ensures hs[k - 1] <= hs[k]
    {
      TraceGrows(ss, es, k - 1);
    }
    PrefixChain(hs, i, n);
  }

  /** A ceremony's clock, owner, scope and epoch are set once, at its start. */
  predicate StartsKept(s: State, s': State) {
    forall id :: id in s.ceremonies.records ==>
      id in s'.ceremonies.records && R.SameStart(s.ceremonies.records[id], s'.ceremonies.records[id])
  }

  lemma StartingKeepsStarts(s: State, id: string, owner: string, agentId: Option<string>, licensed: bool)
    requires id !in s.ceremonies.records
    ensures StartsKept(s, DoCeremonyStart(s, id, owner, agentId, licensed).0)
  {
    hide DoCeremonyStart;
    CeremonyStartOutcome(s, id, owner, agentId, licensed);
  }

  lemma ChallengingKeepsStarts(s: State, request: string, challenge: string)
    ensures StartsKept(s, DoRestoreChallengeFinish(s, request, challenge).0)
  {
  }

  lemma ConfirmingKeepsStarts(s: State, owner: string, id: string, signed: Option<string>, persistLost: bool)
    requires id in s.ceremonies.records
    ensures StartsKept(s, ConfirmAndRestore(s, owner, id, signed, persistLost).0)
  {
  }

  lemma RestoringKeepsStarts(s: State, owner: string, id: string, signed: Option<string>, persistLost: bool)
    ensures StartsKept(s, DoRestore(s, owner, id, signed, persistLost).0)
  {
    if RestoreAdmissible(s, owner, id) {
      var s1 := s.(ceremonies := s.ceremonies.(challenges := s.ceremonies.challenges - {id}));
      ConfirmingKeepsStarts(s1, owner, id, signed, persistLost);
      ConfirmingKeepsStarts(s, owner, id, None, persistLost);
    }
  }

  lemma StepKeepsStarts(s: State, e: Event)
    requires e.CeremonyStart? ==> e.id !in s.ceremonies.records
    ensures StartsKept(s, Handle(s, e).0)
  {
    hide DoCeremonyStart, DoRestoreChallengeFinish, DoRestore, HandleWindows, HandleApprovals, HandleDevices;
    if e.CeremonyStart? {
      StartingKeepsStarts(s, e.id, e.owner, e.agentId, e.licensed);
    } else if e.RestoreChallengeFinish? {
      ChallengingKeepsStarts(s, e.request, e.challenge);
    } else if e.Restore? {
      RestoringKeepsStarts(s, e.owner, e.id, e.signed, e.persistLost);
    } else {
      OthersSteady(s, e);
    }
  }

  lemma HeldCeremonyIsReused(s: State, id: string, owner: string, agentId: Option<string>, licensed: bool, x: string)
    requires x in Purged(s) && HoldsFor(s, x, owner, agentId)
    ensures DoCeremonyStart(s, id, owner, agentId, licensed).0.ceremonies.records.Keys == s.ceremonies.records.Keys
    ensures DoCeremonyStart(s, id, owner, agentId, licensed).0.history == s.history
  {
    assert x in set y | y in Purged(s) && HoldsFor(s, y, owner, agentId);
  }

  lemma RunOnePerScope(ss: seq<State>, es: seq<Timed>, i: nat)
    requires Run(ss, es) && i < |ss|
    ensures OnePerScope(ss[i].ceremonies)
  {
    RunKeepsCeremonies(ss, es, i);
  }

  /**
   * One record per owner and scope, ever; and starting again while one is live
   * opens no second record and moves no clock.
   */
  lemma RepeatStartChangesNoClock(ss: seq<State>, es: seq<Timed>, i: nat)
    requires Run(ss, es) && i < |es|
    ensures OnePerScope(ss[i + 1].ceremonies)
    ensures StartsKept(ss[i], ss[i + 1])
    ensures var s, e := ss[i].(clock := es[i].now), es[i].event;
            e.CeremonyStart? && (exists x :: x in Purged(s) && HoldsFor(s, x, e.owner, e.agentId)) ==>
              && ss[i + 1].ceremonies.records.Keys == ss[i].ceremonies.records.Keys
              && ss[i + 1].history == ss[i].history
  {
    hide OnePerScope, Purged, HoldsFor;
    var s, e := ss[i].(clock := es[i].now), es[i].event;
    RunOnePerScope(ss, es, i + 1);
    StepKeepsStarts(s, e);
    if x :| e.CeremonyStart? && x in Purged(s) && HoldsFor(s, x, e.owner, e.agentId) {
      HeldCeremonyIsReused(s, e.id, e.owner, e.agentId, e.licensed, x);
    }
  }
}
