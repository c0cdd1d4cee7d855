/**
 * When each request succeeds, what it answers and what it leaves behind, over
 * whole runs and in terms of the trace: no more and no less than it should.
 */
module ProtocolLaws {
  import opened Wrappers
  import opened VetoWindows
  import opened KillStateFile
  import opened Protocol
  import opened ProtocolWindows
  import opened ProtocolGrants
  import opened ProtocolCeremonies
  import opened ProtocolAnswers
  import opened ProtocolRestores
  import opened ProtocolTheorems
  import TwoGo

  function AnswerAt(ss: seq<State>, es: seq<Timed>, i: nat): Answer
    requires i < |ss| && i < |es|
  {
    Step(ss[i], es[i].event, es[i].now).1
  }

  /** The call is a GitHub merge whose arguments parse: grants and approvals are for these alone. */
  predicate IsMerge(w: Window) {
    match w.purpose
    case Some(MergePullRequest(_, argsParse)) => argsParse
    case _ => false
  }

  // ---- vetoes -------------------------------------------------------------------------------------

  /** A grant of the window was committed for dispatch. */
  ghost predicate Dispatched(h: seq<Fact>, id: string) {
    exists j :: 0 <= j < |h| && h[j].Committed? && h[j].windowId == id
  }

  lemma DispatchSays(s: State, id: string)
    requires AnswersInv(s) && MutuallyInverse(s.grants) && s.grants.committed <= s.grants.minted.Keys
    ensures CommittedForDispatch(s.grants, id) <==> Dispatched(s.history, id)
  {
    if CommittedForDispatch(s.grants, id) {
      var j :| CommittedAs(s.history, j, s.grants.byWindow[id]);
      assert FactHolds(s, j);
    }
    if Dispatched(s.history, id) {
      var j :| 0 <= j < |s.history| && s.history[j].Committed? && s.history[j].windowId == id;
      assert FactHolds(s, j);
    }
  }

  lemma DispatchedExactly(ss: seq<State>, es: seq<Timed>, i: nat, id: string)
    requires Run(ss, es) && i < |ss|
    ensures CommittedForDispatch(ss[i].grants, id) <==> Dispatched(ss[i].history, id)
  {
    hide AnswersInv, MutuallyInverse, CommittedForDispatch, Dispatched, Step, Enabled;
    RunKeepsAnswers(ss, es, i);
    RunKeepsInv(ss, es, i);
    DispatchSays(ss[i], id);
  }

  /**
   * A veto is answered "vetoed" exactly when the window exists, was not
   * committed for dispatch, and is vetoed already, or open, or purposed; and
   * then it is vetoed. Any other veto is refused and changes no window.
   */
  lemma VetoedExactly(ss: seq<State>, es: seq<Timed>, i: nat)
    requires Run(ss, es) && i < |es| && es[i].event.Veto?
    ensures var s, s', id := ss[i], ss[i + 1], es[i].event.id;
            && (AnswerAt(ss, es, i) == Showing(Vetoed)
                <==> && id in s.windows && !Dispatched(s.history, id)
                     && (s.windows[id].status in {Vetoed, Pending, Extended} || s.windows[id].purpose.Some?))
            && (AnswerAt(ss, es, i) == Showing(Vetoed) ==>
                  && id in s'.windows && s'.windows[id].status == Vetoed
                  && (s.windows[id].status != Vetoed ==> s'.windows[id].vetoedBy == Some(es[i].event.who)))
            && (AnswerAt(ss, es, i) != Showing(Vetoed) ==>
                  && s'.windows == s.windows
                  && AnswerAt(ss, es, i) == Refused(if id in s.windows then 409 else 404))
  {
    var id := es[i].event.id;
    DispatchedExactly(ss, es, i, id);
    if VetoedIn(ss[i], id) {
      NeverVetoedAndCommitted(ss, es, i, i, id);
    }
  }

  lemma FrozenStep(ss: seq<State>, es: seq<Timed>, i: nat, id: string)
    requires Run(ss, es) && i < |es| && VetoedIn(ss[i], id)
    ensures id in ss[i + 1].windows && ss[i + 1].windows[id] == ss[i].windows[id]
  {
    RunMoves(ss, es, i);
    assert WindowMoves(ss[i].kill, ss[i].lane, es[i].now, ss[i].windows[id], ss[i + 1].windows[id]);
  }

  lemma {:induction false} VetoedStays(ss: seq<State>, es: seq<Timed>, i: nat, j: nat, id: string)
    requires Run(ss, es) && i <= j < |ss| && VetoedIn(ss[i], id)
    ensures id in ss[j].windows && ss[j].windows[id] == ss[i].windows[id]
    decreases j
  {
    if i < j {
      VetoedStays(ss, es, i, j - 1, id);
      FrozenStep(ss, es, j - 1, id);
    }
  }

  /**
   * A veto that was answered is final: from then on the window never changes
   * again, every read of it answers "vetoed", no grant is minted for it, and
   * every commit of a grant minted before answers false.
   */
  lemma VetoIsFinal(ss: seq<State>, es: seq<Timed>, i: nat, j: nat)
    requires Run(ss, es) && i < j < |es| && es[i].event.Veto? && AnswerAt(ss, es, i) == Showing(Vetoed)
    ensures var id := es[i].event.id;
            && id in ss[j].windows && ss[j].windows[id].status == Vetoed && ss[j].windows[id] == ss[i + 1].windows[id]
            && (es[j].event.ReadVeto? && es[j].event.id == id ==> AnswerAt(ss, es, j) == Showing(Vetoed))
            && (es[j].event.Commit? && (exists k :: MintedAs(ss[j].history, k, id, es[j].event.jti)) ==>
                  AnswerAt(ss, es, j) == CommitAnswer(false))
  {
    hide HandleSwitch, HandleDevices;
    var id := es[i].event.id;
    VetoedExactly(ss, es, i);
    VetoedStays(ss, es, i + 1, j, id);
    if es[j].event.Commit? {
      if k :| MintedAs(ss[j].history, k, id, es[j].event.jti) {
        RunKeepsAnswers(ss, es, j);
        assert FactHolds(ss[j], k);
      }
    }
  }

  // ---- reads ----------------------------------------------------------------------------------------

  /** An approval of the window that no kill came after and whose grant TTL has not passed. */
  ghost predicate FreshlyApproved(s: State, now: int, id: string) {
    exists j :: ApprovedAs(s.history, j, id) && KillFree(s.history, j) && now < s.history[j].at + s.cfg.grantTtlMs
  }

  ghost predicate EverApproved(h: seq<Fact>, id: string) {
    exists j :: ApprovedAs(h, j, id)
  }

  ghost predicate EverGranted(h: seq<Fact>, id: string) {
    exists j, jti :: MintedAs(h, j, id, jti)
  }

  /** What the window's approval says of the trace. */
  lemma ApprovalSays(s: State, now: int, id: string)
    requires AnswersInv(s) && id in s.windows
    ensures s.windows[id].approval.Some? <==> EverApproved(s.history, id)
    ensures FreshlyApproved(s, now, id)
            <==> && s.windows[id].approval.Some? && s.windows[id].approval.value.epoch == s.kill.epoch
                 && now < s.windows[id].approval.value.at + s.cfg.grantTtlMs
  {
    if s.windows[id].approval.Some? {
      var j :| ApprovedAs(s.history, j, id);
      assert FactHolds(s, j);
    }
    if EverApproved(s.history, id) {
      var j :| ApprovedAs(s.history, j, id);
      assert FactHolds(s, j);
    }
    if FreshlyApproved(s, now, id) {
      var j :| ApprovedAs(s.history, j, id) && KillFree(s.history, j) && now < s.history[j].at + s.cfg.grantTtlMs;
      assert FactHolds(s, j);
    }
  }

  lemma GrantSays(s: State, id: string)
    requires AnswersInv(s) && GrantsInv(s)
    ensures id in s.grants.granted <==> EverGranted(s.history, id)
  {
    if id in s.grants.granted {
      var j :| MintedAs(s.history, j, s.grants.minted[s.grants.byWindow[id]], s.grants.byWindow[id]);
      assert MintedAs(s.history, j, id, s.grants.byWindow[id]);
    }
    if EverGranted(s.history, id) {
      var j, jti :| MintedAs(s.history, j, id, jti);
      assert FactHolds(s, j);
    }
  }

  /** A fresh approval rules out every stop. */
  lemma FreshMeansLive(s: State, now: int, id: string)
    requires AnswersInv(s) && WindowsInv(s) && id in s.windows && FreshlyApproved(s, now, id)
    ensures !s.kill.killed
  {
    ApprovalSays(s, now, id);
    assert WindowOk(s.history, s.kill, s.lane.devices, id, s.windows[id]);
  }

  /**
   * A read of a merge, grants on: a grant exactly when the window is not
   * vetoed, an approval is fresh and none was handed out before; "vetoed" when
   * it is, "pending" while nobody has approved, and spent otherwise. The grant
   * is then on the record.
   */
  lemma MergeReadExactly(ss: seq<State>, es: seq<Timed>, i: nat)
    requires Run(ss, es) && i < |es| && es[i].event.ReadVeto? && ss[i].cfg.grants
    requires es[i].event.id in ss[i].windows && IsMerge(ss[i].windows[es[i].event.id])
    ensures var s, s', id, now := ss[i], ss[i + 1], es[i].event.id, es[i].now;
            var grant := Grant(es[i].event.jti);
            && (AnswerAt(ss, es, i) == Showing(Vetoed) <==> s.windows[id].status == Vetoed)
            && (AnswerAt(ss, es, i) == Showing(Pending)
                <==> s.windows[id].status != Vetoed && !EverApproved(s.history, id))
            && (AnswerAt(ss, es, i) == grant
                <==> && s.windows[id].status != Vetoed && FreshlyApproved(s, now, id)
                     && !EverGranted(s.history, id))
            && AnswerAt(ss, es, i) in {Showing(Vetoed), Showing(Pending), grant, Spent}
            && s'.history == s.history + if AnswerAt(ss, es, i) == grant
                                         then [GrantMinted(now, id, es[i].event.jti)] else []
  {
    hide AnswersInv, WindowsInv, GrantsInv, ApprovalsInv, GrantTraceInv, FreshlyApproved, EverApproved, EverGranted;
    hide HandleApprovals, HandleSwitch, HandleDevices;
    RunKeepsAnswers(ss, es, i);
    RunKeepsInv(ss, es, i);
    var s, id := ss[i], es[i].event.id;
    ApprovalSays(s, es[i].now, id);
    GrantSays(s, id);
    if FreshlyApproved(s, es[i].now, id) {
      FreshMeansLive(s, es[i].now, id);
    }
  }

  /** A window's epoch is current exactly while no kill came since it was registered. */
  lemma RegistrationSays(s: State, id: string)
    requires AnswersInv(s) && id in s.windows
    ensures (exists j :: RegisteredAs(s.history, j, id) && KillFree(s.history, j))
            <==> s.windows[id].killEpoch == s.kill.epoch
  {
    var j :| RegisteredAs(s.history, j, id);
    assert FactHolds(s, j);
    if j' :| RegisteredAs(s.history, j', id) && KillFree(s.history, j') {
      assert FactHolds(s, j');
    }
  }

  /** A release at this very moment: due, and the witness stands. */
  predicate ReleasesNow(s: State, now: int, w: Window) {
    && w.status in {Pending, Extended} && now >= w.deadline && !s.kill.killed && !s.lane.quarantined
    && w.evidence.Some? && w.evidence.value.deviceId in s.lane.devices
    && var d := s.lane.devices[w.evidence.value.deviceId];
       d.resolvable && d.revokedAt.None? && d.generation == w.evidence.value.generation
  }

  /**
   * Any other read shows the window's status brought up to date: released,
   * while no kill came since it was registered, exactly when it was released
   * before or is due now with its witness standing; spent when one did.
   */
  lemma PlainReadExactly(ss: seq<State>, es: seq<Timed>, i: nat)
    requires Run(ss, es) && i < |es| && es[i].event.ReadVeto? && es[i].event.id in ss[i].windows
    requires !(ss[i].cfg.grants && IsMerge(ss[i].windows[es[i].event.id]))
    ensures var s, id := ss[i], es[i].event.id;
            var w, now := s.windows[id], es[i].now;
            var released := w.status == Released || ReleasesNow(s, now, w);
            var unkilled := exists j :: RegisteredAs(s.history, j, id) && KillFree(s.history, j);
            && (AnswerAt(ss, es, i) == Showing(Released) <==> released && unkilled)
            && (AnswerAt(ss, es, i) == Spent <==> released && !unkilled)
            && (!released ==>
                  AnswerAt(ss, es, i)
                  == Showing(if w.status !in {Pending, Extended} || now < w.deadline then w.status
                             else if w.status == Pending then Extended else Held))
  {
    hide HandleApprovals, HandleSwitch, HandleDevices, AnswersInv, Enabled;
    RunKeepsAnswers(ss, es, i);
    RegistrationSays(ss[i], es[i].event.id);
  }

  // ---- showings and acknowledgements ---------------------------------------------------------------

  /** The device's signature counts: known, resolvable and unrevoked. */
  predicate Known(lane: Lane, deviceId: string) {
    deviceId in lane.devices && lane.devices[deviceId].resolvable && lane.devices[deviceId].revokedAt.None?
  }

  /** What the window shows at `now`, before anyone acknowledged it: its revision, and the deadline of that. */
  function ShowingOf(w: Window, now: int): Option<(int, int)> {
    if w.status.Pending? && now < w.deadline then Some((w.revision, w.deadline))
    else if w.status.Pending? then Some((w.revision + 1, w.deadline + w.extensionMs))
    else if w.status.Extended? && now < w.deadline then Some((w.revision, w.deadline))
    else None
  }

  /**
   * A detail request is a showing exactly when the device is known, nothing is
   * killed or quarantined, and the window, still unacknowledged, has something
   * it can render to show; it can then be acknowledged for two minutes.
   */
  lemma ShownExactly(ss: seq<State>, es: seq<Timed>, i: nat)
    requires Run(ss, es) && i < |es| && es[i].event.Detail? && es[i].event.id in ss[i].windows
    requires ss[i].windows[es[i].event.id].evidence.None?
    ensures var s, s', e, now := ss[i], ss[i + 1], es[i].event, es[i].now;
            var w := s.windows[e.id];
            if Known(s.lane, e.deviceId) && !s.kill.killed && !s.lane.quarantined && w.call.renderable
               && ShowingOf(w, now).Some? then
              var generation, revision := s.lane.devices[e.deviceId].generation, ShowingOf(w, now).value.0;
              && s'.history == s.history + [Shown(now, e.deliveryId, e.id, w.call, revision, e.deviceId, generation)]
              && e.deliveryId in s'.lane.deliveries
              && s'.lane.deliveries[e.deliveryId]
                 == Delivery(e.id, revision, w.call, e.deviceId, generation, now + 120_000, false)
            else s'.history == s.history && s'.lane == s.lane
  {
    hide HandleApprovals, HandleSwitch, HandleDevices;
  }

  /** The pending delivery is this device's for what the window shows now. */
  predicate Redeemable(s: State, e: Event, now: int)
    requires e.SeenBy? && e.id in s.windows
  {
    && e.deliveryId in s.lane.deliveries && ShowingOf(s.windows[e.id], now).Some?
    && var d, w := s.lane.deliveries[e.deliveryId], s.windows[e.id];
       var (revision, deadline) := ShowingOf(w, now).value;
       && !d.consumed && now < d.expiresAt && d.windowId == e.id && d.deviceId == e.deviceId
       && e.deviceId in s.lane.devices && d.deviceGeneration == s.lane.devices[e.deviceId].generation
       && d.revision == revision && e.revision == revision && d.content == w.call && e.content == w.call
       && w.call.renderable && now <= deadline - 60_000
  }

  /** Of refused deliveries only an unspent one goes: expired, or shown to this device before its generation moved. */
  predicate Drops(s: State, e: Event, now: int)
    requires e.SeenBy? && e.id in s.windows && e.deviceId in s.lane.devices
  {
    && e.deliveryId in s.lane.deliveries && ShowingOf(s.windows[e.id], now).Some?
    && var d := s.lane.deliveries[e.deliveryId];
       && !d.consumed
       && (|| now >= d.expiresAt
           || (&& d.windowId == e.id && d.deviceId == e.deviceId
               && d.deviceGeneration != s.lane.devices[e.deviceId].generation))
  }

  /**
   * An acknowledgement is accepted exactly while the window has none, the
   * device is known and its delivery can be redeemed, and nothing is killed or
   * quarantined; the window then carries it, and the delivery is spent.
   */
  lemma AckedExactly(ss: seq<State>, es: seq<Timed>, i: nat)
    requires Run(ss, es) && i < |es| && es[i].event.SeenBy? && es[i].event.id in ss[i].windows
    ensures var s, s', e, now := ss[i], ss[i + 1], es[i].event, es[i].now;
            var w := s.windows[e.id];
            if w.evidence.None? && Known(s.lane, e.deviceId) && !s.kill.killed && !s.lane.quarantined
               && Redeemable(s, e, now) then
              var generation := s.lane.devices[e.deviceId].generation;
              var (revision, deadline) := ShowingOf(w, now).value;
              && s'.history == s.history + [Acked(now, e.deliveryId, e.id, w.call, revision, deadline, e.deviceId,
                                                  generation)]
              && e.id in s'.windows && s'.windows[e.id].evidence == Some(Evidence(e.deviceId, generation, now))
              && e.deliveryId in s'.lane.deliveries && s'.lane.deliveries[e.deliveryId].consumed
              && s'.lane.deliveries.Keys == s.lane.deliveries.Keys
            else
              && s'.history == s.history
              && s'.lane.deliveries
                 == if w.evidence.None? && Known(s.lane, e.deviceId) && !s.kill.killed && !s.lane.quarantined
                       && Drops(s, e, now)
                    then s.lane.deliveries - {e.deliveryId} else s.lane.deliveries
  {
    hide HandleApprovals, HandleSwitch, HandleDevices;
  }

  // ---- approvals and commits ----------------------------------------------------------------------

  lemma PendingIsCurrent(s: State, id: string)
    requires ApprovalsInv(s) && id in s.approvals
    ensures id in s.windows && s.approvals[id].killEpoch == s.kill.epoch && s.approvals[id].call == s.windows[id].call
  {
    assert ChallengeOk(s, id, s.approvals[id]);
  }

  /**
   * An approval is accepted exactly for an unvetoed, never approved merge,
   * with nothing stopping its agent, on the pending challenge while it lasts;
   * it records owner, time and epoch, and the attempt spends the challenge.
   */
  lemma ApprovedExactly(ss: seq<State>, es: seq<Timed>, i: nat)
    requires Run(ss, es) && i < |es| && es[i].event.Approve?
    ensures var s, s', e := ss[i], ss[i + 1], es[i].event;
            var id, now := e.id, es[i].now;
            && (AnswerAt(ss, es, i) == Accepted
                <==> && id in s.windows && IsMerge(s.windows[id]) && s.windows[id].status != Vetoed
                     && !EverApproved(s.history, id) && !s.kill.killed
                     && s.windows[id].call.agentId !in s.kill.agents
                     && if s.cfg.passkey
                        then && id in s.approvals && now < s.approvals[id].expiresAt
                             && e.signed == Some(s.approvals[id].challenge)
                        else s.cfg.dev)
            && (AnswerAt(ss, es, i) == Accepted ==>
                  && id in s'.windows && s'.windows[id].approval == Some(Approval(e.owner, now, s.kill.epoch))
                  && s'.history == s.history + [Approved(now, id, e.owner, if s.cfg.passkey then e.signed else None)]
                  && (s.cfg.passkey ==> id !in s'.approvals))
            && (AnswerAt(ss, es, i) != Accepted ==> s'.windows == s.windows && s'.history == s.history)
  {
    hide AnswersInv, WindowsInv, GrantsInv, ApprovalsInv, GrantTraceInv, EverApproved, FreshlyApproved;
    hide HandleWindows, HandleSwitch, HandleDevices, Enabled;
    RunKeepsAnswers(ss, es, i);
    RunKeepsInv(ss, es, i);
    var s, id := ss[i], es[i].event.id;
    if id in s.windows {
      ApprovalSays(s, es[i].now, id);
    }
    if id in s.approvals {
      PendingIsCurrent(s, id);
    }
  }

  /**
   * A pending challenge is its window's last, minted less than two minutes
   * before it expires with no kill since: any kill voids it.
   */
  lemma PendingChallengeMeans(ss: seq<State>, es: seq<Timed>, i: nat, id: string)
    requires Run(ss, es) && i < |ss| && id in ss[i].approvals
    ensures var s, c := ss[i], ss[i].approvals[id];
            exists k :: 0 <= k < |s.history| && KillFree(s.history, k) && id in s.windows
              && s.history[k] == ApprovalChallengeMinted(c.expiresAt - 120_000, id, s.windows[id].call, c.challenge)
  {
    RunKeepsInv(ss, es, i);
    assert ChallengeOk(ss[i], id, ss[i].approvals[id]);
  }

  /** A challenge request that was let through, and still finds the system live, leaves its challenge pending. */
  lemma ChallengePendsExactly(ss: seq<State>, es: seq<Timed>, i: nat)
    requires Run(ss, es) && i < |es| && es[i].event.ApprovalChallengeFinish?
    ensures var s, s', e := ss[i], ss[i + 1], es[i].event;
            && (AnswerAt(ss, es, i) == Accepted
                <==> && e.request in s.inFlight && s.inFlight[e.request].ApprovalInFlight?
                     && s.inFlight[e.request].windowId in s.windows && !s.kill.killed && e.rendered)
            && (AnswerAt(ss, es, i) == Accepted ==>
                  var id := s.inFlight[e.request].windowId;
                  && id in s'.approvals && s'.approvals[id].challenge == e.challenge
                  && s'.approvals[id].expiresAt == es[i].now + 120_000)
  {
  }

  /** The grant was minted for this window, which is unvetoed and approved with no kill since. */
  ghost predicate Committable(s: State, id: string, jti: string) {
    && (exists k :: MintedAs(s.history, k, id, jti))
    && (exists j :: ApprovedAs(s.history, j, id) && KillFree(s.history, j))
    && id in s.windows && s.windows[id].status != Vetoed
  }

  lemma CommitSays(s: State, jti: string)
    requires AnswersInv(s)
    ensures (exists id :: Committable(s, id, jti))
            <==> && jti in s.grants.minted && s.grants.minted[jti] in s.windows
                 && var w := s.windows[s.grants.minted[jti]];
                    w.status != Vetoed && w.approval.Some? && w.approval.value.epoch == s.kill.epoch
  {
    if id :| Committable(s, id, jti) {
      var k :| MintedAs(s.history, k, id, jti);
      var j :| ApprovedAs(s.history, j, id) && KillFree(s.history, j);
      assert FactHolds(s, k) && FactHolds(s, j);
    }
    if jti in s.grants.minted && s.grants.minted[jti] in s.windows {
      var id := s.grants.minted[jti];
      if s.windows[id].approval.Some? && s.windows[id].approval.value.epoch == s.kill.epoch {
        var k :| MintedAs(s.history, k, id, jti);
        var j :| ApprovedAs(s.history, j, id);
        assert FactHolds(s, j);
        assert s.windows[id].status != Vetoed ==> Committable(s, id, jti);
      }
    }
  }

  /**
   * A commit is answered true exactly when the grant was minted, its window is
   * not vetoed, and no kill came after the window's approval.
   */
  lemma CommittedExactly(ss: seq<State>, es: seq<Timed>, i: nat)
    requires Run(ss, es) && i < |es| && es[i].event.Commit?
    ensures var s, s', jti := ss[i], ss[i + 1], es[i].event.jti;
            && (AnswerAt(ss, es, i) == CommitAnswer(true)
                <==> exists id :: Committable(s, id, jti))
            && (AnswerAt(ss, es, i) == CommitAnswer(true) ==>
                  exists id :: s'.history == s.history + [Committed(es[i].now, id, jti)]
                    && Dispatched(s'.history, id))
            && (AnswerAt(ss, es, i) != CommitAnswer(true) ==>
                  AnswerAt(ss, es, i) == CommitAnswer(false) && s' == s.(clock := es[i].now))
  {
    hide HandleWindows, HandleSwitch, HandleDevices, AnswersInv, Committable, Enabled;
    RunKeepsAnswers(ss, es, i);
    CommitNeedsOnlyTheEpoch(ss, es, i, es[i].event.jti);
    CommitSays(ss[i], es[i].event.jti);
    if CommitAllowed(ss[i], es[i].event.jti) {
      assert ss[i + 1].history[|ss[i].history|].Committed?;
    }
  }

  // ---- ceremonies -----------------------------------------------------------------------------------

  predicate Stopped(kill: Kill, agentId: Option<string>) {
    match agentId
    case None => kill.killed
    case Some(a) => !kill.killed && a in kill.agents
  }

  /** A ceremony of this owner and scope, started `ago` before now, that no kill came after. */
  ghost predicate Alive(s: State, j: int, id: string) {
    && 0 <= j < |s.history| && s.history[j].CeremonyStarted? && s.history[j].ceremonyId == id
    && KillFree(s.history, j) && Stopped(s.kill, s.history[j].agentId)
  }

  ghost predicate EverRestored(h: seq<Fact>, id: string) {
    exists i :: RestoredAs(h, i, id)
  }

  lemma AliveMeans(s: State, now: int, j: int, id: string)
    requires RestoresInv(s) && RestoreTraceInv(s) && Alive(s, j, id) && s.clock <= now
    ensures id in s.ceremonies.records
    ensures var r, f := s.ceremonies.records[id], s.history[j];
            && r.ceremony.ownerId == f.owner && r.agentId == f.agentId && r.ceremony.startedAt == f.at
            && r.epoch == s.kill.epoch
            && (f.owner != "" && id != "" ==> (r.ceremony.status.Completed? <==> EverRestored(s.history, id)))
            && (!r.ceremony.status.Completed? ==>
                  (TwoGo.Confirmable(r.ceremony, now) <==> 30_000 <= now - f.at < 300_000))
            && (!r.ceremony.status.Completed? && now - f.at < 300_000 ==> id in s.ceremonies.live)
  {
    assert StartHolds(s, j) && RecordHolds(s, id);
  }

  /** The record of a live ceremony has a start that makes it Alive. */
  lemma LiveIsAlive(s: State, id: string) returns (j: int)
    requires RestoresInv(s) && id in s.ceremonies.records
    requires var r := s.ceremonies.records[id]; r.epoch == s.kill.epoch && Restorable(s.kill, r.agentId)
    ensures Alive(s, j, id) && s.history[j].agentId == s.ceremonies.records[id].agentId
  {
    assert RecordHolds(s, id);
    j :| StartedAt(s.history, j, id, s.ceremonies.records[id]);
    assert StartHolds(s, j);
  }

  /** The ceremony that a restore may spend now: 30 s to 5 min old, of this owner, unspent. */
  ghost predicate Spendable(s: State, now: int, j: int, id: string, owner: string) {
    && Alive(s, j, id) && s.history[j].owner == owner && 30_000 <= now - s.history[j].at < 300_000
    && !EverRestored(s.history, id)
  }

  /**
   * A restore is accepted exactly on a ceremony of its owner started 30 s to
   * 5 min ago, with its scope stopped, no kill since and no restore yet, on the
   * pending challenge where a passkey is enrolled, and with no failed
   * quarantine; what the map has purged or ticked does not matter. It lifts
   * that scope and nothing else.
   */
  lemma RestoredExactly(ss: seq<State>, es: seq<Timed>, i: nat)
    requires Run(ss, es) && i < |es| && es[i].event.Restore?
    ensures var s, e, now := ss[i], es[i].event, es[i].now;
            AnswerAt(ss, es, i) == Accepted
            <==> && !s.kill.quarantineFailed && e.owner != "" && e.id != ""
                 && (exists j :: Spendable(s, now, j, e.id, e.owner))
                 && (s.cfg.passkey ==>
                       && e.id in s.ceremonies.challenges && now < s.ceremonies.challenges[e.id].expiresAt
                       && e.signed == Some(s.ceremonies.challenges[e.id].challenge))
    ensures var s, s', e := ss[i], ss[i + 1], es[i].event;
            if AnswerAt(ss, es, i) == Accepted then
              exists j :: Alive(s, j, e.id) && Lifts(s, s', s.history[j].agentId)
            else s'.kill == s.kill && s'.history == s.history
  {
    hide RestoresInv, CeremoniesInv, RestoreTraceInv, HandleWindows, HandleApprovals, HandleDevices, EverRestored;
    var s := ss[i].(clock := es[i].now);
    var e := es[i].event;
    RunKeepsRestores(ss, es, i);
    RunKeepsCeremonies(ss, es, i);
    ChallengeIsCurrent(ss[i], e.id);
    if AnswerAt(ss, es, i) == Accepted {
      var j := LiveIsAlive(ss[i], e.id);
      AliveMeans(ss[i], es[i].now, j, e.id);
      AcceptedMeans(s, e.owner, e.id, e.signed, e.persistLost);
      assert Spendable(ss[i], es[i].now, j, e.id, e.owner);
    } else {
      RestoreLifts(s, e.owner, e.id, e.signed, e.persistLost);
      RefusedChangesNothing(s, e.owner, e.id, e.signed, e.persistLost);
      if j :| Spendable(ss[i], es[i].now, j, e.id, e.owner) {
        AliveMeans(ss[i], es[i].now, j, e.id);
      }
    }
  }

  lemma ChallengeIsCurrent(s: State, id: string)
    requires CeremoniesInv(s)
    ensures id in s.ceremonies.challenges ==> s.ceremonies.challenges[id].killEpoch == s.kill.epoch
    ensures id in s.kill.consumed ==> Completed(s.ceremonies.records, id)
  {
    if id in s.ceremonies.challenges {
      assert Go2Ok(s.history, s.kill.epoch, s.ceremonies.records, id, s.ceremonies.challenges[id]);
    }
  }

  lemma AcceptedMeans(s: State, owner: string, id: string, signed: Option<string>, persistLost: bool)
    requires DoRestore(s, owner, id, signed, persistLost).1 == Accepted
    ensures RestoreAdmissible(s, owner, id) && (s.cfg.passkey ==> RestoreSigned(s, id, signed))
    ensures var r := s.ceremonies.records[id];
            && TwoGo.Confirmable(r.ceremony, s.clock) && !r.ceremony.status.Completed?
            && Lifts(s, DoRestore(s, owner, id, signed, persistLost).0, r.agentId)
  {
  }

  lemma RefusedChangesNothing(s: State, owner: string, id: string, signed: Option<string>, persistLost: bool)
    requires DoRestore(s, owner, id, signed, persistLost).1 != Accepted
    ensures var s' := DoRestore(s, owner, id, signed, persistLost).0; s'.kill == s.kill && s'.history == s.history
  {
  }

  /**
   * A GO 2/2 challenge is minted exactly for a ceremony that could be spent
   * now, however the request waited; it then replaces any pending one.
   */
  lemma RestoreChallengeExactly(ss: seq<State>, es: seq<Timed>, i: nat, id: string)
    requires Run(ss, es) && i < |es| && es[i].event.RestoreChallengeFinish? && id != ""
    requires es[i].event.request in ss[i].inFlight && ss[i].inFlight[es[i].event.request] == RestoreInFlight(id)
    requires id in ss[i].ceremonies.records && ss[i].ceremonies.records[id].ceremony.ownerId != ""
    ensures var s, s', now := ss[i], ss[i + 1], es[i].now;
            && (AnswerAt(ss, es, i) == Accepted
                <==> exists j :: Spendable(s, now, j, id, s.ceremonies.records[id].ceremony.ownerId))
            && (AnswerAt(ss, es, i) == Accepted ==>
                  && id in s'.ceremonies.challenges
                  && s'.ceremonies.challenges[id]
                     == RestoreChallenge(es[i].event.challenge, s.kill.epoch, now + 120_000)
                  && s'.history == s.history + [RestoreChallengeMinted(now, id, es[i].event.challenge)])
            && (AnswerAt(ss, es, i) != Accepted ==>
                  s'.history == s.history && s'.ceremonies.challenges == s.ceremonies.challenges)
  {
    hide RestoresInv, CeremoniesInv, RestoreTraceInv, HandleWindows, HandleApprovals, HandleDevices, EverRestored;
    var s, r := ss[i], ss[i].ceremonies.records[id];
    RunKeepsRestores(ss, es, i);
    RunKeepsCeremonies(ss, es, i);
    if Restorable(s.kill, r.agentId) && r.epoch == s.kill.epoch {
      var j := LiveIsAlive(s, id);
      AliveMeans(s, es[i].now, j, id);
      assert TwoGo.Confirmable(r.ceremony, es[i].now) ==> Spendable(s, es[i].now, j, id, r.ceremony.ownerId);
    }
    if j :| Spendable(s, es[i].now, j, id, r.ceremony.ownerId) {
      AliveMeans(s, es[i].now, j, id);
    }
  }

  /** An unspent ceremony of this owner and scope, under 5 min old. */
  ghost predicate Unspent(s: State, now: int, j: int, owner: string, agentId: Option<string>) {
    && 0 <= j < |s.history| && s.history[j].CeremonyStarted?
    && Alive(s, j, s.history[j].ceremonyId) && s.history[j].owner == owner && s.history[j].agentId == agentId
    && now - s.history[j].at < 300_000 && s.history[j].ceremonyId != ""
    && !EverRestored(s.history, s.history[j].ceremonyId)
  }

  lemma HeldIsReused(s: State, id: string, owner: string, agentId: Option<string>, licensed: bool, x: string)
    requires x in s.ceremonies.live && HoldsFor(s, x, owner, agentId)
    ensures StartOrReuse(s, id, owner, agentId, licensed).1 == Accepted
    ensures StartOrReuse(s, id, owner, agentId, licensed).0.history == s.history
  {
    var held := set y | y in s.ceremonies.live && HoldsFor(s, y, owner, agentId);
    assert x in held;
  }

  lemma HeldIsAccepted(s: State, id: string, owner: string, agentId: Option<string>, licensed: bool, x: string)
    requires Restorable(s.kill, agentId) && (agentId.Some? ==> IsValidAgentId(agentId.value))
    requires x in s.ceremonies.live && HoldsFor(s, x, owner, agentId) && !Dead(s, s.ceremonies.records[x])
    ensures DoCeremonyStart(s, id, owner, agentId, licensed).1 == Accepted
    ensures DoCeremonyStart(s, id, owner, agentId, licensed).0.history == s.history
  {
    hide StartOrReuse;
    HeldIsReused(s.(ceremonies := s.ceremonies.(live := Purged(s))), id, owner, agentId, licensed, x);
  }

  /**
   * A repeat start is answered from the ceremony there is, whatever the
   * licence and however full the map, and opens nothing.
   */
  lemma RepeatStartReuses(ss: seq<State>, es: seq<Timed>, i: nat)
    requires Run(ss, es) && i < |es| && es[i].event.CeremonyStart? && es[i].event.owner != ""
    requires es[i].event.agentId.Some? ==> IsValidAgentId(es[i].event.agentId.value)
    requires exists j :: Unspent(ss[i], es[i].now, j, es[i].event.owner, es[i].event.agentId)
    ensures AnswerAt(ss, es, i) == Accepted && ss[i + 1].history == ss[i].history
  {
    hide RestoresInv, CeremoniesInv, RestoreTraceInv, HandleWindows, HandleApprovals, HandleDevices, EverRestored;
    RunKeepsRestores(ss, es, i);
    RunKeepsCeremonies(ss, es, i);
    var s, e := ss[i].(clock := es[i].now), es[i].event;
    var j :| Unspent(ss[i], es[i].now, j, e.owner, e.agentId);
    var x := s.history[j].ceremonyId;
    AliveMeans(ss[i], es[i].now, j, x);
    HeldIsAccepted(s, e.id, e.owner, e.agentId, e.licensed, x);
  }

  /** A record some path could still spend: young, unspent, no kill since, its agent (if any) still killed. */
  predicate Waiting(s: State, now: int, id: string) {
    && id in s.ceremonies.live && id in s.ceremonies.records
    && var r := s.ceremonies.records[id];
       && now - r.ceremony.startedAt < 300_000 && r.ceremony.status != TwoGo.Completed
       && r.epoch == s.kill.epoch && (r.agentId.Some? ==> r.agentId.value in s.kill.agents)
  }

  function WaitingIds(s: State, now: int): set<string> {
    set id | id in s.ceremonies.live && Waiting(s, now, id)
  }

  lemma PurgedIsWaiting(s: State)
    ensures Purged(s) == WaitingIds(s, s.clock)
  {
  }

  lemma WaitingNow(s: State, now: int)
    ensures WaitingIds(s.(clock := now), now) == WaitingIds(s, now)
    ensures forall x :: x in WaitingIds(s, now) ==> x in s.ceremonies.records
  {
  }

  /**
   * A first start, when no ceremony of its owner and scope is waiting, is
   * accepted exactly while its scope is stopped, licensed, and fewer than 256
   * ceremonies wait at all; it opens one, started now at the epoch in force.
   */
  lemma FirstStartExactly(ss: seq<State>, es: seq<Timed>, i: nat)
    requires Run(ss, es) && i < |es| && es[i].event.CeremonyStart?
    requires forall x :: x in WaitingIds(ss[i], es[i].now) ==>
               var r := ss[i].ceremonies.records[x];
               r.ceremony.ownerId != es[i].event.owner || r.agentId != es[i].event.agentId
    ensures var s, s', e, now := ss[i], ss[i + 1], es[i].event, es[i].now;
            && (AnswerAt(ss, es, i) == Accepted
                <==> && (e.agentId.Some? ==> IsValidAgentId(e.agentId.value)) && Stopped(s.kill, e.agentId)
                     && e.licensed && |WaitingIds(s, now)| < 256)
            && s'.history == s.history + (if AnswerAt(ss, es, i) == Accepted
                                          then [CeremonyStarted(now, e.id, e.owner, e.agentId)] else [])
            && (AnswerAt(ss, es, i) == Accepted ==>
                  && s'.ceremonies.live == WaitingIds(s, now) + {e.id}
                  && s'.ceremonies.records
                     == s.ceremonies.records[e.id := CeremonyRecord(TwoGo.Ceremony(e.owner, now, TwoGo.Go1),
                                                                    s.kill.epoch, e.agentId)])
  {
    hide HandleWindows, HandleApprovals, HandleDevices, Dead, Waiting, WaitingIds;
    var s := ss[i].(clock := es[i].now);
    PurgedIsWaiting(s);
    WaitingNow(ss[i], es[i].now);
  }
}
