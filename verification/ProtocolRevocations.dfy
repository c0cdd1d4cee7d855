/**
 * What a revoked device has left: nothing is shown to it, nothing it
 * acknowledged still backs an open window, and no delivery of its is pending.
 */
module ProtocolRevocations {
  import opened Wrappers
  import opened VetoWindows
  import opened Protocol
  import opened ProtocolWindows
  import opened ProtocolShowings

  predicate RevokedIn(devices: map<string, Device>, id: string) {
    id in devices && devices[id].revokedAt.Some?
  }

  predicate About(f: Fact, id: string) {
    (f.Shown? || f.Acked?) && f.deviceId == id
  }

  /** No open window rests on the device, and nothing it was shown is still pending. */
  ghost predicate BacksNothing(s: State, id: string) {
    && (forall x :: x in s.windows && IsOpen(s.windows[x]) && s.windows[x].evidence.Some? ==>
          s.windows[x].evidence.value.deviceId != id)
    && (forall k :: k in s.lane.deliveries ==> s.lane.deliveries[k].deviceId != id)
  }

  ghost predicate SilentSince(h: seq<Fact>, k: int)
    requires 0 <= k < |h| && h[k].Revoked?
  {
    forall j :: k < j < |h| ==> !About(h[j], h[k].deviceId)
  }

  ghost predicate RevocationsInv(s: State) {
    && (forall id :: RevokedIn(s.lane.devices, id) ==> BacksNothing(s, id))
    && (forall k :: 0 <= k < |s.history| && s.history[k].Revoked? ==>
          RevokedIn(s.lane.devices, s.history[k].deviceId) && SilentSince(s.history, k))
  }

  /** Each window that is still open keeps the evidence it had, or has none. */
  ghost predicate EvidenceShrinks(s: State, s': State) {
    forall x :: x in s'.windows && IsOpen(s'.windows[x]) && s'.windows[x].evidence.Some? ==>
      x in s.windows && IsOpen(s.windows[x]) && s.windows[x].evidence == s'.windows[x].evidence
  }

  /** Evidence and deliveries at most go away; who is revoked stays, and nothing is shown or acked. */
  ghost predicate Shrinks(s: State, s': State) {
    && Quiet(s, s')
    && EvidenceShrinks(s, s')
    && (forall id :: RevokedIn(s'.lane.devices, id) <==> RevokedIn(s.lane.devices, id))
    && (forall i :: |s.history| <= i < |s'.history| ==> !s'.history[i].Revoked?)
  }

  lemma ShrinkKeeps(s: State, s': State)
    requires RevocationsInv(s) && Shrinks(s, s')
    ensures RevocationsInv(s')
  {
    assert forall k :: 0 <= k < |s.history| ==> s'.history[k] == s.history[k];
    forall k | 0 <= k < |s'.history| && s'.history[k].Revoked?
      ensures RevokedIn(s'.lane.devices, s'.history[k].deviceId) && SilentSince(s'.history, k)
    {
      assert SilentSince(s.history, k);
    }
    forall id | RevokedIn(s'.lane.devices, id)
      ensures BacksNothing(s', id)
    {
      assert BacksNothing(s, id);
    }
  }

  lemma ShrinksCompose(s: State, t: State, u: State)
    requires Shrinks(s, t) && Shrinks(t, u)
    ensures Shrinks(s, u)
  {
    QuietComposes(s, t, u);
  }

  // ---- revoking ------------------------------------------------------------------------------------

  lemma CleansedShrinks(s: State, id: string)
    ensures Shrinks(s, Cleansed(s, id)) && BacksNothing(Cleansed(s, id), id)
  {
  }

  /** Marked, then cleansed: the device joins those that back nothing. */
  lemma SeveredKeeps(s: State, id: string)
    requires RevocationsInv(s) && id in s.lane.devices
    ensures RevocationsInv(Severed(s, id))
  {
    var devices := s.lane.devices[id := RevokedDevice(s.lane.devices[id], s.clock)];
    var marked := s.(lane := s.lane.(devices := devices));
    CleansedShrinks(marked, id);
    var t, s' := Cleansed(marked, id), Severed(s, id);
    forall x | RevokedIn(s'.lane.devices, x)
      ensures BacksNothing(s', x)
    {
      if x != id {
        assert BacksNothing(s, x);
      }
    }
    forall k | 0 <= k < |s'.history| && s'.history[k].Revoked?
      ensures RevokedIn(s'.lane.devices, s'.history[k].deviceId) && SilentSince(s'.history, k)
    {
      if k < |s.history| {
        assert s'.history[k] == s.history[k] && SilentSince(s.history, k);
      }
    }
  }

  lemma ExportedShrinks(s: State, exported: bool, persistLost: bool)
    ensures Shrinks(s, Exported(s, exported, persistLost))
  {
  }

  lemma {:induction false} SupersededKeeps(s: State, aliases: seq<string>)
    requires RevocationsInv(s)
    ensures RevocationsInv(Superseded(s, aliases))
    decreases |aliases|
  {
    if |aliases| > 0 {
      var n := |aliases| - 1;
      SupersededKeeps(s, aliases[..n]);
      if Supersedable(Superseded(s, aliases[..n]), aliases[n]) {
        SeveredKeeps(Superseded(s, aliases[..n]), aliases[n]);
      }
    }
  }

  lemma SeveredExportedKeeps(s: State, id: string, exported: bool, persistLost: bool)
    requires RevocationsInv(s) && id in s.lane.devices
    ensures RevocationsInv(Exported(Severed(s, id), exported, persistLost))
  {
    hide RevocationsInv, Severed, Exported, Shrinks;
    SeveredKeeps(s, id);
    ExportedShrinks(Severed(s, id), exported, persistLost);
    ShrinkKeeps(Severed(s, id), Exported(Severed(s, id), exported, persistLost));
  }

  lemma SameLaneShrinks(s: State, s': State)
    requires s'.windows == s.windows && s'.lane == s.lane.(quarantined := s'.lane.quarantined)
    requires s'.history == s.history && s.clock <= s'.clock
    ensures Shrinks(s, s')
  {
  }

  lemma RevokeStaticKeeps(s: State, id: string, exported: bool, persistLost: bool)
    requires RevocationsInv(s)
    ensures RevocationsInv(DoRevokeStatic(s, id, exported, persistLost).0)
  {
    hide RevocationsInv, DoRevokeStatic, Shrinks, Exported, Severed;
    RevokeStaticOutcomes(s, id, exported, persistLost);
    SameLaneShrinks(s, s.(lane := s.lane.(quarantined := false)));
    ShrinkKeeps(s, s.(lane := s.lane.(quarantined := false)));
    if id in s.lane.devices {
      SeveredExportedKeeps(s, id, exported, persistLost);
    }
  }

  lemma LostShrinks(s: State, persistLost: bool)
    ensures Shrinks(s, s.(lane := Unresolved(s.lane)))
    ensures Shrinks(s, Engage(s.(lane := Unresolved(s.lane)), None, persistLost))
  {
  }

  lemma RevokeEnrolledKeeps(s: State, id: string, published: bool, exported: bool, persistLost: bool)
    requires RevocationsInv(s)
    ensures RevocationsInv(DoRevokeEnrolled(s, id, published, exported, persistLost).0)
  {
    hide RevocationsInv, DoRevokeEnrolled, Shrinks, Exported, Severed, Cleansed, Engage;
    RevokeEnrolledOutcomes(s, id, published, exported, persistLost);
    CleansedShrinks(s, id);
    ShrinkKeeps(s, Cleansed(s, id));
    ExportedShrinks(Cleansed(s, id), exported, persistLost);
    ShrinkKeeps(Cleansed(s, id), Exported(Cleansed(s, id), exported, persistLost));
    LostShrinks(s, persistLost);
    ShrinkKeeps(s, Engage(s.(lane := Unresolved(s.lane)), None, persistLost));
    if id in s.lane.devices {
      SeveredExportedKeeps(s, id, exported, persistLost);
    }
  }

  lemma AdmitKeeps(s: State, deviceId: string, aliases: seq<string>, exported: bool, persistLost: bool)
    requires RevocationsInv(s) && deviceId !in s.lane.devices
    ensures RevocationsInv(DoAdmit(s, deviceId, aliases, exported, persistLost).0)
  {
    hide RevocationsInv, Shrinks, Superseded, Exported;
    var s1 := s.(lane := s.lane.(devices := s.lane.devices[deviceId := Device(1, None, true, true)]));
    NewcomerShrinks(s, deviceId);
    ShrinkKeeps(s, s1);
    SupersededKeeps(s1, aliases);
    var s2 := Superseded(s1, aliases);
    ExportedShrinks(s2, false, persistLost);
    ShrinkKeeps(s2, Exported(s2, false, persistLost));
  }

  lemma NewcomerShrinks(s: State, deviceId: string)
    requires deviceId !in s.lane.devices
    ensures Shrinks(s, s.(lane := s.lane.(devices := s.lane.devices[deviceId := Device(1, None, true, true)])))
  {
  }

  lemma DeviceEventsKeep(s: State, e: Event)
    requires RevocationsInv(s) && OfDevices(e) && Enabled(s, e, s.clock)
    ensures RevocationsInv(HandleDevices(s, e).0)
  {
    hide RevocationsInv, DoRevokeStatic, DoRevokeEnrolled, DoAdmit, Shrinks;
    match e
    case RevokeStatic(deviceId, exported, persistLost) => RevokeStaticKeeps(s, deviceId, exported, persistLost);
    case RevokeEnrolled(deviceId, published, exported, persistLost) =>
      RevokeEnrolledKeeps(s, deviceId, published, exported, persistLost);
    case Admit(deviceId, aliases, exported, persistLost) => AdmitKeeps(s, deviceId, aliases, exported, persistLost);
    case RegistryLost =>
      LostShrinks(s, false);
      ShrinkKeeps(s, HandleDevices(s, e).0);
  }

  // ---- everything else -----------------------------------------------------------------------------

  lemma RegisterShrinks(s: State, id: string, call: Call, purpose: Option<Purpose>)
    requires id !in s.windows
    ensures EvidenceShrinks(s, DoRegister(s, id, call, purpose).0)
  {
  }

  lemma ReadShrinks(s: State, id: string, jti: string)
    ensures EvidenceShrinks(s, DoReadVeto(s, id, jti).0)
  {
    hide ReadEligible;
    if id in s.windows {
      var w := TickedIn(s, s.windows[id]);
      EligibleLeavesWindows(s.(windows := s.windows[id := w]), id, w, jti);
    }
  }

  lemma EligibleLeavesWindows(s: State, id: string, w: Window, jti: string)
    ensures ReadEligible(s, id, w, jti).0.windows == s.windows
  {
  }

  lemma WindowEventsShrink(s: State, e: Event)
    requires e.Register? || e.ReadVeto? || e.Poll? || e.Veto?
    requires e.Register? ==> e.id !in s.windows
    ensures Shrinks(s, HandleWindows(s, e).0)
  {
    hide Quiet, DoRegister, DoReadVeto;
    WindowEventsQuiet(s, e);
    WindowEventsLeaveLane(s, e);
    if e.Register? {
      RegisterShrinks(s, e.id, e.call, e.purpose);
    } else if e.ReadVeto? {
      ReadShrinks(s, e.id, e.jti);
    }
  }

  lemma WindowEventsLeaveLane(s: State, e: Event)
    requires e.Register? || e.ReadVeto? || e.Poll? || e.Veto?
    ensures var s' := HandleWindows(s, e).0;
            && s'.lane == s.lane
            && forall i :: |s.history| <= i < |s'.history| ==> !s'.history[i].Revoked?
  {
  }

  /** At most the approval of a window moves. */
  lemma ApproveLeavesEvidence(s: State, id: string, owner: string, signed: Option<string>)
    ensures var s' := DoApprove(s, id, owner, signed).0;
            && s'.lane == s.lane
            && (s'.windows == s.windows
                || (&& id in s.windows && id in s'.windows && s'.windows == s.windows[id := s'.windows[id]]
                    && s'.windows[id] == s.windows[id].(approval := s'.windows[id].approval)))
            && forall i :: |s.history| <= i < |s'.history| ==> !s'.history[i].Revoked?
  {
    hide ApprovalSigned, GrantEligible, ApproveWindow;
    if id in s.windows {
      ApprovingTouches(s.(approvals := s.approvals - {id}), id, owner, signed);
      ApprovingTouches(s, id, owner, None);
    }
  }

  lemma ApprovingTouches(s: State, id: string, owner: string, signed: Option<string>)
    requires id in s.windows
    ensures var s' := ApproveWindow(s, id, owner, signed).0;
            && s'.lane == s.lane
            && (s'.windows == s.windows
                || (&& id in s'.windows && s'.windows == s.windows[id := s'.windows[id]]
                    && s'.windows[id] == s.windows[id].(approval := s'.windows[id].approval)))
            && (s'.history == s.history || s'.history == s.history + [Approved(s.clock, id, owner, signed)])
  {
  }

  lemma ApproveShrinks(s: State, id: string, owner: string, signed: Option<string>)
    ensures Shrinks(s, DoApprove(s, id, owner, signed).0)
  {
    hide Quiet, DoApprove;
    ApproveLeavesEvidence(s, id, owner, signed);
    ApproveQuiet(s, id, owner, signed);
  }

  lemma ApprovalEventsShrink(s: State, e: Event)
    requires OfApprovals(e)
    ensures Shrinks(s, HandleApprovals(s, e).0)
  {
    hide Quiet, DoApprove, CommitAllowed;
    if e.Approve? {
      ApproveShrinks(s, e.id, e.owner, e.signed);
    }
    ApprovalEventsQuiet(s, e);
  }

  /** Ceremonies and kills touch no window, delivery or device. */
  lemma SwitchLeavesLane(s: State, e: Event)
    requires OfSwitch(e)
    ensures HandleSwitch(s, e).0.windows == s.windows && HandleSwitch(s, e).0.lane == s.lane
    ensures var h' := HandleSwitch(s, e).0.history; forall i :: |s.history| <= i < |h'| ==> !h'[i].Revoked?
  {
    hide DoCeremonyStart, DoRestore;
    if e.CeremonyStart? {
      CeremonyStartOutcome(s, e.id, e.owner, e.agentId, e.licensed);
    } else if e.Restore? {
      RestoreLeavesLane(s, e.owner, e.id, e.signed, e.persistLost);
    }
  }

  lemma ConfirmLeavesLane(s: State, owner: string, id: string, signed: Option<string>, persistLost: bool)
    requires id in s.ceremonies.records
    ensures var s' := ConfirmAndRestore(s, owner, id, signed, persistLost).0;
            s'.windows == s.windows && s'.lane == s.lane
            && forall i :: |s.history| <= i < |s'.history| ==> !s'.history[i].Revoked?
  {
  }

  lemma RestoreLeavesLane(s: State, owner: string, id: string, signed: Option<string>, persistLost: bool)
    ensures var s' := DoRestore(s, owner, id, signed, persistLost).0;
            s'.windows == s.windows && s'.lane == s.lane
            && forall i :: |s.history| <= i < |s'.history| ==> !s'.history[i].Revoked?
  {
    hide ConfirmAndRestore;
    if RestoreAdmissible(s, owner, id) {
      ConfirmLeavesLane(s.(ceremonies := s.ceremonies.(challenges := s.ceremonies.challenges - {id})), owner, id,
                        signed, persistLost);
      ConfirmLeavesLane(s, owner, id, None, persistLost);
    }
  }

  lemma SwitchEventsShrink(s: State, e: Event)
    requires OfSwitch(e)
    ensures Shrinks(s, HandleSwitch(s, e).0)
  {
    hide Quiet, HandleSwitch;
    SwitchEventsQuiet(s, e);
    SwitchLeavesLane(s, e);
  }

  /** A showing is to a device that authenticates, so to none revoked. */
  lemma DetailKeepsRevocations(s: State, e: Event)
    requires RevocationsInv(s) && e.Detail?
    ensures RevocationsInv(HandleWindows(s, e).0)
  {
    var s' := HandleWindows(s, e).0;
    assert forall k :: 0 <= k < |s.history| ==> s'.history[k] == s.history[k];
    forall k | 0 <= k < |s'.history| && s'.history[k].Revoked?
      ensures RevokedIn(s'.lane.devices, s'.history[k].deviceId) && SilentSince(s'.history, k)
    {
      assert SilentSince(s.history, k);
    }
    forall id | RevokedIn(s'.lane.devices, id)
      ensures BacksNothing(s', id)
    {
      assert BacksNothing(s, id);
    }
  }

  lemma AckKeepsRevocations(
    s: State, id: string, deviceId: string, deliveryId: string, revision: int, content: Call)
    requires RevocationsInv(s) && id in s.windows && Authenticates(s, deviceId)
    ensures RevocationsInv(AcceptAck(s, id, deviceId, deliveryId, revision, content).0)
  {
    var s' := AcceptAck(s, id, deviceId, deliveryId, revision, content).0;
    assert forall k :: 0 <= k < |s.history| ==> s'.history[k] == s.history[k];
    forall k | 0 <= k < |s'.history| && s'.history[k].Revoked?
      ensures RevokedIn(s'.lane.devices, s'.history[k].deviceId) && SilentSince(s'.history, k)
    {
      assert SilentSince(s.history, k);
    }
    forall x | RevokedIn(s'.lane.devices, x)
      ensures BacksNothing(s', x)
    {
      assert BacksNothing(s, x);
    }
  }

  lemma SeenKeepsRevocations(s: State, e: Event)
    requires RevocationsInv(s) && e.SeenBy?
    ensures RevocationsInv(HandleWindows(s, e).0)
  {
    hide RevocationsInv, AcceptAck;
    if e.id in s.windows && Authenticates(s, e.deviceId) {
      var s1 := s.(windows := s.windows[e.id := TickedIn(s, s.windows[e.id])]);
      ShrinkKeeps(s, s1);
      AckKeepsRevocations(s1, e.id, e.deviceId, e.deliveryId, e.revision, e.content);
    }
  }

  lemma StepKeepsRevocations(s0: State, e: Event, now: int)
    requires RevocationsInv(s0) && Enabled(s0, e, now)
    ensures RevocationsInv(Step(s0, e, now).0)
  {
    hide RevocationsInv, Shrinks, HandleWindows, HandleApprovals, HandleSwitch, HandleDevices;
    var s := s0.(clock := now);
    SameLaneShrinks(s0, s);
    ShrinkKeeps(s0, s);
    if OfDevices(e) {
      DeviceEventsKeep(s, e);
    } else if e.Detail? {
      DetailKeepsRevocations(s, e);
    } else if e.SeenBy? {
      SeenKeepsRevocations(s, e);
    } else {
      if OfWindows(e) {
        WindowEventsShrink(s, e);
      } else if OfApprovals(e) {
        ApprovalEventsShrink(s, e);
      } else {
        SwitchEventsShrink(s, e);
      }
      ShrinkKeeps(s, Handle(s, e).0);
    }
  }

  lemma {:induction false} RunKeepsRevocations(ss: seq<State>, es: seq<Timed>, i: nat)
    requires Run(ss, es) && i < |ss|
    ensures RevocationsInv(ss[i])
  {
    hide Step, Enabled;
    if i > 0 {
      RunKeepsRevocations(ss, es, i - 1);
      StepKeepsRevocations(ss[i - 1], es[i - 1].event, es[i - 1].now);
    }
  }

  /**
   * From its revocation on, in any run: nothing is ever shown to the device or
   * acknowledged by it again, no delivery of its stays pending, and no open
   * window rests on it, so another device may acknowledge in its place.
   */
  lemma RevokedDevicesAreOut(ss: seq<State>, es: seq<Timed>, i: nat, k: nat)
    requires Run(ss, es) && i < |ss| && k < |ss[i].history| && ss[i].history[k].Revoked?
    ensures var h, id := ss[i].history, ss[i].history[k].deviceId;
            && (forall j :: k < j < |h| && (h[j].Shown? || h[j].Acked?) ==> h[j].deviceId != id)
            && id in ss[i].lane.devices && ss[i].lane.devices[id].revokedAt.Some? && BacksNothing(ss[i], id)
  {
    RunKeepsRevocations(ss, es, i);
    assert SilentSince(ss[i].history, k);
  }

  /** Severed: revoked, on the record, and what the export then did to lane and switch. */
  lemma SeveringRecords(s: State, id: string)
    requires id in s.lane.devices
    ensures var s' := Exported(Severed(s, id), true, false);
            && RevokedIn(s'.lane.devices, id) && s'.kill == s.kill && !s'.lane.quarantined
            && s'.history == s.history + [Revoked(s.clock, id)]
  {
  }

  /**
   * An accepted revocation of a standing device is on the record; the export
   * was durable, nothing was killed, and the device is then out for good.
   */
  lemma RevokedIsRecorded(ss: seq<State>, es: seq<Timed>, i: nat)
    requires Run(ss, es) && i < |es| && (es[i].event.RevokeStatic? || es[i].event.RevokeEnrolled?)
    requires Step(ss[i], es[i].event, es[i].now).1 == Accepted
    requires !RevokedIn(ss[i].lane.devices, es[i].event.deviceId)
    ensures RevokedIn(ss[i + 1].lane.devices, es[i].event.deviceId) && es[i].event.exported
    ensures ss[i + 1].history == ss[i].history + [Revoked(es[i].now, es[i].event.deviceId)]
    ensures ss[i + 1].kill == ss[i].kill && !ss[i + 1].lane.quarantined
  {
    hide HandleWindows, HandleApprovals, HandleSwitch, Severed, Cleansed;
    var s := ss[i].(clock := es[i].now);
    if es[i].event.deviceId in s.lane.devices {
      SeveringRecords(s, es[i].event.deviceId);
    }
  }
}
