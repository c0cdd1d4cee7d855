/**
 * What every reachable state says about one veto window: its epochs, its
 * approval and its delivery evidence are backed by the run's trace.
 */
module ProtocolWindows {
  import opened Wrappers
  import opened VetoWindows
  import opened Protocol
  import TwoGo

  /** No kill of any kind is recorded from position j on. */
  ghost predicate KillFree(h: seq<Fact>, j: int) {
    forall k :: 0 <= j <= k < |h| ==> !h[k].Killed?
  }

  ghost predicate RevokeFree(h: seq<Fact>, j: int, deviceId: string) {
    forall k :: 0 <= j <= k < |h| ==> !(h[k].Revoked? && h[k].deviceId == deviceId)
  }

  /** Current epochs imply that nothing stops the window's agent. */
  ghost predicate EpochOk(kill: Kill, w: Window) {
    && w.killEpoch <= kill.epoch
    && (w.killEpoch == kill.epoch ==>
          w.call.agentId !in kill.agents && (w.status.Released? ==> !kill.killed))
    && (w.approval.Some? ==>
          && w.approval.value.epoch <= kill.epoch
          && (w.approval.value.epoch == kill.epoch ==> !kill.killed && w.call.agentId !in kill.agents))
  }

  ghost predicate ApprovedAt(h: seq<Fact>, j: int, id: string, a: Approval) {
    0 <= j < |h| && h[j].Approved? && h[j].windowId == id && h[j].at == a.at && h[j].owner == a.owner
  }

  ghost predicate ApprovalOk(h: seq<Fact>, epoch: int, id: string, w: Window) {
    w.approval.Some? ==>
      exists j :: ApprovedAt(h, j, id, w.approval.value) && (w.approval.value.epoch == epoch ==> KillFree(h, j))
  }

  /** The accepted ack behind the delivered bit, for the current showing. */
  ghost predicate AckedAt(h: seq<Fact>, j: int, id: string, w: Window, e: Evidence) {
    && 0 <= j < |h|
    && h[j].Acked?
    && h[j] == Acked(e.at, h[j].deliveryId, id, w.call, w.revision, w.deadline, e.deviceId, e.generation)
    && e.at <= w.deadline - MIN_VETO_RESPONSE_MS
  }

  /** The acking device is known, and unrevoked since the ack if its generation still matches. */
  ghost predicate WitnessOk(h: seq<Fact>, j: int, devices: map<string, Device>, e: Evidence) {
    && e.deviceId in devices
    && e.generation <= devices[e.deviceId].generation
    && (e.generation == devices[e.deviceId].generation ==> RevokeFree(h, j, e.deviceId))
  }

  ghost predicate EvidenceOk(h: seq<Fact>, devices: map<string, Device>, id: string, w: Window) {
    && (w.evidence.Some? ==>
          exists j :: AckedAt(h, j, id, w, w.evidence.value) && WitnessOk(h, j, devices, w.evidence.value))
    && (w.status.Released? ==> w.evidence.Some? && w.releasedAt == Some(w.deadline))
  }

  ghost predicate WindowOk(h: seq<Fact>, kill: Kill, devices: map<string, Device>, id: string, w: Window) {
    EpochOk(kill, w) && ApprovalOk(h, kill.epoch, id, w) && EvidenceOk(h, devices, id, w)
  }

  ghost predicate WindowsInv(s: State) {
    forall id :: id in s.windows ==> WindowOk(s.history, s.kill, s.lane.devices, id, s.windows[id])
  }

  // ---- how one window's facts survive the rest of the world moving -------------------

  lemma TickKeepsWindow(h: seq<Fact>, kill: Kill, lane: Lane, id: string, w: Window, now: int)
    requires WindowOk(h, kill, lane.devices, id, w)
    ensures WindowOk(h, kill, lane.devices, id, Ticked(w, now, Stands(kill, lane, w)))
  {
    var t := Ticked(w, now, Stands(kill, lane, w));
    if t.evidence.Some? {
      var j :| AckedAt(h, j, id, w, w.evidence.value) && WitnessOk(h, j, lane.devices, w.evidence.value);
      assert AckedAt(h, j, id, t, t.evidence.value);
    }
    if t.approval.Some? {
      var j :| ApprovedAt(h, j, id, w.approval.value) && (w.approval.value.epoch == kill.epoch ==> KillFree(h, j));
      assert ApprovedAt(h, j, id, t.approval.value);
    }
  }

  lemma ClearingKeepsWindow(h: seq<Fact>, kill: Kill, lane: Lane, id: string, w: Window, deviceId: string, now: int)
    requires WindowOk(h, kill, lane.devices, id, w)
    ensures WindowOk(h, kill, lane.devices, id, EvidenceRevoked(w, deviceId, now, Stands(kill, lane, w)))
  {
    TickKeepsWindow(h, kill, lane, id, w, now);
  }

  /** A harmless fact leaves every justification where it was. */
  lemma FactKeepsWindow(h: seq<Fact>, f: Fact, kill: Kill, devices: map<string, Device>, id: string, w: Window)
    requires WindowOk(h, kill, devices, id, w)
    requires !f.Killed? && !f.Revoked?
    ensures WindowOk(h + [f], kill, devices, id, w)
  {
    var h' := h + [f];
    if w.evidence.Some? {
      var j :| AckedAt(h, j, id, w, w.evidence.value) && WitnessOk(h, j, devices, w.evidence.value);
      assert AckedAt(h', j, id, w, w.evidence.value) && WitnessOk(h', j, devices, w.evidence.value);
    }
    if w.approval.Some? {
      var j :| ApprovedAt(h, j, id, w.approval.value) && (w.approval.value.epoch == kill.epoch ==> KillFree(h, j));
      assert ApprovedAt(h', j, id, w.approval.value);
    }
  }

  /** A kill outdates every epoch recorded so far. */
  lemma KillKeepsWindow(
    h: seq<Fact>, f: Fact, kill: Kill, kill': Kill, devices: map<string, Device>, id: string, w: Window)
    requires WindowOk(h, kill, devices, id, w)
    requires f.Killed? && kill'.epoch == kill.epoch + 1
    ensures WindowOk(h + [f], kill', devices, id, w)
  {
    var h' := h + [f];
    if w.evidence.Some? {
      var j :| AckedAt(h, j, id, w, w.evidence.value) && WitnessOk(h, j, devices, w.evidence.value);
      assert AckedAt(h', j, id, w, w.evidence.value) && WitnessOk(h', j, devices, w.evidence.value);
    }
    if w.approval.Some? {
      var j :| ApprovedAt(h, j, id, w.approval.value);
      assert ApprovedAt(h', j, id, w.approval.value);
    }
  }

  lemma RestoreKeepsWindow(h: seq<Fact>, kill: Kill, kill': Kill, devices: map<string, Device>, id: string, w: Window)
    requires WindowOk(h, kill, devices, id, w)
    requires kill'.epoch == kill.epoch && kill'.agents <= kill.agents && (kill'.killed ==> kill.killed)
    ensures WindowOk(h, kill', devices, id, w)
  {
  }

  /** A revocation bumps the generation past every ack made under the old one. */
  lemma RevokeKeepsWindow(
    h: seq<Fact>, at: int, kill: Kill, devices: map<string, Device>, deviceId: string, id: string, w: Window)
    requires deviceId in devices && WindowOk(h, kill, devices, id, w)
    ensures WindowOk(h + [Revoked(at, deviceId)], kill, devices[deviceId := RevokedDevice(devices[deviceId], at)], id,
                     w)
  {
    var h', devices' := h + [Revoked(at, deviceId)], devices[deviceId := RevokedDevice(devices[deviceId], at)];
    if w.evidence.Some? {
      var e := w.evidence.value;
      var j :| AckedAt(h, j, id, w, e) && WitnessOk(h, j, devices, e);
      assert AckedAt(h', j, id, w, e) && WitnessOk(h', j, devices', e);
    }
    if w.approval.Some? {
      var j :| ApprovedAt(h, j, id, w.approval.value) && (w.approval.value.epoch == kill.epoch ==> KillFree(h, j));
      assert ApprovedAt(h', j, id, w.approval.value);
    }
  }

  /** New devices, and devices whose registry went away, change no generation. */
  ghost predicate SameGenerations(devices: map<string, Device>, devices': map<string, Device>) {
    forall d :: d in devices ==> d in devices' && devices'[d].generation == devices[d].generation
  }

  lemma DevicesKeepWindow(
    h: seq<Fact>, kill: Kill, devices: map<string, Device>, devices': map<string, Device>, id: string, w: Window)
    requires WindowOk(h, kill, devices, id, w) && SameGenerations(devices, devices')
    ensures WindowOk(h, kill, devices', id, w)
  {
    if w.evidence.Some? {
      var j :| AckedAt(h, j, id, w, w.evidence.value) && WitnessOk(h, j, devices, w.evidence.value);
      assert WitnessOk(h, j, devices', w.evidence.value);
    }
  }

  // ---- the same facts, for all windows of a state ---------------------------------------

  lemma SameWindowsInv(s: State, s': State)
    requires WindowsInv(s) && s'.windows == s.windows && s'.kill == s.kill
    requires s'.lane.devices == s.lane.devices && s'.history == s.history
    ensures WindowsInv(s')
  {
  }

  lemma OneWindowInv(s: State, s': State, id: string)
    requires WindowsInv(s) && s'.kill == s.kill && s'.lane.devices == s.lane.devices && s'.history == s.history
    requires id in s'.windows && s'.windows == s.windows[id := s'.windows[id]]
    requires WindowOk(s.history, s.kill, s.lane.devices, id, s'.windows[id])
    ensures WindowsInv(s')
  {
    forall x | x in s'.windows
      ensures WindowOk(s'.history, s'.kill, s'.lane.devices, x, s'.windows[x])
    {
      if x != id {
        assert x in s.windows && s'.windows[x] == s.windows[x];
      }
    }
  }

  lemma LogInv(s: State, f: Fact)
    requires WindowsInv(s) && !f.Killed? && !f.Revoked?
    ensures WindowsInv(Log(s, f))
  {
    forall x | x in s.windows
      ensures WindowOk(s.history + [f], s.kill, s.lane.devices, x, s.windows[x])
    {
      FactKeepsWindow(s.history, f, s.kill, s.lane.devices, x, s.windows[x]);
    }
  }

  lemma EngageInv(s: State, agentId: Option<string>, persistLost: bool)
    requires WindowsInv(s)
    ensures WindowsInv(Engage(s, agentId, persistLost))
  {
    var s' := Engage(s, agentId, persistLost);
    var f := s'.history[|s.history|];
    forall x | x in s.windows
      ensures WindowOk(s'.history, s'.kill, s'.lane.devices, x, s'.windows[x])
    {
      KillKeepsWindow(s.history, f, s.kill, s'.kill, s.lane.devices, x, s.windows[x]);
    }
  }

  lemma CleansedInv(s: State, deviceId: string)
    requires WindowsInv(s)
    ensures WindowsInv(Cleansed(s, deviceId))
  {
    forall x | x in s.windows
      ensures WindowOk(s.history, s.kill, s.lane.devices, x, Cleansed(s, deviceId).windows[x])
    {
      ClearingKeepsWindow(s.history, s.kill, s.lane, x, s.windows[x], deviceId, s.clock);
    }
  }

  lemma SeveredInv(s: State, deviceId: string)
    requires WindowsInv(s) && deviceId in s.lane.devices
    ensures WindowsInv(Severed(s, deviceId))
  {
    var devices := s.lane.devices[deviceId := RevokedDevice(s.lane.devices[deviceId], s.clock)];
    var marked := Log(s.(lane := s.lane.(devices := devices)), Revoked(s.clock, deviceId));
    forall x | x in s.windows
      ensures WindowOk(marked.history, marked.kill, devices, x, s.windows[x])
    {
      RevokeKeepsWindow(s.history, s.clock, s.kill, s.lane.devices, deviceId, x, s.windows[x]);
    }
    CleansedInv(marked, deviceId);
    assert Severed(s, deviceId) == Cleansed(marked, deviceId);
  }

  lemma {:induction false} SupersededInv(s: State, aliases: seq<string>)
    requires WindowsInv(s)
    ensures WindowsInv(Superseded(s, aliases))
    decreases |aliases|
  {
    if |aliases| > 0 {
      var n := |aliases| - 1;
      SupersededInv(s, aliases[..n]);
      if Supersedable(Superseded(s, aliases[..n]), aliases[n]) {
        SeveredInv(Superseded(s, aliases[..n]), aliases[n]);
      }
    }
  }

  lemma LaneInv(s: State, lane: Lane)
    requires WindowsInv(s) && SameGenerations(s.lane.devices, lane.devices)
    ensures WindowsInv(s.(lane := lane))
  {
    forall x | x in s.windows
      ensures WindowOk(s.history, s.kill, lane.devices, x, s.windows[x])
    {
      DevicesKeepWindow(s.history, s.kill, s.lane.devices, lane.devices, x, s.windows[x]);
    }
  }

  lemma ExportedInv(s: State, exported: bool, persistLost: bool)
    requires WindowsInv(s)
    ensures WindowsInv(Exported(s, exported, persistLost))
  {
    LaneInv(s, s.lane.(quarantined := !exported));
    if !exported {
      EngageInv(s.(lane := s.lane.(quarantined := true)), None, persistLost);
    }
  }

  // ---- every handler ------------------------------------------------------------------------

  lemma RegisterWindows(s: State, id: string, call: Call, purpose: Option<Purpose>)
    requires WindowsInv(s)
    ensures WindowsInv(DoRegister(s, id, call, purpose).0)
  {
    var s' := DoRegister(s, id, call, purpose).0;
    if s' != s {
      var f := Registered(s.clock, id, call, purpose);
      LogInv(s, f);
      OneWindowInv(Log(s, f), s', id);
    }
  }

  lemma ReadVetoWindows(s: State, id: string, jti: string)
    requires WindowsInv(s)
    ensures WindowsInv(DoReadVeto(s, id, jti).0)
  {
    if id in s.windows {
      TickKeepsWindow(s.history, s.kill, s.lane, id, s.windows[id], s.clock);
      var s1 := s.(windows := s.windows[id := TickedIn(s, s.windows[id])]);
      OneWindowInv(s, s1, id);
      LogInv(s1, GrantMinted(s.clock, id, jti));
      SameWindowsInv(Log(s1, GrantMinted(s.clock, id, jti)),
                     Log(s1.(grants := MintedFor(s.grants, id, jti)), GrantMinted(s.clock, id, jti)));
    }
  }

  lemma PollWindows(s: State)
    requires WindowsInv(s)
    ensures WindowsInv(DoPoll(s).0)
  {
    forall x | x in s.windows
      ensures WindowOk(s.history, s.kill, s.lane.devices, x, DoPoll(s).0.windows[x])
    {
      TickKeepsWindow(s.history, s.kill, s.lane, x, s.windows[x], s.clock);
    }
  }

  lemma DetailWindows(s: State, id: string, deviceId: string, deliveryId: string)
    requires WindowsInv(s)
    ensures WindowsInv(DoDetail(s, id, deviceId, deliveryId).0)
  {
    if id in s.windows {
      TickKeepsWindow(s.history, s.kill, s.lane, id, s.windows[id], s.clock);
      var s1 := s.(windows := s.windows[id := TickedIn(s, s.windows[id])]);
      OneWindowInv(s, s1, id);
      var s' := DoDetail(s, id, deviceId, deliveryId).0;
      if |s'.history| > |s.history| {
        LogInv(s1, s'.history[|s.history|]);
        SameWindowsInv(Log(s1, s'.history[|s.history|]), s');
      } else if s' != s {
        SameWindowsInv(s1, s');
      }
    }
  }

  /** An accepted ack is the freshest fact there is. */
  lemma AckWindows(s: State, id: string, deviceId: string, generation: int, deliveryId: string)
    requires WindowsInv(s) && id in s.windows && deviceId in s.lane.devices
    requires generation == s.lane.devices[deviceId].generation
    requires s.windows[id].evidence.None? && s.clock <= s.windows[id].deadline - MIN_VETO_RESPONSE_MS
    ensures var w := s.windows[id];
            WindowsInv(Log(s.(windows := s.windows[id := Delivered(w, Evidence(deviceId, generation, s.clock))]),
                           Acked(s.clock, deliveryId, id, w.call, w.revision, w.deadline, deviceId, generation)))
  {
    var w := s.windows[id];
    var e := Evidence(deviceId, generation, s.clock);
    var f := Acked(s.clock, deliveryId, id, w.call, w.revision, w.deadline, deviceId, generation);
    LogInv(s, f);
    var h := s.history + [f];
    var w' := Delivered(w, e);
    assert AckedAt(h, |s.history|, id, w', e) && WitnessOk(h, |s.history|, s.lane.devices, e);
    if w.approval.Some? {
      var j :| ApprovedAt(h, j, id, w.approval.value) && (w.approval.value.epoch == s.kill.epoch ==> KillFree(h, j));
      assert ApprovedAt(h, j, id, w'.approval.value);
    }
    assert WindowOk(h, s.kill, s.lane.devices, id, w');
    OneWindowInv(Log(s, f), Log(s.(windows := s.windows[id := w']), f), id);
  }

  lemma AcceptAckWindows(
    s: State, id: string, deviceId: string, deliveryId: string, revision: int, content: Call)
    requires WindowsInv(s) && id in s.windows && deviceId in s.lane.devices && s.windows[id].evidence.None?
    ensures WindowsInv(AcceptAck(s, id, deviceId, deliveryId, revision, content).0)
  {
    hide WindowsInv;
    var s' := AcceptAck(s, id, deviceId, deliveryId, revision, content).0;
    if |s'.history| > |s.history| {
      var w, generation := s.windows[id], s.lane.devices[deviceId].generation;
      AckWindows(s, id, deviceId, generation, deliveryId);
      SameWindowsInv(Log(s.(windows := s.windows[id := Delivered(w, Evidence(deviceId, generation, s.clock))]),
                         Acked(s.clock, deliveryId, id, w.call, w.revision, w.deadline, deviceId, generation)), s');
    } else {
      SameWindowsInv(s, s');
    }
  }

  /** At most the window's showing, the deliveries and one fact are touched. */
  ghost predicate SeenLeaves(s: State, s': State, id: string) {
    && s' == s.(windows := s'.windows, lane := s'.lane, history := s'.history)
    && (s'.windows == s.windows
        || (&& id in s.windows && id in s'.windows && s'.windows == s.windows[id := s'.windows[id]]
            && s'.windows[id] == s.windows[id].(status := s'.windows[id].status, evidence := s'.windows[id].evidence,
                                                revision := s'.windows[id].revision,
                                                deadline := s'.windows[id].deadline,
                                                releasedAt := s'.windows[id].releasedAt)
            && (s'.windows[id].status.Vetoed? <==> s.windows[id].status.Vetoed?)))
    && (s'.history == s.history
        || (|s'.history| == |s.history| + 1 && s'.history[..|s.history|] == s.history
            && s'.history[|s.history|].Acked?))
  }

  lemma AcceptAckLeaves(
    s: State, id: string, deviceId: string, deliveryId: string, revision: int, content: Call)
    requires id in s.windows && deviceId in s.lane.devices
    ensures SeenLeaves(s, AcceptAck(s, id, deviceId, deliveryId, revision, content).0, id)
  {
  }

  lemma SeenOutcome(s: State, id: string, deviceId: string, deliveryId: string, revision: int, content: Call)
    ensures SeenLeaves(s, DoSeen(s, id, deviceId, deliveryId, revision, content).0, id)
  {
    hide AcceptAck;
    if id in s.windows && Authenticates(s, deviceId) {
      var s1 := s.(windows := s.windows[id := TickedIn(s, s.windows[id])]);
      AcceptAckLeaves(s1, id, deviceId, deliveryId, revision, content);
    }
  }

  lemma SeenWindows(s: State, id: string, deviceId: string, deliveryId: string, revision: int, content: Call)
    requires WindowsInv(s)
    ensures WindowsInv(DoSeen(s, id, deviceId, deliveryId, revision, content).0)
  {
    hide AcceptAck;
    if id in s.windows && Authenticates(s, deviceId) {
      var w := TickedIn(s, s.windows[id]);
      TickKeepsWindow(s.history, s.kill, s.lane, id, s.windows[id], s.clock);
      var s1 := s.(windows := s.windows[id := w]);
      OneWindowInv(s, s1, id);
      if w.evidence.None? {
        AcceptAckWindows(s1, id, deviceId, deliveryId, revision, content);
      }
    }
  }

  lemma VetoKeepsWindows(s: State, id: string, who: string)
    requires WindowsInv(s)
    ensures WindowsInv(DoVeto(s, id, who).0)
  {
    var s' := DoVeto(s, id, who).0;
    if s' != s {
      var w, w' := s.windows[id], s'.windows[id];
      assert ApprovalOk(s.history, s.kill.epoch, id, w');
      if w.evidence.Some? {
        var j :| AckedAt(s.history, j, id, w, w.evidence.value)
              && WitnessOk(s.history, j, s.lane.devices, w.evidence.value);
        assert AckedAt(s.history, j, id, w', w'.evidence.value);
      }
      OneWindowInv(s, s', id);
    }
  }

  /** An approval is made in a world where nothing stops its agent. */
  lemma ApproveWindowWindows(s: State, id: string, owner: string, signed: Option<string>)
    requires WindowsInv(s) && id in s.windows
    requires !s.kill.killed && s.windows[id].call.agentId !in s.kill.agents
    ensures WindowsInv(ApproveWindow(s, id, owner, signed).0)
  {
    var s' := ApproveWindow(s, id, owner, signed).0;
    if s' != s {
      var f := Approved(s.clock, id, owner, signed);
      var w, w' := s.windows[id], s'.windows[id];
      LogInv(s, f);
      assert ApprovedAt(s'.history, |s.history|, id, w'.approval.value) && KillFree(s'.history, |s.history|);
      if w.evidence.Some? {
        var j :| AckedAt(s'.history, j, id, w, w.evidence.value)
              && WitnessOk(s'.history, j, s.lane.devices, w.evidence.value);
        assert AckedAt(s'.history, j, id, w', w'.evidence.value);
      }
      OneWindowInv(Log(s, f), s', id);
    }
  }

  lemma ApproveWindows(s: State, id: string, owner: string, signed: Option<string>)
    requires WindowsInv(s)
    ensures WindowsInv(DoApprove(s, id, owner, signed).0)
  {
    if id in s.windows && !s.kill.killed && s.windows[id].call.agentId !in s.kill.agents {
      var s1 := s.(approvals := s.approvals - {id});
      SameWindowsInv(s, s1);
      ApproveWindowWindows(s1, id, owner, signed);
      ApproveWindowWindows(s, id, owner, None);
    }
  }

  lemma ConfirmWindows(s: State, owner: string, id: string, signed: Option<string>, persistLost: bool)
    requires WindowsInv(s) && id in s.ceremonies.records
    ensures WindowsInv(ConfirmAndRestore(s, owner, id, signed, persistLost).0)
  {
    var s' := ConfirmAndRestore(s, owner, id, signed, persistLost).0;
    if |s'.history| > |s.history| {
      LogInv(s, s'.history[|s.history|]);
      forall x | x in s.windows
        ensures WindowOk(s'.history, s'.kill, s.lane.devices, x, s.windows[x])
      {
        RestoreKeepsWindow(s'.history, s.kill, s'.kill, s.lane.devices, x, s.windows[x]);
      }
    } else {
      SameWindowsInv(s, s');
    }
  }

  lemma RestoreWindows(s: State, owner: string, id: string, signed: Option<string>, persistLost: bool)
    requires WindowsInv(s)
    ensures WindowsInv(DoRestore(s, owner, id, signed, persistLost).0)
  {
    if RestoreAdmissible(s, owner, id) {
      var s1 := s.(ceremonies := s.ceremonies.(challenges := s.ceremonies.challenges - {id}));
      SameWindowsInv(s, s1);
      ConfirmWindows(s1, owner, id, signed, persistLost);
      ConfirmWindows(s, owner, id, None, persistLost);
    }
  }

  /** What a static revoke may leave: nothing new, a lifted quarantine, or a severing and its export. */
  lemma RevokeStaticOutcomes(s: State, id: string, exported: bool, persistLost: bool)
    ensures var s' := DoRevokeStatic(s, id, exported, persistLost).0;
            || s' == s
            || s' == s.(lane := s.lane.(quarantined := false))
            || (id in s.lane.devices && s' == Exported(Severed(s, id), exported, persistLost))
  {
  }

  lemma RevokeEnrolledOutcomes(s: State, id: string, published: bool, exported: bool, persistLost: bool)
    ensures var s' := DoRevokeEnrolled(s, id, published, exported, persistLost).0;
            || s' == s
            || s' == Exported(Cleansed(s, id), exported, persistLost)
            || s' == Engage(s.(lane := Unresolved(s.lane)), None, persistLost)
            || (id in s.lane.devices && s' == Exported(Severed(s, id), exported, persistLost))
  {
  }

  lemma RevokeEnrolledWindows(s: State, deviceId: string, published: bool, exported: bool, persistLost: bool)
    requires WindowsInv(s)
    ensures WindowsInv(DoRevokeEnrolled(s, deviceId, published, exported, persistLost).0)
  {
    RevokeEnrolledOutcomes(s, deviceId, published, exported, persistLost);
    if deviceId in s.lane.devices {
      CleansedInv(s, deviceId);
      ExportedInv(Cleansed(s, deviceId), exported, persistLost);
      LaneInv(s, Unresolved(s.lane));
      EngageInv(s.(lane := Unresolved(s.lane)), None, persistLost);
      SeveredInv(s, deviceId);
      ExportedInv(Severed(s, deviceId), exported, persistLost);
    }
  }

  lemma RevokeStaticWindows(s: State, deviceId: string, exported: bool, persistLost: bool)
    requires WindowsInv(s)
    ensures WindowsInv(DoRevokeStatic(s, deviceId, exported, persistLost).0)
  {
    RevokeStaticOutcomes(s, deviceId, exported, persistLost);
    if deviceId in s.lane.devices {
      LaneInv(s, s.lane.(quarantined := false));
      SeveredInv(s, deviceId);
      ExportedInv(Severed(s, deviceId), exported, persistLost);
    }
  }

  lemma AdmitWindows(s: State, deviceId: string, aliases: seq<string>, exported: bool, persistLost: bool)
    requires WindowsInv(s) && deviceId !in s.lane.devices
    ensures WindowsInv(DoAdmit(s, deviceId, aliases, exported, persistLost).0)
  {
    var s1 := s.(lane := s.lane.(devices := s.lane.devices[deviceId := Device(1, None, true, true)]));
    LaneInv(s, s1.lane);
    SupersededInv(s1, aliases);
    ExportedInv(Superseded(s1, aliases), false, persistLost);
  }

  /** A state reached without touching windows, kill state or devices. */
  ghost predicate WindowsUntouched(s: State, s': State) {
    && s'.windows == s.windows && s'.kill == s.kill && s'.lane.devices == s.lane.devices
    && (s'.history == s.history
        || (|s'.history| == |s.history| + 1 && s'.history[..|s.history|] == s.history
            && !s'.history[|s.history|].Killed? && !s'.history[|s.history|].Revoked?))
  }

  lemma UntouchedWindows(s: State, s': State)
    requires WindowsInv(s) && WindowsUntouched(s, s')
    ensures WindowsInv(s')
  {
    if s'.history != s.history {
      LogInv(s, s'.history[|s.history|]);
      assert s'.history == s.history + [s'.history[|s.history|]];
    }
  }

  lemma ApprovalsLeaveWindows(s: State, e: Event)
    requires OfApprovals(e) && !e.Approve?
    ensures WindowsUntouched(s, Handle(s, e).0)
  {
    hide HandleWindows, HandleSwitch, HandleDevices;
  }

  /** At most the ceremonies and the start's own fact: records are ticked, or one is added. */
  ghost predicate StartLeaves(s: State, s': State, id: string, owner: string, agentId: Option<string>) {
    var rs, rs' := s.ceremonies.records, s'.ceremonies.records;
    && s' == s.(ceremonies := s'.ceremonies, history := s'.history)
    && (s'.history == s.history || s'.history == s.history + [CeremonyStarted(s.clock, id, owner, agentId)])
    && (|| rs' == rs
        || (exists held: set<string> :: rs' == TickRecords(rs, held, s.clock))
        || rs' == rs[id := CeremonyRecord(TwoGo.Started(owner, s.clock), s.kill.epoch, agentId)])
  }

  lemma StartOrReuseLeaves(s: State, id: string, owner: string, agentId: Option<string>, licensed: bool)
    ensures StartLeaves(s, StartOrReuse(s, id, owner, agentId, licensed).0, id, owner, agentId)
  {
    var held := set x | x in s.ceremonies.live && HoldsFor(s, x, owner, agentId);
    var rs' := StartOrReuse(s, id, owner, agentId, licensed).0.ceremonies.records;
    assert held != {} ==> rs' == TickRecords(s.ceremonies.records, held, s.clock);
  }

  lemma CeremonyStartOutcome(s: State, id: string, owner: string, agentId: Option<string>, licensed: bool)
    ensures StartLeaves(s, DoCeremonyStart(s, id, owner, agentId, licensed).0, id, owner, agentId)
  {
    hide StartOrReuse;
    StartOrReuseLeaves(s.(ceremonies := s.ceremonies.(live := Purged(s))), id, owner, agentId, licensed);
  }

  lemma CeremonyStartLeavesWindows(s: State, id: string, owner: string, agentId: Option<string>, licensed: bool)
    ensures WindowsUntouched(s, DoCeremonyStart(s, id, owner, agentId, licensed).0)
  {
    hide DoCeremonyStart;
    CeremonyStartOutcome(s, id, owner, agentId, licensed);
  }

  lemma RestoreChallengeLeavesWindows(s: State, e: Event)
    requires e.RestoreChallengeStart? || e.RestoreChallengeFinish?
    ensures WindowsUntouched(s, HandleSwitch(s, e).0)
  {
  }

  lemma ApproveStepWindows(s: State, e: Event)
    requires WindowsInv(s) && e.Approve?
    ensures WindowsInv(HandleApprovals(s, e).0)
  {
    ApproveWindows(s, e.id, e.owner, e.signed);
  }

  lemma WindowEventWindows(s: State, e: Event)
    requires WindowsInv(s) && Enabled(s, e, s.clock) && OfWindows(e)
    ensures WindowsInv(HandleWindows(s, e).0)
  {
    hide WindowsInv, DoRegister, DoReadVeto, DoPoll, DoDetail, DoSeen, DoVeto;
    match e
    case Register(id, call, purpose) => RegisterWindows(s, id, call, purpose);
    case ReadVeto(id, jti) => ReadVetoWindows(s, id, jti);
    case Poll => PollWindows(s);
    case Detail(id, deviceId, deliveryId) => DetailWindows(s, id, deviceId, deliveryId);
    case SeenBy(id, deviceId, deliveryId, revision, content) =>
      SeenWindows(s, id, deviceId, deliveryId, revision, content);
    case Veto(id, who) => VetoKeepsWindows(s, id, who);
  }

  lemma SwitchEventWindows(s: State, e: Event)
    requires WindowsInv(s) && OfSwitch(e)
    ensures WindowsInv(HandleSwitch(s, e).0)
  {
    hide WindowsInv, WindowsUntouched, DoCeremonyStart, DoRestoreChallengeStart, DoRestoreChallengeFinish, DoRestore;
    if e.EngageKill? {
      EngageInv(s, e.agentId, e.persistLost);
    } else if e.Restore? {
      RestoreWindows(s, e.owner, e.id, e.signed, e.persistLost);
    } else {
      if e.CeremonyStart? {
        CeremonyStartLeavesWindows(s, e.id, e.owner, e.agentId, e.licensed);
      } else {
        RestoreChallengeLeavesWindows(s, e);
      }
      UntouchedWindows(s, HandleSwitch(s, e).0);
    }
  }

  lemma DeviceEventWindows(s: State, e: Event)
    requires WindowsInv(s) && Enabled(s, e, s.clock) && OfDevices(e)
    ensures WindowsInv(HandleDevices(s, e).0)
  {
    hide WindowsInv, DoRevokeStatic, DoRevokeEnrolled, DoAdmit;
    match e
    case RevokeStatic(deviceId, exported, persistLost) => RevokeStaticWindows(s, deviceId, exported, persistLost);
    case RevokeEnrolled(deviceId, published, exported, persistLost) =>
      RevokeEnrolledWindows(s, deviceId, published, exported, persistLost);
    case Admit(deviceId, aliases, exported, persistLost) => AdmitWindows(s, deviceId, aliases, exported, persistLost);
    case RegistryLost => LaneInv(s, Unresolved(s.lane));
  }

  lemma StepWindows(s0: State, e: Event, now: int)
    requires WindowsInv(s0) && Enabled(s0, e, now)
    ensures WindowsInv(Step(s0, e, now).0)
  {
    hide HandleWindows, HandleApprovals, HandleSwitch, HandleDevices;
    var s := s0.(clock := now);
    if OfWindows(e) {
      WindowEventWindows(s, e);
    } else if e.Approve? {
      ApproveStepWindows(s, e);
    } else if OfApprovals(e) {
      ApprovalsLeaveWindows(s, e);
      UntouchedWindows(s, Handle(s, e).0);
    } else if OfSwitch(e) {
      SwitchEventWindows(s, e);
    } else {
      DeviceEventWindows(s, e);
    }
  }

  lemma {:induction false} RunWindows(ss: seq<State>, es: seq<Timed>, i: nat)
    requires Run(ss, es) && i < |ss|
    ensures WindowsInv(ss[i])
  {
    if i > 0 {
      RunWindows(ss, es, i - 1);
      StepWindows(ss[i - 1], es[i - 1].event, es[i - 1].now);
    }
  }
}
