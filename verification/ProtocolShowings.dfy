/**
 * An acknowledgement counts only from the device the detail was shown to:
 * every accepted ack redeems one showing, of the same window, call, revision,
 * device and generation, under two minutes old, that no other ack redeems.
 */
module ProtocolShowings {
  import opened Wrappers
  import opened VetoWindows
  import opened Protocol
  import opened ProtocolWindows

  /** The ack at j redeems the showing at k. */
  ghost predicate Redeems(h: seq<Fact>, k: int, j: int) {
    && 0 <= k < j < |h| && h[k].Shown? && h[j].Acked? && h[k].deliveryId == h[j].deliveryId
    && h[k].windowId == h[j].windowId && h[k].call == h[j].call && h[k].revision == h[j].revision
    && h[k].deviceId == h[j].deviceId && h[k].generation == h[j].generation
    && h[k].at <= h[j].at < h[k].at + DELIVERY_TTL_MS
  }

  ghost predicate ShownAt(h: seq<Fact>, k: int, id: string, d: Delivery) {
    && 0 <= k < |h|
    && h[k] == Shown(d.expiresAt - DELIVERY_TTL_MS, id, d.windowId, d.content, d.revision, d.deviceId,
                     d.deviceGeneration)
  }

  ghost predicate Unredeemed(h: seq<Fact>, id: string) {
    forall j :: 0 <= j < |h| && h[j].Acked? ==> h[j].deliveryId != id
  }

  ghost predicate DeliveryOk(h: seq<Fact>, clock: int, id: string, d: Delivery) {
    d.expiresAt - DELIVERY_TTL_MS <= clock && (exists k :: ShownAt(h, k, id, d)) && (!d.consumed ==> Unredeemed(h, id))
  }

  ghost predicate DeliveriesOk(s: State) {
    forall id :: id in s.lane.deliveries ==> DeliveryOk(s.history, s.clock, id, s.lane.deliveries[id])
  }

  ghost predicate AcksRedeem(h: seq<Fact>) {
    forall j :: 0 <= j < |h| && h[j].Acked? ==> exists k :: Redeems(h, k, j)
  }

  /** No two acks redeem one showing, and no two showings carry one id. */
  ghost predicate IdsDiffer(h: seq<Fact>) {
    && (forall i, j :: 0 <= i < j < |h| && h[i].Acked? && h[j].Acked? ==> h[i].deliveryId != h[j].deliveryId)
    && (forall i, j :: 0 <= i < j < |h| && h[i].Shown? && h[j].Shown? ==> h[i].deliveryId != h[j].deliveryId)
  }

  ghost predicate ShowingsInv(s: State) {
    DeliveriesOk(s) && AcksRedeem(s.history) && IdsDiffer(s.history)
  }

  // ---- everything but showing and acking ------------------------------------------------------

  /** Deliveries at most go away, and nothing is shown or acked. */
  ghost predicate Quiet(s: State, s': State) {
    && s.clock <= s'.clock
    && |s.history| <= |s'.history| && s'.history[..|s.history|] == s.history
    && (forall i :: |s.history| <= i < |s'.history| ==> !s'.history[i].Shown? && !s'.history[i].Acked?)
    && (forall id :: id in s'.lane.deliveries ==>
          id in s.lane.deliveries && s'.lane.deliveries[id] == s.lane.deliveries[id])
  }

  lemma DeliveryStays(h: seq<Fact>, h': seq<Fact>, clock: int, clock': int, id: string, d: Delivery)
    requires DeliveryOk(h, clock, id, d) && clock <= clock'
    requires |h| <= |h'| && h'[..|h|] == h
    requires forall i :: |h| <= i < |h'| && h'[i].Acked? ==> h'[i].deliveryId != id
    ensures DeliveryOk(h', clock', id, d)
  {
    assert forall i :: 0 <= i < |h| ==> h'[i] == h[i];
    var k :| ShownAt(h, k, id, d);
    assert ShownAt(h', k, id, d);
  }

  lemma RedemptionStays(h: seq<Fact>, h': seq<Fact>, j: int)
    requires 0 <= j < |h| <= |h'| && h'[..|h|] == h && exists k :: Redeems(h, k, j)
    ensures exists k :: Redeems(h', k, j)
  {
    assert forall i :: 0 <= i < |h| ==> h'[i] == h[i];
    var k :| Redeems(h, k, j);
    assert Redeems(h', k, j);
  }

  lemma QuietKeeps(s: State, s': State)
    requires ShowingsInv(s) && Quiet(s, s')
    ensures ShowingsInv(s')
  {
    var h, h' := s.history, s'.history;
    assert forall i :: 0 <= i < |h| ==> h'[i] == h[i];
    forall id | id in s'.lane.deliveries
      ensures DeliveryOk(h', s'.clock, id, s'.lane.deliveries[id])
    {
      DeliveryStays(h, h', s.clock, s'.clock, id, s.lane.deliveries[id]);
    }
    forall j | 0 <= j < |h'| && h'[j].Acked?
      ensures exists k :: Redeems(h', k, j)
    {
      RedemptionStays(h, h', j);
    }
  }

  lemma QuietComposes(s: State, t: State, u: State)
    requires Quiet(s, t) && Quiet(t, u)
    ensures Quiet(s, u)
  {
    assert forall k :: 0 <= k < |s.history| ==> u.history[k] == t.history[k] == s.history[k];
    assert u.history[..|s.history|] == s.history;
  }

  lemma SeveredQuiet(s: State, id: string)
    requires id in s.lane.devices
    ensures Quiet(s, Severed(s, id))
  {
  }

  lemma ExportedQuiet(s: State, exported: bool, persistLost: bool)
    ensures Quiet(s, Exported(s, exported, persistLost))
  {
  }

  lemma {:induction false} SupersededQuiet(s: State, aliases: seq<string>)
    ensures Quiet(s, Superseded(s, aliases))
    decreases |aliases|
  {
    if |aliases| > 0 {
      var n := |aliases| - 1;
      var before := Superseded(s, aliases[..n]);
      SupersededQuiet(s, aliases[..n]);
      if Supersedable(before, aliases[n]) {
        SeveredQuiet(before, aliases[n]);
        QuietComposes(s, before, Severed(before, aliases[n]));
      }
    }
  }

  lemma SeveredExportedQuiet(s: State, id: string, exported: bool, persistLost: bool)
    requires id in s.lane.devices
    ensures Quiet(s, Exported(Severed(s, id), exported, persistLost))
  {
    SeveredQuiet(s, id);
    ExportedQuiet(Severed(s, id), exported, persistLost);
    QuietComposes(s, Severed(s, id), Exported(Severed(s, id), exported, persistLost));
  }

  lemma CleansedExportedQuiet(s: State, id: string, exported: bool, persistLost: bool)
    ensures Quiet(s, Exported(Cleansed(s, id), exported, persistLost))
  {
    assert Quiet(s, Cleansed(s, id));
    ExportedQuiet(Cleansed(s, id), exported, persistLost);
    QuietComposes(s, Cleansed(s, id), Exported(Cleansed(s, id), exported, persistLost));
  }

  lemma RevokeStaticQuiet(s: State, id: string, exported: bool, persistLost: bool)
    ensures Quiet(s, DoRevokeStatic(s, id, exported, persistLost).0)
  {
    RevokeStaticOutcomes(s, id, exported, persistLost);
    if id in s.lane.devices {
      SeveredExportedQuiet(s, id, exported, persistLost);
    }
  }

  lemma RevokeEnrolledQuiet(s: State, id: string, published: bool, exported: bool, persistLost: bool)
    ensures Quiet(s, DoRevokeEnrolled(s, id, published, exported, persistLost).0)
  {
    RevokeEnrolledOutcomes(s, id, published, exported, persistLost);
    CleansedExportedQuiet(s, id, exported, persistLost);
    if id in s.lane.devices {
      SeveredExportedQuiet(s, id, exported, persistLost);
    }
  }

  lemma AdmitQuiet(s: State, deviceId: string, aliases: seq<string>, exported: bool, persistLost: bool)
    ensures Quiet(s, DoAdmit(s, deviceId, aliases, exported, persistLost).0)
  {
    hide Superseded, Exported;
    var s1 := s.(lane := s.lane.(devices := s.lane.devices[deviceId := Device(1, None, true, true)]));
    SupersededQuiet(s1, aliases);
    var s2 := Superseded(s1, aliases);
    ExportedQuiet(s2, false, persistLost);
    QuietComposes(s1, s2, Exported(s2, false, persistLost));
  }

  lemma WindowEventsQuiet(s: State, e: Event)
    requires e.Register? || e.ReadVeto? || e.Poll? || e.Veto?
    ensures Quiet(s, HandleWindows(s, e).0)
  {
  }

  lemma ApproveQuiet(s: State, id: string, owner: string, signed: Option<string>)
    ensures Quiet(s, DoApprove(s, id, owner, signed).0)
  {
    hide ApprovalSigned;
  }

  lemma ApprovalEventsQuiet(s: State, e: Event)
    requires OfApprovals(e)
    ensures Quiet(s, HandleApprovals(s, e).0)
  {
    hide DoApprove, CommitAllowed;
    if e.Approve? {
      ApproveQuiet(s, e.id, e.owner, e.signed);
    }
  }

  lemma ConfirmQuiet(s: State, owner: string, id: string, signed: Option<string>, persistLost: bool)
    requires id in s.ceremonies.records
    ensures Quiet(s, ConfirmAndRestore(s, owner, id, signed, persistLost).0)
  {
  }

  lemma RestoreQuiet(s: State, owner: string, id: string, signed: Option<string>, persistLost: bool)
    ensures Quiet(s, DoRestore(s, owner, id, signed, persistLost).0)
  {
    hide ConfirmAndRestore;
    if RestoreAdmissible(s, owner, id) {
      ConfirmQuiet(s.(ceremonies := s.ceremonies.(challenges := s.ceremonies.challenges - {id})), owner, id, signed,
                   persistLost);
      ConfirmQuiet(s, owner, id, None, persistLost);
    }
  }

  lemma RestoreFinishQuiet(s: State, request: string, challenge: string)
    ensures Quiet(s, DoRestoreChallengeFinish(s, request, challenge).0)
  {
  }

  lemma SwitchEventsQuiet(s: State, e: Event)
    requires OfSwitch(e)
    ensures Quiet(s, HandleSwitch(s, e).0)
  {
    hide DoCeremonyStart, DoRestoreChallengeFinish, DoRestore;
    if e.CeremonyStart? {
      CeremonyStartOutcome(s, e.id, e.owner, e.agentId, e.licensed);
    } else if e.RestoreChallengeFinish? {
      RestoreFinishQuiet(s, e.request, e.challenge);
    } else if e.Restore? {
      RestoreQuiet(s, e.owner, e.id, e.signed, e.persistLost);
    }
  }

  lemma DeviceEventsQuiet(s: State, e: Event)
    requires OfDevices(e)
    ensures Quiet(s, HandleDevices(s, e).0)
  {
    hide DoRevokeStatic, DoRevokeEnrolled, DoAdmit;
    match e
    case RevokeStatic(deviceId, exported, persistLost) => RevokeStaticQuiet(s, deviceId, exported, persistLost);
    case RevokeEnrolled(deviceId, published, exported, persistLost) =>
      RevokeEnrolledQuiet(s, deviceId, published, exported, persistLost);
    case Admit(deviceId, aliases, exported, persistLost) => AdmitQuiet(s, deviceId, aliases, exported, persistLost);
    case RegistryLost =>
  }

  lemma OthersQuiet(s: State, e: Event)
    requires !e.Detail? && !e.SeenBy?
    ensures Quiet(s, Handle(s, e).0)
  {
    hide HandleWindows, HandleApprovals, HandleSwitch, HandleDevices, Quiet;
    if OfWindows(e) {
      WindowEventsQuiet(s, e);
    } else if OfApprovals(e) {
      ApprovalEventsQuiet(s, e);
    } else if OfSwitch(e) {
      SwitchEventsQuiet(s, e);
    } else {
      DeviceEventsQuiet(s, e);
    }
  }

  // ---- showing and acking -----------------------------------------------------------------------

  /** A fresh delivery, minted under an id never used before. */
  lemma ShowingKeeps(s: State, id: string, d: Delivery)
    requires ShowingsInv(s) && !d.consumed && d.expiresAt == s.clock + DELIVERY_TTL_MS
    requires forall k :: 0 <= k < |s.history| && s.history[k].Shown? ==> s.history[k].deliveryId != id
    ensures var f := Shown(s.clock, id, d.windowId, d.content, d.revision, d.deviceId, d.deviceGeneration);
            ShowingsInv(Log(s.(lane := s.lane.(deliveries := s.lane.deliveries[id := d])), f))
  {
    var f := Shown(s.clock, id, d.windowId, d.content, d.revision, d.deviceId, d.deviceGeneration);
    var h, h' := s.history, s.history + [f];
    var deliveries := s.lane.deliveries[id := d];
    forall x | x in deliveries
      ensures DeliveryOk(h', s.clock, x, deliveries[x])
    {
      if x == id {
        assert ShownAt(h', |h|, id, d);
        NeverShownNeverAcked(h, id);
      } else {
        DeliveryStays(h, h', s.clock, s.clock, x, s.lane.deliveries[x]);
      }
    }
    forall j | 0 <= j < |h'| && h'[j].Acked?
      ensures exists k :: Redeems(h', k, j)
    {
      RedemptionStays(h, h', j);
    }
  }

  lemma NeverShownNeverAcked(h: seq<Fact>, id: string)
    requires AcksRedeem(h)
    requires forall k :: 0 <= k < |h| && h[k].Shown? ==> h[k].deliveryId != id
    ensures Unredeemed(h, id)
  {
    forall j | 0 <= j < |h| && h[j].Acked?
      ensures h[j].deliveryId != id
    {
      var k :| Redeems(h, k, j);
    }
  }

  lemma DetailKeeps(s: State, e: Event)
    requires ShowingsInv(s) && e.Detail? && Enabled(s, e, s.clock)
    ensures ShowingsInv(HandleWindows(s, e).0)
  {
    hide ShowingsInv;
    var s' := HandleWindows(s, e).0;
    if |s'.history| > |s.history| {
      var w := TickedIn(s, s.windows[e.id]);
      var d := Delivery(e.id, w.revision, w.call, e.deviceId, s.lane.devices[e.deviceId].generation,
                        s.clock + DELIVERY_TTL_MS, false);
      ShowingKeeps(s, e.deliveryId, d);
      SameShowings(Log(s.(lane := s'.lane), s'.history[|s.history|]), s');
    } else {
      SameShowings(s, s');
    }
  }

  lemma SameShowings(s: State, s': State)
    requires ShowingsInv(s) && s'.lane.deliveries == s.lane.deliveries
    requires s'.history == s.history && s.clock <= s'.clock
    ensures ShowingsInv(s')
  {
    QuietKeeps(s, s');
  }

  /** The delivery an accepted ack spends was shown to that device, as it stands. */
  lemma AckRedeems(s: State, id: string, d: Delivery, f: Fact)
    requires ShowingsInv(s) && id in s.lane.deliveries && s.lane.deliveries[id] == d && !d.consumed
    requires s.clock < d.expiresAt
    requires f.Acked? && f.at == s.clock && f.deliveryId == id && f.windowId == d.windowId && f.call == d.content
    requires f.revision == d.revision && f.deviceId == d.deviceId && f.generation == d.deviceGeneration
    ensures ShowingsInv(Log(s.(lane := s.lane.(deliveries := s.lane.deliveries[id := d.(consumed := true)])), f))
  {
    var h, h' := s.history, s.history + [f];
    var deliveries := s.lane.deliveries[id := d.(consumed := true)];
    assert DeliveryOk(h, s.clock, id, d);
    var k :| ShownAt(h, k, id, d);
    assert Redeems(h', k, |h|);
    forall x | x in deliveries
      ensures DeliveryOk(h', s.clock, x, deliveries[x])
    {
      if x == id {
        assert ShownAt(h', k, id, d.(consumed := true));
      } else {
        DeliveryStays(h, h', s.clock, s.clock, x, s.lane.deliveries[x]);
      }
    }
    forall j | 0 <= j < |h'| && h'[j].Acked?
      ensures exists k :: Redeems(h', k, j)
    {
      if j < |h| {
        RedemptionStays(h, h', j);
      }
    }
  }

  lemma AcceptAckKeeps(s: State, id: string, deviceId: string, deliveryId: string, revision: int, content: Call)
    requires ShowingsInv(s) && id in s.windows && deviceId in s.lane.devices
    ensures ShowingsInv(AcceptAck(s, id, deviceId, deliveryId, revision, content).0)
  {
    hide ShowingsInv;
    var s' := AcceptAck(s, id, deviceId, deliveryId, revision, content).0;
    if |s'.history| > |s.history| {
      AckRedeems(s, deliveryId, s.lane.deliveries[deliveryId], s'.history[|s.history|]);
      SameShowings(Log(s.(lane := s'.lane), s'.history[|s.history|]), s');
    } else {
      QuietKeeps(s, s');
    }
  }

  lemma SeenKeeps(s: State, e: Event)
    requires ShowingsInv(s) && e.SeenBy?
    ensures ShowingsInv(HandleWindows(s, e).0)
  {
    hide ShowingsInv, AcceptAck;
    var s' := HandleWindows(s, e).0;
    if e.id in s.windows && Authenticates(s, e.deviceId) {
      var s1 := s.(windows := s.windows[e.id := TickedIn(s, s.windows[e.id])]);
      SameShowings(s, s1);
      AcceptAckKeeps(s1, e.id, e.deviceId, e.deliveryId, e.revision, e.content);
    }
  }

  lemma StepKeepsShowings(s0: State, e: Event, now: int)
    requires ShowingsInv(s0) && Enabled(s0, e, now)
    ensures ShowingsInv(Step(s0, e, now).0)
  {
    hide ShowingsInv, HandleWindows, HandleApprovals, HandleSwitch, HandleDevices;
    var s := s0.(clock := now);
    SameShowings(s0, s);
    if e.Detail? {
      DetailKeeps(s, e);
    } else if e.SeenBy? {
      SeenKeeps(s, e);
    } else {
      OthersQuiet(s, e);
      QuietKeeps(s, Handle(s, e).0);
    }
  }

  lemma {:induction false} RunKeepsShowings(ss: seq<State>, es: seq<Timed>, i: nat)
    requires Run(ss, es) && i < |ss|
    ensures ShowingsInv(ss[i])
  {
    hide Step, Enabled;
    if i == 0 {
      NothingShown(ss[0]);
    } else {
      RunKeepsShowings(ss, es, i - 1);
      StepKeepsShowings(ss[i - 1], es[i - 1].event, es[i - 1].now);
    }
  }

  lemma NothingShown(s: State)
    requires s.history == [] && s.lane.deliveries == map[]
    ensures ShowingsInv(s)
  {
  }

  /**
   * In any run: behind every accepted ack lies a showing of that window, call
   * and revision to that very device and generation, under two minutes older;
   * and no showing lies behind two acks.
   */
  lemma AcksWereShown(ss: seq<State>, es: seq<Timed>, i: nat, j: nat)
    requires Run(ss, es) && i < |ss| && j < |ss[i].history| && ss[i].history[j].Acked?
    ensures exists k :: Redeems(ss[i].history, k, j)
    ensures forall k, j' :: Redeems(ss[i].history, k, j) && Redeems(ss[i].history, k, j') ==> j' == j
  {
    RunKeepsShowings(ss, es, i);
  }
}
