/**
 * The control-plane server as it runs: maps and sets shared by the handlers,
 * a kill switch over its own store, and one method per handler. Every method
 * is proved to take exactly the step the protocol machine takes; `Route` sends
 * a request to its handler. Plane composes this object with the device
 * registry and the standing file and records its life as a run of the machine.
 */
module ControlPlane {
  import opened Wrappers
  import opened VetoWindows
  import opened KillStateFile
  import K = KillSwitch
  import TwoGo
  import P = Protocol
  import ProtocolCeremonies

  /** The same request; only how the disk answered may differ. */
  predicate SameRequest(e: P.Event, done: P.Event) {
    if e.EngageKill? then done.EngageKill? && done.agentId == e.agentId
    else if e.Restore? then done.Restore? && done.owner == e.owner && done.id == e.id && done.signed == e.signed
    else done == e
  }

  class Server {
    const cfg: P.Config
    const sw: K.KillSwitch
    var vetoWindows: map<string, Window>
    var devices: map<string, P.Device>
    var ownerDeliveries: map<string, P.Delivery>
    var standingQuarantined: bool
    var grantedWindows: set<string>
    var mintedGrants: map<string, string>
    var windowToGrant: map<string, string>
    var committedGrants: set<string>
    var approvalChallenges: map<string, P.ApprovalChallenge>
    var ceremonies: set<string>
    var restoreChallenges: map<string, P.RestoreChallenge>
    /** Every ceremony ever started: a suspended request may hold a purged one. */
    var records: map<string, P.CeremonyRecord>
    /** Requests suspended at their await, by request. */
    var suspended: map<string, P.InFlight>
    ghost var history: seq<P.Fact>

    ghost predicate Valid()
      reads this, sw, sw.store.volume
    {
      sw.Valid() && OnePerScope()
    }

    /** The ceremonies map never holds two records for one owner and scope. */
    predicate OnePerScope()
      reads this`records, this`ceremonies, this`restoreChallenges
    {
      ProtocolCeremonies.OnePerScope(P.Ceremonies(records, ceremonies, restoreChallenges))
    }

    function KillNow(): P.Kill
      reads sw
    {
      P.Kill(sw.killedState, sw.epochCounter, sw.agentKillMap.Keys, sw.consumedCeremonies, sw.quarantineFailedState)
    }

    function Lane(): P.Lane
      reads this
    {
      P.Lane(devices, ownerDeliveries, standingQuarantined)
    }

    /** The machine state this object is in, under the present clock. */
    ghost function At(now: int): P.State
      reads this, sw
    {
      P.State(cfg, now, KillNow(), vetoWindows, Lane(),
              P.Grants(grantedWindows, mintedGrants, windowToGrant, committedGrants),
              approvalChallenges,
              P.Ceremonies(records, ceremonies, restoreChallenges),
              suspended, history)
    }

    constructor (cfg: P.Config, sw: K.KillSwitch, devices: map<string, P.Device>, now: int)
      requires sw.Valid() && sw.consumedCeremonies == {}
      ensures Valid() && this.sw == sw && this.cfg == cfg
      ensures P.Init(At(now)) && At(now).lane.devices == devices && At(now).kill == KillNow()
    {
      this.cfg, this.sw, this.devices := cfg, sw, devices;
      vetoWindows, ownerDeliveries, standingQuarantined := map[], map[], false;
      grantedWindows, mintedGrants, windowToGrant, committedGrants := {}, map[], map[], {};
      approvalChallenges, ceremonies, restoreChallenges, records, suspended := map[], {}, map[], map[], map[];
      history := [];
    }

    // ---- veto windows ------------------------------------------------------------------

    /** witnessStanding: asked by a window about the evidence it carries. */
    method WitnessStanding(w: Window) returns (stands: bool)
      ensures stands == P.Stands(KillNow(), Lane(), w)
    {
      if sw.killedState || standingQuarantined || w.evidence == None || w.evidence.value.deviceId !in devices {
        return false;
      }
      var d := devices[w.evidence.value.deviceId];
      return d.resolvable && d.revokedAt == None && d.generation == w.evidence.value.generation;
    }

    /** window.tick(), with the standing check the server gave it. */
    method TickWindow(id: string, now: int) returns (w: Window)
      requires id in vetoWindows
      modifies this`vetoWindows
      ensures w == P.TickedIn(old(At(now)), old(vetoWindows)[id])
      ensures vetoWindows == old(vetoWindows)[id := w]
    {
      var stands := WitnessStanding(vetoWindows[id]);
      w := Ticked(vetoWindows[id], now, stands);
      vetoWindows := vetoWindows[id := w];
    }

    method PostRegisterVeto(id: string, call: Call, purpose: Option<Purpose>, now: int) returns (a: P.Answer)
      modifies this`vetoWindows, this`history
      ensures (At(now), a) == P.DoRegister(old(At(now)), id, call, purpose)
    {
      if !IsValidAgentId(call.agentId) {
        return P.Refused(400);
      }
      if call.agentId in sw.agentKillMap {
        return P.Refused(409);
      }
      if purpose.Some? && purpose.value.MergePullRequest? && !purpose.value.argsParse {
        return P.Refused(400);
      }
      var w := Opened(call, purpose, sw.epochCounter, DEFAULT_WINDOW_MS, DEFAULT_EXTENSION_MS, now);
      vetoWindows := vetoWindows[id := w];
      history := history + [P.Registered(now, id, call, purpose)];
      a := P.Showing(Pending);
    }

    method GetVeto(id: string, jti: string, now: int) returns (a: P.Answer)
      modifies this`vetoWindows, this`grantedWindows, this`mintedGrants, this`windowToGrant, this`history
      ensures (At(now), a) == P.DoReadVeto(old(At(now)), id, jti)
    {
      if id !in vetoWindows {
        return P.Refused(404);
      }
      var w := TickWindow(id, now);
      if cfg.grants && P.GrantEligible(w) {
        a := ReadEligible(id, w, jti, now);
      } else if w.status == Released && w.killEpoch != sw.epochCounter {
        a := P.Spent;
      } else {
        a := P.Showing(w.status);
      }
    }

    method ReadEligible(id: string, w: Window, jti: string, now: int) returns (a: P.Answer)
      modifies this`grantedWindows, this`mintedGrants, this`windowToGrant, this`history
      ensures (At(now), a) == P.ReadEligible(old(At(now)), id, w, jti)
    {
      if w.status == Vetoed {
        return P.Showing(Vetoed);
      }
      if w.approval == None {
        return P.Showing(Pending);
      }
      if id in grantedWindows {
        return P.Spent;
      }
      if sw.killedState || w.approval.value.epoch != sw.epochCounter {
        return P.Spent;
      }
      if now >= w.approval.value.at + cfg.grantTtlMs {
        return P.Spent;
      }
      MintGrant(id, jti, now);
      a := P.Grant(jti);
    }

    method MintGrant(id: string, jti: string, now: int)
      modifies this`grantedWindows, this`mintedGrants, this`windowToGrant, this`history
      ensures var s := old(At(now));
              At(now) == P.Log(s.(grants := P.MintedFor(s.grants, id, jti)), P.GrantMinted(now, id, jti))
    {
      grantedWindows := grantedWindows + {id};
      mintedGrants := mintedGrants[jti := id];
      windowToGrant := windowToGrant[id := jti];
      history := history + [P.GrantMinted(now, id, jti)];
    }

    /** GET /vetoes: every window is ticked before it is listed. */
    method PollWindows(now: int) returns (a: P.Answer)
      modifies this`vetoWindows
      ensures (At(now), a) == P.DoPoll(old(At(now)))
    {
      ghost var s := At(now);
      var left := vetoWindows.Keys;
      while left != {}
        invariant left <= vetoWindows.Keys == s.windows.Keys
        invariant forall id :: id in vetoWindows ==>
                    vetoWindows[id] == if id in left then s.windows[id] else P.TickedIn(s, s.windows[id])
      {
        var id :| id in left;
        var _ := TickWindow(id, now);
        left := left - {id};
      }
      assert vetoWindows == P.DoPoll(s).0.windows;
      a := P.Accepted;
    }

    /** A signature verifies only for a resolvable, unrevoked device. */
    function Authenticates(deviceId: string): bool
      reads this`devices
    {
      deviceId in devices && devices[deviceId].resolvable && devices[deviceId].revokedAt == None
    }

    method GetVetoDetail(id: string, deviceId: string, deliveryId: string, now: int) returns (a: P.Answer)
      modifies this`vetoWindows, this`ownerDeliveries, this`history
      ensures (At(now), a) == P.DoDetail(old(At(now)), id, deviceId, deliveryId)
    {
      if !Authenticates(deviceId) {
        return P.Refused(401);
      }
      if id !in vetoWindows {
        return P.Refused(404);
      }
      var w := TickWindow(id, now);
      if !standingQuarantined && !sw.killedState && (w.status == Pending || w.status == Extended) && w.call.renderable {
        var d := P.Delivery(id, w.revision, w.call, deviceId, devices[deviceId].generation,
                            now + P.DELIVERY_TTL_MS, false);
        ownerDeliveries := ownerDeliveries[deliveryId := d];
        history := history + [P.Shown(now, deliveryId, id, w.call, w.revision, deviceId, d.deviceGeneration)];
      }
      a := P.Showing(w.status);
    }

    method PostVetoSeen(id: string, deviceId: string, deliveryId: string, revision: int, content: Call, now: int)
      returns (a: P.Answer)
      modifies this`vetoWindows, this`ownerDeliveries, this`history
      ensures (At(now), a) == P.DoSeen(old(At(now)), id, deviceId, deliveryId, revision, content)
    {
      if !Authenticates(deviceId) {
        return P.Refused(401);
      }
      if id !in vetoWindows {
        return P.Refused(404);
      }
      if vetoWindows[id].evidence != None {
        var w := TickWindow(id, now);
        return P.Showing(w.status);
      }
      if standingQuarantined || sw.killedState {
        return P.Refused(503);
      }
      var _ := TickWindow(id, now);
      a := AcceptAck(id, deviceId, deliveryId, revision, content, now);
    }

    /** The ack's own checks, on the ticked window, down to the delivered bit. */
    method AcceptAck(id: string, deviceId: string, deliveryId: string, revision: int, content: Call, now: int)
      returns (a: P.Answer)
      requires id in vetoWindows && deviceId in devices
      modifies this`vetoWindows, this`ownerDeliveries, this`history
      ensures (At(now), a) == P.AcceptAck(old(At(now)), id, deviceId, deliveryId, revision, content)
    {
      hide P.AckValid, P.DeliveryDead;
      var w := vetoWindows[id];
      var open := w.status == Pending || w.status == Extended;
      if !open || deliveryId !in ownerDeliveries {
        return P.Refused(409);
      }
      var valid, dead := JudgeAck(id, w, deviceId, ownerDeliveries[deliveryId], revision, content, now);
      if !valid {
        if dead {
          ownerDeliveries := ownerDeliveries - {deliveryId};
        }
        return P.Refused(409);
      }
      TakeAck(id, deviceId, deliveryId, now);
      a := P.Showing(w.status);
    }

    /** The delivery's guards in order; an expired or superseded delivery is dropped. */
    method JudgeAck(id: string, w: Window, deviceId: string, d: P.Delivery, revision: int, content: Call, now: int)
      returns (valid: bool, dead: bool)
      requires deviceId in devices
      ensures valid == P.AckValid(At(now), id, w, deviceId, d, revision, content)
      ensures !valid ==> dead == P.DeliveryDead(At(now), deviceId, id, d)
    {
      valid, dead := false, false;
      if d.consumed {
        return;
      }
      if now >= d.expiresAt {
        return false, true;
      }
      if d.windowId != id || d.deviceId != deviceId {
        return;
      }
      if d.deviceGeneration != devices[deviceId].generation {
        return false, true;
      }
      if d.revision != w.revision || revision != w.revision || !w.call.renderable
         || d.content != w.call || content != w.call || now > w.deadline - MIN_VETO_RESPONSE_MS {
        return;
      }
      valid := true;
    }

    /** The delivery is spent and the window carries the evidence. */
    method TakeAck(id: string, deviceId: string, deliveryId: string, now: int)
      requires id in vetoWindows && deviceId in devices && deliveryId in ownerDeliveries
      modifies this`vetoWindows, this`ownerDeliveries, this`history
      ensures var w, g := old(vetoWindows[id]), devices[deviceId].generation;
              && vetoWindows == old(vetoWindows)[id := Delivered(w, Evidence(deviceId, g, now))]
              && ownerDeliveries
                 == old(ownerDeliveries)[deliveryId := old(ownerDeliveries[deliveryId]).(consumed := true)]
              && history == old(history) + [P.Acked(now, deliveryId, id, w.call, w.revision, w.deadline, deviceId, g)]
    {
      var w, d, generation := vetoWindows[id], ownerDeliveries[deliveryId], devices[deviceId].generation;
      ownerDeliveries := ownerDeliveries[deliveryId := d.(consumed := true)];
      vetoWindows := vetoWindows[id := Delivered(w, Evidence(deviceId, generation, now))];
      history := history + [P.Acked(now, deliveryId, id, w.call, w.revision, w.deadline, deviceId, generation)];
    }

    method PostDeviceVeto(id: string, who: string, now: int) returns (a: P.Answer)
      modifies this`vetoWindows
      ensures (At(now), a) == P.DoVeto(old(At(now)), id, who)
    {
      if id !in vetoWindows {
        return P.Refused(404);
      }
      var w := vetoWindows[id];
      if w.status == Vetoed {
        return P.Showing(Vetoed);
      }
      if id in windowToGrant && windowToGrant[id] in committedGrants {
        return P.Refused(409);
      }
      if w.purpose == None && w.status != Pending && w.status != Extended {
        return P.Refused(409);
      }
      vetoWindows := vetoWindows[id := VetoedBy(w, who)];
      a := P.Showing(Vetoed);
    }

    // ---- approval, grant, commit --------------------------------------------------------

    method ApprovalChallengeStart(request: string, id: string, now: int) returns (a: P.Answer)
      modifies this`suspended
      ensures (At(now), a) == P.DoApprovalChallengeStart(old(At(now)), request, id)
    {
      if !cfg.passkey {
        return P.Refused(501);
      }
      if id !in vetoWindows {
        return P.Refused(404);
      }
      if !P.GrantEligible(vetoWindows[id]) {
        return P.Refused(400);
      }
      if sw.killedState {
        return P.Refused(409);
      }
      suspended := suspended[request := P.ApprovalInFlight(id)];
      a := P.Accepted;
    }

    method ApprovalChallengeFinish(request: string, challenge: string, rendered: bool, now: int) returns (a: P.Answer)
      modifies this`suspended, this`approvalChallenges, this`history
      ensures (At(now), a) == P.DoApprovalChallengeFinish(old(At(now)), request, challenge, rendered)
    {
      if request !in suspended || !suspended[request].ApprovalInFlight? || suspended[request].windowId !in vetoWindows {
        return P.Refused(400);
      }
      var id := suspended[request].windowId;
      suspended := suspended - {request};
      if sw.killedState {
        return P.Refused(409);
      }
      if !rendered {
        return P.Refused(400);
      }
      var call := vetoWindows[id].call;
      approvalChallenges := approvalChallenges[id :=
        P.ApprovalChallenge(challenge, call, sw.epochCounter, now + P.APPROVAL_CHALLENGE_TTL_MS)];
      history := history + [P.ApprovalChallengeMinted(now, id, call, challenge)];
      a := P.Accepted;
    }

    method PostApprove(id: string, owner: string, signed: Option<string>, now: int) returns (a: P.Answer)
      modifies this`vetoWindows, this`approvalChallenges, this`history
      ensures (At(now), a) == P.DoApprove(old(At(now)), id, owner, signed)
    {
      hide P.GrantEligible;
      if id !in vetoWindows {
        return P.Refused(404);
      }
      var w := vetoWindows[id];
      if !P.GrantEligible(w) {
        return P.Refused(400);
      }
      if sw.killedState || w.call.agentId in sw.agentKillMap {
        return P.Refused(409);
      }
      if cfg.passkey {
        var live := id in approvalChallenges && now < approvalChallenges[id].expiresAt
          && approvalChallenges[id].killEpoch == sw.epochCounter && approvalChallenges[id].call.args == w.call.args
          && signed == Some(approvalChallenges[id].challenge);
        approvalChallenges := approvalChallenges - {id};
        if !live {
          return P.Refused(401);
        }
      } else if !cfg.dev {
        return P.Refused(403);
      }
      a := ApproveWindow(id, owner, if cfg.passkey then signed else None, now);
    }

    /** window.approve(): one approval, and never on a vetoed window. */
    method ApproveWindow(id: string, owner: string, signed: Option<string>, now: int) returns (a: P.Answer)
      requires id in vetoWindows
      modifies this`vetoWindows, this`history
      ensures (At(now), a) == P.ApproveWindow(old(At(now)), id, owner, signed)
    {
      var w := vetoWindows[id];
      if w.status == Vetoed || w.approval != None {
        return P.Refused(409);
      }
      vetoWindows := vetoWindows[id := ApprovedBy(w, owner, sw.epochCounter, now)];
      history := history + [P.Approved(now, id, owner, signed)];
      a := P.Accepted;
    }

    method PostGrantCommit(jti: string, now: int) returns (a: P.Answer)
      modifies this`committedGrants, this`history
      ensures (At(now), a) == P.DoCommit(old(At(now)), jti)
    {
      if jti !in mintedGrants || mintedGrants[jti] !in vetoWindows {
        return P.CommitAnswer(false);
      }
      var w := vetoWindows[mintedGrants[jti]];
      if w.status == Vetoed || sw.killedState || w.call.agentId in sw.agentKillMap
         || w.approval == None || w.approval.value.epoch != sw.epochCounter {
        return P.CommitAnswer(false);
      }
      committedGrants := committedGrants + {jti};
      history := history + [P.Committed(now, mintedGrants[jti], jti)];
      a := P.CommitAnswer(true);
    }

    // ---- kill and restore -----------------------------------------------------------------

    /** A kill of either kind, with the voids every kill performs. */
    method Engage(agentId: Option<string>, source: KillSource, reason: Option<string>, now: int, size: nat)
      requires Valid() && (agentId.Some? ==> IsValidAgentId(agentId.value))
      modifies this`approvalChallenges, this`restoreChallenges, this`history, sw, sw.store.volume
      ensures Valid()
      ensures At(now) == P.Engage(old(At(now)), agentId, sw.quarantineFailedState)
    {
      hide IsValidAgentId, P.Scoped, P.Engaged;
      var scoped := EngageSwitch(agentId, source, reason, now, size);
      approvalChallenges, restoreChallenges := map[], map[];
      history := history + [P.Killed(now, if scoped then agentId else None)];
    }

    method EngageSwitch(agentId: Option<string>, source: KillSource, reason: Option<string>, now: int, size: nat)
      returns (scoped: bool)
      requires sw.Valid() && (agentId.Some? ==> IsValidAgentId(agentId.value))
      modifies sw, sw.store.volume
      ensures sw.Valid()
      ensures scoped == P.Scoped(old(KillNow()), agentId)
      ensures KillNow() == P.Engaged(old(KillNow()), agentId, sw.quarantineFailedState)
    {
      scoped := false;
      if agentId.Some? {
        var escalated, _, _ := sw.EngageAgent(agentId.value, source, reason, now as real, false, size);
        scoped := !escalated;
      } else {
        var _ := sw.Engage(source, reason, now as real, false, size);
      }
    }

    method PostKill(agentId: Option<string>, source: KillSource, reason: Option<string>, now: int, size: nat)
      returns (a: P.Answer)
      requires Valid()
      modifies this`approvalChallenges, this`restoreChallenges, this`history, sw, sw.store.volume
      ensures Valid()
      ensures (At(now), a) == P.DoKill(old(At(now)), agentId, sw.quarantineFailedState)
    {
      if agentId.Some? && !IsValidAgentId(agentId.value) {
        return P.Refused(400);
      }
      Engage(agentId, source, reason, now, size);
      a := P.Accepted;
    }

    function Restorable(agentId: Option<string>): bool
      reads sw
    {
      if agentId == None then sw.killedState else !sw.killedState && agentId.value in sw.agentKillMap
    }

    /** Dead records go first, so none holds a slot against a live ceremony. */
    method PurgeDead(now: int)
      modifies this`ceremonies
      ensures ceremonies == P.Purged(old(At(now)))
    {
      ghost var s := At(now);
      var left := ceremonies;
      while left != {}
        invariant left <= s.ceremonies.live
        invariant ceremonies == left + set id | id in s.ceremonies.live - left && id in records
                  && !P.Dead(s, records[id])
      {
        var id :| id in left;
        if id !in records {
          ceremonies := ceremonies - {id};
        } else {
          var r := records[id];
          var dead := now >= r.ceremony.startedAt + TwoGo.TTL_MS || r.ceremony.status == TwoGo.Completed
            || r.epoch != sw.epochCounter || (r.agentId != None && r.agentId.value !in sw.agentKillMap);
          if dead {
            ceremonies := ceremonies - {id};
          }
        }
        left := left - {id};
      }
    }

    /** GO 1/2: the one live ceremony of this owner and scope, if there is one. */
    method FindHeld(owner: string, agentId: Option<string>, now: int) returns (r: Option<string>)
      ensures match r
              case Some(id) => id in ceremonies && P.HoldsFor(At(now), id, owner, agentId)
              case None => forall id :: id in ceremonies ==> !P.HoldsFor(At(now), id, owner, agentId)
    {
      var left := ceremonies;
      while left != {}
        invariant left <= ceremonies
        invariant forall id :: id in ceremonies - left ==> !P.HoldsFor(At(now), id, owner, agentId)
      {
        var id :| id in left;
        if id in records && records[id].ceremony.ownerId == owner && records[id].agentId == agentId {
          return Some(id);
        }
        left := left - {id};
      }
      r := None;
    }

    method PostCeremonyStart(id: string, owner: string, agentId: Option<string>, licensed: bool, now: int)
      returns (a: P.Answer)
      requires Valid() && id !in records
      modifies this`ceremonies, this`records, this`history
      ensures Valid()
      ensures (At(now), a) == P.DoCeremonyStart(old(At(now)), id, owner, agentId, licensed)
    {
      if agentId != None && !IsValidAgentId(agentId.value) {
        return P.Refused(400);
      }
      if !Restorable(agentId) {
        return P.Refused(409);
      }
      PurgeDead(now);
      a := StartOrReuse(id, owner, agentId, licensed, now);
    }

    method StartOrReuse(id: string, owner: string, agentId: Option<string>, licensed: bool, now: int)
      returns (a: P.Answer)
      requires OnePerScope() && id !in records
      modifies this`ceremonies, this`records, this`history
      ensures OnePerScope()
      ensures (At(now), a) == P.StartOrReuse(old(At(now)), id, owner, agentId, licensed)
    {
      var held := FindHeld(owner, agentId, now);
      ghost var all := set x | x in ceremonies && P.HoldsFor(At(now), x, owner, agentId);
      if held != None {
        assert all == {held.value};
        TickCeremony(held.value, now);
        return P.Accepted;
      }
      assert all == {};
      if !licensed {
        return P.Refused(402);
      }
      if |ceremonies| >= P.MAX_CEREMONY_RECORDS {
        return P.Refused(409);
      }
      OpenCeremony(id, owner, agentId, now);
      a := P.Accepted;
    }

    method OpenCeremony(id: string, owner: string, agentId: Option<string>, now: int)
      requires OnePerScope() && id !in records
      requires forall x :: x in ceremonies ==> !P.HoldsFor(At(now), x, owner, agentId)
      modifies this`ceremonies, this`records, this`history
      ensures OnePerScope()
      ensures records == old(records)[id := P.CeremonyRecord(TwoGo.Started(owner, now), sw.epochCounter, agentId)]
      ensures ceremonies == old(ceremonies) + {id}
      ensures history == old(history) + [P.CeremonyStarted(now, id, owner, agentId)]
    {
      records := records[id := P.CeremonyRecord(TwoGo.Started(owner, now), sw.epochCounter, agentId)];
      ceremonies := ceremonies + {id};
      history := history + [P.CeremonyStarted(now, id, owner, agentId)];
    }

    method TickCeremony(id: string, now: int)
      requires OnePerScope() && id in records
      modifies this`records
      ensures OnePerScope() && records == P.TickRecords(old(records), {id}, now)
      ensures records == old(records)[id := P.TickRecord(old(records)[id], now)]
    {
      records := records[id := P.TickRecord(records[id], now)];
    }

    method RestoreChallengeStart(request: string, owner: string, id: string, now: int) returns (a: P.Answer)
      modifies this`suspended
      ensures (At(now), a) == P.DoRestoreChallengeStart(old(At(now)), request, owner, id)
    {
      if !cfg.passkey {
        return P.Refused(501);
      }
      if sw.quarantineFailedState {
        return P.Refused(409);
      }
      if id !in ceremonies || id !in records || records[id].ceremony.ownerId != owner {
        return P.Refused(404);
      }
      if !Restorable(records[id].agentId) || records[id].epoch != sw.epochCounter {
        return P.Refused(409);
      }
      suspended := suspended[request := P.RestoreInFlight(id)];
      a := P.Accepted;
    }

    /** After the await everything is checked again: a kill may have landed. */
    method RestoreChallengeFinish(request: string, challenge: string, now: int) returns (a: P.Answer)
      requires Valid()
      modifies this`suspended, this`records, this`restoreChallenges, this`history
      ensures Valid()
      ensures (At(now), a) == P.DoRestoreChallengeFinish(old(At(now)), request, challenge)
    {
      if request !in suspended || !suspended[request].RestoreInFlight? || suspended[request].ceremonyId !in records {
        return P.Refused(400);
      }
      var id := suspended[request].ceremonyId;
      suspended := suspended - {request};
      if !Restorable(records[id].agentId) || records[id].epoch != sw.epochCounter {
        return P.Refused(409);
      }
      a := MintRestoreChallenge(id, challenge, now);
    }

    method MintRestoreChallenge(id: string, challenge: string, now: int) returns (a: P.Answer)
      requires OnePerScope() && id in records
      modifies this`records, this`restoreChallenges, this`history
      ensures OnePerScope()
      ensures (At(now), a) == P.MintRestoreChallenge(old(At(now)), id, challenge)
    {
      TickCeremony(id, now);
      if records[id].ceremony.status != TwoGo.Ready {
        return P.Refused(409);
      }
      restoreChallenges := restoreChallenges[id :=
        P.RestoreChallenge(challenge, sw.epochCounter, now + P.RESTORE_CHALLENGE_TTL_MS)];
      history := history + [P.RestoreChallengeMinted(now, id, challenge)];
      a := P.Accepted;
    }

    method PostRestore(owner: string, id: string, signed: Option<string>, now: int, size: nat) returns (a: P.Answer)
      requires Valid()
      modifies this`records, this`restoreChallenges, this`history, sw, sw.store.volume
      ensures Valid()
      ensures (At(now), a) == P.DoRestore(old(At(now)), owner, id, signed, sw.quarantineFailedState)
    {
      if sw.quarantineFailedState || id !in ceremonies || id !in records || records[id].ceremony.ownerId != owner
         || records[id].epoch != sw.epochCounter || !Restorable(records[id].agentId) {
        return P.Refused(409);
      }
      if cfg.passkey {
        var live := id in restoreChallenges && now < restoreChallenges[id].expiresAt
          && restoreChallenges[id].killEpoch == sw.epochCounter && signed == Some(restoreChallenges[id].challenge);
        restoreChallenges := restoreChallenges - {id};
        if !live {
          return P.Refused(401);
        }
      }
      a := ConfirmAndRestore(owner, id, if cfg.passkey then signed else None, now, size);
    }

    /** confirm() consumes the ceremony before the switch takes its authorization. */
    method ConfirmAndRestore(owner: string, id: string, signed: Option<string>, now: int, size: nat)
      returns (a: P.Answer)
      requires Valid() && id in records && Restorable(records[id].agentId)
      modifies this`records, this`history, sw, sw.store.volume
      ensures Valid()
      ensures (At(now), a) == P.ConfirmAndRestore(old(At(now)), owner, id, signed, sw.quarantineFailedState)
    {
      var r := records[id];
      var ready := TwoGo.Confirmable(r.ceremony, now);
      records := records[id := r.(ceremony := TwoGo.Confirmed(r.ceremony, now))];
      if !ready {
        return P.Refused(409);
      }
      var auth := K.RestoreAuthorization(id, r.ceremony.ownerId, now as real);
      var restored := RestoreSwitch(r.agentId, auth, size);
      if restored.Err? {
        return P.Refused(409);
      }
      history := history + [P.Restored(now, id, owner, r.agentId, signed)];
      a := P.Accepted;
    }

    method RestoreSwitch(agentId: Option<string>, auth: K.RestoreAuthorization, size: nat) returns (r: Result<()>)
      requires sw.Valid() && Restorable(agentId)
      modifies sw, sw.store.volume
      ensures sw.Valid()
      ensures r.Err? <==> auth.ceremonyId == "" || auth.ownerId == "" || auth.ceremonyId in old(KillNow()).consumed
      ensures var k := old(KillNow());
              var k' := k.(consumed := k.consumed + {auth.ceremonyId}, quarantineFailed := sw.quarantineFailedState);
              KillNow() == if r.Err? then k
                           else if agentId.None? then k'.(killed := false)
                           else k'.(agents := k.agents - {agentId.value})
    {
      ghost var persisted: K.Persisted;
      if agentId == None {
        r, persisted := sw.Restore(auth, size);
      } else {
        r, persisted := sw.RestoreAgent(agentId.value, auth, size);
      }
    }

    // ---- device standing ----------------------------------------------------------------------

    /**
     * The router: a request to its handler. What the request cannot know, how
     * the switch's own save went, is filled in afterwards.
     */
    method Route(e: P.Event, reason: Option<string>, now: int, size: nat) returns (a: P.Answer, ghost done: P.Event)
      requires Valid() && !P.OfDevices(e) && (e.CeremonyStart? ==> e.id !in records)
      modifies this`vetoWindows, this`ownerDeliveries, this`grantedWindows, this`mintedGrants, this`windowToGrant
      modifies this`committedGrants, this`approvalChallenges, this`ceremonies, this`restoreChallenges, this`records
      modifies this`suspended, this`history, sw, sw.store.volume
      ensures Valid()
      ensures SameRequest(e, done)
      ensures (At(now), a) == P.Handle(old(At(now)), done)
    {
      hide P.Handle, P.HandleWindows, P.HandleApprovals, P.HandleSwitch;
      ghost var s := At(now);
      done := e;
      if P.OfWindows(e) {
        a := RouteWindows(e, now);
      } else if P.OfApprovals(e) {
        a := RouteApprovals(e, now);
      } else {
        a, done := RouteSwitch(e, reason, now, size);
      }
      P.HandlesByKind(s, done);
    }

    method RouteWindows(e: P.Event, now: int) returns (a: P.Answer)
      requires P.OfWindows(e)
      modifies this`vetoWindows, this`ownerDeliveries, this`grantedWindows, this`mintedGrants, this`windowToGrant
      modifies this`history
      ensures (At(now), a) == P.HandleWindows(old(At(now)), e)
    {
      hide P.DoRegister, P.DoReadVeto, P.DoPoll, P.DoDetail, P.DoSeen, P.DoVeto;
      match e {
        case Register(id, call, purpose) => a := PostRegisterVeto(id, call, purpose, now);
        case ReadVeto(id, jti) => a := GetVeto(id, jti, now);
        case Poll => a := PollWindows(now);
        case Detail(id, deviceId, deliveryId) => a := GetVetoDetail(id, deviceId, deliveryId, now);
        case SeenBy(id, deviceId, deliveryId, revision, content) =>
          a := PostVetoSeen(id, deviceId, deliveryId, revision, content, now);
        case Veto(id, who) => a := PostDeviceVeto(id, who, now);
      }
    }

    method RouteApprovals(e: P.Event, now: int) returns (a: P.Answer)
      requires P.OfApprovals(e)
      modifies this`vetoWindows, this`committedGrants, this`approvalChallenges, this`suspended, this`history
      ensures (At(now), a) == P.HandleApprovals(old(At(now)), e)
    {
      hide P.DoApprovalChallengeStart, P.DoApprovalChallengeFinish, P.DoApprove, P.DoCommit;
      match e {
        case ApprovalChallengeStart(request, id) => a := ApprovalChallengeStart(request, id, now);
        case ApprovalChallengeFinish(request, challenge, rendered) =>
          a := ApprovalChallengeFinish(request, challenge, rendered, now);
        case Approve(id, owner, signed) => a := PostApprove(id, owner, signed, now);
        case Commit(jti) => a := PostGrantCommit(jti, now);
      }
    }

    method RouteSwitch(e: P.Event, reason: Option<string>, now: int, size: nat)
      returns (a: P.Answer, ghost done: P.Event)
      requires Valid() && P.OfSwitch(e) && (e.CeremonyStart? ==> e.id !in records)
      modifies this`approvalChallenges, this`ceremonies, this`restoreChallenges, this`records, this`suspended
      modifies this`history, sw, sw.store.volume
      ensures Valid()
      ensures P.OfSwitch(done) && SameRequest(e, done)
      ensures (At(now), a) == P.HandleSwitch(old(At(now)), done)
    {
      hide P.DoKill, P.DoCeremonyStart, P.DoRestoreChallengeStart, P.DoRestoreChallengeFinish, P.DoRestore;
      done := e;
      match e {
        case EngageKill(agentId, _) =>
          a := PostKill(agentId, Api, reason, now, size);
          done := P.EngageKill(agentId, sw.quarantineFailedState);
        case CeremonyStart(id, owner, agentId, licensed) => a := PostCeremonyStart(id, owner, agentId, licensed, now);
        case RestoreChallengeStart(request, owner, id) => a := RestoreChallengeStart(request, owner, id, now);
        case RestoreChallengeFinish(request, challenge) => a := RestoreChallengeFinish(request, challenge, now);
        case Restore(owner, id, signed, _) =>
          a := PostRestore(owner, id, signed, now, size);
          done := P.Restore(owner, id, signed, sw.quarantineFailedState);
      }
    }

    /** Drop the device's deliveries and the evidence it left, as every severing does. */
    method Cleanse(id: string, now: int)
      modifies this`ownerDeliveries, this`vetoWindows
      ensures At(now) == P.Cleansed(old(At(now)), id)
    {
      ghost var s := At(now);
      PurgeDeliveries(id);
      ghost var next := P.Cleansed(s, id);
      assert ownerDeliveries == next.lane.deliveries;
      ClearEvidence(id, now);
      assert vetoWindows == next.windows;
    }

    method ClearEvidence(id: string, now: int)
      modifies this`vetoWindows
      ensures vetoWindows.Keys == old(vetoWindows).Keys
      ensures forall x :: x in vetoWindows ==>
                vetoWindows[x] == EvidenceRevoked(old(vetoWindows)[x], id, now,
                                                  P.Stands(KillNow(), Lane(), old(vetoWindows)[x]))
    {
      ghost var before := vetoWindows;
      var left := vetoWindows.Keys;
      while left != {}
        invariant left <= vetoWindows.Keys == before.Keys
        invariant forall x :: x in left ==> vetoWindows[x] == before[x]
        invariant forall x :: x in vetoWindows.Keys - left ==>
                    vetoWindows[x] == EvidenceRevoked(before[x], id, now, P.Stands(KillNow(), Lane(), before[x]))
      {
        var x :| x in left;
        var w := TickWindow(x, now);
        if IsOpen(w) && w.evidence != None && w.evidence.value.deviceId == id {
          vetoWindows := vetoWindows[x := w.(evidence := None)];
        }
        left := left - {x};
      }
    }

    method PurgeDeliveries(id: string)
      modifies this`ownerDeliveries
      ensures ownerDeliveries == map k | k in old(ownerDeliveries) && old(ownerDeliveries)[k].deviceId != id
                                      :: old(ownerDeliveries)[k]
    {
      ghost var before := ownerDeliveries;
      var left := ownerDeliveries.Keys;
      while left != {}
        invariant left <= ownerDeliveries.Keys <= before.Keys
        invariant forall k :: k in ownerDeliveries ==> ownerDeliveries[k] == before[k]
        invariant forall k :: k in before ==> (k in ownerDeliveries <==> k in left || before[k].deviceId != id)
      {
        var k :| k in left;
        if ownerDeliveries[k].deviceId == id {
          ownerDeliveries := ownerDeliveries - {k};
        }
        left := left - {k};
      }
    }

    /** Mark the record revoked and bump its generation, then cleanse. */
    method Sever(id: string, now: int)
      requires id in devices
      modifies this`devices, this`ownerDeliveries, this`vetoWindows, this`history
      ensures At(now) == P.Severed(old(At(now)), id)
    {
      hide Ticked, P.Cleansed;
      devices := devices[id := devices[id].(revokedAt := Some(now), generation := devices[id].generation + 1)];
      Cleanse(id, now);
      history := history + [P.Revoked(now, id)];
    }

    /** Standing failed to reach the disk: quarantine the lane and kill, durably. */
    method QuarantineAndKill(now: int, size: nat)
      requires Valid()
      modifies this`standingQuarantined, this`approvalChallenges, this`restoreChallenges, this`history
      modifies sw, sw.store.volume
      ensures Valid()
      ensures At(now) == P.Exported(old(At(now)), false, sw.quarantineFailedState)
    {
      standingQuarantined := true;
      Engage(None, Api, Some("device-standing persistence FAILED"), now, size);
    }

    /** `exported` is what persistStanding reported, where it is asked. */
    method PostDeviceRevoke(id: string, exported: bool, now: int, size: nat) returns (a: P.Answer)
      requires Valid()
      modifies this, sw, sw.store.volume
      ensures Valid()
      ensures (At(now), a) == P.DoRevokeStatic(old(At(now)), id, exported, sw.quarantineFailedState)
    {
      if id !in devices || devices[id].enrolled {
        return P.Refused(404);
      }
      if devices[id].revokedAt != None {
        if standingQuarantined {
          if !exported {
            return P.Refused(503);
          }
          standingQuarantined := false;
        }
        return P.Accepted;
      }
      Sever(id, now);
      if !exported {
        QuarantineAndKill(now, size);
        return P.Refused(503);
      }
      standingQuarantined := false;
      a := P.Accepted;
    }

    method RevokeEnrolledDevice(id: string, published: bool, exported: bool, now: int, size: nat) returns (a: P.Answer)
      requires Valid()
      modifies this, sw, sw.store.volume
      ensures Valid()
      ensures (At(now), a) == P.DoRevokeEnrolled(old(At(now)), id, published, exported, sw.quarantineFailedState)
    {
      if id !in devices || !devices[id].enrolled || !devices[id].resolvable {
        return P.Refused(404);
      }
      if devices[id].revokedAt != None {
        Cleanse(id, now);
      } else if !published {
        LoseRegistry();
        Engage(None, Api, Some("device registry persistence FAILED"), now, size);
        return P.Refused(503);
      } else {
        Sever(id, now);
      }
      if !exported {
        QuarantineAndKill(now, size);
        return P.Refused(503);
      }
      standingQuarantined := false;
      a := P.Accepted;
    }

    /** A quarantined registry resolves no enrolled device. */
    method LoseRegistry()
      modifies this`devices
      ensures devices == P.Unresolved(old(Lane())).devices
    {
      devices := map x | x in devices ::
        if devices[x].enrolled then devices[x].(resolvable := false) else devices[x];
    }

    /** reconcileStaticAliases: static devices holding the admitted key are severed. */
    method SupersedeAliases(aliases: seq<string>, now: int) returns (severed: bool)
      modifies this`devices, this`ownerDeliveries, this`vetoWindows, this`history
      ensures At(now) == P.Superseded(old(At(now)), aliases)
      ensures severed <==> At(now) != old(At(now))
    {
      ghost var s := At(now);
      severed := false;
      for i := 0 to |aliases|
        invariant At(now) == P.Superseded(s, aliases[..i])
        invariant if severed then |history| > |s.history| else At(now) == s
      {
        assert aliases[..i + 1][..i] == aliases[..i];
        if aliases[i] in devices && !devices[aliases[i]].enrolled && devices[aliases[i]].revokedAt == None {
          Sever(aliases[i], now);
          severed := true;
        }
      }
      assert aliases[..|aliases|] == aliases;
    }

    method AdmitDevice(id: string, aliases: seq<string>, exported: bool, now: int, size: nat)
      requires Valid()
      modifies this, sw, sw.store.volume
      ensures Valid()
      ensures At(now) == P.DoAdmit(old(At(now)), id, aliases, exported, sw.quarantineFailedState).0
    {
      devices := devices[id := P.Device(1, None, true, true)];
      var severed := SupersedeAliases(aliases, now);
      if severed && !exported {
        QuarantineAndKill(now, size);
      }
    }
  }
}
