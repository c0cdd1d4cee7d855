/**
 * The whole control plane: the server's handlers over the enrolled-device
 * registry, the standing file and the kill switch, each with its own store.
 * Every request is recorded as a step of the protocol machine, with what the
 * disks answered filled in, so the object's life is a run of the machine.
 */
module Plane {
  import opened Wrappers
  import opened Disk
  import opened VetoWindows
  import opened ProtocolGrants
  import opened ProtocolWindows
  import P = Protocol
  import T = ProtocolTheorems
  import K = KillSwitch
  import S = Standing
  import StandingStore
  import F = RegistryFile
  import R = DeviceRegistry
  import RegistryStore
  import I = Invites
  import C = ControlPlane

  function StaticDevice(d: S.Static): P.Device {
    P.Device(d.generation, d.revokedAt, false, true)
  }

  function EnrolledDevice(d: F.Device): P.Device {
    P.Device(d.generation, d.revokedAt, true, true)
  }

  /** What the registry contributes to the shared standing file. */
  function Projection(r: F.Registry): StandingStore.Table {
    map id | id in r.devices ::
      StandingStore.DeviceStanding(r.devices[id].generation, r.devices[id].revokedAt,
                                   Some(r.devices[id].cheapLaneKeySpki.text))
  }

  function ProjectionOf(r: Option<F.Registry>): Option<StandingStore.Table> {
    if r.Some? then Some(Projection(r.value)) else None
  }

  /** The devices the handlers resolve: keys-file devices first, then whatever the usable registry holds. */
  ghost predicate Agree(devices: map<string, P.Device>, statics: map<string, S.Static>, registry: Option<F.Registry>) {
    StaticsAgree(devices, statics) && RegistryAgrees(devices, registry)
  }

  ghost predicate StaticsAgree(devices: map<string, P.Device>, statics: map<string, S.Static>) {
    && (forall id :: id in statics ==> id in devices && devices[id] == StaticDevice(statics[id]) && !S.IsCeremonyId(id))
    && (forall id :: id in devices && !devices[id].enrolled ==> id in statics)
  }

  ghost predicate RegistryAgrees(devices: map<string, P.Device>, registry: Option<F.Registry>) {
    match registry
    case Some(r) =>
      && (forall id :: id in r.devices ==> id in devices && devices[id] == EnrolledDevice(r.devices[id]))
      && (forall id :: id in devices && devices[id].enrolled ==> id in r.devices)
    case None => forall id :: id in devices && devices[id].enrolled ==> !devices[id].resolvable
  }

  /** The devices a boot starts from. */
  function DevicesOf(statics: map<string, S.Static>, registry: Option<F.Registry>): map<string, P.Device> {
    (map id | id in statics :: StaticDevice(statics[id]))
    + if registry.Some? then map id | id in registry.value.devices :: EnrolledDevice(registry.value.devices[id])
      else map[]
  }

  predicate NamesApart(statics: map<string, S.Static>, registry: Option<F.Registry>) {
    && (forall id :: id in statics ==> !S.IsCeremonyId(id))
    && (registry.Some? ==> forall id :: id in registry.value.devices ==> S.IsCeremonyId(id))
  }

  lemma BootAgrees(statics: map<string, S.Static>, registry: Option<F.Registry>)
    requires NamesApart(statics, registry)
    ensures Agree(DevicesOf(statics, registry), statics, registry)
  {
  }

  lemma NewToRegistry(
    devices: map<string, P.Device>, statics: map<string, S.Static>, registry: Option<F.Registry>, id: string)
    requires Agree(devices, statics, registry) && id !in devices
    ensures registry.Some? ==> id !in registry.value.devices
  {
  }

  lemma RevokingStaticAgrees(
    devices: map<string, P.Device>, statics: map<string, S.Static>, registry: Option<F.Registry>, id: string, now: int)
    requires Agree(devices, statics, registry) && id in statics
    ensures id in devices && devices[id] == StaticDevice(statics[id])
    ensures Agree(devices[id := P.RevokedDevice(devices[id], now)], statics[id := S.Severed(statics[id], now)],
                  registry)
  {
  }

  lemma RevokingEnrolledAgrees(
    devices: map<string, P.Device>, statics: map<string, S.Static>, r: F.Registry, id: string, now: int)
    requires Agree(devices, statics, Some(r)) && id in r.devices && r.devices[id].revokedAt.None?
    ensures id in devices && devices[id].enrolled
    ensures Agree(devices[id := P.RevokedDevice(devices[id], now)], statics, Some(F.WithRevoked(r, id, now)))
  {
  }

  lemma LosingAgrees(lane: P.Lane, statics: map<string, S.Static>, registry: Option<F.Registry>)
    requires Agree(lane.devices, statics, registry)
    ensures Agree(P.Unresolved(lane).devices, statics, None)
  {
  }

  /** What revoking a static device does to the lane and the switch, by cases. */
  lemma RevokedStaticLane(s: P.State, id: string, exported: bool, persistLost: bool)
    requires id in s.lane.devices && !s.lane.devices[id].enrolled
    ensures var (s', a) := P.DoRevokeStatic(s, id, exported, persistLost);
            && s'.kill.killed == (s.kill.killed || (s.lane.devices[id].revokedAt.None? && !exported))
            && (a.Accepted? <==> exported || (s.lane.devices[id].revokedAt.Some? && !s.lane.quarantined))
    ensures var d, lane' := s.lane.devices[id], P.DoRevokeStatic(s, id, exported, persistLost).0.lane;
            if d.revokedAt.None? then
              && lane'.devices == s.lane.devices[id := P.RevokedDevice(d, s.clock)] && lane'.quarantined == !exported
            else
              && lane'.devices == s.lane.devices && lane'.quarantined == (s.lane.quarantined && !exported)
  {
  }

  /** What revoking an enrolled device does to the lane, by cases. */
  predicate EnrolledLane(lane: P.Lane, lane': P.Lane, id: string, published: bool, exported: bool, now: int) {
    if !(id in lane.devices && lane.devices[id].enrolled && lane.devices[id].resolvable) then lane' == lane
    else if lane.devices[id].revokedAt.Some? then lane'.devices == lane.devices && lane'.quarantined == !exported
    else if published then
      lane'.devices == lane.devices[id := P.RevokedDevice(lane.devices[id], now)] && lane'.quarantined == !exported
    else lane' == P.Unresolved(lane)
  }

  lemma RevokedEnrolledLane(s: P.State, id: string, published: bool, exported: bool, persistLost: bool)
    ensures EnrolledLane(s.lane, P.DoRevokeEnrolled(s, id, published, exported, persistLost).0.lane, id, published,
                         exported, s.clock)
  {
    if id in s.lane.devices && s.lane.devices[id].enrolled && s.lane.devices[id].resolvable {
      if s.lane.devices[id].revokedAt.Some? {
        ExportedLane(P.Cleansed(s, id), exported, persistLost);
      } else if published {
        ExportedLane(P.Severed(s, id), exported, persistLost);
      }
    }
  }

  lemma ExportedLane(s: P.State, exported: bool, persistLost: bool)
    ensures var lane' := P.Exported(s, exported, persistLost).lane;
            lane'.devices == s.lane.devices && lane'.quarantined == !exported
  {
  }

  lemma EnrolledAgrees(
    lane: P.Lane, lane': P.Lane, statics: map<string, S.Static>, r: F.Registry, id: string, published: bool,
    exported: bool, now: int)
    requires Agree(lane.devices, statics, Some(r)) && id !in statics
    requires EnrolledLane(lane, lane', id, published, exported, now)
    requires !published ==> id in r.devices && r.devices[id].revokedAt.None?
    ensures Agree(lane'.devices, statics,
                  if id !in r.devices || r.devices[id].revokedAt.Some? then Some(r)
                  else if published then Some(F.WithRevoked(r, id, now)) else None)
    ensures lane'.quarantined == if id !in r.devices || !published then lane.quarantined else !exported
  {
    if id in r.devices && r.devices[id].revokedAt.None? {
      RevokingEnrolledAgrees(lane.devices, statics, r, id, now);
      LosingAgrees(lane, statics, Some(r));
    }
  }

  lemma {:induction false} SupersededDevices(s: P.State, aliases: seq<string>)
    ensures var s' := P.Superseded(s, aliases);
            && s'.lane.devices.Keys == s.lane.devices.Keys && s'.lane.quarantined == s.lane.quarantined
            && |s.history| <= |s'.history|
            && (forall id :: id in s.lane.devices ==>
                  s'.lane.devices[id] == if id in aliases && P.Supersedable(s, id)
                                         then P.RevokedDevice(s.lane.devices[id], s.clock) else s.lane.devices[id])
            && (aliases != [] && P.Supersedable(s, aliases[0]) ==> |s.history| < |s'.history|)
            && s'.clock == s.clock
  {
    if |aliases| > 0 {
      var front := aliases[..|aliases| - 1];
      SupersededDevices(s, front);
      assert aliases == front + [aliases[|aliases| - 1]];
    }
  }

  /** An admit on the lane: one device more, its key's static names severed. */
  ghost predicate AdmitLane(
    lane: P.Lane, lane': P.Lane, deviceId: string, aliases: seq<string>, exported: bool, now: int)
  {
    && lane'.devices.Keys == lane.devices.Keys + {deviceId}
    && lane'.devices[deviceId] == P.Device(1, None, true, true)
    && (forall id :: id in lane.devices && id != deviceId ==>
          lane'.devices[id] == if id in aliases then P.RevokedDevice(lane.devices[id], now) else lane.devices[id])
    && lane'.quarantined == (lane.quarantined || (aliases != [] && !exported))
  }

  lemma AdmittedLane(s: P.State, deviceId: string, aliases: seq<string>, exported: bool, persistLost: bool)
    requires deviceId !in s.lane.devices && forall id :: id in aliases ==> P.Supersedable(s, id)
    ensures AdmitLane(s.lane, P.DoAdmit(s, deviceId, aliases, exported, persistLost).0.lane, deviceId, aliases,
                      exported, s.clock)
  {
    var s1 := s.(lane := s.lane.(devices := s.lane.devices[deviceId := P.Device(1, None, true, true)]));
    SupersededDevices(s1, aliases);
    assert deviceId !in aliases;
    if aliases != [] {
      assert aliases[0] in aliases && P.Supersedable(s1, aliases[0]);
    }
  }

  lemma AliasesAreLive(s: P.State, statics: map<string, S.Static>, r: F.Registry, severed: seq<string>)
    requires Agree(s.lane.devices, statics, Some(r))
    requires forall id :: id in severed ==> id in statics && statics[id].revokedAt.None?
    ensures forall id :: id in severed ==> P.Supersedable(s, id)
  {
  }

  lemma AdmitAgrees(
    lane: P.Lane, lane': P.Lane, statics: map<string, S.Static>, statics': map<string, S.Static>, r: F.Registry,
    d: F.Device, boot: bool, severed: seq<string>, exported: bool, now: int)
    requires Agree(lane.devices, statics, Some(r)) && AdmitLane(lane, lane', d.deviceId, severed, exported, now)
    requires d.generation == 1 && d.revokedAt.None? && d.deviceId !in lane.devices && S.IsCeremonyId(d.deviceId)
    requires statics'.Keys == statics.Keys && forall id :: id in severed ==> id in statics
    requires forall id :: id in statics ==>
               statics'[id] == if id in severed then S.Severed(statics[id], now) else statics[id]
    ensures Agree(lane'.devices, statics', Some(F.WithDevice(r, d, boot)))
  {
  }

  /** What a commit leaves in the registry. */
  lemma CommitLeaves(
    cfg: I.Config, mem: Option<F.Registry>, d: RegistryStore.RegistryDir, l: I.Ledger, now: int, kill: R.LiveKill,
    q: I.Submission, c: R.Credential, deviceId: string, size: nat, result: RegistryStore.SaveResult, r: R.CommitOutcome,
    mem': Option<F.Registry>, d': RegistryStore.RegistryDir, l': I.Ledger)
    requires R.CommitSpec(cfg, mem, d, l, now, kill, q, c, deviceId, size, result, r, mem', d', l') && Sound(d)
    ensures Sound(d')
    ensures r.Committed? ==>
              && mem.Some? && r.device.deviceId == deviceId && r.device.generation == 1 && r.device.revokedAt.None?
              && exists boot :: mem' == Some(F.WithDevice(mem.value, r.device, boot))
    ensures !r.Committed? ==> mem' == mem || mem' == None
  {
    if r.Committed? {
      var outcome := I.PerformEnrollment(cfg, l, now, q, R.LiveWitness(mem.value, kill)).1;
      var boot := outcome.invite.contract.origin.Bootstrap?;
      assert mem' == Some(F.WithDevice(mem.value, r.device, boot));
    }
  }

  /** The standing half took this step, on memory and file, whatever the switch was. */
  ghost predicate StandingMoves(
    m: S.Proc, d: StandingStore.StandingDir, step: S.Step, id: string, exported: bool, m': S.Proc,
    d': StandingStore.StandingDir)
  {
    && (step.Revoke? || step.RetryRevoke?) && (step.Revoke? ==> step.id == id)
    && exported == (step.result == StandingStore.Published(true))
    && forall k: bool ::
         S.Next(S.World(Some(m), d, k), step, S.World(Some(m'), d', k || (step.Revoke? && !exported)))
  }

  class Plane {
    const server: C.Server
    const keeper: S.StandingKeeper
    const registry: R.EnrolledDeviceRegistry
    ghost var ss: seq<P.State>
    ghost var es: seq<P.Timed>

    /** The machine's state after everything so far. */
    ghost function Last(): P.State
      requires |ss| > 0
      reads this
    {
      ss[|ss| - 1]
    }

    ghost predicate Valid()
      reads this, server, server.sw, server.sw.store.volume, keeper, keeper.store.volume
      reads registry, registry.store.volume
    {
      && server.Valid() && Sound(keeper.store.volume.Now()) && Sound(registry.Directory())
      && Agree(server.devices, keeper.ownerDevices, registry.state)
      && keeper.standingQuarantined == server.standingQuarantined
      && keeper.registry == ProjectionOf(registry.state)
      && |ss| == |es| + 1 && P.Run(ss, es) && server.At(Last().clock) == Last()
    }

    /** Boot, once the registry, the standing file and the kill state have been read. */
    constructor (
      cfg: P.Config, sw: K.KillSwitch, keeper: S.StandingKeeper, registry: R.EnrolledDeviceRegistry, now: int)
      requires sw.Valid() && sw.consumedCeremonies == {}
      requires Sound(keeper.store.volume.Now()) && Sound(registry.Directory()) && !keeper.standingQuarantined
      requires keeper.registry == ProjectionOf(registry.state)
      requires NamesApart(keeper.ownerDevices, registry.state)
      ensures Valid() && this.keeper == keeper && this.registry == registry && server.sw == sw && fresh(server)
      ensures es == [] && |ss| == 1 && ss[0].cfg == cfg && ss[0].clock == now
    {
      hide Agree;
      var server := new C.Server(cfg, sw, DevicesOf(keeper.ownerDevices, registry.state), now);
      BootAgrees(keeper.ownerDevices, registry.state);
      this.server, this.keeper, this.registry := server, keeper, registry;
      ss, es := [server.At(now)], [];
    }

    /** Add the step just taken to the run. */
    ghost method Record(e: P.Event, now: int)
      requires P.Run(ss, es) && P.Enabled(Last(), e, now) && server.At(now) == P.Step(Last(), e, now).0
      modifies this
      ensures P.Run(ss, es) && server.At(Last().clock) == Last()
      ensures ss == old(ss) + [server.At(now)] && es == old(es) + [P.Timed(e, now)]
    {
      T.Extends(ss, es, e, now);
      ss, es := ss + [server.At(now)], es + [P.Timed(e, now)];
    }

    /** Any request that leaves the owner's devices alone. */
    method Serve(e: P.Event, reason: Option<string>, now: int, size: nat) returns (a: P.Answer, ghost done: P.Event)
      requires Valid() && P.Enabled(Last(), e, now) && !P.OfDevices(e)
      modifies this, server, server.sw, server.sw.store.volume
      ensures Valid() && C.SameRequest(e, done)
      ensures es == old(es) + [P.Timed(done, now)] && |ss| == |old(ss)| + 1 && old(ss) <= ss
      ensures a == P.Step(old(Last()), done, now).1
    {
      hide P.Run, P.Step, Agree;
      a, done := Take(e, reason, now, size);
      Record(done, now);
    }

    /** The handler alone: the step is taken, and not yet recorded. */
    method Take(e: P.Event, reason: Option<string>, now: int, size: nat) returns (a: P.Answer, ghost done: P.Event)
      requires Valid() && P.Enabled(Last(), e, now) && !P.OfDevices(e)
      modifies server, server.sw, server.sw.store.volume
      ensures server.Valid() && C.SameRequest(e, done) && P.Enabled(Last(), done, now)
      ensures (server.At(now), a) == P.Step(Last(), done, now)
      ensures server.devices == old(server.devices) && server.standingQuarantined == old(server.standingQuarantined)
    {
      a, done := server.Route(e, reason, now, size);
    }

    /** POST /devices/:id/revoke: a keys-file device, or one the registry holds. */
    method RevokeDevice(id: string, now: int, sizes: Sizes) returns (a: P.Answer, ghost done: P.Event)
      requires Valid() && Last().clock <= now
      modifies this, server, server.sw, server.sw.store.volume, keeper, keeper.store.volume
      modifies registry`state, registry.store.volume
      ensures Valid() && RevokesDevice(done, id)
      ensures es == old(es) + [P.Timed(done, now)] && |ss| == |old(ss)| + 1 && old(ss) <= ss
      ensures a == P.Step(old(Last()), done, now).1
    {
      hide P.Run, P.Step, Agree, ProjectionOf, S.Next, S.DurablyAnswered;
      if id in keeper.ownerDevices {
        ghost var moved;
        a, done, moved := RevokeStatic(id, now, sizes);
      } else {
        a, done := RevokeEnrolled(id, now, sizes);
      }
      Record(done, now);
    }

    /** Mark and export, or retry an export that failed: the standing half. */
    method ExportStatic(id: string, now: int, size: nat) returns (exported: bool, ghost step: Option<S.Step>)
      requires Sound(keeper.store.volume.Now()) && id in keeper.ownerDevices
      modifies keeper, keeper.store.volume
      ensures Sound(keeper.store.volume.Now()) && keeper.registry == old(keeper.registry)
      ensures var d := old(keeper.ownerDevices)[id];
              if d.revokedAt.None? then
                && keeper.ownerDevices == old(keeper.ownerDevices)[id := S.Severed(d, now)]
                && keeper.standingQuarantined == !exported
              else
                && keeper.ownerDevices == old(keeper.ownerDevices)
                && keeper.standingQuarantined == (old(keeper.standingQuarantined) && !exported)
      ensures step.None? ==>
                && keeper.Memory() == old(keeper.Memory())
                && keeper.store.volume.Now() == old(keeper.store.volume.Now())
                && exported && old(keeper.ownerDevices)[id].revokedAt.Some?
      ensures step.Some? ==>
                && StandingMoves(old(keeper.Memory()), old(keeper.store.volume.Now()), step.value, id, exported,
                                 keeper.Memory(), keeper.store.volume.Now())
                && (step.value.Revoke? <==> old(keeper.ownerDevices)[id].revokedAt.None?)
                && (step.value.RetryRevoke? ==> old(keeper.standingQuarantined))
    {
      exported, step := true, None;
      ghost var result;
      if keeper.ownerDevices[id].revokedAt == None {
        var kill;
        kill, result := keeper.RevokeStatic(id, now, size);
        exported, step := !kill, Some(S.Revoke(id, now, size, result));
      } else if keeper.standingQuarantined {
        exported, result := keeper.RetryExport(size);
        step := Some(S.RetryRevoke(size, result));
      }
    }

    /** The server's half, given how the export went. */
    method SeverStatic(id: string, exported: bool, now: int, size: nat) returns (a: P.Answer, ghost done: P.Event)
      requires server.Valid() && |ss| > 0 && server.At(now) == Last().(clock := now)
      requires id in server.devices && !server.devices[id].enrolled
      modifies server, server.sw, server.sw.store.volume
      ensures server.Valid() && done.RevokeStatic? && done.deviceId == id
      ensures (server.At(now), a) == P.Step(Last(), done, now)
      ensures var d := old(server.devices)[id];
              if d.revokedAt.None? then
                && server.devices == old(server.devices)[id := P.RevokedDevice(d, now)]
                && server.standingQuarantined == !exported
              else
                && server.devices == old(server.devices)
                && server.standingQuarantined == (old(server.standingQuarantined) && !exported)
      ensures server.sw.killedState
              == (old(server.sw.killedState) || (old(server.devices)[id].revokedAt.None? && !exported))
      ensures a.Accepted? <==> exported || (old(server.devices)[id].revokedAt.Some? && !old(server.standingQuarantined))
    {
      ghost var s := server.At(now);
      a := server.PostDeviceRevoke(id, exported, now, size);
      done := P.RevokeStatic(id, exported, server.sw.quarantineFailedState);
      RevokedStaticLane(s, id, exported, server.sw.quarantineFailedState);
      assert server.At(now).lane == server.Lane() && server.At(now).kill == server.KillNow();
    }

    /** What the standing theorems see of this object. */
    ghost function StandingWorld(): S.World
      reads server.sw, keeper, keeper.store.volume
    {
      S.World(Some(keeper.Memory()), keeper.store.volume.Now(), server.sw.killedState)
    }

    /**
     * A keys-file device: one step of the machine, and one of the standing
     * world, kill included. Accepted means the file durably shows it revoked,
     * unless an earlier answer already did.
     */
    method RevokeStatic(id: string, now: int, sizes: Sizes)
      returns (a: P.Answer, ghost done: P.Event, ghost step: Option<S.Step>)
      requires Valid() && Last().clock <= now && id in keeper.ownerDevices
      modifies server, server.sw, server.sw.store.volume, keeper, keeper.store.volume
      ensures server.Valid() && Sound(keeper.store.volume.Now()) && done.RevokeStatic? && done.deviceId == id
      ensures (server.At(now), a) == P.Step(Last(), done, now)
      ensures Agree(server.devices, keeper.ownerDevices, registry.state)
      ensures keeper.standingQuarantined == server.standingQuarantined && keeper.registry == old(keeper.registry)
      ensures if step.Some? then S.Next(old(StandingWorld()), step.value, StandingWorld())
              else StandingWorld() == old(StandingWorld())
      ensures step.Some? && a.Accepted? ==> S.DurablyAnswered(old(StandingWorld()), step.value, id)
    {
      hide P.Run, P.Step, Agree, S.Next;
      RevokingStaticAgrees(server.devices, keeper.ownerDevices, registry.state, id, now);
      var exported;
      exported, step := ExportStatic(id, now, sizes.standing);
      a, done := SeverStatic(id, exported, now, sizes.kill);
    }

    /** The server's half of an enrolled device's revoke. */
    method SeverEnrolled(id: string, published: bool, exported: bool, now: int, size: nat)
      returns (a: P.Answer, ghost done: P.Event)
      requires server.Valid() && |ss| > 0 && server.At(now) == Last().(clock := now)
      modifies server, server.sw, server.sw.store.volume
      ensures server.Valid() && done.RevokeEnrolled? && done.deviceId == id
      ensures (server.At(now), a) == P.Step(Last(), done, now)
      ensures EnrolledLane(old(server.Lane()), server.Lane(), id, published, exported, now)
    {
      ghost var s := server.At(now);
      a := server.RevokeEnrolledDevice(id, published, exported, now, size);
      done := P.RevokeEnrolled(id, published, exported, server.sw.quarantineFailedState);
      RevokedEnrolledLane(s, id, published, exported, server.sw.quarantineFailedState);
      assert server.At(now).lane == server.Lane();
    }

    /** The registry's half: its durable revoke, and the export of what it then vouches for. */
    method ExportEnrolled(id: string, now: int, sizes: Sizes) returns (outcome: R.RevokeOutcome, exported: bool)
      requires Sound(keeper.store.volume.Now()) && Sound(registry.Directory()) && registry.state.Some?
      requires keeper.registry == ProjectionOf(registry.state)
      modifies keeper, keeper.store.volume, registry`state, registry.store.volume
      ensures Sound(keeper.store.volume.Now()) && Sound(registry.Directory())
      ensures keeper.ownerDevices == old(keeper.ownerDevices) && keeper.registry == ProjectionOf(registry.state)
      ensures var r := old(registry.state).value;
              if id !in r.devices then
                && outcome.Unknown? && registry.state == Some(r)
                && keeper.standingQuarantined == old(keeper.standingQuarantined)
              else if r.devices[id].revokedAt.Some? then
                outcome.AlreadyRevoked? && registry.state == Some(r) && keeper.standingQuarantined == !exported
              else if outcome.PublishFailed? then
                registry.state == None && keeper.standingQuarantined == old(keeper.standingQuarantined)
              else
                && outcome.Revoked? && registry.state == Some(F.WithRevoked(r, id, now))
                && keeper.standingQuarantined == !exported
    {
      exported := false;
      var o, _ := registry.Revoke(id, now, sizes.registry);
      outcome := o;
      if outcome == R.PublishFailed {
        keeper.LoseRegistry();
      } else if outcome != R.Unknown {
        var ok, _ := keeper.ExportRegistry(Projection(registry.state.value), sizes.standing);
        exported := ok;
      }
    }

    /** The registry's own durable revoke first, then this process's cleanup and the export. */
    method RevokeEnrolled(id: string, now: int, sizes: Sizes) returns (a: P.Answer, ghost done: P.Event)
      requires Valid() && Last().clock <= now && id !in keeper.ownerDevices
      modifies server, server.sw, server.sw.store.volume, keeper, keeper.store.volume
      modifies registry`state, registry.store.volume
      ensures server.Valid() && Sound(keeper.store.volume.Now()) && Sound(registry.Directory())
      ensures done.RevokeEnrolled? && done.deviceId == id
      ensures (server.At(now), a) == P.Step(Last(), done, now)
      ensures Agree(server.devices, keeper.ownerDevices, registry.state)
      ensures keeper.standingQuarantined == server.standingQuarantined
      ensures keeper.registry == ProjectionOf(registry.state)
    {
      hide P.Run, P.Step;
      ghost var lane, statics := server.Lane(), keeper.ownerDevices;
      if registry.state == None {
        a, done := SeverEnrolled(id, false, false, now, sizes.kill);
        return;
      }
      ghost var r := registry.state.value;
      var outcome, exported := ExportEnrolled(id, now, sizes);
      a, done := SeverEnrolled(id, outcome != R.PublishFailed, exported, now, sizes.kill);
      EnrolledAgrees(lane, server.Lane(), statics, r, id, outcome != R.PublishFailed, exported, now);
    }

    /** The server's half of an admit, given what the standing half severed. */
    method Admit(deviceId: string, severed: seq<string>, exported: bool, now: int, size: nat)
      returns (ghost done: P.Event)
      requires server.Valid() && |ss| > 0 && server.At(now) == Last().(clock := now) && deviceId !in server.devices
      requires forall id :: id in severed ==> P.Supersedable(server.At(now), id)
      modifies server, server.sw, server.sw.store.volume
      ensures server.Valid() && done.Admit? && done.deviceId == deviceId
      ensures server.At(now) == P.Step(Last(), done, now).0
      ensures AdmitLane(old(server.Lane()), server.Lane(), deviceId, severed, exported, now)
    {
      ghost var s := server.At(now);
      server.AdmitDevice(deviceId, severed, exported, now, size);
      done := P.Admit(deviceId, severed, exported, server.sw.quarantineFailedState);
      AdmittedLane(s, deviceId, severed, exported, server.sw.quarantineFailedState);
      assert server.At(now).lane == server.Lane();
    }

    /** The registry took the device in: sever its key's static names, export, and tell the server. */
    method TakeIn(device: F.Device, ghost r: F.Registry, ghost boot: bool, now: int, sizes: Sizes)
      returns (ghost done: P.Event)
      requires server.Valid() && Sound(keeper.store.volume.Now()) && |ss| > 0 && server.At(now) == Last().(clock := now)
      requires registry.state == Some(F.WithDevice(r, device, boot))
      requires Agree(server.devices, keeper.ownerDevices, Some(r))
      requires keeper.standingQuarantined == server.standingQuarantined
      requires device.generation == 1 && device.revokedAt.None?
      requires S.IsCeremonyId(device.deviceId) && device.deviceId !in server.devices
      modifies server, server.sw, server.sw.store.volume, keeper, keeper.store.volume
      ensures server.Valid() && Sound(keeper.store.volume.Now()) && done.Admit? && done.deviceId == device.deviceId
      ensures server.At(now) == P.Step(Last(), done, now).0
      ensures Agree(server.devices, keeper.ownerDevices, registry.state)
      ensures keeper.standingQuarantined == server.standingQuarantined
      ensures keeper.registry == ProjectionOf(registry.state)
    {
      hide P.Run, P.Step, Agree, AdmitLane, F.WithDevice, P.Supersedable;
      ghost var s, lane, statics := server.At(now), server.Lane(), keeper.ownerDevices;
      var severed, exported, _ :=
        keeper.Enrol(Projection(registry.state.value), device.cheapLaneKeySpki.text, now, sizes.standing);
      AliasesAreLive(s, statics, r, severed);
      done := Admit(device.deviceId, severed, exported, now, sizes.kill);
      AdmitAgrees(lane, server.Lane(), statics, keeper.ownerDevices, r, device, boot, severed, exported, now);
    }

    method Unresolve(now: int)
      requires |ss| > 0 && server.At(now) == Last().(clock := now)
      modifies server`devices, keeper`registry
      ensures server.At(now) == P.Step(Last(), P.RegistryLost, now).0 && keeper.registry == None
      ensures server.devices == P.Unresolved(old(server.Lane())).devices
    {
      ghost var s := server.At(now);
      keeper.LoseRegistry();
      server.LoseRegistry();
      assert server.At(now) == s.(lane := P.Unresolved(s.lane));
    }

    /** A publish that could not be proven: from here on no enrolled device resolves. */
    method LoseRegistry(now: int, ghost r: Option<F.Registry>)
      requires server.Valid() && Sound(keeper.store.volume.Now()) && Sound(registry.Directory())
      requires |ss| == |es| + 1 && P.Run(ss, es) && server.At(now) == Last().(clock := now) && Last().clock <= now
      requires registry.state == None
      requires Agree(server.devices, keeper.ownerDevices, r)
      requires keeper.standingQuarantined == server.standingQuarantined
      modifies this, server`devices, keeper`registry
      ensures Valid()
      ensures es == old(es) + [P.Timed(P.RegistryLost, now)] && |ss| == |old(ss)| + 1 && old(ss) <= ss
    {
      hide P.Run, P.Step, Agree;
      LosingAgrees(server.Lane(), keeper.ownerDevices, r);
      Unresolve(now);
      Record(P.RegistryLost, now);
    }

    /** The registry's half of an enrolment. */
    method Commit(q: I.Submission, c: R.Credential, deviceId: string, now: int, size: nat)
      returns (r: R.CommitOutcome, ghost boot: bool)
      requires Sound(registry.Directory()) && deviceId !in F.FORBIDDEN_IDS
      requires registry.state.Some? ==> deviceId !in registry.state.value.devices
      modifies registry`state, registry.store.volume, registry.invites
      ensures Sound(registry.Directory())
      ensures r.Committed? ==>
                && old(registry.state).Some?
                && registry.state == Some(F.WithDevice(old(registry.state).value, r.device, boot))
                && r.device.deviceId == deviceId && r.device.generation == 1 && r.device.revokedAt.None?
      ensures !r.Committed? ==> registry.state == old(registry.state) || registry.state == None
    {
      ghost var was, d, l := registry.state, registry.Directory(), registry.invites.Contents();
      var kill := R.LiveKill(server.sw.killedState, server.sw.epochCounter);
      ghost var result;
      r, result := registry.CommitEnrollment(now, kill, q, c, deviceId, size);
      CommitLeaves(registry.invites.cfg, was, d, l, now, kill, q, c, deviceId, size, result, r,
                   registry.state, registry.Directory(), registry.invites.Contents());
      boot := false;
      if r.Committed? {
        boot :| registry.state == Some(F.WithDevice(was.value, r.device, boot));
      }
    }

    method Admitted(device: F.Device, ghost r: F.Registry, ghost boot: bool, now: int, sizes: Sizes)
      returns (ghost done: P.Event)
      requires server.Valid() && Sound(keeper.store.volume.Now()) && Sound(registry.Directory())
      requires |ss| == |es| + 1 && P.Run(ss, es) && server.At(now) == Last().(clock := now) && Last().clock <= now
      requires registry.state == Some(F.WithDevice(r, device, boot))
      requires Agree(server.devices, keeper.ownerDevices, Some(r))
      requires keeper.standingQuarantined == server.standingQuarantined
      requires device.generation == 1 && device.revokedAt.None?
      requires S.IsCeremonyId(device.deviceId) && device.deviceId !in server.devices
      modifies this, server, server.sw, server.sw.store.volume, keeper, keeper.store.volume
      ensures Valid() && done.Admit? && done.deviceId == device.deviceId
      ensures es == old(es) + [P.Timed(done, now)] && |ss| == |old(ss)| + 1 && old(ss) <= ss
    {
      hide P.Run, P.Step, Agree, F.WithDevice, ProjectionOf;
      done := TakeIn(device, r, boot, now, sizes);
      Record(done, now);
    }

    /** POST /enroll: the registry commits, and only then is anything else told. */
    method Enrol(q: I.Submission, c: R.Credential, deviceId: string, now: int, sizes: Sizes)
      returns (r: R.CommitOutcome, ghost done: Option<P.Event>)
      requires Valid() && Last().clock <= now
      requires S.IsCeremonyId(deviceId) && deviceId !in server.devices && deviceId !in F.FORBIDDEN_IDS
      modifies this, server, server.sw, server.sw.store.volume, keeper, keeper.store.volume
      modifies registry`state, registry.store.volume, registry.invites
      ensures Valid()
      ensures if done.Some? then es == old(es) + [P.Timed(done.value, now)] && |ss| == |old(ss)| + 1 && old(ss) <= ss
              else es == old(es) && ss == old(ss)
      ensures r.Committed? <==> done.Some? && done.value.Admit?
      ensures r.Committed? ==> done.value.deviceId == deviceId
      ensures !r.Committed? ==>
                done == if registry.state == None && old(registry.state).Some? then Some(P.RegistryLost) else None
    {
      hide P.Run, P.Step, Agree, F.WithDevice;
      ghost var was := registry.state;
      var registered := keeper.registry != None;
      ghost var boot;
      done := None;
      NewToRegistry(server.devices, keeper.ownerDevices, registry.state, deviceId);
      r, boot := Commit(q, c, deviceId, now, sizes.registry);
      if r.Committed? {
        ghost var event := Admitted(r.device, was.value, boot, now, sizes);
        done := Some(event);
      } else if registry.state == None && registered {
        LoseRegistry(now, was);
        done := Some(P.RegistryLost);
      }
    }

    /** An operator or a device mints an invite; the owner's handle is made durable on the way. */
    method Mint(q: R.MintRequest, userId: string, now: int, size: nat)
      returns (r: I.Outcome, ghost done: Option<P.Event>)
      requires Valid() && Last().clock <= now
      requires registry.state.Some? ==> userId !in registry.state.value.owners.Values
      modifies this, server`devices, keeper`registry, registry`state, registry.store.volume, registry.invites
      ensures Valid()
      ensures done == if registry.state == None && old(registry.state).Some? then Some(P.RegistryLost) else None
      ensures if done.Some? then es == old(es) + [P.Timed(done.value, now)] && |ss| == |old(ss)| + 1 && old(ss) <= ss
              else es == old(es) && ss == old(ss)
    {
      hide P.Run, P.Step;
      ghost var was := registry.state;
      var registered := keeper.registry != None;
      r := MintAtRegistry(q, userId, now, size);
      done := None;
      if registry.state == None && registered {
        LoseRegistry(now, was);
        done := Some(P.RegistryLost);
      }
    }

    method MintAtRegistry(q: R.MintRequest, userId: string, now: int, size: nat) returns (r: I.Outcome)
      requires Sound(registry.Directory())
      requires registry.state.Some? ==> userId !in registry.state.value.owners.Values
      modifies registry`state, registry.store.volume, registry.invites
      ensures Sound(registry.Directory())
      ensures registry.state.Some? ==>
                old(registry.state).Some? && registry.state.value.devices == old(registry.state).value.devices
    {
      var kill := R.LiveKill(server.sw.killedState, server.sw.epochCounter);
      ghost var ok, result;
      r, ok, result := registry.MintInvite(now, kill, q, userId, size);
    }

    // ---- what the machine's theorems say of this object ---------------------------------------

    /** GET /veto/:id never answers "released", and never hands out a grant, under a kill. */
    method ReadVeto(id: string, jti: string, now: int, size: nat) returns (a: P.Answer)
      requires Valid() && Last().clock <= now && jti !in server.mintedGrants
      modifies this, server, server.sw, server.sw.store.volume
      ensures Valid()
      ensures a == P.Showing(Released) || a.Grant? ==>
                && !old(server.sw.killedState) && id in old(server.vetoWindows)
                && old(server.vetoWindows)[id].call.agentId !in old(server.sw.agentKillMap)
      ensures a.Grant? ==>
                exists j :: 0 <= j < |old(server.history)| && KillFree(old(server.history), j)
                  && old(server.history)[j].Approved? && old(server.history)[j].windowId == id
                  && now < old(server.history)[j].at + server.cfg.grantTtlMs
    {
      hide P.Step, P.Run, Agree, KillFree;
      ghost var i := |es|;
      ghost var before := Last();
      ghost var done;
      a, done := Serve(P.ReadVeto(id, jti), None, now, size);
      if a == P.Showing(Released) || a.Grant? {
        ReadIsSafe(ss, es, i, before, id, a);
      }
    }

    /** POST /grant/:jti/commit answers true only for an approval no kill came after. */
    method CommitGrant(jti: string, now: int, size: nat) returns (a: P.Answer)
      requires Valid() && Last().clock <= now
      modifies this, server, server.sw, server.sw.store.volume
      ensures Valid()
      ensures a == P.CommitAnswer(true) ==>
                && jti in server.committedGrants && |server.history| > 0
                && var c := |server.history| - 1;
                   && server.history[c].Committed? && server.history[c].jti == jti
                   && exists j :: NoKillBetween(server.history, j, c) && server.history[j].Approved?
                        && server.history[j].windowId == server.history[c].windowId
    {
      hide P.Step, P.Run, Agree, NoKillBetween;
      ghost var done;
      a, done := Serve(P.Commit(jti), None, now, size);
      if a == P.CommitAnswer(true) {
        CommitIsApproved(ss, es, |es| - 1, jti);
      }
    }

    /** In every state of this object: no window both vetoed and committed for dispatch. */
    lemma NeverVetoedAndCommitted(id: string)
      requires Valid() && id in server.vetoWindows && server.vetoWindows[id].status.Vetoed?
      ensures !(id in server.windowToGrant && server.windowToGrant[id] in server.committedGrants)
    {
      T.NeverVetoedAndCommitted(ss, es, |es|, |es|, id);
    }

    /** And every released window shows the timely acknowledgement it was released on. */
    lemma ReleasedWasAcked(id: string)
      requires Valid() && id in server.vetoWindows && server.vetoWindows[id].status.Released?
      ensures var w := server.vetoWindows[id];
              w.evidence.Some? && exists j :: AckedAt(server.history, j, id, w, w.evidence.value)
    {
      T.ReleasedWasAcked(ss, es, |es|, id);
    }
  }

  lemma ReadIsSafe(ss: seq<P.State>, es: seq<P.Timed>, i: nat, s: P.State, id: string, a: P.Answer)
    requires P.Run(ss, es) && i < |es| && s == ss[i] && es[i].event.ReadVeto? && es[i].event.id == id
    requires a == P.Step(s, es[i].event, es[i].now).1 && (a == P.Showing(Released) || a.Grant?)
    ensures !s.kill.killed && id in s.windows && s.windows[id].call.agentId !in s.kill.agents
    ensures a.Grant? ==>
              exists j :: 0 <= j < |s.history| && KillFree(s.history, j) && s.history[j].Approved?
                && s.history[j].windowId == id && es[i].now < s.history[j].at + s.cfg.grantTtlMs
  {
    T.NothingReleasedUnderAKill(ss, es, i);
    if a.Grant? {
      T.GrantRestsOnApproval(ss, es, i);
    }
  }

  lemma CommitIsApproved(ss: seq<P.State>, es: seq<P.Timed>, i: nat, jti: string)
    requires P.Run(ss, es) && i < |es| && es[i].event == P.Commit(jti)
    requires P.Step(ss[i], es[i].event, es[i].now).1 == P.CommitAnswer(true)
    ensures var s := ss[i + 1]; var c := |s.history| - 1;
            && jti in s.grants.committed && c >= 0 && s.history[c].Committed? && s.history[c].jti == jti
            && exists j :: NoKillBetween(s.history, j, c) && s.history[j].Approved?
                 && s.history[j].windowId == s.history[c].windowId
  {
    T.CommitsAreApproved(ss, es, i + 1, |ss[i + 1].history| - 1);
  }

  /** How long each store's document is, when a request writes it. */
  datatype Sizes = Sizes(registry: nat, standing: nat, kill: nat)

  predicate RevokesDevice(e: P.Event, id: string) {
    (e.RevokeStatic? || e.RevokeEnrolled?) && e.deviceId == id
  }
}
