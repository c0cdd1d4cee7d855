/**
 * EnrolledDeviceRegistry: memory follows the disk, never the other way round.
 * Every update publishes durably first; whatever cannot be proven durable
 * leaves the registry quarantined until it re-reads what survived.
 */
module DeviceRegistry {
  import opened Wrappers
  import opened Disk
  import opened RegistryFile
  import opened RegistryStore
  import I = Invites

  datatype LiveKill = LiveKill(killed: bool, epoch: int)

  datatype Issuer = ByOperator(ownerId: string) | ByEnrolled(deviceId: string)

  datatype MintRequest = MintRequest(
    inviteId: string, tokenHash: string, deviceName: string, challenge: string, assertionChallenge: string,
    issuer: Issuer)

  /** What the proof chain verified about the phone's two keys. */
  datatype Credential = Credential(
    credentialId: string, publicKeySpki: Spki, cheapLaneKeySpki: Spki, signCount: int,
    transports: Option<seq<string>>, userHandle: Option<string>)

  datatype CommitOutcome = Committed(device: Device) | NotCommitted(inviteSurvives: bool)
  datatype RevokeOutcome = Revoked(generation: int) | AlreadyRevoked(generation: int) | Unknown | PublishFailed

  // ---- pure parts ---------------------------------------------------------------------------

  predicate KillWellFormed(kill: LiveKill) {
    0 <= kill.epoch <= MAX_SAFE_INTEGER
  }

  /** Enrolled, unrevoked, at exactly this generation. */
  predicate Standing(r: Registry, deviceId: string, generation: int) {
    deviceId in r.devices && r.devices[deviceId].revokedAt.None? && r.devices[deviceId].generation == generation
  }

  function LiveWitness(r: Registry, kill: LiveKill): I.Witness {
    I.Witness(true, kill.killed, kill.epoch, r.bootstrapGeneration, |Active(r.devices)|,
              I.Answers((id, generation) => Standing(r, id, generation)))
  }

  predicate IssuerStands(r: Registry, issuer: Issuer) {
    issuer.ByEnrolled? ==> issuer.deviceId in r.devices && r.devices[issuer.deviceId].revokedAt.None?
  }

  /** The owner comes from the issuer's own record; only the operator states one. */
  function OwnerFor(r: Registry, issuer: Issuer): string
    requires IssuerStands(r, issuer)
  {
    if issuer.ByOperator? then issuer.ownerId else r.devices[issuer.deviceId].ownerId
  }

  function ContractFor(r: Registry, kill: LiveKill, q: MintRequest): I.Contract
    requires IssuerStands(r, q.issuer)
  {
    I.Contract(q.inviteId, q.tokenHash, OwnerFor(r, q.issuer), q.deviceName, q.challenge, q.assertionChallenge,
               kill.epoch,
               if q.issuer.ByOperator? then I.Bootstrap(r.bootstrapGeneration)
               else I.ByDevice(r.devices[q.issuer.deviceId].deviceId, r.devices[q.issuer.deviceId].generation))
  }

  function NewDevice(invite: I.InviteRecord, c: Credential, deviceId: string, now: int): Device {
    Device(deviceId, invite.contract.ownerId, invite.contract.deviceName, c.credentialId, c.publicKeySpki,
           c.cheapLaneKeySpki, c.signCount, c.transports, c.userHandle, 1, None, now)
  }

  /** A credential or cheap-lane key that ever lived here, revoked records included. */
  predicate EverUsed(devices: map<string, Device>, c: Credential) {
    exists id :: id in devices
      && (devices[id].credentialId == c.credentialId || devices[id].cheapLaneKeySpki.text == c.cheapLaneKeySpki.text)
  }

  // ---- each operation on memory and disk ------------------------------------------------------

  /** A publish that refuses without quarantine when it throws: disk still equals memory. */
  function AfterPublish(mem: Option<Registry>, next: Registry, result: SaveResult): Option<Registry> {
    match result
    case Threw => mem
    case Published(durable) => if durable then Some(next) else None
  }

  /** First boot, migration and revocation quarantine on a throw as well. */
  function AfterCriticalPublish(next: Registry, result: SaveResult): Option<Registry> {
    if result == Published(true) then Some(next) else None
  }

  /** One initialize(): the load, and the publish a first boot or a migration makes. */
  datatype Boot = Boot(io: LoadIo, loaded: Load, mid: RegistryDir, draws: map<string, string>, size: nat,
                       result: SaveResult)

  /** What initialize() publishes after this load, if anything. */
  function BootPublishes(b: Boot): Option<Registry> {
    match b.loaded
    case Absent => Some(FirstBoot)
    case LegacyV1(g, devices) =>
      if OwnersOf(devices) <= b.draws.Keys && |OwnersOf(devices)| <= MAX_OWNERS
      then Some(Registry(g, devices, Restricted(b.draws, OwnersOf(devices)))) else None
    case _ => None
  }

  ghost predicate BootSpec(d: RegistryDir, b: Boot, mem': Option<Registry>, d': RegistryDir) {
    && LoadSpec(d, b.io, b.mid, b.loaded)
    && Handles(b.draws) && (b.loaded.LegacyV1? ==> OwnersOf(b.loaded.devices) <= b.draws.Keys)
    && match BootPublishes(b)
       case Some(next) => SaveSpec(b.mid, next, b.size, d', b.result) && mem' == AfterCriticalPublish(next, b.result)
       case None => d' == b.mid && mem' == if b.loaded.Loaded? then Some(b.loaded.registry) else None
  }

  ghost predicate OwnerSpec(
    r: Registry, d: RegistryDir, ownerId: string, userId: string, size: nat, result: SaveResult,
    ok: bool, mem': Option<Registry>, d': RegistryDir)
  {
    if ownerId in r.owners then ok && mem' == Some(r) && d' == d
    else if |r.owners| >= MAX_OWNERS then !ok && mem' == Some(r) && d' == d
    else
      && userId !in r.owners.Values
      && SaveSpec(d, WithOwner(r, ownerId, userId), size, d', result)
      && mem' == AfterPublish(Some(r), WithOwner(r, ownerId, userId), result)
      && ok == (result == Published(true))
  }

  class EnrolledDeviceRegistry {
    const store: EnrolledDeviceFileStore
    const invites: I.InviteStore
    var state: Option<Registry>

    function Directory(): RegistryDir
      reads store.volume
    {
      store.volume.Now()
    }

    constructor (store: EnrolledDeviceFileStore, cfg: I.Config)
      ensures this.store == store && state == None && fresh(invites)
      ensures invites.cfg == cfg && invites.Contents() == I.Empty
    {
      this.store, state := store, None;
      invites := new I.InviteStore(cfg);
    }

    /** A publish without which the registry is not served at all. */
    method PublishCritical(next: Registry, size: nat) returns (ghost result: SaveResult)
      requires Sound(Directory())
      modifies this`state, store.volume
      ensures SaveSpec(old(Directory()), next, size, Directory(), result) && Sound(Directory())
      ensures state == AfterCriticalPublish(next, result)
    {
      var saved := store.Save(next, size);
      result := saved;
      state := AfterCriticalPublish(next, saved);
    }

    method Initialize(draws: map<string, string>, size: nat) returns (ok: bool, ghost b: Boot)
      requires Sound(Directory()) && DrawsCover(Directory(), draws)
      modifies this`state, store.volume
      ensures BootSpec(old(Directory()), b, state, Directory())
      ensures b.draws == draws && ok == state.Some? && Sound(Directory())
    {
      hide SaveSpec, AfterCriticalPublish;
      var loaded, io := store.Load(draws);
      b := Boot(io, loaded, store.volume.Now(), draws, size, Threw);
      state := None;
      match loaded {
        case Corrupt =>
        case Loaded(r) => state := Some(r);
        case Absent =>
          ghost var result := PublishCritical(FirstBoot, size);
          b := b.(result := result);
        case LegacyV1(g, devices) =>
          var named := OwnersOf(devices);
          if |named| <= MAX_OWNERS {
            var owners := MintHandles(devices, {}, draws);
            assert named - {} == named;
            var migrated := Registry(g, devices, owners);
            ghost var result := PublishCritical(migrated, size);
            b := b.(result := result);
          }
      }
      ok := state.Some?;
    }

    method Revoke(id: string, at: int, size: nat) returns (r: RevokeOutcome, ghost result: SaveResult)
      requires Sound(Directory()) && state.Some?
      modifies this`state, store.volume
      ensures var reg := old(state).value;
              if id in reg.devices && reg.devices[id].revokedAt.None? then
                && SaveSpec(old(Directory()), WithRevoked(reg, id, at), size, Directory(), result)
                && state == AfterCriticalPublish(WithRevoked(reg, id, at), result)
                && r == (if state.Some? then Revoked(reg.devices[id].generation + 1) else PublishFailed)
              else
                && state == old(state) && Directory() == old(Directory())
                && r == if id in reg.devices then AlreadyRevoked(reg.devices[id].generation) else Unknown
    {
      result := Threw;
      var reg := state.value;
      if id !in reg.devices {
        return Unknown, result;
      }
      if reg.devices[id].revokedAt != None {
        return AlreadyRevoked(reg.devices[id].generation), result;
      }
      var next := WithRevoked(reg, id, at);
      var saved := store.Save(next, size);
      result := saved;
      if saved != Published(true) {
        state := None;
        return PublishFailed, result;
      }
      state := Some(next);
      r := Revoked(next.devices[id].generation);
    }

    /** `userId` is the CSPRNG's draw, redrawn until no owner holds it. */
    method EnsureOwnerUserId(ownerId: string, userId: string, size: nat) returns (ok: bool, ghost result: SaveResult)
      requires Sound(Directory()) && state.Some? && userId !in state.value.owners.Values
      modifies this`state, store.volume
      ensures OwnerSpec(old(state).value, old(Directory()), ownerId, userId, size, result, ok, state, Directory())
    {
      result := Threw;
      var reg := state.value;
      if ownerId in reg.owners {
        return true, result;
      }
      if |reg.owners| >= MAX_OWNERS {
        return false, result;
      }
      var next := WithOwner(reg, ownerId, userId);
      var saved := store.Save(next, size);
      result := saved;
      if saved.Threw? {
        return false, result;
      }
      if !saved.durable {
        state := None;
        return false, result;
      }
      state := Some(next);
      ok := true;
    }

    method MintInvite(now: int, kill: LiveKill, q: MintRequest, userId: string, size: nat)
      returns (r: I.Outcome, ghost ok: bool, ghost result: SaveResult)
      requires Sound(Directory()) && (state.Some? ==> userId !in state.value.owners.Values)
      modifies this`state, store.volume, invites
      ensures (r, invites.Contents())
              == MintAnswer(invites.cfg, old(invites.Contents()), now, kill, q, old(state), state, ok)
      ensures if MintReachesOwner(old(state), kill, q)
              then OwnerSpec(old(state).value, old(Directory()), OwnerFor(old(state).value, q.issuer), userId, size,
                             result, ok, state, Directory())
              else !ok && state == old(state) && Directory() == old(Directory())
    {
      ok, result := false, Threw;
      if state == None || !KillWellFormed(kill) {
        return I.Refused(false), ok, result;
      }
      var reg := state.value;
      if q.issuer.ByEnrolled?
         && (q.issuer.deviceId !in reg.devices || reg.devices[q.issuer.deviceId].revokedAt != None) {
        return I.Refused(false), ok, result;
      }
      var contract := ContractFor(reg, kill, q);
      var ensured;
      ensured, result := EnsureOwnerUserId(contract.ownerId, userId, size);
      ok := ensured;
      if !ensured {
        return I.Refused(false), ok, result;
      }
      r := invites.Register(now, contract, LiveWitness(state.value, kill));
    }

    method CredentialUsed(devices: map<string, Device>, c: Credential) returns (used: bool)
      ensures used == EverUsed(devices, c)
    {
      var left := devices.Keys;
      while left != {}
        invariant left <= devices.Keys
        invariant forall id :: id in devices.Keys - left ==>
                    && devices[id].credentialId != c.credentialId
                    && devices[id].cheapLaneKeySpki.text != c.cheapLaneKeySpki.text
      {
        var id :| id in left;
        if devices[id].credentialId == c.credentialId || devices[id].cheapLaneKeySpki.text == c.cheapLaneKeySpki.text {
          return true;
        }
        left := left - {id};
      }
      used := false;
    }

    /** Proof chain and burn, duplicate checks, one atomic publish, then memory. */
    method CommitEnrollment(
      now: int, kill: LiveKill, s: I.Submission, c: Credential, deviceId: string, size: nat)
      returns (r: CommitOutcome, ghost result: SaveResult)
      requires Sound(Directory())
      requires state.Some? ==> deviceId !in state.value.devices && deviceId !in FORBIDDEN_IDS
      modifies this`state, store.volume, invites
      ensures CommitSpec(invites.cfg, old(state), old(Directory()), old(invites.Contents()), now, kill, s, c, deviceId,
                         size, result, r, state, Directory(), invites.Contents())
    {
      result := Threw;
      if state == None || !KillWellFormed(kill) {
        return NotCommitted(true), result;
      }
      var reg := state.value;
      var active := CountActive(reg.devices);
      if active >= MAX_ACTIVE_DEVICES {
        return NotCommitted(true), result;
      }
      var outcome := invites.Enrol(now, s, LiveWitness(reg, kill));
      if !outcome.Enrolled? {
        return NotCommitted(outcome == I.Refused(true)), result;
      }
      var used := CredentialUsed(reg.devices, c);
      if used {
        return NotCommitted(false), result;
      }
      var device := NewDevice(outcome.invite, c, deviceId, now);
      var next := WithDevice(reg, device, outcome.invite.contract.origin.Bootstrap?);
      var saved := store.Save(next, size);
      result := saved;
      if saved.Threw? {
        return NotCommitted(false), result;
      }
      if !saved.durable {
        state := None;
        return NotCommitted(false), result;
      }
      state := Some(next);
      r := Committed(device);
    }
  }

  predicate MintReachesOwner(mem: Option<Registry>, kill: LiveKill, q: MintRequest) {
    mem.Some? && KillWellFormed(kill) && IssuerStands(mem.value, q.issuer)
  }

  /** After the owner's handle is durable, register() has the last word. */
  function MintAnswer(
    cfg: I.Config, l: I.Ledger, now: int, kill: LiveKill, q: MintRequest, mem: Option<Registry>,
    mem': Option<Registry>, ok: bool): (I.Outcome, I.Ledger)
  {
    if ok && mem'.Some? && MintReachesOwner(mem, kill, q) then
      var (l', r) := I.DoRegister(cfg, l, now, ContractFor(mem.value, kill, q), LiveWitness(mem'.value, kill));
      (r, l')
    else (I.Refused(false), l)
  }

  ghost predicate CommitSpec(
    cfg: I.Config, mem: Option<Registry>, d: RegistryDir, l: I.Ledger, now: int, kill: LiveKill, s: I.Submission,
    c: Credential, deviceId: string, size: nat, result: SaveResult,
    r: CommitOutcome, mem': Option<Registry>, d': RegistryDir, l': I.Ledger)
  {
    if mem == None || !KillWellFormed(kill) || |Active(mem.value.devices)| >= MAX_ACTIVE_DEVICES then
      r == NotCommitted(true) && mem' == mem && d' == d && l' == l
    else
      var (spent, outcome) := I.PerformEnrollment(cfg, l, now, s, LiveWitness(mem.value, kill));
      && l' == spent
      && if !outcome.Enrolled? then
           r == NotCommitted(outcome == I.Refused(true)) && mem' == mem && d' == d
         else if EverUsed(mem.value.devices, c) then
           r == NotCommitted(false) && mem' == mem && d' == d
         else
           var device := NewDevice(outcome.invite, c, deviceId, now);
           var next := WithDevice(mem.value, device, outcome.invite.contract.origin.Bootstrap?);
           && SaveSpec(d, next, size, d', result)
           && mem' == AfterPublish(mem, next, result)
           && r == if result == Published(true) then Committed(device) else NotCommitted(false)
  }
}
