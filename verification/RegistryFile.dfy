/**
 * The enrolled-device registry document, the strict check its loader runs,
 * and what each kind of update makes of an accepted document.
 */
module RegistryFile {
  import opened Wrappers
  import Base64Url

  const MAX_SAFE_INTEGER: int := 0x1F_FFFF_FFFF_FFFF
  const MAX_ACTIVE_DEVICES: nat := 64
  const MAX_OWNERS: nat := 128
  const FORBIDDEN_IDS: set<string> := {"__proto__", "constructor", "prototype"}

  /** A stored public key; `p256` says the strict SPKI parser accepts its text. */
  datatype Spki = Spki(text: string, p256: bool)

  datatype Device = Device(
    deviceId: string,
    ownerId: string,
    deviceName: string,
    credentialId: string,
    publicKeySpki: Spki,
    cheapLaneKeySpki: Spki,
    signCount: int,
    transports: Option<seq<string>>,
    userHandle: Option<string>,
    generation: int,
    revokedAt: Option<int>,
    enrolledAt: int)

  /** Version 2. `owners` maps each owner to its opaque WebAuthn user handle. */
  datatype Registry = Registry(bootstrapGeneration: int, devices: map<string, Device>, owners: map<string, string>)

  /** Parsed JSON: version 2, version 1 (no owners), or anything else. */
  datatype Text = V2(registry: Registry) | V1(bootstrapGeneration: int, devices: map<string, Device>) | OtherText

  // ---- what the loader accepts --------------------------------------------------------

  predicate DeviceOk(id: string, d: Device) {
    && 1 <= |id| <= 128 && id !in FORBIDDEN_IDS && d.deviceId == id
    && 1 <= |d.ownerId| <= 256
    && 1 <= |d.deviceName| <= 200
    && Base64Url.CanonicalWithin(d.credentialId, 1, 1024)
    && d.publicKeySpki.p256 && d.cheapLaneKeySpki.p256
    && 0 <= d.signCount <= MAX_SAFE_INTEGER
    && (d.transports.Some? ==>
          && |d.transports.value| <= 8
          && forall i :: 0 <= i < |d.transports.value| ==> 1 <= |d.transports.value[i]| <= 32)
    && (d.userHandle.Some? ==> Base64Url.CanonicalWithin(d.userHandle.value, 1, 64))
    && 1 <= d.generation <= MAX_SAFE_INTEGER
  }

  predicate OwnerOk(ownerId: string, userId: string) {
    1 <= |ownerId| <= 256 && ownerId !in FORBIDDEN_IDS && Base64Url.CanonicalWithin(userId, 16, 64)
  }

  /** One credential, one cheap-lane key, one device: revoked records included. */
  ghost predicate DistinctCredentials(devices: map<string, Device>) {
    forall a, b :: a in devices && b in devices && a != b ==>
      && devices[a].credentialId != devices[b].credentialId
      && devices[a].cheapLaneKeySpki.text != devices[b].cheapLaneKeySpki.text
  }

  function Active(devices: map<string, Device>): set<string> {
    set id | id in devices && devices[id].revokedAt.None?
  }

  ghost predicate DevicesOk(bootstrapGeneration: int, devices: map<string, Device>) {
    && 1 <= bootstrapGeneration <= MAX_SAFE_INTEGER
    && AllDevicesOk(devices)
    && DistinctCredentials(devices)
    && |Active(devices)| <= MAX_ACTIVE_DEVICES
  }

  ghost predicate OwnersOk(owners: map<string, string>, maxOwners: nat) {
    && (forall o :: o in owners ==> OwnerOk(o, owners[o]))
    && (forall a, b :: a in owners && b in owners && a != b ==> owners[a] != owners[b])
    && |owners| <= maxOwners
  }

  /** Every device's owner holds a handle. */
  predicate Covered(devices: map<string, Device>, owners: map<string, string>) {
    forall id :: id in devices ==> devices[id].ownerId in owners
  }

  ghost predicate Acceptable(r: Registry, maxOwners: nat := MAX_OWNERS) {
    DevicesOk(r.bootstrapGeneration, r.devices) && OwnersOk(r.owners, maxOwners) && Covered(r.devices, r.owners)
  }

  // ---- the validator, as the loader runs it ----------------------------------------------

  method AsPersistedEnrolledDevices(r: Registry, maxOwners: nat) returns (ok: bool)
    ensures ok <==> Acceptable(r, maxOwners)
  {
    if r.bootstrapGeneration < 1 || r.bootstrapGeneration > MAX_SAFE_INTEGER {
      return false;
    }
    ok := CheckDevices(r.devices);
    if !ok {
      return false;
    }
    var active := CountActive(r.devices);
    if active > MAX_ACTIVE_DEVICES {
      return false;
    }
    ok := CheckOwners(r.owners);
    if !ok || |r.owners| > maxOwners {
      return false;
    }
    return Covered(r.devices, r.owners);
  }

  function CredentialsOf(devices: map<string, Device>, ids: set<string>): set<string>
    requires ids <= devices.Keys
  {
    set id | id in ids :: devices[id].credentialId
  }

  function CheapLaneKeysOf(devices: map<string, Device>, ids: set<string>): set<string>
    requires ids <= devices.Keys
  {
    set id | id in ids :: devices[id].cheapLaneKeySpki.text
  }

  ghost predicate DistinctOn(devices: map<string, Device>, ids: set<string>)
    requires ids <= devices.Keys
  {
    forall a, b :: a in ids && b in ids && a != b ==>
      && devices[a].credentialId != devices[b].credentialId
      && devices[a].cheapLaneKeySpki.text != devices[b].cheapLaneKeySpki.text
  }

  /** One more record is distinct from those seen exactly when its two keys were not seen. */
  lemma DistinctGrows(devices: map<string, Device>, seen: set<string>, id: string)
    requires seen <= devices.Keys && id in devices && id !in seen && DistinctOn(devices, seen)
    ensures DistinctOn(devices, seen + {id})
            <==> && devices[id].credentialId !in CredentialsOf(devices, seen)
                 && devices[id].cheapLaneKeySpki.text !in CheapLaneKeysOf(devices, seen)
    ensures CredentialsOf(devices, seen + {id}) == CredentialsOf(devices, seen) + {devices[id].credentialId}
    ensures CheapLaneKeysOf(devices, seen + {id})
            == CheapLaneKeysOf(devices, seen) + {devices[id].cheapLaneKeySpki.text}
  {
    if DistinctOn(devices, seen + {id}) {
      forall x | x in seen
        ensures devices[x].credentialId != devices[id].credentialId
        ensures devices[x].cheapLaneKeySpki.text != devices[id].cheapLaneKeySpki.text
      {
        assert x in seen + {id} && id in seen + {id};
      }
    }
  }

  method CheckDevices(devices: map<string, Device>) returns (ok: bool)
    ensures ok <==> (forall id :: id in devices ==> DeviceOk(id, devices[id])) && DistinctCredentials(devices)
  {
    hide DeviceOk;
    var seenCredentials: set<string> := {};
    var seenCheapLaneKeys: set<string> := {};
    var left := devices.Keys;
    while left != {}
      invariant left <= devices.Keys
      invariant forall id :: id in devices.Keys - left ==> DeviceOk(id, devices[id])
      invariant seenCredentials == CredentialsOf(devices, devices.Keys - left)
      invariant seenCheapLaneKeys == CheapLaneKeysOf(devices, devices.Keys - left)
      invariant DistinctOn(devices, devices.Keys - left)
    {
      var id :| id in left;
      var d := devices[id];
      if !DeviceOk(id, d) {
        return false;
      }
      if d.credentialId in seenCredentials || d.cheapLaneKeySpki.text in seenCheapLaneKeys {
        return false;
      }
      DistinctGrows(devices, devices.Keys - left, id);
      assert devices.Keys - (left - {id}) == devices.Keys - left + {id};
      seenCredentials := seenCredentials + {d.credentialId};
      seenCheapLaneKeys := seenCheapLaneKeys + {d.cheapLaneKeySpki.text};
      left := left - {id};
    }
    return true;
  }

  method CountActive(devices: map<string, Device>) returns (active: nat)
    ensures active == |Active(devices)|
  {
    active := 0;
    var left := devices.Keys;
    ghost var counted: set<string> := {};
    while left != {}
      invariant left <= devices.Keys
      invariant counted == set id | id in devices.Keys - left && devices[id].revokedAt.None?
      invariant active == |counted|
    {
      var id :| id in left;
      if devices[id].revokedAt == None {
        active := active + 1;
        counted := counted + {id};
      }
      left := left - {id};
    }
    assert counted == Active(devices);
  }

  method CheckOwners(owners: map<string, string>) returns (ok: bool)
    ensures ok <==> OwnersOk(owners, |owners|)
  {
    var seenUserIds: set<string> := {};
    var left := owners.Keys;
    while left != {}
      invariant left <= owners.Keys
      invariant forall o :: o in owners.Keys - left ==> OwnerOk(o, owners[o])
      invariant seenUserIds == set o | o in owners.Keys - left :: owners[o]
      invariant forall a, b :: a in owners.Keys - left && b in owners.Keys - left && a != b ==> owners[a] != owners[b]
    {
      var o :| o in left;
      if !OwnerOk(o, owners[o]) || owners[o] in seenUserIds {
        return false;
      }
      seenUserIds := seenUserIds + {owners[o]};
      left := left - {o};
    }
    return true;
  }

  // ---- version 1 -----------------------------------------------------------------------------

  function OwnersOf(devices: map<string, Device>): set<string> {
    set id | id in devices :: devices[id].ownerId
  }

  /** Version 1 is accepted when some table of owner handles would complete it. */
  ghost predicate LegacyAcceptable(bootstrapGeneration: int, devices: map<string, Device>) {
    DevicesOk(bootstrapGeneration, devices) && OwnersOf(devices) !! FORBIDDEN_IDS
  }

  /** Opaque handles drawn for owners: canonical, 16 to 64 bytes, and never repeated. */
  ghost predicate Handles(draws: map<string, string>) {
    && (forall o :: o in draws ==> Base64Url.CanonicalWithin(draws[o], 16, 64))
    && forall a, b :: a in draws && b in draws && a != b ==> draws[a] != draws[b]
  }

  function Restricted(draws: map<string, string>, owners: set<string>): map<string, string>
    requires owners <= draws.Keys
  {
    map o | o in owners :: draws[o]
  }

  /** The owners table a loop over the devices builds: one handle per named owner. */
  method MintHandles(devices: map<string, Device>, skip: set<string>, draws: map<string, string>)
    returns (owners: map<string, string>)
    requires OwnersOf(devices) <= draws.Keys
    ensures owners == Restricted(draws, OwnersOf(devices) - skip)
  {
    owners := map[];
    var left := devices.Keys;
    ghost var named: set<string> := {};
    while left != {}
      invariant left <= devices.Keys
      invariant named == (set id | id in devices.Keys - left :: devices[id].ownerId)
      invariant owners == Restricted(draws, named - skip)
    {
      var id :| id in left;
      var o := devices[id].ownerId;
      assert o in OwnersOf(devices);
      if o !in owners && o !in skip {
        owners := owners[o := draws[o]];
      }
      named := named + {o};
      left := left - {id};
    }
    assert named == OwnersOf(devices);
  }

  lemma HandlesFit(devices: map<string, Device>, owners: set<string>, draws: map<string, string>)
    requires Handles(draws) && owners <= draws.Keys && owners <= OwnersOf(devices) && owners !! FORBIDDEN_IDS
    requires forall id :: id in devices ==> DeviceOk(id, devices[id])
    ensures OwnersOk(Restricted(draws, owners), |owners|)
  {
    var table := Restricted(draws, owners);
    assert table.Keys == owners && |table| == |table.Keys|;
    forall o | o in table
      ensures OwnerOk(o, table[o])
    {
      var id :| id in devices && devices[id].ownerId == o;
      assert DeviceOk(id, devices[id]);
    }
  }

  /**
   * asLegacyV1 completes the document with placeholder handles and asks the
   * version 2 validator; forbidden owners get none, so their devices refuse.
   */
  method AsLegacyV1(bootstrapGeneration: int, devices: map<string, Device>, draws: map<string, string>)
    returns (ok: bool)
    requires Handles(draws) && OwnersOf(devices) <= draws.Keys
    ensures ok <==> LegacyAcceptable(bootstrapGeneration, devices)
  {
    var synthetic := MintHandles(devices, FORBIDDEN_IDS, draws);
    ok := AsPersistedEnrolledDevices(Registry(bootstrapGeneration, devices, synthetic), |synthetic|);
    assert synthetic.Keys == OwnersOf(devices) - FORBIDDEN_IDS;
    assert |synthetic| == |synthetic.Keys|;
    if LegacyAcceptable(bootstrapGeneration, devices) {
      HandlesFit(devices, OwnersOf(devices) - FORBIDDEN_IDS, draws);
    }
    if ok {
      forall o | o in OwnersOf(devices)
        ensures o !in FORBIDDEN_IDS
      {
      }
    }
  }

  /** Version 1 is accepted exactly when some owners table makes it an accepted version 2. */
  lemma LegacyMeansCompletable(bootstrapGeneration: int, devices: map<string, Device>, draws: map<string, string>)
    requires Handles(draws) && OwnersOf(devices) <= draws.Keys
    ensures LegacyAcceptable(bootstrapGeneration, devices) <==>
              exists owners: map<string, string> :: Acceptable(Registry(bootstrapGeneration, devices, owners), |owners|)
  {
    if LegacyAcceptable(bootstrapGeneration, devices) {
      HandlesFit(devices, OwnersOf(devices), draws);
      var owners := Restricted(draws, OwnersOf(devices));
      assert |owners| == |owners.Keys|;
      assert Acceptable(Registry(bootstrapGeneration, devices, owners), |owners|);
    }
    if owners: map<string, string> :| Acceptable(Registry(bootstrapGeneration, devices, owners), |owners|) {
      forall o | o in OwnersOf(devices)
        ensures o !in FORBIDDEN_IDS
      {
        assert o in owners && OwnerOk(o, owners[o]);
      }
    }
  }

  /** Migration yields an accepted registry exactly when the owners fit the ceiling. */
  lemma MigrationAccepted(bootstrapGeneration: int, devices: map<string, Device>, draws: map<string, string>)
    requires LegacyAcceptable(bootstrapGeneration, devices) && Handles(draws) && OwnersOf(devices) <= draws.Keys
    ensures Acceptable(Registry(bootstrapGeneration, devices, Restricted(draws, OwnersOf(devices))))
            <==> |OwnersOf(devices)| <= MAX_OWNERS
  {
    HandlesFit(devices, OwnersOf(devices), draws);
    var owners := Restricted(draws, OwnersOf(devices));
    assert owners.Keys == OwnersOf(devices) && |owners| == |owners.Keys|;
  }

  // ---- updates --------------------------------------------------------------------------------

  const FirstBoot: Registry := Registry(1, map[], map[])

  function RevokedDevice(d: Device, at: int): Device {
    d.(revokedAt := Some(at), generation := d.generation + 1)
  }

  function WithRevoked(r: Registry, id: string, at: int): Registry
    requires id in r.devices
  {
    r.(devices := r.devices[id := RevokedDevice(r.devices[id], at)])
  }

  function WithOwner(r: Registry, ownerId: string, userId: string): Registry {
    r.(owners := r.owners[ownerId := userId])
  }

  function WithDevice(r: Registry, d: Device, bootstrap: bool): Registry {
    r.(devices := r.devices[d.deviceId := d],
       bootstrapGeneration := if bootstrap then r.bootstrapGeneration + 1 else r.bootstrapGeneration)
  }

  lemma FirstBootAccepted()
    ensures Acceptable(FirstBoot)
  {
    assert Active(FirstBoot.devices) == {};
  }

  predicate AllDevicesOk(devices: map<string, Device>) {
    forall id :: id in devices ==> DeviceOk(id, devices[id])
  }

  /** Replacing a record by one with the same credentials keeps credentials distinct. */
  lemma ReplacedStaysDistinct(devices: map<string, Device>, id: string, d: Device)
    requires DistinctCredentials(devices) && id in devices
    requires d.credentialId == devices[id].credentialId && d.cheapLaneKeySpki == devices[id].cheapLaneKeySpki
    ensures DistinctCredentials(devices[id := d])
  {
  }

  lemma AddedStaysDistinct(devices: map<string, Device>, id: string, d: Device)
    requires DistinctCredentials(devices) && id !in devices
    requires forall x :: x in devices ==>
               devices[x].credentialId != d.credentialId && devices[x].cheapLaneKeySpki.text != d.cheapLaneKeySpki.text
    ensures DistinctCredentials(devices[id := d])
  {
  }

  lemma UpdatedDevicesOk(devices: map<string, Device>, id: string, d: Device)
    requires AllDevicesOk(devices)
    ensures AllDevicesOk(devices[id := d]) <==> DeviceOk(id, d)
  {
    assert devices[id := d][id] == d;
  }

  lemma RevokedDeviceOk(id: string, d: Device, at: int)
    requires DeviceOk(id, d)
    ensures DeviceOk(id, RevokedDevice(d, at)) <==> d.generation < MAX_SAFE_INTEGER
  {
  }

  /** A revocation is publishable until the generation runs out of safe integers. */
  lemma RevokeAccepted(r: Registry, id: string, at: int)
    requires Acceptable(r) && id in r.devices && r.devices[id].revokedAt.None?
    ensures Acceptable(WithRevoked(r, id, at)) <==> r.devices[id].generation < MAX_SAFE_INTEGER
    ensures Active(WithRevoked(r, id, at).devices) == Active(r.devices) - {id}
  {
    var d := RevokedDevice(r.devices[id], at);
    var r' := WithRevoked(r, id, at);
    assert Active(r'.devices) == Active(r.devices) - {id};
    ReplacedStaysDistinct(r.devices, id, d);
    UpdatedDevicesOk(r.devices, id, d);
    RevokedDeviceOk(id, r.devices[id], at);
    assert DevicesOk(r'.bootstrapGeneration, r'.devices) <==> AllDevicesOk(r'.devices);
  }

  lemma AddedOwnerOk(owners: map<string, string>, ownerId: string, userId: string)
    requires OwnersOk(owners, MAX_OWNERS) && ownerId !in owners && userId !in owners.Values
    ensures OwnersOk(owners[ownerId := userId], MAX_OWNERS) <==> |owners| < MAX_OWNERS && OwnerOk(ownerId, userId)
  {
    var owners' := owners[ownerId := userId];
    assert owners'.Keys == owners.Keys + {ownerId};
    assert |owners'| == |owners'.Keys| && |owners| == |owners.Keys|;
    assert owners'[ownerId] == userId;
    forall a | a in owners
      ensures owners'[a] == owners[a] && owners[a] != userId
    {
      assert owners[a] in owners.Values;
    }
  }

  /** A new owner's handle is publishable exactly for a well-named owner under the ceiling. */
  lemma OwnerAccepted(r: Registry, ownerId: string, userId: string)
    requires Acceptable(r) && ownerId !in r.owners && userId !in r.owners.Values
    requires Base64Url.CanonicalWithin(userId, 16, 64)
    ensures Acceptable(WithOwner(r, ownerId, userId))
            <==> |r.owners| < MAX_OWNERS && 1 <= |ownerId| <= 256 && ownerId !in FORBIDDEN_IDS
  {
    AddedOwnerOk(r.owners, ownerId, userId);
    assert Covered(r.devices, WithOwner(r, ownerId, userId).owners);
  }

  /** What the admit path has checked of the device it is about to publish. */
  predicate Admissible(r: Registry, d: Device) {
    && DeviceOk(d.deviceId, d) && d.deviceId !in r.devices
    && d.revokedAt.None?
    && (forall id :: id in r.devices ==>
          && r.devices[id].credentialId != d.credentialId
          && r.devices[id].cheapLaneKeySpki.text != d.cheapLaneKeySpki.text)
    && |Active(r.devices)| < MAX_ACTIVE_DEVICES
  }

  lemma AddedCovers(devices: map<string, Device>, owners: map<string, string>, d: Device)
    requires Covered(devices, owners) && d.deviceId !in devices
    ensures Covered(devices[d.deviceId := d], owners) <==> d.ownerId in owners
  {
    assert devices[d.deviceId := d][d.deviceId] == d;
  }

  lemma AdmitDevicesOk(r: Registry, d: Device, bootstrap: bool)
    requires Acceptable(r) && Admissible(r, d)
    ensures var r' := WithDevice(r, d, bootstrap);
            DevicesOk(r'.bootstrapGeneration, r'.devices) <==> r'.bootstrapGeneration <= MAX_SAFE_INTEGER
  {
    hide DeviceOk, DistinctCredentials, OwnersOk;
    var r' := WithDevice(r, d, bootstrap);
    assert Active(r'.devices) == Active(r.devices) + {d.deviceId};
    AddedStaysDistinct(r.devices, d.deviceId, d);
    UpdatedDevicesOk(r.devices, d.deviceId, d);
  }

  /** An admit is publishable exactly when its owner already holds a handle. */
  lemma AdmitAccepted(r: Registry, d: Device, bootstrap: bool)
    requires Acceptable(r) && Admissible(r, d)
    ensures Acceptable(WithDevice(r, d, bootstrap))
            <==> d.ownerId in r.owners && (bootstrap ==> r.bootstrapGeneration < MAX_SAFE_INTEGER)
  {
    AdmitDevicesOk(r, d, bootstrap);
    AddedCovers(r.devices, r.owners, d);
  }

  // ---- growth ---------------------------------------------------------------------------------

  /** A record as it may look later: the same device, perhaps revoked since, never un-revoked. */
  predicate DeviceGrows(d: Device, d': Device) {
    d' == d
    || (&& d.revokedAt.None? && d'.revokedAt.Some? && d'.generation == d.generation + 1
        && d' == d.(revokedAt := d'.revokedAt, generation := d'.generation))
  }

  /** Nothing is forgotten: devices, revocations, the bootstrap generation, owner handles. */
  predicate Grows(r: Registry, r': Registry) {
    && r.bootstrapGeneration <= r'.bootstrapGeneration
    && (forall id :: id in r.devices ==> id in r'.devices && DeviceGrows(r.devices[id], r'.devices[id]))
    && (forall o :: o in r.owners ==> o in r'.owners && r'.owners[o] == r.owners[o])
  }

  lemma GrowsTransitive(a: Registry, b: Registry, c: Registry)
    requires Grows(a, b) && Grows(b, c)
    ensures Grows(a, c)
  {
    forall id | id in a.devices
      ensures id in c.devices && DeviceGrows(a.devices[id], c.devices[id])
    {
      assert DeviceGrows(a.devices[id], b.devices[id]) && DeviceGrows(b.devices[id], c.devices[id]);
    }
  }
}
