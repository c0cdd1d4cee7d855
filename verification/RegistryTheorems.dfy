/**
 * The registry over whole runs: any I/O failures, in-process recoveries,
 * process crashes and power cuts, at any point of any operation.
 */
module RegistryTheorems {
  import opened Wrappers
  import opened Disk
  import opened RegistryFile
  import opened RegistryStore
  import opened DeviceRegistry
  import I = Invites

  /** A process (or its corpse): memory, directory, and the invites it holds. */
  datatype World = World(mem: Option<Registry>, dir: RegistryDir, invites: I.Ledger)

  datatype Step =
    | Initialize(boot: Boot)
    | Revoke(id: string, revokedAt: int, size: nat, result: SaveResult)
    | Mint(now: int, kill: LiveKill, request: MintRequest, userId: string, size: nat, result: SaveResult, ok: bool)
    | Commit(when: int, live: LiveKill, submission: I.Submission, credential: Credential, deviceId: string,
             bytes: nat, saved: SaveResult, outcome: CommitOutcome)
    | SweepInvites(epoch: int)
    | Crash(boots: Option<Boot>, next: Option<Registry>, length: nat, point: RegistryDir, powerCut: bool)

  /** A registry some operation of this process may be publishing when it dies. */
  ghost predicate Publishing(r: Registry, next: Registry) {
    || (exists id: string, at: int ::
          id in r.devices && r.devices[id].revokedAt.None? && next == WithRevoked(r, id, at))
    || (exists o: string, u: string :: o !in r.owners && u !in r.owners.Values && next == WithOwner(r, o, u))
    || (exists d: Device, boot: bool :: d.deviceId !in r.devices && next == WithDevice(r, d, boot))
  }

  /** Any directory a crash inside one operation may leave. */
  ghost predicate CrashPoint(w: World, boots: Option<Boot>, next: Option<Registry>, size: nat, p: RegistryDir) {
    match boots
    case Some(b) =>
      && LoadSpec(w.dir, b.io, b.mid, b.loaded) && Handles(b.draws)
      && (b.loaded.LegacyV1? ==> OwnersOf(b.loaded.devices) <= b.draws.Keys)
      && (|| LoadPoint(w.dir, p)
          || (next.Some? && BootPublishes(b) == next && SavePoint(b.mid, next.value, size, p)))
    case None =>
      || LoadPoint(w.dir, p)
      || (w.mem.Some? && next.Some? && Publishing(w.mem.value, next.value) && SavePoint(w.dir, next.value, size, p))
  }

  ghost predicate RevokeStep(w: World, id: string, at: int, size: nat, result: SaveResult, w': World) {
    && w.mem.Some? && id in w.mem.value.devices && w.mem.value.devices[id].revokedAt.None?
    && SaveSpec(w.dir, WithRevoked(w.mem.value, id, at), size, w'.dir, result)
    && w' == World(AfterCriticalPublish(WithRevoked(w.mem.value, id, at), result), w'.dir, w.invites)
  }

  ghost predicate MintStep(cfg: I.Config, w: World, step: Step, w': World)
    requires step.Mint?
  {
    && MintReachesOwner(w.mem, step.kill, step.request)
    && OwnerSpec(w.mem.value, w.dir, OwnerFor(w.mem.value, step.request.issuer), step.userId, step.size, step.result,
                 step.ok, w'.mem, w'.dir)
    && w'.invites == MintAnswer(cfg, w.invites, step.now, step.kill, step.request, w.mem, w'.mem, step.ok).1
  }

  ghost predicate CommitStep(cfg: I.Config, w: World, step: Step, w': World)
    requires step.Commit?
  {
    && (w.mem.Some? ==> step.deviceId !in w.mem.value.devices)
    && CommitSpec(cfg, w.mem, w.dir, w.invites, step.when, step.live, step.submission, step.credential,
                  step.deviceId, step.bytes, step.saved, step.outcome, w'.mem, w'.dir, w'.invites)
  }

  ghost predicate Next(cfg: I.Config, w: World, step: Step, w': World) {
    match step
    case Initialize(b) => BootSpec(w.dir, b, w'.mem, w'.dir) && w'.invites == w.invites
    case Revoke(id, at, size, result) => RevokeStep(w, id, at, size, result, w')
    case Mint(_, _, _, _, _, _, _) => MintStep(cfg, w, step, w')
    case Commit(_, _, _, _, _, _, _, _) => CommitStep(cfg, w, step, w')
    case SweepInvites(epoch) => w' == w.(invites := I.Invalidated(w.invites, epoch))
    case Crash(boots, next, size, p, powerCut) =>
      && CrashPoint(w, boots, next, size, p)
      && w'.mem == None && w'.invites == I.Empty
      && if powerCut then Cut(p, w'.dir) else w'.dir == p
  }

  ghost predicate Run(cfg: I.Config, ws: seq<World>, steps: seq<Step>) {
    && |ws| == |steps| + 1
    && ws[0].mem == None && ws[0].invites == I.Empty && Sound(ws[0].dir)
    && forall i :: 0 <= i < |steps| ==> Next(cfg, ws[i], steps[i], ws[i + 1])
  }

  // ---- memory equals the disk --------------------------------------------------------------------

  /** The file that backs a usable registry: durable, complete, and parsing to memory. */
  ghost predicate Backs(d: RegistryDir, r: Registry) {
    Proven(d) && ReadText(d.state.visible.value) == Loaded(r)
  }

  ghost predicate MemoryBacked(w: World) {
    Sound(w.dir) && (w.mem.Some? ==> Backs(w.dir, w.mem.value))
  }

  lemma PublishedIsBacked(d: RegistryDir, r: Registry, size: nat, d': RegistryDir)
    requires SaveSpec(d, r, size, d', Published(true))
    ensures Backs(d', r)
  {
  }

  /** A publish that threw leaves a proven directory exactly as it was. */
  lemma ThrownKeepsBacking(d: RegistryDir, mem: Registry, r: Registry, size: nat, d': RegistryDir)
    requires Backs(d, mem) && SaveSpec(d, r, size, d', Threw)
    ensures d' == d
  {
    assert d.state.survivors == {d.state.visible} && d.marker.survivors == {d.marker.visible};
    assert d'.state.visible in d'.state.survivors && d'.marker.visible in d'.marker.survivors;
  }

  lemma StepKeepsBacking(cfg: I.Config, w: World, step: Step, w': World)
    requires MemoryBacked(w) && Next(cfg, w, step, w')
    ensures MemoryBacked(w')
  {
    match step {
      case Initialize(b) => BootBacks(w.dir, b, w'.mem, w'.dir);
      case Revoke(id, at, size, result) =>
        PublishBacks(w.mem, w.dir, WithRevoked(w.mem.value, id, at), size, result, w'.dir);
      case Mint(_, _, q, userId, size, result, _) =>
        if OwnerFor(w.mem.value, q.issuer) !in w.mem.value.owners && |w.mem.value.owners| < MAX_OWNERS {
          PublishBacks(w.mem, w.dir, WithOwner(w.mem.value, OwnerFor(w.mem.value, q.issuer), userId), size, result,
                       w'.dir);
        }
      case Commit(_, _, _, _, _, _, _, _) => CommitBacks(cfg, w, step, w');
      case SweepInvites(_) =>
      case Crash(boots, next, size, p, powerCut) =>
    }
  }

  lemma PublishBacks(
    mem: Option<Registry>, d: RegistryDir, next: Registry, size: nat, result: SaveResult, d': RegistryDir)
    requires mem.Some? && Backs(d, mem.value) && SaveSpec(d, next, size, d', result)
    ensures Sound(d')
    ensures result == Threw ==> Backs(d', mem.value)
    ensures result == Published(true) ==> Backs(d', next)
  {
    if result == Threw {
      ThrownKeepsBacking(d, mem.value, next, size, d');
    } else if result == Published(true) {
      PublishedIsBacked(d, next, size, d');
    }
  }

  lemma BootBacks(d: RegistryDir, b: Boot, mem': Option<Registry>, d': RegistryDir)
    requires BootSpec(d, b, mem', d')
    ensures Sound(d') && (mem'.Some? ==> Backs(d', mem'.value))
  {
    match BootPublishes(b)
    case Some(next) =>
      if b.result == Published(true) {
        PublishedIsBacked(b.mid, next, b.size, d');
      }
    case None =>
  }

  lemma CommitBacks(cfg: I.Config, w: World, step: Step, w': World)
    requires MemoryBacked(w) && step.Commit? && CommitStep(cfg, w, step, w')
    ensures MemoryBacked(w')
  {
    if w'.dir != w.dir || w'.mem != w.mem {
      var outcome := I.PerformEnrollment(cfg, w.invites, step.when, step.submission,
                                         LiveWitness(w.mem.value, step.live)).1;
      var device := NewDevice(outcome.invite, step.credential, step.deviceId, step.when);
      var next := WithDevice(w.mem.value, device, outcome.invite.contract.origin.Bootstrap?);
      PublishBacks(w.mem, w.dir, next, step.bytes, step.saved, w'.dir);
    }
  }

  lemma {:induction false} RunKeepsBacking(cfg: I.Config, ws: seq<World>, steps: seq<Step>, i: nat)
    requires Run(cfg, ws, steps) && i < |ws|
    ensures MemoryBacked(ws[i])
  {
    if i > 0 {
      RunKeepsBacking(cfg, ws, steps, i - 1);
      StepKeepsBacking(cfg, ws[i - 1], steps[i - 1], ws[i]);
    }
  }

  /**
   * A usable registry is exactly what a power cut leaves: the next load
   * returns memory if and only if its own calls succeed and the marker it
   * finds is ours, and refuses otherwise; and if the marker's bytes were
   * fsynced, the cut changes nothing at all, so the marker is ours.
   */
  lemma UsableMeansDurable(
    cfg: I.Config, ws: seq<World>, steps: seq<Step>, i: nat, q: RegistryDir, io: LoadIo)
    requires Run(cfg, ws, steps) && i < |ws| && ws[i].mem.Some? && Cut(ws[i].dir, q)
    ensures Acceptable(ws[i].mem.value)
    ensures LoadOf(q, io)
            == if Answered(io) && OurMarker(q.marker.visible) then Loaded(ws[i].mem.value) else Corrupt
    ensures var m := ws[i].dir.marker.visible;
            m.Some? && (m.value.synced ==> q == ws[i].dir && OurMarker(q.marker.visible))
  {
    RunKeepsBacking(cfg, ws, steps, i);
    CutOfProven(ws[i].dir, q);
  }

  /** What a power cut may do to a marker whose bytes were never fsynced. */
  function WithOtherBytes(d: RegistryDir): RegistryDir {
    var m := Some(File(OtherBytes, 1, 1, true));
    Dir(d.state, Entry(m, {m}))
  }

  /**
   * A usable registry comes back after every power cut, its load's calls
   * succeeding, if and only if the marker's own bytes were fsynced.
   */
  lemma ComesBackExactly(cfg: I.Config, ws: seq<World>, steps: seq<Step>, i: nat)
    requires Run(cfg, ws, steps) && i < |ws| && ws[i].mem.Some?
    ensures ws[i].dir.marker.visible.Some?
    ensures (forall q: RegistryDir :: Cut(ws[i].dir, q) ==> OurMarker(q.marker.visible))
            <==> ws[i].dir.marker.visible.value.synced
    ensures (forall q: RegistryDir, io: LoadIo :: Cut(ws[i].dir, q) && Answered(io) ==>
               LoadOf(q, io) == Loaded(ws[i].mem.value))
            <==> ws[i].dir.marker.visible.value.synced
  {
    var d := ws[i].dir;
    RunKeepsBacking(cfg, ws, steps, i);
    if d.marker.visible.value.synced {
      forall q: RegistryDir, io: LoadIo | Cut(d, q) && Answered(io)
        ensures OurMarker(q.marker.visible) && LoadOf(q, io) == Loaded(ws[i].mem.value)
      {
        UsableMeansDurable(cfg, ws, steps, i, q, io);
      }
      forall q: RegistryDir | Cut(d, q)
        ensures OurMarker(q.marker.visible)
      {
        CutOfProven(d, q);
      }
    } else {
      var q := WithOtherBytes(d);
      assert Cut(d, q) by {
        assert Recovered(d.state.visible, q.state.visible) && Recovered(d.marker.visible, q.marker.visible);
      }
      assert !OurMarker(q.marker.visible);
      assert LoadOf(q, LoadIo(true, true, true, true, true, true)) == Corrupt;
    }
  }

  const Good: LoadIo := LoadIo(true, true, true, true, true, true)

  function MarkerFile(synced: bool): Option<File<Note>> {
    Some(File(OurNote, MARKER_NOTE_BYTES, MARKER_NOTE_BYTES, synced))
  }

  function StateFile(): Option<File<Text>> {
    Some(FileOf(FirstBoot, 100))
  }

  const NoFiles: RegistryDir := Dir(Entry(None, {None}), Entry(None, {None}))
  const StateOnly: RegistryDir := Dir(Entry(StateFile(), {StateFile()}), Entry(None, {None}))

  /** The first boot's publish, cut before the directory's fsync: the marker's name is lost, the state's is not. */
  lemma FirstBootCut(cfg: I.Config) returns (step: Step)
    ensures step.Crash? && step.powerCut
    ensures Next(cfg, World(None, NoFiles, I.Empty), step, World(None, StateOnly, I.Empty))
  {
    FirstBootAccepted();
    var f, m := StateFile(), MarkerFile(true);
    var p := Dir(Entry(f, {None, f}), Entry(m, {None, m}));
    var b := Boot(Good, Absent, NoFiles, map[], 100, Threw);
    assert SavePoint(NoFiles, FirstBoot, 100, p);
    assert Cut(p, StateOnly) by {
      assert Recovered(f, StateOnly.state.visible);
      assert Recovered(None, StateOnly.marker.visible);
    }
    step := Crash(Some(b), Some(FirstBoot), 100, p, true);
  }

  /** The next boot heals the marker and dies between writing it and syncing it. */
  lemma HealCrash(cfg: I.Config) returns (step: Step, d: RegistryDir)
    ensures step.Crash? && !step.powerCut
    ensures d == Dir(StateOnly.state, Entry(MarkerFile(false), {None, MarkerFile(false)}))
    ensures Next(cfg, World(None, StateOnly, I.Empty), step, World(None, d, I.Empty))
  {
    d := Dir(StateOnly.state, Entry(MarkerFile(false), {None, MarkerFile(false)}));
    var b := Boot(Good.(markerMade := false), Corrupt, StateOnly, map[], 100, Threw);
    step := Crash(Some(b), None, 0, d, false);
  }

  /** The boot after that finds a valid marker, proves both names durable, and serves. */
  lemma ServesUnsynced(cfg: I.Config, d: RegistryDir) returns (step: Step, w: World)
    requires d == Dir(StateOnly.state, Entry(MarkerFile(false), {None, MarkerFile(false)}))
    ensures step.Initialize? && Next(cfg, World(None, d, I.Empty), step, w)
    ensures w.mem == Some(FirstBoot) && w.dir.marker.visible == MarkerFile(false)
  {
    FirstBootAccepted();
    var mid := Dir(Settled(d.state), Settled(d.marker));
    step := Initialize(Boot(Good, Loaded(FirstBoot), mid, map[], 100, Threw));
    w := World(Some(FirstBoot), mid, I.Empty);
  }

  /** A run from an empty directory to a usable registry over an unsynced marker. */
  lemma UsableOverUnsyncedMarker(cfg: I.Config) returns (ws: seq<World>, steps: seq<Step>)
    ensures Run(cfg, ws, steps) && |steps| == 3 && ws[3].mem.Some?
    ensures ws[3].dir.marker.visible.Some? && !ws[3].dir.marker.visible.value.synced
  {
    var s0 := FirstBootCut(cfg);
    var s1, d := HealCrash(cfg);
    var s2, w := ServesUnsynced(cfg, d);
    ws := [World(None, NoFiles, I.Empty), World(None, StateOnly, I.Empty), World(None, d, I.Empty), w];
    steps := [s0, s1, s2];
    forall i | 0 <= i < |steps|
      ensures Next(cfg, ws[i], steps[i], ws[i + 1])
    {
      if i == 0 {
      } else if i == 1 {
      } else {
        assert i == 2;
      }
    }
  }

  /** Every call of a load that finds its marker succeeds. */
  predicate Answered(io: LoadIo) {
    io.markerRead && io.reached && io.read && io.synced && io.entryDurable
  }

  /** Durable names and synced data survive a power cut as they are. */
  lemma CutOfProven(d: RegistryDir, q: RegistryDir)
    requires Proven(d) && Cut(d, q)
    ensures q.state == d.state && q.marker.visible.Some?
    ensures d.marker.visible.value.synced ==> q == d
  {
    var x :| x in d.state.survivors && Recovered(x, q.state.visible);
    var m :| m in d.marker.survivors && Recovered(m, q.marker.visible);
    assert q.state.survivors == {q.state.visible} && q.marker.survivors == {q.marker.visible};
  }

  /**
   * A cut anywhere inside an admit leaves the old registry or the new one,
   * the device together with its bootstrap generation bump, never a mix.
   */
  lemma AdmitIsAtomic(w: World, d: Device, boot: bool, size: nat, p: RegistryDir, q: RegistryDir)
    requires w.mem.Some? && MemoryBacked(w) && d.deviceId !in w.mem.value.devices
    requires SavePoint(w.dir, WithDevice(w.mem.value, d, boot), size, p) && Cut(p, q)
    ensures q.state.visible.Some?
    ensures var r := ReadText(q.state.visible.value);
            && (r == Loaded(w.mem.value) || r == Loaded(WithDevice(w.mem.value, d, boot)))
            && (d.deviceId in r.registry.devices ==>
                  r.registry.bootstrapGeneration == w.mem.value.bootstrapGeneration + if boot then 1 else 0)
            && (boot && d.deviceId !in r.registry.devices ==>
                  r.registry.bootstrapGeneration == w.mem.value.bootstrapGeneration)
  {
    var x :| x in p.state.survivors && Recovered(x, q.state.visible);
    var next := FileOf(WithDevice(w.mem.value, d, boot), size);
    assert w.dir.state.survivors == {w.dir.state.visible};
    assert x == w.dir.state.visible || x == Some(next);
  }

  // ---- live invites name durable owners ------------------------------------------------------------

  ghost predicate OwnerIn(x: Option<File<Text>>, ownerId: string) {
    x.Some? && x.value.text.V2? && ownerId in x.value.text.registry.owners
  }

  /** Every live invite's owner holds a handle in every file that could still come back. */
  ghost predicate OwnersDurable(w: World) {
    forall id, x :: id in w.invites.live && x in w.dir.state.survivors ==>
      OwnerIn(x, w.invites.live[id].contract.ownerId)
  }

  lemma LoadKeepsOwners(w: World, d': RegistryDir)
    requires MemoryBacked(w) && OwnersDurable(w) && LoadPoint(w.dir, d')
    ensures OwnersDurable(w.(dir := d'))
  {
    forall id, x | id in w.invites.live && x in d'.state.survivors
      ensures OwnerIn(x, w.invites.live[id].contract.ownerId)
    {
      assert w.dir.state.visible in w.dir.state.survivors;
      assert OwnerIn(w.dir.state.visible, w.invites.live[id].contract.ownerId);
    }
  }

  lemma PublishKeepsOwners(w: World, next: Registry, size: nat, d': RegistryDir)
    requires OwnersDurable(w) && SavePoint(w.dir, next, size, d')
    requires forall id :: id in w.invites.live ==> w.invites.live[id].contract.ownerId in next.owners
    ensures OwnersDurable(w.(dir := d'))
  {
  }

  /** A usable registry's memory names every live invite's owner. */
  lemma MemoryNamesOwners(w: World, id: string)
    requires MemoryBacked(w) && OwnersDurable(w) && w.mem.Some? && id in w.invites.live
    ensures w.invites.live[id].contract.ownerId in w.mem.value.owners
  {
    assert w.dir.state.visible in w.dir.state.survivors;
    assert OwnerIn(w.dir.state.visible, w.invites.live[id].contract.ownerId);
  }

  lemma FewerInvitesKeepOwners(w: World, l: I.Ledger)
    requires OwnersDurable(w)
    requires forall id :: id in l.live ==> id in w.invites.live && l.live[id] == w.invites.live[id]
    ensures OwnersDurable(w.(invites := l))
  {
  }

  lemma BootKeepsOwners(w: World, b: Boot, w': World)
    requires MemoryBacked(w) && OwnersDurable(w) && BootSpec(w.dir, b, w'.mem, w'.dir) && w'.invites == w.invites
    ensures OwnersDurable(w')
  {
    LoadKeepsOwners(w, b.mid);
    forall id | id in w.invites.live
      ensures OwnerIn(w.dir.state.visible, w.invites.live[id].contract.ownerId)
    {
    }
    match BootPublishes(b)
    case Some(next) =>
      PublishKeepsOwners(w.(dir := b.mid), next, b.size, w'.dir);
    case None =>
  }

  lemma OwnerKeepsOwners(
    w: World, ownerId: string, userId: string, size: nat, result: SaveResult, ok: bool, mem': Option<Registry>,
    d': RegistryDir)
    requires MemoryBacked(w) && OwnersDurable(w) && w.mem.Some?
    requires OwnerSpec(w.mem.value, w.dir, ownerId, userId, size, result, ok, mem', d')
    ensures OwnersDurable(w.(dir := d'))
    ensures ok ==> mem'.Some? && Backs(d', mem'.value) && ownerId in mem'.value.owners
  {
    if ownerId !in w.mem.value.owners && |w.mem.value.owners| < MAX_OWNERS {
      var next := WithOwner(w.mem.value, ownerId, userId);
      forall id | id in w.invites.live
        ensures w.invites.live[id].contract.ownerId in next.owners
      {
        MemoryNamesOwners(w, id);
      }
      PublishKeepsOwners(w, next, size, d');
      PublishBacks(w.mem, w.dir, next, size, result, d');
    }
  }

  lemma RegisteringKeepsOwners(cfg: I.Config, w: World, r: Registry, now: int, c: I.Contract, kill: LiveKill)
    requires OwnersDurable(w) && Backs(w.dir, r) && c.ownerId in r.owners
    ensures OwnersDurable(w.(invites := I.DoRegister(cfg, w.invites, now, c, LiveWitness(r, kill)).0))
  {
    var l := I.DoRegister(cfg, w.invites, now, c, LiveWitness(r, kill)).0;
    RegisteringAddsOne(cfg, w.invites, now, c, r, kill);
    forall id, x | id in l.live && x in w.dir.state.survivors
      ensures OwnerIn(x, l.live[id].contract.ownerId)
    {
      assert x == w.dir.state.visible;
      if l.live[id].contract != c {
        assert id in w.invites.live && l.live[id] == w.invites.live[id];
      }
    }
  }

  lemma MintKeepsOwners(cfg: I.Config, w: World, step: Step, w': World)
    requires MemoryBacked(w) && OwnersDurable(w) && step.Mint? && MintStep(cfg, w, step, w')
    ensures OwnersDurable(w')
  {
    var c := ContractFor(w.mem.value, step.kill, step.request);
    OwnerKeepsOwners(w, c.ownerId, step.userId, step.size, step.result, step.ok, w'.mem, w'.dir);
    if step.ok {
      RegisteringKeepsOwners(cfg, w.(dir := w'.dir), w'.mem.value, step.now, c, step.kill);
    }
  }

  /** Spending only takes invites away: the registry's own standing check never re-enters. */
  lemma SpendingOnlyRemoves(cfg: I.Config, l: I.Ledger, now: int, s: I.Submission, r: Registry, kill: LiveKill)
    ensures var l' := I.PerformEnrollment(cfg, l, now, s, LiveWitness(r, kill)).0;
            forall id :: id in l'.live ==> id in l.live && l'.live[id] == l.live[id]
  {
    var peeked := I.Peeked(l, now, s.inviteId);
    if s.inviteId in peeked.live && peeked.live[s.inviteId].contract.origin.ByDevice? {
      StandingOnlyAnswers(cfg, I.Without(peeked, s.inviteId), peeked.live[s.inviteId].contract.origin, r, kill);
    }
  }

  lemma StandingOnlyAnswers(cfg: I.Config, l: I.Ledger, origin: I.Origin, r: Registry, kill: LiveKill)
    requires origin.ByDevice?
    ensures I.CallBack(cfg, l, origin, LiveWitness(r, kill).deviceStanding)
            == (l, Some(Standing(r, origin.deviceId, origin.deviceGeneration)))
  {
  }

  lemma RegisteringAddsOne(cfg: I.Config, l: I.Ledger, now: int, c: I.Contract, r: Registry, kill: LiveKill)
    ensures var l' := I.DoRegister(cfg, l, now, c, LiveWitness(r, kill)).0;
            forall id :: id in l'.live ==> l'.live[id].contract == c || (id in l.live && l'.live[id] == l.live[id])
  {
    if c.origin.ByDevice? {
      StandingOnlyAnswers(cfg, I.Swept(l, now), c.origin, r, kill);
    }
  }

  lemma CommitKeepsOwners(cfg: I.Config, w: World, step: Step, w': World)
    requires MemoryBacked(w) && OwnersDurable(w) && step.Commit? && CommitStep(cfg, w, step, w')
    ensures OwnersDurable(w')
  {
    if w.mem.Some? {
      SpendingOnlyRemoves(cfg, w.invites, step.when, step.submission, w.mem.value, step.live);
      FewerInvitesKeepOwners(w, w'.invites);
      if w'.dir != w.dir {
        var outcome := I.PerformEnrollment(cfg, w.invites, step.when, step.submission,
                                           LiveWitness(w.mem.value, step.live)).1;
        var device := NewDevice(outcome.invite, step.credential, step.deviceId, step.when);
        var next := WithDevice(w.mem.value, device, outcome.invite.contract.origin.Bootstrap?);
        forall id | id in w'.invites.live
          ensures w'.invites.live[id].contract.ownerId in next.owners
        {
          MemoryNamesOwners(w, id);
        }
        PublishKeepsOwners(w.(invites := w'.invites), next, step.bytes, w'.dir);
      }
    }
  }

  lemma RevokeKeepsOwners(w: World, id: string, at: int, size: nat, result: SaveResult, w': World)
    requires MemoryBacked(w) && OwnersDurable(w) && RevokeStep(w, id, at, size, result, w')
    ensures OwnersDurable(w')
  {
    var next := WithRevoked(w.mem.value, id, at);
    forall x | x in w.invites.live
      ensures w.invites.live[x].contract.ownerId in next.owners
    {
      MemoryNamesOwners(w, x);
    }
    PublishKeepsOwners(w, next, size, w'.dir);
  }

  lemma StepKeepsOwners(cfg: I.Config, w: World, step: Step, w': World)
    requires MemoryBacked(w) && OwnersDurable(w) && Next(cfg, w, step, w')
    ensures OwnersDurable(w')
  {
    match step {
      case Initialize(b) => BootKeepsOwners(w, b, w');
      case Revoke(id, at, size, result) => RevokeKeepsOwners(w, id, at, size, result, w');
      case Mint(_, _, _, _, _, _, _) => MintKeepsOwners(cfg, w, step, w');
      case Commit(_, _, _, _, _, _, _, _) => CommitKeepsOwners(cfg, w, step, w');
      case SweepInvites(epoch) => FewerInvitesKeepOwners(w, w'.invites);
      case Crash(_, _, _, _, _) =>
    }
  }

  lemma {:induction false} LiveInvitesHaveDurableOwners(cfg: I.Config, ws: seq<World>, steps: seq<Step>, i: nat)
    requires Run(cfg, ws, steps) && i < |ws|
    ensures OwnersDurable(ws[i])
  {
    if i > 0 {
      LiveInvitesHaveDurableOwners(cfg, ws, steps, i - 1);
      RunKeepsBacking(cfg, ws, steps, i - 1);
      StepKeepsOwners(cfg, ws[i - 1], steps[i - 1], ws[i]);
    }
  }

  /**
   * So an enrolment is never refused for want of its owner: in every reachable
   * state, across quarantine and recovery, what it would publish is accepted
   * exactly when the new record is well formed and the generation can be bumped.
   */
  lemma EnrolmentIsPublishable(
    cfg: I.Config, ws: seq<World>, steps: seq<Step>, i: nat, inviteId: string, c: Credential, deviceId: string,
    now: int)
    requires Run(cfg, ws, steps) && i < |ws| && ws[i].mem.Some? && inviteId in ws[i].invites.live
    requires deviceId !in ws[i].mem.value.devices && !EverUsed(ws[i].mem.value.devices, c)
    requires |Active(ws[i].mem.value.devices)| < MAX_ACTIVE_DEVICES
    ensures var r, invite := ws[i].mem.value, ws[i].invites.live[inviteId];
            var d := NewDevice(invite, c, deviceId, now);
            var boot := invite.contract.origin.Bootstrap?;
            Acceptable(WithDevice(r, d, boot))
            <==> DeviceOk(deviceId, d) && (boot ==> r.bootstrapGeneration < RegistryFile.MAX_SAFE_INTEGER)
  {
    RunKeepsBacking(cfg, ws, steps, i);
    LiveInvitesHaveDurableOwners(cfg, ws, steps, i);
    MemoryNamesOwners(ws[i], inviteId);
    var r, invite := ws[i].mem.value, ws[i].invites.live[inviteId];
    var d := NewDevice(invite, c, deviceId, now);
    if DeviceOk(deviceId, d) {
      AdmitAccepted(r, d, invite.contract.origin.Bootstrap?);
    } else {
      assert WithDevice(r, d, invite.contract.origin.Bootstrap?).devices[deviceId] == d;
    }
  }

  // ---- nothing is forgotten -------------------------------------------------------------------------

  /** Every registry that may still come back has everything `r` has, and the marker is durable. */
  ghost predicate Since(d: RegistryDir, r: Registry) {
    && Sound(d)
    && None !in d.marker.survivors
    && forall x :: x in d.state.survivors ==>
         x.Some? && x.value.synced && x.value.text.V2? && Grows(r, x.value.text.registry)
  }

  lemma BackedSince(d: RegistryDir, r: Registry)
    requires Backs(d, r) && Sound(d)
    ensures Since(d, r)
  {
    assert d.state.survivors == {d.state.visible} && d.marker.survivors == {d.marker.visible};
    assert Grows(r, r);
  }

  lemma LoadKeepsSince(d: RegistryDir, p: RegistryDir, r: Registry)
    requires Since(d, r) && LoadPoint(d, p)
    ensures Since(p, r)
  {
    forall x | x in p.state.survivors
      ensures x.Some? && x.value.synced && x.value.text.V2? && Grows(r, x.value.text.registry)
    {
      assert d.state.visible in d.state.survivors;
    }
  }

  lemma SaveKeepsSince(d: RegistryDir, next: Registry, size: nat, p: RegistryDir, r: Registry)
    requires Since(d, r) && SavePoint(d, next, size, p) && Grows(r, next)
    ensures Since(p, r)
  {
  }

  lemma CutKeepsSince(p: RegistryDir, q: RegistryDir, r: Registry)
    requires Since(p, r) && Cut(p, q)
    ensures Since(q, r)
  {
    var x :| x in p.state.survivors && Recovered(x, q.state.visible);
    var m :| m in p.marker.survivors && Recovered(m, q.marker.visible);
    assert q.state.survivors == {q.state.visible} && q.marker.survivors == {q.marker.visible};
  }

  lemma UpdatesGrow(r: Registry, next: Registry)
    requires Publishing(r, next)
    ensures Grows(r, next)
  {
    if id: string, at: int :| id in r.devices && r.devices[id].revokedAt.None? && next == WithRevoked(r, id, at) {
      assert DeviceGrows(r.devices[id], next.devices[id]);
    }
  }

  /** What memory holds grew from `r` too, being what the visible file says. */
  lemma MemorySince(w: World, r: Registry)
    requires MemoryBacked(w) && Since(w.dir, r) && w.mem.Some?
    ensures Grows(r, w.mem.value)
  {
    assert w.dir.state.visible in w.dir.state.survivors;
  }

  lemma PublishKeepsSince(w: World, next: Registry, size: nat, p: RegistryDir, r: Registry)
    requires MemoryBacked(w) && Since(w.dir, r) && w.mem.Some? && Publishing(w.mem.value, next)
    requires SavePoint(w.dir, next, size, p)
    ensures Since(p, r)
  {
    MemorySince(w, r);
    UpdatesGrow(w.mem.value, next);
    GrowsTransitive(r, w.mem.value, next);
    SaveKeepsSince(w.dir, next, size, p, r);
  }

  /** A directory with history neither first-boots nor migrates. */
  lemma NoFreshBoot(d: RegistryDir, r: Registry, b: Boot)
    requires Since(d, r) && LoadSpec(d, b.io, b.mid, b.loaded)
    ensures BootPublishes(b) == None && !b.loaded.Absent? && !b.loaded.LegacyV1?
    ensures b.loaded.Loaded? ==> Grows(r, b.loaded.registry)
  {
    assert d.state.visible in d.state.survivors;
  }

  lemma CrashKeepsSince(w: World, step: Step, d': RegistryDir, r: Registry)
    requires MemoryBacked(w) && Since(w.dir, r) && step.Crash?
    requires CrashPoint(w, step.boots, step.next, step.length, step.point)
    requires if step.powerCut then Cut(step.point, d') else d' == step.point
    ensures Since(d', r)
  {
    match step.boots {
      case Some(b) =>
        NoFreshBoot(w.dir, r, b);
        LoadKeepsSince(w.dir, step.point, r);
      case None =>
        if LoadPoint(w.dir, step.point) {
          LoadKeepsSince(w.dir, step.point, r);
        } else {
          PublishKeepsSince(w, step.next.value, step.length, step.point, r);
        }
    }
    if step.powerCut {
      CutKeepsSince(step.point, d', r);
    }
  }

  lemma CommitKeepsSince(cfg: I.Config, w: World, step: Step, w': World, r: Registry)
    requires MemoryBacked(w) && Since(w.dir, r) && step.Commit? && CommitStep(cfg, w, step, w')
    ensures Since(w'.dir, r)
  {
    if w'.dir != w.dir {
      var outcome := I.PerformEnrollment(cfg, w.invites, step.when, step.submission,
                                         LiveWitness(w.mem.value, step.live)).1;
      var device := NewDevice(outcome.invite, step.credential, step.deviceId, step.when);
      var next := WithDevice(w.mem.value, device, outcome.invite.contract.origin.Bootstrap?);
      assert Publishing(w.mem.value, next);
      PublishKeepsSince(w, next, step.bytes, w'.dir, r);
    }
  }

  lemma StepKeepsSince(cfg: I.Config, w: World, step: Step, w': World, r: Registry)
    requires MemoryBacked(w) && Since(w.dir, r) && Next(cfg, w, step, w')
    ensures Since(w'.dir, r)
  {
    match step {
      case Initialize(b) =>
        NoFreshBoot(w.dir, r, b);
        LoadKeepsSince(w.dir, b.mid, r);
      case Revoke(id, at, size, result) =>
        assert Publishing(w.mem.value, WithRevoked(w.mem.value, id, at));
        PublishKeepsSince(w, WithRevoked(w.mem.value, id, at), size, w'.dir, r);
      case Mint(_, _, q, userId, size, result, _) =>
        var o := OwnerFor(w.mem.value, q.issuer);
        if o !in w.mem.value.owners && |w.mem.value.owners| < MAX_OWNERS {
          assert Publishing(w.mem.value, WithOwner(w.mem.value, o, userId));
          PublishKeepsSince(w, WithOwner(w.mem.value, o, userId), size, w'.dir, r);
        }
      case Commit(_, _, _, _, _, _, _, _) => CommitKeepsSince(cfg, w, step, w', r);
      case SweepInvites(_) =>
      case Crash(_, _, _, _, _) => CrashKeepsSince(w, step, w'.dir, r);
    }
  }

  lemma {:induction false} SinceUsable(cfg: I.Config, ws: seq<World>, steps: seq<Step>, i: nat, j: nat)
    requires Run(cfg, ws, steps) && i <= j < |ws| && ws[i].mem.Some?
    ensures Since(ws[j].dir, ws[i].mem.value)
    decreases j
  {
    RunKeepsBacking(cfg, ws, steps, if i == j then i else j - 1);
    if i == j {
      BackedSince(ws[i].dir, ws[i].mem.value);
    } else {
      SinceUsable(cfg, ws, steps, i, j - 1);
      assert Next(cfg, ws[j - 1], steps[j - 1], ws[j]);
      StepKeepsSince(cfg, ws[j - 1], steps[j - 1], ws[j], ws[i].mem.value);
    }
  }

  /**
   * Once a registry was served, no later state of any process, whatever
   * crashed in between, serves one with a device, a revocation, an owner
   * handle or a bootstrap generation missing; and no load reads as a first boot.
   */
  lemma NothingIsForgotten(
    cfg: I.Config, ws: seq<World>, steps: seq<Step>, i: nat, j: nat, q: RegistryDir, io: LoadIo)
    requires Run(cfg, ws, steps) && i <= j < |ws| && ws[i].mem.Some?
    requires q == ws[j].dir || Cut(ws[j].dir, q)
    ensures ws[j].mem.Some? ==> Grows(ws[i].mem.value, ws[j].mem.value)
    ensures var res := LoadOf(q, io); res == Corrupt || (res.Loaded? && Grows(ws[i].mem.value, res.registry))
  {
    var r := ws[i].mem.value;
    SinceUsable(cfg, ws, steps, i, j);
    RunKeepsBacking(cfg, ws, steps, j);
    if ws[j].mem.Some? {
      MemorySince(ws[j], r);
    }
    if q != ws[j].dir {
      CutKeepsSince(ws[j].dir, q, r);
    }
    assert q.state.visible in q.state.survivors;
  }

  /** Once revoked in a served registry, a device stands at no generation ever again. */
  lemma RevocationIsForever(
    cfg: I.Config, ws: seq<World>, steps: seq<Step>, i: nat, j: nat, deviceId: string, generation: int)
    requires Run(cfg, ws, steps) && i <= j < |ws| && ws[i].mem.Some? && ws[j].mem.Some?
    requires deviceId in ws[i].mem.value.devices && ws[i].mem.value.devices[deviceId].revokedAt.Some?
    ensures !Standing(ws[j].mem.value, deviceId, generation)
  {
    SinceUsable(cfg, ws, steps, i, j);
    RunKeepsBacking(cfg, ws, steps, j);
    MemorySince(ws[j], ws[i].mem.value);
  }

  /** The bootstrap lane closes with the admit that used it, for every later process too. */
  lemma BootstrapLaneCloses(cfg: I.Config, ws: seq<World>, steps: seq<Step>, i: nat, j: nat)
    requires Run(cfg, ws, steps) && i <= j < |steps| && ws[i].mem.Some?
    requires steps[j].Commit? && steps[j].outcome.Committed?
    ensures var s := steps[j].submission;
            && s.inviteId in ws[j].invites.live
            && (ws[j].invites.live[s.inviteId].contract.origin.Bootstrap? ==>
                  && ws[j].invites.live[s.inviteId].contract.origin.bootstrapGeneration
                     >= ws[i].mem.value.bootstrapGeneration
                  && ws[j + 1].mem.Some?
                  && ws[j + 1].mem.value.bootstrapGeneration > ws[i].mem.value.bootstrapGeneration)
  {
    SinceUsable(cfg, ws, steps, i, j);
    RunKeepsBacking(cfg, ws, steps, j);
    assert Next(cfg, ws[j], steps[j], ws[j + 1]);
    MemorySince(ws[j], ws[i].mem.value);
    var step := steps[j];
    I.SuccessMeans(cfg, ws[j].invites, step.when, step.submission, LiveWitness(ws[j].mem.value, step.live));
  }
}
