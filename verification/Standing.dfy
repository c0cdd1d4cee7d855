/**
 * Owner-device standing across restarts: what the server holds, what it
 * exports, how a boot reads it back, and whether a revocation survives all
 * of that, with keys removed from the keys file and added again.
 */
module Standing {
  import opened Wrappers
  import opened Disk
  import opened StandingStore

  /** A keys-file device; `spki` is its canonical public key. */
  datatype Static = Static(generation: int, revokedAt: Option<int>, spki: string)

  /**
   * The server's memory. `history` is standing for ids not in the keys file;
   * `registry` is the enrolled registry's projection while it is usable.
   */
  datatype Proc = Proc(
    devices: map<string, Static>, history: Table, enrolling: bool, registry: Option<Table>, quarantined: bool)

  type Keys = map<string, string>

  predicate IsCeremonyId(id: string) {
    "dev_" <= id
  }

  /** The keys file names no empty id, no ':' and nothing of the ceremony namespace. */
  predicate KeysOk(keys: Keys) {
    forall id :: id in keys ==> NameOk(id)
  }

  predicate NameOk(id: string) {
    id != "" && ':' !in id && !IsCeremonyId(id)
  }

  // ---- the export (persistStanding) -------------------------------------------------------

  /** A ceremony entry the registry cannot vouch for is exported revoked, key kept. */
  function Tombstone(id: string, e: DeviceStanding): DeviceStanding {
    if e.spki.Some? || IsCeremonyId(id) then e.(revokedAt := Some(if e.revokedAt.Some? then e.revokedAt.value else 0))
    else e
  }

  function Snapshot(p: Proc): Table {
    (map id | id in p.history :: Tombstone(id, p.history[id]))
    + (map id | id in p.devices :: DeviceStanding(p.devices[id].generation, p.devices[id].revokedAt, None))
    + (if p.registry.Some? then p.registry.value else map[])
  }

  // ---- boot -----------------------------------------------------------------------------------

  function Provisioned(keys: Keys): map<string, Static> {
    map id | id in keys :: Static(1, None, keys[id])
  }

  function AllRevoked(ds: map<string, Static>): map<string, Static> {
    map id | id in ds :: Static(ds[id].generation + 1, Some(0), ds[id].spki)
  }

  function Overlaid(keys: Keys, t: Table): map<string, Static> {
    map id | id in keys ::
      if id in t then Static(t[id].generation, t[id].revokedAt, keys[id]) else Static(1, None, keys[id])
  }

  function HistoryOf(keys: Keys, t: Table): Table {
    map id | id in t && id !in keys :: t[id]
  }

  function SpkisOf(t: Table): set<string> {
    set id | id in t && t[id].spki.Some? :: t[id].spki.value
  }

  /** Keys that moved to the enrolment namespace: tombstones, and the usable registry. */
  function Migrated(history: Table, registry: Option<Table>): set<string> {
    SpkisOf(history) + if registry.Some? then SpkisOf(registry.value) else {}
  }

  function Severed(d: Static, now: int): Static {
    d.(revokedAt := Some(now), generation := d.generation + 1)
  }

  /** One key, one identity: a static name for a migrated key is revoked. */
  function Reconciled(ds: map<string, Static>, migrated: set<string>, now: int): map<string, Static> {
    map id | id in ds :: if ds[id].revokedAt.None? && ds[id].spki in migrated then Severed(ds[id], now) else ds[id]
  }

  /** Neither keys nor enrolment: the standing file has no producer and is not touched. */
  predicate NoProducer(keys: Keys, enrolling: bool) {
    keys == map[] && !enrolling
  }

  function BootProc(keys: Keys, enrolling: bool, registry: Option<Table>, loaded: Load, now: int): Proc {
    if NoProducer(keys, enrolling) then Proc(map[], map[], false, None, false)
    else
      match loaded
      case Corrupt => Proc(AllRevoked(Provisioned(keys)), map[], enrolling, registry, false)
      case Absent =>
        Proc(Reconciled(Provisioned(keys), Migrated(map[], registry), now), map[], enrolling, registry, false)
      case Loaded(t) =>
        var history := HistoryOf(keys, t);
        Proc(Reconciled(Overlaid(keys, t), Migrated(history, registry), now), history, enrolling, registry, false)
  }

  predicate BootPublishes(keys: Keys, enrolling: bool, loaded: Load) {
    !NoProducer(keys, enrolling) && !loaded.Corrupt?
  }

  // ---- worlds ------------------------------------------------------------------------------------

  /** The kill store is healthy: `killed` survives restarts until a restore. */
  datatype World = World(proc: Option<Proc>, dir: StandingDir, killed: bool)

  datatype Step =
    | Boot(keys: Keys, enrolling: bool, registry: Option<Table>, now: int, io: LoadIo, mid: StandingDir, size: nat,
           result: SaveResult, killCorrupt: bool)
    | Revoke(id: string, now: int, size: nat, result: SaveResult)
    | RetryRevoke(size: nat, result: SaveResult)
    | RevokeEnrolled(projection: Table, size: nat, result: SaveResult)
    | Enrol(projection: Table, aliases: set<string>, now: int, size: nat, result: SaveResult)
    | RegistryLost
    | Kill
    | Restore
    | Crash(memory: Proc, size: nat, point: StandingDir, powerCut: bool)

  function AliasesSevered(ds: map<string, Static>, aliases: set<string>, now: int): map<string, Static> {
    map id | id in ds :: if id in aliases && ds[id].revokedAt.None? then Severed(ds[id], now) else ds[id]
  }

  predicate AnySevered(ds: map<string, Static>, aliases: set<string>) {
    exists id :: id in ds && id in aliases && ds[id].revokedAt.None?
  }

  /** What the registry projects: its own ids, with entries the standing file can hold. */
  predicate CeremonyTable(t: Table) {
    forall id :: id in t ==> IsCeremonyId(id) && EntryOk(2, id, t[id])
  }

  ghost predicate Exports(d: StandingDir, p: Proc, size: nat, result: SaveResult, d': StandingDir) {
    SaveSpec(d, FileOf(Snapshot(p), size), d', result)
  }

  /** A severing that could not be proven durable: quarantine, and a durable kill. */
  function AfterSevering(p: Proc, killed: bool, dir: StandingDir, result: SaveResult): World {
    if result == Published(true) then World(Some(p.(quarantined := false)), dir, killed)
    else World(Some(p.(quarantined := true)), dir, true)
  }

  /** The memory an operation is exporting when the process dies. */
  ghost predicate Exporting(p: Proc, q: Proc) {
    || q == p
    || (exists id: string, now: int :: id in p.devices && p.devices[id].revokedAt.None?
          && q == p.(devices := p.devices[id := Severed(p.devices[id], now)]))
    || (exists t: Table, aliases: set<string>, now: int :: p.registry.Some? && CeremonyTable(t)
          && q == p.(registry := Some(t), devices := AliasesSevered(p.devices, aliases, now)))
  }

  ghost predicate BootStep(w: World, step: Step, w': World)
    requires step.Boot?
  {
    var loaded := LoadOf(w.dir, step.io);
    var p := BootProc(step.keys, step.enrolling, step.registry, loaded, step.now);
    && KeysOk(step.keys)
    && (step.registry.Some? ==> step.enrolling && CeremonyTable(step.registry.value))
    && w'.killed == (w.killed || step.killCorrupt)
    && if BootPublishes(step.keys, step.enrolling, loaded) then
         && HealSpec(w.dir, step.mid)
         && if step.result == Published(true) then
              Exports(step.mid, p, step.size, step.result, w'.dir) && w'.proc == Some(p)
            else // refused to start, or died on the way
              SavePoint(step.mid, FileOf(Snapshot(p), step.size), w'.dir) && w'.proc == None
       else
         && w'.proc == Some(p)
         && if NoProducer(step.keys, step.enrolling) then w'.dir == w.dir else HealSpec(w.dir, w'.dir)
  }

  ghost predicate RevokeStep(w: World, id: string, now: int, size: nat, result: SaveResult, w': World) {
    && w.proc.Some? && id in w.proc.value.devices && w.proc.value.devices[id].revokedAt.None?
    && var p := w.proc.value.(devices := w.proc.value.devices[id := Severed(w.proc.value.devices[id], now)]);
       Exports(w.dir, p, size, result, w'.dir) && w' == AfterSevering(p, w.killed, w'.dir, result)
  }

  ghost predicate RetryStep(w: World, size: nat, result: SaveResult, w': World) {
    && w.proc.Some? && w.proc.value.quarantined
    && Exports(w.dir, w.proc.value, size, result, w'.dir)
    && w' == w.(dir := w'.dir, proc := Some(w.proc.value.(quarantined := result != Published(true))))
  }

  ghost predicate RevokeEnrolledStep(w: World, t: Table, size: nat, result: SaveResult, w': World) {
    && w.proc.Some? && w.proc.value.enrolling && w.proc.value.registry.Some? && CeremonyTable(t)
    && var p := w.proc.value.(registry := Some(t));
       Exports(w.dir, p, size, result, w'.dir) && w' == AfterSevering(p, w.killed, w'.dir, result)
  }

  ghost predicate EnrolStep(
    w: World, t: Table, aliases: set<string>, now: int, size: nat, result: SaveResult, w': World)
  {
    && w.proc.Some? && w.proc.value.enrolling && w.proc.value.registry.Some? && CeremonyTable(t)
    && var p := w.proc.value.(registry := Some(t), devices := AliasesSevered(w.proc.value.devices, aliases, now));
       && Exports(w.dir, p, size, result, w'.dir)
       && w' == if result != Published(true) && AnySevered(w.proc.value.devices, aliases)
                then World(Some(p.(quarantined := true)), w'.dir, true) else World(Some(p), w'.dir, w.killed)
  }

  ghost predicate CrashStep(w: World, q: Proc, size: nat, point: StandingDir, powerCut: bool, w': World) {
    && (|| HealSpec(w.dir, point)
        || (w.proc.Some? && Exporting(w.proc.value, q) && SavePoint(w.dir, FileOf(Snapshot(q), size), point)
            && (q == w.proc.value ==> w.proc.value.quarantined || w.proc.value.registry.Some?)))
    && w'.proc == None && w'.killed == w.killed
    && if powerCut then Cut(point, w'.dir) else w'.dir == point
  }

  ghost predicate Next(w: World, step: Step, w': World) {
    match step
    case Boot(_, _, _, _, _, _, _, _, _) => BootStep(w, step, w')
    case Revoke(id, now, size, result) => RevokeStep(w, id, now, size, result, w')
    case RetryRevoke(size, result) => RetryStep(w, size, result, w')
    case RevokeEnrolled(t, size, result) => RevokeEnrolledStep(w, t, size, result, w')
    case Enrol(t, aliases, now, size, result) => EnrolStep(w, t, aliases, now, size, result, w')
    case RegistryLost => w.proc.Some? && w' == w.(proc := Some(w.proc.value.(registry := None)))
    case Kill => w' == w.(killed := true)
    case Restore => w' == w.(killed := false)
    case Crash(q, size, point, powerCut) => CrashStep(w, q, size, point, powerCut, w')
  }

  ghost predicate Run(ws: seq<World>, steps: seq<Step>) {
    && |ws| == |steps| + 1
    && ws[0].proc == None && Sound(ws[0].dir)
    && forall i :: 0 <= i < |steps| ==> Next(ws[i], steps[i], ws[i + 1])
  }

  /** witnessStanding: could this device's ack back a silence release now, at some generation? */
  predicate Backs(w: World, id: string) {
    && w.proc.Some? && !w.killed && !w.proc.value.quarantined
    && var p := w.proc.value;
       if id in p.devices then p.devices[id].revokedAt.None?
       else p.registry.Some? && id in p.registry.value && p.registry.value[id].revokedAt.None?
  }

  // ---- a revocation survives ------------------------------------------------------------------------

  /** The table shows the device revoked, or holds an id that makes the file unreadable. */
  predicate Refuses(t: Table, id: string) {
    (id in t && t[id].revokedAt.Some?) || !(t.Keys !! FORBIDDEN_IDS)
  }

  /** Every file that may still come back shows the device revoked, or does not load. */
  ghost predicate FileRevoked(d: StandingDir, id: string) {
    && Sound(d)
    && forall x :: x in d.state.survivors ==>
         x.Some? && x.value.synced && x.value.text.Document? && Refuses(x.value.text.devices, id)
  }

  /** A process that can export nothing: no registry to vouch, and nobody left to revoke. */
  predicate Mute(p: Proc) {
    p.registry.None? && !p.quarantined && forall id :: id in p.devices ==> p.devices[id].revokedAt.Some?
  }

  predicate Remembers(p: Proc, id: string) {
    if id in p.devices then p.devices[id].revokedAt.Some?
    else id in p.history && p.history[id].revokedAt.Some?
  }

  /** A static device under a name the standing file cannot hold: no export of this process loads. */
  predicate Unstorable(p: Proc) {
    !(p.devices.Keys !! FORBIDDEN_IDS)
  }

  predicate WellNamed(p: Proc) {
    && (p.registry.Some? ==> p.enrolling && CeremonyTable(p.registry.value))
    && forall id :: id in p.devices ==> NameOk(id)
  }

  ghost predicate ProcRevoked(p: Proc, id: string) {
    && WellNamed(p)
    && (id in p.devices ==> p.devices[id].revokedAt.Some?)
    && (Mute(p) || Remembers(p, id) || Unstorable(p))
  }

  ghost predicate StaysRevoked(w: World, id: string) {
    FileRevoked(w.dir, id) && (w.proc.Some? ==> ProcRevoked(w.proc.value, id))
  }

  /** What a process remembers, its export shows. */
  lemma SnapshotShows(p: Proc, id: string)
    requires WellNamed(p) && !IsCeremonyId(id)
    ensures id in Snapshot(p) && Snapshot(p)[id].revokedAt.Some?
            <==> Remembers(p, id) || (id !in p.devices && id in p.history && p.history[id].spki.Some?)
    ensures p.devices.Keys <= Snapshot(p).Keys
  {
  }

  lemma SnapshotRefuses(p: Proc, id: string)
    requires WellNamed(p) && !IsCeremonyId(id) && (Remembers(p, id) || Unstorable(p))
    ensures Refuses(Snapshot(p), id)
  {
    SnapshotShows(p, id);
    if Unstorable(p) {
      var x :| x in p.devices.Keys && x in FORBIDDEN_IDS;
      assert x in Snapshot(p).Keys;
    }
  }

  lemma ExportKeepsRevoked(d: StandingDir, p: Proc, size: nat, d': StandingDir, id: string)
    requires FileRevoked(d, id) && WellNamed(p) && (Remembers(p, id) || Unstorable(p)) && !IsCeremonyId(id)
    requires SavePoint(d, FileOf(Snapshot(p), size), d')
    ensures FileRevoked(d', id)
  {
    SnapshotRefuses(p, id);
  }

  lemma DurableExportRevokes(d: StandingDir, p: Proc, size: nat, d': StandingDir, id: string)
    requires WellNamed(p) && Remembers(p, id) && !IsCeremonyId(id)
    requires Exports(d, p, size, Published(true), d')
    ensures FileRevoked(d', id)
  {
    SnapshotRefuses(p, id);
  }

  lemma CutKeepsRevoked(p: StandingDir, d: StandingDir, id: string)
    requires FileRevoked(p, id) && Cut(p, d)
    ensures FileRevoked(d, id)
  {
    var x :| x in p.state.survivors && Recovered(x, d.state.visible);
    assert d.state.survivors == {d.state.visible} && d.marker.survivors == {d.marker.visible};
  }

  /**
   * The one boot that may forget a removed key: the file reads corrupt, the
   * key is not in the keys file, the registry can vouch and so export without
   * it, and the export will load.
   */
  predicate MayForget(w: World, step: Step, id: string) {
    && step.Boot? && step.registry.Some? && id !in step.keys && LoadOf(w.dir, step.io).Corrupt?
    && step.keys.Keys !! FORBIDDEN_IDS
  }

  /** A file that refuses the device loads as a table that shows it revoked, or not at all. */
  lemma RefusingFile(d: StandingDir, io: LoadIo, id: string)
    requires FileRevoked(d, id)
    ensures !LoadOf(d, io).Absent?
    ensures var r := LoadOf(d, io); r.Loaded? ==> id in r.devices && r.devices[id].revokedAt.Some?
  {
    assert d.state.visible in d.state.survivors;
    var t := d.state.visible.value.text.devices;
    if x :| x in t.Keys && x in FORBIDDEN_IDS {
      assert !EntryOk(d.state.visible.value.text.version, x, t[x]);
    }
  }

  lemma BootRemembers(w: World, step: Step, id: string)
    requires FileRevoked(w.dir, id) && step.Boot? && !IsCeremonyId(id) && KeysOk(step.keys)
    requires step.registry.Some? ==> step.enrolling && CeremonyTable(step.registry.value)
    ensures var loaded := LoadOf(w.dir, step.io);
            var p := BootProc(step.keys, step.enrolling, step.registry, loaded, step.now);
            && ProcRevoked(p, id) == !MayForget(w, step, id)
            && (BootPublishes(step.keys, step.enrolling, loaded) ==> Remembers(p, id))
            && WellNamed(p)
  {
    RefusingFile(w.dir, step.io, id);
  }

  lemma BootStaysRevoked(w: World, step: Step, w': World, id: string)
    requires FileRevoked(w.dir, id) && step.Boot? && BootStep(w, step, w') && !MayForget(w, step, id)
    requires !IsCeremonyId(id)
    ensures StaysRevoked(w', id)
  {
    BootRemembers(w, step, id);
    var loaded := LoadOf(w.dir, step.io);
    var p := BootProc(step.keys, step.enrolling, step.registry, loaded, step.now);
    if BootPublishes(step.keys, step.enrolling, loaded) {
      ExportKeepsRevoked(step.mid, p, step.size, w'.dir, id);
    }
  }

  /** Severing more static devices keeps what a process refuses. */
  lemma SeveringKeeps(p: Proc, q: Proc, id: string)
    requires WellNamed(p) && Exporting(p, q) && (Remembers(p, id) || Unstorable(p))
    ensures WellNamed(q) && (Remembers(q, id) || Unstorable(q))
  {
    assert q.devices.Keys == p.devices.Keys;
  }

  lemma CrashStaysRevoked(w: World, step: Step, w': World, id: string)
    requires StaysRevoked(w, id) && !IsCeremonyId(id)
    requires step.Crash? && CrashStep(w, step.memory, step.size, step.point, step.powerCut, w')
    ensures StaysRevoked(w', id)
  {
    if !HealSpec(w.dir, step.point) {
      var p, q := w.proc.value, step.memory;
      SeveringKeeps(p, q, id);
      ExportKeepsRevoked(w.dir, q, step.size, step.point, id);
    }
    if step.powerCut {
      CutKeepsRevoked(step.point, w'.dir, id);
    }
  }

  /** An export by a process that refuses the device, of its next memory. */
  lemma UpdateStaysRevoked(w: World, q: Proc, size: nat, w': World, id: string)
    requires StaysRevoked(w, id) && !IsCeremonyId(id) && w.proc.Some? && !Mute(w.proc.value)
    requires Exporting(w.proc.value, q) && SavePoint(w.dir, FileOf(Snapshot(q), size), w'.dir)
    requires w'.proc.Some? && w'.proc.value == q.(quarantined := w'.proc.value.quarantined)
    ensures StaysRevoked(w', id)
  {
    SeveringKeeps(w.proc.value, q, id);
    ExportKeepsRevoked(w.dir, q, size, w'.dir, id);
    StillRevoked(w.proc.value, q, w'.proc.value.quarantined, id);
  }

  lemma StillRevoked(p: Proc, q: Proc, quarantined: bool, id: string)
    requires ProcRevoked(p, id) && Exporting(p, q) && WellNamed(q) && (Remembers(q, id) || Unstorable(q))
    ensures ProcRevoked(q.(quarantined := quarantined), id)
  {
    assert q.devices.Keys == p.devices.Keys;
  }

  lemma RevokeStaysRevoked(w: World, x: string, now: int, size: nat, result: SaveResult, w': World, id: string)
    requires StaysRevoked(w, id) && RevokeStep(w, x, now, size, result, w') && !IsCeremonyId(id)
    ensures StaysRevoked(w', id)
  {
    var p := w.proc.value;
    UpdateStaysRevoked(w, p.(devices := p.devices[x := Severed(p.devices[x], now)]), size, w', id);
  }

  lemma RegistryStaysRevoked(
    w: World, t: Table, aliases: set<string>, now: int, size: nat, w': World, id: string)
    requires StaysRevoked(w, id) && !IsCeremonyId(id) && w.proc.Some? && w.proc.value.registry.Some? && CeremonyTable(t)
    requires var q := w.proc.value.(registry := Some(t), devices := AliasesSevered(w.proc.value.devices, aliases, now));
             && SavePoint(w.dir, FileOf(Snapshot(q), size), w'.dir)
             && w'.proc.Some? && w'.proc.value == q.(quarantined := w'.proc.value.quarantined)
    ensures StaysRevoked(w', id)
  {
    var q := w.proc.value.(registry := Some(t), devices := AliasesSevered(w.proc.value.devices, aliases, now));
    UpdateStaysRevoked(w, q, size, w', id);
  }

  lemma StepStaysRevoked(w: World, step: Step, w': World, id: string)
    requires StaysRevoked(w, id) && Next(w, step, w') && !MayForget(w, step, id) && !IsCeremonyId(id)
    ensures StaysRevoked(w', id)
  {
    match step {
      case Boot(_, _, _, _, _, _, _, _, _) => BootStaysRevoked(w, step, w', id);
      case Revoke(x, now, size, result) => RevokeStaysRevoked(w, x, now, size, result, w', id);
      case RetryRevoke(size, result) => UpdateStaysRevoked(w, w.proc.value, size, w', id);
      case RevokeEnrolled(t, size, result) =>
        NoAliases(w.proc.value.devices);
        RegistryStaysRevoked(w, t, {}, 0, size, w', id);
      case Enrol(t, aliases, now, size, result) => RegistryStaysRevoked(w, t, aliases, now, size, w', id);
      case RegistryLost => LosingStaysRevoked(w, w', id);
      case Crash(_, _, _, _) => CrashStaysRevoked(w, step, w', id);
      case _ =>
    }
  }

  lemma LosingStaysRevoked(w: World, w': World, id: string)
    requires StaysRevoked(w, id) && w.proc.Some? && w' == w.(proc := Some(w.proc.value.(registry := None)))
    ensures StaysRevoked(w', id)
  {
  }

  lemma NoAliases(ds: map<string, Static>)
    ensures AliasesSevered(ds, {}, 0) == ds
  {
  }

  lemma NextWellNamed(w: World, step: Step, w': World)
    requires w.proc.Some? ==> WellNamed(w.proc.value)
    requires Next(w, step, w')
    ensures w'.proc.Some? ==> WellNamed(w'.proc.value)
  {
    if step.Boot? {
      BootWellNamed(step.keys, step.enrolling, step.registry, LoadOf(w.dir, step.io), step.now);
    }
  }

  lemma BootWellNamed(keys: Keys, enrolling: bool, registry: Option<Table>, loaded: Load, now: int)
    requires KeysOk(keys) && (registry.Some? ==> enrolling && CeremonyTable(registry.value))
    ensures WellNamed(BootProc(keys, enrolling, registry, loaded, now))
  {
  }

  lemma {:induction false} RunWellNamed(ws: seq<World>, steps: seq<Step>, i: nat)
    requires Run(ws, steps) && i < |ws|
    ensures ws[i].proc.Some? ==> WellNamed(ws[i].proc.value)
    decreases i
  {
    if i > 0 {
      RunWellNamed(ws, steps, i - 1);
      assert Next(ws[i - 1], steps[i - 1], ws[i]);
      NextWellNamed(ws[i - 1], steps[i - 1], ws[i]);
    }
  }

  /** The answer to a revoke: durably on disk, or quarantined and killed in the same step. */
  lemma RevokeAnswer(w: World, id: string, now: int, size: nat, result: SaveResult, w': World)
    requires RevokeStep(w, id, now, size, result, w') && WellNamed(w.proc.value)
    ensures !IsCeremonyId(id)
    ensures result == Published(true) ==> StaysRevoked(w', id) && w'.killed == w.killed
    ensures result != Published(true) ==> w'.killed && w'.proc.value.quarantined
  {
    if result == Published(true) {
      var p := w.proc.value.(devices := w.proc.value.devices[id := Severed(w.proc.value.devices[id], now)]);
      DurableExportRevokes(w.dir, p, size, w'.dir, id);
    }
  }

  lemma NextKeepsSevered(w: World, step: Step, w': World, id: string)
    requires (w.killed || StaysRevoked(w, id)) && Next(w, step, w')
    requires !step.Restore? && !MayForget(w, step, id) && !IsCeremonyId(id)
    ensures w'.killed || StaysRevoked(w', id)
  {
    if StaysRevoked(w, id) {
      StepStaysRevoked(w, step, w', id);
    }
  }

  lemma {:induction false} RevokedOrKilled(ws: seq<World>, steps: seq<Step>, i: nat, j: nat, id: string)
    requires Run(ws, steps) && i < j < |ws| && steps[i].Revoke? && steps[i].id == id
    requires forall k :: i < k < j ==> !steps[k].Restore? && !MayForget(ws[k], steps[k], id)
    ensures !IsCeremonyId(id) && (ws[j].killed || StaysRevoked(ws[j], id))
    decreases j
  {
    if j == i + 1 {
      RunWellNamed(ws, steps, i);
      RevokeAnswer(ws[i], id, steps[i].now, steps[i].size, steps[i].result, ws[j]);
    } else {
      RevokedOrKilled(ws, steps, i, j - 1, id);
      NextKeepsSevered(ws[j - 1], steps[j - 1], ws[j], id);
    }
  }

  /** Whom every file and the process itself refuse, no ack backs a release. */
  lemma RevokedBacksNothing(w: World, id: string)
    requires StaysRevoked(w, id) && !IsCeremonyId(id)
    ensures !Backs(w, id)
  {
  }

  /**
   * Once a static device's revoke was answered, it backs no silence release in
   * any later state, across crashes, power cuts, restarts and key-file edits,
   * until a restore, provided no boot on the way could forget it.
   */
  lemma RevocationSurvives(ws: seq<World>, steps: seq<Step>, i: nat, j: nat, id: string)
    requires Run(ws, steps) && i < j < |ws| && steps[i].Revoke? && steps[i].id == id
    requires forall k :: i < k < j ==> !steps[k].Restore? && !MayForget(ws[k], steps[k], id)
    ensures !Backs(ws[j], id)
  {
    RevokedOrKilled(ws, steps, i, j, id);
    if !ws[j].killed {
      RevokedBacksNothing(ws[j], id);
    }
  }

  /** A revoke, or the retry of one whose export failed, answered as durably done. */
  predicate DurablyAnswered(w: World, step: Step, id: string) {
    || (step.Revoke? && step.id == id && step.result == Published(true))
    || (&& step.RetryRevoke? && step.result == Published(true)
        && w.proc.Some? && id in w.proc.value.devices && w.proc.value.devices[id].revokedAt.Some?)
  }

  lemma DurableAnswerRevokes(w: World, step: Step, w': World, id: string)
    requires Next(w, step, w') && (w.proc.Some? ==> WellNamed(w.proc.value)) && DurablyAnswered(w, step, id)
    ensures !IsCeremonyId(id) && StaysRevoked(w', id)
  {
    if step.Revoke? {
      RevokeAnswer(w, id, step.now, step.size, step.result, w');
    } else {
      DurableExportRevokes(w.dir, w.proc.value, step.size, w'.dir, id);
    }
  }

  lemma {:induction false} DurablyRevokedStays(ws: seq<World>, steps: seq<Step>, i: nat, j: nat, id: string)
    requires Run(ws, steps) && i < j < |ws| && DurablyAnswered(ws[i], steps[i], id)
    requires forall k :: i < k < j ==> !MayForget(ws[k], steps[k], id)
    ensures !IsCeremonyId(id) && StaysRevoked(ws[j], id)
    decreases j
  {
    hide BootStep, EnrolStep, CrashStep;
    if j == i + 1 {
      RunWellNamed(ws, steps, i);
      DurableAnswerRevokes(ws[i], steps[i], ws[j], id);
    } else {
      DurablyRevokedStays(ws, steps, i, j - 1, id);
      assert Next(ws[j - 1], steps[j - 1], ws[j]);
      StepStaysRevoked(ws[j - 1], steps[j - 1], ws[j], id);
    }
  }

  /**
   * And once it was answered durably, on the revoke itself or on the retry
   * that recovers from a failed export, not even restores bring it back.
   */
  lemma DurableRevocationIsForever(ws: seq<World>, steps: seq<Step>, i: nat, j: nat, id: string)
    requires Run(ws, steps) && i < j < |ws| && DurablyAnswered(ws[i], steps[i], id)
    requires forall k :: i < k < j ==> !MayForget(ws[k], steps[k], id)
    ensures !Backs(ws[j], id)
  {
    DurablyRevokedStays(ws, steps, i, j, id);
    RevokedBacksNothing(ws[j], id);
  }

  // ---- and exactly which boot forgets --------------------------------------------------------------

  /** Steps from a state on, none of them a boot that may forget the device. */
  ghost predicate Continues(w: World, ws: seq<World>, steps: seq<Step>, id: string) {
    && |ws| == |steps| + 1 && ws[0] == w
    && forall k :: 0 <= k < |steps| ==> Next(ws[k], steps[k], ws[k + 1]) && !MayForget(ws[k], steps[k], id)
  }

  ghost predicate CanBackAgain(w: World, id: string) {
    exists ws, steps :: Continues(w, ws, steps, id) && Backs(ws[|steps|], id)
  }

  lemma {:induction false} ContinuesStaysRevoked(w: World, ws: seq<World>, steps: seq<Step>, id: string, k: nat)
    requires Continues(w, ws, steps, id) && StaysRevoked(w, id) && !IsCeremonyId(id) && k < |ws|
    ensures StaysRevoked(ws[k], id)
  {
    if k > 0 {
      ContinuesStaysRevoked(w, ws, steps, id, k - 1);
      StepStaysRevoked(ws[k - 1], steps[k - 1], ws[k], id);
    }
  }

  /** There is always one more name. */
  lemma {:induction false} Longest(names: set<string>) returns (n: nat)
    ensures forall x :: x in names ==> |x| < n
    decreases |names|
  {
    n := 0;
    if x :| x in names {
      var m := Longest(names - {x});
      n := if |x| < m then m else |x| + 1;
    }
  }

  lemma FreshName(prefix: string, names: set<string>) returns (x: string)
    ensures x !in names && |x| > |prefix| && prefix <= x
    ensures forall i :: |prefix| <= i < |x| ==> x[i] == 'A'
  {
    var n := Longest(names);
    x := prefix + seq(n + 1, _ => 'A');
  }

  /** The registry after one more phone enrolled. */
  ghost predicate OneMore(t: Table, t': Table, spkis: set<string>) {
    && CeremonyTable(t') && SpkisOf(t') <= spkis && forall id :: id in t ==> id in t' && t'[id] == t[id]
  }

  lemma EnrolOne(t: Table) returns (t': Table, spkis: set<string>)
    requires CeremonyTable(t)
    ensures OneMore(t, t', spkis)
  {
    var added := FreshName("dev_", t.Keys);
    var e := DeviceStanding(1, None, Some("A"));
    t' := t[added := e];
    spkis := SpkisOf(t) + {"A"};
    assert added[..4] == "dev_";
    assert ':' !in added && added !in FORBIDDEN_IDS by {
      assert added[0] == 'd';
    }
    assert EntryOk(2, added, e);
    forall x | x in SpkisOf(t')
      ensures x in spkis
    {
      var id :| id in t' && t'[id].spki == Some(x);
      assert id == added || (id in t && t[id].spki == Some(x));
    }
  }

  /** After a durable save of t: the file alone, and a marker. */
  function Rewritten(d: StandingDir, t: Table): StandingDir {
    var f := Some(FileOf(t, 100));
    var note := Some(File((), 162, 162, true));
    Dir(Entry(f, {f}), if d.marker.visible.Some? then d.marker else Entry(note, {note}))
  }

  lemma RewritesDurably(d: StandingDir, t: Table)
    requires Sound(d)
    ensures SaveSpec(d, FileOf(t, 100), Rewritten(d, t), Published(true)) && Sound(Rewritten(d, t))
    ensures HealSpec(Rewritten(d, t), Rewritten(d, t))
  {
  }

  /** What a forgetting boot holds, its enrolment exports in full, and without the device. */
  lemma ForgetfulExport(keys: Keys, t: Table, t': Table, now: int, id: string)
    requires KeysOk(keys) && keys.Keys !! FORBIDDEN_IDS && id !in keys && !IsCeremonyId(id)
    requires CeremonyTable(t) && CeremonyTable(t')
    ensures var boot := BootProc(keys, true, Some(t), Corrupt, now);
            boot.enrolling && boot.registry == Some(t)
    ensures var p := BootProc(keys, true, Some(t), Corrupt, now).(registry := Some(t'));
            && id !in Snapshot(p) && AsPersistedDeviceStanding(Document(2, Snapshot(p))) == Some(Snapshot(p))
            && SpkisOf(Snapshot(p)) <= SpkisOf(t')
  {
    var p := BootProc(keys, true, Some(t), Corrupt, now).(registry := Some(t'));
    var out := Snapshot(p);
    forall x | x in out
      ensures EntryOk(2, x, out[x])
      ensures out[x].spki.Some? ==> x in t' && out[x] == t'[x]
    {
    }
  }

  /** A boot on a readable file that never heard of the device provisions it afresh. */
  lemma FreshBoot(id: string, spki: string, t: Table)
    requires id !in t && spki !in SpkisOf(t)
    ensures var p := BootProc(map[id := spki], false, None, Loaded(t), 0);
            p.devices == map[id := Static(1, None, spki)] && !p.quarantined
  {
    var history := HistoryOf(map[id := spki], t);
    assert SpkisOf(history) <= SpkisOf(t);
  }

  lemma FourContinue(
    w0: World, w1: World, w2: World, w3: World, w4: World, s0: Step, s1: Step, s2: Step, s3: Step, id: string)
    returns (ws: seq<World>, steps: seq<Step>)
    requires Next(w0, s0, w1) && Next(w1, s1, w2) && Next(w2, s2, w3) && Next(w3, s3, w4)
    requires !MayForget(w0, s0, id) && !MayForget(w1, s1, id) && !MayForget(w2, s2, id) && !MayForget(w3, s3, id)
    ensures Continues(w0, ws, steps, id) && |steps| == 4 && ws[3] == w3 && ws[4] == w4
    ensures steps[0] == s0 && steps[1] == s1 && steps[2] == s2 && steps[3] == s3
  {
    hide Next, MayForget;
    ws, steps := [w0, w1, w2, w3, w4], [s0, s1, s2, s3];
    forall k | 0 <= k < |steps|
      ensures Next(ws[k], steps[k], ws[k + 1]) && !MayForget(ws[k], steps[k], id)
    {
      if k == 0 {
      } else if k == 1 {
      } else if k == 2 {
      } else {
        assert k == 3;
      }
    }
  }

  lemma EnrolForgets(w: World, p: Proc, t': Table)
    requires w.proc == Some(p) && p.enrolling && p.registry.Some? && CeremonyTable(t') && Sound(w.dir)
    ensures var p' := p.(registry := Some(t'));
            Next(w, Enrol(t', {}, 0, 100, Published(true)), World(Some(p'), Rewritten(w.dir, Snapshot(p')), w.killed))
  {
    NoAliases(p.devices);
    assert AliasesSevered(p.devices, {}, 0) == p.devices;
    RewritesDurably(w.dir, Snapshot(p.(registry := Some(t'))));
  }

  lemma RewrittenLoads(d: StandingDir, t: Table)
    requires Sound(d) && AsPersistedDeviceStanding(Document(2, t)) == Some(t)
    ensures LoadOf(Rewritten(d, t), LoadIo(true, true)) == Loaded(t)
  {
  }

  lemma CrashesThere(w: World, p: Proc)
    requires w.proc == Some(p) && Sound(w.dir)
    ensures Next(w, Crash(p, 0, w.dir, false), w.(proc := None))
  {
  }

  lemma RestoresThere(w: World)
    ensures Next(w, Restore, w.(killed := false))
  {
  }

  lemma BootsAfresh(w: World, id: string, spki: string, t: Table) returns (step: Step, w': World)
    requires w.proc == None && NameOk(id) && id !in t && spki !in SpkisOf(t)
    requires Sound(w.dir) && LoadOf(w.dir, LoadIo(true, true)) == Loaded(t)
    ensures step.Boot? && id in step.keys && Next(w, step, w')
    ensures w'.proc.Some? && id in w'.proc.value.devices && w'.proc.value.devices[id] == Static(1, None, spki)
    ensures !w'.proc.value.quarantined && w'.killed == w.killed
  {
    FreshBoot(id, spki, t);
    var p := BootProc(map[id := spki], false, None, Loaded(t), 0);
    RewritesDurably(w.dir, Snapshot(p));
    step := Boot(map[id := spki], false, None, 0, LoadIo(true, true), w.dir, 100, Published(true), false);
    w' := World(Some(p), Rewritten(w.dir, Snapshot(p)), w.killed);
    assert Exports(step.mid, p, step.size, step.result, w'.dir);
  }

  /** One enrolment after a forgetting boot, a crash, and a boot with the key back. */
  lemma ForgottenBacks(w: World, keys: Keys, t: Table, now: int, id: string)
    returns (ws: seq<World>, steps: seq<Step>)
    requires KeysOk(keys) && keys.Keys !! FORBIDDEN_IDS && id !in keys && NameOk(id) && CeremonyTable(t) && Sound(w.dir)
    requires w.proc == Some(BootProc(keys, true, Some(t), Corrupt, now))
    ensures Continues(w, ws, steps, id) && |steps| == 4 && Backs(ws[4], id)
    ensures steps[0].Enrol? && steps[1].Crash? && steps[2].Boot? && (!w.killed ==> Backs(ws[3], id))
  {
    hide Next, BootProc, Snapshot, Rewritten, SpkisOf, AsPersistedDeviceStanding, LoadOf, Continues;
    var p := w.proc.value;
    var t', spkis := EnrolOne(t);
    var spki := FreshName("", spkis);
    var p1 := p.(registry := Some(t'));
    var out := Snapshot(p1);
    ForgetfulExport(keys, t, t', now, id);
    EnrolForgets(w, p, t');
    RewritesDurably(w.dir, out);
    RewrittenLoads(w.dir, out);
    var w1 := World(Some(p1), Rewritten(w.dir, out), w.killed);
    CrashesThere(w1, p1);
    var boot, w3 := BootsAfresh(w1.(proc := None), id, spki, out);
    RestoresThere(w3);
    var enrol, crash := Enrol(t', {}, 0, 100, Published(true)), Crash(p1, 0, w1.dir, false);
    ws, steps := FourContinue(w, w1, w1.(proc := None), w3, w3.(killed := false), enrol, crash, boot, Restore, id);
  }

  /**
   * A boot on a file that shows the device revoked can lead to it backing a
   * release again, with no further forgetting boot, if and only if this boot
   * may forget it: a corrupt or unreadable file, the key removed, a usable
   * registry. One enrolment later the file no longer knows it was revoked.
   */
  lemma ForgettingIsExact(w: World, step: Step, w': World, id: string)
    requires FileRevoked(w.dir, id) && step.Boot? && Next(w, step, w') && NameOk(id)
    ensures CanBackAgain(w', id) <==> MayForget(w, step, id)
  {
    if MayForget(w, step, id) {
      assert BootProc(step.keys, true, step.registry, Corrupt, step.now)
          == BootProc(step.keys, step.enrolling, step.registry, LoadOf(w.dir, step.io), step.now);
      var ws, steps := ForgottenBacks(w', step.keys, step.registry.value, step.now, id);
    } else {
      BootStaysRevoked(w, step, w', id);
      if ws, steps :| Continues(w', ws, steps, id) && Backs(ws[|steps|], id) {
        ContinuesStaysRevoked(w', ws, steps, id, |steps|);
        RevokedBacksNothing(ws[|steps|], id);
      }
    }
  }

  const NoFile: StandingDir := Dir(Entry(None, {None}), Entry(None, {None}))

  lemma FirstBoots(id: string, spki: string) returns (step: Step, w': World)
    requires NameOk(id)
    ensures step.Boot? && Next(World(None, NoFile, false), step, w')
    ensures w'.proc == Some(Proc(map[id := Static(1, None, spki)], map[], true, Some(map[]), false))
    ensures Sound(w'.dir) && !w'.killed
  {
    var keys: Keys := map[id := spki];
    var p := BootProc(keys, true, Some(map[]), Absent, 0);
    assert Migrated(map[], Some(map[])) == {};
    assert p.devices == map[id := Static(1, None, spki)];
    RewritesDurably(NoFile, Snapshot(p));
    step := Boot(keys, true, Some(map[]), 0, LoadIo(true, true), NoFile, 100, Published(true), false);
    w' := World(Some(p), Rewritten(NoFile, Snapshot(p)), false);
    assert Exports(NoFile, p, 100, Published(true), w'.dir);
  }

  lemma Revokes(w: World, p: Proc, id: string) returns (w': World)
    requires w.proc == Some(p) && id in p.devices && p.devices[id].revokedAt.None? && Sound(w.dir)
    ensures Next(w, Revoke(id, 0, 100, Published(true)), w')
    ensures w'.proc.Some? && Sound(w'.dir) && w'.killed == w.killed
  {
    var p' := p.(devices := p.devices[id := Severed(p.devices[id], 0)]);
    RewritesDurably(w.dir, Snapshot(p'));
    w' := World(Some(p'.(quarantined := false)), Rewritten(w.dir, Snapshot(p')), w.killed);
  }

  /** A boot without the key on a file it cannot read: nothing is published, nothing is kept. */
  lemma BootsBlind(w: World, keys: Keys) returns (step: Step, w': World)
    requires w.proc == None && Sound(w.dir) && KeysOk(keys)
    ensures step.Boot? && step.keys == keys && step.registry == Some(map[])
    ensures LoadOf(w.dir, step.io).Corrupt? && Next(w, step, w')
    ensures w' == World(Some(BootProc(keys, true, Some(map[]), Corrupt, 0)), w.dir, w.killed)
  {
    step := Boot(keys, true, Some(map[]), 0, LoadIo(false, true), w.dir, 100, Threw, false);
    w' := World(Some(BootProc(keys, true, Some(map[]), Corrupt, 0)), w.dir, w.killed);
  }

  lemma RunContinues(ws: seq<World>, steps: seq<Step>, ws': seq<World>, steps': seq<Step>, id: string)
    returns (all: seq<World>, every: seq<Step>)
    requires Run(ws, steps) && Continues(ws[|steps|], ws', steps', id)
    ensures Run(all, every) && |every| == |steps| + |steps'|
    ensures (forall n :: 0 <= n <= |steps| ==> all[n] == ws[n]) && forall n :: 0 <= n < |steps| ==> every[n] == steps[n]
    ensures forall n :: |steps| <= n <= |every| ==> all[n] == ws'[n - |steps|]
    ensures forall n :: |steps| <= n < |every| ==>
              every[n] == steps'[n - |steps|] && !MayForget(all[n], every[n], id)
  {
    all, every := ws + ws'[1..], steps + steps';
    forall i | 0 <= i < |every|
      ensures Next(all[i], every[i], all[i + 1])
      ensures i >= |steps| ==> !MayForget(all[i], every[i], id)
    {
      if i >= |steps| {
        assert all[i] == ws'[i - |steps|] && all[i + 1] == ws'[i - |steps| + 1];
      }
    }
  }

  lemma FourRun(w0: World, w1: World, w2: World, w3: World, w4: World, s0: Step, s1: Step, s2: Step, s3: Step)
    returns (ws: seq<World>, steps: seq<Step>)
    requires w0.proc == None && Sound(w0.dir)
    requires Next(w0, s0, w1) && Next(w1, s1, w2) && Next(w2, s2, w3) && Next(w3, s3, w4)
    ensures Run(ws, steps) && |steps| == 4 && ws[0] == w0 && ws[1] == w1 && ws[2] == w2 && ws[3] == w3 && ws[4] == w4
    ensures steps[0] == s0 && steps[1] == s1 && steps[2] == s2 && steps[3] == s3
  {
    ws, steps := [w0, w1, w2, w3, w4], [s0, s1, s2, s3];
    forall k | 0 <= k < |steps|
      ensures Next(ws[k], steps[k], ws[k + 1])
    {
      if k == 0 {
      } else if k == 1 {
      } else if k == 2 {
      } else {
        assert k == 3;
      }
    }
  }

  /** Boot with the phone, revoke it durably, die, and boot blind under these keys. */
  lemma RevokedThenBlind(id: string, spki: string, keys: Keys) returns (ws: seq<World>, steps: seq<Step>)
    requires NameOk(id) && KeysOk(keys) && id !in keys && keys.Keys !! FORBIDDEN_IDS
    ensures Run(ws, steps) && |steps| == 4 && DurablyAnswered(ws[1], steps[1], id)
    ensures steps[0].Boot? && steps[2].Crash? && steps[3].Boot? && MayForget(ws[3], steps[3], id)
    ensures Sound(ws[4].dir) && !ws[4].killed && ws[4].proc == Some(BootProc(keys, true, Some(map[]), Corrupt, 0))
  {
    var w0 := World(None, NoFile, false);
    var first, w1 := FirstBoots(id, spki);
    var w2 := Revokes(w1, w1.proc.value, id);
    var w3 := w2.(proc := None);
    CrashesThere(w2, w2.proc.value);
    var blind, w4 := BootsBlind(w3, keys);
    var revoke, crash := Revoke(id, 0, 100, Published(true)), Crash(w2.proc.value, 0, w2.dir, false);
    ws, steps := FourRun(w0, w1, w2, w3, w4, first, revoke, crash, blind);
  }

  /**
   * The run: boot with the phone, revoke it durably, leave another key in its
   * place, boot once while the file cannot be read, enrol another phone, boot
   * with the key back. The revoked phone backs releases again, with no restore
   * on the way; one after changes nothing.
   */
  lemma RevokedPhoneReturns(id: string, spki: string, other: string) returns (ws: seq<World>, steps: seq<Step>)
    requires NameOk(id) && NameOk(other) && other != id && other !in FORBIDDEN_IDS
    ensures Run(ws, steps) && |steps| == 8 && DurablyAnswered(ws[1], steps[1], id) && MayForget(ws[3], steps[3], id)
    ensures forall k :: 1 < k < 8 && k != 3 ==> !MayForget(ws[k], steps[k], id)
    ensures (forall k :: 0 <= k < 7 ==> !steps[k].Restore?) && Backs(ws[7], id) && Backs(ws[8], id)
  {
    hide BootStep, EnrolStep, CrashStep, RevokeStep, RevokeEnrolledStep;
    var keys: Keys := map[other := spki];
    var ws4, steps4 := RevokedThenBlind(id, spki, keys);
    var ws', steps' := ForgottenBacks(ws4[4], keys, map[], 0, id);
    ws, steps := RunContinues(ws4, steps4, ws', steps', id);
    forall k | 1 < k < 8 && k != 3
      ensures !MayForget(ws[k], steps[k], id)
    {
      if k == 2 {
        assert steps[2].Crash?;
      }
    }
  }

  // ---- the server's own fields ------------------------------------------------------------------------------

  lemma OverlaidIs(devices: map<string, Static>, keys: Keys, t: Table)
    requires devices.Keys == keys.Keys
    requires forall id :: id in keys ==>
               devices[id] == if id in t then Static(t[id].generation, t[id].revokedAt, keys[id])
                              else Static(1, None, keys[id])
    ensures devices == Overlaid(keys, t)
  {
  }

  /** The standing half of the server: what it holds, and the store it exports to. */
  class StandingKeeper {
    const store: DeviceStandingFileStore
    var ownerDevices: map<string, Static>
    var unenrolledStanding: Table
    var enrolling: bool
    var registry: Option<Table>
    var standingQuarantined: bool

    ghost function Memory(): Proc
      reads this
    {
      Proc(ownerDevices, unenrolledStanding, enrolling, registry, standingQuarantined)
    }

    constructor (store: DeviceStandingFileStore, keys: Keys, enrolling: bool, registry: Option<Table>)
      ensures this.store == store
      ensures Memory() == Proc(Provisioned(keys), map[], enrolling, registry, false)
    {
      this.store, this.enrolling, this.registry, standingQuarantined := store, enrolling, registry, false;
      ownerDevices, unenrolledStanding := Provisioned(keys), map[];
    }

    /** Standing retained for ids not in the keys file, ceremony entries as tombstones. */
    method ExportHistory() returns (t: Table)
      ensures t == map id | id in unenrolledStanding :: Tombstone(id, unenrolledStanding[id])
    {
      t := map[];
      var left := unenrolledStanding.Keys;
      while left != {}
        invariant left <= unenrolledStanding.Keys
        invariant t.Keys == unenrolledStanding.Keys - left
        invariant forall id :: id in t ==> t[id] == Tombstone(id, unenrolledStanding[id])
      {
        var id :| id in left;
        var e := unenrolledStanding[id];
        if e.spki != None || IsCeremonyId(id) {
          e := e.(revokedAt := Some(if e.revokedAt != None then e.revokedAt.value else 0));
        }
        t := t[id := e];
        left := left - {id};
      }
    }

    method ExportStatics(history: Table) returns (t: Table)
      ensures t == history + map id | id in ownerDevices ::
                     DeviceStanding(ownerDevices[id].generation, ownerDevices[id].revokedAt, None)
    {
      t := history;
      var left := ownerDevices.Keys;
      while left != {}
        invariant left <= ownerDevices.Keys
        invariant t.Keys == history.Keys + (ownerDevices.Keys - left)
        invariant forall id :: id in t ==>
                    t[id] == if id in ownerDevices && id !in left
                             then DeviceStanding(ownerDevices[id].generation, ownerDevices[id].revokedAt, None)
                             else history[id]
      {
        var id :| id in left;
        t := t[id := DeviceStanding(ownerDevices[id].generation, ownerDevices[id].revokedAt, None)];
        left := left - {id};
      }
    }

    /** History first, then the keys file's devices, then whatever the registry vouches for. */
    method ComposeSnapshot() returns (t: Table)
      ensures t == Snapshot(Memory())
    {
      t := ExportHistory();
      t := ExportStatics(t);
      if registry.Some? {
        t := t + registry.value;
      }
    }

    method PersistStanding(size: nat) returns (r: SaveResult)
      requires Sound(store.volume.Now())
      modifies store.volume
      ensures Exports(old(store.volume.Now()), Memory(), size, r, store.volume.Now())
    {
      var t := ComposeSnapshot();
      r := store.Save(Document(2, t), size);
    }

    /** Static names for keys the enrolment namespace already owns are revoked in memory. */
    method ReconcileStaticAliases(now: int)
      modifies this`ownerDevices
      ensures Memory() == old(Memory()).(devices :=
                Reconciled(old(ownerDevices), Migrated(unenrolledStanding, registry), now))
    {
      var migrated := Migrated(unenrolledStanding, registry);
      ghost var before := ownerDevices;
      var left := ownerDevices.Keys;
      while left != {}
        invariant left <= ownerDevices.Keys == before.Keys
        invariant forall id :: id in before ==>
                    ownerDevices[id] == if id in left then before[id] else Reconciled(before, migrated, now)[id]
      {
        var id :| id in left;
        var d := ownerDevices[id];
        if d.revokedAt == None && d.spki in migrated {
          ownerDevices := ownerDevices[id := d.(revokedAt := Some(now), generation := d.generation + 1)];
        }
        left := left - {id};
      }
      assert ownerDevices == Reconciled(before, migrated, now);
    }

    method RevokeAll()
      modifies this`ownerDevices
      ensures ownerDevices == AllRevoked(old(ownerDevices))
    {
      ghost var before := ownerDevices;
      var left := ownerDevices.Keys;
      while left != {}
        invariant left <= ownerDevices.Keys == before.Keys
        invariant forall id :: id in before ==>
                    ownerDevices[id] == if id in left then before[id] else AllRevoked(before)[id]
      {
        var id :| id in left;
        var d := ownerDevices[id];
        ownerDevices := ownerDevices[id := d.(revokedAt := Some(0), generation := d.generation + 1)];
        left := left - {id};
      }
      assert ownerDevices == AllRevoked(before);
    }

    /** Overlay the loaded standing on the provisioned devices; keep the rest as history. */
    method Absorb(t: Table, ghost keys: Keys)
      requires ownerDevices == Provisioned(keys) && unenrolledStanding == map[]
      modifies this`ownerDevices, this`unenrolledStanding
      ensures ownerDevices == Overlaid(keys, t) && unenrolledStanding == HistoryOf(keys, t)
    {
      hide Overlaid;
      var left := t.Keys;
      while left != {}
        invariant left <= t.Keys && ownerDevices.Keys == keys.Keys
        invariant forall id :: id in keys ==>
                    ownerDevices[id] == if id in t && id !in left
                                        then Static(t[id].generation, t[id].revokedAt, keys[id])
                                        else Static(1, None, keys[id])
        invariant unenrolledStanding == map id | id in t.Keys - left && id !in keys :: t[id]
      {
        var id :| id in left;
        AbsorbOne(id, t[id]);
        left := left - {id};
      }
      OverlaidIs(ownerDevices, keys, t);
    }

    /** One entry of the file: onto its device, or kept as history. */
    method AbsorbOne(id: string, s: DeviceStanding)
      modifies this`ownerDevices, this`unenrolledStanding
      ensures if id in old(ownerDevices) then
                && ownerDevices
                   == old(ownerDevices)[id := Static(s.generation, s.revokedAt, old(ownerDevices)[id].spki)]
                && unenrolledStanding == old(unenrolledStanding)
              else
                ownerDevices == old(ownerDevices) && unenrolledStanding == old(unenrolledStanding)[id := s]
    {
      if id in ownerDevices {
        var d := ownerDevices[id].(generation := s.generation, revokedAt := s.revokedAt);
        ownerDevices := ownerDevices[id := d];
      } else {
        unenrolledStanding := unenrolledStanding[id := s];
      }
    }

    /** Boot reconciliation; false means the lane refuses to start. */
    method Boot(ghost keys: Keys, now: int, size: nat)
      returns (ok: bool, ghost io: LoadIo, ghost mid: StandingDir, ghost result: SaveResult)
      requires Sound(store.volume.Now()) && Memory() == Proc(Provisioned(keys), map[], enrolling, registry, false)
      requires registry.Some? ==> enrolling
      modifies this, store.volume
      ensures var d, loaded := old(store.volume.Now()), LoadOf(old(store.volume.Now()), io);
              && Memory() == BootProc(keys, old(enrolling), old(registry), loaded, now)
              && if BootPublishes(keys, old(enrolling), loaded) then
                   && HealSpec(d, mid) && Exports(mid, Memory(), size, result, store.volume.Now())
                   && ok == (result == Published(true))
                 else ok && (NoProducer(keys, old(enrolling)) || HealSpec(d, store.volume.Now()))
    {
      io, mid, result, ok := LoadIo(true, true), store.volume.Now(), Threw, true;
      if ownerDevices == map[] && !enrolling {
        return;
      }
      var loaded;
      loaded, io := store.Load();
      mid := store.volume.Now();
      match loaded {
        case Corrupt =>
          RevokeAll();
          return;
        case Absent =>
        case Loaded(t) => Absorb(t, keys);
      }
      ReconcileStaticAliases(now);
      var saved := PersistStanding(size);
      result := saved;
      ok := saved == Published(true);
    }

    /** Mark, export, and either stand durably revoked or quarantine; `kill` asks for the durable kill. */
    method RevokeStatic(id: string, now: int, size: nat) returns (kill: bool, ghost result: SaveResult)
      requires Sound(store.volume.Now()) && id in ownerDevices && ownerDevices[id].revokedAt == None
      modifies this, store.volume
      ensures var p := old(Memory()).(devices := old(ownerDevices)[id := Severed(old(ownerDevices)[id], now)]);
              && Exports(old(store.volume.Now()), p, size, result, store.volume.Now())
              && Memory() == p.(quarantined := result != Published(true))
              && kill == (result != Published(true))
    {
      hide Snapshot;
      var d := ownerDevices[id];
      ownerDevices := ownerDevices[id := d.(revokedAt := Some(now), generation := d.generation + 1)];
      var saved := PersistStanding(size);
      result := saved;
      standingQuarantined := saved != Published(true);
      kill := standingQuarantined;
    }

    /** The retry of a revoke whose export failed: lift the quarantine once the export is durable. */
    method RetryExport(size: nat) returns (exported: bool, ghost result: SaveResult)
      requires Sound(store.volume.Now())
      modifies this`standingQuarantined, store.volume
      ensures Exports(old(store.volume.Now()), old(Memory()), size, result, store.volume.Now())
      ensures Memory() == old(Memory()).(quarantined := result != Published(true))
      ensures exported == (result == Published(true))
    {
      var saved := PersistStanding(size);
      result := saved;
      exported := saved == Published(true);
      standingQuarantined := !exported;
    }

    /** After the registry's own durable revoke: re-export what it now vouches for. */
    method ExportRegistry(projection: Table, size: nat) returns (exported: bool, ghost result: SaveResult)
      requires Sound(store.volume.Now())
      modifies this`registry, this`standingQuarantined, store.volume
      ensures var p := old(Memory()).(registry := Some(projection));
              && Exports(old(store.volume.Now()), p, size, result, store.volume.Now())
              && Memory() == p.(quarantined := result != Published(true))
      ensures exported == (result == Published(true))
    {
      registry := Some(projection);
      exported, result := RetryExport(size);
    }

    /** A quarantined registry vouches for nobody. */
    method LoseRegistry()
      modifies this`registry
      ensures Memory() == old(Memory()).(registry := None)
    {
      registry := None;
    }

    /** Static devices that hold the key just enrolled are severed, one after another. */
    method SeverAliases(key: string, now: int) returns (severed: seq<string>)
      modifies this`ownerDevices
      ensures forall id :: id in severed <==>
                id in old(ownerDevices) && old(ownerDevices)[id].revokedAt.None? && old(ownerDevices)[id].spki == key
      ensures ownerDevices.Keys == old(ownerDevices).Keys
      ensures forall id :: id in ownerDevices ==>
                ownerDevices[id] == if id in severed then Severed(old(ownerDevices)[id], now) else old(ownerDevices)[id]
    {
      severed := [];
      ghost var before := ownerDevices;
      var left := ownerDevices.Keys;
      while left != {}
        invariant left <= ownerDevices.Keys == before.Keys
        invariant forall id :: id in severed <==>
                    id in before && id !in left && before[id].revokedAt.None? && before[id].spki == key
        invariant forall id :: id in before ==>
                    ownerDevices[id] == if id in severed then Severed(before[id], now) else before[id]
      {
        var id :| id in left;
        var d := ownerDevices[id];
        if d.revokedAt == None && d.spki == key {
          severed := severed + [id];
          ownerDevices := ownerDevices[id := d.(revokedAt := Some(now), generation := d.generation + 1)];
        }
        left := left - {id};
      }
    }

    /** After a durable admit: sever the key's static names and export both in one publish. */
    method Enrol(projection: Table, key: string, now: int, size: nat)
      returns (severed: seq<string>, exported: bool, ghost result: SaveResult)
      requires Sound(store.volume.Now())
      modifies this, store.volume
      ensures forall id :: id in severed <==>
                id in old(ownerDevices) && old(ownerDevices)[id].revokedAt.None? && old(ownerDevices)[id].spki == key
      ensures ownerDevices.Keys == old(ownerDevices).Keys
      ensures forall id :: id in ownerDevices ==>
                ownerDevices[id] == if id in severed then Severed(old(ownerDevices)[id], now) else old(ownerDevices)[id]
      ensures registry == Some(projection) && unenrolledStanding == old(unenrolledStanding)
      ensures enrolling == old(enrolling)
      ensures Exports(old(store.volume.Now()), Memory(), size, result, store.volume.Now())
      ensures exported == (result == Published(true))
      ensures standingQuarantined == (old(standingQuarantined) || (severed != [] && !exported))
    {
      registry := Some(projection);
      severed := SeverAliases(key, now);
      var saved := PersistStanding(size);
      result := saved;
      exported := saved == Published(true);
      if !exported && severed != [] {
        standingQuarantined := true;
      }
      assert Snapshot(Memory()) == Snapshot(Memory().(quarantined := old(standingQuarantined)));
    }
  }
}
