/**
 * One key, one identity: the tombstone that keeps a key which moved to the
 * enrolment namespace from answering under a static name again, and exactly
 * when the standing file loses it.
 */
module StandingKeys {
  import opened Wrappers
  import opened Disk
  import opened StandingStore
  import opened Standing

  /** Only entries of the ceremony namespace carry keys, in every file this code writes. */
  predicate Orderly(t: Table) {
    forall id :: id in t && t[id].spki.Some? ==> IsCeremonyId(id)
  }

  // ---- one export --------------------------------------------------------------------------

  /** The key is in the process's own history, under an id nothing overrides. */
  predicate HistoryNames(p: Proc, spki: string) {
    exists id :: id in p.history && p.history[id].spki == Some(spki) && id !in p.devices
      && (p.registry.Some? ==> id !in p.registry.value)
  }

  predicate RegistryNames(p: Proc, spki: string) {
    p.registry.Some? && spki in SpkisOf(p.registry.value)
  }

  lemma NamedIsExported(p: Proc, spki: string)
    requires HistoryNames(p, spki) || RegistryNames(p, spki)
    ensures spki in SpkisOf(Snapshot(p))
  {
    var t := Snapshot(p);
    if RegistryNames(p, spki) {
      var id :| id in p.registry.value && p.registry.value[id].spki == Some(spki);
      assert t[id].spki == Some(spki);
    } else {
      var id :| id in p.history && p.history[id].spki == Some(spki) && id !in p.devices
        && (p.registry.Some? ==> id !in p.registry.value);
      assert t[id].spki == Some(spki);
    }
  }

  lemma ExportedIsNamed(p: Proc, spki: string)
    requires spki in SpkisOf(Snapshot(p))
    ensures HistoryNames(p, spki) || RegistryNames(p, spki)
  {
    var t := Snapshot(p);
    var id :| id in t && t[id].spki == Some(spki);
    if !(p.registry.Some? && id in p.registry.value) {
      assert id in p.history && p.history[id].spki == Some(spki) && id !in p.devices;
    }
  }

  /** An export carries a migrated key exactly while history or a usable registry names it. */
  lemma ExportNamesKey(p: Proc, spki: string)
    ensures spki in SpkisOf(Snapshot(p)) <==> HistoryNames(p, spki) || RegistryNames(p, spki)
  {
    hide Snapshot, HistoryNames, RegistryNames;
    if HistoryNames(p, spki) || RegistryNames(p, spki) {
      NamedIsExported(p, spki);
    }
    if spki in SpkisOf(Snapshot(p)) {
      ExportedIsNamed(p, spki);
    }
  }

  /** After any boot that read its file, no static name answers for a migrated key. */
  lemma MigratedKeyIsRefused(keys: Keys, enrolling: bool, registry: Option<Table>, loaded: Load, now: int, id: string)
    requires loaded.Loaded? && id in keys && (registry.Some? ==> CeremonyTable(registry.value)) && !IsCeremonyId(id)
    requires keys[id] in Migrated(HistoryOf(keys, loaded.devices), registry)
    ensures var p := BootProc(keys, enrolling, registry, loaded, now);
            && id in p.devices && p.devices[id].revokedAt.Some?
            && id in Snapshot(p) && Snapshot(p)[id].revokedAt.Some?
  {
  }

  // ---- one step ------------------------------------------------------------------------------

  /** The file names the key, or does not load. */
  ghost predicate Keeps(x: Option<File<Text>>, spki: string) {
    && x.Some? && x.value.synced
    && var r := ReadText(x.value);
       r.Loaded? ==> Orderly(r.devices) && spki in SpkisOf(r.devices)
  }

  /** Every file that may still come back keeps the key. */
  ghost predicate FileKeeps(d: StandingDir, spki: string) {
    Sound(d) && forall x :: x in d.state.survivors ==> Keeps(x, spki)
  }

  ghost predicate OrderlyProc(p: Proc) {
    WellNamed(p) && Orderly(p.history)
  }

  ghost predicate OrderlyWorld(w: World) {
    w.proc.Some? ==> OrderlyProc(w.proc.value)
  }

  /** The memory a step exports, if it exports any; for a crash, the one it may have died exporting. */
  function Exported(w: World, step: Step): Option<Proc> {
    match step
    case Boot(keys, enrolling, registry, now, io, _, _, _, _) =>
      var loaded := LoadOf(w.dir, io);
      if BootPublishes(keys, enrolling, loaded) then Some(BootProc(keys, enrolling, registry, loaded, now)) else None
    case Crash(memory, _, _, _) => if w.proc.Some? then Some(memory) else None
    case RegistryLost => None
    case Kill => None
    case Restore => None
    case Revoke(id, now, _, _) =>
      if w.proc.Some? && id in w.proc.value.devices
      then Some(w.proc.value.(devices := w.proc.value.devices[id := Severed(w.proc.value.devices[id], now)]))
      else None
    case RetryRevoke(_, _) => w.proc
    case RevokeEnrolled(projection, _, _) =>
      if w.proc.Some? then Some(w.proc.value.(registry := Some(projection))) else None
    case Enrol(projection, aliases, now, _, _) =>
      if w.proc.Some?
      then Some(w.proc.value.(registry := Some(projection),
                              devices := AliasesSevered(w.proc.value.devices, aliases, now)))
      else None
  }

  /** The file it publishes. */
  function Written(w: World, step: Step): Option<File<Text>> {
    if Exported(w, step).Some? then Some(FileOf(Snapshot(Exported(w, step).value), step.size)) else None
  }

  /**
   * From files that all name the key: an export that reached the directory, of
   * a memory whose history does not name it and whose registry is lost or does
   * not either, and that will load.
   */
  ghost predicate Drops(w: World, step: Step, w': World, spki: string) {
    && FileKeeps(w.dir, spki)
    && Exported(w, step).Some? && Written(w, step) in w'.dir.state.survivors
    && ReadText(Written(w, step).value).Loaded?
    && !HistoryNames(Exported(w, step).value, spki) && !RegistryNames(Exported(w, step).value, spki)
  }

  /** What a step leaves on disk: files that were there, and what it wrote. */
  lemma StepWrites(w: World, step: Step, w': World, x: Option<File<Text>>)
    requires Sound(w.dir) && Next(w, step, w') && x in w'.dir.state.survivors
    requires forall y :: y in w.dir.state.survivors ==> y.Some? && y.value.synced
    ensures Sound(w'.dir)
    ensures x in w.dir.state.survivors || (Exported(w, step).Some? && x == Written(w, step))
  {
    match step {
      case Boot(_, _, _, _, _, _, _, _, _) =>
      case Crash(memory, size, point, powerCut) => CrashWrites(w, step, w', x);
      case RevokeEnrolled(projection, _, _) =>
      case Enrol(projection, _, _, _, _) =>
      case _ =>
    }
  }

  lemma CrashWrites(w: World, step: Step, w': World, x: Option<File<Text>>)
    requires Sound(w.dir) && step.Crash? && x in w'.dir.state.survivors
    requires CrashStep(w, step.memory, step.size, step.point, step.powerCut, w')
    requires forall y :: y in w.dir.state.survivors ==> y.Some? && y.value.synced
    ensures Sound(w'.dir)
    ensures || x in w.dir.state.survivors
            || (w.proc.Some? && Exporting(w.proc.value, step.memory) && x == Written(w, step))
  {
    var ok := w.proc.Some? && Exporting(w.proc.value, step.memory);
    assert forall y :: y in step.point.state.survivors ==> y in w.dir.state.survivors || (ok && y == Written(w, step));
    if step.powerCut {
      var y :| y in step.point.state.survivors && Recovered(y, w'.dir.state.visible);
    }
  }

  lemma BootHistory(keys: Keys, enrolling: bool, registry: Option<Table>, loaded: Load, now: int)
    requires loaded.Loaded? ==> Orderly(loaded.devices)
    ensures Orderly(BootProc(keys, enrolling, registry, loaded, now).history)
  {
  }

  lemma LoadsOrderly(d: StandingDir, io: LoadIo, spki: string)
    requires FileKeeps(d, spki)
    ensures var r := LoadOf(d, io); !r.Absent? && (r.Loaded? ==> Orderly(r.devices) && spki in SpkisOf(r.devices))
  {
    assert d.state.visible in d.state.survivors;
    assert Keeps(d.state.visible, spki);
  }

  lemma OrderlyExports(p: Proc)
    requires OrderlyProc(p)
    ensures Orderly(Snapshot(p))
  {
  }

  lemma ExportingKeepsOrderly(p: Proc, q: Proc)
    requires OrderlyProc(p) && Exporting(p, q)
    ensures OrderlyProc(q)
  {
  }

  /** What is written anew is orderly, when what was there is. */
  lemma WrittenIsOrderly(w: World, step: Step, w': World, spki: string)
    requires FileKeeps(w.dir, spki) && OrderlyWorld(w) && Next(w, step, w') && Exported(w, step).Some?
    requires Written(w, step) in w'.dir.state.survivors && Written(w, step) !in w.dir.state.survivors
    ensures OrderlyProc(Exported(w, step).value)
  {
    match step {
      case Boot(keys, enrolling, registry, now, io, _, _, _, _) =>
        LoadsOrderly(w.dir, io, spki);
        BootHistory(keys, enrolling, registry, LoadOf(w.dir, io), now);
        BootWellNamed(keys, enrolling, registry, LoadOf(w.dir, io), now);
      case Crash(memory, _, _, _) =>
        CrashWrites(w, step, w', Written(w, step));
        ExportingKeepsOrderly(w.proc.value, memory);
      case Revoke(_, _, _, _) => ExportingKeepsOrderly(w.proc.value, Exported(w, step).value);
      case RetryRevoke(_, _) =>
      case RevokeEnrolled(projection, _, _) =>
        NoAliases(w.proc.value.devices);
        ExportingKeepsOrderly(w.proc.value, Exported(w, step).value);
      case Enrol(_, _, _, _, _) => ExportingKeepsOrderly(w.proc.value, Exported(w, step).value);
    }
  }

  /** A written file keeps the key exactly when its memory named it, or it will not load. */
  lemma WrittenKeeps(p: Proc, size: nat, spki: string)
    requires OrderlyProc(p)
    ensures Keeps(Some(FileOf(Snapshot(p), size)), spki)
            <==> !ReadText(FileOf(Snapshot(p), size)).Loaded? || HistoryNames(p, spki) || RegistryNames(p, spki)
  {
    OrderlyExports(p);
    ExportNamesKey(p, spki);
  }

  /**
   * The files stop naming a migrated key in exactly one way: by an export of a
   * process that names it neither in its history nor through its registry.
   */
  lemma KeyIsKeptExactly(w: World, step: Step, w': World, spki: string)
    requires FileKeeps(w.dir, spki) && OrderlyWorld(w) && Next(w, step, w')
    ensures FileKeeps(w'.dir, spki) <==> !Drops(w, step, w', spki)
  {
    StepSound(w, step, w');
    if !Drops(w, step, w', spki) {
      forall x | x in w'.dir.state.survivors
        ensures Keeps(x, spki)
      {
        StepWrites(w, step, w', x);
        if x !in w.dir.state.survivors {
          WrittenIsOrderly(w, step, w', spki);
          WrittenKeeps(Exported(w, step).value, step.size, spki);
        }
      }
    } else if Written(w, step) !in w.dir.state.survivors {
      WrittenIsOrderly(w, step, w', spki);
      WrittenKeeps(Exported(w, step).value, step.size, spki);
    } else {
      WrittenNames(Exported(w, step).value, step.size, spki);
    }
  }

  /** A written file that loads without the key does not keep it, orderly or not. */
  lemma WrittenNames(p: Proc, size: nat, spki: string)
    requires ReadText(FileOf(Snapshot(p), size)).Loaded? && !HistoryNames(p, spki) && !RegistryNames(p, spki)
    ensures !Keeps(Some(FileOf(Snapshot(p), size)), spki)
  {
    ExportNamesKey(p, spki);
  }

  lemma StepSound(w: World, step: Step, w': World)
    requires Sound(w.dir) && Next(w, step, w')
    ensures Sound(w'.dir)
  {
  }

  // ---- every run -------------------------------------------------------------------------------

  ghost predicate Shut(p: Proc, spki: string) {
    OrderlyProc(p) && forall id :: id in p.devices && p.devices[id].spki == spki ==> p.devices[id].revokedAt.Some?
  }

  /** Every file keeps the key, and no static name of a running process answers for it. */
  ghost predicate KeyOut(w: World, spki: string) {
    FileKeeps(w.dir, spki) && (w.proc.Some? ==> Shut(w.proc.value, spki))
  }

  /** A boot that loads the key, or loads nothing, leaves no static name for it standing. */
  lemma BootPutsOut(keys: Keys, enrolling: bool, registry: Option<Table>, loaded: Load, now: int, spki: string)
    requires !loaded.Absent? && KeysOk(keys)
    requires loaded.Loaded? ==> Orderly(loaded.devices) && spki in SpkisOf(loaded.devices)
    ensures var ds := BootProc(keys, enrolling, registry, loaded, now).devices;
            forall id :: id in ds && ds[id].spki == spki ==> ds[id].revokedAt.Some?
  {
    if loaded.Loaded? {
      var id :| id in loaded.devices && loaded.devices[id].spki == Some(spki);
      assert HistoryOf(keys, loaded.devices)[id].spki == Some(spki);
      assert spki in Migrated(HistoryOf(keys, loaded.devices), registry);
    }
  }

  lemma BootKeepsOut(w: World, step: Step, w': World, spki: string)
    requires KeyOut(w, spki) && step.Boot? && Next(w, step, w') && w'.proc.Some?
    ensures Shut(w'.proc.value, spki)
  {
    var loaded := LoadOf(w.dir, step.io);
    LoadsOrderly(w.dir, step.io, spki);
    BootHistory(step.keys, step.enrolling, step.registry, loaded, step.now);
    BootWellNamed(step.keys, step.enrolling, step.registry, loaded, step.now);
    BootPutsOut(step.keys, step.enrolling, step.registry, loaded, step.now, spki);
  }

  lemma ExportingKeepsShut(p: Proc, q: Proc, spki: string)
    requires Shut(p, spki) && Exporting(p, q)
    ensures Shut(q, spki)
  {
    ExportingKeepsOrderly(p, q);
  }

  lemma ShutAnyhow(p: Proc, registry: Option<Table>, quarantined: bool, spki: string)
    requires Shut(p, spki) && registry in {p.registry, None}
    ensures Shut(p.(registry := registry, quarantined := quarantined), spki)
  {
  }

  /** Within a process no static name comes back. */
  lemma ProcessKeepsShut(w: World, step: Step, w': World, spki: string)
    requires w.proc.Some? && Shut(w.proc.value, spki) && Next(w, step, w') && !step.Boot? && w'.proc.Some?
    ensures Shut(w'.proc.value, spki)
  {
    var p := w.proc.value;
    match step {
      case Revoke(_, _, _, _) => ExportingKeepsShut(p, Exported(w, step).value, spki);
      case RetryRevoke(_, _) =>
      case RevokeEnrolled(_, _, _) =>
        NoAliases(p.devices);
        ExportingKeepsShut(p, Exported(w, step).value, spki);
      case Enrol(_, _, _, _, _) => ExportingKeepsShut(p, Exported(w, step).value, spki);
      case RegistryLost =>
      case Kill =>
      case Restore =>
    }
    ShutAnyhow(if Exported(w, step).Some? then Exported(w, step).value else p, w'.proc.value.registry,
               w'.proc.value.quarantined, spki);
  }

  lemma StepKeepsOut(w: World, step: Step, w': World, spki: string)
    requires KeyOut(w, spki) && Next(w, step, w') && !Drops(w, step, w', spki)
    ensures KeyOut(w', spki)
  {
    KeyIsKeptExactly(w, step, w', spki);
    if w'.proc.Some? {
      if step.Boot? {
        BootKeepsOut(w, step, w', spki);
      } else {
        ProcessKeepsShut(w, step, w', spki);
      }
    }
  }

  lemma {:induction false} RunKeepsOut(ws: seq<World>, steps: seq<Step>, i: nat, j: nat, spki: string)
    requires Run(ws, steps) && i <= j < |ws| && KeyOut(ws[i], spki)
    requires forall n :: i <= n < j ==> !Drops(ws[n], steps[n], ws[n + 1], spki)
    ensures KeyOut(ws[j], spki)
    decreases j
  {
    if i < j {
      RunKeepsOut(ws, steps, i, j - 1, spki);
      assert Next(ws[j - 1], steps[j - 1], ws[j]);
      StepKeepsOut(ws[j - 1], steps[j - 1], ws[j], spki);
    }
  }

  /** A static name for the key backs a release. */
  predicate AnswersAs(w: World, spki: string, id: string) {
    Backs(w, id) && id in w.proc.value.devices && w.proc.value.devices[id].spki == spki
  }

  /**
   * Once a migrated key is out, no static name answers for it in any later
   * state, across crashes, cuts, corrupt boots, restores and key-file edits,
   * as long as no export drops its tombstone.
   */
  lemma MigratedKeyStaysOut(ws: seq<World>, steps: seq<Step>, i: nat, j: nat, spki: string, id: string)
    requires Run(ws, steps) && i <= j < |ws| && KeyOut(ws[i], spki)
    requires forall n :: i <= n < j ==> !Drops(ws[n], steps[n], ws[n + 1], spki)
    ensures !AnswersAs(ws[j], spki, id)
  {
    RunKeepsOut(ws, steps, i, j, spki);
  }

  /** A durable enrolment that severed every static name of its key puts the key out. */
  lemma EnrolmentPutsOut(w: World, step: Step, w': World, spki: string)
    requires OrderlyWorld(w) && step.Enrol? && Next(w, step, w') && step.result == Published(true)
    requires spki in SpkisOf(step.projection)
    requires forall id :: id in w.proc.value.devices && w.proc.value.devices[id].spki == spki ==> id in step.aliases
    ensures KeyOut(w', spki)
  {
    var q := Exported(w, step).value;
    ExportingKeepsOrderly(w.proc.value, q);
    WrittenKeeps(q, step.size, spki);
  }

  // ---- and exactly when it comes back ---------------------------------------------------------

  /** Steps from a state on, none of them an export that drops the key. */
  ghost predicate KeepsGoing(w: World, ws: seq<World>, steps: seq<Step>, spki: string) {
    && |ws| == |steps| + 1 && ws[0] == w
    && forall n :: 0 <= n < |steps| ==>
         Next(ws[n], steps[n], ws[n + 1]) && !Drops(ws[n], steps[n], ws[n + 1], spki)
  }

  ghost predicate CanAnswerAgain(w: World, spki: string) {
    exists ws, steps, id :: KeepsGoing(w, ws, steps, spki) && AnswersAs(ws[|steps|], spki, id)
  }

  lemma {:induction false} GoingKeepsOut(w: World, ws: seq<World>, steps: seq<Step>, spki: string, n: nat)
    requires KeepsGoing(w, ws, steps, spki) && KeyOut(w, spki) && n < |ws|
    ensures KeyOut(ws[n], spki)
  {
    if n > 0 {
      GoingKeepsOut(w, ws, steps, spki, n - 1);
      StepKeepsOut(ws[n - 1], steps[n - 1], ws[n], spki);
    }
  }

  /** A power cut may leave any synced survivor as the file. */
  function CutTo(d: StandingDir, f: File<Text>): StandingDir {
    var m := if d.marker.visible.Some? then Some(d.marker.visible.value.(synced := true)) else None;
    Dir(Entry(Some(f), {Some(f)}), Entry(m, {m}))
  }

  lemma CutsTo(w: World, p: Proc, f: File<Text>)
    requires Sound(w.dir) && f.synced && Some(f) in w.dir.state.survivors
    ensures Next(w, Crash(p, 0, w.dir, true), World(None, CutTo(w.dir, f), w.killed))
    ensures Sound(CutTo(w.dir, f)) && CutTo(w.dir, f).state.visible == Some(f)
  {
    var d := CutTo(w.dir, f);
    assert Recovered(Some(f), d.state.visible);
    assert Recovered(w.dir.marker.visible, d.marker.visible);
  }

  lemma ThreeGo(w0: World, w1: World, w2: World, w3: World, s0: Step, s1: Step, s2: Step, spki: string)
    returns (ws: seq<World>, steps: seq<Step>)
    requires Next(w0, s0, w1) && Next(w1, s1, w2) && Next(w2, s2, w3)
    requires !Drops(w0, s0, w1, spki) && !Drops(w1, s1, w2, spki) && !Drops(w2, s2, w3, spki)
    ensures KeepsGoing(w0, ws, steps, spki) && |steps| == 3 && ws[3] == w3
  {
    ws, steps := [w0, w1, w2, w3], [s0, s1, s2];
    forall n | 0 <= n < |steps|
      ensures Next(ws[n], steps[n], ws[n + 1]) && !Drops(ws[n], steps[n], ws[n + 1], spki)
    {
      if n == 0 {
      } else if n == 1 {
      } else {
        assert n == 2;
      }
    }
  }

  /** Once a file that loads without the key may come back, a fresh static name can answer for it. */
  lemma DroppedAnswers(w: World, f: File<Text>, spki: string) returns (ws: seq<World>, steps: seq<Step>, id: string)
    requires Sound(w.dir) && f.synced && Some(f) in w.dir.state.survivors
    requires ReadText(f).Loaded? && spki !in SpkisOf(ReadText(f).devices)
    ensures KeepsGoing(w, ws, steps, spki) && AnswersAs(ws[|steps|], spki, id)
  {
    var t := ReadText(f).devices;
    id := FreshName("", t.Keys);
    assert NameOk(id) by {
      assert id[0] == 'A';
    }
    var p := Proc(map[], map[], false, None, false);
    CutsTo(w, p, f);
    var w1 := World(None, CutTo(w.dir, f), w.killed);
    var boot, w2 := BootsAfresh(w1, id, spki, t);
    var w3 := w2.(killed := false);
    assert Some(f) in w1.dir.state.survivors && !Keeps(Some(f), spki);
    ws, steps := ThreeGo(w, w1, w2, w3, Crash(p, 0, w.dir, true), boot, Restore, spki);
  }

  /**
   * From a state where the key is out, a step lets some static name answer for
   * it again, with no further export that drops it, if and only if the step
   * itself drops it.
   */
  lemma KeyReturnsExactly(w: World, step: Step, w': World, spki: string)
    requires KeyOut(w, spki) && Next(w, step, w')
    ensures CanAnswerAgain(w', spki) <==> Drops(w, step, w', spki)
  {
    if Drops(w, step, w', spki) {
      var q := Exported(w, step).value;
      StepSound(w, step, w');
      ExportNamesKey(q, spki);
      var ws, steps, id := DroppedAnswers(w', FileOf(Snapshot(q), step.size), spki);
    } else {
      StepKeepsOut(w, step, w', spki);
      if ws, steps, id :| KeepsGoing(w', ws, steps, spki) && AnswersAs(ws[|steps|], spki, id) {
        GoingKeepsOut(w', ws, steps, spki, |steps|);
      }
    }
  }

  // ---- the run that loses a tombstone --------------------------------------------------------

  /** What the run's phases hold: two static devices, and what became of them. */
  ghost predicate TwoStatics(p: Proc, a: string, sa: Static, b: string, sb: Static) {
    && p.devices.Keys == {a, b} && p.devices[a] == sa && p.devices[b] == sb
    && p.history.Keys == {} && p.enrolling && !p.quarantined
  }

  lemma TwoProvisioned(keys: Keys, a: string, b: string, ka: string, kb: string)
    requires keys.Keys == {a, b} && keys[a] == ka && keys[b] == kb
    ensures TwoStatics(BootProc(keys, true, Some(map[]), Absent, 0), a, Static(1, None, ka), b, Static(1, None, kb))
  {
    assert Migrated(map[], Some(map[])) == {};
  }

  lemma FirstBootPublishes(keys: Keys) returns (step: Step, w': World)
    requires KeysOk(keys)
    ensures step.Boot? && Next(World(None, NoFile, false), step, w') && Sound(w'.dir) && !w'.killed
    ensures w'.proc == Some(BootProc(keys, true, Some(map[]), Absent, 0))
  {
    var p := BootProc(keys, true, Some(map[]), Absent, 0);
    RewritesDurably(NoFile, Snapshot(p));
    step := Boot(keys, true, Some(map[]), 0, LoadIo(true, true), NoFile, 100, Published(true), false);
    w' := World(Some(p), Rewritten(NoFile, Snapshot(p)), false);
    assert Exports(NoFile, p, 100, Published(true), w'.dir);
  }

  lemma BootsTwo(a: string, b: string, ka: string, kb: string) returns (step: Step, w': World)
    requires NameOk(a) && NameOk(b) && a != b
    ensures step.Boot? && Next(World(None, NoFile, false), step, w') && Sound(w'.dir) && !w'.killed
    ensures w'.proc.Some? && TwoStatics(w'.proc.value, a, Static(1, None, ka), b, Static(1, None, kb))
    ensures w'.proc.value.registry == Some(map[]) && WellNamed(w'.proc.value)
  {
    var keys: Keys := map[a := ka, b := kb];
    TwoProvisioned(keys, a, b, ka, kb);
    step, w' := FirstBootPublishes(keys);
    BootWellNamed(keys, true, Some(map[]), Absent, 0);
  }

  /** A phone enrols with the key of the first device, whose static name is severed. */
  lemma EnrolsFirst(w: World, p: Proc, a: string, b: string, ka: string, kb: string, t: Table)
    returns (step: Step, w': World)
    requires w.proc == Some(p) && Sound(w.dir) && p.registry.Some? && CeremonyTable(t) && !w.killed
    requires TwoStatics(p, a, Static(1, None, ka), b, Static(1, None, kb)) && a != b && ka != kb
    requires WellNamed(p) && ka in SpkisOf(t)
    ensures Next(w, step, w') && KeyOut(w', ka) && !w'.killed
    ensures step.Enrol? && step.result == Published(true) && step.projection == t
    ensures w'.proc.Some? && TwoStatics(w'.proc.value, a, Static(2, Some(0), ka), b, Static(1, None, kb))
    ensures WellNamed(w'.proc.value)
  {
    hide Snapshot, SpkisOf, KeyOut;
    step := Enrol(t, {a}, 0, 100, Published(true));
    var q := p.(registry := Some(t), devices := AliasesSevered(p.devices, {a}, 0));
    RewritesDurably(w.dir, Snapshot(q));
    w' := World(Some(q), Rewritten(w.dir, Snapshot(q)), w.killed);
    NextWellNamed(w, step, w');
    EnrolmentPutsOut(w, step, w', ka);
  }

  lemma RevokePublishes(w: World, p: Proc, id: string)
    requires w.proc == Some(p) && Sound(w.dir) && id in p.devices && p.devices[id].revokedAt.None?
    requires !IsCeremonyId(id)
    ensures var q := p.(devices := p.devices[id := Severed(p.devices[id], 0)]);
            var w' := World(Some(q.(quarantined := false)), Rewritten(w.dir, Snapshot(q)), w.killed);
            && Next(w, Revoke(id, 0, 100, Published(true)), w') && Sound(w'.dir)
  {
    var q := p.(devices := p.devices[id := Severed(p.devices[id], 0)]);
    RewritesDurably(w.dir, Snapshot(q));
  }

  /** The registry lost, a durable revoke of the second device exports without the key. */
  lemma RevokesSecond(w: World, p: Proc, a: string, b: string, ka: string, kb: string)
    returns (step: Step, w': World)
    requires w.proc == Some(p) && p.registry == None && FileKeeps(w.dir, ka) && !w.killed
    requires TwoStatics(p, a, Static(2, Some(0), ka), b, Static(1, None, kb)) && a != b && WellNamed(p)
    requires {a, b} !! FORBIDDEN_IDS
    ensures step.Revoke? && step.id == b && step.result == Published(true)
    ensures Next(w, step, w') && Drops(w, step, w', ka) && !w'.killed
    ensures w'.proc.Some? && Sound(w'.dir)
    ensures LoadOf(w'.dir, LoadIo(true, true)).Loaded?
    ensures var t := LoadOf(w'.dir, LoadIo(true, true)).devices; t.Keys == {a, b} && ka !in SpkisOf(t)
  {
    hide Next, Snapshot, AsPersistedDeviceStanding, SpkisOf;
    step := Revoke(b, 0, 100, Published(true));
    var q := p.(devices := p.devices[b := Severed(p.devices[b], 0)]);
    RevokePublishes(w, p, b);
    w' := World(Some(q.(quarantined := false)), Rewritten(w.dir, Snapshot(q)), w.killed);
    assert Exported(w, step) == Some(q) && Written(w, step) == Some(FileOf(Snapshot(q), 100));
    SnapshotOfTwo(q, a, Static(2, Some(0), ka), b, Static(2, Some(0), kb));
    RewrittenLoads(w.dir, Snapshot(q));
  }

  lemma SnapshotOfTwo(q: Proc, a: string, sa: Static, b: string, sb: Static)
    requires TwoStatics(q, a, sa, b, sb) && q.registry == None && NameOk(a) && NameOk(b) && {a, b} !! FORBIDDEN_IDS
    requires 1 <= sa.generation <= MAX_SAFE_INTEGER && 1 <= sb.generation <= MAX_SAFE_INTEGER
    ensures Snapshot(q).Keys == {a, b} && SpkisOf(Snapshot(q)) == {}
    ensures AsPersistedDeviceStanding(Document(2, Snapshot(q))) == Some(Snapshot(q))
  {
    var t := Snapshot(q);
    forall id | id in t
      ensures t[id].spki == None && EntryOk(2, id, t[id])
    {
    }
  }

  lemma SixRun(
    w0: World, w1: World, w2: World, w3: World, w4: World, w5: World, w6: World,
    s0: Step, s1: Step, s2: Step, s3: Step, s4: Step, s5: Step)
    returns (ws: seq<World>, steps: seq<Step>)
    requires w0.proc == None && Sound(w0.dir)
    requires Next(w0, s0, w1) && Next(w1, s1, w2) && Next(w2, s2, w3)
    requires Next(w3, s3, w4) && Next(w4, s4, w5) && Next(w5, s5, w6)
    ensures Run(ws, steps) && |steps| == 6 && ws[2] == w2 && ws[3] == w3 && ws[4] == w4 && ws[6] == w6
    ensures steps[1] == s1 && steps[2] == s2 && steps[3] == s3 && steps[5] == s5
  {
    ws, steps := [w0, w1, w2, w3, w4, w5, w6], [s0, s1, s2, s3, s4, s5];
    forall n | 0 <= n < |steps|
      ensures Next(ws[n], steps[n], ws[n + 1])
    {
      if n == 0 {
      } else if n == 1 {
      } else if n == 2 {
      } else if n == 3 {
      } else if n == 4 {
      } else {
        assert n == 5;
      }
    }
  }

  /** Boot with two phones and enrol the key of one. */
  lemma EnrolledFirst(phone: string, other: string, key: string, otherKey: string, t: Table)
    returns (w1: World, w2: World, s0: Step, s1: Step)
    requires NameOk(phone) && NameOk(other) && phone != other && key != otherKey && CeremonyTable(t)
    requires key in SpkisOf(t)
    ensures Next(World(None, NoFile, false), s0, w1) && Next(w1, s1, w2) && KeyOut(w2, key) && !w2.killed
    ensures s1.Enrol? && s1.result == Published(true) && s1.projection == t
    ensures w2.proc.Some? && WellNamed(w2.proc.value)
    ensures TwoStatics(w2.proc.value, phone, Static(2, Some(0), key), other, Static(1, None, otherKey))
  {
    s0, w1 := BootsTwo(phone, other, key, otherKey);
    s1, w2 := EnrolsFirst(w1, w1.proc.value, phone, other, key, otherKey, t);
  }

  lemma LosesRegistry(w: World, p: Proc, spki: string) returns (w': World)
    requires w.proc == Some(p) && KeyOut(w, spki) && WellNamed(p)
    ensures Next(w, RegistryLost, w') && w'.proc == Some(p.(registry := None))
    ensures WellNamed(w'.proc.value) && FileKeeps(w'.dir, spki) && w'.killed == w.killed
  {
    w' := w.(proc := Some(p.(registry := None)));
  }

  /** Die, and boot with the key under a name the file does not know. */
  lemma AnswersAfresh(w: World, tablet: string, key: string) returns (w1: World, w2: World, crash: Step, boot: Step)
    requires w.proc.Some? && Sound(w.dir) && !w.killed && NameOk(tablet)
    requires var r := LoadOf(w.dir, LoadIo(true, true));
             r.Loaded? && tablet !in r.devices && key !in SpkisOf(r.devices)
    ensures Next(w, crash, w1) && Next(w1, boot, w2) && boot.Boot? && AnswersAs(w2, key, tablet)
  {
    w1, crash := w.(proc := None), Crash(w.proc.value, 0, w.dir, false);
    CrashesThere(w, w.proc.value);
    boot, w2 := BootsAfresh(w1, tablet, key, LoadOf(w.dir, LoadIo(true, true)).devices);
  }

  /**
   * A key enrolled in the running process is in no history. The run: boot with
   * two phones, enrol the key of one, lose the registry, revoke the other
   * durably, die, and boot with the enrolled key under a new static name. It
   * backs releases.
   */
  lemma TombstoneLost(phone: string, other: string, tablet: string, key: string, otherKey: string)
    returns (ws: seq<World>, steps: seq<Step>)
    requires NameOk(phone) && NameOk(other) && NameOk(tablet) && phone != other && tablet !in {phone, other}
    requires key != otherKey && {phone, other} !! FORBIDDEN_IDS
    requires EntryOk(2, "dev_A", DeviceStanding(1, None, Some(key)))
    ensures Run(ws, steps) && |steps| == 6
    ensures steps[1].Enrol? && steps[1].result == Published(true) && key in SpkisOf(steps[1].projection)
    ensures KeyOut(ws[2], key) && steps[2] == RegistryLost
    ensures steps[3].Revoke? && steps[3].id == other && Drops(ws[3], steps[3], ws[4], key)
    ensures steps[5].Boot? && AnswersAs(ws[6], key, tablet)
  {
    hide BootStep, EnrolStep, CrashStep, RevokeStep;
    var t: Table := map["dev_A" := DeviceStanding(1, None, Some(key))];
    assert key in SpkisOf(t) by {
      assert t["dev_A"].spki == Some(key);
    }
    var w1, w2, s0, s1 := EnrolledFirst(phone, other, key, otherKey, t);
    var w3 := LosesRegistry(w2, w2.proc.value, key);
    var s3, w4 := RevokesSecond(w3, w3.proc.value, phone, other, key, otherKey);
    var w5, w6, s4, s5 := AnswersAfresh(w4, tablet, key);
    ws, steps := SixRun(World(None, NoFile, false), w1, w2, w3, w4, w5, w6, s0, s1, RegistryLost, s3, s4, s5);
  }
}
