/**
 * Which registry a boot serves, and when a mint or a later process can lose
 * it: over whole runs, in terms of the files found and how the calls went.
 */
module RegistryBoots {
  import opened Wrappers
  import opened Disk
  import opened RegistryFile
  import opened RegistryStore
  import opened DeviceRegistry
  import opened RegistryTheorems
  import I = Invites

  // ---- what a boot serves --------------------------------------------------------------------------

  /** The marker is absent or ours, whole, and the directory could be read. */
  predicate Reached(d: RegistryDir, io: LoadIo) {
    && io.markerRead && io.reached
    && match d.marker.visible
       case None => true
       case Some(m) => m.text == OurNote && m.written == m.size
  }

  /** The state file is whole and within half a megabyte, and it and its names were made durable. */
  predicate Settles(d: RegistryDir, io: LoadIo)
    requires d.state.visible.Some?
  {
    var f := d.state.visible.value;
    && f.written == f.size <= 524_288
    && io.read && io.synced && io.entryDurable && (d.marker.visible.None? ==> io.markerMade)
  }

  /** Some handles, however many, complete the version 1 devices to an acceptable registry. */
  ghost predicate Completable(bootstrapGeneration: int, devices: map<string, Device>) {
    exists owners: map<string, string> :: Acceptable(Registry(bootstrapGeneration, devices, owners), |owners|)
  }

  /** The registry this boot hands out: each device as the file has it, each owner with a handle of its own. */
  ghost predicate Migrates(g: int, devices: map<string, Device>, r: Registry) {
    && r.bootstrapGeneration == g && r.devices == devices
    && r.owners.Keys == (set id | id in devices :: devices[id].ownerId)
  }

  /**
   * A boot serves a registry exactly in three cases. The directory is blank,
   * and an empty registry was durably published; the file is an acceptable
   * registry, and that is served; or it is a version 1 file that handles can
   * complete, of at most 128 owners, and its migration was durably published.
   */
  lemma BootServesExactly(cfg: I.Config, ws: seq<World>, steps: seq<Step>, i: nat)
    requires Run(cfg, ws, steps) && i < |steps| && steps[i].Initialize?
    ensures var d, b, mem := ws[i].dir, steps[i].boot, ws[i + 1].mem;
            if !Reached(d, b.io) then mem == None
            else
              match d.state.visible
              case None =>
                mem == if d.marker.visible.None? && b.result == Published(true)
                       then Some(Registry(1, map[], map[])) else None
              case Some(f) =>
                if !Settles(d, b.io) then mem == None
                else
                  match f.text
                  case V2(r) => mem == if Acceptable(r) then Some(r) else None
                  case V1(g, devices) =>
                    && (mem.Some?
                        <==> && Completable(g, devices) && b.result == Published(true)
                             && |set id | id in devices :: devices[id].ownerId| <= 128)
                    && (mem.Some? ==> Migrates(g, devices, mem.value))
                  case OtherText => mem == None
  {
    hide Acceptable, LegacyAcceptable, SaveSpec;
    var d, b, mem := ws[i].dir, steps[i].boot, ws[i + 1].mem;
    assert Next(cfg, ws[i], steps[i], ws[i + 1]);
    if d.state.visible.Some? && d.state.visible.value.text.V1? {
      var text := d.state.visible.value.text;
      if b.loaded.LegacyV1? {
        LegacyIsCompletable(text.bootstrapGeneration, text.devices, b.draws);
      } else {
        CompletableIsLegacy(text.bootstrapGeneration, text.devices);
      }
    }
  }

  lemma LegacyIsCompletable(g: int, devices: map<string, Device>, draws: map<string, string>)
    requires LegacyAcceptable(g, devices) && Handles(draws) && OwnersOf(devices) <= draws.Keys
    ensures Completable(g, devices)
    ensures Restricted(draws, OwnersOf(devices)).Keys == OwnersOf(devices)
  {
    LegacyMeansCompletable(g, devices, draws);
  }

  lemma CompletableIsLegacy(g: int, devices: map<string, Device>)
    ensures Completable(g, devices) ==> LegacyAcceptable(g, devices)
  {
    if owners: map<string, string> :| Acceptable(Registry(g, devices, owners), |owners|) {
      forall o | o in OwnersOf(devices)
        ensures o !in FORBIDDEN_IDS
      {
      }
    }
  }

  // ---- mints -----------------------------------------------------------------------------------------

  /**
   * A mint reaches the disk only with a usable kill epoch and an issuer that
   * stands, and only for an owner without a handle while fewer than 128 have
   * one; the registry is lost exactly when that publish came through without
   * being durable, and otherwise at most the one handle is new.
   */
  lemma MintLosesExactly(cfg: I.Config, ws: seq<World>, steps: seq<Step>, i: nat)
    requires Run(cfg, ws, steps) && i < |steps| && steps[i].Mint?
    ensures ws[i].mem.Some? && 0 <= steps[i].kill.epoch <= 0x1F_FFFF_FFFF_FFFF
    ensures var r, issuer := ws[i].mem.value, steps[i].request.issuer;
            issuer.ByEnrolled? ==> issuer.deviceId in r.devices && r.devices[issuer.deviceId].revokedAt.None?
    ensures var r, issuer, w' := ws[i].mem.value, steps[i].request.issuer, ws[i + 1];
            var owner := if issuer.ByOperator? then issuer.ownerId else r.devices[issuer.deviceId].ownerId;
            var publishes := owner !in r.owners && |r.owners| < 128;
            && (w'.mem.None? <==> publishes && steps[i].result == Published(false))
            && (!publishes ==> w'.dir == ws[i].dir && w'.mem == Some(r))
            && (w'.mem.Some? ==>
                  w'.mem.value == if publishes && steps[i].result == Published(true)
                                  then r.(owners := r.owners[owner := steps[i].userId]) else r)
            && (steps[i].ok <==> owner in r.owners || (publishes && steps[i].result == Published(true)))
            && (!steps[i].ok ==> w'.invites == ws[i].invites)
  {
    hide SaveSpec;
    assert Next(cfg, ws[i], steps[i], ws[i + 1]);
  }

  // ---- the marker --------------------------------------------------------------------------------------

  /** A step without a power cut: the process may still die anywhere in it. */
  predicate Powered(step: Step) {
    step.Crash? ==> !step.powerCut
  }

  lemma StepKeepsMarker(cfg: I.Config, w: World, step: Step, w': World)
    requires Next(cfg, w, step, w') && Powered(step)
    requires w.dir.state.visible.Some? ==> w.dir.marker.visible.Some?
    ensures w'.dir.state.visible.Some? ==> w'.dir.marker.visible.Some?
    ensures w.dir.marker.visible.Some? ==> w'.dir.marker.visible.Some?
  {
    hide Acceptable, I.PerformEnrollment, I.DoRegister, Publishing, AfterPublish, AfterCriticalPublish;
  }

  lemma {:induction false} MarkerStays(cfg: I.Config, ws: seq<World>, steps: seq<Step>, j: nat, i: nat)
    requires Run(cfg, ws, steps) && j <= i < |ws|
    requires forall k :: 0 <= k < |steps| ==> Powered(steps[k])
    requires ws[0].dir.state.visible.Some? ==> ws[0].dir.marker.visible.Some?
    ensures ws[i].dir.state.visible.Some? ==> ws[i].dir.marker.visible.Some?
    ensures ws[j].dir.marker.visible.Some? ==> ws[i].dir.marker.visible.Some?
    decreases i, j
  {
    hide Next;
    if i > 0 {
      MarkerStays(cfg, ws, steps, if j < i then j else i - 1, i - 1);
      assert Next(cfg, ws[i - 1], steps[i - 1], ws[i]);
      StepKeepsMarker(cfg, ws[i - 1], steps[i - 1], ws[i]);
    }
  }

  /**
   * The marker goes before the registry: through operations that may fail or
   * die at any point, once any registry was published no load takes the
   * directory for a first boot, however its calls answer.
   */
  lemma NeverFirstBootAgain(
    cfg: I.Config, ws: seq<World>, steps: seq<Step>, j: nat, i: nat, io: LoadIo)
    requires Run(cfg, ws, steps) && j <= i < |ws| && ws[j].dir.state.visible.Some?
    requires forall k :: 0 <= k < |steps| ==> Powered(steps[k])
    requires ws[0].dir.state.visible.Some? ==> ws[0].dir.marker.visible.Some?
    ensures LoadOf(ws[i].dir, io) != Absent
  {
    hide Next;
    MarkerStays(cfg, ws, steps, j, j);
    MarkerStays(cfg, ws, steps, j, i);
  }
}
