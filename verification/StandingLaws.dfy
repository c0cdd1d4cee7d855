/**
 * What each step makes of the standing lane: who stands after a boot, what an
 * enrolment or a retried export does, and how long a kill holds.
 */
module StandingLaws {
  import opened Wrappers
  import opened Disk
  import opened StandingStore
  import opened Standing
  import Base64Url

  // ---- who stands after a boot -------------------------------------------------------------------------

  /** The key answers for a phone that was enrolled: in the history the file has, or in the usable registry. */
  ghost predicate Enrolled(step: Step, t: Table, key: string)
    requires step.Boot?
  {
    || (exists id :: id in t && id !in step.keys && t[id].spki == Some(key))
    || (step.registry.Some? && exists id :: id in step.registry.value && step.registry.value[id].spki == Some(key))
  }

  /** The static device as the keys file and the standing file give it. */
  ghost predicate StandsAs(step: Step, t: Table, id: string, d: Static)
    requires step.Boot? && id in step.keys
  {
    var was := if id in t then t[id].revokedAt else None;
    var generation := if id in t then t[id].generation else 1;
    && d.spki == step.keys[id]
    && if was.None? && Enrolled(step, t, step.keys[id])
       then d.revokedAt == Some(step.now) && d.generation == generation + 1
       else d.revokedAt == was && d.generation == generation
  }

  /**
   * A boot that serves keeps every static device revoked that the file shows
   * so or whose key moved to an enrolled phone, at a generation past the
   * file's when it does so itself; over a file it cannot read it revokes them
   * all; and no device is there that the keys file does not name.
   */
  lemma StandsExactly(ws: seq<World>, steps: seq<Step>, i: nat)
    requires Run(ws, steps) && i < |steps| && steps[i].Boot? && ws[i + 1].proc.Some?
    ensures var step, devices := steps[i], ws[i + 1].proc.value.devices;
            && devices.Keys == step.keys.Keys && !ws[i + 1].proc.value.quarantined
            && forall id :: id in step.keys ==>
                 match LoadOf(ws[i].dir, step.io)
                 case Corrupt => devices[id] == Static(2, Some(0), step.keys[id])
                 case Absent => StandsAs(step, map[], id, devices[id])
                 case Loaded(t) => StandsAs(step, t, id, devices[id])
  {
    hide StandsAs, LoadOf;
    var step := steps[i];
    assert Next(ws[i], step, ws[i + 1]);
    BootStands(step, LoadOf(ws[i].dir, step.io));
  }

  /** The process a boot makes of what it loaded. */
  function Booted(step: Step, loaded: Load): Proc
    requires step.Boot?
  {
    BootProc(step.keys, step.enrolling, step.registry, loaded, step.now)
  }

  lemma BootStands(step: Step, loaded: Load)
    requires step.Boot?
    ensures var p := Booted(step, loaded);
            && p.devices.Keys == step.keys.Keys && !p.quarantined
            && forall id :: id in step.keys ==>
                 match loaded
                 case Corrupt => p.devices[id] == Static(2, Some(0), step.keys[id])
                 case Absent => StandsAs(step, map[], id, p.devices[id])
                 case Loaded(t) => StandsAs(step, t, id, p.devices[id])
  {
    hide StandsAs, Migrated, Reconciled, Overlaid;
    match loaded {
      case Corrupt =>
      case Absent => FileStands(step, map[]);
      case Loaded(t) => FileStands(step, t);
    }
    ProvisionedIsOverlaid(step.keys);
  }

  lemma ProvisionedIsOverlaid(keys: Keys)
    ensures Provisioned(keys) == Overlaid(keys, map[]) && HistoryOf(keys, map[]) == map[]
  {
  }

  lemma FileStands(step: Step, t: Table)
    requires step.Boot?
    ensures var migrated := Migrated(HistoryOf(step.keys, t), step.registry);
            var devices := Reconciled(Overlaid(step.keys, t), migrated, step.now);
            devices.Keys == step.keys.Keys && forall id :: id in step.keys ==> StandsAs(step, t, id, devices[id])
  {
    hide Migrated, HistoryOf, Enrolled;
    MovedKeys(step, t);
  }

  lemma MovedKeys(step: Step, t: Table)
    requires step.Boot?
    ensures forall key :: key in Migrated(HistoryOf(step.keys, t), step.registry) <==> Enrolled(step, t, key)
    ensures HistoryOf(step.keys, map[]) == map[]
  {
    forall key
      ensures key in Migrated(HistoryOf(step.keys, t), step.registry) <==> Enrolled(step, t, key)
    {
      if id :| id in t && id !in step.keys && t[id].spki == Some(key) {
        assert HistoryOf(step.keys, t)[id].spki == Some(key);
      }
      if step.registry.Some? {
        if id :| id in step.registry.value && step.registry.value[id].spki == Some(key) {
          assert step.registry.value[id].spki.value == key;
        }
      }
    }
  }

  /**
   * A boot serves exactly when there is nothing to export, its file cannot be
   * read, or its own export is durable; without keys and enrolment it touches
   * no file; and it is killed if it was, or if the kill state cannot be read.
   */
  lemma BootServesExactly(ws: seq<World>, steps: seq<Step>, i: nat)
    requires Run(ws, steps) && i < |steps| && steps[i].Boot?
    ensures var step, w, w' := steps[i], ws[i], ws[i + 1];
            var idle := step.keys == map[] && !step.enrolling;
            && (w'.proc.Some? <==> idle || LoadOf(w.dir, step.io).Corrupt? || step.result == Published(true))
            && (idle ==> w'.dir == w.dir)
            && (w'.killed <==> w.killed || step.killCorrupt)
  {
    assert Next(ws[i], steps[i], ws[i + 1]);
  }

  // ---- retries and enrolments ----------------------------------------------------------------------------

  /**
   * A retried export lifts the quarantine exactly when it is durable, and
   * touches nothing else of memory; then the file is the process's export.
   */
  lemma RetryLiftsExactly(ws: seq<World>, steps: seq<Step>, i: nat)
    requires Run(ws, steps) && i < |steps| && steps[i].RetryRevoke?
    ensures ws[i].proc.Some? && ws[i + 1].proc.Some?
    ensures var p, p', durable := ws[i].proc.value, ws[i + 1].proc.value, steps[i].result == Published(true);
            && p.quarantined && p'.quarantined == !durable
            && p'.devices == p.devices && p'.history == p.history && p'.registry == p.registry
            && ws[i + 1].killed == ws[i].killed
            && (durable ==>
                  ws[i + 1].dir.state == Settled(Entry(Some(FileOf(Snapshot(p), steps[i].size)), {})))
  {
    assert Next(ws[i], steps[i], ws[i + 1]);
  }

  /**
   * An enrolment revokes exactly the static devices named that still stood,
   * and quarantines and kills exactly when one did and the export was not
   * durable: a failed export that severs nobody leaves the lane as it was.
   */
  lemma EnrolsExactly(ws: seq<World>, steps: seq<Step>, i: nat)
    requires Run(ws, steps) && i < |steps| && steps[i].Enrol?
    ensures ws[i].proc.Some? && ws[i].proc.value.enrolling && ws[i].proc.value.registry.Some? && ws[i + 1].proc.Some?
    ensures var p, p', step := ws[i].proc.value, ws[i + 1].proc.value, steps[i];
            var severs := exists id :: id in step.aliases && id in p.devices && p.devices[id].revokedAt.None?;
            && p'.devices.Keys == p.devices.Keys && p'.history == p.history && p'.registry == Some(step.projection)
            && (forall id :: id in p.devices ==>
                  var d := p.devices[id];
                  p'.devices[id] == if id in step.aliases && d.revokedAt.None?
                                    then Static(d.generation + 1, Some(step.now), d.spki) else d)
            && if severs && step.result != Published(true)
               then p'.quarantined && ws[i + 1].killed
               else p'.quarantined == p.quarantined && ws[i + 1].killed == ws[i].killed
  {
    assert Next(ws[i], steps[i], ws[i + 1]);
  }

  // ---- kills ------------------------------------------------------------------------------------------------

  /** From a kill until a restore nothing backs a release, whatever boots, crashes or is exported meanwhile. */
  lemma {:induction false} KillHolds(ws: seq<World>, steps: seq<Step>, i: nat, j: nat, id: string)
    requires Run(ws, steps) && i < j < |ws| && steps[i].Kill?
    requires forall k :: i < k < j ==> !steps[k].Restore?
    ensures ws[j].killed && !Backs(ws[j], id)
    decreases j
  {
    assert Next(ws[j - 1], steps[j - 1], ws[j]);
    if i < j - 1 {
      KillHolds(ws, steps, i, j - 1, id);
    }
  }

  // ---- the marker -------------------------------------------------------------------------------------------

  /** A step without a power cut: the process may still die anywhere in it. */
  predicate Powered(step: Step) {
    step.Crash? ==> !step.powerCut
  }

  lemma StepKeepsMarker(w: World, step: Step, w': World)
    requires Next(w, step, w') && Powered(step)
    requires w.dir.state.visible.Some? ==> w.dir.marker.visible.Some?
    ensures w'.dir.state.visible.Some? ==> w'.dir.marker.visible.Some?
    ensures w.dir.marker.visible.Some? ==> w'.dir.marker.visible.Some?
  {
    hide BootProc, Snapshot, Exporting, AliasesSevered, CeremonyTable, AfterSevering;
  }

  lemma {:induction false} MarkerStays(ws: seq<World>, steps: seq<Step>, j: nat, i: nat)
    requires Run(ws, steps) && j <= i < |ws|
    requires forall k :: 0 <= k < |steps| ==> Powered(steps[k])
    requires ws[0].dir.state.visible.Some? ==> ws[0].dir.marker.visible.Some?
    ensures ws[i].dir.state.visible.Some? ==> ws[i].dir.marker.visible.Some?
    ensures ws[j].dir.marker.visible.Some? ==> ws[i].dir.marker.visible.Some?
    decreases i, j
  {
    hide Next;
    if i > 0 {
      MarkerStays(ws, steps, if j < i then j else i - 1, i - 1);
      assert Next(ws[i - 1], steps[i - 1], ws[i]);
      StepKeepsMarker(ws[i - 1], steps[i - 1], ws[i]);
    }
  }

  /**
   * The marker goes first: through steps that fail or die at any point, once
   * standing was published a load reads as a first boot, which revokes nobody,
   * exactly when the file is gone and the marker's probe lies.
   */
  lemma NeverFirstBootAgain(ws: seq<World>, steps: seq<Step>, j: nat, i: nat, io: LoadIo)
    requires Run(ws, steps) && j <= i < |ws| && ws[j].dir.state.visible.Some?
    requires forall k :: 0 <= k < |steps| ==> Powered(steps[k])
    requires ws[0].dir.state.visible.Some? ==> ws[0].dir.marker.visible.Some?
    ensures LoadOf(ws[i].dir, io) == Absent <==> io.readable && !io.honest && ws[i].dir.state.visible == None
  {
    hide Next;
    MarkerStays(ws, steps, j, j);
    MarkerStays(ws, steps, j, i);
  }

  /** What a load that served found: a whole, bounded document, each entry well named, numbered and keyed. */
  lemma LoadsExactly(d: StandingDir, io: LoadIo, t: Table)
    ensures LoadOf(d, io) == Loaded(t)
            <==> && io.readable && d.state.visible.Some?
                 && var f := d.state.visible.value;
                    && f.written == f.size <= 262_144 && f.text.Document? && f.text.version in {1, 2}
                    && f.text.devices == t
                    && forall id :: id in t ==>
                         && id != "" && ':' !in id && id !in {"__proto__", "constructor", "prototype"}
                         && 0 < t[id].generation < 0x20_0000_0000_0000
                         && (t[id].spki.Some? ==> f.text.version == 2 && Lettered(t[id].spki.value))
  {
    hide Base64Url.Sextet, Lettered;
    forall s: string
      ensures Lettered(s) <==> s != "" && forall i :: 0 <= i < |s| ==> Base64Url.Sextet(s[i]) >= 0
    {
      LetteredIsSextets(s);
    }
  }

  lemma LetteredIsSextets(s: string)
    ensures Lettered(s) <==> s != "" && forall i :: 0 <= i < |s| ==> Base64Url.Sextet(s[i]) >= 0
  {
    if forall i :: 0 <= i < |s| ==> Base64Url.Sextet(s[i]) >= 0 {
      assert forall c :: c in s ==> Base64Url.Sextet(c) >= 0;
    } else {
      var i :| 0 <= i < |s| && Base64Url.Sextet(s[i]) < 0;
      assert s[i] in s;
    }
  }

  /** One or more characters of the base64url alphabet. */
  predicate Lettered(s: string) {
    |s| > 0 && forall c :: c in s ==> 'A' <= c <= 'Z' || 'a' <= c <= 'z' || '0' <= c <= '9' || c == '-' || c == '_'
  }
}
