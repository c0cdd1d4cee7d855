/**
 * KillStateFileStore: load, save and degrade over a directory whose calls may
 * fail and whose power may be cut at any point.
 */
module KillStateStore {
  import opened Wrappers
  import opened Disk
  import opened KillStateFile

  const MAX_KILL_STATE_FILE_BYTES: nat := 64 * 1024
  const MARKER_NOTE_BYTES: nat := 116

  type KillDir = Dir<Json, ()>

  datatype KillStateLoad = Absent | Loaded(state: PersistedKillState) | Corrupt
  datatype SaveResult = Threw | Published(durable: bool)
  datatype MarkerResult = MarkerThrew | Marker(durable: bool)

  /** How the calls inside one load answer. */
  datatype LoadIo = LoadIo(readable: bool, honest: bool)

  /** The bytes of an opened state file: bounded, parsed, shape-checked. */
  function ReadText(f: File<Json>): KillStateLoad {
    if f.size > MAX_KILL_STATE_FILE_BYTES || !Whole(f) then Corrupt
    else
      match AsPersistedKillState(f.text)
      case None => Corrupt
      case Some(s) => Loaded(s)
  }

  function LoadOf(d: KillDir, io: LoadIo): KillStateLoad {
    if !io.readable then Corrupt
    else
      match d.state.visible
      case None => if d.marker.visible.Some? && io.honest then Corrupt else Absent
      case Some(f) => ReadText(f)
  }

  /** A complete, synced file carrying the printed state. */
  function FileOf(s: PersistedKillState, size: nat): File<Json> {
    File(StateJson(s), size, size, true)
  }

  // ---- what each operation may do to the directory ---------------------------

  ghost predicate MarkerKept(d: KillDir, d': KillDir) {
    && (d.marker.visible.Some? ==> d'.marker.visible.Some?)
    && (None !in d.marker.survivors ==> None !in d'.marker.survivors)
  }

  ghost predicate StateKept(d: KillDir, d': KillDir) {
    d'.state.visible == d.state.visible && d'.state.survivors <= d.state.survivors
  }

  /** Any directory a crash inside save(f) may leave behind. */
  ghost predicate SavePoint(d: KillDir, f: File<Json>, p: KillDir) {
    && Sound(p)
    && MarkerKept(d, p)
    && p.state.survivors <= d.state.survivors + {Some(f)}
    && (p.state.visible == d.state.visible
        || (p.state.visible == Some(f) && p.marker.visible.Some?))
  }

  ghost predicate SaveSpec(d: KillDir, f: File<Json>, d': KillDir, r: SaveResult) {
    && SavePoint(d, f, d')
    && match r
       case Threw => StateKept(d, d')
       case Published(durable) =>
         && d'.state.visible == Some(f) && d'.marker.visible.Some?
         && (durable ==> d'.state == Settled(d'.state) && d'.marker == Settled(d'.marker))
  }

  ghost predicate DegradePoint(d: KillDir, p: KillDir) {
    && Sound(p)
    && MarkerKept(d, p)
    && p.state.survivors <= d.state.survivors + {None}
    && (p.state.visible == d.state.visible || p.state.visible == None)
  }

  /** `honest` says the closing existence probe, if any, told the truth. */
  ghost predicate DegradeSpec(d: KillDir, d': KillDir, quarantined: bool, honest: bool) {
    && DegradePoint(d, d')
    && (quarantined ==> d'.marker.visible.Some?)
    && (quarantined && honest ==> d'.state.visible == None)
    && (!honest ==> d'.state.visible == d.state.visible)
  }

  /** load() may heal a missing marker, best effort; nothing else moves. */
  ghost predicate HealSpec(d: KillDir, d': KillDir) {
    Sound(d') && MarkerKept(d, d') && StateKept(d, d')
  }

  class KillStateFileStore {
    const volume: Volume<Json, ()>

    constructor (volume: Volume<Json, ()>)
      ensures this.volume == volume
    {
      this.volume := volume;
    }

    method EnsureMarker() returns (r: MarkerResult)
      requires Sound(volume.Now())
      modifies volume
      ensures volume.temp == old(volume.temp)
      ensures HealSpec(old(volume.Now()), volume.Now())
      ensures r.Marker? ==> volume.marker.visible.Some?
      ensures old(volume.trail) <= volume.trail
      ensures forall i :: |old(volume.trail)| <= i < |volume.trail| ==> HealSpec(old(volume.Now()), volume.trail[i])
    {
      var created := volume.CreateMarker((), MARKER_NOTE_BYTES);
      match created {
        case AlreadyThere => return Marker(true);
        case CreateFailed => return MarkerThrew;
        case Created =>
      }
      var wrote := volume.WriteMarker();
      if !wrote {
        return MarkerThrew;
      }
      var synced := volume.SyncMarker();
      if !synced {
        return MarkerThrew;
      }
      var durable := volume.FsyncDir();
      return Marker(durable);
    }

    method Save(text: Json, size: nat) returns (r: SaveResult)
      requires Sound(volume.Now())
      modifies volume
      ensures SaveSpec(old(volume.Now()), File(text, size, size, true), volume.Now(), r)
      ensures old(volume.trail) <= volume.trail
      ensures forall i :: |old(volume.trail)| <= i < |volume.trail| ==>
                            SavePoint(old(volume.Now()), File(text, size, size, true), volume.trail[i])
    {
      var made := volume.Attempt(); // mkdirSync
      if !made {
        return Threw;
      }
      var marker := EnsureMarker();
      if marker.MarkerThrew? {
        return Threw;
      }
      var published := volume.PublishTemp(text, size);
      if !published {
        volume.UnlinkTemp();
        return Threw;
      }
      var dirDurable := volume.FsyncDir();
      return Published(marker.durable && dirDurable);
    }

    method Degrade() returns (quarantined: bool, ghost honest: bool)
      requires Sound(volume.Now())
      modifies volume
      ensures DegradeSpec(old(volume.Now()), volume.Now(), quarantined, honest)
      ensures old(volume.trail) <= volume.trail
      ensures forall i :: |old(volume.trail)| <= i < |volume.trail| ==>
                            DegradePoint(old(volume.Now()), volume.trail[i])
    {
      honest := true;
      var marker := EnsureMarker();
      var markerOk := true;
      if marker.MarkerThrew? {
        var seen, _ := volume.ProbeMarker();
        markerOk := seen;
      }
      var unlinked := volume.UnlinkState();
      var stateGone := true;
      if unlinked.UnlinkFailed? {
        var seen, truthful := volume.ProbeState();
        honest := truthful;
        stateGone := !seen;
      }
      quarantined := markerOk && stateGone;
    }

    method Load() returns (r: KillStateLoad, ghost io: LoadIo)
      requires Sound(volume.Now())
      modifies volume
      ensures r == LoadOf(old(volume.Now()), io)
      ensures HealSpec(old(volume.Now()), volume.Now())
      ensures old(volume.trail) <= volume.trail
      ensures forall i :: |old(volume.trail)| <= i < |volume.trail| ==> HealSpec(old(volume.Now()), volume.trail[i])
    {
      io := LoadIo(false, true);
      var reached := volume.Attempt(); // any failure but ENOENT
      if !reached {
        return Corrupt, io;
      }
      if volume.state.visible == None {
        var seen, truthful := volume.ProbeMarker();
        io := LoadIo(true, truthful);
        return if seen then Corrupt else Absent, io;
      }
      var file := volume.state.visible.value;
      var read := volume.Attempt(); // fstat and the bounded read loop
      if !read {
        return Corrupt, io;
      }
      io := LoadIo(true, true);
      r := ReadText(file);
      if r.Loaded? {
        var _ := EnsureMarker(); // best effort
      }
    }
  }

  // ---- runs of the store, with crashes and power cuts ------------------------

  datatype StoreOp =
    | SaveDone(f: File<Json>, r: SaveResult)
    | SaveCrashed(f: File<Json>, at: KillDir, powerCut: bool)
    | DegradeDone(quarantined: bool, honest: bool)
    | DegradeCrashed(at: KillDir, powerCut: bool)
    | LoadDone
    | PowerCut

  ghost predicate CrashTo(p: KillDir, powerCut: bool, d': KillDir) {
    if powerCut then Cut(p, d') else d' == p
  }

  ghost predicate StoreStep(d: KillDir, op: StoreOp, d': KillDir) {
    match op
    case SaveDone(f, r) => f.synced && SaveSpec(d, f, d', r)
    case SaveCrashed(f, p, cut) => f.synced && SavePoint(d, f, p) && CrashTo(p, cut, d')
    case DegradeDone(quarantined, honest) => DegradeSpec(d, d', quarantined, honest)
    case DegradeCrashed(p, cut) => DegradePoint(d, p) && CrashTo(p, cut, d')
    case LoadDone => HealSpec(d, d')
    case PowerCut => Cut(d, d')
  }

  ghost predicate StoreRun(ds: seq<KillDir>, ops: seq<StoreOp>) {
    && |ds| == |ops| + 1
    && forall i :: 0 <= i < |ops| ==> StoreStep(ds[i], ops[i], ds[i + 1])
  }

  predicate Writes(op: StoreOp) {
    op.SaveDone? || op.SaveCrashed?
  }

  predicate Changes(op: StoreOp) {
    Writes(op) || op.DegradeDone? || op.DegradeCrashed?
  }

  /** Everything the state entry may hold: the durable file, or one saved since. */
  ghost predicate Accounted(d: KillDir, base: File<Json>, ops: seq<StoreOp>) {
    && Sound(d)
    && None !in d.marker.survivors
    && forall x :: x in d.state.survivors ==>
         || (x == Some(base))
         || (x == None && exists i :: 0 <= i < |ops| && (ops[i].DegradeDone? || ops[i].DegradeCrashed?))
         || (exists i :: 0 <= i < |ops| && Writes(ops[i]) && x == Some(ops[i].f))
  }

  lemma AccountedStep(d: KillDir, op: StoreOp, d': KillDir, base: File<Json>, ops: seq<StoreOp>)
    requires base.synced
    requires forall i :: 0 <= i < |ops| && Writes(ops[i]) ==> ops[i].f.synced
    requires Accounted(d, base, ops) && StoreStep(d, op, d')
    ensures Accounted(d', base, ops + [op])
  {
    var ops' := ops + [op];
    assert ops'[|ops|] == op;
    assert forall i :: 0 <= i < |ops| ==> ops'[i] == ops[i];
    forall x | x in d'.state.survivors
      ensures x == Some(base)
           || (x == None && exists i :: 0 <= i < |ops'| && (ops'[i].DegradeDone? || ops'[i].DegradeCrashed?))
           || (exists i :: 0 <= i < |ops'| && Writes(ops'[i]) && x == Some(ops'[i].f))
    {
      if x in d.state.survivors {
        AccountedCarries(d, x, base, ops, op);
      } else {
        assert Writes(op) ==> x == Some(op.f);
        assert !Writes(op) ==> x == None && (op.DegradeDone? || op.DegradeCrashed?);
      }
    }
  }

  /** A justification for a survivor stays one when the history grows. */
  lemma AccountedCarries(d: KillDir, x: Option<File<Json>>, base: File<Json>, ops: seq<StoreOp>, op: StoreOp)
    requires Accounted(d, base, ops) && x in d.state.survivors
    ensures var ops' := ops + [op];
            || x == Some(base)
            || (x == None && exists i :: 0 <= i < |ops'| && (ops'[i].DegradeDone? || ops'[i].DegradeCrashed?))
            || (exists i :: 0 <= i < |ops'| && Writes(ops'[i]) && x == Some(ops'[i].f))
  {
    var ops' := ops + [op];
    if x == None && x != Some(base) {
      var i :| 0 <= i < |ops| && (ops[i].DegradeDone? || ops[i].DegradeCrashed?);
      assert ops'[i] == ops[i];
    } else if x != Some(base) {
      var i :| 0 <= i < |ops| && Writes(ops[i]) && x == Some(ops[i].f);
      assert ops'[i] == ops[i];
    }
  }

  lemma {:induction false} AccountedRun(ds: seq<KillDir>, ops: seq<StoreOp>, base: File<Json>)
    requires StoreRun(ds, ops) && base.synced && Accounted(ds[0], base, [])
    ensures Accounted(ds[|ops|], base, ops)
    ensures forall i :: 0 <= i < |ops| && Writes(ops[i]) ==> ops[i].f.synced
    decreases |ops|
  {
    forall i | 0 <= i < |ops| && Writes(ops[i])
      ensures ops[i].f.synced
    {
      assert StoreStep(ds[i], ops[i], ds[i + 1]);
    }
    if |ops| > 0 {
      var n := |ops| - 1;
      AccountedRun(ds[..n + 1], ops[..n], base);
      assert StoreStep(ds[n], ops[n], ds[n + 1]);
      AccountedStep(ds[n], ops[n], ds[n + 1], base, ops[..n]);
      assert ops == ops[..n] + [ops[n]];
    }
  }

  /** A save that reported durable: true leaves nothing else to come back. */
  lemma DurableSaveSettles(d: KillDir, f: File<Json>, d': KillDir)
    requires f.synced && SaveSpec(d, f, d', Published(true))
    ensures Accounted(d', f, [])
  {
  }

  /**
   * After a durable save of `base`, through any later saves, crashed saves,
   * degrades, loads and power cuts: a load after one more power cut returns
   * the durable state, one saved since, or corrupt. It reads as a first boot
   * exactly when the state file is gone and the marker's probe lies.
   */
  lemma LoadAfterPowerCut(
    d: KillDir, base: File<Json>, ds: seq<KillDir>, ops: seq<StoreOp>, q: KillDir, io: LoadIo)
    requires StoreRun(ds, ops) && Cut(ds[|ops|], q)
    requires base.synced && SaveSpec(d, base, ds[0], Published(true))
    ensures LoadOf(q, io) == Absent <==> io.readable && !io.honest && q.state.visible == None
    ensures LoadOf(q, io).Loaded? ==>
              || LoadOf(q, io) == ReadText(base)
              || exists i :: 0 <= i < |ops| && Writes(ops[i]) && LoadOf(q, io) == ReadText(ops[i].f)
  {
    DurableSaveSettles(d, base, ds[0]);
    AccountedRun(ds, ops, base);
    var x :| x in ds[|ops|].state.survivors && Recovered(x, q.state.visible);
    if LoadOf(q, io).Loaded? && x != Some(base) {
      var i :| 0 <= i < |ops| && Writes(ops[i]) && x == Some(ops[i].f);
      assert LoadOf(q, io) == ReadText(ops[i].f);
    }
  }

  /** A step without a power cut: the process may still stop anywhere in it. */
  predicate Powered(op: StoreOp) {
    !op.PowerCut? && (op.SaveCrashed? || op.DegradeCrashed? ==> !op.powerCut)
  }

  /** From a directory in which a state has its marker, the marker is there as soon as any state is, and stays. */
  lemma {:induction false} MarkedSince(ds: seq<KillDir>, ops: seq<StoreOp>, j: nat, i: nat)
    requires StoreRun(ds, ops) && j <= i < |ds|
    requires forall k :: 0 <= k < |ops| ==> Powered(ops[k])
    requires ds[0].state.visible.Some? ==> ds[0].marker.visible.Some?
    ensures ds[j].state.visible.Some? ==> ds[i].marker.visible.Some?
    decreases i, j
  {
    if i > 0 {
      assert StoreStep(ds[i - 1], ops[i - 1], ds[i]);
      MarkedSince(ds, ops, if j < i then j else i - 1, i - 1);
    }
  }

  /**
   * The marker goes before the state: through saves, degrades and loads that
   * may crash at any point, once any state was published no honest load takes
   * the directory for a first boot again.
   */
  lemma NeverFirstBootAgain(ds: seq<KillDir>, ops: seq<StoreOp>, j: nat, i: nat, io: LoadIo)
    requires StoreRun(ds, ops) && j <= i < |ds| && ds[j].state.visible.Some?
    requires forall k :: 0 <= k < |ops| ==> Powered(ops[k])
    requires ds[0].state.visible.Some? ==> ds[0].marker.visible.Some?
    ensures LoadOf(ds[i], io) == Absent <==> io.readable && !io.honest && ds[i].state.visible == None
  {
    MarkedSince(ds, ops, j, i);
  }

  lemma {:induction false} UntouchedRun(ds: seq<KillDir>, ops: seq<StoreOp>, base: File<Json>)
    requires StoreRun(ds, ops) && base.synced
    requires ds[0].state == Entry(Some(base), {Some(base)})
    requires forall i :: 0 <= i < |ops| ==> !Changes(ops[i])
    ensures ds[|ops|].state == Entry(Some(base), {Some(base)})
    decreases |ops|
  {
    if |ops| > 0 {
      var n := |ops| - 1;
      UntouchedRun(ds[..n + 1], ops[..n], base);
      assert StoreStep(ds[n], ops[n], ds[n + 1]);
    }
  }

  /**
   * Until a later save or degrade runs, every readable load returns exactly
   * the state whose save reported durable: true, power cuts included.
   */
  lemma DurableStateStays(
    d: KillDir, s: PersistedKillState, size: nat, ds: seq<KillDir>, ops: seq<StoreOp>, io: LoadIo)
    requires Loadable(s) && size <= MAX_KILL_STATE_FILE_BYTES
    requires StoreRun(ds, ops) && SaveSpec(d, FileOf(s, size), ds[0], Published(true))
    requires forall i :: 0 <= i < |ops| ==> !Changes(ops[i])
    ensures LoadOf(ds[|ops|], io) == if io.readable then Loaded(s) else Corrupt
  {
    UntouchedRun(ds, ops, FileOf(s, size));
    PrintedStateLoads(s);
  }

  /**
   * degrade() promises that a later load fails closed. A degrade that reports
   * quarantine keeps that promise exactly when its closing probe was honest,
   * or the directory it was called on held no state that loads.
   */
  lemma DegradePromise(d: KillDir, d': KillDir, honest: bool)
    requires DegradeSpec(d, d', true, honest)
    ensures (forall io: LoadIo :: io.honest ==> LoadOf(d', io) == Corrupt)
            <==> honest || d.state.visible == None || ReadText(d.state.visible.value) == Corrupt
  {
    assert d'.marker.visible.Some?;
    if d'.state.visible.Some? && ReadText(d'.state.visible.value) != Corrupt {
      assert LoadOf(d', LoadIo(true, true)) != Corrupt;
    }
  }

  /**
   * A failed unlink followed by a failing stat is reported as quarantined:
   * existsSync answers false, and the stale state loads as healthy.
   */
  lemma DegradeFooledByProbe(d: KillDir, stale: PersistedKillState, size: nat)
    requires Sound(d) && d.marker.visible.Some? && d.state.visible == Some(FileOf(stale, size))
    requires Loadable(stale) && size <= MAX_KILL_STATE_FILE_BYTES
    ensures DegradeSpec(d, d, true, false)
    ensures LoadOf(d, LoadIo(true, true)) == Loaded(stale)
  {
    PrintedStateLoads(stale);
  }
}
