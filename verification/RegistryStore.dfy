/**
 * EnrolledDeviceFileStore: a state is served only once its durability is
 * proven, and only what load() accepts is ever published.
 */
module RegistryStore {
  import opened Wrappers
  import opened Disk
  import opened RegistryFile

  const MAX_ENROLLED_DEVICES_FILE_BYTES: nat := 512 * 1024
  const MARKER_NOTE_BYTES: nat := 171

  datatype Note = OurNote | OtherBytes

  type RegistryDir = Dir<Text, Note>

  datatype Load =
    | Absent
    | Loaded(registry: Registry)
    | LegacyV1(bootstrapGeneration: int, devices: map<string, Device>)
    | Corrupt

  datatype SaveResult = Threw | Published(durable: bool)
  datatype MarkerState = NoMarker | ValidMarker | BadMarker
  datatype MarkerResult = MarkerThrew | Marker(durable: bool)

  /** The complete, synced file a publish renames into place. */
  function FileOf(r: Registry, size: nat): File<Text> {
    File(V2(r), size, size, true)
  }

  predicate OurMarker(m: Option<File<Note>>) {
    m.Some? && m.value.text == OurNote && Whole(m.value)
  }

  /** What the bytes of an opened registry file parse to. */
  ghost function ReadText(f: File<Text>): Load {
    if f.size > MAX_ENROLLED_DEVICES_FILE_BYTES || !Whole(f) then Corrupt
    else
      match f.text
      case V2(r) => if Acceptable(r) then Loaded(r) else Corrupt
      case V1(g, devices) => if LegacyAcceptable(g, devices) then LegacyV1(g, devices) else Corrupt
      case OtherText => Corrupt
  }

  /** How the calls inside one load answer; a call that was not made counts as good. */
  datatype LoadIo = LoadIo(
    markerRead: bool, reached: bool, read: bool, synced: bool, markerMade: bool, entryDurable: bool)

  /** The marker is absent, or it is ours. */
  predicate MarkerFits(m: Option<File<Note>>) {
    m.Some? ==> OurMarker(m)
  }

  /** What load() answers, from the directory it found and the answers of its calls. */
  ghost function LoadOf(d: RegistryDir, io: LoadIo): Load {
    if !io.markerRead || !MarkerFits(d.marker.visible) || !io.reached then Corrupt
    else
      match d.state.visible
      case None => if d.marker.visible.Some? then Corrupt else Absent
      case Some(f) =>
        if !io.read || !io.synced || (d.marker.visible == None && !io.markerMade) || !io.entryDurable
        then Corrupt else ReadText(f)
  }

  // ---- what each operation may do to the directory ----------------------------------------

  /** An existing marker is never rewritten, and a durable one never un-named. */
  ghost predicate MarkerKept(d: RegistryDir, p: RegistryDir) {
    && (d.marker.visible.Some? ==>
          p.marker.visible == d.marker.visible && p.marker.survivors <= d.marker.survivors)
    && (None !in d.marker.survivors ==> None !in p.marker.survivors)
  }

  ghost predicate StateKept(d: RegistryDir, p: RegistryDir) {
    p.state.visible == d.state.visible && p.state.survivors <= d.state.survivors
  }

  ghost predicate HealPoint(d: RegistryDir, p: RegistryDir) {
    Sound(p) && MarkerKept(d, p) && StateKept(d, p)
  }

  /** load() may fsync the file it read: the same bytes, now durable. */
  ghost predicate StateTouched(d: RegistryDir, p: RegistryDir) {
    || StateKept(d, p)
    || (&& d.state.visible.Some?
        && var synced := Some(d.state.visible.value.(synced := true));
           p.state.visible == synced && p.state.survivors <= d.state.survivors + {synced})
  }

  ghost predicate LoadPoint(d: RegistryDir, p: RegistryDir) {
    Sound(p) && MarkerKept(d, p) && StateTouched(d, p)
  }

  /** Both names are durable, the state's data is, and the marker is ours. */
  ghost predicate Proven(d: RegistryDir) {
    && d == Dir(Settled(d.state), Settled(d.marker))
    && d.state.visible.Some? && d.state.visible.value.synced && OurMarker(d.marker.visible)
  }

  ghost predicate LoadSpec(d: RegistryDir, io: LoadIo, d': RegistryDir, r: Load) {
    && LoadPoint(d, d')
    && r == LoadOf(d, io)
    && (r.Absent? ==> d' == d)
    && (r.Loaded? || r.LegacyV1? ==> Proven(d'))
  }

  ghost predicate SavePoint(d: RegistryDir, r: Registry, size: nat, p: RegistryDir) {
    && Sound(p)
    && MarkerKept(d, p)
    && (|| StateKept(d, p)
        || (&& Acceptable(r) && size <= MAX_ENROLLED_DEVICES_FILE_BYTES
            && p.state.visible == Some(FileOf(r, size)) && OurMarker(p.marker.visible)
            && p.state.survivors <= d.state.survivors + {Some(FileOf(r, size))}))
  }

  ghost predicate SaveSpec(d: RegistryDir, r: Registry, size: nat, d': RegistryDir, result: SaveResult) {
    && SavePoint(d, r, size, d')
    && match result
       case Threw => StateKept(d, d')
       case Published(durable) =>
         && Acceptable(r) && size <= MAX_ENROLLED_DEVICES_FILE_BYTES
         && d'.state.visible == Some(FileOf(r, size)) && OurMarker(d'.marker.visible)
         && (durable ==> Proven(d'))
  }

  /** The handles drawn for a version 1 file cover every owner it names. */
  ghost predicate DrawsCover(d: RegistryDir, draws: map<string, string>) {
    && Handles(draws)
    && (d.state.visible.Some? && d.state.visible.value.text.V1? ==>
          OwnersOf(d.state.visible.value.text.devices) <= draws.Keys)
  }

  class EnrolledDeviceFileStore {
    const volume: Volume<Text, Note>

    constructor (volume: Volume<Text, Note>)
      ensures this.volume == volume
    {
      this.volume := volume;
    }

    method ReadMarker() returns (r: MarkerState, ghost read: bool)
      ensures r == (if !read then BadMarker
                    else if volume.marker.visible == None then NoMarker
                    else if OurMarker(volume.marker.visible) then ValidMarker else BadMarker)
    {
      var reached := volume.Attempt(); // any failure but ENOENT
      read := reached;
      if !reached {
        return BadMarker, read;
      }
      if volume.marker.visible == None {
        return NoMarker, read;
      }
      var m := volume.marker.visible.value;
      return if m.text == OurNote && m.written == m.size then ValidMarker else BadMarker, read;
    }

    method EnsureMarker() returns (r: MarkerResult)
      requires Sound(volume.Now())
      modifies volume
      ensures volume.temp == old(volume.temp)
      ensures HealPoint(old(volume.Now()), volume.Now())
      ensures r.Marker? ==> OurMarker(volume.marker.visible)
      ensures old(volume.trail) <= volume.trail
      ensures forall i :: |old(volume.trail)| <= i < |volume.trail| ==> HealPoint(old(volume.Now()), volume.trail[i])
    {
      var existing, _ := ReadMarker();
      if existing != NoMarker {
        return if existing == ValidMarker then Marker(true) else MarkerThrew;
      }
      var created := volume.CreateMarker(OurNote, MARKER_NOTE_BYTES);
      if !created.Created? {
        return MarkerThrew;
      }
      var written := WriteNote();
      if !written {
        return MarkerThrew;
      }
      var durable := volume.FsyncDir();
      return Marker(durable);
    }

    /** Write every byte of a marker just created, and fsync it. */
    method WriteNote() returns (ok: bool)
      requires volume.marker.visible == Some(File(OurNote, MARKER_NOTE_BYTES, 0, false)) && Sound(volume.Now())
      modifies volume
      ensures volume.temp == old(volume.temp) && volume.state == old(volume.state) && Sound(volume.Now())
      ensures ok ==> OurMarker(volume.marker.visible)
      ensures None !in old(volume.marker.survivors) ==> None !in volume.marker.survivors
      ensures old(volume.trail) <= volume.trail
      ensures forall i :: |old(volume.trail)| <= i < |volume.trail| ==>
                && Sound(volume.trail[i]) && volume.trail[i].state == old(volume.state)
                && (None !in old(volume.marker.survivors) ==> None !in volume.trail[i].marker.survivors)
    {
      ok := true;
      while ok && volume.marker.visible.value.written < MARKER_NOTE_BYTES
        invariant volume.temp == old(volume.temp) && volume.state == old(volume.state) && Sound(volume.Now())
        invariant volume.marker.visible.Some?
        invariant var m := volume.marker.visible.value;
                  m.text == OurNote && m.size == MARKER_NOTE_BYTES && m.written <= m.size
        invariant None !in old(volume.marker.survivors) ==> None !in volume.marker.survivors
        invariant old(volume.trail) <= volume.trail
        invariant forall i :: |old(volume.trail)| <= i < |volume.trail| ==>
                && Sound(volume.trail[i]) && volume.trail[i].state == old(volume.state)
                && (None !in old(volume.marker.survivors) ==> None !in volume.trail[i].marker.survivors)
        decreases MARKER_NOTE_BYTES - volume.marker.visible.value.written, ok
      {
        ok := volume.WriteMarker();
      }
      if ok {
        ok := volume.SyncMarker();
      }
    }

    method Save(r: Registry, size: nat) returns (result: SaveResult)
      requires Sound(volume.Now())
      modifies volume
      ensures SaveSpec(old(volume.Now()), r, size, volume.Now(), result)
      ensures old(volume.trail) <= volume.trail
      ensures forall i :: |old(volume.trail)| <= i < |volume.trail| ==>
                            SavePoint(old(volume.Now()), r, size, volume.trail[i])
    {
      var pinned := volume.Attempt(); // the directory is still the pinned one
      if !pinned || size > MAX_ENROLLED_DEVICES_FILE_BYTES {
        return Threw;
      }
      var loadable := AsPersistedEnrolledDevices(r, MAX_OWNERS);
      if !loadable {
        return Threw;
      }
      var marker := EnsureMarker();
      if marker.MarkerThrew? {
        return Threw;
      }
      var published := volume.PublishTemp(V2(r), size);
      if !published {
        volume.UnlinkTemp();
        return Threw;
      }
      var dirDurable := volume.FsyncDir();
      return Published(marker.durable && dirDurable);
    }

    method Load(draws: map<string, string>) returns (r: Load, ghost io: LoadIo)
      requires Sound(volume.Now()) && DrawsCover(volume.Now(), draws)
      modifies volume
      ensures LoadSpec(old(volume.Now()), io, volume.Now(), r)
      ensures old(volume.trail) <= volume.trail
      ensures forall i :: |old(volume.trail)| <= i < |volume.trail| ==> LoadPoint(old(volume.Now()), volume.trail[i])
    {
      hide Acceptable, LegacyAcceptable;
      io := LoadIo(true, true, true, true, true, true);
      var marker, markerRead := ReadMarker();
      var reached := volume.Attempt(); // the pinned directory, and any open failure but ENOENT
      io := io.(markerRead := markerRead, reached := reached);
      if marker == BadMarker || !reached {
        return Corrupt, io;
      }
      if volume.state.visible == None {
        return if marker == ValidMarker then Corrupt else Absent, io;
      }
      var file := volume.state.visible.value;
      var read := volume.Attempt();
      io := io.(read := read);
      if !read {
        return Corrupt, io;
      }
      var synced := volume.SyncState(); // the first half of the durability barrier
      io := io.(synced := synced);
      if !synced {
        return Corrupt, io;
      }
      r := Parse(file, draws);
      if r == Corrupt {
        return;
      }
      var settled, made, entryDurable := Settle(marker);
      io := io.(markerMade := made, entryDurable := entryDurable);
      if !settled {
        return Corrupt, io;
      }
    }

    /** The second half of the barrier: a marker if there is none, and both names durable. */
    method Settle(marker: MarkerState) returns (ok: bool, ghost made: bool, ghost entryDurable: bool)
      requires Sound(volume.Now()) && volume.state.visible.Some? && volume.state.visible.value.synced
      requires if marker.NoMarker? then volume.marker.visible == None else OurMarker(volume.marker.visible)
      modifies volume
      ensures HealPoint(old(volume.Now()), volume.Now())
      ensures ok == ((old(volume.marker.visible) == None ==> made) && entryDurable)
      ensures ok ==> Proven(volume.Now())
      ensures old(volume.trail) <= volume.trail
      ensures forall i :: |old(volume.trail)| <= i < |volume.trail| ==> HealPoint(old(volume.Now()), volume.trail[i])
    {
      made, entryDurable := true, true;
      if marker == NoMarker {
        var healed := EnsureMarker();
        made := healed == Marker(true);
        if healed != Marker(true) {
          return false, made, entryDurable;
        }
      }
      ok := volume.FsyncDir();
      entryDurable := ok;
    }

    method Parse(f: File<Text>, draws: map<string, string>) returns (r: Load)
      requires Handles(draws) && (f.text.V1? ==> OwnersOf(f.text.devices) <= draws.Keys)
      ensures r == ReadText(f)
    {
      if f.size > MAX_ENROLLED_DEVICES_FILE_BYTES || f.written != f.size {
        return Corrupt;
      }
      match f.text {
        case V2(registry) =>
          var ok := AsPersistedEnrolledDevices(registry, MAX_OWNERS);
          r := if ok then Loaded(registry) else Corrupt;
        case V1(generation, devices) =>
          var ok := AsLegacyV1(generation, devices, draws);
          r := if ok then LegacyV1(generation, devices) else Corrupt;
        case OtherText => r := Corrupt;
      }
    }
  }
}
