/**
 * DeviceStandingFileStore: the shared standing file, its strict loader and
 * its publish. Unlike the registry it serves what it reads without first
 * proving it durable; unlike the kill state it never removes its file.
 */
module StandingStore {
  import opened Wrappers
  import opened Disk
  import Base64Url

  const MAX_SAFE_INTEGER: int := 0x1F_FFFF_FFFF_FFFF
  const MAX_DEVICE_STANDING_FILE_BYTES: nat := 256 * 1024
  const MARKER_NOTE_BYTES: nat := 162
  const FORBIDDEN_IDS: set<string> := {"__proto__", "constructor", "prototype"}

  /** One device's standing; ceremony-enrolled entries carry their public key. */
  datatype DeviceStanding = DeviceStanding(generation: int, revokedAt: Option<int>, spki: Option<string>)

  type Table = map<string, DeviceStanding>

  /** Parsed JSON: a standing document of some version, or anything else. */
  datatype Text = Document(version: int, devices: Table) | OtherText

  type StandingDir = Dir<Text, ()>

  datatype Load = Absent | Loaded(devices: Table) | Corrupt
  datatype SaveResult = Threw | Published(durable: bool)

  /** How the calls inside one load answer. */
  datatype LoadIo = LoadIo(readable: bool, honest: bool)

  predicate EntryOk(version: int, id: string, e: DeviceStanding) {
    && id != "" && ':' !in id && id !in FORBIDDEN_IDS
    && 1 <= e.generation <= MAX_SAFE_INTEGER
    && (e.spki.Some? ==>
          version == 2 && e.spki.value != ""
          && forall i :: 0 <= i < |e.spki.value| ==> Base64Url.Sextet(e.spki.value[i]) >= 0)
  }

  function AsPersistedDeviceStanding(t: Text): Option<Table> {
    if t.OtherText? || (t.version != 1 && t.version != 2) then None
    else if exists id :: id in t.devices && !EntryOk(t.version, id, t.devices[id]) then None
    else Some(t.devices)
  }

  /** The loop that fills the table entry by entry. */
  method BuildTable(t: Text) returns (r: Option<Table>)
    ensures r == AsPersistedDeviceStanding(t)
  {
    if t.OtherText? || (t.version != 1 && t.version != 2) {
      return None;
    }
    var out: Table := map[];
    var left := t.devices.Keys;
    while left != {}
      invariant left <= t.devices.Keys
      invariant out.Keys == t.devices.Keys - left
      invariant forall id :: id in out ==> out[id] == t.devices[id] && EntryOk(t.version, id, out[id])
    {
      var id :| id in left;
      if !EntryOk(t.version, id, t.devices[id]) {
        return None;
      }
      out := out[id := t.devices[id]];
      left := left - {id};
    }
    assert out == t.devices;
    return Some(out);
  }

  function ReadText(f: File<Text>): Load {
    if f.size > MAX_DEVICE_STANDING_FILE_BYTES || !Whole(f) then Corrupt
    else
      match AsPersistedDeviceStanding(f.text)
      case None => Corrupt
      case Some(devices) => Loaded(devices)
  }

  function LoadOf(d: StandingDir, io: LoadIo): Load {
    if !io.readable then Corrupt
    else
      match d.state.visible
      case None => if d.marker.visible.Some? && io.honest then Corrupt else Absent
      case Some(f) => ReadText(f)
  }

  function FileOf(devices: Table, size: nat): File<Text> {
    File(Document(2, devices), size, size, true)
  }

  ghost predicate HealSpec(d: StandingDir, p: StandingDir) {
    && Sound(p) && (d.marker.visible.Some? ==> p.marker.visible.Some?)
    && p.state.visible == d.state.visible && p.state.survivors <= d.state.survivors
  }

  ghost predicate SavePoint(d: StandingDir, f: File<Text>, p: StandingDir) {
    && Sound(p) && (d.marker.visible.Some? ==> p.marker.visible.Some?)
    && p.state.survivors <= d.state.survivors + {Some(f)}
    && (p.state.visible == d.state.visible || (p.state.visible == Some(f) && p.marker.visible.Some?))
  }

  ghost predicate SaveSpec(d: StandingDir, f: File<Text>, d': StandingDir, r: SaveResult) {
    && SavePoint(d, f, d')
    && match r
       case Threw => HealSpec(d, d')
       case Published(durable) =>
         && d'.state.visible == Some(f) && d'.marker.visible.Some?
         && (durable ==> d'.state == Settled(d'.state))
  }

  class DeviceStandingFileStore {
    const volume: Volume<Text, ()>

    constructor (volume: Volume<Text, ()>)
      ensures this.volume == volume
    {
      this.volume := volume;
    }

    method EnsureMarker() returns (ok: bool, durable: bool)
      requires Sound(volume.Now())
      modifies volume
      ensures volume.temp == old(volume.temp)
      ensures HealSpec(old(volume.Now()), volume.Now())
      ensures ok ==> volume.marker.visible.Some?
      ensures old(volume.trail) <= volume.trail
      ensures forall i :: |old(volume.trail)| <= i < |volume.trail| ==> HealSpec(old(volume.Now()), volume.trail[i])
    {
      var seen, _ := volume.ProbeMarker();
      if seen {
        return true, true;
      }
      var created := volume.CreateMarker((), MARKER_NOTE_BYTES);
      match created {
        case AlreadyThere => return true, true;
        case CreateFailed => return false, false;
        case Created =>
      }
      ok := true;
      while ok && volume.marker.visible.value.written < MARKER_NOTE_BYTES
        invariant volume.temp == old(volume.temp) && volume.state == old(volume.state) && Sound(volume.Now())
        invariant volume.marker.visible.Some? && volume.marker.visible.value.size == MARKER_NOTE_BYTES
        invariant volume.marker.visible.value.written <= MARKER_NOTE_BYTES
        invariant old(volume.trail) <= volume.trail
        invariant forall i :: |old(volume.trail)| <= i < |volume.trail| ==> HealSpec(old(volume.Now()), volume.trail[i])
        decreases MARKER_NOTE_BYTES - volume.marker.visible.value.written, ok
      {
        ok := volume.WriteMarker();
      }
      if ok {
        ok := volume.SyncMarker();
      }
      if !ok {
        return false, false;
      }
      durable := volume.FsyncDir();
    }

    method Save(text: Text, size: nat) returns (r: SaveResult)
      requires Sound(volume.Now())
      modifies volume
      ensures SaveSpec(old(volume.Now()), File(text, size, size, true), volume.Now(), r)
      ensures old(volume.trail) <= volume.trail
      ensures forall i :: |old(volume.trail)| <= i < |volume.trail| ==>
                            SavePoint(old(volume.Now()), File(text, size, size, true), volume.trail[i])
    {
      var made := volume.Attempt(); // mkdirSync
      if !made {
        return Threw;
      }
      var marked, markerDurable := EnsureMarker();
      if !marked {
        return Threw;
      }
      var published := volume.PublishTemp(text, size);
      if !published {
        volume.UnlinkTemp();
        return Threw;
      }
      var dirDurable := volume.FsyncDir();
      var boundaryOk := volume.Attempt(); // stat: published mode and group are the requested ones
      return Published(boundaryOk && markerDurable && dirDurable);
    }

    method Load() returns (r: Load, ghost io: LoadIo)
      requires Sound(volume.Now())
      modifies volume
      ensures r == LoadOf(old(volume.Now()), io)
      ensures HealSpec(old(volume.Now()), volume.Now())
      ensures old(volume.trail) <= volume.trail
      ensures forall i :: |old(volume.trail)| <= i < |volume.trail| ==> HealSpec(old(volume.Now()), volume.trail[i])
    {
      io := LoadIo(false, true);
      var reached := volume.Attempt(); // any failure but ENOENT
      if !reached {
        return Corrupt, io;
      }
      if volume.state.visible == None {
        var seen, truthful := volume.ProbeMarker();
        io := LoadIo(true, truthful);
        return if seen then Corrupt else Absent, io;
      }
      var file := volume.state.visible.value;
      var read := volume.Attempt(); // the boundary check and the bounded read loop
      if !read {
        return Corrupt, io;
      }
      io := LoadIo(true, true);
      if file.size > MAX_DEVICE_STANDING_FILE_BYTES || file.written != file.size {
        return Corrupt, io;
      }
      var table := BuildTable(file.text);
      if table == None {
        return Corrupt, io;
      }
      var _, _ := EnsureMarker(); // best effort
      r := Loaded(table.value);
    }
  }
}
