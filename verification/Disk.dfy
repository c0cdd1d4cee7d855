/**
 * The directory a store publishes into, as a reader and as a power cut see it.
 *
 * Every system call may fail, and a failed call changes nothing. A rename is
 * atomic. What a power cut leaves of a directory entry is any value the entry
 * had since the directory was last fsynced; a surviving file whose data was
 * never fsynced may come back with any content at all.
 */
module Disk {
  import opened Wrappers

  /** One inode: the text being stored, its length, how much of it was written. */
  datatype File<T> = File(text: T, size: nat, written: nat, synced: bool)

  predicate Whole<T>(f: File<T>) {
    f.written == f.size
  }

  /** A directory entry: what readers see, and everything a power cut may leave. */
  datatype Entry<T(==)> = Entry(visible: Option<File<T>>, survivors: set<Option<File<T>>>)

  /** The two names a store owns; random temporary names are inert leftovers. */
  datatype Dir<T(==), M(==)> = Dir(state: Entry<T>, marker: Entry<M>)

  predicate SoundEntry<T(==)>(e: Entry<T>) {
    e.visible in e.survivors
  }

  predicate Sound<T(==), M(==)>(d: Dir<T, M>) {
    SoundEntry(d.state) && SoundEntry(d.marker)
  }

  function Settled<T(==)>(e: Entry<T>): Entry<T> {
    Entry(e.visible, {e.visible})
  }

  function Changed<T(==)>(e: Entry<T>, now: Option<File<T>>): Entry<T> {
    Entry(now, e.survivors + {now})
  }

  /** What one surviving entry looks like after the power comes back. */
  ghost predicate Recovered<T>(before: Option<File<T>>, after: Option<File<T>>) {
    match before
    case None => after == None
    case Some(f) => after.Some? && after.value.synced && (f.synced ==> after.value == f)
  }

  ghost predicate CutEntry<T(!new)>(e: Entry<T>, e': Entry<T>) {
    && (exists x :: x in e.survivors && Recovered(x, e'.visible))
    && e'.survivors == {e'.visible}
  }

  ghost predicate Cut<T(!new), M(!new)>(d: Dir<T, M>, d': Dir<T, M>) {
    CutEntry(d.state, d'.state) && CutEntry(d.marker, d'.marker)
  }

  datatype CreateOutcome = Created | AlreadyThere | CreateFailed
  datatype UnlinkOutcome = Unlinked | NoEntry | UnlinkFailed

  /**
   * The file-system calls the stores make. `trail` lists every directory
   * state passed through, so "a crash at any point" is any element of it.
   */
  class Volume<T(==), M(==)> {
    var state: Entry<T>
    var marker: Entry<M>
    var temp: Option<File<T>>
    ghost var trail: seq<Dir<T, M>>

    function Now(): Dir<T, M>
      reads this
    {
      Dir(state, marker)
    }

    /** Call outcome chosen by the platform. */
    method Attempt() returns (ok: bool)
    {
      ok := *;
    }

    method CreateTemp(text: T, size: nat) returns (ok: bool)
      modifies this`temp
      ensures ok ==> temp == Some(File(text, size, 0, false))
      ensures !ok ==> temp == old(temp)
    {
      ok := *;
      if ok {
        temp := Some(File(text, size, 0, false));
      }
    }

    /** write() may be short: it lands at least one byte, perhaps not all. */
    method WriteTemp() returns (ok: bool)
      requires temp.Some? && temp.value.written < temp.value.size
      modifies this`temp
      ensures temp.Some?
      ensures temp.value == old(temp.value).(written := temp.value.written)
      ensures temp.value.written <= temp.value.size
      ensures if ok then old(temp.value.written) < temp.value.written else temp == old(temp)
    {
      ok := *;
      if ok {
        var n: nat := *;
        var left := temp.value.size - temp.value.written;
        var landed := if 1 <= n <= left then n else left;
        temp := Some(temp.value.(written := temp.value.written + landed));
      }
    }

    method SyncTemp() returns (ok: bool)
      requires temp.Some?
      modifies this`temp
      ensures temp == if ok then Some(old(temp.value).(synced := true)) else old(temp)
    {
      ok := *;
      if ok {
        temp := Some(temp.value.(synced := true));
      }
    }

    method RenameTemp() returns (ok: bool)
      requires temp.Some?
      modifies this
      ensures marker == old(marker)
      ensures !ok ==> state == old(state) && temp == old(temp) && trail == old(trail)
      ensures ok ==> state == Changed(old(state), old(temp)) && temp == None
      ensures ok ==> trail == old(trail) + [Now()]
    {
      ok := *;
      if ok {
        state := Changed(state, temp);
        temp := None;
        trail := trail + [Now()];
      }
    }

    method UnlinkTemp()
      modifies this`temp
    {
      var ok := *;
      if ok {
        temp := None;
      }
    }

    /** The try block of every store's save: create, write every byte, fsync, close, rename. */
    method PublishTemp(text: T, size: nat) returns (ok: bool)
      requires Sound(Now())
      modifies this
      ensures marker == old(marker)
      ensures !ok ==> state == old(state) && trail == old(trail)
      ensures ok ==> state == Changed(old(state), Some(File(text, size, size, true)))
      ensures ok ==> trail == old(trail) + [Now()]
    {
      ok := CreateTemp(text, size);
      if !ok {
        return;
      }
      while temp.value.written < size
        invariant temp.Some? && temp.value == File(text, size, temp.value.written, false)
        invariant temp.value.written <= size
        invariant state == old(state) && marker == old(marker) && trail == old(trail)
        decreases size - temp.value.written
      {
        ok := WriteTemp();
        if !ok {
          return;
        }
      }
      ok := SyncTemp();
      if !ok {
        return;
      }
      ok := Attempt(); // fchmod, fchown, closeSync
      if !ok {
        return;
      }
      ok := RenameTemp();
    }

    method UnlinkState() returns (r: UnlinkOutcome)
      modifies this
      ensures marker == old(marker) && temp == old(temp)
      ensures r.NoEntry? ==> old(state).visible == None
      ensures !r.Unlinked? ==> state == old(state) && trail == old(trail)
      ensures r.Unlinked? ==> state == Changed(old(state), None) && trail == old(trail) + [Now()]
    {
      var ok := *;
      if !ok {
        return UnlinkFailed;
      }
      if state.visible == None {
        return NoEntry;
      }
      state := Changed(state, None);
      trail := trail + [Now()];
      return Unlinked;
    }

    /** fsync on the open state file: its data, not the entry naming it. */
    method SyncState() returns (ok: bool)
      requires state.visible.Some?
      modifies this
      ensures marker == old(marker) && temp == old(temp)
      ensures !ok ==> state == old(state) && trail == old(trail)
      ensures ok ==> state == Changed(old(state), Some(old(state).visible.value.(synced := true)))
      ensures ok ==> trail == old(trail) + [Now()]
    {
      ok := *;
      if ok {
        state := Changed(state, Some(state.visible.value.(synced := true)));
        trail := trail + [Now()];
      }
    }

    method CreateMarker(note: M, size: nat) returns (r: CreateOutcome)
      modifies this
      ensures state == old(state) && temp == old(temp)
      ensures r.AlreadyThere? ==> marker.visible.Some?
      ensures !r.Created? ==> marker == old(marker) && trail == old(trail)
      ensures r.Created? ==> old(marker).visible == None
      ensures r.Created? ==> marker == Changed(old(marker), Some(File(note, size, 0, false)))
      ensures r.Created? ==> trail == old(trail) + [Now()]
    {
      var ok := *;
      if !ok {
        return CreateFailed;
      }
      if marker.visible.Some? {
        return AlreadyThere;
      }
      marker := Changed(marker, Some(File(note, size, 0, false)));
      trail := trail + [Now()];
      return Created;
    }

    method WriteMarker() returns (ok: bool)
      requires marker.visible.Some? && marker.visible.value.written < marker.visible.value.size
      modifies this
      ensures state == old(state) && temp == old(temp)
      ensures !ok ==> marker == old(marker) && trail == old(trail)
      ensures ok ==> marker.visible.Some?
      ensures ok ==> marker.visible.value == old(marker.visible.value).(written := marker.visible.value.written)
      ensures ok ==> old(marker.visible.value.written) < marker.visible.value.written <= marker.visible.value.size
      ensures ok ==> marker == Changed(old(marker), marker.visible) && trail == old(trail) + [Now()]
    {
      ok := *;
      if ok {
        var n: nat := *;
        var f := marker.visible.value;
        var left := f.size - f.written;
        var landed := if 1 <= n <= left then n else left;
        marker := Changed(marker, Some(f.(written := f.written + landed)));
        trail := trail + [Now()];
      }
    }

    method SyncMarker() returns (ok: bool)
      requires marker.visible.Some?
      modifies this
      ensures state == old(state) && temp == old(temp)
      ensures !ok ==> marker == old(marker) && trail == old(trail)
      ensures ok ==> marker == Changed(old(marker), Some(old(marker).visible.value.(synced := true)))
      ensures ok ==> trail == old(trail) + [Now()]
    {
      ok := *;
      if ok {
        marker := Changed(marker, Some(marker.visible.value.(synced := true)));
        trail := trail + [Now()];
      }
    }

    /** fsync of the parent directory: every visible entry becomes durable. */
    method FsyncDir() returns (ok: bool)
      modifies this
      ensures temp == old(temp)
      ensures !ok ==> state == old(state) && marker == old(marker) && trail == old(trail)
      ensures ok ==> state == Settled(old(state)) && marker == Settled(old(marker))
      ensures ok ==> trail == old(trail) + [Now()]
    {
      ok := *;
      if ok {
        state := Settled(state);
        marker := Settled(marker);
        trail := trail + [Now()];
      }
    }

    /** existsSync(marker): a stat error reads as "does not exist". */
    method ProbeMarker() returns (seen: bool, honest: bool)
      ensures seen == (marker.visible.Some? && honest)
    {
      honest := *;
      seen := marker.visible.Some? && honest;
    }

    method ProbeState() returns (seen: bool, honest: bool)
      ensures seen == (state.visible.Some? && honest)
    {
      honest := *;
      seen := state.visible.Some? && honest;
    }
  }
}
