/** state.json on a disk that keeps whatever a stopped process left behind. Contents are
    abstract images: encoding and decoding of a complete image are inverse except that an
    empty list is omitted and comes back as nil; a partly written file does not decode. */
module StateFile {
  import opened Prelude
  import opened ProvisionTypes
  import opened ClientConfig
  import opened Resolve
  import opened ActiveConfig

  datatype Content = Complete(st: ActiveState) | Torn

  datatype Disk = Disk(file: Option<Content>, temp: Option<Content>)

  datatype LoadResult = Loaded(st: Option<ActiveState>) | ParseFailed

  function ReloadList<T(==)>(slice: Option<seq<T>>): Option<seq<T>> {
    if slice == Some([]) then None else slice
  }

  /** What a state looks like after it went to disk and back. */
  function Reload(st: ActiveState): ActiveState {
    st.(sensors := ReloadList(st.sensors), devices := ReloadList(st.devices))
  }

  /** A missing file is the normal sign of an unclaimed boot, not an error. */
  function LoadActiveState(d: Disk): LoadResult {
    match d.file
    case None => Loaded(None)
    case Some(Torn) => ParseFailed
    case Some(Complete(st)) => Loaded(Some(Reload(st)))
  }

  /** The list came back as it was stored, except that an empty one is omitted. */
  predicate CameBack<T(==)>(stored: Option<seq<T>>, loaded: Option<seq<T>>) {
    if stored == None || stored == Some([]) then loaded == None else loaded == stored
  }

  /** No file loads as no state, a partly written one does not load, and a whole one loads as it
      was stored, up to empty lists. */
  lemma LoadOutcomes(d: Disk)
    ensures d.file == None ==> LoadActiveState(d) == Loaded(None)
    ensures d.file == Some(Torn) ==> LoadActiveState(d) == ParseFailed
    ensures d.file.Some? && d.file.value.Complete? ==>
              var st, r := d.file.value.st, LoadActiveState(d);
              && r.Loaded? && r.st.Some? && r.st.value == st.(sensors := r.st.value.sensors, devices := r.st.value.devices)
              && CameBack(st.sensors, r.st.value.sensors) && CameBack(st.devices, r.st.value.devices)
  {
  }

  /** The trip to disk is invisible to the active configuration. */
  lemma ReloadResolvesTheSame(c: ConfigData, st: ActiveState)
    ensures Resolved(c, Reload(st)) == Resolved(c, st)
    ensures IsClaimed(Some(Reload(st))) <==> IsClaimed(Some(st))
    ensures Reload(Reload(st)) == Reload(st)
  {
    assert Elements(ReloadList(st.sensors)) == Elements(st.sensors);
    assert Elements(ReloadList(st.devices)) == Elements(st.devices);
  }

  // ----- The three disk operations of a save --------------------------------------------

  function OpenedTemp(d: Disk): Disk {
    d.(temp := Some(Torn))
  }

  function WrittenTemp(d: Disk, st: ActiveState): Disk {
    d.(temp := Some(Complete(st)))
  }

  /** rename replaces the destination and removes the source in one step. */
  function Renamed(d: Disk): Disk
    requires d.temp.Some?
  {
    Disk(d.temp, None)
  }

  /** Where a save ends: it completes, or an error or a crash stops it before the temporary
      file is opened, while it is written, or before the rename. */
  datatype SaveStop = Completes | StopsBeforeOpen | StopsWhileWriting | StopsBeforeRename

  class StateStore {
    var disk: Disk

    constructor (disk: Disk)
      ensures this.disk == disk
    {
      this.disk := disk;
    }

    /** All or nothing: state.json is the whole new image after a completed save and
        exactly what it was before any other. A stale temporary file is no obstacle. */
    method SaveActiveState(s: Option<ActiveState>, stop: SaveStop) returns (ok: bool)
      modifies this
      ensures ok <==> s.Some? && stop == Completes
      ensures ok ==> disk == Disk(Some(Complete(s.value)), None)
      ensures !ok ==> disk.file == old(disk.file)
      ensures s.None? || stop == StopsBeforeOpen ==> disk == old(disk)
      ensures s.Some? && stop == StopsWhileWriting ==> disk.temp == Some(Torn)
      ensures s.Some? && stop == StopsBeforeRename ==> disk.temp == Some(Complete(s.value))
      ensures ok ==> LoadActiveState(disk) == Loaded(Some(Reload(s.value)))
    {
      if s.None? || stop == StopsBeforeOpen {
        return false;
      }
      disk := OpenedTemp(disk);
      if stop == StopsWhileWriting {
        return false;
      }
      disk := WrittenTemp(disk, s.value);
      if stop == StopsBeforeRename {
        return false;
      }
      disk := Renamed(disk);
      return true;
    }
  }
}
