/**
 * The local file system as the sync code changes it, one call at a time.
 * Each method takes the steps of the Python function it models in order and
 * promises that the resulting state is the one the matching function of
 * LocalDisk describes.
 */
module FileSystems {
  import opened Wrappers
  import opened Paths
  import opened Songs
  import opened LocalDisk

  class FileSystem {
    var files: map<Path, Bytes>
    var dirs: set<Path>
    var marker: MarkerFile

    function Snapshot(): Disk
      reads this
    {
      Disk(files, dirs, marker)
    }

    constructor (d: Disk)
      ensures Snapshot() == d
    {
      files, dirs, marker := d.files, d.dirs, d.marker;
    }

    /** `read_time_struct_from_sync_file(get_sync_file_path(root))`. */
    method ReadSyncFile() returns (r: Result<Timestamp, SyncFileError>)
      ensures r == LocalDisk.ReadSyncFile(marker)
      ensures r.Success? <==> marker.Holds?
    {
      match marker
      case Missing => r := Failure(EnvironmentError(ENoEnt));
      case Unopenable(e) => r := Failure(EnvironmentError(e));
      case Unparsable => r := Failure(ValueError);
      case Holds(t) => r := Success(t);
    }

    /** `write_time_struct_to_sync_file(get_sync_file_path(root), t)`. */
    method WriteSyncFile(t: Timestamp, w: MarkerWrite) returns (status: Status)
      modifies this
      ensures Step(Snapshot(), status) == LocalDisk.WriteSyncFile(old(Snapshot()), t, w)
    {
      match w
      case OpenFails(e) =>
        status := Err(e);
      case WriteFails(e) =>
        marker := Unparsable;
        status := Err(e);
      case Writes =>
        marker := Holds(t);
        status := Ok;
    }

    /** `create_directory_if_missing_from_path(path)`. */
    method CreateDirectoryIfMissing(path: Path, o: MakedirsOutcome) returns (status: Status)
      modifies this
      ensures Step(Snapshot(), status) == LocalDisk.CreateDirectoryIfMissing(old(Snapshot()), path, o)
    {
      var dir := Dirname(path);
      status := Ok;
      if !IsDir(Snapshot(), dir) {
        // os.makedirs(dir)
        var raised: Option<Errno> := None;
        if dir == [] {
          raised := Some(ENoEnt);
        } else if dir in files {
          raised := Some(EExist);
        } else {
          match o
          case Made =>
            dirs := dirs + Ancestry(dir);
          case MakeFails(e, now) =>
            if now {
              dirs := dirs + {dir};
            }
            raised := Some(e);
        }
        // except OSError: re-raise unless EEXIST or the directory is there now
        if raised.Some? && raised.value != EExist && !IsDir(Snapshot(), dir) {
          status := Err(raised.value);
        }
      }
    }

    /**
     * `with open_tempfile_with_atomic_write_to(path) as f: f.write(content)`,
     * with the temporary file created in `tempDir`.
     */
    method AtomicWrite(path: Path, content: Bytes, tempDir: Path, o: TempWrite) returns (status: Status)
      modifies this
      ensures Step(Snapshot(), status) == LocalDisk.AtomicWrite(old(Snapshot()), path, content, tempDir, o)
    {
      var tmp := TempPath(tempDir, o);
      // tempfile.NamedTemporaryFile(delete=False, dir=tempDir); close()
      if o.create.Some? {
        return Err(o.create.value);
      }
      if !IsDir(Snapshot(), tempDir) {
        return Err(if tempDir in files then ENotDir else ENoEnt);
      }
      if Exists(Snapshot(), tmp) {
        return Err(EExist);
      }
      ghost var start := Snapshot();
      files := files[tmp := []];
      // try: write the body, flush and fsync, then rename
      var err: Option<Errno> := None;
      if o.write.Some? {
        err := o.write;
      } else {
        files := files[tmp := content];
        if o.fsync.Some? {
          err := o.fsync;
        } else if path in dirs {
          err := Some(EIsDir);
        } else if o.rename.Some? {
          err := o.rename;
        } else {
          files := (files - {tmp})[path := content];
        }
      }
      assert err == BodyError(start, path, o);
      status := if err.None? then Ok else Err(err.value);
      // finally: os.remove(tmp), ignoring ENOENT
      if tmp in files {
        if o.remove.Some? && o.remove.value != ENoEnt {
          status := Err(o.remove.value);
        } else {
          files := files - {tmp};
        }
      }
    }
  }
}
