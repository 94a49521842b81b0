/**
 * The local state a sync run works on, as a value: the files below the
 * download directory, the directories, and the marker file (`.synced_to`)
 * holding the watermark. Each operation the sync performs on that state is a
 * function from the state before to the state after, together with whether it
 * raised. Whatever the operating system decides (a failing `mkdir`, `write`,
 * `fsync`, `rename` or `remove`, the name `tempfile` picks) comes in as an
 * explicit outcome.
 */
module LocalDisk {
  import opened Wrappers
  import opened Paths
  import opened Songs

  newtype byte = x: int | 0 <= x < 256

  type Bytes = seq<byte>

  /** The `errno` values the code tells apart (EEXIST, ENOENT) and a few others. */
  datatype Errno = EExist | ENoEnt | EIsDir | ENotDir | EAccess | ENoSpc | EXDev | EIO

  /**
   * What reading the marker finds: no file, a file that cannot be opened, a
   * first line that is not a number, or a stored time.
   */
  datatype MarkerFile = Missing | Unopenable(errno: Errno) | Unparsable | Holds(t: Timestamp)

  datatype Disk = Disk(files: map<Path, Bytes>, dirs: set<Path>, marker: MarkerFile)

  /** The state after an operation, and `Err` when the operation raised. */
  datatype Status = Ok | Err(errno: Errno)
  datatype Step = Step(disk: Disk, status: Status)

  /** `os.path.exists`. */
  predicate Exists(d: Disk, p: Path) {
    p in d.files || p in d.dirs
  }

  /** `os.path.isdir`; the empty path is never a directory. */
  predicate IsDir(d: Disk, p: Path) {
    p != [] && p in d.dirs
  }

  /** The marker's file name, inside the download directory. */
  const SyncFileName: string := ".synced_to"

  /** `get_sync_file_path`. */
  function SyncFilePath(root: Path): (p: Path)
    ensures root != [] && root[|root| - 1] != '/' ==> p == root + "/" + SyncFileName && Dirname(p) == root
  {
    var p := Join(root, SyncFileName);
    assert IsName(SyncFileName);
    if root != [] && root[|root| - 1] != '/' then
      DirnameOfJoin(root, SyncFileName);
      p
    else p
  }

  /** Why the marker could not be used; every cause becomes a `SyncFileError`. */
  datatype SyncFileError = EnvironmentError(errno: Errno) | ValueError | TypeError

  /** `read_time_struct_from_sync_file`. */
  function ReadSyncFile(m: MarkerFile): (r: Result<Timestamp, SyncFileError>)
    ensures r.Success? <==> m.Holds?
    ensures r.Success? ==> r.value == m.t
    ensures m.Missing? ==> r == Failure(EnvironmentError(ENoEnt))
  {
    match m
    case Missing => Failure(EnvironmentError(ENoEnt))
    case Unopenable(e) => Failure(EnvironmentError(e))
    case Unparsable => Failure(ValueError)
    case Holds(t) => Success(t)
  }

  /**
   * How writing the marker goes: it succeeds, `open` fails (the old file is
   * kept), or the write fails after `open(..., 'w')` emptied the file.
   */
  datatype MarkerWrite = Writes | OpenFails(errno: Errno) | WriteFails(errno: Errno)

  /** `write_time_struct_to_sync_file`. */
  function WriteSyncFile(d: Disk, t: Timestamp, w: MarkerWrite): (r: Step)
    ensures r.disk.files == d.files && r.disk.dirs == d.dirs
    ensures r.status.Ok? <==> w.Writes?
    ensures r.status.Ok? ==> ReadSyncFile(r.disk.marker) == Success(t)
    ensures r.status.Err? ==> r.disk.marker == d.marker || r.disk.marker == Unparsable
  {
    match w
    case Writes => Step(d.(marker := Holds(t)), Ok)
    case OpenFails(e) => Step(d, Err(e))
    case WriteFails(e) => Step(d.(marker := Unparsable), Err(e))
  }

  /**
   * How `os.makedirs` goes when the code calls it: it creates the directory
   * and its missing ancestors, or it raises `errno`; `nowDirectory` says
   * whether the directory exists all the same afterwards (another process
   * made it).
   */
  datatype MakedirsOutcome = Made | MakeFails(errno: Errno, nowDirectory: bool)

  /** What `os.makedirs(dir)` does on `d`: a file already at `dir` makes it raise EEXIST. */
  function Makedirs(d: Disk, dir: Path, o: MakedirsOutcome): (r: Step)
    ensures r.disk.files == d.files && r.disk.marker == d.marker && d.dirs <= r.disk.dirs
    ensures dir == [] ==> r == Step(d, Err(ENoEnt))
    ensures dir != [] && dir in d.files ==> r == Step(d, Err(EExist))
    ensures r.status.Ok? <==> dir != [] && dir !in d.files && o.Made?
    ensures r.status.Ok? ==> Ancestry(dir) <= r.disk.dirs && dir in r.disk.dirs
  {
    if dir == [] then Step(d, Err(ENoEnt))
    else if dir in d.files then Step(d, Err(EExist))
    else match o
      case Made => Step(d.(dirs := d.dirs + Ancestry(dir)), Ok)
      case MakeFails(e, now) =>
        Step(if now then d.(dirs := d.dirs + {dir}) else d, Err(e))
  }

  /**
   * `create_directory_if_missing_from_path`: make the parent of `path` unless
   * it is a directory already; a failure of `makedirs` is swallowed when it is
   * EEXIST or the directory exists afterwards.
   */
  function CreateDirectoryIfMissing(d: Disk, path: Path, o: MakedirsOutcome): (r: Step)
    ensures r.disk.files == d.files && r.disk.marker == d.marker && d.dirs <= r.disk.dirs
    ensures IsDir(d, Dirname(path)) ==> r == Step(d, Ok)
    ensures r.status.Ok? && !IsDir(r.disk, Dirname(path)) ==>
              Dirname(path) in d.files || o == MakeFails(EExist, false)
    ensures r.status.Err? ==> r.status.errno != EExist && !IsDir(r.disk, Dirname(path))
  {
    var dir := Dirname(path);
    if IsDir(d, dir) then Step(d, Ok)
    else
      var made := Makedirs(d, dir, o);
      if made.status.Err? && made.status.errno != EExist && !IsDir(made.disk, dir) then made
      else Step(made.disk, Ok)
  }

  /**
   * How each step of the temporary-file protocol goes: the name
   * `tempfile` picks, and the error (if any) of creating the file, writing
   * the body, `fsync`, `rename` and `remove`.
   */
  datatype TempWrite = TempWrite(
    name: string,
    create: Option<Errno>,
    write: Option<Errno>,
    fsync: Option<Errno>,
    rename: Option<Errno>,
    remove: Option<Errno>)

  function TempPath(tempDir: Path, o: TempWrite): Path {
    Join(tempDir, o.name)
  }

  /** The first error of the body, the flush and fsync, and the rename, in that order. */
  function BodyError(d: Disk, path: Path, o: TempWrite): Option<Errno> {
    if o.write.Some? then o.write
    else if o.fsync.Some? then o.fsync
    else if path in d.dirs then Some(EIsDir)
    else o.rename
  }

  /**
   * The `finally` clause: remove the temporary file; ENOENT is ignored, any
   * other error replaces the status.
   */
  function Cleanup(d: Disk, tmp: Path, removeError: Option<Errno>, status: Status): (r: Step)
    ensures r.disk.dirs == d.dirs && r.disk.marker == d.marker
    ensures tmp !in r.disk.files ==> r.disk.files == d.files - {tmp}
    ensures r.disk.files - {tmp} == d.files - {tmp}
    ensures tmp in d.files && removeError.Some? && removeError.value != ENoEnt ==> r == Step(d, Err(removeError.value))
    ensures !(tmp in d.files && removeError.Some? && removeError.value != ENoEnt) ==> r.status == status && tmp !in r.disk.files
  {
    if tmp !in d.files then Step(d, status)
    else if removeError.Some? && removeError.value != ENoEnt then Step(d, Err(removeError.value))
    else Step(d.(files := d.files - {tmp}), status)
  }

  /**
   * `open_tempfile_with_atomic_write_to(path)` with a body that writes
   * `content`: create an empty temporary file in `tempDir`, write, flush and
   * fsync it, rename it onto `path`, and remove whatever is left at the
   * temporary name.
   */
  function AtomicWrite(d: Disk, path: Path, content: Bytes, tempDir: Path, o: TempWrite): (r: Step)
    ensures r.disk.dirs == d.dirs && r.disk.marker == d.marker
  {
    var tmp := TempPath(tempDir, o);
    if o.create.Some? then Step(d, Err(o.create.value))
    else if !IsDir(d, tempDir) then Step(d, Err(if tempDir in d.files then ENotDir else ENoEnt))
    else if Exists(d, tmp) then Step(d, Err(EExist))
    else
      var created := d.(files := d.files[tmp := []]);
      var written := if o.write.None? then created.(files := created.files[tmp := content]) else created;
      var err := BodyError(d, path, o);
      var moved := if err.None? then written.(files := (written.files - {tmp})[path := content]) else written;
      Cleanup(moved, tmp, o.remove, if err.None? then Ok else Err(err.value))
  }

  /**
   * Only the target and the temporary file can change, and nothing does
   * when the temporary name is already taken.
   */
  lemma AtomicWriteFrame(d: Disk, path: Path, content: Bytes, tempDir: Path, o: TempWrite)
    ensures var r := AtomicWrite(d, path, content, tempDir, o);
      (Exists(d, TempPath(tempDir, o)) ==> r.disk == d) &&
      r.disk.files - {path, TempPath(tempDir, o)} == d.files - {path, TempPath(tempDir, o)}
  {
  }

  /**
   * Success means creating, writing, syncing and renaming the temporary
   * file all went through, and the target then holds the content with
   * nothing else changed.
   */
  lemma AtomicWriteSuccess(d: Disk, path: Path, content: Bytes, tempDir: Path, o: TempWrite)
    ensures var r := AtomicWrite(d, path, content, tempDir, o);
      r.status.Ok? ==>
        o.create.None? && o.write.None? && o.fsync.None? && o.rename.None? &&
        (TempPath(tempDir, o) != path ==> r.disk.files == d.files[path := content])
  {
  }

  /**
   * A failure leaves every file but the temporary one as it was, the target
   * included; when the cleanup is tolerated, nothing changed at all.
   */
  lemma AtomicWriteFailure(d: Disk, path: Path, content: Bytes, tempDir: Path, o: TempWrite)
    ensures var r := AtomicWrite(d, path, content, tempDir, o);
      r.status.Err? ==> r.disk.files - {TempPath(tempDir, o)} == d.files - {TempPath(tempDir, o)}
    ensures var r := AtomicWrite(d, path, content, tempDir, o);
      r.status.Err? && (o.remove.None? || o.remove == Some(ENoEnt)) ==> r.disk.files == d.files
  {
    var tmp := TempPath(tempDir, o);
    if o.create.None? && IsDir(d, tempDir) && !Exists(d, tmp) && BodyError(d, path, o).None? {
      assert AtomicWrite(d, path, content, tempDir, o).status.Err? ==> tmp == path;
    }
  }

  /**
   * Once the temporary file is made, the status is the body's (its first
   * error, or success) unless the temporary file could not be removed
   * afterwards: then it is still there and the remove error is raised,
   * ENOENT excepted.
   */
  lemma AtomicWriteStatus(d: Disk, path: Path, content: Bytes, tempDir: Path, o: TempWrite)
    ensures var r, tmp := AtomicWrite(d, path, content, tempDir, o), TempPath(tempDir, o);
      var body := BodyError(d, path, o);
      o.create.None? && IsDir(d, tempDir) && !Exists(d, tmp) && tmp != path ==>
        && (tmp in r.disk.files <==> body.Some? && o.remove.Some? && o.remove.value != ENoEnt)
        && r.status == (if tmp in r.disk.files then Err(o.remove.value)
                        else if body.None? then Ok else Err(body.value))
  {
    var tmp := TempPath(tempDir, o);
    if o.create.None? && IsDir(d, tempDir) && !Exists(d, tmp) && tmp != path {
      var created := d.(files := d.files[tmp := []]);
      var written := if o.write.None? then created.(files := created.files[tmp := content]) else created;
      var err := BodyError(d, path, o);
      var moved := if err.None? then written.(files := (written.files - {tmp})[path := content]) else written;
      assert tmp in moved.files <==> err.Some?;
      assert AtomicWrite(d, path, content, tempDir, o) == Cleanup(moved, tmp, o.remove, if err.None? then Ok else Err(err.value));
    }
  }

  /** Writing to a path where no file is leaves every existing file as it was. */
  lemma AtomicWriteKeepsFiles(d: Disk, path: Path, content: Bytes, tempDir: Path, o: TempWrite)
    requires path !in d.files
    ensures var r := AtomicWrite(d, path, content, tempDir, o);
      forall p :: p in d.files ==> p in r.disk.files && r.disk.files[p] == d.files[p]
  {
    var tmp := TempPath(tempDir, o);
    if o.create.None? && IsDir(d, tempDir) && !Exists(d, tmp) {
      var created := d.(files := d.files[tmp := []]);
      var written := if o.write.None? then created.(files := created.files[tmp := content]) else created;
      var err := BodyError(d, path, o);
      var moved := if err.None? then written.(files := (written.files - {tmp})[path := content]) else written;
      var r := Cleanup(moved, tmp, o.remove, if err.None? then Ok else Err(err.value));
      assert AtomicWrite(d, path, content, tempDir, o) == r;
      forall p | p in d.files ensures p in r.disk.files && r.disk.files[p] == d.files[p] {
        assert p != tmp && p != path;
        assert p in moved.files && moved.files[p] == d.files[p];
        assert p in moved.files - {tmp};
        assert (r.disk.files - {tmp})[p] == (moved.files - {tmp})[p];
      }
    }
  }
}
