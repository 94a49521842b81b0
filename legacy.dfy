/**
 * The `main` of the single-file version. It differs from the current `sync`
 * in four ways: the marker's first line goes to `time.gmtime` as a string,
 * so reading it always fails and the start date always comes from the files
 * on disk; there is no `since`; the loop runs over the audio songs in the
 * order the server sent them; and after each download the marker is
 * overwritten, with no check against the time it holds. The temporary file
 * lives in the default temporary directory instead of beside the target.
 */
module Legacy {
  import opened Wrappers
  import opened Paths
  import opened Songs
  import opened LocalDisk
  import opened Watermark
  import opened FileSystems
  import opened StarSystem

  /**
   * The marker read inside `get_start_date`: a file that cannot be opened
   * raises an environment error, and any file that opens hands a string to
   * `time.gmtime`, which raises TypeError. Both are caught by the caller.
   */
  function LegacyReadSyncFile(m: MarkerFile): (r: Result<Timestamp, SyncFileError>)
    ensures r.Failure?
    ensures r.error.EnvironmentError? <==> m.Missing? || m.Unopenable?
  {
    match m
    case Missing => Failure(EnvironmentError(ENoEnt))
    case Unopenable(e) => Failure(EnvironmentError(e))
    case Unparsable => Failure(TypeError)
    case Holds(_) => Failure(TypeError)
  }

  /** `get_start_date(download_path, songs, songs_sorted=True)`. */
  function LegacyStartDate(d: Disk, root: Path, songs: seq<Song>): (t: Timestamp)
    ensures t == Reconstruct(songs, Walked(root, d.files.Keys))
  {
    match LegacyReadSyncFile(d.marker)
    case Success(stored) => stored
    case Failure(_) => Reconstruct(songs, Walked(root, d.files.Keys))
  }

  /**
   * The marker plays no part in the start date: two disks with the same
   * files give the same start, whatever their markers hold.
   */
  lemma LegacyMarkerIgnored(d: Disk, e: Disk, root: Path, songs: seq<Song>)
    requires d.files == e.files
    ensures LegacyStartDate(d, root, songs) == LegacyStartDate(e, root, songs)
  {
  }

  /**
   * Where the two versions part: with a marker holding `t` and no `since`,
   * the current start date is `t`, and the single-file one is the time
   * reconstructed from the files, `t` or not.
   */
  lemma MarkerUsedOnlyByCurrentVersion(d: Disk, root: Path, songs: seq<Song>, t: Timestamp)
    requires d.marker == Holds(t)
    ensures StartDate(d, root, songs, None) == t
    ensures LegacyStartDate(d, root, songs) == Reconstruct(songs, Walked(root, d.files.Keys))
  {
  }

  /** One pass of the loop in `main`; the temporary file goes in `tempDir`. */
  function LegacySyncSong(d: Disk, song: Song, root: Path, start: Timestamp, tempDir: Path, io: SongIO): (r: Progress)
    ensures song.path.None? ==> r == Progress(d, Some(MissingPath))
    ensures song.path.Some? && !Due(d, root, start, song) ==> r == Progress(d, None)
    ensures r.failure.Some? ==> r.disk.marker == d.marker
  {
    if song.path.None? then Progress(d, Some(MissingPath))
    else
      var full := FullPath(root, song);
      if !Due(d, root, start, song) then Progress(d, None)
      else
        var made := CreateDirectoryIfMissing(d, full, io.makedirs);
        if made.status.Err? then Progress(made.disk, Some(DirectoryFailed(made.status.errno)))
        else if io.download.None? then Progress(made.disk, Some(DownloadFailed))
        else
          var written := AtomicWrite(made.disk, full, io.download.value, tempDir, io.write);
          if written.status.Err? then Progress(written.disk, Some(WriteFailed(written.status.errno)))
          else if StarredTime(song) == EpochZero then Progress(written.disk, None)
          else Progress(WriteSyncFile(written.disk, StarredTime(song), io.markerWrite).disk, None)
  }

  /** A pass never changes or removes a file that was there before it, and only adds directories. */
  lemma LegacySyncSongKeepsFiles(d: Disk, song: Song, root: Path, start: Timestamp, tempDir: Path, io: SongIO)
    ensures Grows(d, LegacySyncSong(d, song, root, start, tempDir, io).disk)
  {
    if song.path.Some? && Due(d, root, start, song) {
      var full := FullPath(root, song);
      var made := CreateDirectoryIfMissing(d, full, io.makedirs);
      if made.status.Ok? && io.download.Some? {
        var written := AtomicWrite(made.disk, full, io.download.value, tempDir, io.write);
        AtomicWriteKeepsFiles(made.disk, full, io.download.value, tempDir, io.write);
        if written.status.Ok? && StarredTime(song) != EpochZero {
          var r := WriteSyncFile(written.disk, StarredTime(song), io.markerWrite).disk;
          assert LegacySyncSong(d, song, root, start, tempDir, io) == Progress(r, None);
          assert r.files == written.disk.files && r.dirs == written.disk.dirs;
        }
      }
    }
  }

  /**
   * After a download the marker holds the song's time whenever the write
   * succeeds, even when it held a later time before: the single-file
   * version lets the marker move backward (the current one keeps the later
   * time, `SyncSongKeepsLaterMarker`).
   */
  lemma LegacyMarkerOverwritten(d: Disk, song: Song, root: Path, start: Timestamp, tempDir: Path, io: SongIO)
    requires song.path.Some? && Due(d, root, start, song)
    requires StarredTime(song) != EpochZero && io.markerWrite.Writes?
    requires d.marker.Holds? && d.marker.t > StarredTime(song)
    ensures var r := LegacySyncSong(d, song, root, start, tempDir, io);
      r.failure.None? ==> r.disk.marker == Holds(StarredTime(song)) && r.disk.marker.t < d.marker.t
  {
    var full := FullPath(root, song);
    var made := CreateDirectoryIfMissing(d, full, io.makedirs);
    if made.status.Ok? && io.download.Some? {
      var written := AtomicWrite(made.disk, full, io.download.value, tempDir, io.write);
      if written.status.Ok? {
        var t := StarredTime(song);
        assert LegacySyncSong(d, song, root, start, tempDir, io) ==
               Progress(WriteSyncFile(written.disk, t, io.markerWrite).disk, None);
      }
    }
  }

  /** The pass of the legacy loop over the songs in server order. */
  function LegacyPass(songs: seq<Song>, root: Path, start: Timestamp, tempDir: Path, io: nat -> SongIO): Pass {
    (e: Disk, j: nat) => if j < |songs| then LegacySyncSong(e, songs[j], root, start, tempDir, io(j)) else Progress(e, None)
  }

  lemma LegacyPassGrows(songs: seq<Song>, root: Path, start: Timestamp, tempDir: Path, io: nat -> SongIO)
    ensures forall e: Disk, j: nat :: Grows(e, LegacyPass(songs, root, start, tempDir, io)(e, j).disk)
  {
    forall e: Disk, j: nat
      ensures Grows(e, LegacyPass(songs, root, start, tempDir, io)(e, j).disk)
    {
      if j < |songs| {
        LegacySyncSongKeepsFiles(e, songs[j], root, start, tempDir, io(j));
      }
    }
  }

  /** `main` from the starred list on, with `tempDir` the default temporary directory. */
  function LegacySync(d: Disk, listing: Option<seq<Song>>, root: Path, tempDir: Path, io: nat -> SongIO): (r: (Disk, SyncEnd))
    ensures r.1 == ListFailed || r.1 == NothingStarred ==> r.0 == d
    ensures listing.None? ==> r == (d, ListFailed)
    ensures listing.Some? && AudioSongs(listing.value).None? ==> r == (d, ListFailed)
    ensures listing.Some? && AudioSongs(listing.value) == Some([]) ==> r == (d, NothingStarred)
    ensures listing.Some? && AudioSongs(listing.value).Some? && AudioSongs(listing.value).value != [] ==>
              r.1 != ListFailed && r.1 != NothingStarred
  {
    if listing.None? then (d, ListFailed)
    else match AudioSongs(listing.value)
      case None => (d, ListFailed)
      case Some(audio) =>
        if audio == [] then (d, NothingStarred)
        else
          var start := LegacyStartDate(d, root, SortByStarred(audio));
          var run := RunFrom(d, |audio|, LegacyPass(audio, root, start, tempDir, io), 0);
          (run.disk, if run.end.Finished? then Completed else Aborted(run.end.index, run.end.failure))
  }

  /** The single-file version does not clobber existing files either. */
  lemma LegacySyncNeverClobbers(d: Disk, listing: Option<seq<Song>>, root: Path, tempDir: Path, io: nat -> SongIO)
    ensures Grows(d, LegacySync(d, listing, root, tempDir, io).0)
  {
    if listing.Some? && AudioSongs(listing.value).Some? && AudioSongs(listing.value).value != [] {
      var audio := AudioSongs(listing.value).value;
      var start := LegacyStartDate(d, root, SortByStarred(audio));
      LegacyPassGrows(audio, root, start, tempDir, io);
      RunKeepsFiles(d, |audio|, LegacyPass(audio, root, start, tempDir, io), 0);
    }
  }

  /** `main` on a file system that it changes in place. */
  method LegacySyncStarred(fs: FileSystem, listing: Option<seq<Song>>, root: Path, tempDir: Path, io: nat -> SongIO)
    returns (end: SyncEnd)
    modifies fs
    ensures (fs.Snapshot(), end) == LegacySync(old(fs.Snapshot()), listing, root, tempDir, io)
  {
    if listing.None? {
      return ListFailed;
    }
    var found := AudioSongs(listing.value);
    if found.None? {
      return ListFailed;
    }
    var audio := found.value;
    if audio == [] {
      return NothingStarred;
    }
    var start := LegacyStartDate(fs.Snapshot(), root, SortByStarred(audio));
    ghost var d0 := fs.Snapshot();
    ghost var pass := LegacyPass(audio, root, start, tempDir, io);
    var i := 0;
    while i < |audio|
      invariant 0 <= i <= |audio|
      invariant RunFrom(fs.Snapshot(), |audio|, pass, i) == RunFrom(d0, |audio|, pass, 0)
    {
      ghost var before := fs.Snapshot();
      var failure := LegacySyncOneSong(fs, audio[i], root, start, tempDir, io(i));
      assert pass(before, i) == Progress(fs.Snapshot(), failure);
      RunFromStep(before, |audio|, pass, i, Progress(fs.Snapshot(), failure));
      if failure.Some? {
        return Aborted(i, failure.value);
      }
      i := i + 1;
    }
    end := Completed;
  }

  /** The body of the loop in `main` for one song. */
  method LegacySyncOneSong(fs: FileSystem, song: Song, root: Path, start: Timestamp, tempDir: Path, io: SongIO)
    returns (failure: Option<Failure>)
    modifies fs
    ensures Progress(fs.Snapshot(), failure) == LegacySyncSong(old(fs.Snapshot()), song, root, start, tempDir, io)
  {
    if song.path.None? {
      return Some(MissingPath);
    }
    var full := Join(root, song.path.value);
    if StarredTime(song) >= start && !Exists(fs.Snapshot(), full) {
      var status := fs.CreateDirectoryIfMissing(full, io.makedirs);
      if status.Err? {
        return Some(DirectoryFailed(status.errno));
      }
      if io.download.None? {
        return Some(DownloadFailed);
      }
      status := fs.AtomicWrite(full, io.download.value, tempDir, io.write);
      if status.Err? {
        return Some(WriteFailed(status.errno));
      }
      var t := StarredTime(song);
      if t != EpochZero {
        var _ := fs.WriteSyncFile(t, io.markerWrite);
      }
    }
    failure := None;
  }
}
