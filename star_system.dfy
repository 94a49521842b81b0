/**
 * The `sync` command of the current version: keep the audio songs, sort them
 * by starred time, choose the start date, then for each song that is due
 * create its directory, download it, write it atomically next to its final
 * path, and advance the marker unless it already holds a later time.
 * The media server is given: the starred list (or `None` when fetching or
 * decoding it failed) and, per song in processing order, the outcome of its
 * download and of every file-system call made for it.
 */
module StarSystem {
  import opened Wrappers
  import opened Paths
  import opened Songs
  import opened Sequences
  import opened LocalDisk
  import opened Watermark
  import opened FileSystems

  /** The outcomes of everything done for one song. */
  datatype SongIO = SongIO(
    download: Option<Bytes>,
    makedirs: MakedirsOutcome,
    write: TempWrite,
    markerWrite: MarkerWrite)

  /** Why a run stopped: `song['path']` missing, `makedirs`, the download, or the atomic write. */
  datatype Failure = MissingPath | DirectoryFailed(errno: Errno) | DownloadFailed | WriteFailed(errno: Errno)

  datatype Progress = Progress(disk: Disk, failure: Option<Failure>)

  /** `os.path.join(download_path, song['path'])`. */
  function FullPath(root: Path, song: Song): Path
    requires song.path.Some?
  {
    Join(root, song.path.value)
  }

  /** The test before a download: starred at or after the start, and nothing at the path. */
  predicate Due(d: Disk, root: Path, start: Timestamp, song: Song)
    requires song.path.Some?
  {
    StarredTime(song) >= start && !Exists(d, FullPath(root, song))
  }

  /** The temporary file used for a song, beside its final path. */
  function SongTemp(root: Path, song: Song, io: SongIO): Path
    requires song.path.Some?
  {
    TempPath(Dirname(FullPath(root, song)), io.write)
  }

  /**
   * The marker update after a download: nothing for a song starred at the
   * epoch; otherwise write the song's time unless the marker reads as a
   * strictly later time. A failed write is swallowed.
   */
  function AdvanceMarker(d: Disk, t: Timestamp, w: MarkerWrite): (r: Disk)
    ensures r.files == d.files && r.dirs == d.dirs
    ensures t == EpochZero ==> r == d
    ensures d.marker.Holds? && d.marker.t > t ==> r == d
    ensures t != EpochZero && !(d.marker.Holds? && d.marker.t > t) && w.Writes? ==> r.marker == Holds(t)
    ensures r.marker != d.marker ==>
              t != EpochZero && !(d.marker.Holds? && d.marker.t > t) &&
              (r.marker == Holds(t) || r.marker == Unparsable)
    ensures d.marker.Holds? && r.marker.Holds? ==> d.marker.t <= r.marker.t
  {
    if t == EpochZero then d
    else
      var stale := match ReadSyncFile(d.marker)
        case Success(stored) => !(stored > t)
        case Failure(_) => true;
      if stale then WriteSyncFile(d, t, w).disk else d
  }

  /** One pass of the loop in `sync` for `song`. */
  function SyncSong(d: Disk, song: Song, root: Path, start: Timestamp, io: SongIO): (r: Progress)
    ensures song.path.None? ==> r == Progress(d, Some(MissingPath))
    ensures song.path.Some? && !Due(d, root, start, song) ==> r == Progress(d, None)
    ensures r.failure.Some? ==> r.disk.marker == d.marker
    ensures r.failure == Some(DownloadFailed) ==> io.download.None?
  {
    if song.path.None? then Progress(d, Some(MissingPath))
    else
      var full := FullPath(root, song);
      if !Due(d, root, start, song) then Progress(d, None)
      else
        var made := CreateDirectoryIfMissing(d, full, io.makedirs);
        if made.status.Err? then Progress(made.disk, Some(DirectoryFailed(made.status.errno)))
        else if io.download.None? then Progress(made.disk, Some(DownloadFailed))
        else
          var written := AtomicWrite(made.disk, full, io.download.value, Dirname(full), io.write);
          if written.status.Err? then Progress(written.disk, Some(WriteFailed(written.status.errno)))
          else Progress(AdvanceMarker(written.disk, StarredTime(song), io.markerWrite), None)
  }

  /** A song pass never changes or removes a file that was there before it, and only adds directories. */
  lemma SyncSongKeepsFiles(d: Disk, song: Song, root: Path, start: Timestamp, io: SongIO)
    ensures var r := SyncSong(d, song, root, start, io);
      (forall p :: p in d.files ==> p in r.disk.files && r.disk.files[p] == d.files[p]) && d.dirs <= r.disk.dirs
  {
    if song.path.Some? && Due(d, root, start, song) {
      var full := FullPath(root, song);
      var made := CreateDirectoryIfMissing(d, full, io.makedirs);
      if made.status.Ok? && io.download.Some? {
        AtomicWriteKeepsFiles(made.disk, full, io.download.value, Dirname(full), io.write);
      }
    }
  }

  /**
   * A due song that went through is on disk afterwards with the downloaded
   * content, when its temporary name differs from its final path.
   */
  lemma SyncSongStoresDownload(d: Disk, song: Song, root: Path, start: Timestamp, io: SongIO)
    requires song.path.Some? && Due(d, root, start, song)
    requires SongTemp(root, song, io) != FullPath(root, song)
    ensures var r := SyncSong(d, song, root, start, io);
      r.failure.None? ==>
        io.download.Some? &&
        FullPath(root, song) in r.disk.files && r.disk.files[FullPath(root, song)] == io.download.value
  {
    var full := FullPath(root, song);
    var made := CreateDirectoryIfMissing(d, full, io.makedirs);
    if made.status.Ok? && io.download.Some? {
      AtomicWriteSuccess(made.disk, full, io.download.value, Dirname(full), io.write);
    }
  }

  /**
   * A pass that goes through settles its song: the song is no longer due,
   * so the next run skips it.
   */
  lemma SyncSongSettles(d: Disk, song: Song, root: Path, start: Timestamp, io: SongIO)
    requires song.path.Some?
    requires SongTemp(root, song, io) != FullPath(root, song)
    ensures var r := SyncSong(d, song, root, start, io);
      r.failure.None? ==> !Due(r.disk, root, start, song)
  {
    if Due(d, root, start, song) {
      SyncSongStoresDownload(d, song, root, start, io);
    }
  }

  /**
   * A failed pass leaves nothing at the song's path: the target is never
   * partly written.
   */
  lemma SyncSongFailureLeavesNoTarget(d: Disk, song: Song, root: Path, start: Timestamp, io: SongIO)
    requires song.path.Some? && Due(d, root, start, song)
    requires SongTemp(root, song, io) != FullPath(root, song)
    ensures var r := SyncSong(d, song, root, start, io);
      r.failure.Some? ==> FullPath(root, song) !in r.disk.files
  {
    var full := FullPath(root, song);
    var made := CreateDirectoryIfMissing(d, full, io.makedirs);
    assert full !in made.disk.files;
    if made.status.Ok? && io.download.Some? {
      var written := AtomicWrite(made.disk, full, io.download.value, Dirname(full), io.write);
      AtomicWriteFailure(made.disk, full, io.download.value, Dirname(full), io.write);
      if written.status.Err? {
        assert full !in made.disk.files - {SongTemp(root, song, io)};
        assert full !in written.disk.files - {SongTemp(root, song, io)};
      }
    }
  }

  /**
   * The marker changes in a pass only when the song is not starred at the
   * epoch and the marker did not hold a later time; it then holds the song's
   * time, or is left unreadable by a failed write.
   */
  lemma SyncSongMarker(d: Disk, song: Song, root: Path, start: Timestamp, io: SongIO)
    ensures var r := SyncSong(d, song, root, start, io);
      r.disk.marker != d.marker ==>
        var t := StarredTime(song);
        t != EpochZero && !(d.marker.Holds? && d.marker.t > t) &&
        (r.disk.marker == Holds(t) || r.disk.marker == Unparsable)
  {
    if song.path.Some? && Due(d, root, start, song) {
      var full := FullPath(root, song);
      var made := CreateDirectoryIfMissing(d, full, io.makedirs);
      if made.status.Ok? && io.download.Some? {
        var written := AtomicWrite(made.disk, full, io.download.value, Dirname(full), io.write);
        if written.status.Ok? {
          var t := StarredTime(song);
          assert SyncSong(d, song, root, start, io) == Progress(AdvanceMarker(written.disk, t, io.markerWrite), None);
          assert written.disk.marker == d.marker;
        }
      }
    }
  }

  /** A marker holding a later time than a downloaded song's is left as it is. */
  lemma SyncSongKeepsLaterMarker(d: Disk, song: Song, root: Path, start: Timestamp, io: SongIO)
    requires d.marker.Holds? && d.marker.t > StarredTime(song)
    ensures SyncSong(d, song, root, start, io).disk.marker == d.marker
  {
    SyncSongMarker(d, song, root, start, io);
  }

  datatype LoopEnd = Finished | Stopped(index: nat, failure: Failure)
  datatype RunResult = RunResult(disk: Disk, end: LoopEnd)

  /** What the loop does at a position: the pass for the song there. */
  type Pass = (Disk, nat) -> Progress

  /** The pass of the sorted songs' loop; positions past the end change nothing. */
  function SongPass(songs: seq<Song>, root: Path, start: Timestamp, io: nat -> SongIO): Pass {
    (e: Disk, j: nat) => if j < |songs| then SyncSong(e, songs[j], root, start, io(j)) else Progress(e, None)
  }

  /** The loop over positions `i` to `n - 1`: a pass that fails ends it. */
  function RunFrom(d: Disk, n: nat, pass: Pass, i: nat): (r: RunResult)
    ensures r.end.Stopped? ==> i <= r.end.index < n
    decreases n - i
  {
    if i >= n then RunResult(d, Finished)
    else
      var p := pass(d, i);
      if p.failure.Some? then RunResult(p.disk, Stopped(i, p.failure.value))
      else RunFrom(p.disk, n, pass, i + 1)
  }

  /** `e` keeps every file of `d` unchanged and every directory of `d`. */
  predicate Grows(d: Disk, e: Disk) {
    (forall p :: p in d.files ==> p in e.files && e.files[p] == d.files[p]) && d.dirs <= e.dirs
  }

  lemma SongPassGrows(songs: seq<Song>, root: Path, start: Timestamp, io: nat -> SongIO)
    ensures forall e: Disk, j: nat :: Grows(e, SongPass(songs, root, start, io)(e, j).disk)
  {
    forall e: Disk, j: nat
      ensures Grows(e, SongPass(songs, root, start, io)(e, j).disk)
    {
      if j < |songs| {
        SyncSongKeepsFiles(e, songs[j], root, start, io(j));
      }
    }
  }

  /** Non-clobbering: a loop whose passes keep files never changes or removes a file. */
  lemma {:induction false} RunKeepsFiles(d: Disk, n: nat, pass: Pass, i: nat)
    requires forall e: Disk, j: nat :: Grows(e, pass(e, j).disk)
    ensures Grows(d, RunFrom(d, n, pass, i).disk)
    decreases n - i
  {
    if i < n {
      var p := pass(d, i);
      assert Grows(d, p.disk);
      if p.failure.None? {
        RunKeepsFiles(p.disk, n, pass, i + 1);
      }
    }
  }

  /**
   * How a pass may move the marker: only for a time `t` other than the
   * epoch, only when no later time is stored, and then to `t` or to an
   * unreadable file.
   */
  predicate MarkerMove(before: MarkerFile, after: MarkerFile, t: Timestamp) {
    after != before ==>
      t != EpochZero && !(before.Holds? && before.t > t) && (after == Holds(t) || after == Unparsable)
  }

  /** The starred time of the song at each position; positions past the end get the epoch. */
  function SongTimes(songs: seq<Song>): nat -> Timestamp {
    (j: nat) => if j < |songs| then StarredTime(songs[j]) else EpochZero
  }

  lemma SongPassMovesMarker(songs: seq<Song>, root: Path, start: Timestamp, io: nat -> SongIO)
    ensures forall e: Disk, j: nat ::
      MarkerMove(e.marker, SongPass(songs, root, start, io)(e, j).disk.marker, SongTimes(songs)(j))
  {
    forall e: Disk, j: nat
      ensures MarkerMove(e.marker, SongPass(songs, root, start, io)(e, j).disk.marker, SongTimes(songs)(j))
    {
      if j < |songs| {
        SyncSongMarker(e, songs[j], root, start, io(j));
      }
    }
  }

  /**
   * Over positions whose times ascend, with passes that move the marker only
   * as `MarkerMove` allows, a marker that holds at least `lo` (or, when
   * unreadable, positions all timed at or after `lo`) ends holding at least
   * `lo` whenever it is readable.
   */
  lemma {:induction false} RunKeepsMarkerFloor(d: Disk, n: nat, pass: Pass, times: nat -> Timestamp, i: nat, lo: Timestamp)
    requires forall e: Disk, j: nat :: MarkerMove(e.marker, pass(e, j).disk.marker, times(j))
    requires forall j: nat, k: nat :: i <= j <= k < n ==> times(j) <= times(k)
    requires d.marker.Holds? ==> d.marker.t >= lo
    requires !d.marker.Holds? ==> forall j: nat :: i <= j < n ==> times(j) >= lo
    ensures var r := RunFrom(d, n, pass, i);
      r.disk.marker.Holds? ==> r.disk.marker.t >= lo
    decreases n - i
  {
    if i < n {
      var p := pass(d, i);
      assert MarkerMove(d.marker, p.disk.marker, times(i));
      if p.disk.marker != d.marker {
        assert times(i) >= lo;
        forall j: nat | i + 1 <= j < n ensures times(j) >= lo {
          assert times(i) <= times(j);
        }
      }
      if p.failure.None? {
        RunKeepsMarkerFloor(p.disk, n, pass, times, i + 1, lo);
      }
    }
  }

  /** The first step of the loop from position `i`, for a pass that gave `p`. */
  lemma RunFromStep(d: Disk, n: nat, pass: Pass, i: nat, p: Progress)
    requires i < n && pass(d, i) == p
    ensures p.failure.Some? ==> RunFrom(d, n, pass, i) == RunResult(p.disk, Stopped(i, p.failure.value))
    ensures p.failure.None? ==> RunFrom(d, n, pass, i) == RunFrom(p.disk, n, pass, i + 1)
  {
  }

  /**
   * The marker is at most `hi` in the sense that matters for the next run:
   * it is still `m0`, or unreadable, or holds a time no later than `hi`.
   */
  predicate Ceiling(m0: MarkerFile, m: MarkerFile, hi: Timestamp) {
    m == m0 || m == Unparsable || (m.Holds? && m.t <= hi)
  }

  /**
   * Over positions whose times ascend, with passes that move the marker only
   * as `MarkerMove` allows, a run that stops leaves the marker below the
   * ceiling of the failing position's time.
   */
  lemma {:induction false} RunMarkerCeiling(m0: MarkerFile, d: Disk, n: nat, pass: Pass, times: nat -> Timestamp, i: nat)
    requires forall e: Disk, j: nat :: MarkerMove(e.marker, pass(e, j).disk.marker, times(j))
    requires forall j: nat, k: nat :: i <= j <= k < n ==> times(j) <= times(k)
    requires i < n ==> Ceiling(m0, d.marker, times(i))
    ensures var r := RunFrom(d, n, pass, i);
      r.end.Stopped? ==> Ceiling(m0, r.disk.marker, times(r.end.index))
    decreases n - i
  {
    if i < n {
      var p := pass(d, i);
      assert MarkerMove(d.marker, p.disk.marker, times(i));
      assert Ceiling(m0, p.disk.marker, times(i));
      if p.failure.None? {
        if i + 1 < n {
          assert times(i) <= times(i + 1);
        }
        RunMarkerCeiling(m0, p.disk, n, pass, times, i + 1);
      }
    }
  }

  /** Every song in `songs[i..]` has a temporary name other than its final path. */
  predicate DistinctTemps(songs: seq<Song>, root: Path, io: nat -> SongIO, i: nat) {
    forall j :: i <= j < |songs| && songs[j].path.Some? ==>
      SongTemp(root, songs[j], io(j)) != FullPath(root, songs[j])
  }

  /** The position the loop got to: all `n`, or the one it stopped at. */
  function Reached(r: RunResult, n: nat): nat {
    if r.end.Finished? then n else r.end.index
  }

  /** Song `j` is synced on `e`: when it has a path and is starred at or after `start`, that path exists. */
  predicate Synced(e: Disk, songs: seq<Song>, root: Path, start: Timestamp, j: nat) {
    j < |songs| && songs[j].path.Some? && StarredTime(songs[j]) >= start ==> Exists(e, FullPath(root, songs[j]))
  }

  /** A pass for a song that goes through leaves that song synced. */
  lemma SongPassSyncs(songs: seq<Song>, root: Path, start: Timestamp, io: nat -> SongIO)
    requires DistinctTemps(songs, root, io, 0)
    ensures forall e: Disk, j: nat :: SongPass(songs, root, start, io)(e, j).failure.None? ==>
      Synced(SongPass(songs, root, start, io)(e, j).disk, songs, root, start, j)
  {
    forall e: Disk, j: nat
      ensures SongPass(songs, root, start, io)(e, j).failure.None? ==>
        Synced(SongPass(songs, root, start, io)(e, j).disk, songs, root, start, j)
    {
      if j < |songs| && songs[j].path.Some? {
        var r := SyncSong(e, songs[j], root, start, io(j));
        assert SongPass(songs, root, start, io)(e, j) == r;
        if Due(e, root, start, songs[j]) {
          SyncSongStoresDownload(e, songs[j], root, start, io(j));
          assert r.failure.None? ==> FullPath(root, songs[j]) in r.disk.files;
        } else {
          assert r.disk == e;
        }
      }
    }
  }

  /** Being synced survives anything that keeps files and directories. */
  lemma SyncedPersists(e: Disk, e': Disk, songs: seq<Song>, root: Path, start: Timestamp, j: nat)
    requires Synced(e, songs, root, start, j) && Grows(e, e')
    ensures Synced(e', songs, root, start, j)
  {
  }

  /**
   * A loop whose passes keep files, and whose successful pass at `j` makes
   * `done(_, j)` hold in a way that keeping files preserves, ends with
   * `done` at every position before the one it reached.
   */
  lemma {:induction false} RunCompletesReached(d: Disk, n: nat, pass: Pass, done: (Disk, nat) -> bool, i: nat)
    requires forall e: Disk, j: nat :: Grows(e, pass(e, j).disk)
    requires forall e: Disk, j: nat :: pass(e, j).failure.None? ==> done(pass(e, j).disk, j)
    requires forall e: Disk, e': Disk, j: nat :: done(e, j) && Grows(e, e') ==> done(e', j)
    ensures forall j: nat :: i <= j < Reached(RunFrom(d, n, pass, i), n) ==> done(RunFrom(d, n, pass, i).disk, j)
    decreases n - i
  {
    if i < n {
      var p := pass(d, i);
      if p.failure.None? {
        var r := RunFrom(p.disk, n, pass, i + 1);
        RunCompletesReached(p.disk, n, pass, done, i + 1);
        RunKeepsFiles(p.disk, n, pass, i + 1);
        assert done(p.disk, i) && Grows(p.disk, r.disk);
      }
    }
  }

  /**
   * The songs already done stay done: every song before the point the
   * loop reached that is starred at or after the start date is on disk
   * afterwards, so the next run skips it. `SyncAbortMarkerCeiling` gives
   * the other half, that the songs from the failing one on are retried.
   */
  lemma RunLeavesDueSongsOnDisk(d: Disk, songs: seq<Song>, root: Path, start: Timestamp, io: nat -> SongIO)
    requires DistinctTemps(songs, root, io, 0)
    ensures var r := RunFrom(d, |songs|, SongPass(songs, root, start, io), 0);
      forall j: nat :: j < Reached(r, |songs|) ==> Synced(r.disk, songs, root, start, j)
  {
    var pass := SongPass(songs, root, start, io);
    var done := (e: Disk, j: nat) => Synced(e, songs, root, start, j);
    SongPassGrows(songs, root, start, io);
    SongPassSyncs(songs, root, start, io);
    forall e: Disk, e': Disk, j: nat | done(e, j) && Grows(e, e') ensures done(e', j) {
      SyncedPersists(e, e', songs, root, start, j);
    }
    RunCompletesReached(d, |songs|, pass, done, 0);
    var r := RunFrom(d, |songs|, pass, 0);
    forall j: nat | j < Reached(r, |songs|) ensures Synced(r.disk, songs, root, start, j) {
      assert done(r.disk, j);
    }
  }

  /**
   * A failure ends the run: the positions after the one that failed play no
   * part in the result.
   */
  lemma {:induction false} RunStopsAtFailure(d: Disk, n: nat, pass: Pass, i: nat)
    ensures var r := RunFrom(d, n, pass, i);
      r.end.Stopped? ==> RunFrom(d, r.end.index + 1, pass, i) == r
    decreases n - i
  {
    if i < n {
      var p := pass(d, i);
      if p.failure.None? {
        RunStopsAtFailure(p.disk, n, pass, i + 1);
      }
    }
  }

  /** `sync` ends by fetching the list failing, by exiting 0 with nothing starred, or after the loop. */
  datatype SyncEnd = ListFailed | NothingStarred | Completed | Aborted(index: nat, failure: Failure)

  /** `[song for song in listing if song['contentType'].startswith('audio')]`; a missing key raises. */
  function AudioSongs(listing: seq<Song>): (r: Option<seq<Song>>)
    ensures r.None? <==> exists s :: s in listing && s.contentType.None?
    ensures r.Some? ==> forall s :: s in r.value <==> s in listing && IsAudio(s.contentType.value)
  {
    if exists s :: s in listing && s.contentType.None? then None
    else Some(Filter(listing, IsAudioSong))
  }

  predicate IsAudioSong(s: Song) {
    s.contentType.Some? && IsAudio(s.contentType.value)
  }

  /** The whole `sync` command from its starred list on. */
  function Sync(d: Disk, listing: Option<seq<Song>>, root: Path, since: Option<Timestamp>, io: nat -> SongIO): (r: (Disk, SyncEnd))
    ensures r.1 == ListFailed || r.1 == NothingStarred ==> r.0 == d
    ensures listing.None? ==> r == (d, ListFailed)
    ensures listing.Some? && AudioSongs(listing.value).None? ==> r == (d, ListFailed)
    ensures listing.Some? && AudioSongs(listing.value) == Some([]) ==> r == (d, NothingStarred)
    ensures listing.Some? && AudioSongs(listing.value).Some? && AudioSongs(listing.value).value != [] ==>
              r.1 != ListFailed && r.1 != NothingStarred
  {
    if listing.None? then (d, ListFailed)
    else match AudioSongs(listing.value)
      case None => (d, ListFailed)
      case Some(audio) =>
        if audio == [] then (d, NothingStarred)
        else
          var sorted := SortByStarred(audio);
          var start := StartDate(d, root, sorted, since);
          var run := RunFrom(d, |sorted|, SongPass(sorted, root, start, io), 0);
          (run.disk, if run.end.Finished? then Completed else Aborted(run.end.index, run.end.failure))
  }

  /**
   * Across a whole `sync`, every file that was on disk before is still
   * there with the same content.
   */
  lemma SyncNeverClobbers(d: Disk, listing: Option<seq<Song>>, root: Path, since: Option<Timestamp>, io: nat -> SongIO)
    ensures var r := Sync(d, listing, root, since, io);
      forall p :: p in d.files ==> p in r.0.files && r.0.files[p] == d.files[p]
  {
    if listing.Some? && AudioSongs(listing.value).Some? && AudioSongs(listing.value).value != [] {
      var sorted := SortByStarred(AudioSongs(listing.value).value);
      var start := StartDate(d, root, sorted, since);
      SongPassGrows(sorted, root, start, io);
      RunKeepsFiles(d, |sorted|, SongPass(sorted, root, start, io), 0);
    }
  }

  /** Across a whole `sync`, a readable marker never moves backward. */
  lemma SyncMarkerNeverDecreases(d: Disk, listing: Option<seq<Song>>, root: Path, since: Option<Timestamp>, io: nat -> SongIO)
    requires d.marker.Holds?
    ensures var r := Sync(d, listing, root, since, io);
      r.0.marker.Holds? ==> r.0.marker.t >= d.marker.t
  {
    if listing.Some? && AudioSongs(listing.value).Some? && AudioSongs(listing.value).value != [] {
      var sorted := SortByStarred(AudioSongs(listing.value).value);
      var start := StartDate(d, root, sorted, since);
      var times := SongTimes(sorted);
      SortedTimesAscend(AudioSongs(listing.value).value);
      SongPassMovesMarker(sorted, root, start, io);
      RunKeepsMarkerFloor(d, |sorted|, SongPass(sorted, root, start, io), times, 0, d.marker.t);
    }
  }

  /** The starred times of the sorted songs ascend, position by position. */
  lemma SortedTimesAscend(audio: seq<Song>)
    requires audio != []
    ensures var sorted := SortByStarred(audio);
      forall j: nat, k: nat :: 0 <= j <= k < |sorted| ==> SongTimes(sorted)(j) <= SongTimes(sorted)(k)
  {
    var sorted := SortByStarred(audio);
    SortByStarredIsStableSort(audio, audio[0]);
    forall j: nat, k: nat | 0 <= j <= k < |sorted| ensures SongTimes(sorted)(j) <= SongTimes(sorted)(k) {
      if j < k {
        assert TimeLeq(sorted[j], sorted[k]);
      }
    }
  }

  /**
   * After an aborted `sync`, the marker is as it was, unreadable, or holds a
   * time no later than the failing song's: a readable marker that the run
   * wrote lets the next run without `since` start at or before that song,
   * so the failing song and those after it are due again.
   */
  lemma SyncAbortMarkerCeiling(d: Disk, listing: Option<seq<Song>>, root: Path, since: Option<Timestamp>, io: nat -> SongIO)
    ensures var r := Sync(d, listing, root, since, io);
      r.1.Aborted? ==>
        && listing.Some? && AudioSongs(listing.value).Some?
        && var sorted := SortByStarred(AudioSongs(listing.value).value);
           r.1.index < |sorted| && Ceiling(d.marker, r.0.marker, StarredTime(sorted[r.1.index]))
  {
    if listing.Some? && AudioSongs(listing.value).Some? && AudioSongs(listing.value).value != [] {
      var sorted := SortByStarred(AudioSongs(listing.value).value);
      var start := StartDate(d, root, sorted, since);
      var times := SongTimes(sorted);
      SortedTimesAscend(AudioSongs(listing.value).value);
      SongPassMovesMarker(sorted, root, start, io);
      var pass := SongPass(sorted, root, start, io);
      RunMarkerCeiling(d.marker, d, |sorted|, pass, times, 0);
      var run := RunFrom(d, |sorted|, pass, 0);
      assert Sync(d, listing, root, since, io) ==
             (run.disk, if run.end.Finished? then Completed else Aborted(run.end.index, run.end.failure));
      if run.end.Stopped? {
        assert times(run.end.index) == StarredTime(sorted[run.end.index]);
      }
    }
  }

  /** The `sync` command on a file system that it changes in place. */
  method SyncStarred(fs: FileSystem, listing: Option<seq<Song>>, root: Path, since: Option<Timestamp>, io: nat -> SongIO)
    returns (end: SyncEnd)
    modifies fs
    ensures (fs.Snapshot(), end) == Sync(old(fs.Snapshot()), listing, root, since, io)
  {
    if listing.None? {
      return ListFailed;
    }
    var found := AudioSongs(listing.value);
    if found.None? {
      return ListFailed;
    }
    var audio := found.value;
    if audio == [] {
      return NothingStarred;
    }
    var sorted := SortByStarred(audio);
    var start := StartDate(fs.Snapshot(), root, sorted, since);
    ghost var d0 := fs.Snapshot();
    ghost var pass := SongPass(sorted, root, start, io);
    var i := 0;
    while i < |sorted|
      invariant 0 <= i <= |sorted|
      invariant RunFrom(fs.Snapshot(), |sorted|, pass, i) == RunFrom(d0, |sorted|, pass, 0)
    {
      ghost var before := fs.Snapshot();
      var failure := SyncOneSong(fs, sorted[i], root, start, io(i));
      assert pass(before, i) == Progress(fs.Snapshot(), failure);
      RunFromStep(before, |sorted|, pass, i, Progress(fs.Snapshot(), failure));
      if failure.Some? {
        return Aborted(i, failure.value);
      }
      i := i + 1;
    }
    end := Completed;
  }

  /** The body of the loop in `sync` for one song. */
  method SyncOneSong(fs: FileSystem, song: Song, root: Path, start: Timestamp, io: SongIO)
    returns (failure: Option<Failure>)
    modifies fs
    ensures Progress(fs.Snapshot(), failure) == SyncSong(old(fs.Snapshot()), song, root, start, io)
  {
    if song.path.None? {
      return Some(MissingPath);
    }
    ghost var d0 := fs.Snapshot();
    var full := Join(root, song.path.value);
    if StarredTime(song) >= start && !Exists(fs.Snapshot(), full) {
      assert Due(d0, root, start, song);
      var status := fs.CreateDirectoryIfMissing(full, io.makedirs);
      ghost var made := CreateDirectoryIfMissing(d0, full, io.makedirs);
      assert fs.Snapshot() == made.disk && status == made.status;
      if status.Err? {
        assert SyncSong(d0, song, root, start, io) == Progress(made.disk, Some(DirectoryFailed(status.errno)));
        return Some(DirectoryFailed(status.errno));
      }
      if io.download.None? {
        assert SyncSong(d0, song, root, start, io) == Progress(made.disk, Some(DownloadFailed));
        return Some(DownloadFailed);
      }
      status := fs.AtomicWrite(full, io.download.value, Dirname(full), io.write);
      ghost var written := AtomicWrite(made.disk, full, io.download.value, Dirname(full), io.write);
      assert fs.Snapshot() == written.disk && status == written.status;
      if status.Err? {
        assert SyncSong(d0, song, root, start, io) == Progress(written.disk, Some(WriteFailed(status.errno)));
        return Some(WriteFailed(status.errno));
      }
      var t := StarredTime(song);
      if t != EpochZero {
        var stale := true;
        var stored := fs.ReadSyncFile();
        if stored.Success? && stored.value > t {
          stale := false;
        }
        if stale {
          var _ := fs.WriteSyncFile(t, io.markerWrite);
        }
      }
      assert fs.Snapshot() == AdvanceMarker(written.disk, t, io.markerWrite);
      assert SyncSong(d0, song, root, start, io) == Progress(AdvanceMarker(written.disk, t, io.markerWrite), None);
    }
    failure := None;
  }
}
