# starsystem sync engine, in Dafny

starsystem copies a Subsonic user's starred songs into a local directory. This
project models its sync engine in two forms:

- the current package, `src/python/starsystem/__init__.py`;
- the older single-file script, `starsystem.py`.

What is modelled:

- **Starred times.** `song_to_starred_time_struct` parses the `starred` field
  with `%Y-%m-%dT%H:%M:%S.%fZ`. A missing or malformed field gives the epoch.
  A time is an integer key whose order is the field-by-field order of
  `struct_time` (`Songs`).
- **The local directory** (`LocalDisk`, `FileSystems`). It is three pieces of
  state: the files (path to bytes), the directories, and the marker file
  `.synced_to`, which holds the watermark.
  - `LocalDisk` states each helper as a function from the state before to the
    state after:
    - reading and writing the marker, with every failure folded into
      `SyncFileError`;
    - `create_directory_if_missing_from_path`;
    - `open_tempfile_with_atomic_write_to`.
  - `FileSystems.FileSystem` is a class with the same three fields. Its
    methods take the Python steps in order, and each is proved to reach the
    state its function describes.
- **The start date** (`Watermark`). An explicit `since` wins. Otherwise a
  readable marker is used. Otherwise the date is reconstructed from which
  starred paths exist below the download directory (the `songs_sorted=True`
  branch).
- **The `sync` loop** (`StarSystem`).
  - Keep the audio songs, sort them stably by starred time, and pick the
    start date.
  - For each song that is due: create its directory, download it, write it
    atomically beside its final path, and advance the marker unless it
    already holds a later time.
  - The loop is written once over an abstract per-position pass (`RunFrom`)
    and instantiated for both versions. `SyncStarred` runs it in place on a
    `FileSystem`.
- **The token command's salt check** (`Token`).
- **The single-file script** (`RequiredOptions`, `Legacy`):
  - its `required_options_present`;
  - its marker read, which never succeeds;
  - its loop in server order, with the
    temporary file in the default temporary directory. After each download it
    writes the marker with no stale check.

The media server, the operating system and the clock come in as given
outcomes:

- the starred list, or `None` when fetching or decoding it failed;
- per song, in processing order, a `SongIO` record. It holds the download
  result, the outcome of `makedirs`, each step of the temporary-file
  protocol (the chosen name and the error, if any, of create, write, fsync,
  rename and remove), and the outcome of the marker write.

## Model

| member | source | states |
|---|---|---|
| Songs.KeyIsFieldOrder | src/python/starsystem/__init__.py:279 | comparing two valid times by key is comparing their (year, month, day, hour, minute, second) fields lexicographically, as `struct_time` comparison does; equal keys mean equal times |
| Songs.KeyOrder | src/python/starsystem/__init__.py:279 | for bounded base-100 digit sequences of equal length, integer order is lexicographic order, and equality is equality |
| Songs.ParsedIsFormatted | src/python/starsystem/__init__.py:95 | whatever the parser accepts is the formatted text of a valid time with 1 to 6 fraction digits, up to the case of `T` and `Z`, and the parse is that time's key; with `FormatParses`, parsing and formatting are inverse |
| Songs.FormatParses | src/python/starsystem/__init__.py:95 | the text the server writes for a valid time (zero-padded fields, 1 to 6 fraction digits, `Z`) parses back to exactly that time |
| Songs.StarredTime | src/python/starsystem/__init__.py:92-97 | an absent or unparsable `starred` gives the epoch; any other time is the parse of the song's `starred` text |
| Songs.StarredTimeOfFormatted | src/python/starsystem/__init__.py:92-97 | a song whose `starred` is a well-formed time gets that time |
| Songs.StarredTimeFallback | src/python/starsystem/__init__.py:96-97 | a song without `starred`, or with text of the wrong shape, gets the epoch |
| Paths.LastSlash | src/python/starsystem/__init__.py:116 | the index of the last `/` in a path, or -1 when there is none |
| Paths.RStripSlashes | src/python/starsystem/__init__.py:116 | the path with its trailing slashes removed; the result is a prefix and does not end in `/` |
| Paths.Dirname | src/python/starsystem/__init__.py:116 | `os.path.dirname` is a prefix of the path, is empty for a path without `/`, and ends in `/` only when it is all slashes |
| Paths.Join | src/python/starsystem/__init__.py:278 | `os.path.join(a, b)` ends with `b`, and is `b` itself when `b` is absolute |
| Paths.DirnameOfJoin | src/python/starsystem/__init__.py:35 | the directory of `join(dir, name)` is `dir`, for a plain name, so the marker sits in the download directory |
| Paths.SiblingHasSameDirname | src/python/starsystem/__init__.py:159-160 | a temporary file named in the target's parent directory has the same parent as the target |
| Paths.Ancestry | src/python/starsystem/__init__.py:120 | the directories `makedirs` brings into being contain the directory itself, and each is a prefix of it; none is empty |
| Paths.WalkName | src/python/starsystem/__init__.py:79 | a walked relative file name always contains `/`, because top-level files come out as `./name` |
| Paths.Walked | src/python/starsystem/__init__.py:79-81 | every relative path the walk yields contains `/` |
| Paths.TopLevelNeverWalked | src/python/starsystem/__init__.py:79-81 | a relative path without a directory part is never among the walked paths |
| Paths.NestedFileWalked | src/python/starsystem/__init__.py:79-81 | a file in a subdirectory of the root is walked under its relative path |
| LocalDisk.SyncFilePath | src/python/starsystem/__init__.py:34-35 | the marker is `root/.synced_to`, directly inside the download directory |
| LocalDisk.ReadSyncFile | src/python/starsystem/__init__.py:38-46 | the read succeeds exactly when the marker holds a time, and yields it; a missing file is an environment error (ENOENT) |
| LocalDisk.WriteSyncFile | src/python/starsystem/__init__.py:49-57 | files and directories are untouched; the write reports success exactly when it succeeds, and then the marker reads back the time; on failure the marker is unchanged or emptied |
| LocalDisk.CreateDirectoryIfMissing | src/python/starsystem/__init__.py:114-124 | files and marker are untouched and directories only grow; it is a no-op when the parent is a directory; it raises only for an error other than EEXIST when the parent is still not a directory; success without a directory needs a file in the way or a spurious EEXIST |
| LocalDisk.Makedirs | src/python/starsystem/__init__.py:120 | files and marker are untouched and directories only grow; the empty path raises ENOENT and a file in the way raises EEXIST; success happens exactly when `makedirs` goes through on a free path, and then the directory and all its ancestors exist |
| LocalDisk.Cleanup | src/python/starsystem/__init__.py:169-176 | the `finally` clause removes at most the temporary file; when the file is there and removing it fails with anything but ENOENT, nothing changes and that error is raised; otherwise the file is gone and the status is the one passed in |
| LocalDisk.AtomicWrite | src/python/starsystem/__init__.py:147-176 | the temporary-file write never touches directories or the marker |
| LocalDisk.AtomicWriteFrame | src/python/starsystem/__init__.py:147-176 | only the target and the temporary file can change, and nothing changes when the temporary path is already taken |
| LocalDisk.AtomicWriteSuccess | src/python/starsystem/__init__.py:147-176 | success means create, write, fsync and rename all succeeded, and the target then holds the content |
| LocalDisk.AtomicWriteFailure | src/python/starsystem/__init__.py:147-176 | on failure only the temporary file can differ, and with a tolerated cleanup nothing changed at all |
| LocalDisk.AtomicWriteStatus | src/python/starsystem/__init__.py:159-176 | once the temporary file is made (beside a different target), the temporary file survives exactly when the body failed and removing it failed with anything but ENOENT, and the status is then that remove error; otherwise it is the body's first error or success |
| LocalDisk.AtomicWriteKeepsFiles | src/python/starsystem/__init__.py:147-176 | writing to a path where no file is keeps every existing file as it was |
| FileSystems.FileSystem.ReadSyncFile | src/python/starsystem/__init__.py:38-46 | reading the marker in place gives the read function's result and succeeds exactly when the marker holds a time |
| FileSystems.FileSystem.WriteSyncFile | src/python/starsystem/__init__.py:49-57 | the marker write in place reaches the state, and reports the status, of `LocalDisk.WriteSyncFile` |
| FileSystems.FileSystem.CreateDirectoryIfMissing | src/python/starsystem/__init__.py:114-124 | the step-by-step directory creation reaches the state, and reports the status, of `LocalDisk.CreateDirectoryIfMissing` |
| FileSystems.FileSystem.AtomicWrite | src/python/starsystem/__init__.py:147-176 | the step-by-step temporary-file protocol reaches the state, and reports the status, of `LocalDisk.AtomicWrite` |
| Sequences.SortBySorted | src/python/starsystem/__init__.py:269 | the sort puts its input in ascending order |
| Sequences.SortByStable | src/python/starsystem/__init__.py:269 | the sort keeps the input order among elements with equal keys |
| Watermark.TimeLeqIsTotalPreorder | src/python/starsystem/__init__.py:269 | comparing songs by starred time is a total preorder |
| Watermark.SortByStarredIsStableSort | src/python/starsystem/__init__.py:269 | `sorted(songs, key=...)` is ascending in starred time, a permutation of its input, and stable |
| Watermark.Reconstruct | src/python/starsystem/__init__.py:82-89 | with no song on disk the start is the epoch; otherwise it is the starred time of a song that is on disk |
| Watermark.ReconstructIsLatest | src/python/starsystem/__init__.py:84-87 | for songs sorted ascending, the last synced song's time is at least every synced song's time |
| Watermark.TopLevelSongNeverSynced | src/python/starsystem/__init__.py:79-82 | songs whose paths have no directory part never count as synced, so they alone give the epoch |
| Watermark.StartDate | src/python/starsystem/__init__.py:60-89 | `since` wins; otherwise a readable marker; otherwise the reconstruction from the files on disk |
| Watermark.StartDateFallsBackToLatestSynced | src/python/starsystem/__init__.py:75-89 | without `since` or a readable marker, on sorted songs, the start is the latest time among songs on disk, or the epoch |
| StarSystem.AdvanceMarker | src/python/starsystem/__init__.py:293-307 | nothing is written for an epoch time or over a strictly later stored time; a successful write stores the song's time, and otherwise the marker is left unreadable; a readable marker never decreases |
| StarSystem.Due | src/python/starsystem/__init__.py:279 | a song is fetched when its starred time is at or after the start and nothing exists at its path (see `SyncSongSettles`) |
| StarSystem.SyncSongSettles | src/python/starsystem/__init__.py:279-292 | a pass that goes through leaves its song no longer due, so a second run skips it |
| StarSystem.SyncSong | src/python/starsystem/__init__.py:278-307 | a song without a path stops the run; a song that is not due changes nothing; a failed pass leaves the marker alone; a failed download is the download's own failure |
| StarSystem.SyncSongKeepsFiles | src/python/starsystem/__init__.py:278-292 | a pass changes no existing file and only adds directories |
| StarSystem.SyncSongStoresDownload | src/python/starsystem/__init__.py:279-292 | a due song whose pass goes through is at its path with the downloaded bytes |
| StarSystem.SyncSongFailureLeavesNoTarget | src/python/starsystem/__init__.py:280-291 | a failed pass for a due song leaves nothing at the song's path |
| StarSystem.SyncSongMarker | src/python/starsystem/__init__.py:293-307 | the marker changes only for a non-epoch song when no later time is stored, and then holds the song's time or is unreadable |
| StarSystem.RunFrom | src/python/starsystem/__init__.py:277-290 | the loop either finishes or stops at a position inside the range it was given |
| StarSystem.SongPassGrows | src/python/starsystem/__init__.py:277-292 | every pass of the song loop keeps existing files and directories |
| StarSystem.RunKeepsFiles | src/python/starsystem/__init__.py:277-292 | a loop of passes that keep files changes no file that existed before it |
| StarSystem.SyncSongKeepsLaterMarker | src/python/starsystem/__init__.py:297-301 | a marker holding a later time than the song's is left exactly as it is |
| StarSystem.SongPassMovesMarker | src/python/starsystem/__init__.py:293-307 | every pass of the sorted loop moves the marker only as `MarkerMove` allows for that song's starred time |
| StarSystem.RunKeepsMarkerFloor | src/python/starsystem/__init__.py:269-307 | over positions whose times ascend, with passes that move the marker only as `MarkerMove` allows, a readable marker ends no lower than a floor it started at or that every remaining time reaches |
| StarSystem.RunFromStep | src/python/starsystem/__init__.py:277-290 | one step of the loop: a failing pass stops the run at that position with that failure, a pass that goes through hands its disk to the next position |
| StarSystem.SongPassSyncs | src/python/starsystem/__init__.py:279-292 | a pass that goes through leaves its song on disk when the song is starred at or after the start |
| StarSystem.RunCompletesReached | src/python/starsystem/__init__.py:277-290 | every position before the one the loop reached keeps what its successful pass achieved |
| StarSystem.RunLeavesDueSongsOnDisk | src/python/starsystem/__init__.py:277-292 | after the loop, every song before where it finished or stopped that is starred at or after the start is on disk, so a rerun skips it |
| StarSystem.RunMarkerCeiling | src/python/starsystem/__init__.py:277-307 | over positions whose times ascend, with passes that move the marker only as `MarkerMove` allows, a run that stops leaves the marker as it was, unreadable, or at most the failing position's time |
| StarSystem.SyncAbortMarkerCeiling | src/python/starsystem/__init__.py:264-307 | after an aborted `sync`, the marker is as it was, unreadable, or holds a time no later than the failing song's, so a next run without `since` starting from a marker this run wrote retries the failing song and every later one |
| StarSystem.RunStopsAtFailure | src/python/starsystem/__init__.py:287-290 | a stopped run is the same run over only the positions up to the failing one: nothing after a failure is processed |
| StarSystem.AudioSongs | src/python/starsystem/__init__.py:256-262 | a song without `contentType` makes the list fail; otherwise the kept songs are exactly those whose type starts with `audio` |
| StarSystem.Sync | src/python/starsystem/__init__.py:245-307 | a failed listing or a song without `contentType` ends with ListFailed and an empty audio list with NothingStarred, both with the disk unchanged; a non-empty audio list runs the loop, which ends Completed or Aborted |
| StarSystem.SyncNeverClobbers | src/python/starsystem/__init__.py:256-307 | a whole `sync` keeps every existing file with its content |
| StarSystem.SyncMarkerNeverDecreases | src/python/starsystem/__init__.py:264-307 | across a whole `sync`, a readable marker never ends below where it started |
| StarSystem.SyncStarred | src/python/starsystem/__init__.py:256-307 | the in-place loop over the sorted songs reaches the state and the outcome of `Sync` |
| StarSystem.SyncOneSong | src/python/starsystem/__init__.py:278-307 | one in-place iteration of the loop body reaches the state and the failure of `SyncSong` |
| Token.IsDigitString | src/python/starsystem/__init__.py:194 | `isdigit` holds exactly for non-empty strings of digits |
| Token.SaltAccepted | src/python/starsystem/__init__.py:194-195 | a salt is accepted exactly when it has at least six characters, all of them digits |
| RequiredOptions.OptLeqIsTotalPreorder | starsystem.py:54 | ordering options by their option strings is a total preorder |
| RequiredOptions.MissingOptionsReported | starsystem.py:53-64 | the report holds exactly the missing required options, each as often as it is given (a permutation of the in-order filter), in ascending option-string order, and is empty exactly when none is missing |
| RequiredOptions.RequiredOptionsPresent | starsystem.py:48-64 | the loop over the sorted options gathers exactly that report, and the answer is false exactly when some required option is missing |
| Legacy.LegacyReadSyncFile | starsystem.py:78-86 | reading the marker always fails: an environment error when the file does not open, a TypeError otherwise |
| Legacy.LegacyStartDate | starsystem.py:69-98 | the start is always the reconstruction from the files on disk |
| Legacy.LegacyMarkerIgnored | starsystem.py:78-86 | two disks with the same files give the same start date, whatever their markers hold |
| Legacy.MarkerUsedOnlyByCurrentVersion | starsystem.py:78-86 | with a marker holding a time and no `since`, the current start is that time while the old start is the reconstruction |
| Legacy.LegacySyncSong | starsystem.py:215-236 | a song without a path stops the run; a song that is not due changes nothing; a failed pass leaves the marker alone |
| Legacy.LegacySyncSongKeepsFiles | starsystem.py:216-229 | a pass changes no existing file and only adds directories |
| Legacy.LegacyMarkerOverwritten | starsystem.py:230-236 | after a download the marker is overwritten with the song's time even when it held a later one (the current pass keeps the later one, `StarSystem.SyncSongKeepsLaterMarker`) |
| Legacy.LegacyPassGrows | starsystem.py:215-229 | every pass of the old loop keeps existing files and directories |
| Legacy.LegacySync | starsystem.py:196-236 | a failed listing or a song without `contentType` ends with ListFailed and an empty audio list with NothingStarred, both with the disk unchanged; a non-empty audio list runs the loop, which ends Completed or Aborted |
| Legacy.LegacySyncNeverClobbers | starsystem.py:215-236 | the old loop never changes or removes an existing file either |
| Legacy.LegacySyncStarred | starsystem.py:199-236 | the in-place loop over the songs in server order reaches the state and the outcome of `LegacySync` |
| Legacy.LegacySyncOneSong | starsystem.py:216-236 | one in-place iteration of the old loop body reaches the state and the failure of `LegacySyncSong` |

## Left out

- HTTP and JSON (`handle_request`, the `getStarred` and `download` requests, response decoding) are not modelled. The starred list and each download come in as given results. A song without an `id` shows up as a failed download.
- `reraise_as_exception_type` is not modelled; exceptions become tagged results (`SyncFileError`, `Failure`, `SyncEnd`).
- The command line is not modelled. This covers click, twitter.common `app`, option registration, `app.help()`, `getpass`, the md5 token, logging and printing.
- The constants module is not part of this model. Its marker name `.synced_to` is taken from `starsystem.py:67`.
- Real time conversion is not modelled. The marker is written with `time.mktime` (local time) and read with `time.gmtime` (UTC), as a float string. The marker holds the abstract time directly, so it reads back by construction (`LocalDisk.WriteSyncFile`). The source's marker reads back the same time only when local time is UTC; the model does not capture that shift.
- Marker contents that `gmtime` rejects with OverflowError are not modelled; the marker either holds a time or is unparsable.
- Songs.ParseStarred: accepts only zero-padded fields, 1 to 6 fraction digits and ASCII digits. `strptime` also accepts single-digit fields and surrounding leniencies, and under Python 3 its `\d` matches any Unicode decimal digit; `ParsedIsFormatted` describes the model's parser only.
- Songs.KeyIsFieldOrder: covers the six date and time fields. A whole `struct_time` comparison goes on to `tm_wday` and `tm_yday`, which the date fixes, and then to `tm_isdst`: a `strptime` result and `since.timetuple()` carry -1, a `gmtime` value carries 0. So a `gmtime` value is strictly greater than a parsed time with the same six fields. The `gmtime` values are the marker read (src/python/starsystem/__init__.py:42), the reconstruction's `gmtime(0)` (:89) and the starred-time fallback (:97). The model compares the six fields only, with the consequences on the next four lines.
- Watermark.SortByStarred: a song whose `starred` parses to exactly the epoch sorts before every song that fell back to `gmtime(0)`; the model ties them and keeps server order.
- StarSystem.Due: a song whose `starred` parses to exactly a start that is a `gmtime` value (a stored marker time, or the `gmtime(0)` fallback) is not due in the source (:279); the model counts it as due, and fetches it when its path is free. A song without a parsable `starred` is itself `gmtime(0)` and is due against a `gmtime(0)` start in both.
- Legacy.LegacySyncSong: the single-file script has the same six-field tie. Its `gmtime(0)` comes back from the reconstruction (starsystem.py:98) and the starred-time fallback (:105). A song whose `starred` parses to exactly 1970-01-01T00:00:00 is not due against a `gmtime(0)` start at :217, but the model counts it as due. The same song passes `starred_date != time.gmtime(0)` at :231 and gets its marker write, where the model skips every song whose time is the epoch.
- StarSystem.AdvanceMarker: a stored time equal to the song's counts as later in the source (:298), so the source skips the write; the model writes again, and under `WriteFails` it leaves the marker unreadable where the source leaves it untouched. A song really starred at `1970-01-01T00:00:00` differs from `gmtime(0)` at :294 and gets its marker write in the source; the model skips every song whose time is the epoch.
- Non-string `starred` or `contentType` values, which make Python raise TypeError or AttributeError, are not modelled. Song fields are optional strings.
- Token.IsDigitString: ASCII digits only; Python's `str.isdigit` also accepts other Unicode digits.
- Token.SaltAccepted: its digit test is the ASCII-only `Token.IsDigitString`, so it refuses salts of six or more non-ASCII Unicode digits that the source accepts.
- Durability is not modelled. `flush`, `fsync` and the atomicity of `rename` are single steps with given outcomes, and cross-device renames are one such outcome.
- `tempfile` picking a name already in use is modelled as an EEXIST failure; the library would pick another name.
- LocalDisk.Exists: a path is its string. Song paths are assumed normalized (no empty, `.` or `..` components) and the file system free of aliases (symlinks, case folding). Otherwise the model differs: with `dl/a/b.mp3` on disk, the song path `a//b.mp3` exists for `os.path.exists` at :279 and is skipped, while the model stores a second copy under the other key. Likewise `Paths.Walked` counts keys such as `../x/y` that `os.walk` and `relpath` never yield.
- The directory walk is not modelled as such. It is derived from the keys of the file map, so its order, symlinks and empty directories play no part.
- The marker file is kept apart from the song files: it is never walked, and a song whose path equals the marker's is not modelled.
- Concurrent runs racing on the marker file are not modelled; the code does not coordinate them.
- The `songs_sorted=False` branch of `get_start_date` is not modelled. It returns a `partial` object instead of a song and is never called.
- `temporary_subdirectory` is not modelled; it is unused.
- An option whose `help` is `None`, which makes `startswith` raise AttributeError, is not modelled; every option has a help text.
- The `since` option of the single-file script is registered but never read by its `main`, so `LegacySync` has no `since`.

## Findings

| source | as written | input that shows it | evidently intended | confidence | as-written member | corrected member |
|---|---|---|---|---|---|---|
| starsystem.py:81 | the first line of `.synced_to` is passed to `time.gmtime` as a string, which raises TypeError; the handler swallows it, so the stored marker is never used | any marker file, e.g. one holding `1500000000.0`: the start date is the reconstruction from the files, never the stored time | the start date is the stored time when the marker is readable, as the docstring at starsystem.py:72-76 says; the current version converts with `float` (src/python/starsystem/__init__.py:42) | high, not executed | Legacy.LegacyMarkerIgnored | Watermark.StartDate |
