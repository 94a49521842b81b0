/**
 * Where a sync run starts: an explicit `since`, else the time in the marker
 * file, else a time reconstructed from which starred songs are already on disk.
 */
module Watermark {
  import opened Wrappers
  import opened Paths
  import opened Songs
  import opened Sequences
  import opened LocalDisk

  /** The order `sorted(songs, key=song_to_starred_time_struct)` uses. */
  function TimeLeq(a: Song, b: Song): bool {
    StarredTime(a) <= StarredTime(b)
  }

  lemma TimeLeqIsTotalPreorder()
    ensures IsTotalPreorder(TimeLeq)
  {
  }

  /** `sorted(songs, key=song_to_starred_time_struct)`. */
  function SortByStarred(songs: seq<Song>): seq<Song> {
    SortBy(songs, TimeLeq)
  }

  /** The songs come out in ascending starred time, as a permutation, keeping ties in order. */
  lemma SortByStarredIsStableSort(songs: seq<Song>, y: Song)
    ensures SortedBy(SortByStarred(songs), TimeLeq)
    ensures multiset(SortByStarred(songs)) == multiset(songs)
    ensures Equivalents(SortByStarred(songs), y, TimeLeq) == Equivalents(songs, y, TimeLeq)
  {
    TimeLeqIsTotalPreorder();
    SortBySorted(songs, TimeLeq);
    SortByStable(songs, y, TimeLeq);
  }

  /** `song.get('path') in walked`. */
  predicate OnDisk(walked: set<string>, song: Song) {
    song.path.Some? && song.path.value in walked
  }

  /** `[song for song in songs if song.get('path') in walked]`. */
  function SyncedSongs(songs: seq<Song>, walked: set<string>): seq<Song> {
    Filter(songs, s => OnDisk(walked, s))
  }

  /**
   * The starred time of the last synced song, or the epoch when none is
   * synced (the `songs_sorted=True` branch of `get_start_date`).
   */
  function Reconstruct(songs: seq<Song>, walked: set<string>): (t: Timestamp)
    ensures SyncedSongs(songs, walked) == [] ==> t == EpochZero
    ensures SyncedSongs(songs, walked) != [] ==>
              exists s :: s in songs && OnDisk(walked, s) && StarredTime(s) == t
  {
    var synced := SyncedSongs(songs, walked);
    if |synced| > 0 then
      assert synced[|synced| - 1] in synced;
      StarredTime(synced[|synced| - 1])
    else EpochZero
  }

  /**
   * For songs in ascending starred order, the reconstructed time is the
   * greatest starred time among the synced songs.
   */
  lemma ReconstructIsLatest(songs: seq<Song>, walked: set<string>)
    requires SortedBy(songs, TimeLeq)
    ensures forall s :: s in songs && OnDisk(walked, s) ==> StarredTime(s) <= Reconstruct(songs, walked)
  {
    var synced := SyncedSongs(songs, walked);
    FilterSorted(songs, s => OnDisk(walked, s), TimeLeq);
    forall s | s in songs && OnDisk(walked, s)
      ensures StarredTime(s) <= Reconstruct(songs, walked)
    {
      assert s in synced;
      LastIsGreatest(synced, TimeLeq, s);
    }
  }

  /** A song whose path has no directory part never counts as synced. */
  lemma TopLevelSongNeverSynced(songs: seq<Song>, root: Path, names: set<Path>)
    requires forall s :: s in songs ==> s.path.Some? && '/' !in s.path.value
    ensures Reconstruct(songs, Walked(root, names)) == EpochZero
  {
    var walked := Walked(root, names);
    forall s | s in songs ensures !OnDisk(walked, s) {
      TopLevelNeverWalked(root, names, s.path.value);
    }
    if SyncedSongs(songs, walked) != [] {
      var s := SyncedSongs(songs, walked)[0];
      assert s in SyncedSongs(songs, walked);
    }
  }

  /** `get_start_date(root, songs, songs_sorted=True, since=since)`. */
  function StartDate(d: Disk, root: Path, songs: seq<Song>, since: Option<Timestamp>): (t: Timestamp)
    ensures since.Some? ==> t == since.value
    ensures since.None? && d.marker.Holds? ==> t == d.marker.t
    ensures since.None? && !d.marker.Holds? ==> t == Reconstruct(songs, Walked(root, d.files.Keys))
  {
    if since.Some? then since.value
    else match ReadSyncFile(d.marker)
      case Success(t) => t
      case Failure(_) => Reconstruct(songs, Walked(root, d.files.Keys))
  }

  /**
   * Without `since` and without a readable marker, on sorted songs, the start
   * is the latest starred time among the songs already on disk, or the epoch.
   */
  lemma StartDateFallsBackToLatestSynced(d: Disk, root: Path, songs: seq<Song>)
    requires SortedBy(songs, TimeLeq) && !d.marker.Holds?
    ensures var t := StartDate(d, root, songs, None);
      (forall s :: s in songs && OnDisk(Walked(root, d.files.Keys), s) ==> StarredTime(s) <= t) &&
      (t == EpochZero || exists s :: s in songs && OnDisk(Walked(root, d.files.Keys), s) && StarredTime(s) == t)
  {
    ReconstructIsLatest(songs, Walked(root, d.files.Keys));
  }
}
