/** populate_db.py: empty both tables, then rebuild them from the artist's album
    list in two passes. The first pass stores every full album and its tracks and
    remembers the track ids; the second stores the tracks of the singles that no
    album already holds. Inserts are plain INSERTs, so a repeated key raises. The
    album list and the per-album track lists are oracle inputs. */
module PopulateDb {
  import opened Wrappers
  import opened Catalog
  import opened Duration
  import Schema
  import Lists

  /** `get_album_tracks(album_id)`: the album's tracks, or how the call stopped. */
  type TracksOf = string -> Result<seq<TrackItem>, Stop>

  /** The progress lines of the two passes. */
  datatype Event =
    | AddedAlbum(album: string)
    | AddedTrack(track: string)
    | AddedSingle(single: string)
    | SkippedSingle(skipped: string)

  predicate AlbumPassEvent(e: Event) {
    e.AddedAlbum? || e.AddedTrack?
  }

  /** The uncommitted state of a run: the rows inserted so far, the album track ids,
      the three counters and the progress lines. */
  datatype Run = Run(
    albums: map<string, AlbumRow>,
    songs: map<string, SongRow>,
    albumTrackIds: set<string>,
    albumsCount: nat,
    albumTracksCount: nat,
    singlesCount: nat,
    log: seq<Event>)

  /** Right after the truncation. */
  const Fresh := Run(map[], map[], {}, 0, 0, 0, [])

  /** The rows the root schema admits: album rows are of type "album", and a song is
      a single exactly when it has no album; each row sits under its own id. */
  predicate RootRows(run: Run) {
    (forall k :: k in run.albums ==> run.albums[k].albumId == k && run.albums[k].albumType == "album") &&
    (forall k :: k in run.songs ==> run.songs[k].songId == k &&
                                    (run.songs[k].isSingle <==> run.songs[k].albumId.None?))
  }

  // ---------------------------------------------------------------------------
  // Row tuples (populate_db.py:43-54, 70-84, 104-118). A missing image or track
  // number raises IndexError or KeyError.

  function AlbumRowOf(item: AlbumItem): Result<AlbumRow, Stop> {
    if |item.images| < 3 then Failure(Raised)
    else Success(AlbumRow(item.id, None, item.name, item.releaseDate, item.totalTracks,
      item.spotifyUrl, item.uri, None, "album", item.images[0], item.images[1], item.images[2]))
  }

  /** An album track inherits the album's id, release date and images. */
  function AlbumTrackRow(item: AlbumItem, t: TrackItem): Result<SongRow, Stop> {
    if |item.images| < 3 || t.trackNumber.None? then Failure(Raised)
    else Success(SongRow(t.id, None, Some(item.id), t.name, item.releaseDate, t.trackNumber,
      t.durationMs, FromMillisViaSeconds(t.durationMs), t.spotifyUrl, t.uri, None, false,
      item.images[0], item.images[1], item.images[2]))
  }

  /** A single's track has no album and no track number, and inherits the single's
      release date and images. */
  function SingleRow(item: AlbumItem, t: TrackItem): Result<SongRow, Stop> {
    if |item.images| < 3 then Failure(Raised)
    else Success(SongRow(t.id, None, None, t.name, item.releaseDate, None,
      t.durationMs, FromMillisViaSeconds(t.durationMs), t.spotifyUrl, t.uri, None, true,
      item.images[0], item.images[1], item.images[2]))
  }

  // ---------------------------------------------------------------------------
  // What the passes cover.

  function Ids(tracks: seq<TrackItem>): set<string> {
    if |tracks| == 0 then {} else {tracks[0].id} + Ids(tracks[1..])
  }

  lemma {:induction false} IdsMember(tracks: seq<TrackItem>, k: string)
    ensures k in Ids(tracks) <==> exists t :: t in tracks && t.id == k
    decreases |tracks|
  {
    if |tracks| > 0 {
      IdsMember(tracks[1..], k);
      assert forall u :: u in tracks <==> u == tracks[0] || u in tracks[1..];
    }
  }

  /** The ids of the items of one type. */
  function IdsOfType(items: seq<AlbumItem>, albumType: string): set<string> {
    if |items| == 0 then {}
    else (if items[0].albumType == albumType then {items[0].id} else {}) + IdsOfType(items[1..], albumType)
  }

  function CountType(items: seq<AlbumItem>, albumType: string): (n: nat)
    ensures n <= |items|
  {
    if |items| == 0 then 0
    else (if items[0].albumType == albumType then 1 else 0) + CountType(items[1..], albumType)
  }

  /** The ids of the tracks of the items of one type whose track list was fetched. */
  function TrackIdsOfType(items: seq<AlbumItem>, tracksOf: TracksOf, albumType: string): set<string> {
    if |items| == 0 then {}
    else
      (if items[0].albumType == albumType && tracksOf(items[0].id).Success?
       then Ids(tracksOf(items[0].id).value) else {}) +
      TrackIdsOfType(items[1..], tracksOf, albumType)
  }

  lemma TrackIdsOfTypeUnfold(items: seq<AlbumItem>, tracksOf: TracksOf, albumType: string)
    requires |items| > 0
    ensures items[0].albumType == albumType && tracksOf(items[0].id).Success? ==>
              TrackIdsOfType(items, tracksOf, albumType) ==
              Ids(tracksOf(items[0].id).value) + TrackIdsOfType(items[1..], tracksOf, albumType)
    ensures items[0].albumType != albumType ==>
              TrackIdsOfType(items, tracksOf, albumType) == TrackIdsOfType(items[1..], tracksOf, albumType)
  {
  }

  lemma IdsOfTypeUnfold(items: seq<AlbumItem>, albumType: string)
    requires |items| > 0
    ensures items[0].albumType == albumType ==>
              IdsOfType(items, albumType) == {items[0].id} + IdsOfType(items[1..], albumType)
    ensures items[0].albumType != albumType ==>
              IdsOfType(items, albumType) == IdsOfType(items[1..], albumType)
  {
  }

  lemma SetStep(a: set<string>, b: set<string>, c: set<string>, d: set<string>)
    ensures (a + (b - d)) + (c - d) == a + ((b + c) - d)
  {
  }

  // ---------------------------------------------------------------------------
  // The statements of one step.

  /** `INSERT INTO albums` for a full album. */
  function InsertAlbum(item: AlbumItem, run: Run): Result<Run, Stop> {
    match AlbumRowOf(item)
    case Failure(e) => Failure(e)
    case Success(row) =>
      if item.id in run.albums then Failure(Raised)
      else Success(run.(albums := run.albums[item.id := row],
                        albumsCount := run.albumsCount + 1,
                        log := run.log + [AddedAlbum(item.name)]))
  }

  /** Remember an album track's id and `INSERT INTO songs` its row. */
  function InsertAlbumTrack(item: AlbumItem, t: TrackItem, run: Run): Result<Run, Stop> {
    match AlbumTrackRow(item, t)
    case Failure(e) => Failure(e)
    case Success(row) =>
      if t.id in run.songs then Failure(Raised)
      else Success(run.(songs := run.songs[t.id := row],
                        albumTrackIds := run.albumTrackIds + {t.id},
                        albumTracksCount := run.albumTracksCount + 1,
                        log := run.log + [AddedTrack(t.name)]))
  }

  /** A single's track: skipped when an album holds it, else inserted. */
  function InsertSingleTrack(item: AlbumItem, t: TrackItem, run: Run): Result<Run, Stop> {
    if t.id in run.albumTrackIds then Success(run.(log := run.log + [SkippedSingle(t.name)]))
    else match SingleRow(item, t)
      case Failure(e) => Failure(e)
      case Success(row) =>
        if t.id in run.songs then Failure(Raised)
        else Success(run.(songs := run.songs[t.id := row],
                          singlesCount := run.singlesCount + 1,
                          log := run.log + [AddedSingle(t.name)]))
  }

  // ---------------------------------------------------------------------------
  // The passes.

  function AddAlbumTracks(item: AlbumItem, tracks: seq<TrackItem>, run: Run): Result<Run, Stop>
    decreases |tracks|
  {
    if |tracks| == 0 then Success(run)
    else match InsertAlbumTrack(item, tracks[0], run)
      case Failure(e) => Failure(e)
      case Success(run1) => AddAlbumTracks(item, tracks[1..], run1)
  }

  /** One full album: its row, then its fetched tracks. */
  function ProcessAlbum(item: AlbumItem, tracksOf: TracksOf, run: Run): Result<Run, Stop> {
    match InsertAlbum(item, run)
    case Failure(e) => Failure(e)
    case Success(run1) =>
      match tracksOf(item.id)
      case Failure(e) => Failure(e)
      case Success(tracks) => AddAlbumTracks(item, tracks, run1)
  }

  /** populate_db.py:40-95: every full album, in list order. */
  function AlbumPass(items: seq<AlbumItem>, tracksOf: TracksOf, run: Run): Result<Run, Stop>
    decreases |items|
  {
    if |items| == 0 then Success(run)
    else if items[0].albumType == "album" then
      match ProcessAlbum(items[0], tracksOf, run)
      case Failure(e) => Failure(e)
      case Success(run1) => AlbumPass(items[1..], tracksOf, run1)
    else AlbumPass(items[1..], tracksOf, run)
  }

  function AddSingleTracks(item: AlbumItem, tracks: seq<TrackItem>, run: Run): Result<Run, Stop>
    decreases |tracks|
  {
    if |tracks| == 0 then Success(run)
    else match InsertSingleTrack(item, tracks[0], run)
      case Failure(e) => Failure(e)
      case Success(run1) => AddSingleTracks(item, tracks[1..], run1)
  }

  /** populate_db.py:98-131: every single, in list order, after the first pass. */
  function SinglePass(items: seq<AlbumItem>, tracksOf: TracksOf, run: Run): Result<Run, Stop>
    decreases |items|
  {
    if |items| == 0 then Success(run)
    else if items[0].albumType == "single" then
      match tracksOf(items[0].id)
      case Failure(e) => Failure(e)
      case Success(tracks) =>
        match AddSingleTracks(items[0], tracks, run)
        case Failure(e) => Failure(e)
        case Success(run1) => SinglePass(items[1..], tracksOf, run1)
    else SinglePass(items[1..], tracksOf, run)
  }

  // ---------------------------------------------------------------------------
  // Growth: plain inserts never overwrite, and progress lines are only appended.

  predicate Extends(run: Run, run': Run) {
    (forall k :: k in run.albums ==> k in run'.albums && run'.albums[k] == run.albums[k]) &&
    (forall k :: k in run.songs ==> k in run'.songs && run'.songs[k] == run.songs[k]) &&
    |run.log| <= |run'.log| && run'.log[..|run.log|] == run.log
  }

  /** Everything logged after `run` satisfies `p`. */
  predicate LoggedAfter(run: Run, run': Run, p: Event -> bool)
    requires |run.log| <= |run'.log|
  {
    forall i :: |run.log| <= i < |run'.log| ==> p(run'.log[i])
  }

  predicate SinglePassEvent(e: Event) {
    !AlbumPassEvent(e)
  }

  lemma ExtendsTrans(a: Run, b: Run, c: Run, p: Event -> bool)
    requires Extends(a, b) && Extends(b, c)
    ensures Extends(a, c)
    ensures LoggedAfter(a, b, p) && LoggedAfter(b, c, p) ==> LoggedAfter(a, c, p)
  {
    assert c.log[..|a.log|] == c.log[..|b.log|][..|a.log|];
    if LoggedAfter(a, b, p) && LoggedAfter(b, c, p) {
      forall i | |a.log| <= i < |c.log| ensures p(c.log[i]) {
        if i < |b.log| {
          assert c.log[i] == c.log[..|b.log|][i];
        }
      }
    }
  }

  /** Every song row added between the two runs has the given `is_single` flag. */
  predicate NewSongsAre(run: Run, run': Run, single: bool) {
    forall k :: k in run'.songs && k !in run.songs ==> run'.songs[k].isSingle == single
  }

  /** `run'` keeps every row of `run`, only appends progress lines of the kind `p`,
      and only adds songs whose `is_single` flag is `single`. */
  predicate Grows(run: Run, run': Run, p: Event -> bool, single: bool) {
    Extends(run, run') && LoggedAfter(run, run', p) && NewSongsAre(run, run', single)
  }

  lemma GrowsTrans(a: Run, b: Run, c: Run, p: Event -> bool, single: bool)
    requires Grows(a, b, p, single) && Grows(b, c, p, single)
    ensures Grows(a, c, p, single)
  {
    ExtendsTrans(a, b, c, p);
  }

  // ---------------------------------------------------------------------------
  // One step.

  lemma InsertAlbumTrackGrows(item: AlbumItem, t: TrackItem, run: Run)
    requires InsertAlbumTrack(item, t, run).Success?
    ensures var run' := InsertAlbumTrack(item, t, run).value;
            Grows(run, run', AlbumPassEvent, false) && (RootRows(run) ==> RootRows(run'))
  {
    var run' := InsertAlbumTrack(item, t, run).value;
    assert run'.log[..|run.log|] == run.log;
  }

  lemma InsertAlbumTrackSpec(item: AlbumItem, t: TrackItem, run: Run)
    requires InsertAlbumTrack(item, t, run).Success?
    ensures var run' := InsertAlbumTrack(item, t, run).value;
            run'.albums == run.albums && run'.albumsCount == run.albumsCount &&
            run'.singlesCount == run.singlesCount &&
            run'.albumTrackIds == run.albumTrackIds + {t.id} &&
            t.id !in run.songs && run'.songs.Keys == run.songs.Keys + {t.id} &&
            AlbumTrackRow(item, t) == Success(run'.songs[t.id]) &&
            run'.albumTracksCount - |run'.songs| == run.albumTracksCount - |run.songs|
  {
    var row := AlbumTrackRow(item, t).value;
    MapAddSize(run.songs, t.id, row);
  }

  lemma InsertAlbumTrackKeys(item: AlbumItem, t: TrackItem, run: Run)
    requires InsertAlbumTrack(item, t, run).Success?
    ensures InsertAlbumTrack(item, t, run).value.songs.Keys == run.songs.Keys + {t.id}
    ensures InsertAlbumTrack(item, t, run).value.albumTrackIds == run.albumTrackIds + {t.id}
  {
  }

  lemma InsertSingleTrackGrows(item: AlbumItem, t: TrackItem, run: Run)
    requires InsertSingleTrack(item, t, run).Success?
    ensures var run' := InsertSingleTrack(item, t, run).value;
            Grows(run, run', SinglePassEvent, true) && (RootRows(run) ==> RootRows(run'))
  {
    var run' := InsertSingleTrack(item, t, run).value;
    assert run'.log[..|run.log|] == run.log;
  }

  lemma InsertSingleTrackSpec(item: AlbumItem, t: TrackItem, run: Run)
    requires InsertSingleTrack(item, t, run).Success?
    ensures var run' := InsertSingleTrack(item, t, run).value;
            run'.albums == run.albums && run'.albumTrackIds == run.albumTrackIds &&
            run'.albumsCount == run.albumsCount && run'.albumTracksCount == run.albumTracksCount &&
            (t.id in run.albumTrackIds ==> run'.songs == run.songs) &&
            (t.id !in run.albumTrackIds ==>
               t.id !in run.songs && run'.songs.Keys == run.songs.Keys + {t.id} &&
               SingleRow(item, t) == Success(run'.songs[t.id])) &&
            run'.singlesCount - |run'.songs| == run.singlesCount - |run.songs|
  {
    if t.id !in run.albumTrackIds {
      var row := SingleRow(item, t).value;
      var run' := InsertSingleTrack(item, t, run).value;
      assert run' == run.(songs := run.songs[t.id := row], singlesCount := run.singlesCount + 1,
                          log := run.log + [AddedSingle(t.name)]);
      MapAddSize(run.songs, t.id, row);
    }
  }

  /** Adding a fresh key grows a map by one. */
  lemma MapAddSize<V>(m: map<string, V>, k: string, v: V)
    requires k !in m
    ensures |m[k := v]| == |m| + 1 && m[k := v].Keys == m.Keys + {k}
  {
    assert m[k := v].Keys == m.Keys + {k};
  }

  // ---------------------------------------------------------------------------
  // The first pass.

  lemma AddAlbumTracksUnfold(item: AlbumItem, tracks: seq<TrackItem>, run: Run)
    requires |tracks| > 0 && AddAlbumTracks(item, tracks, run).Success?
    ensures InsertAlbumTrack(item, tracks[0], run).Success?
    ensures AddAlbumTracks(item, tracks, run) ==
            AddAlbumTracks(item, tracks[1..], InsertAlbumTrack(item, tracks[0], run).value)
  {
  }

  lemma {:induction false} AddAlbumTracksGrows(item: AlbumItem, tracks: seq<TrackItem>, run: Run)
    requires AddAlbumTracks(item, tracks, run).Success?
    ensures var run' := AddAlbumTracks(item, tracks, run).value;
            Grows(run, run', AlbumPassEvent, false) && (RootRows(run) ==> RootRows(run'))
    decreases |tracks|
  {
    if |tracks| > 0 {
      AddAlbumTracksUnfold(item, tracks, run);
      var run1 := InsertAlbumTrack(item, tracks[0], run).value;
      InsertAlbumTrackGrows(item, tracks[0], run);
      AddAlbumTracksGrows(item, tracks[1..], run1);
      GrowsTrans(run, run1, AddAlbumTracks(item, tracks, run).value, AlbumPassEvent, false);
    }
  }

  lemma {:induction false} AddAlbumTracksSpec(item: AlbumItem, tracks: seq<TrackItem>, run: Run)
    requires AddAlbumTracks(item, tracks, run).Success?
    ensures var run' := AddAlbumTracks(item, tracks, run).value;
            run'.albums == run.albums && run'.albumsCount == run.albumsCount &&
            run'.singlesCount == run.singlesCount &&
            run'.albumTracksCount - |run'.songs| == run.albumTracksCount - |run.songs|
    decreases |tracks|
  {
    if |tracks| > 0 {
      var t := tracks[0];
      AddAlbumTracksUnfold(item, tracks, run);
      var run1 := InsertAlbumTrack(item, t, run).value;
      InsertAlbumTrackSpec(item, t, run);
      AddAlbumTracksSpec(item, tracks[1..], run1);
    }
  }

  lemma {:induction false} AddAlbumTracksKeys(item: AlbumItem, tracks: seq<TrackItem>, run: Run)
    requires AddAlbumTracks(item, tracks, run).Success?
    ensures AddAlbumTracks(item, tracks, run).value.songs.Keys == run.songs.Keys + Ids(tracks)
    ensures AddAlbumTracks(item, tracks, run).value.albumTrackIds == run.albumTrackIds + Ids(tracks)
    decreases |tracks|
  {
    if |tracks| > 0 {
      AddAlbumTracksUnfold(item, tracks, run);
      var run1 := InsertAlbumTrack(item, tracks[0], run).value;
      InsertAlbumTrackKeys(item, tracks[0], run);
      AddAlbumTracksKeys(item, tracks[1..], run1);
      assert Ids(tracks) == {tracks[0].id} + Ids(tracks[1..]);
    }
  }

  lemma {:induction false} AddAlbumTracksRows(item: AlbumItem, tracks: seq<TrackItem>, run: Run)
    requires AddAlbumTracks(item, tracks, run).Success?
    ensures var run' := AddAlbumTracks(item, tracks, run).value;
            forall t :: t in tracks ==> t.id in run'.songs && AlbumTrackRow(item, t) == Success(run'.songs[t.id])
    decreases |tracks|
  {
    if |tracks| > 0 {
      var t := tracks[0];
      AddAlbumTracksUnfold(item, tracks, run);
      var run1 := InsertAlbumTrack(item, t, run).value;
      InsertAlbumTrackSpec(item, t, run);
      AddAlbumTracksGrows(item, tracks[1..], run1);
      AddAlbumTracksRows(item, tracks[1..], run1);
      assert forall u :: u in tracks ==> u == t || u in tracks[1..];
    }
  }
  lemma ProcessAlbumUnfold(item: AlbumItem, tracksOf: TracksOf, run: Run)
    requires ProcessAlbum(item, tracksOf, run).Success?
    ensures InsertAlbum(item, run).Success? && tracksOf(item.id).Success?
    ensures ProcessAlbum(item, tracksOf, run) ==
            AddAlbumTracks(item, tracksOf(item.id).value, InsertAlbum(item, run).value)
  {
  }

  lemma InsertAlbumSpec(item: AlbumItem, run: Run)
    requires InsertAlbum(item, run).Success?
    ensures var run' := InsertAlbum(item, run).value;
            Grows(run, run', AlbumPassEvent, false) && (RootRows(run) ==> RootRows(run')) &&
            item.id !in run.albums && run'.albums.Keys == run.albums.Keys + {item.id} &&
            AlbumRowOf(item) == Success(run'.albums[item.id]) &&
            run'.albumsCount == run.albumsCount + 1 && run'.singlesCount == run.singlesCount &&
            run'.songs == run.songs && run'.albumTrackIds == run.albumTrackIds &&
            run'.albumTracksCount == run.albumTracksCount
  {
    var run' := InsertAlbum(item, run).value;
    assert run'.log[..|run.log|] == run.log;
  }

  lemma InsertAlbumSize(item: AlbumItem, run: Run)
    requires InsertAlbum(item, run).Success?
    ensures |InsertAlbum(item, run).value.albums| == |run.albums| + 1
  {
    var row := AlbumRowOf(item).value;
    assert item.id !in run.albums;
    assert InsertAlbum(item, run).value.albums == run.albums[item.id := row];
  }

  lemma ProcessAlbumGrows(item: AlbumItem, tracksOf: TracksOf, run: Run)
    requires ProcessAlbum(item, tracksOf, run).Success?
    ensures var run' := ProcessAlbum(item, tracksOf, run).value;
            Grows(run, run', AlbumPassEvent, false) && (RootRows(run) ==> RootRows(run'))
  {
    ProcessAlbumUnfold(item, tracksOf, run);
    var run1 := InsertAlbum(item, run).value;
    InsertAlbumSpec(item, run);
    AddAlbumTracksGrows(item, tracksOf(item.id).value, run1);
    GrowsTrans(run, run1, ProcessAlbum(item, tracksOf, run).value, AlbumPassEvent, false);
  }

  lemma ProcessAlbumSpec(item: AlbumItem, tracksOf: TracksOf, run: Run)
    requires ProcessAlbum(item, tracksOf, run).Success?
    ensures tracksOf(item.id).Success?
    ensures var run' := ProcessAlbum(item, tracksOf, run).value;
            item.id !in run.albums && run'.albums.Keys == run.albums.Keys + {item.id} &&
            |run'.albums| == |run.albums| + 1 &&
            AlbumRowOf(item) == Success(run'.albums[item.id]) &&
            run'.albumsCount == run.albumsCount + 1 && run'.singlesCount == run.singlesCount &&
            run'.albumTracksCount - |run'.songs| == run.albumTracksCount - |run.songs|
  {
    ProcessAlbumUnfold(item, tracksOf, run);
    InsertAlbumSpec(item, run);
    InsertAlbumSize(item, run);
    AddAlbumTracksSpec(item, tracksOf(item.id).value, InsertAlbum(item, run).value);
  }

  lemma ProcessAlbumAlbumKeys(item: AlbumItem, tracksOf: TracksOf, run: Run)
    requires ProcessAlbum(item, tracksOf, run).Success?
    ensures ProcessAlbum(item, tracksOf, run).value.albums.Keys == run.albums.Keys + {item.id}
  {
    ProcessAlbumSpec(item, tracksOf, run);
  }

  lemma ProcessAlbumKeys(item: AlbumItem, tracksOf: TracksOf, run: Run)
    requires ProcessAlbum(item, tracksOf, run).Success?
    ensures tracksOf(item.id).Success?
    ensures var run' := ProcessAlbum(item, tracksOf, run).value;
            run'.albumTrackIds == run.albumTrackIds + Ids(tracksOf(item.id).value) &&
            run'.songs.Keys == run.songs.Keys + Ids(tracksOf(item.id).value)
  {
    ProcessAlbumUnfold(item, tracksOf, run);
    InsertAlbumSpec(item, run);
    AddAlbumTracksKeys(item, tracksOf(item.id).value, InsertAlbum(item, run).value);
  }

  lemma ProcessAlbumRows(item: AlbumItem, tracksOf: TracksOf, run: Run)
    requires ProcessAlbum(item, tracksOf, run).Success?
    ensures tracksOf(item.id).Success?
    ensures var run' := ProcessAlbum(item, tracksOf, run).value;
            forall t :: t in tracksOf(item.id).value ==>
              t.id in run'.songs && AlbumTrackRow(item, t) == Success(run'.songs[t.id])
  {
    ProcessAlbumUnfold(item, tracksOf, run);
    AddAlbumTracksRows(item, tracksOf(item.id).value, InsertAlbum(item, run).value);
  }

  lemma AlbumPassUnfold(items: seq<AlbumItem>, tracksOf: TracksOf, run: Run)
    requires |items| > 0 && AlbumPass(items, tracksOf, run).Success?
    ensures items[0].albumType == "album" ==>
              ProcessAlbum(items[0], tracksOf, run).Success? &&
              AlbumPass(items, tracksOf, run) ==
              AlbumPass(items[1..], tracksOf, ProcessAlbum(items[0], tracksOf, run).value)
    ensures items[0].albumType != "album" ==>
              AlbumPass(items, tracksOf, run) == AlbumPass(items[1..], tracksOf, run)
  {
  }

  lemma {:induction false} AlbumPassGrows(items: seq<AlbumItem>, tracksOf: TracksOf, run: Run)
    requires AlbumPass(items, tracksOf, run).Success?
    ensures var run' := AlbumPass(items, tracksOf, run).value;
            Grows(run, run', AlbumPassEvent, false) && (RootRows(run) ==> RootRows(run'))
    decreases |items|
  {
    if |items| == 0 {
      assert AlbumPass(items, tracksOf, run).value == run;
      assert run.log[..|run.log|] == run.log;
    } else {
      AlbumPassUnfold(items, tracksOf, run);
      if items[0].albumType == "album" {
        var run1 := ProcessAlbum(items[0], tracksOf, run).value;
        ProcessAlbumGrows(items[0], tracksOf, run);
        AlbumPassGrows(items[1..], tracksOf, run1);
        GrowsTrans(run, run1, AlbumPass(items, tracksOf, run).value, AlbumPassEvent, false);
      } else {
        AlbumPassGrows(items[1..], tracksOf, run);
      }
    }
  }

  lemma {:induction false} AlbumPassAlbumKeys(items: seq<AlbumItem>, tracksOf: TracksOf, run: Run)
    requires AlbumPass(items, tracksOf, run).Success?
    ensures AlbumPass(items, tracksOf, run).value.albums.Keys == run.albums.Keys + IdsOfType(items, "album")
    decreases |items|
  {
    if |items| > 0 {
      AlbumPassUnfold(items, tracksOf, run);
      IdsOfTypeUnfold(items, "album");
      if items[0].albumType == "album" {
        ProcessAlbumAlbumKeys(items[0], tracksOf, run);
        AlbumPassAlbumKeys(items[1..], tracksOf, ProcessAlbum(items[0], tracksOf, run).value);
      } else {
        AlbumPassAlbumKeys(items[1..], tracksOf, run);
      }
    }
  }

  lemma {:induction false} AlbumPassCounts(items: seq<AlbumItem>, tracksOf: TracksOf, run: Run)
    requires AlbumPass(items, tracksOf, run).Success?
    ensures var run' := AlbumPass(items, tracksOf, run).value;
            run'.albumsCount == run.albumsCount + CountType(items, "album") &&
            run'.albumsCount - |run'.albums| == run.albumsCount - |run.albums| &&
            run'.singlesCount == run.singlesCount &&
            run'.albumTracksCount - |run'.songs| == run.albumTracksCount - |run.songs|
    decreases |items|
  {
    if |items| > 0 {
      AlbumPassUnfold(items, tracksOf, run);
      if items[0].albumType == "album" {
        ProcessAlbumSpec(items[0], tracksOf, run);
        AlbumPassCounts(items[1..], tracksOf, ProcessAlbum(items[0], tracksOf, run).value);
      } else {
        AlbumPassCounts(items[1..], tracksOf, run);
      }
    }
  }

  lemma {:induction false} AlbumPassKeys(items: seq<AlbumItem>, tracksOf: TracksOf, run: Run)
    requires AlbumPass(items, tracksOf, run).Success?
    ensures var run' := AlbumPass(items, tracksOf, run).value;
            run'.albumTrackIds == run.albumTrackIds + TrackIdsOfType(items, tracksOf, "album") &&
            run'.songs.Keys == run.songs.Keys + TrackIdsOfType(items, tracksOf, "album")
    decreases |items|
  {
    if |items| > 0 {
      AlbumPassUnfold(items, tracksOf, run);
      if items[0].albumType == "album" {
        ProcessAlbumKeys(items[0], tracksOf, run);
        AlbumPassKeys(items[1..], tracksOf, ProcessAlbum(items[0], tracksOf, run).value);
      } else {
        AlbumPassKeys(items[1..], tracksOf, run);
      }
    }
  }

  /** Every full album of the list is stored with its row and all its tracks. */
  lemma {:induction false} AlbumPassRows(items: seq<AlbumItem>, tracksOf: TracksOf, run: Run)
    requires AlbumPass(items, tracksOf, run).Success?
    ensures var run' := AlbumPass(items, tracksOf, run).value;
            forall a :: a in items && a.albumType == "album" ==>
              a.id in run'.albums && AlbumRowOf(a) == Success(run'.albums[a.id]) &&
              tracksOf(a.id).Success? &&
              forall t :: t in tracksOf(a.id).value ==>
                t.id in run'.songs && AlbumTrackRow(a, t) == Success(run'.songs[t.id])
    decreases |items|
  {
    if |items| > 0 {
      AlbumPassUnfold(items, tracksOf, run);
      var a := items[0];
      if a.albumType == "album" {
        var run1 := ProcessAlbum(a, tracksOf, run).value;
        ProcessAlbumSpec(a, tracksOf, run);
        ProcessAlbumRows(a, tracksOf, run);
        AlbumPassRows(items[1..], tracksOf, run1);
        AlbumPassGrows(items[1..], tracksOf, run1);
      } else {
        AlbumPassRows(items[1..], tracksOf, run);
      }
      assert forall x :: x in items ==> x == a || x in items[1..];
    }
  }

  // ---------------------------------------------------------------------------
  // The second pass.

  lemma AddSingleTracksUnfold(item: AlbumItem, tracks: seq<TrackItem>, run: Run)
    requires |tracks| > 0 && AddSingleTracks(item, tracks, run).Success?
    ensures InsertSingleTrack(item, tracks[0], run).Success?
    ensures AddSingleTracks(item, tracks, run) ==
            AddSingleTracks(item, tracks[1..], InsertSingleTrack(item, tracks[0], run).value)
  {
  }

  lemma {:induction false} AddSingleTracksGrows(item: AlbumItem, tracks: seq<TrackItem>, run: Run)
    requires AddSingleTracks(item, tracks, run).Success?
    ensures var run' := AddSingleTracks(item, tracks, run).value;
            Grows(run, run', SinglePassEvent, true) && (RootRows(run) ==> RootRows(run'))
    decreases |tracks|
  {
    if |tracks| == 0 {
      assert run.log[..|run.log|] == run.log;
    } else {
      AddSingleTracksUnfold(item, tracks, run);
      var run1 := InsertSingleTrack(item, tracks[0], run).value;
      InsertSingleTrackGrows(item, tracks[0], run);
      AddSingleTracksGrows(item, tracks[1..], run1);
      GrowsTrans(run, run1, AddSingleTracks(item, tracks, run).value, SinglePassEvent, true);
    }
  }

  lemma {:induction false} AddSingleTracksSpec(item: AlbumItem, tracks: seq<TrackItem>, run: Run)
    requires AddSingleTracks(item, tracks, run).Success?
    ensures var run' := AddSingleTracks(item, tracks, run).value;
            run'.albums == run.albums && run'.albumTrackIds == run.albumTrackIds &&
            run'.albumsCount == run.albumsCount && run'.albumTracksCount == run.albumTracksCount &&
            run'.singlesCount - |run'.songs| == run.singlesCount - |run.songs|
    decreases |tracks|
  {
    if |tracks| > 0 {
      AddSingleTracksUnfold(item, tracks, run);
      InsertSingleTrackSpec(item, tracks[0], run);
      AddSingleTracksSpec(item, tracks[1..], InsertSingleTrack(item, tracks[0], run).value);
    }
  }

  lemma {:induction false} AddSingleTracksKeys(item: AlbumItem, tracks: seq<TrackItem>, run: Run)
    requires AddSingleTracks(item, tracks, run).Success?
    ensures AddSingleTracks(item, tracks, run).value.songs.Keys ==
            run.songs.Keys + (Ids(tracks) - run.albumTrackIds)
    decreases |tracks|
  {
    if |tracks| > 0 {
      AddSingleTracksUnfold(item, tracks, run);
      InsertSingleTrackSpec(item, tracks[0], run);
      AddSingleTracksKeys(item, tracks[1..], InsertSingleTrack(item, tracks[0], run).value);
    }
  }

  lemma {:induction false} AddSingleTracksRows(item: AlbumItem, tracks: seq<TrackItem>, run: Run)
    requires AddSingleTracks(item, tracks, run).Success?
    ensures var run' := AddSingleTracks(item, tracks, run).value;
            forall t :: t in tracks && t.id !in run.albumTrackIds ==>
              t.id in run'.songs && SingleRow(item, t) == Success(run'.songs[t.id])
    decreases |tracks|
  {
    if |tracks| > 0 {
      AddSingleTracksUnfold(item, tracks, run);
      var run1 := InsertSingleTrack(item, tracks[0], run).value;
      InsertSingleTrackSpec(item, tracks[0], run);
      AddSingleTracksRows(item, tracks[1..], run1);
      AddSingleTracksGrows(item, tracks[1..], run1);
      assert forall u :: u in tracks ==> u == tracks[0] || u in tracks[1..];
    }
  }

  lemma SinglePassUnfold(items: seq<AlbumItem>, tracksOf: TracksOf, run: Run)
    requires |items| > 0 && SinglePass(items, tracksOf, run).Success?
    ensures items[0].albumType == "single" ==>
              tracksOf(items[0].id).Success? &&
              AddSingleTracks(items[0], tracksOf(items[0].id).value, run).Success? &&
              SinglePass(items, tracksOf, run) ==
              SinglePass(items[1..], tracksOf, AddSingleTracks(items[0], tracksOf(items[0].id).value, run).value)
    ensures items[0].albumType != "single" ==>
              SinglePass(items, tracksOf, run) == SinglePass(items[1..], tracksOf, run)
  {
  }

  lemma {:induction false} SinglePassGrows(items: seq<AlbumItem>, tracksOf: TracksOf, run: Run)
    requires SinglePass(items, tracksOf, run).Success?
    ensures var run' := SinglePass(items, tracksOf, run).value;
            Grows(run, run', SinglePassEvent, true) && (RootRows(run) ==> RootRows(run'))
    decreases |items|
  {
    if |items| == 0 {
      assert run.log[..|run.log|] == run.log;
    } else {
      SinglePassUnfold(items, tracksOf, run);
      if items[0].albumType == "single" {
        var run1 := AddSingleTracks(items[0], tracksOf(items[0].id).value, run).value;
        AddSingleTracksGrows(items[0], tracksOf(items[0].id).value, run);
        SinglePassGrows(items[1..], tracksOf, run1);
        GrowsTrans(run, run1, SinglePass(items, tracksOf, run).value, SinglePassEvent, true);
      } else {
        SinglePassGrows(items[1..], tracksOf, run);
      }
    }
  }

  lemma {:induction false} SinglePassSpec(items: seq<AlbumItem>, tracksOf: TracksOf, run: Run)
    requires SinglePass(items, tracksOf, run).Success?
    ensures var run' := SinglePass(items, tracksOf, run).value;
            run'.albums == run.albums && run'.albumTrackIds == run.albumTrackIds &&
            run'.albumsCount == run.albumsCount && run'.albumTracksCount == run.albumTracksCount &&
            run'.singlesCount - |run'.songs| == run.singlesCount - |run.songs|
    decreases |items|
  {
    if |items| > 0 {
      SinglePassUnfold(items, tracksOf, run);
      if items[0].albumType == "single" {
        AddSingleTracksSpec(items[0], tracksOf(items[0].id).value, run);
        SinglePassSpec(items[1..], tracksOf, AddSingleTracks(items[0], tracksOf(items[0].id).value, run).value);
      } else {
        SinglePassSpec(items[1..], tracksOf, run);
      }
    }
  }

  lemma {:induction false} SinglePassKeys(items: seq<AlbumItem>, tracksOf: TracksOf, run: Run)
    requires SinglePass(items, tracksOf, run).Success?
    ensures SinglePass(items, tracksOf, run).value.songs.Keys ==
            run.songs.Keys + (TrackIdsOfType(items, tracksOf, "single") - run.albumTrackIds)
    decreases |items|
  {
    if |items| > 0 {
      SinglePassUnfold(items, tracksOf, run);
      if items[0].albumType == "single" {
        var tracks := tracksOf(items[0].id).value;
        var run1 := AddSingleTracks(items[0], tracks, run).value;
        AddSingleTracksKeys(items[0], tracks, run);
        AddSingleTracksSpec(items[0], tracks, run);
        SinglePassKeys(items[1..], tracksOf, run1);
        TrackIdsOfTypeUnfold(items, tracksOf, "single");
        SetStep(run.songs.Keys, Ids(tracks), TrackIdsOfType(items[1..], tracksOf, "single"), run.albumTrackIds);
      } else {
        SinglePassKeys(items[1..], tracksOf, run);
        TrackIdsOfTypeUnfold(items, tracksOf, "single");
      }
    }
  }

  /** Every single's track that no album holds is stored as a single. */
  lemma {:induction false} SinglePassRows(items: seq<AlbumItem>, tracksOf: TracksOf, run: Run)
    requires SinglePass(items, tracksOf, run).Success?
    ensures var run' := SinglePass(items, tracksOf, run).value;
            forall s :: s in items && s.albumType == "single" ==>
              tracksOf(s.id).Success? &&
              forall t :: t in tracksOf(s.id).value && t.id !in run.albumTrackIds ==>
                t.id in run'.songs && SingleRow(s, t) == Success(run'.songs[t.id])
    decreases |items|
  {
    if |items| > 0 {
      SinglePassUnfold(items, tracksOf, run);
      var s := items[0];
      if s.albumType == "single" {
        var run1 := AddSingleTracks(s, tracksOf(s.id).value, run).value;
        AddSingleTracksRows(s, tracksOf(s.id).value, run);
        AddSingleTracksSpec(s, tracksOf(s.id).value, run);
        SinglePassRows(items[1..], tracksOf, run1);
        SinglePassGrows(items[1..], tracksOf, run1);
      } else {
        SinglePassRows(items[1..], tracksOf, run);
      }
      assert forall x :: x in items ==> x == s || x in items[1..];
    }
  }

  // ---------------------------------------------------------------------------
  // The run as a whole (populate_db.py:22-159). The truncation is committed before
  // anything is fetched, so whatever the tables held before is gone in every case.

  /** The two tables after the run. */
  datatype Tables = Tables(albums: map<string, AlbumRow>, songs: map<string, SongRow>)

  /** How `populate_db()` ends: committed; rolled back by `except Exception`; or left
      by the client's `sys.exit`, which closes the connection without a commit. */
  datatype Outcome = Committed(run: Run) | RolledBack | ExitedWith(code: int)

  function Abort(s: Stop): (o: Outcome)
    ensures !o.Committed?
    ensures o.ExitedWith? <==> s.Exited?
  {
    match s
    case Raised => RolledBack
    case Exited(code) => ExitedWith(code)
  }

  /** Both passes over one album list, from the truncated tables. */
  function Passes(items: seq<AlbumItem>, tracksOf: TracksOf): Result<Run, Stop> {
    match AlbumPass(items, tracksOf, Fresh)
    case Failure(e) => Failure(e)
    case Success(run1) => SinglePass(items, tracksOf, run1)
  }

  /** `fetched` is what `get_all_artist_albums()` returned. */
  function Populate(fetched: Result<seq<AlbumItem>, Stop>, tracksOf: TracksOf): Outcome {
    match fetched
    case Failure(e) => Abort(e)
    case Success(items) =>
      match Passes(items, tracksOf)
      case Failure(e) => Abort(e)
      case Success(run) => Committed(run)
  }

  /** What the tables hold once the connection is closed. */
  function TablesAfter(o: Outcome): (t: Tables)
    ensures !o.Committed? ==> t.albums == map[] && t.songs == map[]
    ensures o.Committed? ==> t.albums.Keys == o.run.albums.Keys && t.songs.Keys == o.run.songs.Keys
  {
    if o.Committed? then Tables(o.run.albums, o.run.songs) else Tables(map[], map[])
  }

  lemma PassesUnfold(items: seq<AlbumItem>, tracksOf: TracksOf)
    requires Passes(items, tracksOf).Success?
    ensures AlbumPass(items, tracksOf, Fresh).Success?
    ensures SinglePass(items, tracksOf, AlbumPass(items, tracksOf, Fresh).value) == Passes(items, tracksOf)
  {
  }

  /** The full albums, each once, each under its own row; the album counter is
      the number of full albums and the number of album rows. */
  lemma PassesAlbums(items: seq<AlbumItem>, tracksOf: TracksOf)
    requires Passes(items, tracksOf).Success?
    ensures var run := Passes(items, tracksOf).value;
            run.albums.Keys == IdsOfType(items, "album") &&
            (forall a :: a in items && a.albumType == "album" ==>
               a.id in run.albums && AlbumRowOf(a) == Success(run.albums[a.id])) &&
            run.albumsCount == CountType(items, "album") == |run.albums|
  {
    PassesUnfold(items, tracksOf);
    var run1 := AlbumPass(items, tracksOf, Fresh).value;
    AlbumPassAlbumKeys(items, tracksOf, Fresh);
    AlbumPassCounts(items, tracksOf, Fresh);
    AlbumPassRows(items, tracksOf, Fresh);
    SinglePassSpec(items, tracksOf, run1);
  }

  /** Every track of every full album is stored as an album track of that album. */
  lemma PassesAlbumTracks(items: seq<AlbumItem>, tracksOf: TracksOf)
    requires Passes(items, tracksOf).Success?
    ensures var run := Passes(items, tracksOf).value;
            run.albumTrackIds == TrackIdsOfType(items, tracksOf, "album") &&
            forall a :: a in items && a.albumType == "album" ==>
              tracksOf(a.id).Success? &&
              forall t :: t in tracksOf(a.id).value ==>
                t.id in run.songs && AlbumTrackRow(a, t) == Success(run.songs[t.id])
  {
    PassesUnfold(items, tracksOf);
    var run1 := AlbumPass(items, tracksOf, Fresh).value;
    AlbumPassKeys(items, tracksOf, Fresh);
    AlbumPassRows(items, tracksOf, Fresh);
    SinglePassSpec(items, tracksOf, run1);
    SinglePassGrows(items, tracksOf, run1);
  }

  /** Every track of every single that no album holds is stored as a single, and
      the songs table holds nothing else. */
  lemma PassesSingles(items: seq<AlbumItem>, tracksOf: TracksOf)
    requires Passes(items, tracksOf).Success?
    ensures var run := Passes(items, tracksOf).value;
            var inAlbums := TrackIdsOfType(items, tracksOf, "album");
            run.songs.Keys == inAlbums + TrackIdsOfType(items, tracksOf, "single") &&
            forall s :: s in items && s.albumType == "single" ==>
              tracksOf(s.id).Success? &&
              forall t :: t in tracksOf(s.id).value && t.id !in inAlbums ==>
                t.id in run.songs && SingleRow(s, t) == Success(run.songs[t.id])
  {
    PassesUnfold(items, tracksOf);
    var run1 := AlbumPass(items, tracksOf, Fresh).value;
    AlbumPassKeys(items, tracksOf, Fresh);
    SinglePassKeys(items, tracksOf, run1);
    SinglePassRows(items, tracksOf, run1);
  }

  /** The deduplication rule of populate_db.py:103: a stored song is a single exactly
      when no full album lists it. */
  lemma PassesDedup(items: seq<AlbumItem>, tracksOf: TracksOf)
    requires Passes(items, tracksOf).Success?
    ensures var run := Passes(items, tracksOf).value;
            run.albumTrackIds <= run.songs.Keys &&
            forall k :: k in run.songs ==> (run.songs[k].isSingle <==> k !in run.albumTrackIds)
  {
    PassesUnfold(items, tracksOf);
    var run1 := AlbumPass(items, tracksOf, Fresh).value;
    var run := Passes(items, tracksOf).value;
    AlbumPassKeys(items, tracksOf, Fresh);
    AlbumPassGrows(items, tracksOf, Fresh);
    SinglePassKeys(items, tracksOf, run1);
    SinglePassSpec(items, tracksOf, run1);
    SinglePassGrows(items, tracksOf, run1);
    forall k | k in run.songs ensures run.songs[k].isSingle <==> k !in run.albumTrackIds {
      if k in run1.songs {
        assert run.songs[k] == run1.songs[k];
      }
    }
  }

  /** The stored songs split into the album tracks and the singles. */
  function NonSingleIds(songs: map<string, SongRow>): set<string> {
    set k | k in songs && !songs[k].isSingle
  }

  function SingleIds(songs: map<string, SongRow>): set<string> {
    set k | k in songs && songs[k].isSingle
  }

  lemma SplitCard(a: set<string>, b: set<string>)
    requires b <= a
    ensures |a - b| == |a| - |b|
  {
    assert a == (a - b) + b;
  }

  /** The three counters printed after the commit equal the three COUNT queries
      of populate_db.py:141-146. */
  lemma PassesCounts(items: seq<AlbumItem>, tracksOf: TracksOf)
    requires Passes(items, tracksOf).Success?
    ensures var run := Passes(items, tracksOf).value;
            run.albumsCount == |run.albums| &&
            NonSingleIds(run.songs) == run.albumTrackIds &&
            run.albumTracksCount == |NonSingleIds(run.songs)| &&
            SingleIds(run.songs) == run.songs.Keys - run.albumTrackIds &&
            run.singlesCount == |SingleIds(run.songs)|
  {
    PassesUnfold(items, tracksOf);
    var run1 := AlbumPass(items, tracksOf, Fresh).value;
    var run := Passes(items, tracksOf).value;
    PassesAlbums(items, tracksOf);
    PassesDedup(items, tracksOf);
    AlbumPassKeys(items, tracksOf, Fresh);
    AlbumPassCounts(items, tracksOf, Fresh);
    SinglePassSpec(items, tracksOf, run1);
    assert |run1.songs| == |run1.songs.Keys| == |run.albumTrackIds|;
    SplitCard(run.songs.Keys, run.albumTrackIds);
    assert |run.songs| == |run.songs.Keys|;
  }

  /** Every album line is printed before every single line. */
  lemma PassesOrder(items: seq<AlbumItem>, tracksOf: TracksOf)
    requires Passes(items, tracksOf).Success?
    ensures var log := Passes(items, tracksOf).value.log;
            forall i, j :: 0 <= i < j < |log| && SinglePassEvent(log[i]) ==> SinglePassEvent(log[j])
  {
    PassesUnfold(items, tracksOf);
    var run1 := AlbumPass(items, tracksOf, Fresh).value;
    var log := Passes(items, tracksOf).value.log;
    AlbumPassGrows(items, tracksOf, Fresh);
    SinglePassGrows(items, tracksOf, run1);
    var i := |run1.log|;
    forall j | 0 <= j < i ensures AlbumPassEvent(log[j]) {
      assert log[j] == log[..i][j];
    }
  }

  /** Every stored row fits the root schema (model.py): album rows pass its CHECK,
      and song rows keep their album id and track number, NULL for a single. */
  lemma PassesFitRootSchema(items: seq<AlbumItem>, tracksOf: TracksOf)
    requires Passes(items, tracksOf).Success?
    ensures var run := Passes(items, tracksOf).value;
            (forall k :: k in run.albums ==>
               Schema.CheckRow(Schema.RootAlbums, Schema.RootAlbumValues(run.albums[k])).Success?) &&
            (forall k :: k in run.songs ==>
               Schema.CheckRow(Schema.RootSongs, Schema.RootSongValues(run.songs[k])).Success? &&
               (run.songs[k].isSingle <==>
                  Schema.CheckRow(Schema.RootSongs, Schema.RootSongValues(run.songs[k])).value[Schema.AlbumIdCol] == Schema.Null))
  {
    PassesUnfold(items, tracksOf);
    var run1 := AlbumPass(items, tracksOf, Fresh).value;
    var run := Passes(items, tracksOf).value;
    AlbumPassGrows(items, tracksOf, Fresh);
    SinglePassGrows(items, tracksOf, run1);
    forall k | k in run.albums
      ensures Schema.CheckRow(Schema.RootAlbums, Schema.RootAlbumValues(run.albums[k])).Success?
    {
      Schema.RootAlbumsAccept(run.albums[k]);
    }
    forall k | k in run.songs
      ensures Schema.CheckRow(Schema.RootSongs, Schema.RootSongValues(run.songs[k])).Success? &&
              (run.songs[k].isSingle <==>
                 Schema.CheckRow(Schema.RootSongs, Schema.RootSongValues(run.songs[k])).value[Schema.AlbumIdCol] == Schema.Null)
    {
      Schema.RootSongsAccept(run.songs[k]);
    }
  }

  // ---------------------------------------------------------------------------
  // Items of any other type (a compilation) are never looked at.

  function Relevant(items: seq<AlbumItem>): (r: seq<AlbumItem>)
    ensures forall a :: a in r <==> a in items && (a.albumType == "album" || a.albumType == "single")
  {
    if |items| == 0 then []
    else
      assert forall a :: a in items <==> a == items[0] || a in items[1..];
      (if items[0].albumType == "album" || items[0].albumType == "single" then [items[0]] else []) +
      Relevant(items[1..])
  }

  lemma {:induction false} AlbumPassIgnoresOthers(items: seq<AlbumItem>, tracksOf: TracksOf, run: Run)
    ensures AlbumPass(items, tracksOf, run) == AlbumPass(Relevant(items), tracksOf, run)
    decreases |items|
  {
    if |items| > 0 {
      var rest := Relevant(items[1..]);
      if items[0].albumType == "album" {
        assert Relevant(items) == [items[0]] + rest;
        assert Relevant(items)[1..] == rest;
        match ProcessAlbum(items[0], tracksOf, run)
        case Failure(_) =>
        case Success(run1) => AlbumPassIgnoresOthers(items[1..], tracksOf, run1);
      } else if items[0].albumType == "single" {
        assert Relevant(items) == [items[0]] + rest;
        assert Relevant(items)[1..] == rest;
        AlbumPassIgnoresOthers(items[1..], tracksOf, run);
      } else {
        assert Relevant(items) == rest;
        AlbumPassIgnoresOthers(items[1..], tracksOf, run);
      }
    }
  }

  lemma {:induction false} SinglePassIgnoresOthers(items: seq<AlbumItem>, tracksOf: TracksOf, run: Run)
    ensures SinglePass(items, tracksOf, run) == SinglePass(Relevant(items), tracksOf, run)
    decreases |items|
  {
    if |items| > 0 {
      var rest := Relevant(items[1..]);
      if items[0].albumType == "single" {
        assert Relevant(items) == [items[0]] + rest;
        assert Relevant(items)[1..] == rest;
        if tracksOf(items[0].id).Success? {
          match AddSingleTracks(items[0], tracksOf(items[0].id).value, run)
          case Failure(_) =>
          case Success(run1) => SinglePassIgnoresOthers(items[1..], tracksOf, run1);
        }
      } else if items[0].albumType == "album" {
        assert Relevant(items) == [items[0]] + rest;
        assert Relevant(items)[1..] == rest;
        SinglePassIgnoresOthers(items[1..], tracksOf, run);
      } else {
        assert Relevant(items) == rest;
        SinglePassIgnoresOthers(items[1..], tracksOf, run);
      }
    }
  }

  /** Compilations and any other album type change nothing. */
  lemma PopulateIgnoresOthers(items: seq<AlbumItem>, tracksOf: TracksOf)
    ensures Populate(Success(items), tracksOf) == Populate(Success(Relevant(items)), tracksOf)
  {
    AlbumPassIgnoresOthers(items, tracksOf, Fresh);
    if AlbumPass(items, tracksOf, Fresh).Success? {
      SinglePassIgnoresOthers(items, tracksOf, AlbumPass(items, tracksOf, Fresh).value);
    }
  }

  // ---------------------------------------------------------------------------
  // When the run commits (populate_db.py:56,86,120,153-156). Every INSERT is plain,
  // so a primary key met twice raises, and the `except` rolls the whole run back.

  /** The ids of a track list, in order. */
  function TrackIds(tracks: seq<TrackItem>): (r: seq<string>)
    ensures |r| == |tracks| && forall i :: 0 <= i < |tracks| ==> r[i] == tracks[i].id
    decreases |tracks|
  {
    if |tracks| == 0 then [] else [tracks[0].id] + TrackIds(tracks[1..])
  }

  /** The ids of the tracks the second pass inserts: those no album holds. */
  function KeptIds(tracks: seq<TrackItem>, held: set<string>): seq<string>
    decreases |tracks|
  {
    if |tracks| == 0 then []
    else (if tracks[0].id in held then [] else [tracks[0].id]) + KeptIds(tracks[1..], held)
  }

  /** An item's fetched track list, empty when the fetch fails. */
  function FetchedTracks(a: AlbumItem, tracksOf: TracksOf): seq<TrackItem> {
    if tracksOf(a.id).Success? then tracksOf(a.id).value else []
  }

  /** The ids of the full albums, in list order. */
  function FullIds(items: seq<AlbumItem>): seq<string> {
    if |items| == 0 then []
    else (if items[0].albumType == "album" then [items[0].id] else []) + FullIds(items[1..])
  }

  /** The ids of the full albums' tracks, album after album. */
  function FullTrackIds(items: seq<AlbumItem>, tracksOf: TracksOf): seq<string> {
    if |items| == 0 then []
    else (if items[0].albumType == "album" then TrackIds(FetchedTracks(items[0], tracksOf)) else []) +
         FullTrackIds(items[1..], tracksOf)
  }

  /** The ids of the singles' tracks that no album holds, single after single. */
  function SingleTrackIds(items: seq<AlbumItem>, tracksOf: TracksOf, held: set<string>): seq<string> {
    if |items| == 0 then []
    else (if items[0].albumType == "single" then KeptIds(FetchedTracks(items[0], tracksOf), held) else []) +
         SingleTrackIds(items[1..], tracksOf, held)
  }

  function HeldIds(items: seq<AlbumItem>, tracksOf: TracksOf): set<string> {
    set k | k in FullTrackIds(items, tracksOf)
  }

  predicate Disjoint(s: seq<string>, keys: set<string>) {
    forall k :: k in s ==> k !in keys
  }

  /** What the first pass needs of a full album: three images, its track list, and
      a track number on every track. */
  predicate AlbumLoads(a: AlbumItem, tracksOf: TracksOf) {
    |a.images| >= 3 && tracksOf(a.id).Success? &&
    forall t :: t in tracksOf(a.id).value ==> t.trackNumber.Some?
  }

  /** What the second pass needs of a single: its track list, and three images when
      it has a track to insert. */
  predicate SingleLoads(a: AlbumItem, tracksOf: TracksOf, held: set<string>) {
    tracksOf(a.id).Success? && (|KeptIds(tracksOf(a.id).value, held)| == 0 || |a.images| >= 3)
  }

  /** The album list loads: every full album and every single can be read, and no
      key is inserted twice: no album id, no album track id, and no id of a single's
      track outside the albums. */
  predicate Loads(items: seq<AlbumItem>, tracksOf: TracksOf) {
    (forall a :: a in items && a.albumType == "album" ==> AlbumLoads(a, tracksOf)) &&
    (forall a :: a in items && a.albumType == "single" ==> SingleLoads(a, tracksOf, HeldIds(items, tracksOf))) &&
    Lists.Distinct(FullIds(items)) && Lists.Distinct(FullTrackIds(items, tracksOf)) &&
    Lists.Distinct(SingleTrackIds(items, tracksOf, HeldIds(items, tracksOf)))
  }

  /** The first pass from given keys: `Loads`' album half, with the keys already taken. */
  predicate AlbumPassFits(items: seq<AlbumItem>, tracksOf: TracksOf, albums: set<string>, songs: set<string>) {
    (forall a :: a in items && a.albumType == "album" ==> AlbumLoads(a, tracksOf)) &&
    Lists.Distinct(FullIds(items)) && Disjoint(FullIds(items), albums) &&
    Lists.Distinct(FullTrackIds(items, tracksOf)) && Disjoint(FullTrackIds(items, tracksOf), songs)
  }

  /** The second pass from given keys: `Loads`' singles half. */
  predicate SinglePassFits(items: seq<AlbumItem>, tracksOf: TracksOf, held: set<string>, songs: set<string>) {
    (forall a :: a in items && a.albumType == "single" ==> SingleLoads(a, tracksOf, held)) &&
    Lists.Distinct(SingleTrackIds(items, tracksOf, held)) && Disjoint(SingleTrackIds(items, tracksOf, held), songs)
  }

  lemma {:induction false} TrackIdsSet(tracks: seq<TrackItem>)
    ensures forall k :: k in TrackIds(tracks) <==> k in Ids(tracks)
    decreases |tracks|
  {
    if |tracks| > 0 {
      TrackIdsSet(tracks[1..]);
      assert TrackIds(tracks) == [tracks[0].id] + TrackIds(tracks[1..]);
    }
  }

  lemma {:induction false} KeptIdsSet(tracks: seq<TrackItem>, held: set<string>)
    ensures forall k :: k in KeptIds(tracks, held) <==> k in Ids(tracks) && k !in held
    decreases |tracks|
  {
    if |tracks| > 0 {
      KeptIdsSet(tracks[1..], held);
    }
  }

  lemma {:induction false} FullTrackIdsSet(items: seq<AlbumItem>, tracksOf: TracksOf)
    ensures HeldIds(items, tracksOf) == TrackIdsOfType(items, tracksOf, "album")
    decreases |items|
  {
    if |items| > 0 {
      FullTrackIdsSet(items[1..], tracksOf);
      TrackIdsOfTypeUnfold(items, tracksOf, "album");
      TrackIdsSet(FetchedTracks(items[0], tracksOf));
    }
  }

  lemma {:induction false} SingleTrackIdsNotHeld(items: seq<AlbumItem>, tracksOf: TracksOf, held: set<string>)
    ensures Disjoint(SingleTrackIds(items, tracksOf, held), held)
    decreases |items|
  {
    if |items| > 0 {
      SingleTrackIdsNotHeld(items[1..], tracksOf, held);
      KeptIdsSet(FetchedTracks(items[0], tracksOf), held);
    }
  }

  /** An album's tracks all insert exactly when each has a track number and their ids
      are new and pairwise distinct. */
  lemma {:induction false} AddAlbumTracksIff(item: AlbumItem, tracks: seq<TrackItem>, run: Run)
    requires |item.images| >= 3
    ensures AddAlbumTracks(item, tracks, run).Success? <==>
            (forall t :: t in tracks ==> t.trackNumber.Some?) &&
            Lists.Distinct(TrackIds(tracks)) && Disjoint(TrackIds(tracks), run.songs.Keys)
    decreases |tracks|
  {
    if |tracks| > 0 {
      var t := tracks[0];
      var rest := tracks[1..];
      assert TrackIds(tracks) == [t.id] + TrackIds(rest);
      Lists.DistinctCons(t.id, TrackIds(rest));
      assert forall u :: u in tracks <==> u == t || u in rest;
      if InsertAlbumTrack(item, t, run).Success? {
        var run1 := InsertAlbumTrack(item, t, run).value;
        InsertAlbumTrackKeys(item, t, run);
        AddAlbumTracksIff(item, rest, run1);
      }
    }
  }

  lemma ProcessAlbumIff(item: AlbumItem, tracksOf: TracksOf, run: Run)
    ensures ProcessAlbum(item, tracksOf, run).Success? <==>
            AlbumLoads(item, tracksOf) && item.id !in run.albums &&
            Lists.Distinct(TrackIds(tracksOf(item.id).value)) &&
            Disjoint(TrackIds(tracksOf(item.id).value), run.songs.Keys)
  {
    if InsertAlbum(item, run).Success? && tracksOf(item.id).Success? {
      InsertAlbumSpec(item, run);
      AddAlbumTracksIff(item, tracksOf(item.id).value, InsertAlbum(item, run).value);
    }
  }

  lemma AlbumFitsStep(items: seq<AlbumItem>, tracksOf: TracksOf, albums: set<string>, songs: set<string>)
    requires |items| > 0 && items[0].albumType == "album" && AlbumLoads(items[0], tracksOf)
    ensures var ts := tracksOf(items[0].id).value;
            AlbumPassFits(items, tracksOf, albums, songs) <==>
              items[0].id !in albums && Lists.Distinct(TrackIds(ts)) && Disjoint(TrackIds(ts), songs) &&
              AlbumPassFits(items[1..], tracksOf, albums + {items[0].id}, songs + Ids(ts))
  {
    var x := items[0];
    var rest := items[1..];
    var ts := TrackIds(tracksOf(x.id).value);
    assert FullIds(items) == [x.id] + FullIds(rest);
    assert FullTrackIds(items, tracksOf) == ts + FullTrackIds(rest, tracksOf);
    Lists.DistinctCons(x.id, FullIds(rest));
    Lists.DistinctAppend(ts, FullTrackIds(rest, tracksOf));
    TrackIdsSet(tracksOf(x.id).value);
    assert forall a :: a in items <==> a == x || a in rest;
  }

  lemma AlbumFitsSkip(items: seq<AlbumItem>, tracksOf: TracksOf, albums: set<string>, songs: set<string>)
    requires |items| > 0 && items[0].albumType != "album"
    ensures AlbumPassFits(items, tracksOf, albums, songs) <==> AlbumPassFits(items[1..], tracksOf, albums, songs)
  {
    assert FullIds(items) == FullIds(items[1..]);
    assert FullTrackIds(items, tracksOf) == FullTrackIds(items[1..], tracksOf);
    assert forall a :: a in items <==> a == items[0] || a in items[1..];
  }

  /** The first pass finishes exactly when its part of `Loads` holds for the keys
      already taken. */
  lemma {:induction false} AlbumPassIff(items: seq<AlbumItem>, tracksOf: TracksOf, run: Run)
    ensures AlbumPass(items, tracksOf, run).Success? <==> AlbumPassFits(items, tracksOf, run.albums.Keys, run.songs.Keys)
    decreases |items|
  {
    if |items| > 0 {
      var x := items[0];
      if x.albumType != "album" {
        AlbumFitsSkip(items, tracksOf, run.albums.Keys, run.songs.Keys);
        AlbumPassIff(items[1..], tracksOf, run);
      } else {
        ProcessAlbumIff(x, tracksOf, run);
        if AlbumLoads(x, tracksOf) {
          AlbumFitsStep(items, tracksOf, run.albums.Keys, run.songs.Keys);
          if ProcessAlbum(x, tracksOf, run).Success? {
            var run1 := ProcessAlbum(x, tracksOf, run).value;
            ProcessAlbumAlbumKeys(x, tracksOf, run);
            ProcessAlbumKeys(x, tracksOf, run);
            AlbumPassIff(items[1..], tracksOf, run1);
          }
        }
      }
    }
  }

  /** A single's tracks all insert exactly when those no album holds have new,
      pairwise distinct ids, and the single has three images if there are any. */
  lemma {:induction false} AddSingleTracksIff(item: AlbumItem, tracks: seq<TrackItem>, run: Run)
    ensures var kept := KeptIds(tracks, run.albumTrackIds);
            AddSingleTracks(item, tracks, run).Success? <==>
            (|kept| == 0 || |item.images| >= 3) && Lists.Distinct(kept) && Disjoint(kept, run.songs.Keys)
    decreases |tracks|
  {
    if |tracks| > 0 {
      var t := tracks[0];
      var rest := tracks[1..];
      var held := run.albumTrackIds;
      if t.id in held {
        assert KeptIds(tracks, held) == KeptIds(rest, held);
        var run1 := InsertSingleTrack(item, t, run).value;
        assert run1.albumTrackIds == held && run1.songs == run.songs;
        AddSingleTracksIff(item, rest, run1);
      } else {
        assert KeptIds(tracks, held) == [t.id] + KeptIds(rest, held);
        Lists.DistinctCons(t.id, KeptIds(rest, held));
        if InsertSingleTrack(item, t, run).Success? {
          var run1 := InsertSingleTrack(item, t, run).value;
          InsertSingleTrackSpec(item, t, run);
          assert |item.images| >= 3;
          AddSingleTracksIff(item, rest, run1);
        }
      }
    }
  }

  lemma SingleFitsStep(items: seq<AlbumItem>, tracksOf: TracksOf, held: set<string>, songs: set<string>)
    requires |items| > 0 && items[0].albumType == "single" && tracksOf(items[0].id).Success?
    ensures var ts := tracksOf(items[0].id).value;
            var kept := KeptIds(ts, held);
            SinglePassFits(items, tracksOf, held, songs) <==>
              (|kept| == 0 || |items[0].images| >= 3) && Lists.Distinct(kept) && Disjoint(kept, songs) &&
              SinglePassFits(items[1..], tracksOf, held, songs + (Ids(ts) - held))
  {
    var x := items[0];
    var rest := items[1..];
    var ts := tracksOf(x.id).value;
    var kept := KeptIds(ts, held);
    assert SingleTrackIds(items, tracksOf, held) == kept + SingleTrackIds(rest, tracksOf, held);
    Lists.DistinctAppend(kept, SingleTrackIds(rest, tracksOf, held));
    KeptIdsSet(ts, held);
    SingleTrackIdsNotHeld(rest, tracksOf, held);
    assert forall a :: a in items <==> a == x || a in rest;
  }

  lemma SingleFitsSkip(items: seq<AlbumItem>, tracksOf: TracksOf, held: set<string>, songs: set<string>)
    requires |items| > 0 && items[0].albumType != "single"
    ensures SinglePassFits(items, tracksOf, held, songs) <==> SinglePassFits(items[1..], tracksOf, held, songs)
  {
    assert SingleTrackIds(items, tracksOf, held) == SingleTrackIds(items[1..], tracksOf, held);
    assert forall a :: a in items <==> a == items[0] || a in items[1..];
  }

  /** The second pass finishes exactly when its part of `Loads` holds for the keys
      already taken. */
  lemma {:induction false} SinglePassIff(items: seq<AlbumItem>, tracksOf: TracksOf, run: Run)
    ensures SinglePass(items, tracksOf, run).Success? <==>
            SinglePassFits(items, tracksOf, run.albumTrackIds, run.songs.Keys)
    decreases |items|
  {
    if |items| > 0 {
      var x := items[0];
      if x.albumType != "single" {
        SingleFitsSkip(items, tracksOf, run.albumTrackIds, run.songs.Keys);
        SinglePassIff(items[1..], tracksOf, run);
      } else if tracksOf(x.id).Success? {
        var ts := tracksOf(x.id).value;
        SingleFitsStep(items, tracksOf, run.albumTrackIds, run.songs.Keys);
        AddSingleTracksIff(x, ts, run);
        if AddSingleTracks(x, ts, run).Success? {
          var run1 := AddSingleTracks(x, ts, run).value;
          AddSingleTracksKeys(x, ts, run);
          AddSingleTracksSpec(x, ts, run);
          SinglePassIff(items[1..], tracksOf, run1);
        }
      } else {
        assert x in items;
      }
    }
  }

  /** A run commits exactly when the album list was fetched and loads: every full
      album and every single can be read, and no primary key is inserted twice.
      Otherwise the rows are rolled back, or never committed before the exit, and
      both tables are left empty, since the truncation was committed first. */
  lemma PopulateCommitsIff(fetched: Result<seq<AlbumItem>, Stop>, tracksOf: TracksOf)
    ensures Populate(fetched, tracksOf).Committed? <==> fetched.Success? && Loads(fetched.value, tracksOf)
    ensures !Populate(fetched, tracksOf).Committed? ==> TablesAfter(Populate(fetched, tracksOf)) == Tables(map[], map[])
  {
    if fetched.Success? {
      var items := fetched.value;
      var held := HeldIds(items, tracksOf);
      AlbumPassIff(items, tracksOf, Fresh);
      assert Fresh.albums.Keys == {} && Fresh.songs.Keys == {};
      if AlbumPass(items, tracksOf, Fresh).Success? {
        var run1 := AlbumPass(items, tracksOf, Fresh).value;
        AlbumPassKeys(items, tracksOf, Fresh);
        FullTrackIdsSet(items, tracksOf);
        assert run1.albumTrackIds == held && run1.songs.Keys == held;
        SinglePassIff(items, tracksOf, run1);
        SingleTrackIdsNotHeld(items, tracksOf, held);
      }
    }
  }

  /** A key inserted twice rolls the run back: two full albums with one id, a track
      id met twice among the albums' tracks, or two singles' tracks outside the
      albums with one id. Both tables end empty. */
  lemma RepeatedKeyRollsBack(items: seq<AlbumItem>, tracksOf: TracksOf)
    requires !Lists.Distinct(FullIds(items)) || !Lists.Distinct(FullTrackIds(items, tracksOf)) ||
             !Lists.Distinct(SingleTrackIds(items, tracksOf, HeldIds(items, tracksOf)))
    ensures !Populate(Success(items), tracksOf).Committed?
    ensures TablesAfter(Populate(Success(items), tracksOf)) == Tables(map[], map[])
  {
    PopulateCommitsIff(Success(items), tracksOf);
  }

  /** The same full album listed twice never commits. */
  lemma RepeatedAlbumRollsBack(a: AlbumItem, tracksOf: TracksOf)
    requires a.albumType == "album"
    ensures !Populate(Success([a, a]), tracksOf).Committed?
  {
    assert FullIds([a]) == [a.id] by {
      assert [a][1..] == [];
    }
    assert FullIds([a, a]) == [a.id] + FullIds([a]) by {
      assert [a, a][1..] == [a];
    }
    var ids := FullIds([a, a]);
    assert ids == [a.id] + [a.id];
    assert |ids| == 2 && ids[0] == ids[1];
    assert !Lists.Distinct(ids);
    RepeatedKeyRollsBack([a, a], tracksOf);
  }
}
