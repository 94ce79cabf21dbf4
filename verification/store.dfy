/** The data manager of artistrack/data/data_manager.py as its INSERT and SELECT
    statements intend it: rows derived from API items, upserted into tables
    keyed by id, and read back filtered by artist, ordered by release date or
    looked up by title. The dataclass and schema mismatches that stop the code
    as written are stated in the Records and Schema modules. */
module Store {
  import opened Wrappers
  import opened Text
  import opened Catalog
  import opened Duration
  import Sorting
  import Schema

  /** The three tables, each keyed by its primary key. */
  datatype Store = Store(
    artists: map<string, ArtistRow>,
    albums: map<string, AlbumRow>,
    songs: map<string, SongRow>)

  const Empty := Store(map[], map[], map[])

  /** What every save keeps true: each row sits under its own id and carries the QR
      link of its URI, and a song is a single exactly when it has no album. */
  predicate Consistent(st: Store) {
    (forall k :: k in st.artists ==> st.artists[k].artistId == k) &&
    (forall k :: k in st.albums ==> st.albums[k].albumId == k &&
                                    st.albums[k].qrCodeUrl == Some(QrUrl(st.albums[k].spotifyUri))) &&
    (forall k :: k in st.songs ==> st.songs[k].songId == k &&
                                   st.songs[k].qrCodeUrl == Some(QrUrl(st.songs[k].spotifyUri)) &&
                                   (st.songs[k].isSingle <==> st.songs[k].albumId.None?))
  }

  // ---------------------------------------------------------------------------
  // Deriving rows (data_manager.py:27-35, 59-72, 98-120).

  /** `images[i]['url'] if images and len(images) > i else ''`. */
  function ImageOrBlank(images: Option<seq<string>>, i: nat): string {
    if images.Some? && i < |images.value| then images.value[i] else ""
  }

  function ArtistRowOf(a: ArtistItem): ArtistRow {
    ArtistRow(a.id, a.name, a.spotifyUrl, a.uri,
      ImageOrBlank(a.images, 0), ImageOrBlank(a.images, 1), ImageOrBlank(a.images, 2))
  }

  /** The album row, or the IndexError of an item with fewer than three images. */
  function AlbumRowOf(a: AlbumItem, artistId: string): Result<AlbumRow, ItemError> {
    match ThreeImages(a.images)
    case Failure(e) => Failure(e)
    case Success((large, medium, thumb)) =>
      Success(AlbumRow(a.id, Some(artistId), a.name, a.releaseDate, a.totalTracks,
        a.spotifyUrl, a.uri, Some(QrUrl(a.uri)), a.albumType, large, medium, thumb))
  }

  /** Song images: blank without an `images` key, else the first three, unguarded. */
  function SongImages(images: Option<seq<string>>): Result<(string, string, string), ItemError> {
    match images
    case None => Success(("", "", ""))
    case Some(imgs) => ThreeImages(imgs)
  }

  function SongRowOf(t: TrackItem, artistId: string, albumId: Option<string>): Result<SongRow, ItemError> {
    match SongImages(t.images)
    case Failure(e) => Failure(e)
    case Success((large, medium, thumb)) =>
      Success(SongRow(t.id, Some(artistId), albumId, t.name, t.releaseDate.GetOr(""),
        t.trackNumber, t.durationMs, FromMillis(t.durationMs), t.spotifyUrl, t.uri,
        Some(QrUrl(t.uri)), albumId.None?, large, medium, thumb))
  }

  /** Artist images fall back to '' when the list is absent or too short. */
  lemma ArtistRowImages(a: ArtistItem)
    ensures var r := ArtistRowOf(a);
            r.artistId == a.id && r.name == a.name && r.spotifyUri == a.uri &&
            (a.images.Some? && |a.images.value| >= 1 ==> r.imageLarge == a.images.value[0]) &&
            (a.images.Some? && |a.images.value| >= 2 ==> r.imageMedium == a.images.value[1]) &&
            (a.images.Some? && |a.images.value| >= 3 ==> r.imageThumb == a.images.value[2]) &&
            (a.images.None? ==> r.imageLarge == r.imageMedium == r.imageThumb == "") &&
            (a.images.Some? && |a.images.value| < 2 ==> r.imageMedium == "" && r.imageThumb == "") &&
            (a.images.Some? && |a.images.value| < 3 ==> r.imageThumb == "")
  {
  }

  /** An album item becomes a row exactly when it has three images; the row keeps the
      item's fields, takes the given artist and the QR link of the item's URI. */
  lemma AlbumRowOfSpec(a: AlbumItem, artistId: string)
    ensures AlbumRowOf(a, artistId).Success? <==> |a.images| >= 3
    ensures AlbumRowOf(a, artistId).Failure? ==>
              AlbumRowOf(a, artistId).error == MissingImage(|a.images|)
    ensures AlbumRowOf(a, artistId).Success? ==>
              var r := AlbumRowOf(a, artistId).value;
              r.albumId == a.id && r.artistId == Some(artistId) && r.name == a.name &&
              r.releaseDate == a.releaseDate && r.trackCount == a.totalTracks &&
              r.spotifyUrl == a.spotifyUrl && r.spotifyUri == a.uri && r.albumType == a.albumType &&
              r.qrCodeUrl == Some(QrPrefix + a.uri) &&
              [r.imageLarge, r.imageMedium, r.imageThumb] == a.images[..3]
  {
  }

  /** A track becomes a row unless it carries fewer than three images; the row is a
      single exactly when no album is given, a missing date is '' and a missing track
      number stays missing, and the duration text reads back as the whole minutes and
      seconds of the track. */
  lemma SongRowOfSpec(t: TrackItem, artistId: string, albumId: Option<string>)
    ensures SongRowOf(t, artistId, albumId).Success? <==> t.images.None? || |t.images.value| >= 3
    ensures SongRowOf(t, artistId, albumId).Success? ==>
              var r := SongRowOf(t, artistId, albumId).value;
              r.songId == t.id && r.artistId == Some(artistId) && r.albumId == albumId &&
              (r.isSingle <==> albumId.None?) &&
              (t.releaseDate.None? ==> r.releaseDate == "") &&
              (t.releaseDate.Some? ==> r.releaseDate == t.releaseDate.value) &&
              r.trackNumber == t.trackNumber && r.durationMs == t.durationMs &&
              r.qrCodeUrl == Some(QrPrefix + t.uri) &&
              (t.images.None? ==> r.imageLarge == r.imageMedium == r.imageThumb == "") &&
              (t.images.Some? ==> [r.imageLarge, r.imageMedium, r.imageThumb] == t.images.value[..3]) &&
              ParseClock(r.duration).Some? &&
              var (m, s) := ParseClock(r.duration).value;
              s < 60 && m * 60000 + s * 1000 <= t.durationMs < m * 60000 + s * 1000 + 1000
  {
    SongRowFields(t, artistId, albumId);
    SongRowImages(t, artistId, albumId);
    SongRowDuration(t, artistId, albumId);
  }

  lemma SongRowFields(t: TrackItem, artistId: string, albumId: Option<string>)
    ensures SongRowOf(t, artistId, albumId).Success? <==> t.images.None? || |t.images.value| >= 3
    ensures SongRowOf(t, artistId, albumId).Success? ==>
              var r := SongRowOf(t, artistId, albumId).value;
              r.songId == t.id && r.artistId == Some(artistId) && r.albumId == albumId &&
              (r.isSingle <==> albumId.None?) &&
              r.releaseDate == t.releaseDate.GetOr("") &&
              r.trackNumber == t.trackNumber && r.durationMs == t.durationMs &&
              r.qrCodeUrl == Some(QrPrefix + t.uri) && r.duration == FromMillis(t.durationMs)
  {
  }

  lemma SongRowImages(t: TrackItem, artistId: string, albumId: Option<string>)
    ensures SongRowOf(t, artistId, albumId).Success? ==>
              var r := SongRowOf(t, artistId, albumId).value;
              (t.images.None? ==> r.imageLarge == r.imageMedium == r.imageThumb == "") &&
              (t.images.Some? ==> [r.imageLarge, r.imageMedium, r.imageThumb] == t.images.value[..3])
  {
  }

  lemma SongRowDuration(t: TrackItem, artistId: string, albumId: Option<string>)
    ensures SongRowOf(t, artistId, albumId).Success? ==>
              var r := SongRowOf(t, artistId, albumId).value;
              ParseClock(r.duration).Some? &&
              var (m, s) := ParseClock(r.duration).value;
              s < 60 && m * 60000 + s * 1000 <= t.durationMs < m * 60000 + s * 1000 + 1000
  {
    FromMillisMeaning(t.durationMs);
  }

  // ---------------------------------------------------------------------------
  // Upserts: INSERT OR REPLACE keyed by id (data_manager.py:38-47, 75-86, 123-136).

  function SaveArtist(st: Store, a: ArtistItem): (Store, ArtistRow) {
    var r := ArtistRowOf(a);
    (st.(artists := st.artists[a.id := r]), r)
  }

  /** A failed derivation raises before the connection writes anything. */
  function SaveAlbum(st: Store, a: AlbumItem, artistId: string): Result<(Store, AlbumRow), ItemError> {
    match AlbumRowOf(a, artistId)
    case Failure(e) => Failure(e)
    case Success(r) => Success((st.(albums := st.albums[a.id := r]), r))
  }

  function SaveSong(st: Store, t: TrackItem, artistId: string, albumId: Option<string>): Result<(Store, SongRow), ItemError> {
    match SongRowOf(t, artistId, albumId)
    case Failure(e) => Failure(e)
    case Success(r) => Success((st.(songs := st.songs[t.id := r]), r))
  }

  /** Each save replaces the row under the item's id and touches nothing else. */
  lemma SaveEffect(st: Store, ar: ArtistItem, al: AlbumItem, t: TrackItem, artistId: string, albumId: Option<string>)
    ensures var (st', r) := SaveArtist(st, ar);
            st'.artists.Keys == st.artists.Keys + {ar.id} && st'.artists[ar.id] == r &&
            (forall k :: k in st.artists && k != ar.id ==> st'.artists[k] == st.artists[k]) &&
            st'.albums == st.albums && st'.songs == st.songs
    ensures SaveAlbum(st, al, artistId).Success? ==>
            var (st', r) := SaveAlbum(st, al, artistId).value;
            st'.albums.Keys == st.albums.Keys + {al.id} && st'.albums[al.id] == r &&
            (forall k :: k in st.albums && k != al.id ==> st'.albums[k] == st.albums[k]) &&
            st'.artists == st.artists && st'.songs == st.songs
    ensures SaveSong(st, t, artistId, albumId).Success? ==>
            var (st', r) := SaveSong(st, t, artistId, albumId).value;
            st'.songs.Keys == st.songs.Keys + {t.id} && st'.songs[t.id] == r &&
            (forall k :: k in st.songs && k != t.id ==> st'.songs[k] == st.songs[k]) &&
            st'.artists == st.artists && st'.albums == st.albums
  {
  }

  /** Saving the same record twice leaves the store as saving it once. */
  lemma SaveIdempotent(st: Store, ar: ArtistItem, al: AlbumItem, t: TrackItem, artistId: string, albumId: Option<string>)
    ensures SaveArtist(SaveArtist(st, ar).0, ar) == SaveArtist(st, ar)
    ensures SaveAlbum(st, al, artistId).Success? ==>
              SaveAlbum(SaveAlbum(st, al, artistId).value.0, al, artistId) == SaveAlbum(st, al, artistId)
    ensures SaveSong(st, t, artistId, albumId).Success? ==>
              SaveSong(SaveSong(st, t, artistId, albumId).value.0, t, artistId, albumId) ==
              SaveSong(st, t, artistId, albumId)
  {
    var r := ArtistRowOf(ar);
    assert st.artists[ar.id := r][ar.id := r] == st.artists[ar.id := r];
    if SaveAlbum(st, al, artistId).Success? {
      var ra := AlbumRowOf(al, artistId).value;
      assert st.albums[al.id := ra][al.id := ra] == st.albums[al.id := ra];
    }
    if SaveSong(st, t, artistId, albumId).Success? {
      var rs := SongRowOf(t, artistId, albumId).value;
      assert st.songs[t.id := rs][t.id := rs] == st.songs[t.id := rs];
    }
  }

  lemma EmptyConsistent()
    ensures Consistent(Empty)
  {
  }

  /** The saves keep the store consistent. */
  lemma SaveArtistConsistent(st: Store, a: ArtistItem)
    requires Consistent(st)
    ensures Consistent(SaveArtist(st, a).0)
  {
    var st' := SaveArtist(st, a).0;
    assert forall k :: k in st'.artists ==> st'.artists[k].artistId == k;
  }

  lemma SaveAlbumConsistent(st: Store, a: AlbumItem, artistId: string)
    requires Consistent(st)
    ensures SaveAlbum(st, a, artistId).Success? ==> Consistent(SaveAlbum(st, a, artistId).value.0)
  {
    if SaveAlbum(st, a, artistId).Success? {
      var st' := SaveAlbum(st, a, artistId).value.0;
      assert st'.artists == st.artists && st'.songs == st.songs;
      assert forall k :: k in st'.albums ==> st'.albums[k].albumId == k &&
                                             st'.albums[k].qrCodeUrl == Some(QrUrl(st'.albums[k].spotifyUri));
    }
  }

  lemma SaveSongConsistent(st: Store, t: TrackItem, artistId: string, albumId: Option<string>)
    requires Consistent(st)
    ensures SaveSong(st, t, artistId, albumId).Success? ==> Consistent(SaveSong(st, t, artistId, albumId).value.0)
  {
    if SaveSong(st, t, artistId, albumId).Success? {
      var st' := SaveSong(st, t, artistId, albumId).value.0;
      assert st'.artists == st.artists && st'.albums == st.albums;
      assert forall k :: k in st'.songs ==> st'.songs[k].songId == k &&
                                            st'.songs[k].qrCodeUrl == Some(QrUrl(st'.songs[k].spotifyUri)) &&
                                            (st'.songs[k].isSingle <==> st'.songs[k].albumId.None?);
    }
  }

  /** Every row a save produces fits the table its INSERT statement names. */
  lemma SavedRowsFitTables(st: Store, ar: ArtistItem, al: AlbumItem, t: TrackItem, artistId: string, albumId: Option<string>)
    ensures Schema.CheckRow(Schema.TargetArtists, Schema.ArtistValues(SaveArtist(st, ar).1)).Success?
    ensures SaveAlbum(st, al, artistId).Success? ==>
              Schema.CheckRow(Schema.TargetAlbums, Schema.AlbumValues(SaveAlbum(st, al, artistId).value.1)).Success?
    ensures SaveSong(st, t, artistId, albumId).Success? ==>
              Schema.CheckRow(Schema.TargetSongs, Schema.SongValues(SaveSong(st, t, artistId, albumId).value.1)).Success?
  {
    Schema.TargetArtistsAccept(SaveArtist(st, ar).1);
    if SaveAlbum(st, al, artistId).Success? {
      Schema.TargetAlbumsAccept(SaveAlbum(st, al, artistId).value.1);
    }
    if SaveSong(st, t, artistId, albumId).Success? {
      Schema.TargetSongsAccept(SaveSong(st, t, artistId, albumId).value.1);
    }
  }

  // ---------------------------------------------------------------------------
  // Reads (data_manager.py:142-302).

  function GetArtist(st: Store, artistId: string): Option<ArtistRow> {
    if artistId in st.artists then Some(st.artists[artistId]) else None
  }

  /** A saved artist reads back as the row the save returned. */
  lemma GetArtistAfterSave(st: Store, a: ArtistItem, other: string)
    ensures GetArtist(SaveArtist(st, a).0, a.id) == Some(SaveArtist(st, a).1)
    ensures other != a.id ==> GetArtist(SaveArtist(st, a).0, other) == GetArtist(st, other)
  {
  }

  /** An artist with the albums and songs listed for it. */
  datatype Discography = Discography(artist: ArtistRow, albums: seq<AlbumRow>, songs: seq<SongRow>)

  /** `get_discography`: None for an unknown artist, else exactly the rows whose
      `artist_id` is the artist's, in the engine's order. */
  method GetDiscography(st: Store, artistId: string) returns (r: Option<Discography>)
    ensures r.None? <==> artistId !in st.artists
    ensures r.Some? ==> r.value.artist == st.artists[artistId]
    ensures r.Some? ==> forall x :: x in r.value.albums <==> x in st.albums.Values && x.artistId == Some(artistId)
    ensures r.Some? ==> forall x :: x in r.value.songs <==> x in st.songs.Values && x.artistId == Some(artistId)
  {
    if artistId !in st.artists {
      return None;
    }
    var albums := Sorting.ListRows(set x | x in st.albums.Values && x.artistId == Some(artistId));
    var songs := Sorting.ListRows(set x | x in st.songs.Values && x.artistId == Some(artistId));
    assert forall x :: x in albums <==> x in multiset(albums);
    assert forall x :: x in songs <==> x in multiset(songs);
    r := Some(Discography(st.artists[artistId], albums, songs));
  }

  function AlbumDate(a: AlbumRow): string { a.releaseDate }
  function SongDate(s: SongRow): string { s.releaseDate }

  /** `get_artist_discography`: every album and every song, newest release first. */
  method GetArtistDiscography(st: Store) returns (albums: seq<AlbumRow>, songs: seq<SongRow>)
    ensures Sorting.SortedDesc(albums, AlbumDate) && multiset(albums) == multiset(st.albums.Values)
    ensures Sorting.SortedDesc(songs, SongDate) && multiset(songs) == multiset(st.songs.Values)
  {
    albums := Sorting.OrderByDesc(st.albums.Values, AlbumDate);
    songs := Sorting.OrderByDesc(st.songs.Values, SongDate);
  }

  /** The songs `LOWER(name) = LOWER(title)` selects. */
  function TitleMatches(st: Store, title: string): set<SongRow> {
    set s | s in st.songs.Values && Lower(s.name) == Lower(title)
  }

  /** The match ignores case: a title and its lower-case form select the same songs. */
  lemma TitleMatchesIgnoreCase(st: Store, title: string)
    ensures TitleMatches(st, Lower(title)) == TitleMatches(st, title)
  {
    LowerIdempotent(title);
  }

  /** `get_song_by_title`: one matching song (the engine's first), or None when no
      song's name equals the title up to case. */
  method GetSongByTitle(st: Store, title: string) returns (r: Option<SongRow>)
    ensures r.Some? ==> r.value in st.songs.Values && Lower(r.value.name) == Lower(title)
    ensures r.None? <==> forall s :: s in st.songs.Values ==> Lower(s.name) != Lower(title)
  {
    var matches := TitleMatches(st, title);
    if matches == {} {
      r := None;
      forall s | s in st.songs.Values ensures Lower(s.name) != Lower(title) {
        assert s !in matches;
      }
    } else {
      var s :| s in matches;
      r := Some(s);
    }
  }

  // ---------------------------------------------------------------------------
  // Cleanup (data_manager.py:304-314, and wraithtrack.py:194-203).

  /** The names `cleanup_old_files` deletes, in listing order: the `*.json` files that
      do not start with today's `YYYY-MM-DD`. The same order is the order of the
      "Removing old file" messages. */
  function StaleFiles(names: seq<string>, today: string): (r: seq<string>)
    ensures forall n :: n in r <==> n in names && EndsWith(n, ".json") && !StartsWith(n, today)
    ensures |r| <= |names|
  {
    if |names| == 0 then []
    else
      var rest := StaleFiles(names[1..], today);
      assert forall n :: n in names <==> n == names[0] || n in names[1..];
      (if EndsWith(names[0], ".json") && !StartsWith(names[0], today) then [names[0]] else []) + rest
  }

  /** After a cleanup the only JSON files left are today's, and no other file is touched. */
  lemma CleanupLeavesToday(names: seq<string>, today: string)
    ensures forall n :: n in names && n !in StaleFiles(names, today) && EndsWith(n, ".json") ==>
                          StartsWith(n, today)
    ensures forall n :: n in names && !EndsWith(n, ".json") ==> n !in StaleFiles(names, today)
  {
  }
}
