/** The track listing of `discography_tab` in artistrack/web.py: album tracks and
    standalone singles in one result, with test material filtered out by name and
    an album labelled "Single" when it holds exactly one track named like itself. */
module Listing {
  import opened Wrappers
  import opened Text
  import opened Catalog
  import opened Store
  import Sorting

  datatype ListingRow = ListingRow(
    trackName: string,
    albumName: string,
    releaseDate: string,
    trackNumber: Option<int>,
    duration: string,
    trackUrl: string,
    trackQr: Option<string>,
    imageLarge: string,
    imageMedium: string,
    imageThumb: string)

  /** `LOWER(name) NOT LIKE '%test%'` fails. */
  predicate IsTest(name: string) {
    Contains(Lower(name), "test")
  }

  /** The songs an album's `COUNT(s.song_id)` counts: every song row of the album,
      test-named or not. */
  function AlbumSongIds(st: Store, albumId: string): set<string> {
    set k | k in st.songs && st.songs[k].albumId == Some(albumId)
  }

  /** `name_matches`: some song of the album has exactly the album's name. */
  predicate NameMatches(st: Store, a: AlbumRow) {
    exists k :: k in AlbumSongIds(st, a.albumId) && st.songs[k].name == a.name
  }

  /** The album column: "Single" for a one-track album whose track shares its name. */
  function AlbumLabel(st: Store, a: AlbumRow): string {
    if |AlbumSongIds(st, a.albumId)| == 1 && NameMatches(st, a) then "Single" else a.name
  }

  function AlbumTrackRow(st: Store, a: AlbumRow, s: SongRow): ListingRow {
    ListingRow(s.name, AlbumLabel(st, a), a.releaseDate, s.trackNumber, s.duration, s.spotifyUrl,
               s.qrCodeUrl, a.imageLarge, a.imageMedium, a.imageThumb)
  }

  function SingleRow(s: SongRow): ListingRow {
    ListingRow(s.name, "Single", s.releaseDate, None, s.duration, s.spotifyUrl,
               s.qrCodeUrl, s.imageLarge, s.imageMedium, s.imageThumb)
  }

  /** The rows of the query: the album part joined on `album_id` and the singles
      part, both without test names. */
  function Rows(st: Store): set<ListingRow> {
    (set a, s | a in st.albums.Values && s in st.songs.Values && s.albumId == Some(a.albumId) &&
                !IsTest(a.name) && !IsTest(s.name) :: AlbumTrackRow(st, a, s)) +
    (set s | s in st.songs.Values && s.albumId.None? && !IsTest(s.name) :: SingleRow(s))
  }

  function RowDate(r: ListingRow): string { r.releaseDate }

  /** The listing, newest release first. */
  method ListTracks(st: Store) returns (rows: seq<ListingRow>)
    ensures forall r :: r in rows <==> r in Rows(st)
    ensures Sorting.SortedDesc(rows, RowDate)
    ensures |rows| == |Rows(st)|
  {
    rows := Sorting.OrderByDesc(Rows(st), RowDate);
    assert forall r :: r in rows <==> r in multiset(rows);
  }

  lemma SingletonSet(s: set<string>)
    requires |s| == 1
    ensures exists k :: s == {k}
  {
    var k :| k in s;
    assert |s - {k}| == 0;
    assert s == {k};
  }

  /** An album is labelled "Single" exactly when its name already is "Single" or it
      has one song in all and that song carries the album's name. */
  lemma SingleLabelIff(st: Store, a: AlbumRow)
    ensures AlbumLabel(st, a) == "Single" <==>
              a.name == "Single" ||
              exists k :: AlbumSongIds(st, a.albumId) == {k} && st.songs[k].name == a.name
  {
    var ids := AlbumSongIds(st, a.albumId);
    if |ids| == 1 && NameMatches(st, a) {
      SingletonSet(ids);
      var k :| k in ids && st.songs[k].name == a.name;
      assert ids == {k};
    }
    if exists k :: ids == {k} && st.songs[k].name == a.name {
      var k :| ids == {k} && st.songs[k].name == a.name;
      assert k in ids && |ids| == 1;
    }
  }

  /** No row shows a test track, and an album name is shown only when it is not a
      test name. */
  lemma NoTestRows(st: Store)
    ensures forall r :: r in Rows(st) ==> !IsTest(r.trackName) && (r.albumName == "Single" || !IsTest(r.albumName))
  {
  }

  /** A song is listed, under its own name and link, exactly when its name is not a
      test name and it is either standalone or belongs to a stored album whose name
      is not a test name. */
  lemma SongListedIff(st: Store, s: SongRow)
    requires s in st.songs.Values
    requires forall k :: k in st.songs && st.songs[k].spotifyUrl == s.spotifyUrl ==> st.songs[k] == s
    ensures (exists r :: r in Rows(st) && r.trackName == s.name && r.trackUrl == s.spotifyUrl) <==>
              !IsTest(s.name) &&
              (s.albumId.None? || exists a :: a in st.albums.Values && Some(a.albumId) == s.albumId && !IsTest(a.name))
  {
    if !IsTest(s.name) {
      if s.albumId.None? {
        assert SingleRow(s) in Rows(st);
      } else if a :| a in st.albums.Values && Some(a.albumId) == s.albumId && !IsTest(a.name) {
        assert AlbumTrackRow(st, a, s) in Rows(st);
      }
    }
    if r :| r in Rows(st) && r.trackName == s.name && r.trackUrl == s.spotifyUrl {
      if a, t :| a in st.albums.Values && t in st.songs.Values && t.albumId == Some(a.albumId) &&
                 !IsTest(a.name) && !IsTest(t.name) && r == AlbumTrackRow(st, a, t) {
        ValueUrl(st, t, s);
      } else {
        var t :| t in st.songs.Values && t.albumId.None? && !IsTest(t.name) && r == SingleRow(t);
        ValueUrl(st, t, s);
      }
    }
  }

  lemma ValueUrl(st: Store, t: SongRow, s: SongRow)
    requires t in st.songs.Values && t.spotifyUrl == s.spotifyUrl
    requires forall k :: k in st.songs && st.songs[k].spotifyUrl == s.spotifyUrl ==> st.songs[k] == s
    ensures t == s
  {
    var k :| k in st.songs && st.songs[k] == t;
  }
}
