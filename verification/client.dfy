/** The fetch logic around the token and the pages: the date-keyed artist cache of
    both clients, `get_album_id_from_artist_albums`, the paged album and track
    requests of `get_artist_tracks` (wraithtrack.py) with its track files, and
    `cleanup_old_files`. Each fetch first obtains the token through `TokenCache`.
    The data directory is a map from file name to content; the network answers are
    inputs, a listing's failed page or a `None` standing for a `RequestException`,
    which these functions turn into exit 1. */
module Client {
  import opened Wrappers
  import opened Text
  import opened Catalog
  import Store
  import Lists
  import Paging
  import TokenCache

  // ---------------------------------------------------------------------------
  // get_artist_data (artistrack/discotech/spotify_client.py:107-144, wraithtrack.py:91-117).

  /** `<today>__artist_data.json`. */
  function ArtistDataFile(today: string): (name: string)
    ensures StartsWith(name, today) && EndsWith(name, ".json")
  {
    today + "__artist_data.json"
  }

  /** The artist, the cache afterwards, whether the artist endpoint was asked, and the
      token state afterwards. */
  datatype ArtistAnswer = ArtistAnswer(artist: ArtistItem, cache: map<string, ArtistItem>, fetched: bool,
                                       client: TokenCache.Client)

  /** The token comes first, in both revisions, and outside the `try` that turns a
      failed artist request into exit 1. */
  function GetArtistData(rev: TokenCache.Revision, c: TokenCache.Client, now: int, grant: TokenCache.Grant,
                         cache: map<string, ArtistItem>, today: string, fetch: Option<ArtistItem>)
    : Result<ArtistAnswer, Stop>
  {
    match TokenCache.EnsureValidToken(rev, c, now, grant)
    case Failure(e) => Failure(e)
    case Success((_, c')) =>
      var name := ArtistDataFile(today);
      if name in cache then Success(ArtistAnswer(cache[name], cache, false, c'))
      else if fetch.None? then Failure(Exited(1))
      else Success(ArtistAnswer(fetch.value, cache[name := fetch.value], true, c'))
  }

  /** A token failure stops the call as `ensure_valid_token` stops. Once the token is
      there, today's file, when present, is served without an artist request;
      otherwise the answer is fetched and written under today's name, and a failed
      request exits 1. */
  lemma ArtistDataCacheRule(rev: TokenCache.Revision, c: TokenCache.Client, now: int, grant: TokenCache.Grant,
                            cache: map<string, ArtistItem>, today: string, fetch: Option<ArtistItem>)
    ensures var tok := TokenCache.EnsureValidToken(rev, c, now, grant);
            var r := GetArtistData(rev, c, now, grant, cache, today, fetch);
            (tok.Failure? ==> r == Failure(tok.error)) &&
            (tok.Success? ==>
               (r.Success? && !r.value.fetched <==> ArtistDataFile(today) in cache) &&
               (r.Failure? <==> ArtistDataFile(today) !in cache && fetch.None?) &&
               (r.Failure? ==> r.error == Exited(1)) &&
               (r.Success? ==> r.value.client == tok.value.1 &&
                               ArtistDataFile(today) in r.value.cache &&
                               r.value.cache[ArtistDataFile(today)] == r.value.artist &&
                               r.value.cache.Keys == cache.Keys + {ArtistDataFile(today)}))
  {
  }

  /** Today's file does not spare the token: with nothing in memory or in a fresh
      cache, a failed grant stops the call even when the artist file is there. */
  lemma ArtistDataTokenFirst(rev: TokenCache.Revision, c: TokenCache.Client, now: int, grant: TokenCache.Grant,
                             cache: map<string, ArtistItem>, today: string, fetch: Option<ArtistItem>)
    requires c.memory.None? && TokenCache.LoadCachedToken(c.file, now) == Success(None) && !grant.Granted?
    ensures GetArtistData(rev, c, now, grant, cache, today, fetch) == Failure(TokenCache.GrantFailure(rev, grant))
  {
  }

  /** A second call on the same day, at any later time, asks neither the token
      endpoint nor the artist endpoint and returns what the first returned. */
  lemma ArtistDataSameDay(rev: TokenCache.Revision, c: TokenCache.Client, now: int, grant: TokenCache.Grant,
                          cache: map<string, ArtistItem>, today: string, fetch: Option<ArtistItem>,
                          later: int, grant2: TokenCache.Grant, fetch2: Option<ArtistItem>)
    requires GetArtistData(rev, c, now, grant, cache, today, fetch).Success?
    ensures var first := GetArtistData(rev, c, now, grant, cache, today, fetch).value;
            GetArtistData(rev, first.client, later, grant2, first.cache, today, fetch2) ==
            Success(ArtistAnswer(first.artist, first.cache, false, first.client))
  {
    TokenCache.Memoised(rev, c, now, grant, later, grant2);
  }

  // ---------------------------------------------------------------------------
  // get_album_id_from_artist_albums (wraithtrack.py:190-192).

  function AlbumIds(albums: seq<AlbumItem>): (ids: seq<string>)
    ensures |ids| == |albums|
    ensures forall i :: 0 <= i < |albums| ==> ids[i] == albums[i].id
  {
    seq(|albums|, i requires 0 <= i < |albums| => albums[i].id)
  }

  // ---------------------------------------------------------------------------
  // get_artist_tracks (wraithtrack.py:222-319).

  /** The JSON files `get_artist_tracks` writes. */
  datatype FileContent = TrackFile(track: TrackItem) | AlbumsFile(albums: seq<AlbumItem>)

  /** The result dict: the tracks, their number and the artist id. */
  datatype TracksResult = TracksResult(items: seq<TrackItem>, total: nat, artistId: string)

  /** wraithtrack.py:270-272: the album's name, type and release date on the track. */
  function Stamp(t: TrackItem, a: AlbumItem): (s: TrackItem)
    ensures s.albumName == Some(a.name) && s.albumType == Some(a.albumType) &&
            s.releaseDate == Some(a.releaseDate)
    ensures s.id == t.id && s.name == t.name && s.trackNumber == t.trackNumber &&
            s.durationMs == t.durationMs && s.uri == t.uri && s.images == t.images
  {
    t.(albumName := Some(a.name), albumType := Some(a.albumType), releaseDate := Some(a.releaseDate))
  }

  /** `<date>__track__<safe name>_<id>.json`. */
  function TrackFileName(today: string, t: TrackItem): string {
    today + "__track__" + SafeName(t.name) + "_" + t.id + ".json"
  }

  /** `<date>__artist_albums.json`. */
  function AlbumsFileName(today: string): string {
    today + "__artist_albums.json"
  }

  /** Every file the function writes carries today's date and the `.json` suffix, so
      the same day's cleanup keeps it. */
  lemma WrittenNamesSurviveCleanup(today: string, t: TrackItem, names: seq<string>)
    ensures StartsWith(TrackFileName(today, t), today) && EndsWith(TrackFileName(today, t), ".json")
    ensures TrackFileName(today, t) !in Store.StaleFiles(names, today)
    ensures AlbumsFileName(today) !in Store.StaleFiles(names, today)
  {
    var n := TrackFileName(today, t);
    assert n[..|today|] == today;
    var m := AlbumsFileName(today);
    assert m[..|today|] == today;
  }

  /** wraithtrack.py:275-289: a stamped track's file is written only under a new name. */
  function WriteTrack(files: map<string, FileContent>, today: string, s: TrackItem): (files': map<string, FileContent>)
    ensures files'.Keys == files.Keys + {TrackFileName(today, s)}
    ensures forall k :: k in files ==> k in files' && files'[k] == files[k]
    ensures TrackFileName(today, s) !in files ==> files'[TrackFileName(today, s)] == TrackFile(s)
  {
    var name := TrackFileName(today, s);
    if name in files then files else files[name := TrackFile(s)]
  }

  /** Reference definition: the directory after writing the tracks in order, each
      only under a name not yet taken. */
  function WriteAll(files: map<string, FileContent>, today: string, ts: seq<TrackItem>): map<string, FileContent>
    decreases |ts|
  {
    if |ts| == 0 then files else WriteAll(WriteTrack(files, today, ts[0]), today, ts[1..])
  }

  /** The file names of the tracks. */
  function TrackNames(today: string, ts: seq<TrackItem>): set<string> {
    set t | t in ts :: TrackFileName(today, t)
  }

  /** `content` is the file of the first of the tracks whose file name is `k`. */
  predicate FirstWritten(today: string, ts: seq<TrackItem>, k: string, content: FileContent) {
    exists i :: 0 <= i < |ts| && TrackFileName(today, ts[i]) == k && content == TrackFile(ts[i]) &&
                forall j :: 0 <= j < i ==> TrackFileName(today, ts[j]) != k
  }

  /** Writing the tracks adds exactly their names, keeps every file that was there,
      and fills each new name with the first track that has it. */
  lemma WriteAllSpec(files: map<string, FileContent>, today: string, ts: seq<TrackItem>)
    ensures var w := WriteAll(files, today, ts);
            w.Keys == files.Keys + TrackNames(today, ts) &&
            (forall k :: k in files ==> w[k] == files[k]) &&
            (forall k :: k in w && k !in files ==> FirstWritten(today, ts, k, w[k]))
  {
    WriteAllKeys(files, today, ts);
    WriteAllKeeps(files, today, ts);
    WriteAllNew(files, today, ts);
  }

  lemma {:induction false} WriteAllKeys(files: map<string, FileContent>, today: string, ts: seq<TrackItem>)
    ensures WriteAll(files, today, ts).Keys == files.Keys + TrackNames(today, ts)
    decreases |ts|
  {
    if |ts| > 0 {
      var files1 := WriteTrack(files, today, ts[0]);
      WriteAllKeys(files1, today, ts[1..]);
      TrackNamesCons(today, ts);
    }
  }

  lemma TrackNamesCons(today: string, ts: seq<TrackItem>)
    requires |ts| > 0
    ensures TrackNames(today, ts) == {TrackFileName(today, ts[0])} + TrackNames(today, ts[1..])
  {
    assert forall t :: t in ts <==> t == ts[0] || t in ts[1..];
  }

  lemma {:induction false} WriteAllKeeps(files: map<string, FileContent>, today: string, ts: seq<TrackItem>)
    ensures forall k :: k in files ==> k in WriteAll(files, today, ts) && WriteAll(files, today, ts)[k] == files[k]
    decreases |ts|
  {
    if |ts| > 0 {
      WriteAllKeeps(WriteTrack(files, today, ts[0]), today, ts[1..]);
    }
  }

  lemma {:induction false} WriteAllNew(files: map<string, FileContent>, today: string, ts: seq<TrackItem>)
    ensures forall k :: k in WriteAll(files, today, ts) && k !in files ==>
              FirstWritten(today, ts, k, WriteAll(files, today, ts)[k])
    decreases |ts|
  {
    if |ts| > 0 {
      var name := TrackFileName(today, ts[0]);
      var files1 := WriteTrack(files, today, ts[0]);
      var w := WriteAll(files1, today, ts[1..]);
      assert WriteAll(files, today, ts) == w;
      WriteAllNew(files1, today, ts[1..]);
      WriteAllKeeps(files1, today, ts[1..]);
      forall k | k in w && k !in files
        ensures FirstWritten(today, ts, k, w[k])
      {
        if k == name {
          FirstWrittenHead(today, ts, k, w[k]);
        } else {
          assert k !in files1;
          FirstWrittenTail(today, ts, k, w[k]);
        }
      }
    }
  }

  lemma FirstWrittenHead(today: string, ts: seq<TrackItem>, k: string, content: FileContent)
    requires |ts| > 0 && TrackFileName(today, ts[0]) == k && content == TrackFile(ts[0])
    ensures FirstWritten(today, ts, k, content)
  {
    assert 0 <= 0 < |ts| && TrackFileName(today, ts[0]) == k && content == TrackFile(ts[0]);
  }

  lemma FirstWrittenTail(today: string, ts: seq<TrackItem>, k: string, content: FileContent)
    requires |ts| > 0 && TrackFileName(today, ts[0]) != k && FirstWritten(today, ts[1..], k, content)
    ensures FirstWritten(today, ts, k, content)
  {
    var i :| 0 <= i < |ts[1..]| && TrackFileName(today, ts[1..][i]) == k && content == TrackFile(ts[1..][i]) &&
             forall j :: 0 <= j < i ==> TrackFileName(today, ts[1..][j]) != k;
    assert ts[1..][i] == ts[i + 1];
    forall j | 0 <= j < i + 1
      ensures TrackFileName(today, ts[j]) != k
    {
      if j > 0 {
        assert ts[j] == ts[1..][j - 1];
      }
    }
  }

  /** Writing two lists of tracks in turn is writing their concatenation. */
  lemma {:induction false} WriteAllAppend(files: map<string, FileContent>, today: string, x: seq<TrackItem>, y: seq<TrackItem>)
    ensures WriteAll(files, today, x + y) == WriteAll(WriteAll(files, today, x), today, y)
    decreases |x|
  {
    if |x| == 0 {
      assert x + y == y;
    } else {
      assert (x + y)[0] == x[0] && (x + y)[1..] == x[1..] + y;
      WriteAllAppend(WriteTrack(files, today, x[0]), today, x[1..], y);
    }
  }

  /** The tracks of one album, stamped, each written as it is stamped. */
  function EnrichTracks(a: AlbumItem, tracks: seq<TrackItem>, today: string, files: map<string, FileContent>)
    : (map<string, FileContent>, seq<TrackItem>)
    decreases |tracks|
  {
    if |tracks| == 0 then (files, [])
    else
      var s := Stamp(tracks[0], a);
      var files1 := WriteTrack(files, today, s);
      var (files2, rest) := EnrichTracks(a, tracks[1..], today, files1);
      (files2, [s] + rest)
  }

  /** Reference definition: every track of the album, stamped, in order. */
  function Stamped(a: AlbumItem, tracks: seq<TrackItem>): (r: seq<TrackItem>)
    ensures |r| == |tracks|
  {
    seq(|tracks|, i requires 0 <= i < |tracks| => Stamp(tracks[i], a))
  }

  lemma EnrichTracksUnfold(a: AlbumItem, tracks: seq<TrackItem>, today: string, files: map<string, FileContent>)
    requires |tracks| > 0
    ensures var s := Stamp(tracks[0], a);
            var files1 := WriteTrack(files, today, s);
            EnrichTracks(a, tracks, today, files) ==
            (EnrichTracks(a, tracks[1..], today, files1).0, [s] + EnrichTracks(a, tracks[1..], today, files1).1)
  {
  }

  /** The returned tracks are the album's tracks stamped, in order. */
  lemma {:induction false} EnrichTracksOut(a: AlbumItem, tracks: seq<TrackItem>, today: string, files: map<string, FileContent>)
    ensures EnrichTracks(a, tracks, today, files).1 == Stamped(a, tracks)
    decreases |tracks|
  {
    if |tracks| > 0 {
      var s := Stamp(tracks[0], a);
      var files1 := WriteTrack(files, today, s);
      EnrichTracksUnfold(a, tracks, today, files);
      EnrichTracksOut(a, tracks[1..], today, files1);
      assert [s] + Stamped(a, tracks[1..]) == Stamped(a, tracks);
    }
  }

  /** Files already there are left alone, and every returned track has a file under
      its name. */
  lemma {:induction false} EnrichTracksFiles(a: AlbumItem, tracks: seq<TrackItem>, today: string, files: map<string, FileContent>)
    ensures var (files', out) := EnrichTracks(a, tracks, today, files);
            (forall k :: k in files ==> k in files' && files'[k] == files[k]) &&
            (forall t :: t in out ==> TrackFileName(today, t) in files')
    decreases |tracks|
  {
    if |tracks| > 0 {
      var s := Stamp(tracks[0], a);
      var files1 := WriteTrack(files, today, s);
      EnrichTracksUnfold(a, tracks, today, files);
      EnrichTracksFiles(a, tracks[1..], today, files1);
    }
  }

  /** The files an album's tracks leave are its stamped tracks written in order. */
  lemma {:induction false} EnrichTracksWrites(a: AlbumItem, tracks: seq<TrackItem>, today: string,
                                              files: map<string, FileContent>)
    ensures EnrichTracks(a, tracks, today, files).0 == WriteAll(files, today, Stamped(a, tracks))
    decreases |tracks|
  {
    if |tracks| > 0 {
      var s := Stamp(tracks[0], a);
      var st := Stamped(a, tracks);
      EnrichTracksUnfold(a, tracks, today, files);
      EnrichTracksWrites(a, tracks[1..], today, WriteTrack(files, today, s));
      assert st[0] == s && st[1..] == Stamped(a, tracks[1..]);
    }
  }

  /** Processing the tracks in two parts is processing them in one go: the second
      part starts from the files the first left. */
  lemma {:induction false} EnrichTracksAppend(a: AlbumItem, x: seq<TrackItem>, y: seq<TrackItem>, today: string,
                                              files: map<string, FileContent>)
    ensures AppendsAs(a, x, y, today, files)
    decreases |x|
  {
    if |x| == 0 {
      assert x + y == y;
      assert EnrichTracks(a, x, today, files) == (files, []);
      var tail := EnrichTracks(a, y, today, files);
      assert [] + tail.1 == tail.1;
    } else {
      EnrichTracksAppend(a, x[1..], y, today, WriteTrack(files, today, Stamp(x[0], a)));
      EnrichTracksAppendStep(a, x, y, today, files);
    }
  }

  predicate AppendsAs(a: AlbumItem, x: seq<TrackItem>, y: seq<TrackItem>, today: string, files: map<string, FileContent>) {
    var first := EnrichTracks(a, x, today, files);
    var second := EnrichTracks(a, y, today, first.0);
    EnrichTracks(a, x + y, today, files) == (second.0, first.1 + second.1)
  }

  /** The inductive step of `EnrichTracksAppend`: from the tail to the whole. */
  lemma EnrichTracksAppendStep(a: AlbumItem, x: seq<TrackItem>, y: seq<TrackItem>, today: string,
                               files: map<string, FileContent>)
    requires |x| > 0
    requires AppendsAs(a, x[1..], y, today, WriteTrack(files, today, Stamp(x[0], a)))
    ensures AppendsAs(a, x, y, today, files)
  {
    var s := Stamp(x[0], a);
    var files1 := WriteTrack(files, today, s);
    var rest := EnrichTracks(a, x[1..], today, files1);
    var tail := EnrichTracks(a, y, today, rest.0);
    var both := EnrichTracks(a, x[1..] + y, today, files1);
    assert EnrichTracks(a, x, today, files) == (rest.0, [s] + rest.1) by {
      EnrichTracksUnfold(a, x, today, files);
    }
    EnrichTracksUnfoldAppend(a, x, y, today, files);
    assert both == (tail.0, rest.1 + tail.1);
    Lists.AppendAssoc([s], rest.1, tail.1);
  }

  lemma EnrichTracksUnfoldAppend(a: AlbumItem, x: seq<TrackItem>, y: seq<TrackItem>, today: string,
                                 files: map<string, FileContent>)
    requires |x| > 0
    ensures var s := Stamp(x[0], a);
            var both := EnrichTracks(a, x[1..] + y, today, WriteTrack(files, today, s));
            EnrichTracks(a, x + y, today, files) == (both.0, [s] + both.1)
  {
    assert (x + y)[0] == x[0] && (x + y)[1..] == x[1..] + y;
    EnrichTracksUnfold(a, x + y, today, files);
  }

  /** One album's track pages, each page handled as it arrives (wraithtrack.py:254-296). */
  function EnrichTrackPages(a: AlbumItem, pages: seq<seq<TrackItem>>, today: string, files: map<string, FileContent>)
    : (map<string, FileContent>, seq<TrackItem>)
    decreases |pages|
  {
    if |pages| == 0 then (files, [])
    else
      var (files1, here) := EnrichTracks(a, pages[0], today, files);
      var (files2, rest) := EnrichTrackPages(a, pages[1..], today, files1);
      (files2, here + rest)
  }

  /** Page by page, the files and tracks are those of the concatenated listing. */
  lemma {:induction false} EnrichTrackPagesFlat(a: AlbumItem, pages: seq<seq<TrackItem>>, today: string,
                                                files: map<string, FileContent>)
    ensures EnrichTrackPages(a, pages, today, files) == EnrichTracks(a, Paging.Flatten(pages), today, files)
    decreases |pages|
  {
    if |pages| > 0 {
      var (files1, here) := EnrichTracks(a, pages[0], today, files);
      EnrichTrackPagesFlat(a, pages[1..], today, files1);
      EnrichTracksAppend(a, pages[0], Paging.Flatten(pages[1..]), today, files);
    }
  }

  /** The albums of one album page in order, each with all its track pages; an album
      whose track listing fails exits 1, keeping every file written so far, including
      those of its own pages that did arrive. */
  function EnrichAlbums(albums: seq<AlbumItem>, tracksOf: string -> Paging.Listing<TrackItem>, today: string,
                        files: map<string, FileContent>)
    : (map<string, FileContent>, Result<seq<TrackItem>, Stop>)
    decreases |albums|
  {
    if |albums| == 0 then (files, Success([]))
    else
      var listing := tracksOf(albums[0].id);
      var (files1, here) := EnrichTrackPages(albums[0], listing.pages, today, files);
      if listing.failed then (files1, Failure(Exited(1)))
      else
        var (files2, rest) := EnrichAlbums(albums[1..], tracksOf, today, files1);
        (files2, if rest.Success? then Success(here + rest.value) else rest)
  }

  /** Reference definition: the tracks the requests deliver, stamped, album after
      album, up to and including the album whose track listing fails. */
  function Fetched(albums: seq<AlbumItem>, tracksOf: string -> Paging.Listing<TrackItem>): seq<TrackItem>
    decreases |albums|
  {
    if |albums| == 0 then []
    else
      Stamped(albums[0], Paging.Flatten(tracksOf(albums[0].id).pages)) +
      (if tracksOf(albums[0].id).failed then [] else Fetched(albums[1..], tracksOf))
  }

  predicate AllFetched(albums: seq<AlbumItem>, tracksOf: string -> Paging.Listing<TrackItem>) {
    forall a :: a in albums ==> !tracksOf(a.id).failed
  }

  /** The directory the albums leave is the fetched tracks written in order, up to
      and including the pages of the album whose listing fails. */
  lemma {:induction false} EnrichAlbumsWrites(albums: seq<AlbumItem>, tracksOf: string -> Paging.Listing<TrackItem>,
                                              today: string, files: map<string, FileContent>)
    ensures EnrichAlbums(albums, tracksOf, today, files).0 == WriteAll(files, today, Fetched(albums, tracksOf))
    decreases |albums|
  {
    if |albums| > 0 {
      var listing := tracksOf(albums[0].id);
      var flat := Paging.Flatten(listing.pages);
      var here := Stamped(albums[0], flat);
      var files1 := EnrichTrackPages(albums[0], listing.pages, today, files).0;
      EnrichTrackPagesFlat(albums[0], listing.pages, today, files);
      EnrichTracksWrites(albums[0], flat, today, files);
      assert files1 == WriteAll(files, today, here);
      if listing.failed {
        assert Fetched(albums, tracksOf) == here + [];
        assert here + [] == here;
      } else {
        EnrichAlbumsWrites(albums[1..], tracksOf, today, files1);
        WriteAllAppend(files, today, here, Fetched(albums[1..], tracksOf));
      }
    }
  }

  /** The albums succeed exactly when every track listing is complete, and then give
      the fetched tracks; whether or not they succeed, the directory afterwards is
      the fetched tracks written in order, so every fetched track has its file and
      no file that was there changes. */
  lemma {:induction false} EnrichAlbumsSpec(albums: seq<AlbumItem>, tracksOf: string -> Paging.Listing<TrackItem>,
                                            today: string, files: map<string, FileContent>)
    ensures var (files', r) := EnrichAlbums(albums, tracksOf, today, files);
            (r.Success? <==> AllFetched(albums, tracksOf)) &&
            (r.Failure? ==> r.error == Exited(1)) &&
            (r.Success? ==> r.value == Fetched(albums, tracksOf)) &&
            files' == WriteAll(files, today, Fetched(albums, tracksOf)) &&
            (forall t :: t in Fetched(albums, tracksOf) ==> TrackFileName(today, t) in files') &&
            (forall k :: k in files ==> k in files' && files'[k] == files[k])
    decreases |albums|
  {
    EnrichAlbumsWrites(albums, tracksOf, today, files);
    if |albums| > 0 {
      assert forall a :: a in albums <==> a == albums[0] || a in albums[1..];
      var listing := tracksOf(albums[0].id);
      var flat := Paging.Flatten(listing.pages);
      var (files1, here) := EnrichTrackPages(albums[0], listing.pages, today, files);
      EnrichTrackPagesFlat(albums[0], listing.pages, today, files);
      EnrichTracksOut(albums[0], flat, today, files);
      EnrichTracksFiles(albums[0], flat, today, files);
      if !listing.failed {
        EnrichAlbumsSpec(albums[1..], tracksOf, today, files1);
      }
    }
  }

  /** Handling the albums in two parts is handling them in one go: a failure in the
      first part ends the run there, else the second part starts from its files. */
  lemma {:induction false} EnrichAlbumsAppend(x: seq<AlbumItem>, y: seq<AlbumItem>,
                                              tracksOf: string -> Paging.Listing<TrackItem>, today: string,
                                              files: map<string, FileContent>)
    ensures var (f1, r1) := EnrichAlbums(x, tracksOf, today, files);
            var (f2, r2) := EnrichAlbums(y, tracksOf, today, f1);
            EnrichAlbums(x + y, tracksOf, today, files) ==
            if r1.Failure? then (f1, r1)
            else (f2, if r2.Success? then Success(r1.value + r2.value) else r2)
    decreases |x|
  {
    if |x| == 0 {
      assert x + y == y;
      var (f2, r2) := EnrichAlbums(y, tracksOf, today, files);
      if r2.Success? {
        assert [] + r2.value == r2.value;
      }
    } else {
      assert (x + y)[0] == x[0] && (x + y)[1..] == x[1..] + y;
      var listing := tracksOf(x[0].id);
      var (files1, here) := EnrichTrackPages(x[0], listing.pages, today, files);
      if !listing.failed {
        EnrichAlbumsAppend(x[1..], y, tracksOf, today, files1);
        var (g1, q1) := EnrichAlbums(x[1..], tracksOf, today, files1);
        if q1.Success? {
          var (g2, q2) := EnrichAlbums(y, tracksOf, today, g1);
          if q2.Success? {
            Lists.AppendAssoc(here, q1.value, q2.value);
          }
        }
      }
    }
  }

  /** The album pages, each page's albums handled before the next page is asked for
      (wraithtrack.py:235-301). */
  function EnrichAlbumPages(pages: seq<seq<AlbumItem>>, tracksOf: string -> Paging.Listing<TrackItem>,
                            today: string, files: map<string, FileContent>)
    : (map<string, FileContent>, Result<seq<TrackItem>, Stop>)
    decreases |pages|
  {
    if |pages| == 0 then (files, Success([]))
    else
      var (files1, here) := EnrichAlbums(pages[0], tracksOf, today, files);
      if here.Failure? then (files1, here)
      else
        var (files2, rest) := EnrichAlbumPages(pages[1..], tracksOf, today, files1);
        (files2, if rest.Success? then Success(here.value + rest.value) else rest)
  }

  /** Page by page, the run is the run over the concatenated album listing. */
  lemma {:induction false} EnrichAlbumPagesFlat(pages: seq<seq<AlbumItem>>, tracksOf: string -> Paging.Listing<TrackItem>,
                                                today: string, files: map<string, FileContent>)
    ensures EnrichAlbumPages(pages, tracksOf, today, files) == EnrichAlbums(Paging.Flatten(pages), tracksOf, today, files)
    decreases |pages|
  {
    if |pages| > 0 {
      EnrichAlbumsAppend(pages[0], Paging.Flatten(pages[1..]), tracksOf, today, files);
      var (files1, here) := EnrichAlbums(pages[0], tracksOf, today, files);
      if here.Success? {
        EnrichAlbumPagesFlat(pages[1..], tracksOf, today, files1);
      }
    }
  }

  /** The data directory, the token state and the outcome of `get_artist_tracks`. */
  datatype TracksRun = TracksRun(files: map<string, FileContent>, client: TokenCache.Client,
                                 result: Result<TracksResult, Stop>)

  /** `get_artist_tracks`: the token, outside the `try`; then the album pages, each
      followed by its albums' track pages; at the end the album listing is written
      unless today's file exists. A failed album or track request exits 1 with the
      files written before it kept. The listings are those `Paging.ListingOf` gives
      for the album and track endpoints, ended by the falsy `next` test. */
  function GetArtistTracks(c: TokenCache.Client, now: int, grant: TokenCache.Grant,
                           albums: Paging.Listing<AlbumItem>, tracksOf: string -> Paging.Listing<TrackItem>,
                           today: string, files: map<string, FileContent>, artistId: string)
    : TracksRun
  {
    match TokenCache.EnsureValidToken(TokenCache.Root, c, now, grant)
    case Failure(e) => TracksRun(files, c, Failure(e))
    case Success((_, c')) =>
      var (files1, r) := EnrichAlbumPages(albums.pages, tracksOf, today, files);
      if r.Failure? then TracksRun(files1, c', Failure(r.error))
      else if albums.failed then TracksRun(files1, c', Failure(Exited(1)))
      else
        var name := AlbumsFileName(today);
        var files2 := if name in files1 then files1 else files1[name := AlbumsFile(Paging.Flatten(albums.pages))];
        TracksRun(files2, c', Success(TracksResult(r.value, |r.value|, artistId)))
  }

  /** The whole call. A token failure raises before anything is written. After the
      token, the call succeeds exactly when the album listing and every album's track
      listing are complete; the tracks are then every album's tracks stamped with
      that album, `total` counts them, the artist id is carried and the album listing
      has its file. Success or not, every track fetched before a failure has its file
      and no existing file is overwritten; the names added are exactly the fetched
      tracks' and, on success, the album listing's, and each new file holds the first
      fetched track with its name, or the concatenated album listing. */
  lemma GetArtistTracksSpec(c: TokenCache.Client, now: int, grant: TokenCache.Grant,
                            albums: Paging.Listing<AlbumItem>, tracksOf: string -> Paging.Listing<TrackItem>,
                            today: string, files: map<string, FileContent>, artistId: string)
    ensures var tok := TokenCache.EnsureValidToken(TokenCache.Root, c, now, grant);
            var run := GetArtistTracks(c, now, grant, albums, tracksOf, today, files, artistId);
            var listed := Paging.Flatten(albums.pages);
            (tok.Failure? ==> run == TracksRun(files, c, Failure(Raised))) &&
            (tok.Success? ==>
               run.client == tok.value.1 &&
               (run.result.Success? <==> !albums.failed && AllFetched(listed, tracksOf)) &&
               (run.result.Failure? ==> run.result.error == Exited(1)) &&
               (run.result.Success? ==>
                  run.result.value.items == Fetched(listed, tracksOf) &&
                  run.result.value.total == |run.result.value.items| &&
                  run.result.value.artistId == artistId &&
                  AlbumsFileName(today) in run.files) &&
               (forall t :: t in Fetched(listed, tracksOf) ==> TrackFileName(today, t) in run.files) &&
               (forall k :: k in files ==> k in run.files && run.files[k] == files[k]) &&
               run.files.Keys == files.Keys + TrackNames(today, Fetched(listed, tracksOf)) +
                                 (if run.result.Success? then {AlbumsFileName(today)} else {}) &&
               (forall k :: k in run.files && k !in files ==>
                  (run.result.Success? && k == AlbumsFileName(today) && run.files[k] == AlbumsFile(listed)) ||
                  FirstWritten(today, Fetched(listed, tracksOf), k, run.files[k])))
  {
    var tok := TokenCache.EnsureValidToken(TokenCache.Root, c, now, grant);
    if tok.Success? {
      EnrichAlbumPagesFlat(albums.pages, tracksOf, today, files);
      EnrichAlbumsSpec(Paging.Flatten(albums.pages), tracksOf, today, files);
      GetArtistTracksNames(c, now, grant, albums, tracksOf, today, files, artistId);
    }
  }

  /** After the token, the directory is the fetched tracks written in order, plus the
      album listing on success when today's listing file is absent. */
  lemma GetArtistTracksDirectory(c: TokenCache.Client, now: int, grant: TokenCache.Grant,
                                 albums: Paging.Listing<AlbumItem>, tracksOf: string -> Paging.Listing<TrackItem>,
                                 today: string, files: map<string, FileContent>, artistId: string)
    requires TokenCache.EnsureValidToken(TokenCache.Root, c, now, grant).Success?
    ensures var run := GetArtistTracks(c, now, grant, albums, tracksOf, today, files, artistId);
            var listed := Paging.Flatten(albums.pages);
            var w := WriteAll(files, today, Fetched(listed, tracksOf));
            run.files == if run.result.Success? && AlbumsFileName(today) !in w then w[AlbumsFileName(today) := AlbumsFile(listed)]
                         else w
  {
    EnrichAlbumPagesFlat(albums.pages, tracksOf, today, files);
    EnrichAlbumsWrites(Paging.Flatten(albums.pages), tracksOf, today, files);
  }

  /** After the token, the names added are exactly the fetched tracks' and, on
      success, the album listing's; each new file holds the first fetched track with
      its name, or the listing. */
  lemma GetArtistTracksNames(c: TokenCache.Client, now: int, grant: TokenCache.Grant,
                             albums: Paging.Listing<AlbumItem>, tracksOf: string -> Paging.Listing<TrackItem>,
                             today: string, files: map<string, FileContent>, artistId: string)
    requires TokenCache.EnsureValidToken(TokenCache.Root, c, now, grant).Success?
    ensures var run := GetArtistTracks(c, now, grant, albums, tracksOf, today, files, artistId);
            var listed := Paging.Flatten(albums.pages);
            run.files.Keys == files.Keys + TrackNames(today, Fetched(listed, tracksOf)) +
                              (if run.result.Success? then {AlbumsFileName(today)} else {}) &&
            (forall k :: k in run.files && k !in files ==>
               (run.result.Success? && k == AlbumsFileName(today) && run.files[k] == AlbumsFile(listed)) ||
               FirstWritten(today, Fetched(listed, tracksOf), k, run.files[k]))
  {
    var listed := Paging.Flatten(albums.pages);
    GetArtistTracksDirectory(c, now, grant, albums, tracksOf, today, files, artistId);
    WriteAllSpec(files, today, Fetched(listed, tracksOf));
  }

  /** Every fetched track carries the name, type and release date of an album it
      was listed under. */
  lemma {:induction false} FetchedFromAlbums(albums: seq<AlbumItem>, tracksOf: string -> Paging.Listing<TrackItem>)
    ensures forall t :: t in Fetched(albums, tracksOf) ==>
              exists a :: a in albums && t.albumName == Some(a.name) &&
                          t.albumType == Some(a.albumType) && t.releaseDate == Some(a.releaseDate)
    decreases |albums|
  {
    if |albums| > 0 {
      FetchedFromAlbums(albums[1..], tracksOf);
      assert forall a :: a in albums[1..] ==> a in albums;
      assert albums[0] in albums;
    }
  }

  // ---------------------------------------------------------------------------
  // cleanup_old_files (wraithtrack.py:194-203): the loop over the listing.

  lemma StaleFilesUnfold(names: seq<string>, today: string)
    requires |names| > 0
    ensures Store.StaleFiles(names, today) ==
            (if EndsWith(names[0], ".json") && !StartsWith(names[0], today) then [names[0]] else []) +
            Store.StaleFiles(names[1..], today)
  {
  }

  /** One step of the cleanup loop: the name at `i`, then the rest of the listing. */
  lemma StaleFilesAt(names: seq<string>, i: nat, today: string)
    requires i < |names|
    ensures Store.StaleFiles(names[i..], today) ==
            (if EndsWith(names[i], ".json") && !StartsWith(names[i], today) then [names[i]] else []) +
            Store.StaleFiles(names[i + 1..], today)
  {
    assert names[i..][0] == names[i] && names[i..][1..] == names[i + 1..];
    StaleFilesUnfold(names[i..], today);
  }

  method CleanupOldFiles(names: seq<string>, today: string) returns (removed: seq<string>)
    ensures removed == Store.StaleFiles(names, today)
  {
    removed := [];
    var i := 0;
    while i < |names|
      invariant 0 <= i <= |names|
      invariant removed + Store.StaleFiles(names[i..], today) == Store.StaleFiles(names, today)
    {
      var name := names[i];
      var here: seq<string> := if EndsWith(name, ".json") && !StartsWith(name, today) then [name] else [];
      ghost var rest := Store.StaleFiles(names[i + 1..], today);
      StaleFilesAt(names, i, today);
      Lists.AppendAssoc(removed, here, rest);
      removed := removed + here;
      i := i + 1;
    }
    assert names[|names|..] == [];
  }
}
