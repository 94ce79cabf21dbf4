/** artistrack/artistrack.py: `populate_artist_data`, the refresh run that fetches
    the artist, lists its albums and saves every album and every track, and `main`,
    which runs the requested steps in a fixed order. The client and the data manager
    are collaborators passed in as an environment: fetch results are oracle values
    and the saves are functions over an abstract store state `S`, so the same run
    can be read against the test doubles, against the data manager as the code calls
    it, and against the calls the data manager's signatures intend. */
module Sync {
  import opened Wrappers
  import opened Text
  import opened Catalog
  import opened Lists
  import Store
  import Records

  /** What a save returns that the run reads back: the album's `name` and `album_id`. */
  datatype SavedAlbum = SavedAlbum(name: string, albumId: string)

  /** The collaborators of one run. `setup` is the construction of `SpotifyClient`
      and `DataManager`; `tracksOf` answers `get_album_tracks` by album id. */
  datatype Env<!S> = Env(
    setup: Result<(), Stop>,
    artist: Result<ArtistItem, Stop>,
    albums: Result<seq<AlbumItem>, Stop>,
    tracksOf: string -> Result<seq<TrackItem>, Stop>,
    saveAlbum: (S, AlbumItem) -> Result<(S, SavedAlbum), Stop>,
    saveSong: (S, TrackItem, string) -> Result<S, Stop>)

  /** The calls the run makes on its collaborators, with the arguments it passes. */
  datatype Call =
    | GetArtistData
    | GetAllArtistAlbums
    | SaveAlbumCall(album: AlbumItem)
    | GetAlbumTracks(albumId: string)
    | SaveSongCall(track: TrackItem, second: string)

  /** The progress lines the run prints. */
  datatype Line =
    | FetchingArtist
    | FetchingAlbums
    | Processing(count: nat)
    | SavedAlbumLine(index: nat, total: nat, name: string)
    | SavedTracks(tracks: nat)
    | Completed
    | ErrorLine

  /** The printed text of a line; the exception message after the error prefix is
      not modelled. */
  function Render(l: Line): string {
    match l
    case FetchingArtist => "Fetching artist data..."
    case FetchingAlbums => "Fetching artist albums..."
    case Processing(n) => "Processing " + NatToString(n) + " albums..."
    case SavedAlbumLine(i, n, name) => "[" + NatToString(i) + "/" + NatToString(n) + "] Saved album: " + name
    case SavedTracks(k) => "  - Saved " + NatToString(k) + " tracks"
    case Completed => "\nDatabase population completed successfully!"
    case ErrorLine => "\nError populating database: "
  }

  /** What a run did: the calls in order, the lines printed, the store afterwards
      and what stopped it, if anything. */
  datatype Run<S> = Run(calls: seq<Call>, lines: seq<Line>, store: S, stop: Option<Stop>)

  /** The track as saved: the album's images and release date written onto it. */
  function WithAlbumArt(t: TrackItem, a: AlbumItem): (r: TrackItem)
    ensures r.images == Some(a.images) && r.releaseDate == Some(a.releaseDate)
    ensures r.id == t.id && r.name == t.name && r.trackNumber == t.trackNumber &&
            r.durationMs == t.durationMs && r.uri == t.uri && r.spotifyUrl == t.spotifyUrl
  {
    t.(images := Some(a.images), releaseDate := Some(a.releaseDate))
  }

  // ---------------------------------------------------------------------------
  // The run (artistrack.py:20-54).

  /** The inner loop: save each track of album `a`, passing `second` along. */
  function SaveTracks<S>(env: Env<S>, st: S, a: AlbumItem, second: string, tracks: seq<TrackItem>): Run<S>
    decreases |tracks|
  {
    if |tracks| == 0 then Run([], [], st, None)
    else
      var t := WithAlbumArt(tracks[0], a);
      match env.saveSong(st, t, second)
      case Failure(e) => Run([SaveSongCall(t, second)], [], st, Some(e))
      case Success(st') =>
        var rest := SaveTracks(env, st', a, second, tracks[1..]);
        Run([SaveSongCall(t, second)] + rest.calls, [], rest.store, rest.stop)
  }

  /** The outer loop from album number `i` of `n`. */
  function ProcessAlbums<S>(env: Env<S>, st: S, albums: seq<AlbumItem>, i: nat, n: nat): Run<S>
    decreases |albums|
  {
    if |albums| == 0 then Run([], [], st, None)
    else
      var a := albums[0];
      match env.saveAlbum(st, a)
      case Failure(e) => Run([SaveAlbumCall(a)], [], st, Some(e))
      case Success((st1, saved)) =>
        var line := SavedAlbumLine(i, n, saved.name);
        match env.tracksOf(a.id)
        case Failure(e) => Run([SaveAlbumCall(a), GetAlbumTracks(a.id)], [line], st1, Some(e))
        case Success(tracks) =>
          var songs := SaveTracks(env, st1, a, saved.albumId, tracks);
          var head := [SaveAlbumCall(a), GetAlbumTracks(a.id)] + songs.calls;
          if songs.stop.Some? then Run(head, [line], songs.store, songs.stop)
          else
            var rest := ProcessAlbums(env, songs.store, albums[1..], i + 1, n);
            Run(head + rest.calls, [line, SavedTracks(|tracks|)] + rest.lines, rest.store, rest.stop)
  }

  /** The lines up to the end of the loop or the failure. */
  function Body<S>(env: Env<S>, st: S): Run<S> {
    if env.setup.Failure? then Run([], [], st, Some(env.setup.error))
    else if env.artist.Failure? then Run([GetArtistData], [FetchingArtist], st, Some(env.artist.error))
    else if env.albums.Failure? then
      Run([GetArtistData, GetAllArtistAlbums], [FetchingArtist, FetchingAlbums], st, Some(env.albums.error))
    else
      var albums := env.albums.value;
      var p := ProcessAlbums(env, st, albums, 1, |albums|);
      Run([GetArtistData, GetAllArtistAlbums] + p.calls,
          [FetchingArtist, FetchingAlbums, Processing(|albums|)] + p.lines, p.store, p.stop)
  }

  /** `populate_artist_data`: the success line, or the error line when an exception
      reached the handler. A `sys.exit` inside the client is not an `Exception` and
      passes through without it. */
  function PopulateArtistData<S>(env: Env<S>, st: S): Run<S> {
    var b := Body(env, st);
    match b.stop
    case None => b.(lines := b.lines + [Completed])
    case Some(Raised) => b.(lines := b.lines + [ErrorLine])
    case Some(Exited(_)) => b
  }

  /** The process exit status a stop leads to: the handler exits with 1. */
  function ExitCode(stop: Option<Stop>): Option<int> {
    match stop
    case None => None
    case Some(Raised) => Some(1)
    case Some(Exited(c)) => Some(c)
  }

  // ---------------------------------------------------------------------------
  // Reading the call log.

  function AlbumOfCall(c: Call): Option<AlbumItem> {
    if c.SaveAlbumCall? then Some(c.album) else None
  }

  function FetchOfCall(c: Call): Option<string> {
    if c.GetAlbumTracks? then Some(c.albumId) else None
  }

  function TrackOfCall(c: Call): Option<TrackItem> {
    if c.SaveSongCall? then Some(c.track) else None
  }

  function CountOfLine(l: Line): Option<nat> {
    if l.SavedTracks? then Some(l.tracks) else None
  }

  function NumberOfLine(l: Line): Option<(nat, nat)> {
    if l.SavedAlbumLine? then Some((l.index, l.total)) else None
  }

  /** The albums passed to `save_album`, in order. */
  function SavedAlbums(calls: seq<Call>): seq<AlbumItem> { Pick(calls, AlbumOfCall) }

  /** The album ids passed to `get_album_tracks`, in order. */
  function FetchedIds(calls: seq<Call>): seq<string> { Pick(calls, FetchOfCall) }

  /** The tracks passed to `save_song`, in order. */
  function SongsSaved(calls: seq<Call>): seq<TrackItem> { Pick(calls, TrackOfCall) }

  // ---------------------------------------------------------------------------
  // Reference definitions.

  function Ids(albums: seq<AlbumItem>): (r: seq<string>)
    ensures |r| == |albums| && forall j :: 0 <= j < |albums| ==> r[j] == albums[j].id
    decreases |albums|
  {
    if |albums| == 0 then [] else [albums[0].id] + Ids(albums[1..])
  }

  function Stamp(tracks: seq<TrackItem>, a: AlbumItem): (r: seq<TrackItem>)
    ensures |r| == |tracks| && forall j :: 0 <= j < |tracks| ==> r[j] == WithAlbumArt(tracks[j], a)
    decreases |tracks|
  {
    if |tracks| == 0 then [] else [WithAlbumArt(tracks[0], a)] + Stamp(tracks[1..], a)
  }

  /** Every album's fetched tracks, stamped with that album's art, album by album. */
  function StampedAll(albums: seq<AlbumItem>, tracksOf: string -> Result<seq<TrackItem>, Stop>): seq<TrackItem>
    decreases |albums|
  {
    if |albums| == 0 then []
    else
      var tracks := if tracksOf(albums[0].id).Success? then tracksOf(albums[0].id).value else [];
      Stamp(tracks, albums[0]) + StampedAll(albums[1..], tracksOf)
  }

  /** The track counts of the albums, one per album. */
  function Counts(albums: seq<AlbumItem>, tracksOf: string -> Result<seq<TrackItem>, Stop>): (r: seq<nat>)
    ensures |r| == |albums|
    decreases |albums|
  {
    if |albums| == 0 then []
    else
      var k := if tracksOf(albums[0].id).Success? then |tracksOf(albums[0].id).value| else 0;
      [k] + Counts(albums[1..], tracksOf)
  }

  /** `(i, n), (i+1, n), ...`, `k` of them: the `[i/n]` counters. */
  function Numbers(i: nat, n: nat, k: nat): (r: seq<(nat, nat)>)
    ensures |r| == k && forall j :: 0 <= j < k ==> r[j] == (i + j, n)
    decreases k
  {
    if k == 0 then [] else [(i, n)] + Numbers(i + 1, n, k - 1)
  }

  // ---------------------------------------------------------------------------
  // Properties of the loops.

  /** The inner loop calls `save_song` once per track, in order, each with the
      album's art and the same second argument, and stops at the first failure. */
  lemma {:induction false} SaveTracksSpec<S>(env: Env<S>, st: S, a: AlbumItem, second: string, tracks: seq<TrackItem>)
    ensures var r := SaveTracks(env, st, a, second, tracks);
            |r.calls| <= |tracks| &&
            (forall j :: 0 <= j < |r.calls| ==> r.calls[j] == SaveSongCall(WithAlbumArt(tracks[j], a), second)) &&
            r.lines == [] &&
            (r.stop.None? ==> |r.calls| == |tracks|) &&
            (r.stop.Some? ==> |r.calls| >= 1) &&
            (r.stop.None? ==> SongsSaved(r.calls) == Stamp(tracks, a))
    decreases |tracks|
  {
    if |tracks| > 0 {
      var t := WithAlbumArt(tracks[0], a);
      match env.saveSong(st, t, second)
      case Failure(e) =>
      case Success(st') =>
        SaveTracksSpec(env, st', a, second, tracks[1..]);
        var rest := SaveTracks(env, st', a, second, tracks[1..]);
        if rest.stop.None? {
          assert [SaveSongCall(t, second)] + rest.calls == SaveTracks(env, st, a, second, tracks).calls;
          PickAppend([SaveSongCall(t, second)], rest.calls, TrackOfCall);
        }
    }
  }

  /** One album's share of the call log: `save_album`, `get_album_tracks`, then its
      `save_song` calls. */
  lemma AlbumStepCalls(a: AlbumItem, songCalls: seq<Call>, rest: seq<Call>)
    requires forall j :: 0 <= j < |songCalls| ==> songCalls[j].SaveSongCall?
    ensures var calls := [SaveAlbumCall(a), GetAlbumTracks(a.id)] + songCalls + rest;
            SavedAlbums(calls) == [a] + SavedAlbums(rest) &&
            FetchedIds(calls) == [a.id] + FetchedIds(rest) &&
            SongsSaved(calls) == SongsSaved(songCalls) + SongsSaved(rest)
  {
    var pair := [SaveAlbumCall(a), GetAlbumTracks(a.id)];
    assert pair[1..][1..] == [];
    assert SavedAlbums(pair + songCalls + rest) == [a] + SavedAlbums(rest) by {
      PickAppend3(pair, songCalls, rest, AlbumOfCall);
      PickNone(songCalls, AlbumOfCall);
    }
    assert FetchedIds(pair + songCalls + rest) == [a.id] + FetchedIds(rest) by {
      PickAppend3(pair, songCalls, rest, FetchOfCall);
      PickNone(songCalls, FetchOfCall);
    }
    assert SongsSaved(pair + songCalls + rest) == SongsSaved(songCalls) + SongsSaved(rest) by {
      PickAppend3(pair, songCalls, rest, TrackOfCall);
      assert Pick(pair, TrackOfCall) == [];
    }
  }

  /** A loop that runs to the end has called `save_album` on every album of the
      list, whatever its type, and `get_album_tracks` on each album's id, in list
      order, and has saved every fetched track stamped with its album's art. */
  lemma {:induction false} ProcessAlbumsCalls<S>(env: Env<S>, st: S, albums: seq<AlbumItem>, i: nat, n: nat)
    ensures var r := ProcessAlbums(env, st, albums, i, n);
            r.stop.None? ==>
              (forall j :: 0 <= j < |albums| ==> env.tracksOf(albums[j].id).Success?) &&
              SavedAlbums(r.calls) == albums &&
              FetchedIds(r.calls) == Ids(albums) &&
              SongsSaved(r.calls) == StampedAll(albums, env.tracksOf)
    decreases |albums|
  {
    ProcessAlbumsFetched(env, st, albums, i, n);
    if |albums| > 0 {
      var a := albums[0];
      match env.saveAlbum(st, a)
      case Failure(_) =>
      case Success((st1, saved)) =>
        match env.tracksOf(a.id)
        case Failure(_) =>
        case Success(tracks) =>
          var songs := SaveTracks(env, st1, a, saved.albumId, tracks);
          if songs.stop.None? {
            assert SongsSaved(songs.calls) == Stamp(tracks, a) &&
                   forall j :: 0 <= j < |songs.calls| ==> songs.calls[j].SaveSongCall? by {
              SaveTracksSpec(env, st1, a, saved.albumId, tracks);
            }
            var rest := ProcessAlbums(env, songs.store, albums[1..], i + 1, n);
            assert ProcessAlbums(env, st, albums, i, n).calls ==
                   [SaveAlbumCall(a), GetAlbumTracks(a.id)] + songs.calls + rest.calls;
            assert ProcessAlbums(env, st, albums, i, n).stop == rest.stop;
            ProcessAlbumsCalls(env, songs.store, albums[1..], i + 1, n);
            AlbumStepCalls(a, songs.calls, rest.calls);
            assert StampedAll(albums, env.tracksOf) == Stamp(tracks, a) + StampedAll(albums[1..], env.tracksOf);
          }
    }
  }

  /** A loop that runs to the end fetched the tracks of every album. */
  lemma {:induction false} ProcessAlbumsFetched<S>(env: Env<S>, st: S, albums: seq<AlbumItem>, i: nat, n: nat)
    ensures ProcessAlbums(env, st, albums, i, n).stop.None? ==>
              forall j :: 0 <= j < |albums| ==> env.tracksOf(albums[j].id).Success?
    decreases |albums|
  {
    if |albums| > 0 {
      var a := albums[0];
      match env.saveAlbum(st, a)
      case Failure(_) =>
      case Success((st1, saved)) =>
        match env.tracksOf(a.id)
        case Failure(_) =>
        case Success(tracks) =>
          var songs := SaveTracks(env, st1, a, saved.albumId, tracks);
          if songs.stop.None? {
            var rest := ProcessAlbums(env, songs.store, albums[1..], i + 1, n);
            ProcessAlbumsFetched(env, songs.store, albums[1..], i + 1, n);
            if rest.stop.None? {
              forall j | 0 <= j < |albums|
                ensures env.tracksOf(albums[j].id).Success?
              {
                if j > 0 {
                  assert albums[j] == albums[1..][j - 1];
                }
              }
            }
          }
    }
  }

  /** A loop that runs to the end prints, per album, `[i/n] Saved album: ...` with
      the running number and then `Saved k tracks` with that album's track count. */
  lemma {:induction false} ProcessAlbumsLines<S>(env: Env<S>, st: S, albums: seq<AlbumItem>, i: nat, n: nat)
    ensures var r := ProcessAlbums(env, st, albums, i, n);
            r.stop.None? ==>
              |r.lines| == 2 * |albums| &&
              Pick(r.lines, NumberOfLine) == Numbers(i, n, |albums|) &&
              Pick(r.lines, CountOfLine) == Counts(albums, env.tracksOf)
    decreases |albums|
  {
    if |albums| > 0 {
      var a := albums[0];
      match env.saveAlbum(st, a)
      case Failure(_) =>
      case Success((st1, saved)) =>
        match env.tracksOf(a.id)
        case Failure(_) =>
        case Success(tracks) =>
          var songs := SaveTracks(env, st1, a, saved.albumId, tracks);
          if songs.stop.None? {
            var rest := ProcessAlbums(env, songs.store, albums[1..], i + 1, n);
            ProcessAlbumsLines(env, songs.store, albums[1..], i + 1, n);
            var pair := [SavedAlbumLine(i, n, saved.name), SavedTracks(|tracks|)];
            PickAppend(pair, rest.lines, NumberOfLine);
            PickAppend(pair, rest.lines, CountOfLine);
            assert pair[1..][1..] == [];
          }
    }
  }

  // ---------------------------------------------------------------------------
  // The whole run.

  /** A run completes exactly when nothing stopped it; it then made the two fetches
      and the loop's calls, and printed the fetch lines, `Processing n albums...`,
      two lines per album and the success line. */
  lemma PopulateCompleted<S>(env: Env<S>, st: S)
    ensures var r := PopulateArtistData(env, st);
            r.stop.None? ==>
              env.setup.Success? && env.artist.Success? && env.albums.Success? &&
              var albums := env.albums.value;
              var p := ProcessAlbums(env, st, albums, 1, |albums|);
              p.stop.None? && r.store == p.store &&
              r.calls == [GetArtistData, GetAllArtistAlbums] + p.calls &&
              r.lines == [FetchingArtist, FetchingAlbums, Processing(|albums|)] + p.lines + [Completed] &&
              ExitCode(r.stop).None?
  {
  }

  /** What a completed run called, in terms of its inputs alone. */
  lemma PopulateCompletedCalls<S>(env: Env<S>, st: S)
    ensures var r := PopulateArtistData(env, st);
            r.stop.None? ==>
              SavedAlbums(r.calls) == env.albums.value &&
              FetchedIds(r.calls) == Ids(env.albums.value) &&
              SongsSaved(r.calls) == StampedAll(env.albums.value, env.tracksOf)
  {
    var r := PopulateArtistData(env, st);
    if r.stop.None? {
      PopulateCompleted(env, st);
      var albums := env.albums.value;
      var p := ProcessAlbums(env, st, albums, 1, |albums|);
      ProcessAlbumsCalls(env, st, albums, 1, |albums|);
      var fetches := [GetArtistData, GetAllArtistAlbums];
      assert r.calls == fetches + p.calls;
      PickAppend(fetches, p.calls, AlbumOfCall);
      PickAppend(fetches, p.calls, FetchOfCall);
      PickAppend(fetches, p.calls, TrackOfCall);
      assert fetches[1..][1..] == [];
    }
  }

  /** What a completed run printed, in terms of its inputs alone. */
  lemma PopulateCompletedLines<S>(env: Env<S>, st: S)
    ensures var r := PopulateArtistData(env, st);
            r.stop.None? ==>
              |r.lines| == 2 * |env.albums.value| + 4 &&
              Pick(r.lines, NumberOfLine) == Numbers(1, |env.albums.value|, |env.albums.value|) &&
              Pick(r.lines, CountOfLine) == Counts(env.albums.value, env.tracksOf)
  {
    var r := PopulateArtistData(env, st);
    if r.stop.None? {
      PopulateCompleted(env, st);
      var albums := env.albums.value;
      var p := ProcessAlbums(env, st, albums, 1, |albums|);
      ProcessAlbumsLines(env, st, albums, 1, |albums|);
      assert r.lines == [FetchingArtist, FetchingAlbums, Processing(|albums|)] + p.lines + [Completed];
      FramedLines(|albums|, p.lines);
    }
  }

  /** The lines around the loop's own carry no album number and no track count. */
  lemma FramedLines(n: nat, body: seq<Line>)
    ensures var lines := [FetchingArtist, FetchingAlbums, Processing(n)] + body + [Completed];
            |lines| == |body| + 4 &&
            Pick(lines, NumberOfLine) == Pick(body, NumberOfLine) &&
            Pick(lines, CountOfLine) == Pick(body, CountOfLine)
  {
    var first := [FetchingArtist, FetchingAlbums, Processing(n)];
    PickAppend3(first, body, [Completed], NumberOfLine);
    PickNone(first, NumberOfLine);
    PickNone([Completed], NumberOfLine);
    PickAppend3(first, body, [Completed], CountOfLine);
    PickNone(first, CountOfLine);
    PickNone([Completed], CountOfLine);
  }

  /** Any failure ends the process with status 1 when the client's exits are status
      1: an exception prints the error line, a `sys.exit` prints nothing more, and
      the success line is never printed. */
  lemma PopulateFailed<S>(env: Env<S>, st: S)
    ensures var r := PopulateArtistData(env, st);
            r.stop.Some? ==>
              Completed !in r.lines &&
              (r.stop.value.Raised? ==> ExitCode(r.stop) == Some(1) && r.lines[|r.lines| - 1] == ErrorLine) &&
              (r.stop.value.Exited? ==> ExitCode(r.stop) == Some(r.stop.value.code) && ErrorLine !in r.lines)
  {
    var b := Body(env, st);
    if b.stop.Some? {
      BodyLinesPlain(env, st);
    }
  }

  /** Before the final line, the run prints neither the success nor the error line. */
  lemma BodyLinesPlain<S>(env: Env<S>, st: S)
    ensures Completed !in Body(env, st).lines && ErrorLine !in Body(env, st).lines
  {
    if env.setup.Success? && env.artist.Success? && env.albums.Success? {
      var albums := env.albums.value;
      var p := ProcessAlbums(env, st, albums, 1, |albums|);
      LoopLinesPlain(env, st, albums, 1, |albums|);
      var lines := Body(env, st).lines;
      forall j | 0 <= j < |lines|
        ensures lines[j] != Completed && lines[j] != ErrorLine
      {
        if j >= 3 {
          assert lines[j] == p.lines[j - 3];
          assert lines[j] in p.lines;
        }
      }
    }
  }

  lemma {:induction false} LoopLinesPlain<S>(env: Env<S>, st: S, albums: seq<AlbumItem>, i: nat, n: nat)
    ensures forall l :: l in ProcessAlbums(env, st, albums, i, n).lines ==> l.SavedAlbumLine? || l.SavedTracks?
    decreases |albums|
  {
    if |albums| > 0 {
      var a := albums[0];
      match env.saveAlbum(st, a)
      case Failure(_) =>
      case Success((st1, saved)) =>
        match env.tracksOf(a.id)
        case Failure(_) =>
        case Success(tracks) =>
          var songs := SaveTracks(env, st1, a, saved.albumId, tracks);
          if songs.stop.None? {
            var rest := ProcessAlbums(env, songs.store, albums[1..], i + 1, n);
            LoopLinesPlain(env, songs.store, albums[1..], i + 1, n);
            var lines := [SavedAlbumLine(i, n, saved.name), SavedTracks(|tracks|)] + rest.lines;
            assert forall l :: l in lines ==> l in rest.lines || l == lines[0] || l == lines[1];
          }
    }
  }

  /** The run of the test suite's failing case: `get_artist_data` raises, nothing
      else is called, the error line follows the first line and the exit status is 1. */
  lemma ArtistFailureStopsEarly<S>(env: Env<S>, st: S)
    requires env.setup.Success? && env.artist == Failure(Raised)
    ensures var r := PopulateArtistData(env, st);
            r.calls == [GetArtistData] && r.lines == [FetchingArtist, ErrorLine] &&
            r.store == st && ExitCode(r.stop) == Some(1)
  {
  }

  // ---------------------------------------------------------------------------
  // `main` (artistrack.py:56-82).

  /** The parsed command line; `generateStory` and `outputPath` are `None` when absent. */
  datatype Flags = Flags(
    newdb: bool,
    verbose: bool,
    buildDiscography: bool,
    generateStory: Option<string>,
    outputPath: Option<string>,
    refreshData: bool)

  datatype Action =
    | RecreateDb
    | Refresh(verbose: bool)
    | BuildDiscography
    | MakeStory(title: string, outputPath: Option<string>)

  /** The position of each step in `main`'s fixed order. */
  function Rank(a: Action): nat {
    match a
    case RecreateDb => 0
    case Refresh(_) => 1
    case BuildDiscography => 2
    case MakeStory(_, _) => 3
  }

  /** `--generate-story` is acted on when it is given and non-empty. */
  predicate WantsStory(f: Flags) {
    f.generateStory.Some? && f.generateStory.value != ""
  }

  /** `main`: the steps it runs and the exit status. `refreshExit` is the status
      `populate_artist_data` exits with, `None` when it returns; an exit ends `main`
      before the later steps. */
  function Main(f: Flags, refreshExit: Option<int>): (seq<Action>, Option<int>) {
    var first := (if f.newdb then [RecreateDb] else []) + (if f.refreshData then [Refresh(f.verbose)] else []);
    if f.refreshData && refreshExit.Some? then (first, refreshExit)
    else
      (first + (if f.buildDiscography then [BuildDiscography] else []) +
               (if WantsStory(f) then [MakeStory(f.generateStory.value, f.outputPath)] else []),
       None)
  }

  /** The steps run in the fixed order, each exactly when its flag is set, the story
      step receives exactly the title and the output path, and with no flag set
      nothing runs. */
  lemma MainOrder(f: Flags, refreshExit: Option<int>)
    ensures var (acts, _) := Main(f, refreshExit);
            (forall j, k :: 0 <= j < k < |acts| ==> Rank(acts[j]) < Rank(acts[k]))
    ensures var (acts, code) := Main(f, refreshExit);
            var proceeds := !f.refreshData || refreshExit.None?;
            (RecreateDb in acts <==> f.newdb) &&
            (Refresh(f.verbose) in acts <==> f.refreshData) &&
            (BuildDiscography in acts <==> f.buildDiscography && proceeds) &&
            (forall t, p :: MakeStory(t, p) in acts <==>
                              proceeds && WantsStory(f) && t == f.generateStory.value && p == f.outputPath) &&
            (code.Some? <==> f.refreshData && refreshExit.Some?)
    ensures !f.newdb && !f.refreshData && !f.buildDiscography && !WantsStory(f) ==>
              Main(f, refreshExit).0 == []
  {
    MainRanks(f, refreshExit);
    MainSteps(f, refreshExit);
  }

  lemma MainRanks(f: Flags, refreshExit: Option<int>)
    ensures var acts := Main(f, refreshExit).0;
            forall j, k :: 0 <= j < k < |acts| ==> Rank(acts[j]) < Rank(acts[k])
  {
  }

  lemma MainSteps(f: Flags, refreshExit: Option<int>)
    ensures var (acts, code) := Main(f, refreshExit);
            var proceeds := !f.refreshData || refreshExit.None?;
            (RecreateDb in acts <==> f.newdb) &&
            (Refresh(f.verbose) in acts <==> f.refreshData) &&
            (BuildDiscography in acts <==> f.buildDiscography && proceeds) &&
            (forall t, p :: MakeStory(t, p) in acts <==>
                              proceeds && WantsStory(f) && t == f.generateStory.value && p == f.outputPath) &&
            (code.Some? <==> f.refreshData && refreshExit.Some?)
  {
  }

  // ---------------------------------------------------------------------------
  // The data manager behind the run.

  /** A call `save_album(album_data, *extra)`: the arguments bind to the parameters
      `album_data, artist_id`, and one left unbound or one too many is a TypeError
      before any row is written. */
  function CallSaveAlbum(st: Store.Store, a: AlbumItem, extra: seq<string>): (r: Result<(Store.Store, SavedAlbum), Stop>)
    ensures |extra| != 1 ==> r == Failure(Raised)
    ensures r.Success? ==> a.id in r.value.0.albums && r.value.0.albums[a.id].artistId == Some(extra[0]) &&
                           r.value.1.albumId == a.id
  {
    match Records.ConstructByPosition(Records.SaveAlbumParams, 1 + |extra|)
    case Failure(_) => Failure(Raised)
    case Success(_) =>
      assert |extra| == 1 by {
        Records.SaveCallsBind();
      }
      match Store.SaveAlbum(st, a, extra[0])
      case Failure(_) => Failure(Raised)
      case Success((st', row)) => Success((st', SavedAlbum(row.name, row.albumId)))
  }

  /** A call `save_song(song_data, *extra)`: the arguments bind to `song_data,
      artist_id, album_id`, `album_id` defaulting to `None`. */
  function CallSaveSong(st: Store.Store, t: TrackItem, extra: seq<string>): (r: Result<Store.Store, Stop>)
    ensures |extra| == 0 || |extra| > 2 ==> r == Failure(Raised)
    ensures r.Success? ==> t.id in r.value.songs && r.value.songs[t.id].artistId == Some(extra[0]) &&
                           r.value.songs[t.id].albumId == (if |extra| == 2 then Some(extra[1]) else None)
  {
    match Records.ConstructByPosition(Records.SaveSongParams, 1 + |extra|)
    case Failure(_) => Failure(Raised)
    case Success(_) =>
      assert 1 <= |extra| <= 2 by {
        Records.SaveCallsBind();
      }
      match Store.SaveSong(st, t, extra[0], if |extra| == 2 then Some(extra[1]) else None)
      case Failure(_) => Failure(Raised)
      case Success((st', _)) => Success(st')
  }

  /** `save_album(album_data)` as artistrack.py:38 calls it: `artist_id` is left
      unbound, so every call raises. */
  function SaveAlbumAsCalled(st: Store.Store, a: AlbumItem): (r: Result<(Store.Store, SavedAlbum), Stop>)
    ensures r == Failure(Raised)
  {
    CallSaveAlbum(st, a, [])
  }

  /** `save_song(track_data, album.album_id)` as artistrack.py:47 calls it: the album
      id binds to `artist_id`, and `album_id` keeps its default `None`. */
  function SaveSongAsCalled(st: Store.Store, t: TrackItem, second: string): Result<Store.Store, Stop> {
    CallSaveSong(st, t, [second])
  }

  /** The run against the data manager as the code calls it. */
  function AsCalledEnv(setup: Result<(), Stop>, artist: Result<ArtistItem, Stop>,
                       albums: Result<seq<AlbumItem>, Stop>,
                       tracksOf: string -> Result<seq<TrackItem>, Stop>): Env<Store.Store> {
    Env(setup, artist, albums, tracksOf, SaveAlbumAsCalled, SaveSongAsCalled)
  }

  /** As written, a refresh that finds any album fails on the first `save_album`:
      nothing is stored, no track is fetched, and the process exits with status 1. */
  lemma AsCalledRefreshFails(setup: Result<(), Stop>, artist: Result<ArtistItem, Stop>,
                             albums: seq<AlbumItem>, tracksOf: string -> Result<seq<TrackItem>, Stop>,
                             st: Store.Store)
    requires setup.Success? && artist.Success? && |albums| > 0
    ensures var r := PopulateArtistData(AsCalledEnv(setup, artist, Success(albums), tracksOf), st);
            r.store == st &&
            r.calls == [GetArtistData, GetAllArtistAlbums, SaveAlbumCall(albums[0])] &&
            r.lines == [FetchingArtist, FetchingAlbums, Processing(|albums|), ErrorLine] &&
            ExitCode(r.stop) == Some(1)
  {
  }

  /** Were `save_album` to succeed, the song call as written would still store every
      album track as a single credited to the album's id as its artist. */
  lemma AsCalledSongIsSingle(st: Store.Store, t: TrackItem, albumId: string)
    requires t.images.None? || |t.images.value| >= 3
    ensures SaveSongAsCalled(st, t, albumId).Success?
    ensures var row := SaveSongAsCalled(st, t, albumId).value.songs[t.id];
            row.artistId == Some(albumId) && row.albumId.None? && row.isSingle
  {
    Store.SongRowOfSpec(t, albumId, None);
  }

  /** `save_album(album_data, artist_id)`, the call the signature asks for: the first
      reading of what was intended, where the caller supplies the artist. */
  function SaveAlbumFor(artistId: string, st: Store.Store, a: AlbumItem): Result<(Store.Store, SavedAlbum), Stop> {
    CallSaveAlbum(st, a, [artistId])
  }

  /** `save_song(track_data, artist_id, album.album_id)`. */
  function SaveSongFor(artistId: string, st: Store.Store, t: TrackItem, albumId: string): Result<Store.Store, Stop> {
    CallSaveSong(st, t, [artistId, albumId])
  }

  /** The run under the first reading: each save is passed the fetched artist's id. */
  function IntendedEnv(setup: Result<(), Stop>, artist: ArtistItem,
                       albums: Result<seq<AlbumItem>, Stop>,
                       tracksOf: string -> Result<seq<TrackItem>, Stop>): Env<Store.Store> {
    Env(setup, Success(artist), albums, tracksOf,
        (st: Store.Store, a: AlbumItem) => SaveAlbumFor(artist.id, st, a),
        (st: Store.Store, t: TrackItem, albumId: string) => SaveSongFor(artist.id, st, t, albumId))
  }

  /** Every row in `after` is one `before` already held or one credited to the
      artist; a new song row is an album track, not a single. */
  predicate Credited(before: Store.Store, after: Store.Store, artistId: string) {
    after.artists == before.artists &&
    before.albums.Keys <= after.albums.Keys && before.songs.Keys <= after.songs.Keys &&
    (forall k :: k in after.albums ==>
       (k in before.albums && after.albums[k] == before.albums[k]) ||
       after.albums[k].artistId == Some(artistId)) &&
    (forall k :: k in after.songs ==>
       (k in before.songs && after.songs[k] == before.songs[k]) ||
       (after.songs[k].artistId == Some(artistId) && after.songs[k].albumId.Some? && !after.songs[k].isSingle))
  }

  lemma CreditedTrans(a: Store.Store, b: Store.Store, c: Store.Store, artistId: string)
    requires Credited(a, b, artistId) && Credited(b, c, artistId)
    ensures Credited(a, c, artistId)
  {
  }

  /** The intended `save_album` credits its one new row to the artist. */
  lemma IntendedAlbumSaved(artistId: string, st: Store.Store, a: AlbumItem)
    ensures SaveAlbumFor(artistId, st, a).Success? ==>
              var st1 := SaveAlbumFor(artistId, st, a).value.0;
              Credited(st, st1, artistId) && a.id in st1.albums
  {
  }

  /** The intended `save_song` credits its one new row to the artist, as an album track. */
  lemma IntendedSongSaved(artistId: string, st: Store.Store, t: TrackItem, albumId: string)
    ensures SaveSongFor(artistId, st, t, albumId).Success? ==>
              Credited(st, SaveSongFor(artistId, st, t, albumId).value, artistId)
  {
  }

  lemma {:induction false} IntendedTracksCredited(env: Env<Store.Store>, artist: ArtistItem, st: Store.Store,
                                                  a: AlbumItem, albumId: string, tracks: seq<TrackItem>)
    requires forall s, t, k :: env.saveSong(s, t, k) == SaveSongFor(artist.id, s, t, k)
    ensures Credited(st, SaveTracks(env, st, a, albumId, tracks).store, artist.id)
    decreases |tracks|
  {
    if |tracks| > 0 {
      var t := WithAlbumArt(tracks[0], a);
      if SaveSongFor(artist.id, st, t, albumId).Success? {
        var st' := SaveSongFor(artist.id, st, t, albumId).value;
        IntendedSongSaved(artist.id, st, t, albumId);
        IntendedTracksCredited(env, artist, st', a, albumId, tracks[1..]);
        CreditedTrans(st, st', SaveTracks(env, st', a, albumId, tracks[1..]).store, artist.id);
      }
    }
  }

  lemma IntendedAlbumsCredited(env: Env<Store.Store>, artist: ArtistItem, st: Store.Store,
                                albums: seq<AlbumItem>, i: nat, n: nat)
    requires forall s, t, k :: env.saveSong(s, t, k) == SaveSongFor(artist.id, s, t, k)
    requires forall s, a :: env.saveAlbum(s, a) == SaveAlbumFor(artist.id, s, a)
    ensures var r := ProcessAlbums(env, st, albums, i, n);
            Credited(st, r.store, artist.id) &&
            (r.stop.None? ==> forall j :: 0 <= j < |albums| ==> albums[j].id in r.store.albums)
  {
    IntendedLoopCredited(env, artist, st, albums, i, n);
    IntendedLoopStored(env, artist, st, albums, i, n);
  }

  lemma {:induction false} IntendedLoopCredited(env: Env<Store.Store>, artist: ArtistItem, st: Store.Store,
                                                albums: seq<AlbumItem>, i: nat, n: nat)
    requires forall s, t, k :: env.saveSong(s, t, k) == SaveSongFor(artist.id, s, t, k)
    requires forall s, a :: env.saveAlbum(s, a) == SaveAlbumFor(artist.id, s, a)
    ensures Credited(st, ProcessAlbums(env, st, albums, i, n).store, artist.id)
    decreases |albums|
  {
    if |albums| > 0 {
      var a := albums[0];
      if SaveAlbumFor(artist.id, st, a).Success? {
        var (st1, saved) := SaveAlbumFor(artist.id, st, a).value;
        if env.tracksOf(a.id).Success? {
          var tracks := env.tracksOf(a.id).value;
          var songs := SaveTracks(env, st1, a, saved.albumId, tracks);
          assert Credited(st, songs.store, artist.id) by {
            IntendedAlbumSaved(artist.id, st, a);
            IntendedTracksCredited(env, artist, st1, a, saved.albumId, tracks);
            CreditedTrans(st, st1, songs.store, artist.id);
          }
          if songs.stop.None? {
            IntendedLoopCredited(env, artist, songs.store, albums[1..], i + 1, n);
            CreditedTrans(st, songs.store, ProcessAlbums(env, songs.store, albums[1..], i + 1, n).store, artist.id);
          }
        }
      }
    }
  }

  /** The intended track saves leave the albums table as it was. */
  lemma {:induction false} IntendedTracksKeepAlbums(env: Env<Store.Store>, artist: ArtistItem, st: Store.Store,
                                                    a: AlbumItem, albumId: string, tracks: seq<TrackItem>)
    requires forall s, t, k :: env.saveSong(s, t, k) == SaveSongFor(artist.id, s, t, k)
    ensures SaveTracks(env, st, a, albumId, tracks).store.albums == st.albums
    decreases |tracks|
  {
    if |tracks| > 0 {
      var t := WithAlbumArt(tracks[0], a);
      if SaveSongFor(artist.id, st, t, albumId).Success? {
        IntendedTracksKeepAlbums(env, artist, SaveSongFor(artist.id, st, t, albumId).value, a, albumId, tracks[1..]);
      }
    }
  }

  /** The intended album save adds the one album row and keeps the rest. */
  lemma AlbumSaveShape(artistId: string, st: Store.Store, a: AlbumItem)
    requires SaveAlbumFor(artistId, st, a).Success?
    ensures var st1 := SaveAlbumFor(artistId, st, a).value.0;
            st1.albums == st.albums[a.id := st1.albums[a.id]]
  {
  }

  lemma {:induction false} IntendedLoopStored(env: Env<Store.Store>, artist: ArtistItem, st: Store.Store,
                                              albums: seq<AlbumItem>, i: nat, n: nat)
    requires forall s, t, k :: env.saveSong(s, t, k) == SaveSongFor(artist.id, s, t, k)
    requires forall s, a :: env.saveAlbum(s, a) == SaveAlbumFor(artist.id, s, a)
    ensures var r := ProcessAlbums(env, st, albums, i, n);
            st.albums.Keys <= r.store.albums.Keys &&
            (r.stop.None? ==> forall j :: 0 <= j < |albums| ==> albums[j].id in r.store.albums)
    decreases |albums|
  {
    if |albums| > 0 {
      var a := albums[0];
      if SaveAlbumFor(artist.id, st, a).Success? {
        var (st1, saved) := SaveAlbumFor(artist.id, st, a).value;
        AlbumSaveShape(artist.id, st, a);
        if env.tracksOf(a.id).Success? {
          var tracks := env.tracksOf(a.id).value;
          var songs := SaveTracks(env, st1, a, saved.albumId, tracks);
          IntendedTracksKeepAlbums(env, artist, st1, a, saved.albumId, tracks);
          if songs.stop.None? {
            var rest := ProcessAlbums(env, songs.store, albums[1..], i + 1, n);
            IntendedLoopStored(env, artist, songs.store, albums[1..], i + 1, n);
            assert a.id in rest.store.albums;
            if rest.stop.None? {
              forall j | 0 <= j < |albums|
                ensures albums[j].id in rest.store.albums
              {
                if j > 0 {
                  assert albums[j] == albums[1..][j - 1];
                }
              }
            }
          }
        }
      }
    }
  }

  /** Under the first reading, every album and track row the run writes is credited
      to the fetched artist, every track row is an album track, and a completed run
      has stored every listed album. `ItemsReadingAgrees` carries this to the second
      reading when the refreshed artist is the first artist of every item. */
  lemma IntendedRunCredited(setup: Result<(), Stop>, artist: ArtistItem, albums: Result<seq<AlbumItem>, Stop>,
                            tracksOf: string -> Result<seq<TrackItem>, Stop>, st: Store.Store)
    ensures var r := PopulateArtistData(IntendedEnv(setup, artist, albums, tracksOf), st);
            Credited(st, r.store, artist.id) &&
            (r.stop.None? ==> forall a :: a in albums.value ==> a.id in r.store.albums)
  {
    var env := IntendedEnv(setup, artist, albums, tracksOf);
    if setup.Success? && albums.Success? {
      IntendedAlbumsCredited(env, artist, st, albums.value, 1, |albums.value|);
    }
  }

  // ---------------------------------------------------------------------------
  // The second reading: the data manager as its tests and the web view call it,
  // taking the artist from the item instead of from a parameter.

  /** `save_album(album_data)`, with `artist_id` taken from `album_data['artists'][0]['id']`
      as tests/test_data_manager.py expects; an item without artists raises. */
  function SaveAlbumByItem(st: Store.Store, a: AlbumItem): (r: Result<(Store.Store, SavedAlbum), Stop>)
    ensures |a.artistIds| == 0 ==> r == Failure(Raised)
    ensures r.Success? ==> a.id in r.value.0.albums && r.value.0.albums[a.id].artistId == Some(a.artistIds[0])
  {
    if |a.artistIds| == 0 then Failure(Raised) else SaveAlbumFor(a.artistIds[0], st, a)
  }

  /** `save_song(track_data, album_id)`, with `artist_id` taken from the track's first artist. */
  function SaveSongByItem(st: Store.Store, t: TrackItem, albumId: string): (r: Result<Store.Store, Stop>)
    ensures |t.artistIds| == 0 ==> r == Failure(Raised)
    ensures r.Success? ==> t.id in r.value.songs &&
                           r.value.songs[t.id].artistId == Some(t.artistIds[0]) &&
                           r.value.songs[t.id].albumId == Some(albumId) && !r.value.songs[t.id].isSingle
  {
    if |t.artistIds| == 0 then Failure(Raised) else SaveSongFor(t.artistIds[0], st, t, albumId)
  }

  /** The run as written against the data manager of the second reading. */
  function ItemsEnv(setup: Result<(), Stop>, artist: ArtistItem,
                    albums: Result<seq<AlbumItem>, Stop>,
                    tracksOf: string -> Result<seq<TrackItem>, Stop>): Env<Store.Store> {
    Env(setup, Success(artist), albums, tracksOf, SaveAlbumByItem, SaveSongByItem)
  }

  /** The refreshed artist is the first artist of every listed album and of every
      track fetched for one. */
  predicate FirstArtistThroughout(artistId: string, albums: seq<AlbumItem>,
                                  tracksOf: string -> Result<seq<TrackItem>, Stop>) {
    forall a :: a in albums ==>
      |a.artistIds| > 0 && a.artistIds[0] == artistId &&
      (tracksOf(a.id).Success? ==>
         forall t :: t in tracksOf(a.id).value ==> |t.artistIds| > 0 && t.artistIds[0] == artistId)
  }

  /** Two environments whose song saves agree on the tracks of album `a` run the
      inner loop alike. */
  lemma {:induction false} TracksAgree<S>(e1: Env<S>, e2: Env<S>, st: S, a: AlbumItem, second: string,
                                          tracks: seq<TrackItem>)
    requires forall s, t :: t in tracks ==> e1.saveSong(s, WithAlbumArt(t, a), second) == e2.saveSong(s, WithAlbumArt(t, a), second)
    ensures SaveTracks(e1, st, a, second, tracks) == SaveTracks(e2, st, a, second, tracks)
    decreases |tracks|
  {
    if |tracks| > 0 {
      var t := WithAlbumArt(tracks[0], a);
      assert tracks[0] in tracks;
      if e1.saveSong(st, t, second).Success? {
        var st' := e1.saveSong(st, t, second).value;
        assert forall u :: u in tracks[1..] ==> u in tracks;
        TracksAgree(e1, e2, st', a, second, tracks[1..]);
      }
    }
  }

  /** Two environments that agree on the album saves and on the song saves of the
      fetched tracks run the outer loop alike. */
  lemma {:induction false} AlbumsAgree<S>(e1: Env<S>, e2: Env<S>, st: S, albums: seq<AlbumItem>, i: nat, n: nat)
    requires e1.tracksOf == e2.tracksOf
    requires forall s, a :: a in albums ==> e1.saveAlbum(s, a) == e2.saveAlbum(s, a)
    requires forall s, a, t, k :: a in albums && e1.tracksOf(a.id).Success? && t in e1.tracksOf(a.id).value ==>
               e1.saveSong(s, WithAlbumArt(t, a), k) == e2.saveSong(s, WithAlbumArt(t, a), k)
    ensures ProcessAlbums(e1, st, albums, i, n) == ProcessAlbums(e2, st, albums, i, n)
    decreases |albums|
  {
    if |albums| > 0 {
      var a := albums[0];
      assert a in albums;
      if e1.saveAlbum(st, a).Success? {
        var (st1, saved) := e1.saveAlbum(st, a).value;
        if e1.tracksOf(a.id).Success? {
          var tracks := e1.tracksOf(a.id).value;
          TracksAgree(e1, e2, st1, a, saved.albumId, tracks);
          var songs := SaveTracks(e1, st1, a, saved.albumId, tracks);
          assert forall b :: b in albums[1..] ==> b in albums;
          AlbumsAgree(e1, e2, songs.store, albums[1..], i + 1, n);
        }
      }
    }
  }

  /** The two readings of the data manager lead to the same run, row for row,
      whenever the refreshed artist is the first artist of everything the run saves;
      the crediting and storing promised by `IntendedRunCredited` then hold for the
      code exactly as written against the second reading. */
  lemma ItemsReadingAgrees(setup: Result<(), Stop>, artist: ArtistItem, albums: Result<seq<AlbumItem>, Stop>,
                           tracksOf: string -> Result<seq<TrackItem>, Stop>, st: Store.Store)
    requires albums.Success? ==> FirstArtistThroughout(artist.id, albums.value, tracksOf)
    ensures PopulateArtistData(ItemsEnv(setup, artist, albums, tracksOf), st) ==
            PopulateArtistData(IntendedEnv(setup, artist, albums, tracksOf), st)
    ensures var r := PopulateArtistData(ItemsEnv(setup, artist, albums, tracksOf), st);
            Credited(st, r.store, artist.id) &&
            (r.stop.None? ==> forall a :: a in albums.value ==> a.id in r.store.albums)
  {
    var e1 := ItemsEnv(setup, artist, albums, tracksOf);
    var e2 := IntendedEnv(setup, artist, albums, tracksOf);
    if setup.Success? && albums.Success? {
      var xs := albums.value;
      forall s, a | a in xs
        ensures e1.saveAlbum(s, a) == e2.saveAlbum(s, a)
      {
      }
      forall s, a, t, k | a in xs && tracksOf(a.id).Success? && t in tracksOf(a.id).value
        ensures e1.saveSong(s, WithAlbumArt(t, a), k) == e2.saveSong(s, WithAlbumArt(t, a), k)
      {
      }
      AlbumsAgree(e1, e2, st, xs, 1, |xs|);
    }
    IntendedRunCredited(setup, artist, albums, tracksOf, st);
  }
}
