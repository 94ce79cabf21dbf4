/** The discography page of artistrack/discotech/generate_discography.py and of its
    older revision disco/generate_discography.py, as a sequence of abstract table
    rows. The two queries' answers are inputs: the album/track LEFT JOIN in the
    order the engine returns, and the standalone singles. */
module Report {
  import opened Wrappers
  import opened Catalog
  import opened Lists
  import Dates
  import Sorting

  /** One row of `albums LEFT JOIN songs`: the album and its matching song, or `None`
      when the album has no song. */
  datatype JoinRow = JoinRow(album: AlbumRow, song: Option<SongRow>)

  /** The rows of the page. `date` holds the text the page shows. */
  datatype PageRow =
    | AlbumHeader(albumId: string, name: string, date: string, spotifyUrl: string,
                  large: string, medium: string, thumb: string, qrUrl: Option<string>)
    | TrackLine(name: string, url: string, duration: string, qrUrl: Option<string>)
    | SingleLine(name: string, date: string, spotifyUrl: string, duration: string,
                 large: string, medium: string, thumb: string, qrUrl: Option<string>)
    | NoAlbums

  /** The package revision shows QR links and never fails on a date; the older one
      has no QR links and formats with the strict parser. */
  datatype Revision = Package | Older

  function Qr(rev: Revision, url: Option<string>): Option<string> {
    if rev == Package then url else None
  }

  /** `if track_name:` — a NULL from the outer join or an empty name adds no row. */
  predicate HasTrack(r: JoinRow) {
    r.song.Some? && r.song.value.name != ""
  }

  function Header(rev: Revision, r: JoinRow): PageRow {
    AlbumHeader(r.album.albumId, r.album.name, r.album.releaseDate, r.album.spotifyUrl,
      r.album.imageLarge, r.album.imageMedium, r.album.imageThumb, Qr(rev, r.album.qrCodeUrl))
  }

  function Track(rev: Revision, r: JoinRow): PageRow
    requires r.song.Some?
  {
    TrackLine(r.song.value.name, r.song.value.spotifyUrl, r.song.value.duration, Qr(rev, r.song.value.qrCodeUrl))
  }

  /** What one joined row adds, given the album id of the header shown last. */
  function Chunk(rev: Revision, r: JoinRow, current: Option<string>): seq<PageRow> {
    (if current != Some(r.album.albumId) then [Header(rev, r)] else []) +
    (if HasTrack(r) then [Track(rev, r)] else [])
  }

  /** The album loop of generate_discography.py:177-213 (disco:126-161), with
      `current_album_id` threaded through. Dates are still the stored text. */
  function AlbumSection(rev: Revision, rows: seq<JoinRow>, current: Option<string>): seq<PageRow>
    decreases |rows|
  {
    if |rows| == 0 then []
    else Chunk(rev, rows[0], current) + AlbumSection(rev, rows[1..], Some(rows[0].album.albumId))
  }

  function SingleOf(rev: Revision, s: SongRow): PageRow {
    SingleLine(s.name, s.releaseDate, s.spotifyUrl, s.duration,
      s.imageLarge, s.imageMedium, s.imageThumb, Qr(rev, s.qrCodeUrl))
  }

  /** The singles loop of generate_discography.py:216-235 (disco:164-182). */
  function SinglesSection(rev: Revision, singles: seq<SongRow>): (r: seq<PageRow>)
    ensures |r| == |singles| && forall j :: 0 <= j < |singles| ==> r[j] == SingleOf(rev, singles[j])
    decreases |singles|
  {
    if |singles| == 0 then [] else [SingleOf(rev, singles[0])] + SinglesSection(rev, singles[1..])
  }

  /** The rows before dates are rendered. Only the package revision has the empty
      notice (generate_discography.py:169-174). */
  function Layout(rev: Revision, rows: seq<JoinRow>, singles: seq<SongRow>): seq<PageRow> {
    if rev == Package && |rows| == 0 && |singles| == 0 then [NoAlbums]
    else AlbumSection(rev, rows, None) + SinglesSection(rev, singles)
  }

  /** `format_date` of each revision on a stored date; the strict one raises. */
  function ShowDate(rev: Revision, s: string): Result<string, Stop> {
    if rev == Package then Success(Dates.FormatDate(Dates.Text(s)))
    else match Dates.StrictFormatDate(Dates.Text(s))
      case Success(t) => Success(t)
      case Failure(_) => Failure(Raised)
  }

  /** Rendering the dates of headers and singles, in page order; the first failure
      aborts the page. */
  function ShowDates(rev: Revision, page: seq<PageRow>): Result<seq<PageRow>, Stop>
    decreases |page|
  {
    if |page| == 0 then Success([])
    else
      var head: Result<PageRow, Stop> :=
        if page[0].AlbumHeader? || page[0].SingleLine? then
          match ShowDate(rev, page[0].date)
          case Success(t) => Success(WithDate(page[0], t))
          case Failure(e) => Failure(e)
        else Success(page[0]);
      match head
      case Failure(e) => Failure(e)
      case Success(row) =>
        match ShowDates(rev, page[1..])
        case Failure(e) => Failure(e)
        case Success(rest) => Success([row] + rest)
  }

  function WithDate(p: PageRow, t: string): PageRow {
    match p
    case AlbumHeader(id, name, _, url, l, m, th, qr) => AlbumHeader(id, name, t, url, l, m, th, qr)
    case SingleLine(name, _, url, dur, l, m, th, qr) => SingleLine(name, t, url, dur, l, m, th, qr)
    case _ => p
  }

  /** `generate_discography`: the page's rows, or the exception that aborts it. */
  function GenerateDiscography(rev: Revision, rows: seq<JoinRow>, singles: seq<SongRow>): Result<seq<PageRow>, Stop> {
    ShowDates(rev, Layout(rev, rows, singles))
  }

  // ---------------------------------------------------------------------------
  // Headers: one per run of equal album ids.

  /** Reference definition, read from the end: the album id of every row that starts
      a run of equal album ids. */
  function RunStarts(rows: seq<JoinRow>): seq<string>
    decreases |rows|
  {
    if |rows| == 0 then []
    else if |rows| == 1 then [rows[0].album.albumId]
    else
      var n := |rows|;
      RunStarts(rows[..n - 1]) +
      (if rows[n - 2].album.albumId != rows[n - 1].album.albumId then [rows[n - 1].album.albumId] else [])
  }

  function HeaderId(p: PageRow): Option<string> {
    if p.AlbumHeader? then Some(p.albumId) else None
  }

  function TrackName(p: PageRow): Option<string> {
    if p.TrackLine? then Some(p.name) else None
  }

  function JoinTrackName(r: JoinRow): Option<string> {
    if HasTrack(r) then Some(r.song.value.name) else None
  }

  /** The album id whose header was shown last after `rows`. */
  function LastId(rows: seq<JoinRow>, current: Option<string>): Option<string> {
    if |rows| == 0 then current else Some(rows[|rows| - 1].album.albumId)
  }

  lemma {:induction false} AlbumSectionSnoc(rev: Revision, rows: seq<JoinRow>, x: JoinRow, current: Option<string>)
    ensures AlbumSection(rev, rows + [x], current) ==
            AlbumSection(rev, rows, current) + Chunk(rev, x, LastId(rows, current))
    decreases |rows|
  {
    if |rows| == 0 {
      assert [x][1..] == [];
    } else {
      var id := Some(rows[0].album.albumId);
      var head := Chunk(rev, rows[0], current);
      assert (rows + [x])[0] == rows[0];
      assert (rows + [x])[1..] == rows[1..] + [x];
      assert AlbumSection(rev, rows + [x], current) == head + AlbumSection(rev, rows[1..] + [x], id);
      AlbumSectionSnoc(rev, rows[1..], x, id);
      assert LastId(rows[1..], id) == LastId(rows, current);
      AppendAssoc(head, AlbumSection(rev, rows[1..], id), Chunk(rev, x, LastId(rows, current)));
    }
  }

  lemma ChunkHeaders(rev: Revision, x: JoinRow, current: Option<string>)
    ensures Pick(Chunk(rev, x, current), HeaderId) ==
            (if current != Some(x.album.albumId) then [x.album.albumId] else [])
    ensures Pick(Chunk(rev, x, current), TrackName) == Pick([x], JoinTrackName)
  {
    var h := if current != Some(x.album.albumId) then [Header(rev, x)] else [];
    var t := if HasTrack(x) then [Track(rev, x)] else [];
    PickAppend(h, t, HeaderId);
    PickAppend(h, t, TrackName);
    assert [x][1..] == [];
  }

  /** The headers shown are exactly the run starts, in order: one header per run
      of consecutive equal album ids. */
  lemma {:induction false} HeadersAreRunStarts(rev: Revision, rows: seq<JoinRow>)
    ensures Pick(AlbumSection(rev, rows, None), HeaderId) == RunStarts(rows)
    decreases |rows|
  {
    if |rows| == 1 {
      AlbumSectionSnoc(rev, [], rows[0], None);
      assert [] + [rows[0]] == rows;
      ChunkHeaders(rev, rows[0], None);
    } else if |rows| > 1 {
      var n := |rows|;
      var init := rows[..n - 1];
      var last := Chunk(rev, rows[n - 1], LastId(init, None));
      var tail := if rows[n - 2].album.albumId != rows[n - 1].album.albumId then [rows[n - 1].album.albumId] else [];
      assert RunStarts(rows) == RunStarts(init) + tail;
      assert Pick(last, HeaderId) == tail by {
        assert LastId(init, None) == Some(rows[n - 2].album.albumId);
        ChunkHeaders(rev, rows[n - 1], LastId(init, None));
      }
      assert AlbumSection(rev, rows, None) == AlbumSection(rev, init, None) + last by {
        assert init + [rows[n - 1]] == rows;
        AlbumSectionSnoc(rev, init, rows[n - 1], None);
      }
      assert Pick(AlbumSection(rev, init, None) + last, HeaderId) ==
             RunStarts(init) + Pick(last, HeaderId) by {
        PickAppend(AlbumSection(rev, init, None), last, HeaderId);
        HeadersAreRunStarts(rev, init);
      }
    }
  }

  /** A track row is shown exactly for each joined row with a non-empty track name,
      in order. */
  lemma {:induction false} TrackRowsShown(rev: Revision, rows: seq<JoinRow>, current: Option<string>)
    ensures Pick(AlbumSection(rev, rows, current), TrackName) == Pick(rows, JoinTrackName)
    decreases |rows|
  {
    if |rows| > 0 {
      TrackRowsShown(rev, rows[1..], Some(rows[0].album.albumId));
      ChunkHeaders(rev, rows[0], current);
      PickAppend(Chunk(rev, rows[0], current), AlbumSection(rev, rows[1..], Some(rows[0].album.albumId)), TrackName);
      PickAppend([rows[0]], rows[1..], JoinTrackName);
      assert [rows[0]] + rows[1..] == rows;
    }
  }

  /** Every run start is the album id of some joined row. */
  lemma {:induction false} RunStartsFromRows(rows: seq<JoinRow>, id: string)
    requires id in RunStarts(rows)
    ensures exists i :: 0 <= i < |rows| && rows[i].album.albumId == id
    decreases |rows|
  {
    if |rows| > 1 {
      var n := |rows|;
      if id in RunStarts(rows[..n - 1]) {
        RunStartsFromRows(rows[..n - 1], id);
        var i :| 0 <= i < n - 1 && rows[..n - 1][i].album.albumId == id;
        assert rows[i].album.albumId == id;
      } else {
        assert rows[n - 1].album.albumId == id;
      }
    } else {
      assert rows[0].album.albumId == id;
    }
  }

  // ---------------------------------------------------------------------------
  // Page order and the empty page.

  predicate AlbumPart(p: PageRow) {
    p.AlbumHeader? || p.TrackLine?
  }

  lemma {:induction false} AlbumSectionRows(rev: Revision, rows: seq<JoinRow>, current: Option<string>)
    ensures forall p :: p in AlbumSection(rev, rows, current) ==> AlbumPart(p)
    decreases |rows|
  {
    if |rows| > 0 {
      AlbumSectionRows(rev, rows[1..], Some(rows[0].album.albumId));
    }
  }

  /** The page lists every album row before every single, the singles in the order
      the query returned them, and shows the empty notice (in the package revision)
      exactly when both queries came back empty. */
  lemma LayoutOrder(rev: Revision, rows: seq<JoinRow>, singles: seq<SongRow>)
    ensures var page := Layout(rev, rows, singles);
            (forall i, j :: 0 <= i < j < |page| && page[i].SingleLine? ==> page[j].SingleLine?) &&
            (NoAlbums in page <==> rev == Package && |rows| == 0 && |singles| == 0) &&
            (page != [NoAlbums] ==> page[|page| - |singles|..] == SinglesSection(rev, singles)) &&
            (rev == Older && |rows| == 0 && |singles| == 0 ==> page == [])
  {
    if !(rev == Package && |rows| == 0 && |singles| == 0) {
      var a := AlbumSection(rev, rows, None);
      var s := SinglesSection(rev, singles);
      AlbumSectionRows(rev, rows, None);
      AlbumsThenSingles(a, s);
      assert (a + s)[|a + s| - |s|..] == s;
    }
  }

  /** Album rows followed by single rows: no single precedes an album row, and the
      empty notice is not among them. */
  lemma AlbumsThenSingles(a: seq<PageRow>, s: seq<PageRow>)
    requires forall p :: p in a ==> AlbumPart(p)
    requires forall j :: 0 <= j < |s| ==> s[j].SingleLine?
    ensures forall i, j :: 0 <= i < j < |a + s| && (a + s)[i].SingleLine? ==> (a + s)[j].SingleLine?
    ensures NoAlbums !in a + s
  {
    var page := a + s;
    forall i | 0 <= i < |page|
      ensures (i < |a| ==> AlbumPart(page[i])) && (i >= |a| ==> page[i].SingleLine?)
    {
      if i < |a| {
        assert page[i] == a[i] && a[i] in a;
      } else {
        assert page[i] == s[i - |a|];
      }
    }
  }

  // ---------------------------------------------------------------------------
  // Dates.

  /** The package page never fails, keeps its row structure and shows every header
      and single date through the lenient `format_date`. */
  lemma {:induction false} PackageDatesTotal(page: seq<PageRow>)
    ensures ShowDates(Package, page).Success?
    ensures var shown := ShowDates(Package, page).value;
            |shown| == |page| &&
            forall j :: 0 <= j < |page| ==>
              (page[j].AlbumHeader? || page[j].SingleLine? ==>
                 shown[j] == WithDate(page[j], Dates.FormatDate(Dates.Text(page[j].date)))) &&
              (!page[j].AlbumHeader? && !page[j].SingleLine? ==> shown[j] == page[j])
    decreases |page|
  {
    if |page| > 0 {
      PackageDatesTotal(page[1..]);
    }
  }

  /** A date the strict parser rejects. */
  predicate BadDate(p: PageRow) {
    (p.AlbumHeader? || p.SingleLine?) && Dates.StrictFormatDate(Dates.Text(p.date)).Failure?
  }

  /** The older revision renders the page exactly when every header and single date
      is a full `YYYY-MM-DD`; one partial date aborts the whole page. */
  lemma {:induction false} OlderDatesStrict(page: seq<PageRow>)
    ensures ShowDates(Older, page).Success? <==> forall j :: 0 <= j < |page| ==> !BadDate(page[j])
    ensures ShowDates(Older, page).Failure? ==> ShowDates(Older, page).error == Raised
    decreases |page|
  {
    if |page| > 0 {
      OlderDatesStrict(page[1..]);
      assert forall j :: 1 <= j < |page| ==> page[j] == page[1..][j - 1];
    }
  }

  // ---------------------------------------------------------------------------
  // The ORDER BY of generate_discography.py:65 and disco:36.

  /** `NULL` sorts before any number in SQLite's ascending order. */
  predicate TrackLe(a: Option<int>, b: Option<int>) {
    a.None? || (b.Some? && a.value <= b.value)
  }

  function TrackNo(r: JoinRow): Option<int> {
    if r.song.Some? then r.song.value.trackNumber else None
  }

  /** `ORDER BY a.release_date DESC, s.track_number ASC`, as written. */
  predicate OrderAsWritten(rows: seq<JoinRow>) {
    forall i, j :: 0 <= i < j < |rows| ==>
      Sorting.LessEq(rows[j].album.releaseDate, rows[i].album.releaseDate) &&
      (rows[i].album.releaseDate == rows[j].album.releaseDate ==> TrackLe(TrackNo(rows[i]), TrackNo(rows[j])))
  }

  function ExampleAlbum(id: string): AlbumRow {
    AlbumRow(id, None, id, "2024-01-01", 2, "", "", None, "album", "", "", "")
  }

  function ExampleSong(id: string, album: string, n: int): SongRow {
    SongRow(id, None, Some(album), id, "2024-01-01", Some(n), 0, "0:00", "", "", None, false, "", "", "")
  }

  /** Two albums released on the same day, two tracks each, in an order the
      as-written clause allows: their tracks interleave. */
  function InterleavedExample(): seq<JoinRow> {
    [JoinRow(ExampleAlbum("A"), Some(ExampleSong("a1", "A", 1))),
     JoinRow(ExampleAlbum("B"), Some(ExampleSong("b1", "B", 1))),
     JoinRow(ExampleAlbum("A"), Some(ExampleSong("a2", "A", 2))),
     JoinRow(ExampleAlbum("B"), Some(ExampleSong("b2", "B", 2)))]
  }

  /** As written, an answer the clause allows shows album A's header twice, its
      second track under a second copy of the header after album B's first track. */
  lemma InterleavedHeaders(rev: Revision)
    ensures OrderAsWritten(InterleavedExample())
    ensures Pick(AlbumSection(rev, InterleavedExample(), None), HeaderId) == ["A", "B", "A", "B"]
  {
    var rows := InterleavedExample();
    HeadersAreRunStarts(rev, rows);
    assert rows[..3][..2][..1] == rows[..1];
    assert RunStarts(rows[..1]) == ["A"];
    assert RunStarts(rows[..3][..2]) == ["A", "B"];
    assert RunStarts(rows[..3]) == ["A", "B", "A"];
    assert RunStarts(rows) == ["A", "B", "A", "B"];
  }

  /** `ORDER BY a.release_date DESC, a.album_id, s.track_number`: the same order with
      the album id as a tiebreak between albums of one date. */
  predicate OrderIntended(rows: seq<JoinRow>) {
    forall i, j :: 0 <= i < j < |rows| ==>
      Sorting.LessEq(rows[j].album.releaseDate, rows[i].album.releaseDate) &&
      (rows[i].album.releaseDate == rows[j].album.releaseDate ==>
         Sorting.LessEq(rows[i].album.albumId, rows[j].album.albumId))
  }

  /** In a join every row of one album carries that album's date. */
  predicate OneDatePerAlbum(rows: seq<JoinRow>) {
    forall i, j :: 0 <= i < |rows| && 0 <= j < |rows| && rows[i].album.albumId == rows[j].album.albumId ==>
      rows[i].album.releaseDate == rows[j].album.releaseDate
  }

  /** The rows of one album sit together. */
  predicate Grouped(rows: seq<JoinRow>) {
    forall i, j, k :: 0 <= i < j < k < |rows| && rows[i].album.albumId == rows[k].album.albumId ==>
      rows[j].album.albumId == rows[i].album.albumId
  }

  lemma IntendedOrderGroups(rows: seq<JoinRow>)
    requires OrderIntended(rows) && OneDatePerAlbum(rows)
    ensures Grouped(rows)
  {
    forall i, j, k | 0 <= i < j < k < |rows| && rows[i].album.albumId == rows[k].album.albumId
      ensures rows[j].album.albumId == rows[i].album.albumId
    {
      var di, dj, dk := rows[i].album.releaseDate, rows[j].album.releaseDate, rows[k].album.releaseDate;
      assert di == dk;
      Sorting.LessAntisymmetric(dj, di);
      Sorting.LessEqTransitive(rows[i].album.albumId, rows[j].album.albumId, rows[k].album.albumId);
      Sorting.LessAntisymmetric(rows[i].album.albumId, rows[j].album.albumId);
    }
  }

  lemma {:induction false} GroupedRunStartsDistinct(rows: seq<JoinRow>)
    requires Grouped(rows)
    ensures forall a, b :: 0 <= a < b < |RunStarts(rows)| ==> RunStarts(rows)[a] != RunStarts(rows)[b]
    decreases |rows|
  {
    if |rows| > 1 {
      var n := |rows|;
      var init := rows[..n - 1];
      assert Grouped(init);
      GroupedRunStartsDistinct(init);
      var id := rows[n - 1].album.albumId;
      if rows[n - 2].album.albumId != id && id in RunStarts(init) {
        RunStartsFromRows(init, id);
      }
    }
  }

  lemma {:induction false} RunStartsCover(rows: seq<JoinRow>, i: nat)
    requires i < |rows|
    ensures rows[i].album.albumId in RunStarts(rows)
    decreases |rows|
  {
    var n := |rows|;
    if n > 1 && i < n - 1 {
      RunStartsCover(rows[..n - 1], i);
    } else if n > 1 && rows[n - 2].album.albumId == rows[n - 1].album.albumId {
      RunStartsCover(rows[..n - 1], n - 2);
    }
  }

  /** With the album id as a tiebreak, every album of the join gets exactly one
      header. */
  lemma IntendedOneHeaderPerAlbum(rev: Revision, rows: seq<JoinRow>)
    requires OrderIntended(rows) && OneDatePerAlbum(rows)
    ensures var heads := Pick(AlbumSection(rev, rows, None), HeaderId);
            (forall a, b :: 0 <= a < b < |heads| ==> heads[a] != heads[b]) &&
            (forall id :: id in heads <==> exists i :: 0 <= i < |rows| && rows[i].album.albumId == id)
  {
    HeadersAreRunStarts(rev, rows);
    IntendedOrderGroups(rows);
    GroupedRunStartsDistinct(rows);
    forall id | id in RunStarts(rows)
      ensures exists i :: 0 <= i < |rows| && rows[i].album.albumId == id
    {
      RunStartsFromRows(rows, id);
    }
    forall i | 0 <= i < |rows|
      ensures rows[i].album.albumId in RunStarts(rows)
    {
      RunStartsCover(rows, i);
    }
  }

  // ---------------------------------------------------------------------------
  // The singles query (generate_discography.py:71-85).

  /** `SELECT ... FROM songs WHERE album_id IS NULL ORDER BY release_date DESC`. */
  method SinglesQuery(songs: map<string, SongRow>) returns (r: seq<SongRow>)
    ensures forall s :: s in r <==> s in songs.Values && s.albumId.None?
    ensures forall i, j :: 0 <= i < j < |r| ==> Sorting.LessEq(r[j].releaseDate, r[i].releaseDate)
    ensures forall i, j :: 0 <= i < j < |r| ==> r[i] != r[j]
  {
    var rows := set s | s in songs.Values && s.albumId.None?;
    r := Sorting.OrderByDesc(rows, SongDate);
    assert forall s :: s in r <==> s in multiset(r);
    forall i, j | 0 <= i < j < |r|
      ensures r[i] != r[j]
    {
      TwoOccurrences(r, i, j);
    }
  }

  function SongDate(s: SongRow): string { s.releaseDate }

  lemma TwoOccurrences<T>(r: seq<T>, i: nat, j: nat)
    requires i < j < |r|
    ensures r[i] == r[j] ==> multiset(r)[r[i]] >= 2
  {
    assert r == r[..i] + [r[i]] + r[i + 1..j] + [r[j]] + r[j + 1..];
  }
}
