/** wraithdisco.py (identical in artistrack/discotech/wraithdisco.py): the page built
    from today's cached album list rather than the database. Items are sorted by
    release date, newest first; a single gives one row, any other item an album row
    followed by a row per track when that album's track file exists. Rows are
    abstract: kind, CSS class, shown name, link, date text and the three images. */
module ItemReport {
  import opened Wrappers
  import opened Text
  import opened Catalog
  import opened Lists
  import Dates
  import Sorting
  import Client

  /** The keys of a track-file entry the loop copies onto the album item. */
  datatype TrackEntry = TrackEntry(name: string, trackNumber: int, spotifyUrl: string)

  /** `row_type`, shown title-cased in the Type column. */
  datatype Kind = SingleKind | AlbumKind | TrackKind

  datatype RowClass = MainRow | TrackRowClass

  datatype ItemRow = ItemRow(kind: Kind, rowClass: RowClass, name: string, spotifyUrl: string,
                             date: string, large: string, medium: string, thumb: string)

  /** The name a track row shows. */
  function TrackTitle(number: int, name: string): string {
    "Track " + IntToString(number) + " - " + name
  }

  /** `get_single_html_row`: the three images unguarded, the strict date, and the
      track naming. */
  function HtmlRow(name: string, url: string, releaseDate: string, images: seq<string>,
                   kind: Kind, number: int): Result<ItemRow, Stop> {
    if |images| < 3 then Failure(Raised)
    else match Dates.StrictFormatDate(Dates.Text(releaseDate))
      case Failure(_) => Failure(Raised)
      case Success(shown) =>
        var title := if kind == TrackKind then TrackTitle(number, name) else name;
        var cls := if kind == TrackKind then TrackRowClass else MainRow;
        Success(ItemRow(kind, cls, title, url, shown, images[0], images[1], images[2]))
  }

  /** The item's own row renders. */
  predicate Renders(item: AlbumItem) {
    |item.images| >= 3 && Dates.ParseFull(item.releaseDate).Some?
  }

  /** `HtmlRow` succeeds exactly on three images and a full date; only a track row
      is renamed `Track <n> - <name>` and gets the track-row class. */
  lemma HtmlRowSpec(name: string, url: string, releaseDate: string, images: seq<string>, kind: Kind, number: int)
    ensures var r := HtmlRow(name, url, releaseDate, images, kind, number);
            (r.Success? <==> |images| >= 3 && Dates.ParseFull(releaseDate).Some?) &&
            (r.Failure? ==> r.error == Raised) &&
            (r.Success? ==>
               r.value.kind == kind &&
               (r.value.rowClass == TrackRowClass <==> kind == TrackKind) &&
               r.value.name == (if kind == TrackKind then TrackTitle(number, name) else name) &&
               r.value.spotifyUrl == url &&
               [r.value.large, r.value.medium, r.value.thumb] == images[..3] &&
               r.value.date == Dates.LongForm(Dates.ParseFull(releaseDate).value))
  {
    if |images| >= 3 && Dates.ParseFull(releaseDate).Some? {
      var shown := Dates.LongForm(Dates.ParseFull(releaseDate).value);
      assert Dates.StrictFormatDate(Dates.Text(releaseDate)) == Success(shown);
      assert images[..3] == [images[0], images[1], images[2]];
    }
  }

  /** The per-album track file the loop looks for: the album's raw name and id. */
  function AlbumTrackFile(today: string, item: AlbumItem): string {
    today + "__track__" + item.name + "_" + item.id + ".json"
  }

  /** The only writer of `__track__` files, `get_artist_tracks`, names them after a
      track's safe name and id, so the loop never finds one of them: whenever the
      album's id and the track's id differ and have the same length (Spotify ids all
      have 22 characters), the two names differ in their `<id>.json` tail. */
  lemma TrackFileNeverWritten(today: string, item: AlbumItem, t: TrackItem)
    requires |item.id| == |t.id| && item.id != t.id
    ensures AlbumTrackFile(today, item) != Client.TrackFileName(today, t)
  {
    var read := AlbumTrackFile(today, item);
    var written := Client.TrackFileName(today, t);
    var tail := |item.id| + 5;
    assert read == (today + "__track__" + item.name + "_") + (item.id + ".json");
    assert written == (today + "__track__" + SafeName(t.name) + "_") + (t.id + ".json");
    assert read[|read| - tail..] == item.id + ".json";
    assert written[|written| - tail..] == t.id + ".json";
    assert (item.id + ".json")[..|item.id|] == item.id;
    assert (t.id + ".json")[..|t.id|] == t.id;
  }

  /** The track rows: each entry copied onto the album item, so the row keeps the
      album's images and date and takes the entry's name, number and link. */
  function TrackRows(item: AlbumItem, entries: seq<TrackEntry>): Result<seq<ItemRow>, Stop>
    decreases |entries|
  {
    if |entries| == 0 then Success([])
    else
      var e := entries[0];
      match HtmlRow(e.name, e.spotifyUrl, item.releaseDate, item.images, TrackKind, e.trackNumber)
      case Failure(err) => Failure(err)
      case Success(row) =>
        match TrackRows(item, entries[1..])
        case Failure(err) => Failure(err)
        case Success(rest) => Success([row] + rest)
  }

  /** The rows one item contributes; `trackFile` maps a file name to its entries,
      `None` when the file does not exist. */
  function ItemRows(item: AlbumItem, trackFile: string -> Option<seq<TrackEntry>>, today: string)
    : Result<seq<ItemRow>, Stop>
  {
    if item.albumType == "single" then
      match HtmlRow(item.name, item.spotifyUrl, item.releaseDate, item.images, SingleKind, 0)
      case Failure(e) => Failure(e)
      case Success(row) => Success([row])
    else
      match HtmlRow(item.name, item.spotifyUrl, item.releaseDate, item.images, AlbumKind, 0)
      case Failure(e) => Failure(e)
      case Success(row) =>
        match trackFile(AlbumTrackFile(today, item))
        case None => Success([row])
        case Some(entries) =>
          match TrackRows(item, entries)
          case Failure(e) => Failure(e)
          case Success(rest) => Success([row] + rest)
  }

  lemma TrackRowsSpec(item: AlbumItem, entries: seq<TrackEntry>)
    requires Renders(item)
    ensures TrackRows(item, entries).Success?
    ensures var rows := TrackRows(item, entries).value;
            |rows| == |entries| &&
            forall j :: 0 <= j < |entries| ==>
              rows[j] == ItemRow(TrackKind, TrackRowClass, TrackTitle(entries[j].trackNumber, entries[j].name),
                                 entries[j].spotifyUrl, Dates.LongForm(Dates.ParseFull(item.releaseDate).value),
                                 item.images[0], item.images[1], item.images[2])
  {
    TrackRowsRender(item, entries);
  }

  /** The row an entry gets when its album's own row renders. */
  function TrackRowFor(item: AlbumItem, e: TrackEntry): ItemRow
    requires Renders(item)
  {
    ItemRow(TrackKind, TrackRowClass, TrackTitle(e.trackNumber, e.name), e.spotifyUrl,
            Dates.LongForm(Dates.ParseFull(item.releaseDate).value),
            item.images[0], item.images[1], item.images[2])
  }

  function TrackRowsFor(item: AlbumItem, entries: seq<TrackEntry>): (r: seq<ItemRow>)
    requires Renders(item)
    ensures |r| == |entries| && forall j :: 0 <= j < |entries| ==> r[j] == TrackRowFor(item, entries[j])
    decreases |entries|
  {
    if |entries| == 0 then [] else [TrackRowFor(item, entries[0])] + TrackRowsFor(item, entries[1..])
  }

  lemma {:induction false} TrackRowsRender(item: AlbumItem, entries: seq<TrackEntry>)
    requires Renders(item)
    ensures TrackRows(item, entries) == Success(TrackRowsFor(item, entries))
    decreases |entries|
  {
    if |entries| > 0 {
      TrackRowRenders(item, entries[0]);
      TrackRowsRender(item, entries[1..]);
    }
  }

  /** One entry's row, for an album whose own row renders. */
  lemma TrackRowRenders(item: AlbumItem, e: TrackEntry)
    requires Renders(item)
    ensures HtmlRow(e.name, e.spotifyUrl, item.releaseDate, item.images, TrackKind, e.trackNumber) ==
            Success(TrackRowFor(item, e))
  {
    HtmlRowSpec(e.name, e.spotifyUrl, item.releaseDate, item.images, TrackKind, e.trackNumber);
  }

  /** An item renders exactly when its own row does. A single gives one main row; any
      other type an album row and then, if its track file exists, one track row per
      entry that inherits the album's date and images. */
  lemma ItemRowsSpec(item: AlbumItem, trackFile: string -> Option<seq<TrackEntry>>, today: string)
    ensures ItemRows(item, trackFile, today).Success? <==> Renders(item)
    ensures ItemRows(item, trackFile, today).Failure? ==> ItemRows(item, trackFile, today).error == Raised
    ensures ItemRows(item, trackFile, today).Success? ==>
              var rows := ItemRows(item, trackFile, today).value;
              var file := trackFile(AlbumTrackFile(today, item));
              |rows| == 1 + (if item.albumType != "single" && file.Some? then |file.value| else 0) &&
              rows[0].kind == (if item.albumType == "single" then SingleKind else AlbumKind) &&
              rows[0].rowClass == MainRow && rows[0].name == item.name &&
              forall j :: 1 <= j < |rows| ==>
                rows[j].kind == TrackKind && rows[j].rowClass == TrackRowClass &&
                rows[j].name == TrackTitle(file.value[j - 1].trackNumber, file.value[j - 1].name) &&
                rows[j].date == rows[0].date &&
                rows[j].large == rows[0].large && rows[j].medium == rows[0].medium && rows[j].thumb == rows[0].thumb
  {
    ItemRowsExact(item, trackFile, today);
    if Renders(item) {
      RowsShape(item, trackFile(AlbumTrackFile(today, item)));
    }
  }

  /** The shape of a rendering item's rows, given its track file. */
  lemma RowsShape(item: AlbumItem, file: Option<seq<TrackEntry>>)
    requires Renders(item)
    ensures var rows := [MainRowFor(item, KindOf(item))] +
                        (if item.albumType != "single" && file.Some? then TrackRowsFor(item, file.value) else []);
            |rows| == 1 + (if item.albumType != "single" && file.Some? then |file.value| else 0) &&
            rows[0].kind == (if item.albumType == "single" then SingleKind else AlbumKind) &&
            rows[0].rowClass == MainRow && rows[0].name == item.name &&
            forall j :: 1 <= j < |rows| ==>
              rows[j].kind == TrackKind && rows[j].rowClass == TrackRowClass &&
              rows[j].name == TrackTitle(file.value[j - 1].trackNumber, file.value[j - 1].name) &&
              rows[j].date == rows[0].date &&
              rows[j].large == rows[0].large && rows[j].medium == rows[0].medium && rows[j].thumb == rows[0].thumb
  {
    if item.albumType != "single" && file.Some? {
      TracksShape(item, file.value);
    } else {
      assert [MainRowFor(item, KindOf(item))] + [] == [MainRowFor(item, KindOf(item))];
    }
  }

  /** An album's own row followed by its entries' rows. */
  lemma TracksShape(item: AlbumItem, entries: seq<TrackEntry>)
    requires Renders(item)
    ensures var main := MainRowFor(item, KindOf(item));
            var rows := [main] + TrackRowsFor(item, entries);
            |rows| == 1 + |entries| && rows[0] == main &&
            forall j :: 1 <= j < |rows| ==>
              rows[j].kind == TrackKind && rows[j].rowClass == TrackRowClass &&
              rows[j].name == TrackTitle(entries[j - 1].trackNumber, entries[j - 1].name) &&
              rows[j].date == main.date &&
              rows[j].large == main.large && rows[j].medium == main.medium && rows[j].thumb == main.thumb
  {
    var main := MainRowFor(item, KindOf(item));
    var tracks := TrackRowsFor(item, entries);
    TrackRowsLikeMain(item, entries);
    assert forall j :: 1 <= j < 1 + |tracks| ==> ([main] + tracks)[j] == tracks[j - 1];
  }

  /** Every entry's row carries the album row's date and images. */
  lemma TrackRowsLikeMain(item: AlbumItem, entries: seq<TrackEntry>)
    requires Renders(item)
    ensures var main := MainRowFor(item, KindOf(item));
            var tracks := TrackRowsFor(item, entries);
            forall j :: 0 <= j < |tracks| ==>
              tracks[j].kind == TrackKind && tracks[j].rowClass == TrackRowClass &&
              tracks[j].name == TrackTitle(entries[j].trackNumber, entries[j].name) &&
              tracks[j].date == main.date &&
              tracks[j].large == main.large && tracks[j].medium == main.medium && tracks[j].thumb == main.thumb
  {
    var tracks := TrackRowsFor(item, entries);
    forall j | 0 <= j < |tracks|
      ensures tracks[j] == TrackRowFor(item, entries[j])
    {
      TrackRowLikeMain(item, entries[j], KindOf(item));
    }
    forall j | 0 <= j < |tracks|
      ensures TrackRowFor(item, entries[j]).date == MainRowFor(item, KindOf(item)).date
    {
      TrackRowLikeMain(item, entries[j], KindOf(item));
    }
  }

  /** A track row carries its album row's date and images. */
  lemma TrackRowLikeMain(item: AlbumItem, e: TrackEntry, kind: Kind)
    requires Renders(item)
    ensures var t := TrackRowFor(item, e);
            var m := MainRowFor(item, kind);
            t.kind == TrackKind && t.rowClass == TrackRowClass &&
            t.name == TrackTitle(e.trackNumber, e.name) &&
            t.date == m.date && t.large == m.large && t.medium == m.medium && t.thumb == m.thumb
  {
  }

  /** The rows of one item, spelled out: its own row, then the rows of its track
      file's entries when it is not a single and the file exists. */
  lemma ItemRowsExact(item: AlbumItem, trackFile: string -> Option<seq<TrackEntry>>, today: string)
    ensures ItemRows(item, trackFile, today) ==
            if !Renders(item) then Failure(Raised)
            else
              var file := trackFile(AlbumTrackFile(today, item));
              Success([MainRowFor(item, KindOf(item))] +
                      (if item.albumType != "single" && file.Some? then TrackRowsFor(item, file.value) else []))
  {
    MainRowRenders(item, KindOf(item));
    var file := trackFile(AlbumTrackFile(today, item));
    if Renders(item) {
      var row := MainRowFor(item, KindOf(item));
      if item.albumType != "single" && file.Some? {
        TrackRowsRender(item, file.value);
      } else {
        assert [row] + [] == [row];
      }
    }
  }

  /** An item's own row, when it renders. */
  function MainRowFor(item: AlbumItem, kind: Kind): ItemRow
    requires Renders(item)
  {
    ItemRow(kind, MainRow, item.name, item.spotifyUrl, Dates.LongForm(Dates.ParseFull(item.releaseDate).value),
            item.images[0], item.images[1], item.images[2])
  }

  lemma MainRowRenders(item: AlbumItem, kind: Kind)
    requires kind != TrackKind
    ensures HtmlRow(item.name, item.spotifyUrl, item.releaseDate, item.images, kind, 0) ==
            if Renders(item) then Success(MainRowFor(item, kind)) else Failure(Raised)
  {
    HtmlRowSpec(item.name, item.spotifyUrl, item.releaseDate, item.images, kind, 0);
  }

  function ReleaseKey(a: AlbumItem): string { a.releaseDate }

  function AllRows(items: seq<AlbumItem>, trackFile: string -> Option<seq<TrackEntry>>, today: string)
    : Result<seq<ItemRow>, Stop>
    decreases |items|
  {
    if |items| == 0 then Success([])
    else
      match ItemRows(items[0], trackFile, today)
      case Failure(e) => Failure(e)
      case Success(rows) =>
        match AllRows(items[1..], trackFile, today)
        case Failure(e) => Failure(e)
        case Success(rest) => Success(rows + rest)
  }

  /** `main`: the rows and the printed item count. `albumFile` is today's album
      list, `None` when it cannot be read. */
  function Main(albumFile: Option<seq<AlbumItem>>, trackFile: string -> Option<seq<TrackEntry>>, today: string)
    : Result<(seq<ItemRow>, nat), Stop>
  {
    match albumFile
    case None => Failure(Raised)
    case Some(items) =>
      var sorted := Sorting.SortDesc(items, ReleaseKey);
      match AllRows(sorted, trackFile, today)
      case Failure(e) => Failure(e)
      case Success(rows) => Success((rows, |items|))
  }

  function KindOf(item: AlbumItem): Kind {
    if item.albumType == "single" then SingleKind else AlbumKind
  }

  /** A main row's kind and name; `None` for a track row. */
  function Top(r: ItemRow): Option<(Kind, string)> {
    if r.kind == TrackKind then None else Some((r.kind, r.name))
  }

  function Tops(items: seq<AlbumItem>): (r: seq<(Kind, string)>)
    ensures |r| == |items| && forall j :: 0 <= j < |items| ==> r[j] == (KindOf(items[j]), items[j].name)
    decreases |items|
  {
    if |items| == 0 then [] else [(KindOf(items[0]), items[0].name)] + Tops(items[1..])
  }

  lemma ItemTops(item: AlbumItem, trackFile: string -> Option<seq<TrackEntry>>, today: string)
    requires ItemRows(item, trackFile, today).Success?
    ensures Pick(ItemRows(item, trackFile, today).value, Top) == [(KindOf(item), item.name)]
  {
    var rows := ItemRows(item, trackFile, today).value;
    ItemRowsSpec(item, trackFile, today);
    PickAppend([rows[0]], rows[1..], Top);
    PickNone(rows[1..], Top);
    assert [rows[0]] + rows[1..] == rows;
  }

  /** The rows render exactly when every item does; the main rows are then the
      items' rows in the given order, one each. */
  lemma {:induction false} AllRowsSpec(items: seq<AlbumItem>, trackFile: string -> Option<seq<TrackEntry>>, today: string)
    ensures AllRows(items, trackFile, today).Success? <==> forall j :: 0 <= j < |items| ==> Renders(items[j])
    ensures AllRows(items, trackFile, today).Success? ==> Pick(AllRows(items, trackFile, today).value, Top) == Tops(items)
    decreases |items|
  {
    if |items| > 0 {
      var head := ItemRows(items[0], trackFile, today);
      var tail := AllRows(items[1..], trackFile, today);
      AllRowsSpec(items[1..], trackFile, today);
      ItemRowsRender(items[0], trackFile, today);
      assert forall j :: 1 <= j < |items| ==> items[j] == items[1..][j - 1];
      if head.Success? && tail.Success? {
        assert AllRows(items, trackFile, today) == Success(head.value + tail.value);
        assert Pick(head.value + tail.value, Top) == Tops(items) by {
          ItemTops(items[0], trackFile, today);
          PickAppend(head.value, tail.value, Top);
        }
      }
    }
  }

  lemma ItemRowsRender(item: AlbumItem, trackFile: string -> Option<seq<TrackEntry>>, today: string)
    ensures ItemRows(item, trackFile, today).Success? <==> Renders(item)
  {
    ItemRowsExact(item, trackFile, today);
  }

  /** `main` renders exactly when the album list is readable and every item renders;
      the main rows are then the items newest first, as the stable sort orders
      them, and the printed count is the number of items. */
  lemma MainSpec(albumFile: Option<seq<AlbumItem>>, trackFile: string -> Option<seq<TrackEntry>>, today: string)
    ensures Main(albumFile, trackFile, today).Success? <==>
              albumFile.Some? && forall a :: a in albumFile.value ==> Renders(a)
    ensures Main(albumFile, trackFile, today).Success? ==>
              var (rows, count) := Main(albumFile, trackFile, today).value;
              var sorted := Sorting.SortDesc(albumFile.value, ReleaseKey);
              count == |albumFile.value| &&
              Pick(rows, Top) == Tops(sorted) &&
              Sorting.SortedDesc(sorted, ReleaseKey) &&
              multiset(sorted) == multiset(albumFile.value)
  {
    if albumFile.Some? {
      var items := albumFile.value;
      var sorted := Sorting.SortDesc(items, ReleaseKey);
      Sorting.SortDescSpec(items, ReleaseKey);
      AllRowsSpec(sorted, trackFile, today);
      assert forall a :: a in items <==> a in multiset(sorted);
      assert forall a :: a in sorted <==> a in multiset(sorted);
    }
  }
}
