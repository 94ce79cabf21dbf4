/** populate_singles.py: read today's cached album list and upsert one song row per
    single, built from the single's own album object. `INSERT OR REPLACE` means a
    repeated id overwrites, so the table ends up as the old table overridden by the
    last row written for each single id. */
module PopulateSingles {
  import opened Wrappers
  import opened Catalog
  import opened Duration
  import PopulateDb

  /** The placeholder row of populate_singles.py:44-58: the album id serves as the
      song id, and the duration is zero until track data arrives. A missing image
      raises IndexError. */
  function PlaceholderRow(item: AlbumItem): (r: Result<SongRow, Stop>)
    ensures r.Success? <==> |item.images| >= 3
    ensures r.Success? ==>
              r.value.songId == item.id && r.value.albumId.None? && r.value.isSingle &&
              r.value.trackNumber.None? && r.value.durationMs == 0 &&
              r.value.duration == FromMillis(r.value.durationMs) &&
              r.value.name == item.name && r.value.releaseDate == item.releaseDate
  {
    FromMillisExamples();
    if |item.images| < 3 then Failure(Raised)
    else Success(SongRow(item.id, None, None, item.name, item.releaseDate, None, 0, "0:00",
      item.spotifyUrl, item.uri, None, true, item.images[0], item.images[1], item.images[2]))
  }

  /** Every single in the list has the three images its row needs. */
  predicate RowsBuild(items: seq<AlbumItem>) {
    forall a :: a in items && a.albumType == "single" ==> |a.images| >= 3
  }

  /** The loop of populate_singles.py:41-69: the songs table and the counter. */
  function Upsert(items: seq<AlbumItem>, songs: map<string, SongRow>, count: nat)
    : Result<(map<string, SongRow>, nat), Stop>
    decreases |items|
  {
    if |items| == 0 then Success((songs, count))
    else if items[0].albumType == "single" then
      match PlaceholderRow(items[0])
      case Failure(e) => Failure(e)
      case Success(row) => Upsert(items[1..], songs[items[0].id := row], count + 1)
    else Upsert(items[1..], songs, count)
  }

  /** Reference definition: the rows the list writes, a later single overriding an
      earlier one with the same id. */
  function Overrides(items: seq<AlbumItem>): map<string, SongRow>
    requires RowsBuild(items)
    decreases |items|
  {
    if |items| == 0 then map[]
    else
      assert RowsBuild(items[1..]) by {
        assert forall a :: a in items[1..] ==> a in items;
      }
      var here := if items[0].albumType == "single" then map[items[0].id := PlaceholderRow(items[0]).value] else map[];
      here + Overrides(items[1..])
  }

  lemma MergeStep(songs: map<string, SongRow>, k: string, row: SongRow, rest: map<string, SongRow>)
    ensures songs[k := row] + rest == songs + (map[k := row] + rest)
  {
  }

  /** The loop succeeds exactly when every single has its images; it then leaves
      the old table overridden by the list's rows and has counted every single,
      repeats included. */
  lemma {:induction false} UpsertIsMerge(items: seq<AlbumItem>, songs: map<string, SongRow>, count: nat)
    ensures Upsert(items, songs, count).Success? <==> RowsBuild(items)
    ensures RowsBuild(items) ==>
              Upsert(items, songs, count).value ==
              (songs + Overrides(items), count + PopulateDb.CountType(items, "single"))
    decreases |items|
  {
    if |items| == 0 {
      assert songs + map[] == songs;
    } else {
      assert forall a :: a in items <==> a == items[0] || a in items[1..];
      if items[0].albumType == "single" && |items[0].images| >= 3 {
        var row := PlaceholderRow(items[0]).value;
        UpsertIsMerge(items[1..], songs[items[0].id := row], count + 1);
        if RowsBuild(items) {
          MergeStep(songs, items[0].id, row, Overrides(items[1..]));
          assert Overrides(items) == map[items[0].id := row] + Overrides(items[1..]);
          assert PopulateDb.CountType(items, "single") == 1 + PopulateDb.CountType(items[1..], "single");
        }
      } else if items[0].albumType != "single" {
        UpsertIsMerge(items[1..], songs, count);
        if RowsBuild(items) {
          assert Overrides(items) == map[] + Overrides(items[1..]);
          assert map[] + Overrides(items[1..]) == Overrides(items[1..]);
          assert PopulateDb.CountType(items, "single") == PopulateDb.CountType(items[1..], "single");
        }
      }
    }
  }

  /** The ids the list writes are exactly its singles' ids. */
  lemma {:induction false} OverridesKeys(items: seq<AlbumItem>)
    requires RowsBuild(items)
    ensures Overrides(items).Keys == PopulateDb.IdsOfType(items, "single")
    decreases |items|
  {
    if |items| > 0 {
      assert forall a :: a in items[1..] ==> a in items;
      OverridesKeys(items[1..]);
    }
  }

  /** Every written row is the placeholder row of a single with that id. */
  lemma {:induction false} OverridesRows(items: seq<AlbumItem>)
    requires RowsBuild(items)
    ensures forall k :: k in Overrides(items) ==>
              exists a :: a in items && a.albumType == "single" && a.id == k &&
                          PlaceholderRow(a) == Success(Overrides(items)[k])
    decreases |items|
  {
    if |items| > 0 {
      assert forall a :: a in items[1..] ==> a in items;
      OverridesRows(items[1..]);
      forall k | k in Overrides(items)
        ensures exists a :: a in items && a.albumType == "single" && a.id == k &&
                            PlaceholderRow(a) == Success(Overrides(items)[k])
      {
        if k !in Overrides(items[1..]) {
          assert items[0] in items;
        }
      }
    }
  }

  /** How the script ends: the album file could not be read (the exception escapes
      before the connection opens), a row failed and was rolled back, or the upserts
      were committed with the printed count. */
  datatype Outcome = NoAlbumFile | RolledBack | Committed(count: nat)

  /** `albumFile` is today's `<date>__artist_albums.json`, `None` when it is absent or
      unreadable. */
  function PopulateSingles(albumFile: Option<seq<AlbumItem>>, songs: map<string, SongRow>)
    : (map<string, SongRow>, Outcome)
  {
    match albumFile
    case None => (songs, NoAlbumFile)
    case Some(items) =>
      match Upsert(items, songs, 0)
      case Failure(_) => (songs, RolledBack)
      case Success((songs', count)) => (songs', Committed(count))
  }

  /** The script commits exactly when the file is there and every single has its
      images; the table is then the old one overridden by the singles' rows, and
      otherwise it is unchanged. */
  lemma PopulateSinglesSpec(albumFile: Option<seq<AlbumItem>>, songs: map<string, SongRow>)
    ensures var (after, o) := PopulateSingles(albumFile, songs);
            (o.Committed? <==> albumFile.Some? && RowsBuild(albumFile.value)) &&
            (o.Committed? ==>
               after == songs + Overrides(albumFile.value) &&
               o.count == PopulateDb.CountType(albumFile.value, "single")) &&
            (!o.Committed? ==> after == songs)
  {
    if albumFile.Some? {
      UpsertIsMerge(albumFile.value, songs, 0);
    }
  }

  /** Running the script twice on the same day's file leaves the table as one run does. */
  lemma PopulateSinglesIdempotent(albumFile: Option<seq<AlbumItem>>, songs: map<string, SongRow>)
    ensures var once := PopulateSingles(albumFile, songs).0;
            PopulateSingles(albumFile, once).0 == once
  {
    PopulateSinglesSpec(albumFile, songs);
    var once := PopulateSingles(albumFile, songs).0;
    PopulateSinglesSpec(albumFile, once);
    if albumFile.Some? && RowsBuild(albumFile.value) {
      var o := Overrides(albumFile.value);
      assert (songs + o) + o == songs + o;
    }
  }

  /** Rows of other ids are left as they were; rows under a single's id are
      replaced, whatever they held. */
  lemma PopulateSinglesFrame(albumFile: Option<seq<AlbumItem>>, songs: map<string, SongRow>, k: string)
    requires albumFile.Some? && RowsBuild(albumFile.value)
    ensures var after := PopulateSingles(albumFile, songs).0;
            k in after <==> k in songs || k in PopulateDb.IdsOfType(albumFile.value, "single")
    ensures var after := PopulateSingles(albumFile, songs).0;
            k !in PopulateDb.IdsOfType(albumFile.value, "single") && k in songs ==> after[k] == songs[k]
    ensures var after := PopulateSingles(albumFile, songs).0;
            k in PopulateDb.IdsOfType(albumFile.value, "single") ==> after[k].isSingle && after[k].songId == k
  {
    PopulateSinglesSpec(albumFile, songs);
    OverridesKeys(albumFile.value);
    OverridesRows(albumFile.value);
  }
}
