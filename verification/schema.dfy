/** The SQLite tables of both revisions, reduced to what the code relies on:
    column lists, NOT NULL, the text primary key, the one CHECK constraint,
    plain versus OR REPLACE inserts, `CREATE TABLE IF NOT EXISTS` and the
    delete-and-recreate reset. Foreign keys are declared but, as in SQLite
    without `PRAGMA foreign_keys`, never enforced. */
module Schema {
  import opened Wrappers
  import opened Catalog

  /** Column identifiers shared by all tables (`album_id`, `artist_id`, ...). */
  datatype Col =
    | ArtistIdCol | AlbumIdCol | SongIdCol | NameCol | ReleaseDateCol | TrackCountCol
    | TrackNumberCol | DurationMsCol | DurationCol | SpotifyUrlCol | SpotifyUriCol
    | QrCodeUrlCol | AlbumTypeCol | IsSingleCol | ImageLargeCol | ImageMediumCol | ImageThumbCol

  datatype TableName = Artists | Albums | Songs

  /** An SQLite value; booleans are stored as the integers 1 and 0. */
  datatype Value = Null | Str(s: string) | Int(i: int)

  type Record = map<Col, Value>

  /** `CHECK (col = 'literal')`, the only table constraint the schemas use. */
  datatype Check = NoCheck | ColumnEquals(col: Col, literal: string)

  /** A table definition: its columns, the NOT NULL ones among them, the text
      primary key, the CHECK constraint and the declared foreign keys. */
  datatype TableDef = TableDef(
    name: TableName,
    columns: set<Col>,
    notNull: set<Col>,
    primaryKey: Col,
    check: Check,
    references: seq<(Col, TableName)>)   // declared foreign keys, not enforced

  /** A table's rows, keyed by the text of their primary key. */
  datatype Table = Table(def: TableDef, rows: map<string, Record>)

  type Db = map<TableName, Table>

  /** The database file: absent, or present and possibly not writable. */
  datatype DbFile = Absent | Present(db: Db, readOnly: bool)

  datatype DbError =
    | NoSuchTable(table: TableName)
    | NoSuchColumn(columns: set<Col>)
    | NotNullFailed(columns: set<Col>)
    | CheckFailed(checked: TableName)
    | UniqueFailed(key: Col)
    | KeyNotText(key: Col)       // a NULL or numeric primary key, which the model refuses
    | ReadOnlyDatabase

  datatype InsertMode = Plain | OrReplace

  // ---------------------------------------------------------------------------
  // Column checks.

  /** SQLite passes a CHECK whose expression is NULL. */
  predicate CheckHolds(check: Check, rec: Record) {
    match check
    case NoCheck => true
    case ColumnEquals(c, lit) => c !in rec || rec[c] == Null || rec[c] == Str(lit)
  }

  /** Every column the INSERT names exists in the table. */
  predicate Known(def: TableDef, bound: map<Col, Value>) {
    forall c :: c in bound ==> c in def.columns
  }

  /** Every NOT NULL column is given a non-NULL value. */
  predicate Filled(def: TableDef, bound: map<Col, Value>) {
    forall c :: c in def.notNull ==> c in bound && bound[c] != Null
  }

  /** The stored record: named columns take their values, the others default to NULL. */
  function RecordOf(def: TableDef, bound: map<Col, Value>): (rec: Record)
    ensures rec.Keys == def.columns
  {
    map c | c in def.columns :: if c in bound then bound[c] else Null
  }

  /** The full record an INSERT binding `bound` would store, or the constraint it
      breaks; the errors name every offending column. */
  function CheckRow(def: TableDef, bound: map<Col, Value>): (r: Result<Record, DbError>)
    ensures r.Success? <==> Known(def, bound) && Filled(def, bound) && CheckHolds(def.check, RecordOf(def, bound))
    ensures r.Success? ==> r.value == RecordOf(def, bound)
    ensures !Known(def, bound) ==> r == Failure(NoSuchColumn(bound.Keys - def.columns))
  {
    if !Known(def, bound) then Failure(NoSuchColumn(bound.Keys - def.columns))
    else if !Filled(def, bound) then
      Failure(NotNullFailed(set c | c in def.notNull && (c !in bound || bound[c] == Null)))
    else if CheckHolds(def.check, RecordOf(def, bound)) then Success(RecordOf(def, bound))
    else Failure(CheckFailed(def.name))
  }

  // ---------------------------------------------------------------------------
  // Statements.

  /** `INSERT [OR REPLACE] INTO t (cols) VALUES (vals)`. */
  function Insert(db: Db, t: TableName, bound: map<Col, Value>, mode: InsertMode): Result<Db, DbError>
  {
    if t !in db then Failure(NoSuchTable(t))
    else
      var table := db[t];
      var pk := table.def.primaryKey;
      match CheckRow(table.def, bound)
      case Failure(e) => Failure(e)
      case Success(rec) =>
        if pk !in rec || !rec[pk].Str? then Failure(KeyNotText(pk))
        else if mode == Plain && rec[pk].s in table.rows then Failure(UniqueFailed(pk))
        else Success(db[t := Table(table.def, table.rows[rec[pk].s := rec])])
  }

  /** An accepted insert stores the checked record under its key and touches nothing else. */
  lemma InsertEffect(db: Db, t: TableName, bound: map<Col, Value>, mode: InsertMode)
    requires t in db
    requires CheckRow(db[t].def, bound).Success?
    ensures var rec := CheckRow(db[t].def, bound).value;
            var pk := db[t].def.primaryKey;
            Insert(db, t, bound, mode).Success? ==>
              var db' := Insert(db, t, bound, mode).value;
              db'.Keys == db.Keys && db'[t].def == db[t].def &&
              db'[t].rows == db[t].rows[rec[pk].s := rec] &&
              forall u :: u in db && u != t ==> db'[u] == db[u]
  {
  }

  /** An accepted record whose text key is not yet stored is inserted in either mode. */
  lemma InsertFresh(db: Db, t: TableName, bound: map<Col, Value>, mode: InsertMode)
    requires t in db
    requires CheckRow(db[t].def, bound).Success?
    requires var rec := CheckRow(db[t].def, bound).value;
             var pk := db[t].def.primaryKey;
             pk in rec && rec[pk].Str? && rec[pk].s !in db[t].rows
    ensures Insert(db, t, bound, mode).Success?
  {
  }

  /** A plain INSERT of a key already present fails; OR REPLACE overwrites it. */
  lemma InsertDuplicateKey(db: Db, t: TableName, bound: map<Col, Value>)
    requires t in db
    requires CheckRow(db[t].def, bound).Success?
    requires var rec := CheckRow(db[t].def, bound).value;
             var pk := db[t].def.primaryKey;
             pk in rec && rec[pk].Str? && rec[pk].s in db[t].rows
    ensures Insert(db, t, bound, Plain) == Failure(UniqueFailed(db[t].def.primaryKey))
    ensures Insert(db, t, bound, OrReplace).Success?
  {
  }

  /** Replaying an OR REPLACE insert changes nothing. */
  lemma InsertOrReplaceIdempotent(db: Db, t: TableName, bound: map<Col, Value>)
    requires Insert(db, t, bound, OrReplace).Success?
    ensures Insert(Insert(db, t, bound, OrReplace).value, t, bound, OrReplace) ==
            Insert(db, t, bound, OrReplace)
  {
    var db' := Insert(db, t, bound, OrReplace).value;
    var rec := CheckRow(db[t].def, bound).value;
    var key := rec[db[t].def.primaryKey].s;
    assert db'[t] == Table(db[t].def, db[t].rows[key := rec]);
    assert db'[t].rows[key := rec] == db'[t].rows;
    assert db'[t := Table(db'[t].def, db'[t].rows[key := rec])] == db';
  }

  /** `DELETE FROM t`. */
  function Truncate(db: Db, t: TableName): (r: Result<Db, DbError>)
    ensures r.Success? <==> t in db
    ensures r.Success? ==> r.value.Keys == db.Keys && r.value[t] == Table(db[t].def, map[]) &&
                           forall u :: u in db && u != t ==> r.value[u] == db[u]
  {
    if t !in db then Failure(NoSuchTable(t)) else Success(db[t := Table(db[t].def, map[])])
  }

  // ---------------------------------------------------------------------------
  // Schema lifecycle.

  function Names(defs: seq<TableDef>): set<TableName> {
    set i | 0 <= i < |defs| :: defs[i].name
  }

  /** `CREATE TABLE IF NOT EXISTS` for each definition in turn. An existing table
      keeps its old definition and rows; creating one needs a writable file. */
  function CreateIfAbsent(db: Db, readOnly: bool, defs: seq<TableDef>): Result<Db, DbError>
    decreases |defs|
  {
    if |defs| == 0 then Success(db)
    else if defs[0].name in db then CreateIfAbsent(db, readOnly, defs[1..])
    else if readOnly then Failure(ReadOnlyDatabase)
    else CreateIfAbsent(db[defs[0].name := Table(defs[0], map[])], readOnly, defs[1..])
  }

  /** `init_db`: open (creating when absent) and create the missing tables. */
  function InitDb(file: DbFile, schema: seq<TableDef>): Result<DbFile, DbError> {
    match file
    case Absent =>
      (match CreateIfAbsent(map[], false, schema)
       case Success(db) => Success(Present(db, false))
       case Failure(e) => Failure(e))
    case Present(db, ro) =>
      match CreateIfAbsent(db, ro, schema)
      case Success(db') => Success(Present(db', ro))
      case Failure(e) => Failure(e)
  }

  /** `recreate_db`: unlink the file, then `init_db` on the fresh one. */
  function RecreateDb(file: DbFile, schema: seq<TableDef>): Result<DbFile, DbError> {
    InitDb(Absent, schema)
  }

  lemma {:induction false} CreateIfAbsentEffect(db: Db, readOnly: bool, defs: seq<TableDef>)
    ensures var r := CreateIfAbsent(db, readOnly, defs);
            (r.Success? <==> !readOnly || Names(defs) <= db.Keys) &&
            (r.Success? ==>
              r.value.Keys == db.Keys + Names(defs) &&
              (forall t :: t in db ==> r.value[t] == db[t]) &&
              (forall t :: t in r.value && t !in db ==> r.value[t].rows == map[]))
    decreases |defs|
  {
    if |defs| > 0 {
      assert Names(defs) == {defs[0].name} + Names(defs[1..]) by {
        forall t | t in Names(defs) ensures t in {defs[0].name} + Names(defs[1..]) {
          var i :| 0 <= i < |defs| && defs[i].name == t;
          if i > 0 {
            assert defs[1..][i - 1].name == t;
          }
        }
      }
      if defs[0].name in db {
        CreateIfAbsentEffect(db, readOnly, defs[1..]);
      } else if !readOnly {
        CreateIfAbsentEffect(db[defs[0].name := Table(defs[0], map[])], readOnly, defs[1..]);
      }
    }
  }

  /** `init_db` is additive: it keeps every existing table and row, adds the missing
      tables empty, and fails on a read-only file only when it has something to create. */
  lemma InitDbAdditive(db: Db, readOnly: bool, schema: seq<TableDef>)
    ensures InitDb(Present(db, readOnly), schema).Success? <==> !readOnly || Names(schema) <= db.Keys
    ensures InitDb(Present(db, readOnly), schema).Failure? ==>
              InitDb(Present(db, readOnly), schema).error == ReadOnlyDatabase
    ensures InitDb(Present(db, readOnly), schema).Success? ==>
              var db' := InitDb(Present(db, readOnly), schema).value.db;
              db'.Keys == db.Keys + Names(schema) &&
              (forall t :: t in db ==> db'[t] == db[t]) &&
              (forall t :: t in db' && t !in db ==> db'[t].rows == map[])
  {
    CreateIfAbsentEffect(db, readOnly, schema);
    ReadOnlyFailure(db, readOnly, schema);
  }

  lemma {:induction false} ReadOnlyFailure(db: Db, readOnly: bool, defs: seq<TableDef>)
    ensures CreateIfAbsent(db, readOnly, defs).Failure? ==>
              CreateIfAbsent(db, readOnly, defs).error == ReadOnlyDatabase
    decreases |defs|
  {
    if |defs| > 0 {
      if defs[0].name in db {
        ReadOnlyFailure(db, readOnly, defs[1..]);
      } else if !readOnly {
        ReadOnlyFailure(db[defs[0].name := Table(defs[0], map[])], readOnly, defs[1..]);
      }
    }
  }

  lemma {:induction false} CreateIfAbsentNoop(db: Db, readOnly: bool, defs: seq<TableDef>)
    requires Names(defs) <= db.Keys
    ensures CreateIfAbsent(db, readOnly, defs) == Success(db)
    decreases |defs|
  {
    if |defs| > 0 {
      assert defs[0].name in Names(defs);
      assert Names(defs[1..]) <= Names(defs) by {
        forall t | t in Names(defs[1..]) ensures t in Names(defs) {
          var i :| 0 <= i < |defs[1..]| && defs[1..][i].name == t;
          assert defs[i + 1].name == t;
        }
      }
      CreateIfAbsentNoop(db, readOnly, defs[1..]);
    }
  }

  /** Running `init_db` twice is the same as running it once. */
  lemma InitDbIdempotent(file: DbFile, schema: seq<TableDef>)
    requires InitDb(file, schema).Success?
    ensures InitDb(InitDb(file, schema).value, schema) == InitDb(file, schema)
  {
    var f' := InitDb(file, schema).value;
    if file.Absent? {
      CreateIfAbsentEffect(map[], false, schema);
    } else {
      CreateIfAbsentEffect(file.db, file.readOnly, schema);
    }
    CreateIfAbsentNoop(f'.db, f'.readOnly, schema);
  }

  /** `recreate_db` discards every table and row and leaves exactly the schema's tables, empty. */
  lemma RecreateDbEmpties(file: DbFile, schema: seq<TableDef>)
    ensures RecreateDb(file, schema).Success?
    ensures var db := RecreateDb(file, schema).value.db;
            db.Keys == Names(schema) && forall t :: t in db ==> db[t].rows == map[]
    ensures RecreateDb(file, schema).value.readOnly == false
  {
    CreateIfAbsentEffect(map[], false, schema);
  }

  // ---------------------------------------------------------------------------
  // The schemas.

  /** model.py: the root revision's albums table, which admits only full albums. */
  const RootAlbums := TableDef(Albums,
    {AlbumIdCol, NameCol, ReleaseDateCol, SpotifyUrlCol, SpotifyUriCol, TrackCountCol,
     AlbumTypeCol, ImageLargeCol, ImageMediumCol, ImageThumbCol},
    {AlbumIdCol, NameCol, ReleaseDateCol, SpotifyUrlCol, SpotifyUriCol, TrackCountCol,
     AlbumTypeCol, ImageLargeCol, ImageMediumCol, ImageThumbCol},
    AlbumIdCol, ColumnEquals(AlbumTypeCol, "album"), [])

  /** Columns every songs table holds NOT NULL; `album_id` and `track_number` are nullable. */
  const SongNotNull := {SongIdCol, NameCol, ReleaseDateCol, DurationMsCol, DurationCol,
    SpotifyUrlCol, SpotifyUriCol, IsSingleCol, ImageLargeCol, ImageMediumCol, ImageThumbCol}

  /** model.py: the root revision's songs table, without a QR column. */
  const RootSongs := TableDef(Songs,
    SongNotNull + {AlbumIdCol, TrackNumberCol},
    SongNotNull,
    SongIdCol, NoCheck, [(AlbumIdCol, Albums)])

  const RootSchema := [RootAlbums, RootSongs]

  /** artistrack/data/model.py `init_db`: QR columns and no CHECK, but no `artists`
      table and no `artist_id` column. */
  const PackageAlbums := TableDef(Albums,
    RootAlbums.columns + {QrCodeUrlCol},
    RootAlbums.columns + {QrCodeUrlCol},
    AlbumIdCol, NoCheck, [])

  const PackageSongs := TableDef(Songs,
    RootSongs.columns + {QrCodeUrlCol},
    SongNotNull + {QrCodeUrlCol},
    SongIdCol, NoCheck, [(AlbumIdCol, Albums)])

  const PackageSchema := [PackageAlbums, PackageSongs]

  /** The tables the data manager's INSERT statements are written against: the
      package tables plus an `artists` table and a nullable `artist_id` column. */
  const TargetArtists := TableDef(Artists,
    {ArtistIdCol, NameCol, SpotifyUrlCol, SpotifyUriCol, ImageLargeCol, ImageMediumCol, ImageThumbCol},
    {ArtistIdCol, NameCol, SpotifyUrlCol, SpotifyUriCol, ImageLargeCol, ImageMediumCol, ImageThumbCol},
    ArtistIdCol, NoCheck, [])

  const TargetAlbums := TableDef(Albums,
    PackageAlbums.columns + {ArtistIdCol}, PackageAlbums.notNull,
    AlbumIdCol, NoCheck, [(ArtistIdCol, Artists)])

  const TargetSongs := TableDef(Songs,
    PackageSongs.columns + {ArtistIdCol}, PackageSongs.notNull,
    SongIdCol, NoCheck, [(ArtistIdCol, Artists), (AlbumIdCol, Albums)])

  const TargetSchema := [TargetArtists, TargetAlbums, TargetSongs]

  // ---------------------------------------------------------------------------
  // The values each INSERT statement binds.

  function OptStr(o: Option<string>): Value {
    match o
    case None => Null
    case Some(s) => Str(s)
  }

  function OptInt(o: Option<int>): Value {
    match o
    case None => Null
    case Some(i) => Int(i)
  }

  function BoolValue(b: bool): Value {
    Int(if b then 1 else 0)
  }

  /** populate_db.py's album INSERT. */
  function RootAlbumValues(r: AlbumRow): map<Col, Value> {
    map[AlbumIdCol := Str(r.albumId), NameCol := Str(r.name), ReleaseDateCol := Str(r.releaseDate),
        SpotifyUrlCol := Str(r.spotifyUrl), SpotifyUriCol := Str(r.spotifyUri),
        TrackCountCol := Int(r.trackCount), AlbumTypeCol := Str(r.albumType),
        ImageLargeCol := Str(r.imageLarge), ImageMediumCol := Str(r.imageMedium),
        ImageThumbCol := Str(r.imageThumb)]
  }

  /** The song INSERT of populate_db.py and populate_singles.py. */
  function RootSongValues(r: SongRow): map<Col, Value> {
    map[SongIdCol := Str(r.songId), AlbumIdCol := OptStr(r.albumId), NameCol := Str(r.name),
        ReleaseDateCol := Str(r.releaseDate), TrackNumberCol := OptInt(r.trackNumber),
        DurationMsCol := Int(r.durationMs), DurationCol := Str(r.duration),
        SpotifyUrlCol := Str(r.spotifyUrl), SpotifyUriCol := Str(r.spotifyUri),
        IsSingleCol := BoolValue(r.isSingle), ImageLargeCol := Str(r.imageLarge),
        ImageMediumCol := Str(r.imageMedium), ImageThumbCol := Str(r.imageThumb)]
  }

  /** The data manager's artist INSERT OR REPLACE. */
  function ArtistValues(r: ArtistRow): map<Col, Value> {
    map[ArtistIdCol := Str(r.artistId), NameCol := Str(r.name), SpotifyUrlCol := Str(r.spotifyUrl),
        SpotifyUriCol := Str(r.spotifyUri), ImageLargeCol := Str(r.imageLarge),
        ImageMediumCol := Str(r.imageMedium), ImageThumbCol := Str(r.imageThumb)]
  }

  /** The data manager's album INSERT OR REPLACE. */
  function AlbumValues(r: AlbumRow): map<Col, Value> {
    RootAlbumValues(r)[ArtistIdCol := OptStr(r.artistId)][QrCodeUrlCol := OptStr(r.qrCodeUrl)]
  }

  /** The data manager's song INSERT OR REPLACE. */
  function SongValues(r: SongRow): map<Col, Value> {
    RootSongValues(r)[ArtistIdCol := OptStr(r.artistId)][QrCodeUrlCol := OptStr(r.qrCodeUrl)]
  }

  // ---------------------------------------------------------------------------
  // What each schema accepts.

  /** The root albums table takes populate_db's album row exactly when its type is "album". */
  lemma RootAlbumsAccept(r: AlbumRow)
    ensures CheckRow(RootAlbums, RootAlbumValues(r)).Success? <==> r.albumType == "album"
    ensures r.albumType != "album" ==> CheckRow(RootAlbums, RootAlbumValues(r)) == Failure(CheckFailed(Albums))
  {
    var b := RootAlbumValues(r);
    RootAlbumBinding(r);
    RecordOfFull(RootAlbums, b);
    assert Known(RootAlbums, b) && Filled(RootAlbums, b);
    assert CheckHolds(RootAlbums.check, b) <==> b[AlbumTypeCol] == Str("album");
  }

  /** populate_db's album INSERT names every column of the root albums table, each non-NULL. */
  lemma RootAlbumBinding(r: AlbumRow)
    ensures RootAlbumValues(r).Keys == RootAlbums.columns
    ensures forall c :: c in RootAlbumValues(r) ==> RootAlbumValues(r)[c] != Null
    ensures RootAlbumValues(r)[AlbumTypeCol] == Str(r.albumType)
  {
  }

  /** A binding that names every column is stored as given. */
  lemma RecordOfFull(def: TableDef, bound: map<Col, Value>)
    requires bound.Keys == def.columns
    ensures RecordOf(def, bound) == bound
  {
  }

  /** The root songs table takes every song row the root scripts build, including a
      standalone single with no album and no track number. */
  lemma RootSongsAccept(r: SongRow)
    ensures CheckRow(RootSongs, RootSongValues(r)) == Success(RootSongValues(r))
    ensures RootSongValues(r)[AlbumIdCol] == OptStr(r.albumId)
    ensures RootSongValues(r)[TrackNumberCol] == OptInt(r.trackNumber)
  {
    var b := RootSongValues(r);
    RootSongBinding(r);
    RecordOfFull(RootSongs, b);
    assert Known(RootSongs, b) && Filled(RootSongs, b);
  }

  /** The root song INSERT names every column of the root songs table; only `album_id`
      and `track_number` can be NULL. */
  lemma RootSongBinding(r: SongRow)
    ensures RootSongValues(r).Keys == RootSongs.columns
    ensures forall c :: c in SongNotNull ==> RootSongValues(r)[c] != Null
    ensures RootSongValues(r)[SongIdCol] == Str(r.songId)
  {
    RootSongKeys(r);
  }

  lemma RootSongKeys(r: SongRow)
    ensures RootSongValues(r).Keys == RootSongs.columns
  {
  }

  /** The data manager's rows fit the tables its INSERT statements name. */
  lemma TargetArtistsAccept(a: ArtistRow)
    ensures CheckRow(TargetArtists, ArtistValues(a)).Success?
  {
    var ba := ArtistValues(a);
    assert Known(TargetArtists, ba) by {
      forall c | c in ba ensures c in TargetArtists.columns {
      }
    }
    assert Filled(TargetArtists, ba) by {
      forall c | c in TargetArtists.notNull ensures c in ba && ba[c] != Null {
      }
    }
  }

  /** An album row fits the target albums table exactly when it carries its QR link. */
  lemma TargetAlbumsAccept(al: AlbumRow)
    ensures CheckRow(TargetAlbums, AlbumValues(al)).Success? <==> al.qrCodeUrl.Some?
  {
    var bl := AlbumValues(al);
    assert Known(TargetAlbums, bl) by {
      forall c | c in bl ensures c in TargetAlbums.columns {
      }
    }
    assert QrCodeUrlCol in TargetAlbums.notNull;
    if al.qrCodeUrl.Some? {
      assert Filled(TargetAlbums, bl) by {
        forall c | c in TargetAlbums.notNull ensures c in bl && bl[c] != Null {
        }
      }
    }
  }

  /** A song row fits the target songs table exactly when it carries its QR link. */
  lemma TargetSongsAccept(s: SongRow)
    ensures CheckRow(TargetSongs, SongValues(s)).Success? <==> s.qrCodeUrl.Some?
  {
    var bs := SongValues(s);
    assert Known(TargetSongs, bs) by {
      forall c | c in bs ensures c in TargetSongs.columns {
      }
    }
    assert QrCodeUrlCol in TargetSongs.notNull;
    if s.qrCodeUrl.Some? {
      assert Filled(TargetSongs, bs) by {
        forall c | c in TargetSongs.notNull ensures c in bs && bs[c] != Null {
        }
      }
    }
  }

  /** Against the package's own `init_db` tables the same statements fail: there is
      no `artist_id` column and no `artists` table. */
  lemma PackageRejectsDataManager(a: ArtistRow, al: AlbumRow, s: SongRow)
    ensures CheckRow(PackageAlbums, AlbumValues(al)) == Failure(NoSuchColumn({ArtistIdCol}))
    ensures CheckRow(PackageSongs, SongValues(s)) == Failure(NoSuchColumn({ArtistIdCol}))
    ensures InitDb(Absent, PackageSchema).Success?
    ensures Insert(InitDb(Absent, PackageSchema).value.db, Artists, ArtistValues(a), OrReplace) ==
            Failure(NoSuchTable(Artists))
  {
    PackageAlbumsReject(al);
    PackageSongsReject(s);
    PackageInit();
  }

  lemma PackageAlbumsReject(al: AlbumRow)
    ensures CheckRow(PackageAlbums, AlbumValues(al)) == Failure(NoSuchColumn({ArtistIdCol}))
  {
    var bl := AlbumValues(al);
    assert ArtistIdCol in bl && ArtistIdCol !in PackageAlbums.columns;
    assert bl.Keys - PackageAlbums.columns == {ArtistIdCol} by {
      forall c | c in bl.Keys - PackageAlbums.columns ensures c == ArtistIdCol {
      }
    }
  }

  lemma PackageSongsReject(s: SongRow)
    ensures CheckRow(PackageSongs, SongValues(s)) == Failure(NoSuchColumn({ArtistIdCol}))
  {
    var bs := SongValues(s);
    assert ArtistIdCol in bs && ArtistIdCol !in PackageSongs.columns;
    assert bs.Keys - PackageSongs.columns == {ArtistIdCol} by {
      forall c | c in bs.Keys - PackageSongs.columns ensures c == ArtistIdCol {
      }
    }
  }

  /** The package's `init_db` on a fresh file creates the albums and songs tables only. */
  lemma PackageInit()
    ensures InitDb(Absent, PackageSchema) ==
            Success(Present(map[Albums := Table(PackageAlbums, map[]), Songs := Table(PackageSongs, map[])], false))
  {
    var one := map[Albums := Table(PackageAlbums, map[])];
    var two := one[Songs := Table(PackageSongs, map[])];
    assert PackageSchema[1..][1..] == [];
    assert CreateIfAbsent(one, false, PackageSchema[1..]) == Success(two);
    assert CreateIfAbsent(map[], false, PackageSchema) == Success(two);
  }

  /** Foreign keys are not enforced: a song naming an album that is not stored is accepted. */
  lemma ForeignKeyNotEnforced(s: SongRow)
    requires s.albumId.Some?
    ensures InitDb(Absent, RootSchema).Success?
    ensures var db := InitDb(Absent, RootSchema).value.db;
            Albums in db && s.albumId.value !in db[Albums].rows &&
            Insert(db, Songs, RootSongValues(s), Plain).Success?
  {
    var db := map[Albums := Table(RootAlbums, map[]), Songs := Table(RootSongs, map[])];
    RootInit();
    RootSongsAccept(s);
    RootSongBinding(s);
    InsertFresh(db, Songs, RootSongValues(s), Plain);
  }

  /** The root `init_db` on a fresh file creates the albums and songs tables, empty. */
  lemma RootInit()
    ensures InitDb(Absent, RootSchema) ==
            Success(Present(map[Albums := Table(RootAlbums, map[]), Songs := Table(RootSongs, map[])], false))
  {
    var one := map[Albums := Table(RootAlbums, map[])];
    var two := one[Songs := Table(RootSongs, map[])];
    assert RootSchema[1..][1..] == [];
    assert CreateIfAbsent(one, false, RootSchema[1..]) == Success(two);
    assert CreateIfAbsent(map[], false, RootSchema) == Success(two);
  }
}
