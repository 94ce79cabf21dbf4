# WraithTrack in Dafny

A model of the core of WraithTrack, a catalog tool for one Spotify artist. It
fetches the artist's albums and tracks, stores them in SQLite, and renders
reports from them: an HTML discography, a track listing, and an Instagram
story image. The repository holds several near-duplicate revisions of this
logic:

- the root scripts (`populate_db.py`, `populate_singles.py`, `model.py`,
  `wraithtrack.py`, `wraithdisco.py`, `instastory.py`);
- an older report (`disco/generate_discography.py`);
- the `artistrack` package: the data manager, the schema, the Spotify client,
  the orchestration, the web app, the report generators and the story builder.

Each revision's control flow is modelled as written. Shared pieces are factored
into common functions, and lemmas relate the variants. One part of the package
cannot run as written: its data manager builds records the dataclasses reject
and inserts into tables `init_db` does not create. For that part the model
keeps both readings. `Records`, `Schema` and `Sync` show the failures as
written, and `Store` models the data manager as its INSERT and SELECT
statements intend it.

Modules, one file each:

- `Wrappers`: `Option` and `Result`, plus `Stop`, which says how a run ends:
  by an exception (`Raised`) or by `sys.exit` (`Exited(code)`).
- `Text`: `str(n)`, `{:02d}` padding, ASCII case folding, and the title
  sanitiser shared by the story builder and the track file names.
- `Lists`: picking the `Some` values of a projection, in order.
- `Duration`: the four `M:SS` duration formatters, on integers; the float
  divisions of two of them are taken as exact (see "## Left out").
- `Dates`: `strptime`/`strftime` on `%Y-%m-%d` and `%Y-%m`, with Python's
  leniency on one-digit fields. It also holds the lenient and the strict
  `format_date`.
- `Sorting`: string order, Python's stable descending sort, and `ORDER BY ... DESC`
  over an unordered table.
- `Catalog`: the API items (artist, album, track) and the stored rows.
- `Schema`: table definitions of the three schemas, `INSERT` and `INSERT OR REPLACE`
  against column, NOT NULL, CHECK and primary-key rules, and the
  `init_db`/`recreate_db` lifecycle.
- `Records`: dataclass construction by keyword and by position.
- `Store`: the data manager as its statements intend it, on id-keyed maps.
  It covers the row derivations, the upserts, the reads, the title lookup and
  the date-prefix cleanup. As written, each save raises TypeError before its
  INSERT runs (`Records`), and the INSERTs would fail against the package's
  `init_db` (`Schema`).
- `PopulateDb`: the root two-pass album/single population with its
  deduplication, counters, truncation and rollback.
- `PopulateSingles`: the root singles upsert.
- `TokenCache`: the in-memory token, the one-hour file cache and the
  client-credentials grant (section 4.4 of RFC 6749), with the grant as an input.
- `Paging`: offset paging with limit 50, and a listing as the pages answered
  before the end or a failed request.
- `Client`: the date-keyed artist cache, the album ids, `get_artist_tracks`
  with its album and track pages interleaved and its track files, and the
  cleanup; each fetch first obtains the token.
- `Sync`: `populate_artist_data` and `main` of `artistrack/artistrack.py`,
  over an abstract client and store, with the calls as written and under the two
  readings of what was intended: the caller passing the artist's id that the
  data manager's signatures ask for, or the data manager taking the artist from
  each item as its tests and the web view's calls expect.
- `Report`: both `generate_discography` revisions as abstract rows.
- `ItemReport`: the `wraithdisco.py` page built from the cached album list. The
  per-album track file it reads is not one that `get_artist_tracks` writes
  (`TrackFileNeverWritten`), so with the tool's own files its albums show no
  track rows.
- `EnvFile`: the `.env` credential rewrite of the web app's setup tab.
- `Listing`: the track listing query of the web app's discography tab.
- `Story`: both `create_story` revisions: lookup, layout and output path.

Clocks, HTTP answers, file contents and the database state are parameters.
SQL statements become map operations with explicit error outcomes.

## Model

| member | source | states |
|---|---|---|
| Duration.FromMillisMeaning | artistrack/data/data_manager.py:98-101 | The stored duration reads back as whole minutes and whole seconds of the millisecond count: seconds below 60, and the shown time is within one second below the true length. |
| Duration.ClockRoundTrip | artistrack/data/data_manager.py:101 | A `M:SS` text made from minutes and two-digit seconds parses back to those numbers, so the shown text determines the time. |
| Duration.ViaSecondsAgrees | populate_db.py:6-11 | In exact arithmetic, the root formatter, which truncates to seconds first (also `populate_singles.py:14-19`), prints exactly what the data manager stores, for every non-negative count. With Python's float division this holds below 2^53 ms only. |
| Duration.WebAgrees | artistrack/web.py:46-48 | On a non-negative integer, the web formatter's divide-then-truncate minutes and seconds, taken in exact arithmetic, equal the data manager's integer formula. With Python's float division this holds below 2^53 ms only. |
| Duration.WebKeepsColonText | artistrack/web.py:38-40 | Any text holding a colon is shown unchanged. |
| Duration.WebNonIntegerText | artistrack/web.py:41-44 | A text without a colon that `int()` rejects is shown as `0:00`. |
| Duration.WebDecimalText | artistrack/web.py:41-48 | The decimal text of a count, with any whitespace `int()` strips around it, is shown as the count itself would be. |
| Duration.WebPaddedExample | artistrack/web.py:41-48 | A stored ` 60000` is shown as `1:00`: `int()` ignores the surrounding whitespace. |
| Duration.DigitsParse | artistrack/web.py:42 | `int()` reads a run of ASCII digits with whitespace around it as its decimal value. |
| Duration.DropUnderscoresJoin | artistrack/web.py:42 | An underscore between two digit groups is dropped and the groups join, as `int()` reads `1_000`. |
| Duration.UnderscoreExample | artistrack/web.py:42 | `int("60_000")` reads as 60000. |
| Duration.WebNegativeExample | artistrack/web.py:46-48 | A negative count, here `-5000`, is shown with seconds still inside 0..59, because the float `%` is a floor modulo. |
| Text.SafeNameChars | artistrack/storybuilder/instastory.py:108-109 | The sanitised title holds only letters, digits, `-` and `_`, so it has no spaces. |
| Text.SafeNameKeepsAlnums | artistrack/storybuilder/instastory.py:108-109 | Sanitising keeps every letter and digit of the title, in order. |
| Text.SafeNameIdempotent | artistrack/storybuilder/instastory.py:108-109 | Sanitising twice gives the same result as sanitising once. |
| Catalog.QrUrlInjective | artistrack/data/data_manager.py:67 | The QR link is a fixed prefix followed by the URI, so distinct URIs get distinct links. |
| Catalog.ThreeImages | artistrack/data/data_manager.py:69-71 | The unguarded `images[0..2]` succeeds exactly on three or more images and then yields the first three in order; otherwise it fails as an IndexError. |
| Dates.ParseIsoText | artistrack/discotech/generate_discography.py:15 | A zero-filled `YYYY-MM-DD` parses exactly when it names a calendar day (leap years included), and then to that day. |
| Dates.FormatIsoDate | artistrack/discotech/generate_discography.py:14-16 | An existing day written `YYYY-MM-DD` is shown as `<Month> <DD>, <YYYY>`, with the English month name and a zero-padded day. |
| Dates.FormatImpossibleDate | artistrack/discotech/generate_discography.py:25-28 | A ten-character text naming no calendar day is `Invalid Date Format`, and the strict revision raises on it. |
| Dates.FourCharactersShownAsGiven | artistrack/discotech/generate_discography.py:17-21 | Any four-character text that is not a full date is returned unchanged and unvalidated. |
| Dates.YearMonthForm | artistrack/discotech/generate_discography.py:22-24 | A seven-character `YYYY-MM` text with a valid month is shown as `<Month> <YYYY>`. |
| Dates.NonTextIsUnknown | artistrack/discotech/generate_discography.py:11-12 | A missing, empty or non-text value is `Unknown Date`; the strict revision raises on a non-text value. |
| Dates.OtherLengthsInvalid | artistrack/discotech/generate_discography.py:25-26 | A text of any other length that is not a full date is `Invalid Date Format`. |
| Dates.LooseSpelling | artistrack/discotech/generate_discography.py:15-16 | `strptime` also accepts a one-digit month and a space-padded one-digit day, and parses them to the same calendar day. |
| Dates.LenientExtendsStrict | disco/generate_discography.py:5-8 | Wherever the older strict `format_date` renders a date, the lenient one renders the same text. Where the strict one raises, the lenient one falls back to `Unknown Date`, `Invalid Date Format`, a four-character text as given, or a year-month form. |
| Dates.LeapDayExamples | artistrack/discotech/generate_discography.py:15 | `2023-02-29` is `Invalid Date Format` while `2024-02-29` is shown as `February 29, 2024`: the calendar is checked. |
| Schema.CheckRow | model.py:17-48 | An insert is accepted exactly when every named column exists, every NOT NULL column gets a value and the CHECK holds. The record stored gives NULL to the unnamed columns. |
| Schema.InsertEffect | artistrack/data/data_manager.py:38-47 | An accepted insert stores the checked record under its primary key and changes no other table. |
| Schema.InsertDuplicateKey | model.py:18 | A plain INSERT of a key already present fails on the primary key; INSERT OR REPLACE overwrites it. |
| Schema.InsertOrReplaceIdempotent | populate_singles.py:60-66 | Replaying an INSERT OR REPLACE leaves the database unchanged. |
| Schema.Truncate | populate_db.py:25-27 | `DELETE FROM t` empties exactly that table, and fails when it does not exist. |
| Schema.InitDbAdditive | artistrack/data/model.py:97-148 | `init_db` keeps every existing table and row and adds the missing tables empty. It fails, with the storage error unmasked, only when a table is missing and the file is read-only. |
| Schema.InitDbIdempotent | artistrack/data/model.py:110-145 | Running `init_db` twice gives the same result as running it once. |
| Schema.RecreateDbEmpties | artistrack/data/model.py:84-95 | `recreate_db` always succeeds and leaves exactly the schema's tables, all empty, on a writable file, whatever was there before. |
| Schema.RootAlbumsAccept | model.py:25 | The root albums table takes the album row exactly when its type is `album`; a single-type row breaks the CHECK. |
| Schema.RootSongsAccept | model.py:33-48 | The root songs table takes every song row unchanged, including a standalone single whose album id and track number are bound as NULL. |
| Schema.TargetArtistsAccept | artistrack/data/data_manager.py:38-42 | Every artist row fits the table the data manager's artist INSERT names. |
| Schema.TargetAlbumsAccept | artistrack/data/data_manager.py:75-80 | An album row fits the data manager's target table exactly when it carries its QR link. |
| Schema.TargetSongsAccept | artistrack/data/data_manager.py:123-129 | A song row fits the data manager's target table exactly when it carries its QR link. |
| Schema.PackageRejectsDataManager | artistrack/data/model.py:110-145 | Against the package's own `init_db` tables, the data manager's album and song INSERTs fail on the missing `artist_id` column, and its artist INSERT fails on the missing table. |
| Schema.ForeignKeyNotEnforced | artistrack/data/model.py:143 | Foreign keys are not enforced, so a song naming an album that is not stored is accepted. |
| Records.ConstructByKeyword | artistrack/data/model.py:35-76 | A keyword construction succeeds exactly when every keyword is a field and every field without a default is given; an unknown keyword is reported before a missing field. |
| Records.ConstructByPosition | artistrack/data/data_manager.py:302 | `Cls(*row)` succeeds exactly when the row is no longer than the field list and the remaining fields have defaults; a longer row is a TypeError. |
| Records.AsDeclaredConstructorsFail | artistrack/data/model.py:35-76 | With the dataclasses as declared, these data-manager calls raise TypeError. The keyword calls `Artist(...)` (save_artist, get_artist, get_artists), `Album(...)` and `Song(...)` (the saves and get_discography) fail on `artist_id`. `Discography(artist=...)` fails on `artist`. The positional `Album(*row)` and `Song(*row)` of get_artist_discography fail on each row's extra value. |
| Records.AsDeclaredConstructorsSucceed | artistrack/data/data_manager.py:291-302 | Two calls do construct as declared. One is get_artist_discography's `Discography(albums=..., songs=...)`. The other is get_song_by_title's `Song(*row)` on a fourteen-value row of the package's songs table. |
| Records.IntendedConstructorsSucceed | artistrack/data/data_manager.py:27-35 | With `artist_id` declared, every keyword and positional construction the data manager performs succeeds. |
| Records.IntendedDiscographySucceeds | artistrack/data/data_manager.py:260 | With `artist` declared as an optional field, the discography constructs both with and without the artist. |
| Store.ArtistRowImages | artistrack/data/data_manager.py:21-51 | The artist row keeps the item's id, name and URI. Each image is the item's when the list is long enough, else `''`, and all three are `''` when the list is absent. |
| Store.AlbumRowOfSpec | artistrack/data/data_manager.py:53-90 | An album item becomes a row exactly when it has three images. The row keeps the item's fields, takes the given artist and the QR link of its URI, and keeps the first three images in order. |
| Store.SongRowOfSpec | artistrack/data/data_manager.py:92-140 | A track becomes a row unless it has an image list with fewer than three entries. The row is a single exactly when no album is given. A missing date is `''`. The images are blank without an `images` key. The duration text reads back within one second below the count. |
| Store.SaveEffect | artistrack/data/data_manager.py:38-47 | Each save replaces the row under the item's id, including when the key is new, and leaves every other row and table unchanged. |
| Store.SaveIdempotent | artistrack/data/data_manager.py:75-86 | Saving the same record twice leaves the store as saving it once. |
| Store.SaveAlbumConsistent | artistrack/data/data_manager.py:75-86 | An album save keeps the store consistent: every row under its own id with its QR link. |
| Store.SaveSongConsistent | artistrack/data/data_manager.py:123-136 | A song save keeps the store consistent: every song row under its own id with its QR link, and a single exactly when it has no album. |
| Store.SavedRowsFitTables | artistrack/data/data_manager.py:38-42 | Every row a save produces fits the target table its INSERT names. |
| Store.GetArtistAfterSave | artistrack/data/data_manager.py:142-165 | A saved artist reads back as the row the save returned, and other artists read as before. |
| Store.GetDiscography | artistrack/data/data_manager.py:194-260 | `None` exactly for an unknown artist. Otherwise it returns the artist's row and exactly the albums and songs whose `artist_id` is that artist. |
| Store.GetArtistDiscography | artistrack/data/data_manager.py:262-291 | Every album and every song is returned once, each list ordered by release date, newest first. |
| Store.TitleMatchesIgnoreCase | artistrack/data/data_manager.py:298 | A title and its lower-case form select the same songs. |
| Store.GetSongByTitle | artistrack/data/data_manager.py:293-302 | Returns a stored song whose name equals the title up to case. Returns `None` exactly when no such song exists, never an error. |
| Store.StaleFiles | artistrack/data/data_manager.py:304-314 | The removed names are exactly the `*.json` names that do not start with today's date. |
| Store.CleanupLeavesToday | artistrack/data/data_manager.py:310-314 | After cleanup every JSON name left starts with today's date, and no non-JSON name is removed. |
| PopulateDb.PopulateCommitsIff | populate_db.py:22-159 | A run commits exactly when the album list was fetched and loads. Every full album has three images, a track list and a number on each track. Every single has its track list, and three images if it has a track to insert. No full-album id, no album track id and no id of a single's track outside the albums occurs twice. Any other run ends with both tables empty: the truncation was committed first and the rest is rolled back or never committed. |
| PopulateDb.RepeatedKeyRollsBack | populate_db.py:56-156 | Two full albums with one id, an album track id met twice, or two singles' tracks outside the albums with one id make the plain INSERT raise. The run does not commit, and both tables end empty. |
| PopulateDb.RepeatedAlbumRollsBack | populate_db.py:40-61 | A list naming the same full album twice never commits. |
| PopulateDb.AlbumPassIff | populate_db.py:40-95 | The album loop finishes exactly when every full album loads and its album id and track ids are pairwise distinct and not yet stored. |
| PopulateDb.SinglePassIff | populate_db.py:98-131 | The singles loop finishes exactly when every single's track list is fetched, a single with a track to insert has three images, and the ids of those tracks are pairwise distinct and not yet stored. |
| PopulateDb.PassesAlbums | populate_db.py:40-63 | Only `album` items become album rows: each full album once, under its own row. The album counter equals both the number of full albums and the number of album rows. |
| PopulateDb.PassesAlbumTracks | populate_db.py:67-94 | Every track of every full album is stored as that album's track, with the item's release date and images. The first pass's id set is exactly those tracks. |
| PopulateDb.PassesSingles | populate_db.py:98-131 | The songs table holds the album tracks plus the tracks of singles. Every single's track that no album holds is stored as a single, with no album, no track number and the single's date and images. |
| PopulateDb.PassesDedup | populate_db.py:103 | A stored song is a single exactly when its id is not among the full albums' tracks. |
| PopulateDb.PassesCounts | populate_db.py:136-146 | The three counters equal the album rows, the non-single songs and the single songs, as the COUNT queries report them. |
| PopulateDb.PassesOrder | populate_db.py:40-98 | The album pass runs over the whole list before any single is examined: every album line precedes every single line. |
| PopulateDb.PassesFitRootSchema | model.py:17-48 | Every stored album row passes the root CHECK. Every song row fits the root songs table, and its album id is NULL exactly when it is a single. |
| PopulateDb.PopulateIgnoresOthers | populate_db.py:41 | Compilations and any other album type change nothing: the run equals the run on the album and single items alone. |
| PopulateSingles.PlaceholderRow | populate_singles.py:44-58 | The row exists exactly when the item has three images. It uses the item's id as song id, with no album, no track number, 0 ms and `0:00`, is a single, and keeps the item's name and date. |
| PopulateSingles.UpsertIsMerge | populate_singles.py:41-69 | The loop succeeds exactly when every single has its images. It then overrides the old table with one row per single, and the counter grows by the number of singles. |
| PopulateSingles.OverridesKeys | populate_singles.py:42 | The ids written are exactly the ids of the `single` items. |
| PopulateSingles.OverridesRows | populate_singles.py:44-66 | Every written row is the placeholder row of a single with that id. |
| PopulateSingles.PopulateSinglesSpec | populate_singles.py:21-77 | The script commits exactly when the file is there and every single has its images. The table is then the old one overridden by the singles, and the count is the number of singles. Otherwise the table is unchanged. |
| PopulateSingles.PopulateSinglesIdempotent | populate_singles.py:60-66 | Running the script twice on the same file leaves the table as one run does. |
| PopulateSingles.PopulateSinglesFrame | populate_singles.py:60-66 | Rows of other ids keep their contents; each single's id ends up holding a single row under that id. |
| TokenCache.LoadCachedToken | artistrack/discotech/spotify_client.py:33-57 | The loader raises exactly on a file it cannot use without a TypeError, which its `except` does not name: JSON that is not an object, a `timestamp` that is not a string, or a timestamp with a UTC offset. A hit returns exactly the token and expiry that were saved. |
| TokenCache.SaveLoadRoundTrip | artistrack/discotech/spotify_client.py:37-70 | A saved token loads back exactly while less than 3600 s have passed, strictly. Any future timestamp counts as fresh. |
| TokenCache.UnreadableIsMiss | artistrack/discotech/spotify_client.py:36-57 | A missing cache file is a miss, and so is one failing with the caught JSONDecodeError, KeyError or ValueError. A file raising TypeError is an error, not a miss. |
| TokenCache.UnusableRaises | artistrack/discotech/spotify_client.py:72-74 | With nothing in memory, a cache file that raises TypeError stops `ensure_valid_token` with that exception in both revisions, before and whatever the grant. The load sits outside the package's `try`. |
| TokenCache.GrantFailure | artistrack/discotech/spotify_client.py:94-103 | A failed grant exits 1 in the package client. It raises in the root revision, and also in the package when the answer lacks `access_token`. |
| TokenCache.MemoryReused | artistrack/discotech/spotify_client.py:73-76 | A token in memory is returned as is: no cache read, no grant, no change. |
| TokenCache.GrantOnlyOnMiss | artistrack/discotech/spotify_client.py:72-92 | While memory or a fresh cache holds a token, the result does not depend on the grant, succeeds, and leaves the cache file unchanged. |
| TokenCache.GrantStored | artistrack/discotech/spotify_client.py:94-103 | After a grant the token is `access_token` and the expiry is `expires_in` or 3600. Both are in memory and in the cache, which loads them back. |
| TokenCache.GrantFailureStops | artistrack/discotech/spotify_client.py:100-103 | On a miss, a failed request exits 1 in the package and raises in the root revision. |
| TokenCache.Memoised | wraithtrack.py:64-89 | After one successful call the token is memoised: any later call, at any time and whatever the grant, returns the same token and state. |
| TokenCache.NewClient | artistrack/discotech/spotify_client.py:14-21 | The client starts exactly when both credentials are set and non-empty, with nothing in memory; otherwise it exits 1. |
| Paging.FetchAll | artistrack/discotech/spotify_client.py:146-187 | The loop asks for offsets 0, 50, 100, ... and stops at the first page that ends the listing or fails. It returns the concatenation of every page's items in order, or exits 1 on a failed request. That outcome is the `ListingOf` the requests give, ended at the loop's last request: it fails exactly when the listing failed, and otherwise holds the flattened pages. |
| Paging.ListingOfItems | wraithtrack.py:235-301 | The listing ended at request `e` holds the items of requests `0 .. e` in order, and fails exactly when request `e` failed. Ended where the stop rule ends it, a listing that did not fail ends on a page the rule stops at. |
| Paging.FirstEndUnique | artistrack/discotech/spotify_client.py:189-229 | The first request at which the listing ends is unique, so the loop's answer is well defined. |
| Paging.FalsyStopsNoLater | wraithtrack.py:293-298 | The falsy `next` test stops wherever the `None` test does, and additionally exactly on an empty URL. |
| Client.ArtistDataCacheRule | artistrack/discotech/spotify_client.py:107-144 | The token is obtained first, and its failure stops the call as `ensure_valid_token` stops. With the token, today's file, when present, is served without an artist request. Otherwise the answer is fetched and written under today's name, and a failed request exits 1. |
| Client.ArtistDataTokenFirst | artistrack/discotech/spotify_client.py:108-114 | Today's artist file does not spare the token. With nothing in memory or in a fresh cache, a failed grant stops the call even when the file is there. |
| Client.ArtistDataSameDay | artistrack/discotech/spotify_client.py:108-121 | A second call on the same day, at any later time, asks neither the token endpoint nor the artist endpoint, and returns what the first returned. |
| Client.AlbumIds | wraithtrack.py:190-192 | The ids, one per album, in input order. |
| Client.Stamp | wraithtrack.py:269-272 | A stamped track carries its album's name, type and release date, and keeps all its own fields. |
| Client.WriteTrack | wraithtrack.py:275-289 | A track's file is there afterwards. An existing file under its name is kept as it was, and otherwise the file holds the stamped track. |
| Client.WriteAllSpec | wraithtrack.py:275-291 | Writing tracks in order adds exactly their file names and keeps every file that was there. Each new name holds the first of the tracks that has it. |
| Client.WriteAllAppend | wraithtrack.py:269-291 | Writing two lists of tracks in turn is writing their concatenation. |
| Client.EnrichTracksWrites | wraithtrack.py:269-291 | The directory an album's tracks leave is its stamped tracks written in order. |
| Client.EnrichTracksFiles | wraithtrack.py:276-281 | Existing track files are never overwritten, and every returned track has a file under its name. |
| Client.EnrichTracksAppend | wraithtrack.py:269-291 | Handling a track list in two parts, the second from the files the first left, writes the same files and returns the same tracks as handling it in one go. |
| Client.EnrichTrackPagesFlat | wraithtrack.py:254-296 | Handling an album's track pages one by one as they arrive writes the same files and returns the same tracks as handling their concatenation. |
| Client.EnrichAlbumsWrites | wraithtrack.py:253-296 | The directory a page of albums leaves is the fetched tracks, up to and including the failing album's delivered pages, written in order. |
| Client.EnrichAlbumsSpec | wraithtrack.py:253-296 | One page of albums succeeds exactly when every album's track listing is complete, and then returns the fetched tracks. Success or not, every track fetched before the failing album's failed page has its file, and no existing file changes. The directory afterwards is exactly the fetched tracks written in order, each under a new name only (`WriteAll`). |
| Client.EnrichAlbumsAppend | wraithtrack.py:253-296 | Handling albums in two parts is handling them in one go: a failure in the first part ends the run there, and otherwise the second part starts from the files the first left. |
| Client.EnrichAlbumPagesFlat | wraithtrack.py:235-301 | Handling the album pages one by one, each page's albums before the next page is requested, equals handling the concatenated album listing. |
| Client.WrittenNamesSurviveCleanup | wraithtrack.py:311 | Every file `get_artist_tracks` writes starts with today's date and ends in `.json`, so the same day's cleanup keeps it. |
| Client.GetArtistTracksSpec | wraithtrack.py:222-319 | A token failure raises before anything is written. After the token, the call succeeds exactly when the album listing and every listed album's track listing are complete. The tracks are then every album's tracks stamped with that album, `total` counts them, the artist id is carried, and the album listing has its file. Success or not, every track delivered before a failed page has its file, and no existing file is overwritten. The names added are exactly those of the fetched tracks and, on success, the album listing's. Each new file holds the first fetched track with its name, or the concatenated album listing. |
| Client.GetArtistTracksDirectory | wraithtrack.py:222-313 | After the token, the directory is the fetched tracks written in order, plus the concatenated album listing on success when today's listing file is absent. |
| Client.GetArtistTracksNames | wraithtrack.py:222-313 | After the token, the names added are exactly the fetched tracks' and, on success, the album listing's. Each new file holds the first fetched track with that name, or the listing. |
| Client.FetchedFromAlbums | wraithtrack.py:269-272 | Every fetched track carries the name, type and date of an album it was listed under. |
| Client.CleanupOldFiles | wraithtrack.py:194-203 | The root cleanup removes exactly the names the data manager's cleanup removes, in listing order. |
| Sync.WithAlbumArt | artistrack/artistrack.py:45-46 | The saved track takes the album's images and release date and keeps its own fields. |
| Sync.SaveTracksSpec | artistrack/artistrack.py:43-47 | The inner loop calls `save_song` once per track, in order, each with the album's art and the same second argument. It stops at the first failure. |
| Sync.ProcessAlbumsCalls | artistrack/artistrack.py:36-47 | A loop that runs to the end has called `save_album` on every album, whatever its type. It has fetched tracks by each album's id and saved every track with its album's art. |
| Sync.ProcessAlbumsLines | artistrack/artistrack.py:35-48 | A completed loop prints `[i/n] Saved album` with the running number and then `Saved k tracks` with that album's track count, for each album. |
| Sync.PopulateCompleted | artistrack/artistrack.py:20-50 | A run completes exactly when nothing stopped it. It then made the two fetches and the loop's calls, printed the fetch lines, the loop's lines and the success line, and returns without an exit code. |
| Sync.PopulateCompletedCalls | artistrack/artistrack.py:36-47 | A completed run saved every album of the list, fetched by their ids in order, and saved every stamped track in order. |
| Sync.PopulateCompletedLines | artistrack/artistrack.py:35-50 | A completed run prints `2n + 4` lines, with the counters `1/n .. n/n` and the track counts in album order. |
| Sync.PopulateFailed | artistrack/artistrack.py:52-54 | An exception prints the error line last and exits 1. A `sys.exit` from the client passes through with its own code and no error line. The success line is never printed. |
| Sync.ArtistFailureStopsEarly | artistrack/artistrack.py:27-28 | When `get_artist_data` raises, nothing else is called, the error line follows the first progress line, the store is unchanged and the exit code is 1. |
| Sync.MainOrder | artistrack/artistrack.py:56-82 | The steps run in the fixed order recreate, refresh, build, story, each exactly when its flag is set. The story gets exactly the title and the output path, an exit ends the run, and with no flags nothing runs. |
| Sync.CallSaveAlbum | artistrack/data/data_manager.py:53-90 | A call binds its arguments against `save_album(self, album_data, artist_id)`: any count of extra arguments other than one raises TypeError, and a call that succeeds stores the album under its id credited to the artist passed. |
| Sync.CallSaveSong | artistrack/data/data_manager.py:92-140 | A call binds its arguments against `save_song(self, song_data, artist_id, album_id=None)`: no extra argument or more than two raises TypeError, and a call that succeeds stores the track credited to the first extra argument, under the second one when given and as a single otherwise. |
| Records.SaveCallsBind | artistrack/data/data_manager.py:53-92 | Binding positional arguments to the save methods' parameters: one argument leaves `artist_id` missing for both, while two (and, for `save_song`, three) bind completely; the second and third parameters of `save_song` are `artist_id` and `album_id`. |
| Sync.SaveAlbumAsCalled | artistrack/artistrack.py:38 | `save_album(album_data)` binds one argument against `album_data, artist_id`, so `artist_id` is missing and every such call raises TypeError, whatever the store and the album. |
| Sync.AsCalledRefreshFails | artistrack/artistrack.py:38 | As written, a refresh that finds any album fails at the first `save_album`: nothing is stored, no track is fetched, and the process exits 1. |
| Sync.AsCalledSongIsSingle | artistrack/artistrack.py:47 | As written, `save_song(track, album.album_id)` would store the track as a single credited to the album's id as artist. |
| Sync.IntendedRunCredited | artistrack/artistrack.py:36-47 | With the calls the data manager's signatures ask for (the fetched artist's id passed to `save_album` and `save_song`), every row the run writes is credited to the fetched artist, every track row is an album track, and a completed run has stored every album. |
| Sync.SaveAlbumByItem | tests/test_data_manager.py:44-57 | Under the reading the data manager's tests expect, `save_album(album_data)` raises for an album without artists and otherwise stores the album credited to its first artist. |
| Sync.SaveSongByItem | tests/test_data_manager.py:60-76 | Under the same reading, `save_song(track_data, album_id)` raises for a track without artists and otherwise stores an album track, under the given album, credited to the track's first artist. |
| Sync.ItemsReadingAgrees | artistrack/artistrack.py:36-47 | When the refreshed artist is the first artist of every listed album and of every track fetched for one, the code as written run against the tests' reading of the data manager performs exactly the run of the signature reading, so the crediting and storing of `IntendedRunCredited` hold for it. |
| Report.HeadersAreRunStarts | artistrack/discotech/generate_discography.py:177-213 | The headers shown are exactly the starts of the runs of equal album ids, in order. |
| Report.TrackRowsShown | disco/generate_discography.py:151-161 | A track row is shown for exactly the joined rows with a non-empty track name, in order. |
| Report.LayoutOrder | artistrack/discotech/generate_discography.py:169-235 | Every album row precedes every single row, and the singles appear in query order. The `No albums found` row appears exactly in the package revision with an empty database. |
| Report.PackageDatesTotal | artistrack/discotech/generate_discography.py:177-235 | The package page never fails and shows every header and single date through the lenient `format_date`. |
| Report.OlderDatesStrict | disco/generate_discography.py:126-182 | The older page renders exactly when every header and single date is a full `YYYY-MM-DD`. A single partial date aborts it. |
| Report.InterleavedHeaders | artistrack/discotech/generate_discography.py:65 | As written, an answer the ORDER BY allows, with two albums on one date, shows each album's header twice. |
| Report.IntendedOneHeaderPerAlbum | artistrack/discotech/generate_discography.py:65 | With the album id as a tiebreak in the ORDER BY, every album of the join gets exactly one header. |
| Report.SinglesQuery | artistrack/discotech/generate_discography.py:71-85 | The singles are exactly the stored songs without an album, each once, newest release first. |
| ItemReport.HtmlRowSpec | wraithdisco.py:5-52 | A row renders exactly on three images and a full date; otherwise it raises. Only a track row is renamed `Track <n> - <name>` and gets the track-row class. |
| ItemReport.TrackRowsSpec | wraithdisco.py:153-156 | Each track row copies the album item, replacing only name, number and link, so it keeps the album's images and date. |
| ItemReport.ItemRowsSpec | wraithdisco.py:135-157 | A `single` item gives one main row. Any other item gives an album row plus one track row per entry of its track file, when that file exists. |
| ItemReport.AllRowsSpec | wraithdisco.py:135-157 | The page renders exactly when every item does, and the main rows are then the items' rows in order, one each. |
| ItemReport.TrackFileNeverWritten | wraithdisco.py:143-147 | The page looks for `<date>__track__<album name>_<album id>.json`, while `get_artist_tracks` writes `<date>__track__<safe track name>_<track id>.json`. For an album and a track whose ids differ and have the same length, the two names always differ. |
| ItemReport.MainSpec | wraithdisco.py:54-172 | The page renders exactly when the album list is readable and every item renders. The main rows are then the items sorted newest first, a stable permutation of the list, and the printed count is the number of items. |
| EnvFile.ReadLinesShape | artistrack/web.py:724-726 | `readlines` loses nothing: the lines joined give the file back, and every line but the last ends in a newline. |
| EnvFile.ReadWritten | artistrack/web.py:745-746 | Writing well-formed lines and reading them back gives the same lines. |
| EnvFile.RewriteAsWrittenSpec | artistrack/web.py:732-743 | Every line beginning with a key is replaced by the new key line and every other line keeps its place. A missing key gets exactly one line appended, id before secret, so the count is unchanged when both exist. |
| EnvFile.AsWrittenMergesLastLine | artistrack/web.py:740-743 | As written, a file whose last line has no newline gets the id line glued onto that last line, so the file read back differs from the lines written. |
| EnvFile.AsWrittenLosesIdExample | artistrack/web.py:740-746 | For the file `FOO=1`, the rewrite as written reads back with no line starting `SPOTIFY_CLIENT_ID=`; the corrected rewrite has one. |
| EnvFile.RewriteEnvReadsBack | artistrack/web.py:740-746 | The corrected rewrite, which ends the last line before appending, writes a file that reads back as exactly the lines it produced. |
| EnvFile.RewriteEnvSpec | artistrack/web.py:732-743 | In the corrected rewrite, key lines are replaced and lines with no key are kept (the last may gain its newline). Each key has a line starting with it. |
| Listing.ListTracks | artistrack/web.py:134-184 | Lists each row of the query once, newest release first. |
| Listing.SingleLabelIff | artistrack/web.py:135-152 | An album is shown as `Single` exactly when its name already is `Single`, or it has one song in all and that song carries the album's name. |
| Listing.SongListedIff | artistrack/web.py:142-182 | A song is listed under its own name and link exactly when its name has no `test` and it is standalone or belongs to a stored album whose name has no `test`. |
| Listing.NoTestRows | artistrack/web.py:142-182 | No row shows a track or album name containing `test`. |
| Story.ComputeLayout | artistrack/storybuilder/instastory.py:52-97 | The art is centred horizontally and vertically on the 1080x1300 canvas, 20 pixels above centre. The title sits 100 above the art, the streaming line 40 below it and the link 40 below that. |
| Story.LayoutOrder | instastory.py:48-92 | Title, art, streaming line and link are in order top to bottom, and art up to 1060 pixels high keeps them all on the canvas. |
| Story.SquareArtLayout | artistrack/storybuilder/instastory.py:52-58 | Square art of 880 pixels sits at (100, 190), with the title at 90, the streaming line at 1110 and the link at 1150. |
| Story.CreateStory | artistrack/storybuilder/instastory.py:12-117 | No file exactly when no title matches up to case, and `None` when the fonts fail. Otherwise the story of a matching song is written to `<dir>/story_<safe name>.png`, with `dir` the working directory by default, and that path is returned. |
| Story.CreateStoryRoot | instastory.py:8-108 | The root revision has the same lookup, always writes under `stories/` and returns nothing, even on success. |
| Story.StoryFileSafe | artistrack/storybuilder/instastory.py:108-111 | The file name is `story_` + safe characters + `.png`, with no space. |
| Story.StoryFileCollides | artistrack/storybuilder/instastory.py:108-111 | A title and its own sanitised form write the same file, so such songs overwrite each other's story. |

## Left out

- HTTP, the JSON cache files, `glob`/`unlink`/`mkdir` and the clock: requests, cache contents, directory listings and today's date are parameters. The `verbose` dumps of API answers are not modelled.
- The SQLite engine: SQL text, connections, type affinity and engine errors other than the column, NOT NULL, CHECK and primary-key rules. Result sets without `ORDER BY` are sets, and `fetchone` picks any matching row.
- Exception and progress message texts beyond the distinct lines the orchestration prints; errors are `Raised` or `Exited(code)`.
- The Streamlit UI of `artistrack/web.py`: tabs, widgets, `stats_tab`, `get_play_data`, the story config editor and the metrics. The refresh and rebuild buttons (`artistrack/web.py:786,794`) make the same `save_album`/`save_song` calls that `Sync` models.
- Image rendering in the story builder: PIL, fonts, the art download and the float aspect-ratio resize. The scaled art height and whether the fonts load are inputs.
- Literal HTML and CSS: report rows are abstract records of kind and fields.
- Unicode: `isalnum`, `str.lower` and SQLite `LOWER` are ASCII; `strip` removes spaces only; month names are the fixed English table.
- Python's universal-newline translation of `\r` and `\r\n` when the `.env` file is read.
- Path joining: an output path is the directory, `/`, then the file name, without `pathlib` normalisation.
- `artistrack/data/listdb.py` and `listfiles.py`: one-off print scripts.
- `get_data_directory`, `get_db_path` and `load_story_config`/`save_story_config`: path and configuration plumbing.
- Listing.ListTracks: states the release-date order only. The query's further `album_name, track_number` tiebreaks are not modelled, and `UNION ALL` duplicates of an identical row collapse into the row set.
- Store.*: the save and read lemmas (`SaveEffect`, `SaveIdempotent`, `GetArtistAfterSave` and the rest) describe the data manager as intended, with records that accept `artist_id` and tables holding the columns its statements name. The code as written raises TypeError in every `save_*` (Records.AsDeclaredConstructorsFail) and its INSERTs fail against the package schema (Schema.PackageRejectsDataManager).
- Duration.WebNonIntegerText: the model's `int()` accepts ASCII digits, underscores between digits and ASCII whitespace only; a text using the Unicode digits or Unicode whitespace that Python's `int()` also accepts is shown as a time by the source but as `0:00` by the model.
- Schema.InsertEffect: rows are kept in a map keyed by the TEXT primary key, so an insert whose key is NULL or a number fails with `KeyNotText`. SQLite accepts a NULL key in a TEXT primary-key column, any number of times, and stores a numeric key as a number. Every insert the code makes passes an item's string `id`.
- Dates.FormatIsoDate: `%Y` is modelled as the year zero-filled to four digits. Some C libraries print a year below 1000 without padding (`999`), which the model does not follow.
- Store.GetDiscography: the albums' and songs' order is the engine's; only membership is stated.
- Duration.ViaSecondsAgrees: `int(duration_ms / 1000)` (populate_db.py:8) divides in floats, and the model divides exactly. The two agree below 2^53 ms, about 285,000 years. Above that the float quotient can round up to the next whole second: at 10^19 − 1 ms, Python shows `166666666666666:40` where the model and the data manager show `:39`. Past about 1.8e308 ms, Python's `/` raises OverflowError, and the model does not.
- Duration.WebAgrees: `int(duration / 60000)` and `int((duration / 1000) % 60)` (artistrack/web.py:46-47) divide in floats, and `WebClock` divides exactly. The limits are the same as for `ViaSecondsAgrees`: agreement below 2^53 ms, and a different second and an OverflowError beyond.
- Paging.FetchAll: models the request loop alone; the `ensure_valid_token` call that precedes it in `get_all_artist_albums` and `get_album_tracks` is `TokenCache.EnsureValidToken`, composed with the fetches only in `Client`. It takes, as a ghost parameter, a request at which the listing ends; an endless listing, on which the source loops forever, is not modelled.

## Findings

| source | as written | input that shows it | evidently intended | confidence | as-written member | corrected member |
|---|---|---|---|---|---|---|
| artistrack/data/model.py:35-76 | The `Artist`, `Album`, `Song` and `Discography` dataclasses lack the `artist_id`/`artist` fields that `data_manager.py:27-35,59-61,104-106,260` passes, so every save raises TypeError. | `save_artist` with any artist item | declare `artist_id` on the three records and an optional `artist` on `Discography` | not executed | Records.AsDeclaredConstructorsFail | Records.IntendedConstructorsSucceed |
| artistrack/data/model.py:110-145 | `init_db` creates no `artists` table and no `artist_id` column, but the data manager inserts into both. | any album row inserted into the package schema | the data manager's column lists as the table definitions | not executed | Schema.PackageRejectsDataManager | Schema.TargetAlbumsAccept |
| artistrack/artistrack.py:38 | `save_album(album_data)` omits the required `artist_id`. | any refresh whose album list is non-empty | either the caller passes `save_album(album_data, artist_data['id'])`, as the signature asks, or the data manager takes `artist_id` from `album_data['artists'][0]['id']`, as `tests/test_data_manager.py:44-57` and `web.py:786` expect; the two runs coincide when the refreshed artist is every item's first artist (Sync.ItemsReadingAgrees) | not executed | Sync.AsCalledRefreshFails | Sync.IntendedRunCredited |
| artistrack/artistrack.py:47 | `save_song(track_data, album.album_id)` binds the album id to the `artist_id` parameter, so each track would be stored as a single credited to the album. | any track of any album | either `save_song(track_data, artist_data['id'], album.album_id)`, as the signature asks, or a data manager whose `save_song(song_data, album_id)` takes `artist_id` from the track's first artist, as `tests/test_data_manager.py:60-76` and `web.py:794` expect (Sync.SaveSongByItem, Sync.ItemsReadingAgrees) | not executed | Sync.AsCalledSongIsSingle | Sync.IntendedRunCredited |
| artistrack/discotech/generate_discography.py:65 | `ORDER BY a.release_date DESC, s.track_number ASC` can interleave the tracks of two albums released on the same day, and the header loop then repeats each album's header. | albums A and B on one date, each with tracks 1 and 2, returned as A1, B1, A2, B2 | add `a.album_id` between the two sort keys | not executed | Report.InterleavedHeaders | Report.IntendedOneHeaderPerAlbum |
| artistrack/web.py:740-743 | The appended credential line is written straight after a last line that has no newline, so the two merge into one line. | a `.env` holding `FOO=1` without a trailing newline | end the last line before appending | not executed | EnvFile.AsWrittenLosesIdExample | EnvFile.RewriteEnvReadsBack |
