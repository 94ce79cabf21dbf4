/** The record dataclasses of artistrack/data/model.py and what their generated
    `__init__` does with the arguments the data manager passes. A dataclass
    constructor rejects an unknown keyword, reports the fields left without a
    value, and refuses more positional values than it has fields. */
module Records {
  import opened Wrappers

  /** Field and keyword names. */
  datatype Field =
    | AlbumIdF | ArtistIdF | SongIdF | NameF | ReleaseDateF | TrackCountF | TrackNumberF
    | DurationMsF | DurationF | SpotifyUrlF | SpotifyUriF | QrCodeUrlF | AlbumTypeF
    | IsSingleF | ImageLargeF | ImageMediumF | ImageThumbF
    | DiscographyF | SongsF | AlbumsF | ArtistF
    | AlbumDataF | SongDataF

  /** A dataclass: its fields in declaration order and those that have a default.
      A method's parameters after `self` bind positional arguments by the same rule. */
  datatype Dataclass = Dataclass(fields: seq<Field>, defaults: set<Field>)

  /** The TypeErrors the generated `__init__` raises. */
  datatype ConstructError =
    | UnexpectedKeyword(field: Field)
    | MissingArguments(fields: seq<Field>)
    | TooManyPositional(expected: nat, given: nat)

  /** The first keyword, in call order, that is not a field. */
  function FirstUnexpected(fields: seq<Field>, kwargs: seq<Field>): (r: Option<Field>)
    ensures r.Some? ==> r.value in kwargs && r.value !in fields
    ensures r.None? <==> forall k :: k in kwargs ==> k in fields
  {
    if |kwargs| == 0 then None
    else if kwargs[0] !in fields then Some(kwargs[0])
    else
      var rest := FirstUnexpected(fields, kwargs[1..]);
      assert forall k :: k in kwargs ==> k == kwargs[0] || k in kwargs[1..];
      rest
  }

  /** The fields, in declaration order, that neither a keyword nor a default fills. */
  function Unfilled(fields: seq<Field>, defaults: set<Field>, given: set<Field>): (r: seq<Field>)
    ensures forall f :: f in r <==> f in fields && f !in defaults && f !in given
  {
    if |fields| == 0 then []
    else
      var rest := Unfilled(fields[1..], defaults, given);
      assert forall f :: f in fields <==> f == fields[0] || f in fields[1..];
      (if fields[0] in defaults || fields[0] in given then [] else [fields[0]]) + rest
  }

  /** `Cls(k1=..., k2=...)`: unknown keywords are reported before missing fields. */
  function ConstructByKeyword(cls: Dataclass, kwargs: seq<Field>): (r: Result<(), ConstructError>)
    ensures r.Success? <==>
              (forall k :: k in kwargs ==> k in cls.fields) &&
              (forall f :: f in cls.fields && f !in cls.defaults ==> f in kwargs)
    ensures r.Failure? && r.error.UnexpectedKeyword? ==>
              r.error.field in kwargs && r.error.field !in cls.fields
  {
    match FirstUnexpected(cls.fields, kwargs)
    case Some(k) => Failure(UnexpectedKeyword(k))
    case None =>
      var missing := Unfilled(cls.fields, cls.defaults, set k | k in kwargs);
      if |missing| > 0 then
        assert missing[0] in missing;
        Failure(MissingArguments(missing))
      else Success(())
  }

  /** `Cls(*row)`: the row's values bind to the fields in declaration order. */
  function ConstructByPosition(cls: Dataclass, given: nat): (r: Result<(), ConstructError>)
    ensures r.Success? <==> given <= |cls.fields| &&
                            forall i :: given <= i < |cls.fields| ==> cls.fields[i] in cls.defaults
    ensures given > |cls.fields| ==> r == Failure(TooManyPositional(|cls.fields|, given))
  {
    if given > |cls.fields| then Failure(TooManyPositional(|cls.fields|, given))
    else
      var missing := Unfilled(cls.fields[given..], cls.defaults, {});
      if |missing| > 0 then
        assert missing[0] in missing;
        Failure(MissingArguments(missing))
      else
        assert forall i :: given <= i < |cls.fields| ==> cls.fields[i] in cls.fields[given..];
        Success(())
  }

  // ---------------------------------------------------------------------------
  // The dataclasses as declared (artistrack/data/model.py:35-76).

  const AlbumClass := Dataclass([AlbumIdF, NameF, ReleaseDateF, TrackCountF, SpotifyUrlF,
    SpotifyUriF, QrCodeUrlF, AlbumTypeF, ImageLargeF, ImageMediumF, ImageThumbF], {})
  const SongClass := Dataclass([SongIdF, AlbumIdF, NameF, ReleaseDateF, TrackNumberF,
    DurationMsF, DurationF, SpotifyUrlF, SpotifyUriF, QrCodeUrlF, IsSingleF, ImageLargeF,
    ImageMediumF, ImageThumbF], {})
  const DiscographyClass := Dataclass([AlbumsF, SongsF], {})
  const ArtistClass := Dataclass([NameF, DiscographyF, SongsF, AlbumsF], {})

  // The argument lists of the data manager's calls (artistrack/data/data_manager.py).

  /** `Artist(...)` in save_artist and get_artist. */
  const ArtistKeywords := [ArtistIdF, NameF, SpotifyUrlF, SpotifyUriF, ImageLargeF,
    ImageMediumF, ImageThumbF]
  /** `Album(...)` in save_album and get_discography. */
  const AlbumKeywords := [AlbumIdF, ArtistIdF, NameF, ReleaseDateF, TrackCountF, SpotifyUrlF,
    SpotifyUriF, QrCodeUrlF, AlbumTypeF, ImageLargeF, ImageMediumF, ImageThumbF]
  /** `Song(...)` in save_song and get_discography. */
  const SongKeywords := [SongIdF, ArtistIdF, AlbumIdF, NameF, ReleaseDateF, TrackNumberF,
    DurationMsF, DurationF, SpotifyUrlF, SpotifyUriF, QrCodeUrlF, IsSingleF, ImageLargeF,
    ImageMediumF, ImageThumbF]
  /** `Discography(artist=..., albums=..., songs=...)` in get_discography. */
  const DiscographyKeywords := [ArtistF, AlbumsF, SongsF]

  /** As written these constructor calls of the data manager raise TypeError:
      `Artist(...)` in save_artist, get_artist and get_artists, `Album(...)` in
      save_album and get_discography, and `Song(...)` in save_song and
      get_discography, each on `artist_id`; `Discography(artist=...)` in
      get_discography on `artist`; and the positional `Album(*row)` and `Song(*row)`
      of get_artist_discography, on the extra `artist_id` value of each row read. */
  lemma AsDeclaredConstructorsFail()
    ensures ConstructByKeyword(ArtistClass, ArtistKeywords) == Failure(UnexpectedKeyword(ArtistIdF))
    ensures ConstructByKeyword(AlbumClass, AlbumKeywords) == Failure(UnexpectedKeyword(ArtistIdF))
    ensures ConstructByKeyword(SongClass, SongKeywords) == Failure(UnexpectedKeyword(ArtistIdF))
    ensures ConstructByKeyword(DiscographyClass, DiscographyKeywords) == Failure(UnexpectedKeyword(ArtistF))
    ensures ConstructByPosition(AlbumClass, |AlbumKeywords|) == Failure(TooManyPositional(11, 12))
    ensures ConstructByPosition(SongClass, |SongKeywords|) == Failure(TooManyPositional(14, 15))
  {
    ArtistCallFails();
    AlbumCallFails();
    SongCallFails();
    DiscographyCallFails();
    PositionalCallsFail();
  }

  /** Two calls do construct as declared: `Discography(albums=..., songs=...)` in
      get_artist_discography, and get_song_by_title's `Song(*row)` on a row of
      `SELECT *` over the package's songs table, whose fourteen columns are the
      fields in declaration order. */
  lemma AsDeclaredConstructorsSucceed()
    ensures ConstructByKeyword(DiscographyClass, [AlbumsF, SongsF]) == Success(())
    ensures ConstructByPosition(SongClass, 14) == Success(())
  {
    assert AlbumsF in DiscographyClass.fields && SongsF in DiscographyClass.fields;
    assert |SongClass.fields| == 14;
  }

  lemma ArtistCallFails()
    ensures ConstructByKeyword(ArtistClass, ArtistKeywords) == Failure(UnexpectedKeyword(ArtistIdF))
  {
    assert ArtistKeywords[0] == ArtistIdF && ArtistIdF !in ArtistClass.fields;
    FirstKeywordUnexpected(ArtistClass, ArtistKeywords);
  }

  lemma AlbumCallFails()
    ensures ConstructByKeyword(AlbumClass, AlbumKeywords) == Failure(UnexpectedKeyword(ArtistIdF))
  {
    assert AlbumKeywords[0] == AlbumClass.fields[0];
    assert AlbumKeywords[1] == ArtistIdF && ArtistIdF !in AlbumClass.fields;
    SecondKeywordUnexpected(AlbumClass, AlbumKeywords);
  }

  lemma SongCallFails()
    ensures ConstructByKeyword(SongClass, SongKeywords) == Failure(UnexpectedKeyword(ArtistIdF))
  {
    assert SongKeywords[0] == SongClass.fields[0];
    assert SongKeywords[1] == ArtistIdF && ArtistIdF !in SongClass.fields;
    SecondKeywordUnexpected(SongClass, SongKeywords);
  }

  lemma DiscographyCallFails()
    ensures ConstructByKeyword(DiscographyClass, DiscographyKeywords) == Failure(UnexpectedKeyword(ArtistF))
  {
    assert DiscographyKeywords[0] == ArtistF && ArtistF !in DiscographyClass.fields;
    FirstKeywordUnexpected(DiscographyClass, DiscographyKeywords);
  }

  lemma PositionalCallsFail()
    ensures ConstructByPosition(AlbumClass, |AlbumKeywords|) == Failure(TooManyPositional(11, 12))
    ensures ConstructByPosition(SongClass, |SongKeywords|) == Failure(TooManyPositional(14, 15))
  {
    assert |AlbumClass.fields| == 11 && |AlbumKeywords| == 12;
    assert |SongClass.fields| == 14 && |SongKeywords| == 15;
  }

  lemma FirstKeywordUnexpected(cls: Dataclass, kwargs: seq<Field>)
    requires |kwargs| > 0 && kwargs[0] !in cls.fields
    ensures ConstructByKeyword(cls, kwargs) == Failure(UnexpectedKeyword(kwargs[0]))
  {
  }

  lemma SecondKeywordUnexpected(cls: Dataclass, kwargs: seq<Field>)
    requires |kwargs| > 1 && kwargs[0] in cls.fields && kwargs[1] !in cls.fields
    ensures ConstructByKeyword(cls, kwargs) == Failure(UnexpectedKeyword(kwargs[1]))
  {
    assert kwargs[1..][0] == kwargs[1] && kwargs[1] !in cls.fields;
    assert FirstUnexpected(cls.fields, kwargs[1..]) == Some(kwargs[1]);
    assert FirstUnexpected(cls.fields, kwargs) == Some(kwargs[1]);
  }

  // ---------------------------------------------------------------------------
  // The dataclasses the data manager's statements call for: `artist_id` in
  // column position, the artist fields of the INSERT, and an optional `artist`.

  const IntendedAlbumClass := Dataclass(AlbumKeywords, {})
  const IntendedSongClass := Dataclass(SongKeywords, {})
  const IntendedArtistClass := Dataclass(ArtistKeywords, {})
  const IntendedDiscographyClass := Dataclass([AlbumsF, SongsF, ArtistF], {ArtistF})

  /** A class whose fields are exactly the keywords given constructs. */
  lemma SameFieldsConstruct(cls: Dataclass, kwargs: seq<Field>)
    requires cls.fields == kwargs
    ensures ConstructByKeyword(cls, kwargs).Success?
    ensures ConstructByPosition(cls, |kwargs|).Success?
  {
  }

  /** With those declarations every call of the data manager constructs its record,
      with or without the artist in the discography. */
  lemma IntendedConstructorsSucceed()
    ensures ConstructByKeyword(IntendedArtistClass, ArtistKeywords).Success?
    ensures ConstructByKeyword(IntendedAlbumClass, AlbumKeywords).Success?
    ensures ConstructByKeyword(IntendedSongClass, SongKeywords).Success?
    ensures ConstructByPosition(IntendedAlbumClass, |AlbumKeywords|).Success?
    ensures ConstructByPosition(IntendedSongClass, |SongKeywords|).Success?
  {
    SameFieldsConstruct(IntendedArtistClass, ArtistKeywords);
    SameFieldsConstruct(IntendedAlbumClass, AlbumKeywords);
    SameFieldsConstruct(IntendedSongClass, SongKeywords);
  }

  /** The discography constructs with the artist (get_discography) and without it
      (get_artist_discography). */
  lemma IntendedDiscographySucceeds()
    ensures ConstructByKeyword(IntendedDiscographyClass, DiscographyKeywords).Success?
    ensures ConstructByKeyword(IntendedDiscographyClass, [AlbumsF, SongsF]).Success?
  {
    DiscographyCalls([ArtistF, AlbumsF, SongsF]);
    DiscographyCalls([AlbumsF, SongsF]);
  }

  /** Any keyword call naming the albums and the songs, and the artist at most, constructs. */
  lemma DiscographyCalls(kwargs: seq<Field>)
    requires AlbumsF in kwargs && SongsF in kwargs
    requires forall k :: k in kwargs ==> k == AlbumsF || k == SongsF || k == ArtistF
    ensures ConstructByKeyword(IntendedDiscographyClass, kwargs).Success?
  {
    var d := IntendedDiscographyClass;
    assert forall f :: f in d.fields ==> f == AlbumsF || f == SongsF || f == ArtistF;
    assert AlbumsF in d.fields && SongsF in d.fields && ArtistF in d.fields;
  }

  // ---------------------------------------------------------------------------
  // The data manager's save methods (artistrack/data/data_manager.py:53,92), as
  // parameter lists after `self`.

  const SaveAlbumParams := Dataclass([AlbumDataF, ArtistIdF], {})
  const SaveSongParams := Dataclass([SongDataF, ArtistIdF, AlbumIdF], {AlbumIdF})

  /** `save_album(album_data)` leaves the required `artist_id` unbound, a TypeError;
      with two arguments it binds. `save_song` binds two or three arguments, the
      second always to `artist_id`, and `album_id` keeps its default when left out. */
  lemma SaveCallsBind()
    ensures ConstructByPosition(SaveAlbumParams, 1) == Failure(MissingArguments([ArtistIdF]))
    ensures ConstructByPosition(SaveAlbumParams, 2).Success?
    ensures ConstructByPosition(SaveSongParams, 1) == Failure(MissingArguments([ArtistIdF]))
    ensures ConstructByPosition(SaveSongParams, 2).Success? && ConstructByPosition(SaveSongParams, 3).Success?
    ensures SaveSongParams.fields[1] == ArtistIdF && SaveSongParams.fields[2] == AlbumIdF
  {
    assert SaveAlbumParams.fields[1..] == [ArtistIdF];
    assert [ArtistIdF][1..] == [];
    assert Unfilled([ArtistIdF], {}, {}) == [ArtistIdF] + Unfilled([], {}, {});
    assert Unfilled(SaveAlbumParams.fields[1..], SaveAlbumParams.defaults, {}) == [ArtistIdF];
    assert 1 <= |SaveAlbumParams.fields|;
    assert SaveSongParams.fields[1..] == [ArtistIdF, AlbumIdF];
    assert Unfilled([ArtistIdF, AlbumIdF], {AlbumIdF}, {}) == [ArtistIdF] + Unfilled([AlbumIdF], {AlbumIdF}, {});
  }
}
