/** The records the tool moves around: items as the Spotify Web API returns them
    (reduced to the keys the code reads) and rows as the INSERT statements of
    artistrack/data/data_manager.py lay them out. */
module Catalog {
  import opened Wrappers

  /** An artist object. `images` is `None` when the key is absent. */
  datatype ArtistItem = ArtistItem(
    id: string,
    name: string,
    spotifyUrl: string,       // external_urls.spotify
    uri: string,
    images: Option<seq<string>>)

  /** A simplified album object from `/artists/{id}/albums`; `albumType` is
      "album", "single" or "compilation", and `artistIds` holds the `id` of each
      entry of `artists`, in order. */
  datatype AlbumItem = AlbumItem(
    id: string,
    name: string,
    releaseDate: string,
    totalTracks: int,
    spotifyUrl: string,
    uri: string,
    albumType: string,
    images: seq<string>,
    artistIds: seq<string>)

  /** A simplified track object from `/albums/{id}/tracks`, plus the optional keys
      the callers stamp onto it (`release_date`, `images`, `album_name`, `album_type`);
      `artistIds` holds the `id` of each entry of `artists`, in order. */
  datatype TrackItem = TrackItem(
    id: string,
    name: string,
    trackNumber: Option<int>,
    durationMs: nat,
    spotifyUrl: string,
    uri: string,
    releaseDate: Option<string>,
    images: Option<seq<string>>,
    albumName: Option<string>,
    albumType: Option<string>,
    artistIds: seq<string>)

  /** A row of the `artists` table. */
  datatype ArtistRow = ArtistRow(
    artistId: string,
    name: string,
    spotifyUrl: string,
    spotifyUri: string,
    imageLarge: string,
    imageMedium: string,
    imageThumb: string)

  /** A row of the `albums` table. `artistId` and `qrCodeUrl` are columns only the
      package revision writes; the root revision leaves them `None`. */
  datatype AlbumRow = AlbumRow(
    albumId: string,
    artistId: Option<string>,
    name: string,
    releaseDate: string,
    trackCount: int,
    spotifyUrl: string,
    spotifyUri: string,
    qrCodeUrl: Option<string>,
    albumType: string,
    imageLarge: string,
    imageMedium: string,
    imageThumb: string)

  /** A row of the `songs` table; `albumId == None` is SQL NULL, a standalone single. */
  datatype SongRow = SongRow(
    songId: string,
    artistId: Option<string>,
    albumId: Option<string>,
    name: string,
    releaseDate: string,
    trackNumber: Option<int>,
    durationMs: int,
    duration: string,
    spotifyUrl: string,
    spotifyUri: string,
    qrCodeUrl: Option<string>,
    isSingle: bool,
    imageLarge: string,
    imageMedium: string,
    imageThumb: string)

  /** How a call ends when it does not return: an exception the caller's
      `except Exception` catches, or `sys.exit(code)`, which it does not. */
  datatype Stop = Raised | Exited(code: int)

  /** What can go wrong while reading an item: Python's IndexError on `images[i]`. */
  datatype ItemError = MissingImage(index: nat)

  /** The Spotify scannables endpoint that renders a URI as a QR code. */
  const QrPrefix := "https://scannables.scdn.co/uri/plain/png/ffffff/black/640/"

  function QrUrl(uri: string): (r: string)
    ensures |r| == |QrPrefix| + |uri| && r[..|QrPrefix|] == QrPrefix
  {
    QrPrefix + uri
  }

  /** Distinct URIs get distinct QR links. */
  lemma QrUrlInjective(u: string, v: string)
    requires QrUrl(u) == QrUrl(v)
    ensures u == v
  {
    assert u == QrUrl(u)[|QrPrefix|..];
    assert v == QrUrl(v)[|QrPrefix|..];
  }

  /** `images[0]['url'], images[1]['url'], images[2]['url']` without a guard:
      the large, medium and thumbnail URLs, or the IndexError of the first missing one. */
  function ThreeImages(images: seq<string>): (r: Result<(string, string, string), ItemError>)
    ensures r.Success? <==> |images| >= 3
    ensures r.Success? ==> r.value == (images[0], images[1], images[2])
    ensures r.Failure? ==> r.error == MissingImage(|images|)
  {
    if |images| < 3 then Failure(MissingImage(|images|))
    else Success((images[0], images[1], images[2]))
  }
}
