/** The bearer-token cache of the two Spotify clients, `SpotifyClient` in
    artistrack/discotech/spotify_client.py and the module-level functions of
    wraithtrack.py. A token lives in memory, in the file `bearer_token.json`, and
    otherwise comes from the client-credentials grant of section 4.4 of RFC 6749,
    which here is an oracle input. Time is a whole number of microseconds, the
    resolution `datetime.isoformat` keeps. */
module TokenCache {
  import opened Wrappers
  import opened Catalog

  /** A cached entry is fresh while it is younger than an hour. */
  const FreshMicros := 3600 * 1000000

  /** `expires_in` when the grant response leaves it out. */
  const DefaultExpires := 3600

  datatype Token = Token(token: string, expires: int)

  /** What `bearer_token.json` holds as far as the loader is concerned: no file; a
      file that fails to decode, lacks a key or holds a timestamp string that is not
      ISO (JSONDecodeError, KeyError, ValueError, which the loader catches); a file
      the loader cannot use without a TypeError, which it does not catch (JSON that is
      not an object, a `timestamp` that is not a string, a timestamp with a UTC
      offset, which cannot be subtracted from the naive `datetime.now()`); or an entry. */
  datatype CacheFile = NoFile | Malformed | Unusable | Entry(saved: Token, timestamp: int)

  /** The grant request: a token response, a `requests` failure (HTTP status or
      transport), or a response without `access_token`. */
  datatype Grant = Granted(accessToken: string, expiresIn: Option<int>) | RequestFailed | NoAccessToken

  /** The two revisions differ in what a failed grant does. */
  datatype Revision = Package | Root

  /** The in-memory token and the cache file. */
  datatype Client = Client(memory: Option<Token>, file: CacheFile)

  /** `load_cached_token`: the saved token while the entry is fresh, else nothing;
      an uncaught TypeError raises out of it. The age test is strict and one-sided,
      so an entry stamped in the future is fresh. */
  function LoadCachedToken(file: CacheFile, now: int): (r: Result<Option<Token>, Stop>)
    ensures r.Failure? <==> file.Unusable?
    ensures r.Failure? ==> r.error == Raised
    ensures r.Success? && r.value.Some? ==> file.Entry? && r.value.value == file.saved
  {
    match file
    case NoFile => Success(None)
    case Malformed => Success(None)
    case Unusable => Failure(Raised)
    case Entry(saved, timestamp) => if now - timestamp < FreshMicros then Success(Some(saved)) else Success(None)
  }

  /** `save_token`: the token with the current time. */
  function SaveToken(t: Token, now: int): (f: CacheFile)
    ensures f.Entry? && f.saved == t
  {
    Entry(t, now)
  }

  /** A saved token loads back exactly while less than an hour has passed. */
  lemma SaveLoadRoundTrip(t: Token, saved: int, now: int)
    ensures LoadCachedToken(SaveToken(t, saved), now) == Success(if now - saved < FreshMicros then Some(t) else None)
    ensures now <= saved ==> LoadCachedToken(SaveToken(t, saved), now) == Success(Some(t))
  {
  }

  /** A file that fails with one of the caught errors is a miss, and so is a missing
      one; a file that raises TypeError is an error, not a miss. */
  lemma UnreadableIsMiss(now: int)
    ensures LoadCachedToken(Malformed, now) == Success(None)
    ensures LoadCachedToken(NoFile, now) == Success(None)
    ensures LoadCachedToken(Unusable, now) == Failure(Raised)
  {
  }

  /** How a failed grant ends: the package client catches the `RequestException` and
      exits with status 1; the root module lets `raise_for_status` propagate. A
      missing `access_token` is a KeyError in both. */
  function GrantFailure(rev: Revision, g: Grant): (s: Stop)
    requires !g.Granted?
    ensures s.Exited? <==> rev == Package && g == RequestFailed
    ensures s.Exited? ==> s.code == 1
  {
    if rev == Package && g == RequestFailed then Exited(1) else Raised
  }

  /** `ensure_valid_token`: the returned token and the client afterwards. */
  function EnsureValidToken(rev: Revision, c: Client, now: int, grant: Grant): Result<(string, Client), Stop> {
    if c.memory.Some? then Success((c.memory.value.token, c))
    else
      match LoadCachedToken(c.file, now)
      case Failure(e) => Failure(e)
      case Success(Some(t)) => Success((t.token, c.(memory := Some(t))))
      case Success(None) =>
        match grant
        case Granted(access, expiresIn) =>
          var t := Token(access, expiresIn.GetOr(DefaultExpires));
          Success((access, Client(Some(t), SaveToken(t, now))))
        case _ => Failure(GrantFailure(rev, grant))
  }

  /** A token in memory is returned as is: no file read, no grant, nothing changes. */
  lemma MemoryReused(rev: Revision, c: Client, now: int, grant: Grant)
    requires c.memory.Some?
    ensures EnsureValidToken(rev, c, now, grant) == Success((c.memory.value.token, c))
  {
  }

  /** The grant is consulted exactly when memory and cache both miss. */
  lemma GrantOnlyOnMiss(rev: Revision, c: Client, now: int, g1: Grant, g2: Grant)
    requires c.memory.Some? || (LoadCachedToken(c.file, now).Success? && LoadCachedToken(c.file, now).value.Some?)
    ensures EnsureValidToken(rev, c, now, g1) == EnsureValidToken(rev, c, now, g2)
    ensures EnsureValidToken(rev, c, now, g1).Success?
    ensures EnsureValidToken(rev, c, now, g1).value.1.file == c.file
  {
  }

  /** After a grant the token is `access_token`, `expires` is `expires_in` or 3600,
      and both are in memory and in the cache, stamped now. */
  lemma GrantStored(rev: Revision, c: Client, now: int, access: string, expiresIn: Option<int>)
    requires c.memory.None? && LoadCachedToken(c.file, now) == Success(None)
    ensures var r := EnsureValidToken(rev, c, now, Granted(access, expiresIn));
            r.Success? && r.value.0 == access &&
            r.value.1.memory == Some(Token(access, if expiresIn.Some? then expiresIn.value else DefaultExpires)) &&
            LoadCachedToken(r.value.1.file, now) == Success(r.value.1.memory)
  {
  }

  /** A failed grant stops the caller, by exit 1 in the package and by an exception
      in the root revision. */
  lemma GrantFailureStops(c: Client, now: int)
    requires c.memory.None? && LoadCachedToken(c.file, now) == Success(None)
    ensures EnsureValidToken(Package, c, now, RequestFailed) == Failure(Exited(1))
    ensures EnsureValidToken(Root, c, now, RequestFailed) == Failure(Raised)
  {
  }

  /** A cache file that raises TypeError stops `ensure_valid_token` in both
      revisions before any grant: the package's `try` covers only the request. */
  lemma UnusableRaises(rev: Revision, c: Client, now: int, grant: Grant)
    requires c.memory.None? && c.file == Unusable
    ensures EnsureValidToken(rev, c, now, grant) == Failure(Raised)
  {
  }

  /** Once a call succeeds the token is memoised: a later call, at any time and
      whatever the grant would do, returns the same token and changes nothing. */
  lemma Memoised(rev: Revision, c: Client, now: int, grant: Grant, later: int, grant2: Grant)
    requires EnsureValidToken(rev, c, now, grant).Success?
    ensures var (tok, c') := EnsureValidToken(rev, c, now, grant).value;
            c'.memory.Some? && c'.memory.value.token == tok &&
            EnsureValidToken(rev, c', later, grant2) == Success((tok, c'))
  {
  }

  /** `SpotifyClient.__init__` refuses to start unless both credentials are set and
      non-empty, exiting with status 1. */
  function NewClient(clientId: Option<string>, clientSecret: Option<string>, file: CacheFile): (r: Result<Client, Stop>)
    ensures r.Success? <==> clientId.Some? && clientId.value != "" &&
                            clientSecret.Some? && clientSecret.value != ""
    ensures r.Failure? ==> r.error == Exited(1)
    ensures r.Success? ==> r.value.memory.None? && r.value.file == file
  {
    if clientId.None? || clientId.value == "" || clientSecret.None? || clientSecret.value == "" then
      Failure(Exited(1))
    else Success(Client(None, file))
  }
}
