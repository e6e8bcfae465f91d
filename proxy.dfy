/**
 * The local proxy server: it rewrites `/api/n2yo/...` and
 * `/api/celestrak/...` requests into upstream URLs, and for Celestrak answers
 * from a two-hour cache, a live fetch, an expired cache entry or a bundled
 * fallback file, in that order. Everything else is served as a static file.
 */
module Proxy {
  import opened Wrappers
  import opened Strings
  import opened PyText

  newtype byte = b: int | 0 <= b < 256

  const N2yoPrefix := "/api/n2yo/"
  const CelestrakPrefix := "/api/celestrak/"
  const N2yoBaseUrl := "https://api.n2yo.com/rest/v1/satellite"
  const CelestrakBaseUrl := "https://celestrak.org/NORAD/elements"

  /** `CACHE_DURATION`, two hours, in microseconds (the clock's unit). */
  const CacheDuration: int := 2 * 60 * 60 * 1000000

  // ---- URL construction ---------------------------------------------------

  /**
   * The N2YO branch of `do_GET`: `positions/` and `above/` endpoints are
   * rebuilt around their remainder, anything else is appended as is; then
   * the apiKey "formatting" replacements run.
   */
  function N2yoUpstreamUrl(apiPath: string): (upstreamUrl: string)
    ensures upstreamUrl == N2yoBaseUrl + "/" + apiPath
  {
    var url :=
      if StartsWith(apiPath, "positions/") then
        assert apiPath == "positions/" + apiPath[10..];
        N2yoBaseUrl + "/positions/" + apiPath[10..]
      else if StartsWith(apiPath, "above/") then
        assert apiPath == "above/" + apiPath[6..];
        N2yoBaseUrl + "/above/" + apiPath[6..]
      else N2yoBaseUrl + "/" + apiPath;
    assert url == N2yoBaseUrl + "/" + apiPath;
    if '?' in url then Replace(url, "&apiKey=", "&apiKey=")
    else Replace(url, "?apiKey=", "?apiKey=")
  }

  /** `self.path.split("?")[1] if "?" in self.path else ""`. */
  function CelestrakQuery(path: string): (query: string)
    ensures '?' !in query
    ensures '?' !in path ==> query == ""
  {
    if '?' in path then Split(path, '?')[1] else ""
  }

  /**
   * The query is the text between the first and the second `?` of the path
   * (or up to its end), and empty when the path has no `?`.
   */
  lemma CelestrakQueryBetweenMarks(path: string)
    ensures '?' !in path ==> CelestrakQuery(path) == ""
    ensures '?' in path ==>
      var i := IndexOf(path, '?');
      var q := CelestrakQuery(path);
      && '?' !in q
      && i + 1 + |q| <= |path|
      && path[i + 1..i + 1 + |q|] == q
      && (i + 1 + |q| == |path| || path[i + 1 + |q|] == '?')
  {
    if '?' in path {
      var i := IndexOf(path, '?');
      var rest := path[i + 1..];
      assert Split(path, '?') == [path[..i]] + Split(rest, '?');
      assert CelestrakQuery(path) == Split(rest, '?')[0];
      if '?' in rest {
        var j := IndexOf(rest, '?');
        assert CelestrakQuery(path) == rest[..j];
        assert path[i + 1 + j] == rest[j];
      } else {
        assert CelestrakQuery(path) == rest;
      }
    }
  }

  /** The Celestrak upstream URL: `f"{base_url}/gp.php?{query}"`. */
  function CelestrakUrl(path: string): (url: string)
    ensures StartsWith(url, CelestrakBaseUrl + "/gp.php?")
    ensures url[|CelestrakBaseUrl + "/gp.php?"|..] == CelestrakQuery(path)
  {
    CelestrakBaseUrl + "/gp.php?" + CelestrakQuery(path)
  }

  /** Where `do_GET` sends a request. */
  datatype Route =
    | N2yoRoute(url: string)
    | CelestrakRoute(url: string)
    | StaticRoute

  /**
   * `do_GET`'s dispatch: the N2YO prefix is tested first, then the Celestrak
   * prefix; any other path goes to the static-file handler.
   */
  function RouteOf(path: string): (r: Route)
    ensures r.N2yoRoute? <==> StartsWith(path, N2yoPrefix)
    ensures r.CelestrakRoute? <==> !StartsWith(path, N2yoPrefix) && StartsWith(path, CelestrakPrefix)
    ensures r.StaticRoute? <==> !StartsWith(path, N2yoPrefix) && !StartsWith(path, CelestrakPrefix)
    ensures r.N2yoRoute? ==> r.url == N2yoBaseUrl + "/" + path[|N2yoPrefix|..]
    ensures r.CelestrakRoute? ==> r.url == CelestrakUrl(path)
  {
    if StartsWith(path, N2yoPrefix) then
      N2yoRoute(N2yoUpstreamUrl(path[10..]))
    else if StartsWith(path, CelestrakPrefix) then
      CelestrakRoute(CelestrakUrl(path))
    else StaticRoute
  }

  // ---- cache freshness -----------------------------------------------------

  /** A cache file: its bytes and its modification time. */
  datatype CacheEntry = CacheEntry(data: seq<byte>, mtime: int)

  /**
   * `is_cache_valid`: the entry exists and is strictly younger than two
   * hours at time `now`. The cache is keyed by the upstream URL.
   */
  function IsCacheValid(cache: map<string, CacheEntry>, url: string, now: int): (valid: bool)
    ensures valid ==> url in cache
    ensures url in cache && now <= cache[url].mtime ==> valid
  {
    url in cache && now - cache[url].mtime < CacheDuration
  }

  /**
   * An entry written at time `t` is fresh exactly until `t` plus two hours,
   * that instant excluded.
   */
  lemma FreshForTwoHours(cache: map<string, CacheEntry>, url: string, data: seq<byte>, t: int, now: int)
    ensures IsCacheValid(cache[url := CacheEntry(data, t)], url, now) <==> now < t + CacheDuration
  {
  }

  /** Once an entry has expired it stays expired as the clock advances. */
  lemma ExpiryIsFinal(cache: map<string, CacheEntry>, url: string, now: int, later: int)
    requires now <= later
    requires !IsCacheValid(cache, url, now)
    ensures !IsCacheValid(cache, url, later)
  {
  }

  // ---- the request handler -------------------------------------------------

  /**
   * What the upstream request did: bytes, an HTTP error, another exception
   * from `urlopen`, or a connection that opened but whose body could not be
   * read.
   */
  datatype Upstream =
    | Fetched(body: seq<byte>)
    | HttpError(code: int, reason: string)
    | OtherError(message: string)
    | ReadFailed(message: string)

  /**
   * What reading the fallback file did: its bytes, a failed open, or a file
   * that opened but could not be read.
   */
  datatype FileRead =
    | FileData(body: seq<byte>)
    | FileError(message: string)
    | FileReadFailed(message: string)

  /** The externally visible steps `do_GET` takes besides answering. */
  datatype Effect =
    | FetchUpstream(url: string, headers: seq<(string, string)>)
    | ReadCache(url: string)
    | WriteCache(url: string)
    | ReadFallbackFile

  datatype Response =
    | Reply(status: int, headers: seq<(string, string)>, body: seq<byte>)
    | ErrorReply(code: int, message: string)
    // the 200 status line and `headers` went out before the error page
    | ErrorAfterHeaders(headers: seq<(string, string)>, code: int, message: string)
    | ServeStatic(path: string)

  /**
   * What `save_to_cache` did. Opening the file with "wb" empties it, so a
   * write that breaks off after the open leaves whatever it got through,
   * with a fresh modification time; only a failed open leaves the old file.
   * Every failure is swallowed.
   */
  datatype CacheWrite =
    | WriteOk
    | OpenFailed
    | WriteFailed(stored: seq<byte>)

  /** The cache after `save_to_cache(url, data)` stamped at time `writeTime` with outcome `w`. */
  function SaveToCache(cache: map<string, CacheEntry>, url: string, data: seq<byte>, w: CacheWrite, writeTime: int)
    : (c: map<string, CacheEntry>)
    ensures w.OpenFailed? ==> c == cache
    ensures !w.OpenFailed? ==> url in c && c[url].mtime == writeTime && c.Keys == cache.Keys + {url}
    ensures w.WriteOk? ==> c[url].data == data
    ensures w.WriteFailed? ==> c[url].data == w.stored
    ensures forall u :: u in cache && u != url ==> u in c && c[u] == cache[u]
  {
    match w
    case WriteOk => cache[url := CacheEntry(data, writeTime)]
    case OpenFailed => cache
    case WriteFailed(stored) => cache[url := CacheEntry(stored, writeTime)]
  }

  /** The headers of a JSON answer, with `X-Data-Source` when one is named. */
  function JsonHeaders(source: Option<string>): (h: seq<(string, string)>)
    ensures |h| == (if source.Some? then 3 else 2)
    ensures h[0] == ("Content-type", "application/json")
    ensures h[1] == ("Access-Control-Allow-Origin", "*")
    ensures source.Some? ==> h[2] == ("X-Data-Source", source.value)
  {
    [("Content-type", "application/json"), ("Access-Control-Allow-Origin", "*")]
      + (if source.Some? then [("X-Data-Source", source.value)] else [])
  }

  /** The header the Celestrak request carries. */
  const CelestrakRequestHeaders: seq<(string, string)> := [("User-Agent", "Mozilla/5.0")]

  predicate IsCelestrakPath(path: string) {
    !StartsWith(path, N2yoPrefix) && StartsWith(path, CelestrakPrefix)
  }

  /**
   * `ProxyHandler`: the cache directory and the log of the steps the handler
   * has taken. The clock, the upstream servers and the fallback file are
   * outside the model: each request gets the current time and what those
   * collaborators would do as arguments.
   */
  class ProxyHandler {
    var cache: map<string, CacheEntry>
    var effects: seq<Effect>

    constructor (initialCache: map<string, CacheEntry>)
      ensures cache == initialCache && effects == []
    {
      cache := initialCache;
      effects := [];
    }

    /**
     * `do_GET` for request path `path`, whose freshness check reads the
     * clock at `now`. `upstream` is what the upstream request would do,
     * `cacheWrite` what `save_to_cache` does and `writeTime` when it stamps
     * the file (after the fetch, so no earlier than `now`), and
     * `fallbackFile` what reading the bundled file gives.
     */
    method DoGet(
      path: string, now: int, upstream: Upstream,
      cacheWrite: CacheWrite, writeTime: int, fallbackFile: FileRead)
      returns (resp: Response)
      requires now <= writeTime
      modifies this
      // static files: nothing else happens
      ensures RouteOf(path).StaticRoute? ==>
        resp == ServeStatic(path) && cache == old(cache) && effects == old(effects)
      // N2YO: one fetch, the answer or the error is forwarded, the cache is untouched
      ensures RouteOf(path).N2yoRoute? ==>
        var url := N2yoBaseUrl + "/" + path[|N2yoPrefix|..];
        && cache == old(cache)
        && effects == old(effects) + [FetchUpstream(url, [])]
        && (upstream.Fetched? ==> resp == Reply(200, JsonHeaders(None), upstream.body))
        && (upstream.HttpError? ==> resp == ErrorReply(upstream.code, "N2YO API error: " + upstream.reason))
        && (upstream.OtherError? ==> resp == ErrorReply(500, upstream.message))
        && (upstream.ReadFailed? ==> resp == ErrorAfterHeaders(JsonHeaders(None), 500, upstream.message))
      // Celestrak, fresh cache: served from the cache, no upstream request
      ensures IsCelestrakPath(path) && IsCacheValid(old(cache), CelestrakUrl(path), now) ==>
        var url := CelestrakUrl(path);
        && resp == Reply(200, JsonHeaders(Some("cache")), old(cache)[url].data)
        && cache == old(cache)
        && effects == old(effects) + [ReadCache(url)]
      // Celestrak, live fetch: the bytes are returned and `save_to_cache` runs
      ensures IsCelestrakPath(path) && !IsCacheValid(old(cache), CelestrakUrl(path), now) && upstream.Fetched? ==>
        var url := CelestrakUrl(path);
        && resp == Reply(200, JsonHeaders(Some("api")), upstream.body)
        && cache == SaveToCache(old(cache), url, upstream.body, cacheWrite, writeTime)
        && effects == old(effects) + [FetchUpstream(url, CelestrakRequestHeaders), WriteCache(url)]
      // Celestrak, HTTP error: expired cache, else fallback file, else 500
      ensures IsCelestrakPath(path) && !IsCacheValid(old(cache), CelestrakUrl(path), now) && upstream.HttpError? ==>
        var url := CelestrakUrl(path);
        && cache == old(cache)
        && (url in old(cache) ==>
              resp == Reply(200, JsonHeaders(Some("fallback")), old(cache)[url].data)
              && effects == old(effects) + [FetchUpstream(url, CelestrakRequestHeaders), ReadCache(url)])
        && (url !in old(cache) ==>
              effects == old(effects) + [FetchUpstream(url, CelestrakRequestHeaders), ReadFallbackFile]
              && (fallbackFile.FileData? ==> resp == Reply(200, JsonHeaders(Some("fallback")), fallbackFile.body))
              && (fallbackFile.FileError? ==> resp == ErrorReply(500, fallbackFile.message))
              && (fallbackFile.FileReadFailed? ==>
                    resp == ErrorAfterHeaders(JsonHeaders(Some("fallback")), 500, fallbackFile.message)))
      // Celestrak, any other exception (the body is read before answering): 500,
      // neither the cache nor the file is consulted
      ensures IsCelestrakPath(path) && !IsCacheValid(old(cache), CelestrakUrl(path), now) &&
              (upstream.OtherError? || upstream.ReadFailed?) ==>
        var url := CelestrakUrl(path);
        && resp == ErrorReply(500, upstream.message)
        && cache == old(cache)
        && effects == old(effects) + [FetchUpstream(url, CelestrakRequestHeaders)]
    {
      var route := RouteOf(path);
      match route {
        case StaticRoute =>
          resp := ServeStatic(path);
        case N2yoRoute(url) =>
          effects := effects + [FetchUpstream(url, [])];
          match upstream {
            case Fetched(body) =>
              resp := Reply(200, JsonHeaders(None), body);
            case HttpError(code, reason) =>
              resp := ErrorReply(code, "N2YO API error: " + reason);
            case OtherError(message) =>
              resp := ErrorReply(500, message);
            case ReadFailed(message) =>
              resp := ErrorAfterHeaders(JsonHeaders(None), 500, message);
          }
        case CelestrakRoute(url) =>
          resp := CelestrakGet(url, now, upstream, cacheWrite, writeTime, fallbackFile);
      }
    }

    /** The Celestrak branch of `do_GET` for upstream URL `url`. */
    method CelestrakGet(
      url: string, now: int, upstream: Upstream,
      cacheWrite: CacheWrite, writeTime: int, fallbackFile: FileRead)
      returns (resp: Response)
      requires now <= writeTime
      modifies this
      // Celestrak, fresh cache: served from the cache, no upstream request
      ensures IsCacheValid(old(cache), url, now) ==>
        && resp == Reply(200, JsonHeaders(Some("cache")), old(cache)[url].data)
        && cache == old(cache)
        && effects == old(effects) + [ReadCache(url)]
      // Celestrak, live fetch: the bytes are returned and `save_to_cache` runs
      ensures !IsCacheValid(old(cache), url, now) && upstream.Fetched? ==>
        && resp == Reply(200, JsonHeaders(Some("api")), upstream.body)
        && cache == SaveToCache(old(cache), url, upstream.body, cacheWrite, writeTime)
        && effects == old(effects) + [FetchUpstream(url, CelestrakRequestHeaders), WriteCache(url)]
      // Celestrak, HTTP error: expired cache, else fallback file, else 500
      ensures !IsCacheValid(old(cache), url, now) && upstream.HttpError? ==>
        && cache == old(cache)
        && (url in old(cache) ==>
              resp == Reply(200, JsonHeaders(Some("fallback")), old(cache)[url].data)
              && effects == old(effects) + [FetchUpstream(url, CelestrakRequestHeaders), ReadCache(url)])
        && (url !in old(cache) ==>
              effects == old(effects) + [FetchUpstream(url, CelestrakRequestHeaders), ReadFallbackFile]
              && (fallbackFile.FileData? ==> resp == Reply(200, JsonHeaders(Some("fallback")), fallbackFile.body))
              && (fallbackFile.FileError? ==> resp == ErrorReply(500, fallbackFile.message))
              && (fallbackFile.FileReadFailed? ==>
                    resp == ErrorAfterHeaders(JsonHeaders(Some("fallback")), 500, fallbackFile.message)))
      // Celestrak, any other exception (the body is read before answering): 500,
      // neither the cache nor the file is consulted
      ensures !IsCacheValid(old(cache), url, now) &&
              (upstream.OtherError? || upstream.ReadFailed?) ==>
        && resp == ErrorReply(500, upstream.message)
        && cache == old(cache)
        && effects == old(effects) + [FetchUpstream(url, CelestrakRequestHeaders)]
    {
      if IsCacheValid(cache, url, now) {
        effects := effects + [ReadCache(url)];
        resp := Reply(200, JsonHeaders(Some("cache")), cache[url].data);
        return;
      }
      effects := effects + [FetchUpstream(url, CelestrakRequestHeaders)];
      match upstream {
        case Fetched(body) =>
          effects := effects + [WriteCache(url)];
          cache := SaveToCache(cache, url, body, cacheWrite, writeTime);
          resp := Reply(200, JsonHeaders(Some("api")), body);
        case HttpError(_, _) =>
          if url in cache {
            effects := effects + [ReadCache(url)];
            resp := Reply(200, JsonHeaders(Some("fallback")), cache[url].data);
          } else {
            effects := effects + [ReadFallbackFile];
            match fallbackFile {
              case FileData(body) =>
                resp := Reply(200, JsonHeaders(Some("fallback")), body);
              case FileError(message) =>
                resp := ErrorReply(500, message);
              case FileReadFailed(message) =>
                resp := ErrorAfterHeaders(JsonHeaders(Some("fallback")), 500, message);
            }
          }
        case OtherError(message) =>
          resp := ErrorReply(500, message);
        case ReadFailed(message) =>
          resp := ErrorReply(500, message);
      }
    }
  }
}
