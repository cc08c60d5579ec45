/**
 * The service worker's decisions: which strategy answers a fetch, what the
 * network-first strategy falls back to, which caches survive activation,
 * and which dynamic-cache entries the weekly clean-up deletes.
 */
module ServiceWorker {
  import opened Wrappers
  import opened Strings

  const StaticCacheName: string := "life-manager-static-v1.0"
  const DynamicCacheName: string := "life-manager-dynamic-v1.0"
  const Whitelist: seq<string> := [StaticCacheName, DynamicCacheName]

  const WeekMs: int := 7 * 24 * 60 * 60 * 1000
  const OfflineText: string := "离线内容不可用"

  /** A request as the fetch handler sees it, with its URL already split into parts. */
  datatype Request = Request(httpMethod: string, protocol: string, origin: string, pathname: string, href: string)

  /** How the fetch handler answers: it leaves the request alone, or calls `respondWith` with a strategy. */
  datatype Route = NotIntercepted | NetworkFirst | CacheFirst

  /** `pathname.match(/\.(css|js|json|ico)$/)` */
  predicate IsStaticAsset(pathname: string) {
    EndsWith(pathname, ".css") || EndsWith(pathname, ".js") || EndsWith(pathname, ".json") || EndsWith(pathname, ".ico")
  }

  predicate IsCdn(href: string) {
    Contains(href, "cdnjs.cloudflare.com") || Contains(href, "cdn.jsdelivr.net")
  }

  /** The fetch handler's chain of tests. */
  function RouteOf(req: Request, selfOrigin: string): (r: Route)
    ensures r == NotIntercepted <==> req.httpMethod != "GET" || req.protocol == "chrome-extension:"
    ensures r != NotIntercepted && req.origin == selfOrigin ==>
      (r == CacheFirst <==> req.pathname != "/" && req.pathname != "/index.html" && IsStaticAsset(req.pathname))
    ensures r != NotIntercepted && req.origin != selfOrigin ==> (r == CacheFirst <==> IsCdn(req.href))
  {
    if req.httpMethod != "GET" then NotIntercepted
    else if req.protocol == "chrome-extension:" then NotIntercepted
    else if req.origin == selfOrigin then
      if req.pathname == "/" || req.pathname == "/index.html" then NetworkFirst
      else if IsStaticAsset(req.pathname) then CacheFirst
      else NetworkFirst
    else if IsCdn(req.href) then CacheFirst
    else if Contains(req.href, "api.github.com") then NetworkFirst
    else NetworkFirst
  }

  /** The entry page is always fetched from the network first, even though `.html` is not a static suffix. */
  lemma EntryPageNetworkFirst(req: Request, selfOrigin: string)
    requires req.httpMethod == "GET" && req.protocol != "chrome-extension:" && req.origin == selfOrigin
    requires req.pathname == "/" || req.pathname == "/index.html"
    ensures RouteOf(req, selfOrigin) == NetworkFirst
  {
  }

  /** A GitHub API call is never served from the cache, unless its URL also names a CDN. */
  lemma GitHubApiNetworkFirst(req: Request, selfOrigin: string)
    requires req.httpMethod == "GET" && req.protocol != "chrome-extension:" && req.origin != selfOrigin
    requires Contains(req.href, "api.github.com") && !IsCdn(req.href)
    ensures RouteOf(req, selfOrigin) == NetworkFirst
  {
  }

  /** A same-origin script is served cache-first. */
  lemma ScriptsCacheFirst(selfOrigin: string)
    ensures RouteOf(Request("GET", "https:", selfOrigin, "/app.js", selfOrigin + "/app.js"), selfOrigin) == CacheFirst
  {
    assert "/app.js"[|"/app.js"| - |".js"|..] == ".js";
  }

  // ---------------------------------------------------------------------
  // Responses and caches
  // ---------------------------------------------------------------------

  /** The `date` header of a stored response, as `new Date(header).getTime()` reads it. */
  datatype DateHeader = NoDate | InvalidDate | DateAt(ms: int)

  datatype Response = Response(status: int, body: string, date: DateHeader)

  /** `response.ok` */
  predicate IsOk(r: Response) {
    200 <= r.status <= 299
  }

  const Offline: Response := Response(503, OfflineText, NoDate)

  /** What network-first resolves to, and whether it put the network response into the dynamic cache. */
  datatype NetworkFirstResult = NetworkFirstResult(response: Option<Response>, cached: bool)

  /**
   * `networkFirstStrategy(request)`: `fetched` is the network's answer (None
   * when `fetch` rejects), `cachedMatch` what `caches.match(request)` finds and
   * `shell` what `caches.match('./')` finds.
   */
  function NetworkFirstStrategy(fetched: Option<Response>, cachedMatch: Option<Response>, shell: Option<Response>, navigate: bool)
    : (r: NetworkFirstResult)
    ensures fetched.Some? ==> r.response == fetched && (r.cached <==> IsOk(fetched.value))
    ensures fetched.None? ==> !r.cached
    ensures fetched.None? && cachedMatch.Some? ==> r.response == cachedMatch
    ensures fetched.None? && cachedMatch.None? && navigate ==> r.response == shell
    ensures fetched.None? && cachedMatch.None? && !navigate ==> r.response == Some(Offline)
  {
    match fetched
    case Some(resp) => NetworkFirstResult(fetched, IsOk(resp))
    case None =>
      if cachedMatch.Some? then NetworkFirstResult(cachedMatch, false)
      else if navigate then NetworkFirstResult(shell, false)
      else NetworkFirstResult(Some(Offline), false)
  }

  /** An offline non-navigation request for something never cached gets the 503 placeholder. */
  lemma OfflineMissIs503()
    ensures NetworkFirstStrategy(None, None, None, false).response.value.status == 503
  {
  }

  /** The caches kept by activation: exactly the whitelisted names. */
  function KeptCaches(names: set<string>): (kept: set<string>)
    ensures forall n :: n in kept <==> n in names && (n == StaticCacheName || n == DynamicCacheName)
  {
    set n | n in names && n in Whitelist
  }

  /** Activation twice keeps the same caches. */
  lemma KeptCachesIdempotent(names: set<string>)
    ensures KeptCaches(KeptCaches(names)) == KeptCaches(names)
  {
  }

  /** An entry the clean-up deletes: its `date` header is a time earlier than one week before `now`. */
  predicate Expired(resp: Response, now: int) {
    resp.date.DateAt? && resp.date.ms < now - WeekMs
  }

  /** The dynamic-cache entries that survive `cleanupOldCache()`. */
  function Surviving(entries: map<string, Response>, now: int): (kept: map<string, Response>)
    ensures forall u :: u in kept <==> u in entries && !Expired(entries[u], now)
    ensures forall u | u in kept :: kept[u] == entries[u]
  {
    map u | u in entries && !Expired(entries[u], now) :: entries[u]
  }

  /** A later clean-up keeps no more than an earlier one, and a repeated one deletes nothing more. */
  lemma SurvivingMonotone(entries: map<string, Response>, now: int, later: int)
    requires now <= later
    ensures Surviving(entries, later).Keys <= Surviving(entries, now).Keys
    ensures Surviving(Surviving(entries, now), now) == Surviving(entries, now)
  {
  }

  /** Entries without a readable date header are never deleted. */
  lemma UndatedKept(entries: map<string, Response>, now: int, u: string)
    requires u in entries && !entries[u].date.DateAt?
    ensures u in Surviving(entries, now)
  {
  }

  /** The browser's Cache Storage: the named caches, and the entries of the dynamic cache by URL. */
  class CacheStorage {
    var names: set<string>
    var dynamicEntries: map<string, Response>

    constructor (names: set<string>, dynamicEntries: map<string, Response>)
      ensures this.names == names && this.dynamicEntries == dynamicEntries
    {
      this.names := names;
      this.dynamicEntries := dynamicEntries;
    }

    /** The `activate` handler: every cache not on the whitelist is deleted. */
    method Activate()
      modifies this
      ensures names == KeptCaches(old(names))
      ensures dynamicEntries == old(dynamicEntries)
    {
      var todo := names;
      while todo != {}
        invariant todo <= old(names)
        invariant names == KeptCaches(old(names) - todo) + todo
        invariant dynamicEntries == old(dynamicEntries)
        decreases todo
      {
        var name :| name in todo;
        if name !in Whitelist {
          names := names - {name};
        }
        todo := todo - {name};
      }
    }

    /**
     * `cleanupOldCache()`: `caches.open` creates the dynamic cache when it is
     * missing, then one pass runs over its requests.
     */
    method CleanupOldCache(now: int)
      modifies this
      ensures dynamicEntries == Surviving(old(dynamicEntries), now)
      ensures names == old(names) + {DynamicCacheName}
    {
      names := names + {DynamicCacheName};
      ghost var afterOpen := names;
      ghost var start := dynamicEntries;
      var todo := dynamicEntries.Keys;
      while todo != {}
        invariant todo <= start.Keys
        invariant forall u :: u in dynamicEntries <==> u in start && (u in todo || !Expired(start[u], now))
        invariant forall u | u in dynamicEntries :: dynamicEntries[u] == start[u]
        invariant names == afterOpen
        decreases todo
      {
        var url :| url in todo;
        var resp := dynamicEntries[url];
        if Expired(resp, now) {
          dynamicEntries := dynamicEntries - {url};
        }
        todo := todo - {url};
      }
      assert dynamicEntries.Keys == Surviving(start, now).Keys;
    }
  }
}
