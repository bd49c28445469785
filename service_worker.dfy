/**
 * The service worker's cache logic: which paths count as static assets, and the install,
 * activate and fetch handlers as transitions of the cache storage. The network is a
 * parameter (the outcome of each fetch is given), and each handler runs as one step, its
 * `cache.put` included.
 */
module ServiceWorker {
  import opened Common
  import opened Text

  const STATIC_CACHE: string := "futurTask-static-v1.0.0"
  const DYNAMIC_CACHE: string := "futurTask-dynamic-v1.0.0"

  /** What install puts in the static cache: the application shell and two CDN resources. */
  const STATIC_ASSETS: seq<string> := [
    "/", "/index.html", "/stats.html", "/styles.css", "/script.js", "/stats.js", "/manifest.json",
    "https://cdn.jsdelivr.net/npm/chart.js",
    "https://fonts.googleapis.com/css2?family=Inter:wght@300;400;500;600;700&display=swap"]

  const STATIC_EXTENSIONS: seq<string> :=
    [".html", ".css", ".js", ".json", ".png", ".jpg", ".jpeg", ".gif", ".svg", ".ico"]

  const STATIC_PATHS: seq<string> :=
    ["/", "/index.html", "/stats.html", "/styles.css", "/script.js", "/stats.js", "/manifest.json"]

  // ---------------------------------------------------------------- static assets

  /** `exts.some(ext => path.endsWith(ext))`. */
  function EndsWithAny(path: string, exts: seq<string>): (r: bool)
    ensures r <==> exists i :: 0 <= i < |exts| && EndsWith(path, exts[i])
    decreases |exts|
  {
    if exts == [] then false
    else
      assert forall i :: 0 < i < |exts| ==> exts[i] == exts[1..][i - 1];
      EndsWith(path, exts[0]) || EndsWithAny(path, exts[1..])
  }

  /** `isStaticAsset(pathname)`: a listed path, a listed extension, or under /icons/ or /screenshots/. */
  predicate IsStaticAsset(path: string) {
    path in STATIC_PATHS || EndsWithAny(path, STATIC_EXTENSIONS)
    || StartsWith(path, "/icons/") || StartsWith(path, "/screenshots/")
  }

  /**
   * The first seven assets are the same-origin files of the shell (the other two are CDN
   * URLs), and each of them is served by the cache-first rule.
   */
  lemma ShellIsStatic(i: nat)
    requires i < 7
    ensures StartsWith(STATIC_ASSETS[i], "/") && IsStaticAsset(STATIC_ASSETS[i])
  {
    assert STATIC_ASSETS[..7] == STATIC_PATHS;
    assert STATIC_ASSETS[i] == STATIC_PATHS[i];
    assert STATIC_PATHS[i][0] == '/';
  }

  // ---------------------------------------------------------------- cache storage

  datatype Response = Response(status: int, body: string)

  /** What the network gives for a request: a response, or a rejected `fetch`. */
  datatype NetResult = Received(response: Response) | NetworkError

  /** A request: its method, its URL (the cache key) and the URL's path. */
  datatype Request = Request(verb: string, url: string, path: string)

  /** A named cache: request URL to stored response. */
  datatype Cache = Cache(name: string, entries: map<string, Response>)

  /** What the fetch handler does: leave the request to the browser, or answer it (None: no response). */
  datatype FetchOutcome = NotIntercepted | RespondWith(response: Option<Response>)

  function Names(cs: seq<Cache>): (r: seq<string>)
    ensures |r| == |cs| && forall i :: 0 <= i < |cs| ==> r[i] == cs[i].name
  {
    seq(|cs|, i requires 0 <= i < |cs| => cs[i].name)
  }

  /** Cache names are unique, as the keys of the browser's cache storage are. */
  predicate DistinctNames(cs: seq<Cache>) {
    forall i, j :: 0 <= i < j < |cs| ==> cs[i].name != cs[j].name
  }

  /** The first cache, in creation order, that holds `url`. */
  function FirstHolder(cs: seq<Cache>, url: string): (r: Option<nat>)
    ensures r.None? <==> forall i :: 0 <= i < |cs| ==> url !in cs[i].entries
    ensures r.Some? ==> r.value < |cs| && url in cs[r.value].entries
                        && forall j :: 0 <= j < r.value ==> url !in cs[j].entries
    decreases |cs|
  {
    if cs == [] then None
    else if url in cs[0].entries then Some(0)
    else
      var k := FirstHolder(cs[1..], url);
      if k.Some? then Some(k.value + 1) else None
  }

  /** `caches.match(url)`: the response stored for `url` in the first cache that has one. */
  function Match(cs: seq<Cache>, url: string): (r: Option<Response>)
    ensures r.None? <==> forall i :: 0 <= i < |cs| ==> url !in cs[i].entries
    ensures r.Some? ==> exists i :: 0 <= i < |cs| && url in cs[i].entries && r.value == cs[i].entries[url]
  {
    var k := FirstHolder(cs, url);
    if k.Some? then Some(cs[k.value].entries[url]) else None
  }

  /** `caches.open(name)`: the storage with a cache of that name, created empty and last if missing. */
  function Opened(cs: seq<Cache>, name: string): (r: seq<Cache>)
    ensures IsPrefix(cs, r) && name in Names(r)
    ensures name in Names(cs) ==> r == cs
    ensures DistinctNames(cs) ==> DistinctNames(r)
  {
    if name in Names(cs) then cs
    else
      var r := cs + [Cache(name, map[])];
      assert Names(r)[|cs|] == name;
      r
  }

  /** `cache.put(url, response)` on the cache called `name`. */
  function PutIn(cs: seq<Cache>, name: string, url: string, resp: Response): (r: seq<Cache>)
    ensures |r| == |cs|
    ensures forall i :: 0 <= i < |cs| ==>
              r[i].name == cs[i].name
              && r[i].entries == if cs[i].name == name then cs[i].entries[url := resp] else cs[i].entries
  {
    seq(|cs|, i requires 0 <= i < |cs| =>
      if cs[i].name == name then cs[i].(entries := cs[i].entries[url := resp]) else cs[i])
  }

  /** Opening the cache and putting the response in it, as the fetch handler does. */
  function Put(cs: seq<Cache>, name: string, url: string, resp: Response): seq<Cache> {
    PutIn(Opened(cs, name), name, url, resp)
  }

  // ---------------------------------------------------------------- install

  /** The key an asset is stored under: a path is resolved against the worker's origin. */
  function AssetUrl(origin: string, asset: string): string {
    if StartsWith(asset, "/") then origin + asset else asset
  }

  function AssetUrls(origin: string): (r: seq<string>)
    ensures |r| == |STATIC_ASSETS| && forall i :: 0 <= i < |r| ==> r[i] == AssetUrl(origin, STATIC_ASSETS[i])
  {
    seq(|STATIC_ASSETS|, i requires 0 <= i < |STATIC_ASSETS| => AssetUrl(origin, STATIC_ASSETS[i]))
  }

  /** The network's answer for a URL; a URL the map does not name cannot be fetched. */
  function NetFor(net: map<string, NetResult>, url: string): NetResult {
    if url in net then net[url] else NetworkError
  }

  /** `response.ok`: a status in 200..299. */
  predicate IsOk(r: Response) {
    200 <= r.status <= 299
  }

  /** What `cache.addAll` needs to succeed: every URL fetched, every response ok. */
  predicate AllFetched(urls: seq<string>, net: map<string, NetResult>) {
    forall i :: 0 <= i < |urls| ==> NetFor(net, urls[i]).Received? && IsOk(NetFor(net, urls[i]).response)
  }

  /** The entries after a successful `addAll`: every URL with its response, the rest kept. */
  function StoreAll(entries: map<string, Response>, urls: seq<string>, net: map<string, NetResult>): (r: map<string, Response>)
    requires AllFetched(urls, net)
    ensures forall u :: u in r <==> u in entries || u in urls
    ensures forall u :: u in urls ==> r[u] == NetFor(net, u).response
    ensures forall u :: u in entries && u !in urls ==> r[u] == entries[u]
    decreases |urls|
  {
    if urls == [] then entries
    else
      assert forall u :: u in urls <==> u == urls[0] || u in urls[1..];
      StoreAll(entries[urls[0] := NetFor(net, urls[0]).response], urls[1..], net)
  }

  /** The storage after the install handler, and whether it reached `skipWaiting`. */
  datatype Installed = Installed(caches: seq<Cache>, ok: bool)

  /**
   * Install opens the static cache (creating it if needed) and adds every asset: all of them
   * when every fetch succeeds with an ok response, none of them otherwise.
   */
  function InstallStep(cs: seq<Cache>, origin: string, net: map<string, NetResult>): (r: Installed)
    ensures r.ok <==> AllFetched(AssetUrls(origin), net)
    ensures !r.ok ==> r.caches == Opened(cs, STATIC_CACHE)
    ensures |r.caches| == |Opened(cs, STATIC_CACHE)| && STATIC_CACHE in Names(r.caches)
    ensures forall i :: 0 <= i < |r.caches| ==>
              r.caches[i].name == Opened(cs, STATIC_CACHE)[i].name
              && (r.caches[i].name != STATIC_CACHE ==> r.caches[i] == Opened(cs, STATIC_CACHE)[i])
    ensures r.ok ==> forall i, u :: 0 <= i < |r.caches| && r.caches[i].name == STATIC_CACHE && u in AssetUrls(origin) ==>
              u in r.caches[i].entries && r.caches[i].entries[u] == NetFor(net, u).response
  {
    var withStatic := Opened(cs, STATIC_CACHE);
    var urls := AssetUrls(origin);
    if AllFetched(urls, net) then
      var stored := seq(|withStatic|, i requires 0 <= i < |withStatic| =>
        if withStatic[i].name == STATIC_CACHE then withStatic[i].(entries := StoreAll(withStatic[i].entries, urls, net))
        else withStatic[i]);
      assert Names(stored) == Names(withStatic);
      Installed(stored, true)
    else Installed(withStatic, false)
  }

  // ---------------------------------------------------------------- activate

  predicate IsCurrentName(name: string) {
    name == STATIC_CACHE || name == DYNAMIC_CACHE
  }

  /**
   * The storage after activate has deleted every cache whose name is neither the static nor
   * the dynamic cache of this version; those two keep their contents and their order.
   */
  function ActivateStep(cs: seq<Cache>): (r: seq<Cache>)
    ensures |r| <= |cs|
    ensures forall i :: 0 <= i < |r| ==> IsCurrentName(r[i].name)
    ensures forall c :: c in r <==> c in cs && IsCurrentName(c.name)
    ensures IsSubsequence(r, cs)
    decreases |cs|
  {
    if cs == [] then []
    else
      var init, last := cs[..|cs| - 1], cs[|cs| - 1];
      assert cs == init + [last];
      var kept := ActivateStep(init);
      SubsequenceSnoc(kept, init, last);
      if IsCurrentName(last.name) then kept + [last] else kept
  }

  /** Extending both lists by an element, or only the longer one, keeps a subsequence. */
  lemma {:induction false} SubsequenceSnoc<T>(a: seq<T>, b: seq<T>, x: T)
    requires IsSubsequence(a, b)
    ensures IsSubsequence(a + [x], b + [x]) && IsSubsequence(a, b + [x])
    decreases |b|
  {
    if a == [] {
      assert a + [x] == [x];
      SubsequenceOfSelf([x]);
      assert IsSubsequence([x], [x]);
      SubsequenceOfEmpty(b + [x]);
      SubsequenceSkip([x], b);
    } else if b == [] {
    } else {
      assert (b + [x])[1..] == b[1..] + [x];
      assert (a + [x])[1..] == a[1..] + [x];
      if a[0] == b[0] && IsSubsequence(a[1..], b[1..]) {
        SubsequenceSnoc(a[1..], b[1..], x);
      } else {
        SubsequenceSnoc(a, b[1..], x);
      }
    }
  }

  lemma {:induction false} SubsequenceOfEmpty<T>(b: seq<T>)
    ensures IsSubsequence([], b)
  {
  }

  /** A list is a subsequence of itself with anything put before it. */
  lemma {:induction false} SubsequenceSkip<T>(a: seq<T>, b: seq<T>)
    requires IsSubsequence(a, a)
    ensures IsSubsequence(a, b + a)
    decreases |b|
  {
    if b == [] {
      assert b + a == a;
    } else if a != [] {
      SubsequenceSkip(a, b[1..]);
      assert (b + a)[1..] == b[1..] + a;
    }
  }

  // ---------------------------------------------------------------- fetch

  /** The storage after a request and what the handler answers. */
  datatype Fetched = Fetched(caches: seq<Cache>, outcome: FetchOutcome)

  /** The network-failure answer for a static path: the cached shell page for "/" and "/index.html", the stats page for itself. */
  function OfflineFallback(cs: seq<Cache>, origin: string, path: string): Option<Response> {
    if path == "/" || path == "/index.html" then Match(cs, origin + "/index.html")
    else if path == "/stats.html" then Match(cs, origin + "/stats.html")
    else None
  }

  /**
   * The fetch handler. A non-GET request is left alone. A static GET is answered from the
   * cache when it can be, else from the network (a 200 response is also stored in the static
   * cache), else by the offline fallback. Any other GET goes to the network first (a 200
   * response is stored in the dynamic cache) and falls back to the cache.
   */
  function FetchStep(cs: seq<Cache>, origin: string, req: Request, net: NetResult): (r: Fetched)
    ensures req.verb != "GET" ==> r == Fetched(cs, NotIntercepted)
    ensures req.verb == "GET" ==> r.outcome.RespondWith?
    ensures req.verb == "GET" && IsStaticAsset(req.path) && Match(cs, req.url).Some? ==>
              r == Fetched(cs, RespondWith(Match(cs, req.url)))
    ensures req.verb == "GET" && net.Received? && (IsStaticAsset(req.path) ==> Match(cs, req.url).None?) ==>
              r.outcome == RespondWith(Some(net.response))
    ensures net.NetworkError? || net.response.status != 200 ==> r.caches == cs
    ensures req.verb == "GET" && net.Received? && net.response.status == 200
            && (IsStaticAsset(req.path) ==> Match(cs, req.url).None?) ==>
              r.caches == Put(cs, if IsStaticAsset(req.path) then STATIC_CACHE else DYNAMIC_CACHE, req.url, net.response)
    ensures req.verb == "GET" && net.NetworkError? ==>
              r.outcome == RespondWith(if IsStaticAsset(req.path) && Match(cs, req.url).None?
                                       then OfflineFallback(cs, origin, req.path) else Match(cs, req.url))
  {
    if req.verb != "GET" then Fetched(cs, NotIntercepted)
    else if IsStaticAsset(req.path) then
      var hit := Match(cs, req.url);
      if hit.Some? then Fetched(cs, RespondWith(hit))
      else if net.Received? then
        Fetched(if net.response.status == 200 then Put(cs, STATIC_CACHE, req.url, net.response) else cs,
                RespondWith(Some(net.response)))
      else Fetched(cs, RespondWith(OfflineFallback(cs, origin, req.path)))
    else if net.Received? then
      Fetched(if net.response.status == 200 then Put(cs, DYNAMIC_CACHE, req.url, net.response) else cs,
              RespondWith(Some(net.response)))
    else Fetched(cs, RespondWith(Match(cs, req.url)))
  }

  /** Storing a response only adds: no cache disappears, no URL is dropped, names stay in place. */
  lemma PutOnlyAdds(cs: seq<Cache>, name: string, url: string, resp: Response)
    ensures |Put(cs, name, url, resp)| >= |cs|
    ensures forall i :: 0 <= i < |cs| ==>
              Put(cs, name, url, resp)[i].name == cs[i].name
              && cs[i].entries.Keys <= Put(cs, name, url, resp)[i].entries.Keys
  {
    var o := Opened(cs, name);
    assert forall i :: 0 <= i < |cs| ==> o[i] == cs[i];
  }

  /** A fetch never removes a cache or an entry: the storage only grows. */
  lemma FetchOnlyAdds(cs: seq<Cache>, origin: string, req: Request, net: NetResult)
    ensures |FetchStep(cs, origin, req, net).caches| >= |cs|
    ensures forall i :: 0 <= i < |cs| ==>
              FetchStep(cs, origin, req, net).caches[i].name == cs[i].name
              && cs[i].entries.Keys <= FetchStep(cs, origin, req, net).caches[i].entries.Keys
  {
    if req.verb == "GET" && net.Received? && net.response.status == 200 {
      PutOnlyAdds(cs, STATIC_CACHE, req.url, net.response);
      PutOnlyAdds(cs, DYNAMIC_CACHE, req.url, net.response);
    }
  }

  /** Storing a response for one URL changes what `caches.match` gives for no other URL. */
  lemma PutLeavesOtherUrls(cs: seq<Cache>, name: string, url: string, resp: Response, u: string)
    requires u != url
    ensures Match(Put(cs, name, url, resp), u) == Match(cs, u)
  {
    var p := Put(cs, name, url, resp);
    PutHoldersOf(cs, name, url, resp, u);
    if FirstHolder(cs, u).Some? {
      var k := FirstHolder(cs, u).value;
      assert u in p[k].entries;
      assert FirstHolder(p, u).value == k;
    }
  }

  /** After storing `url`, the caches holding another URL `u` are the same ones, with the same responses. */
  lemma PutHoldersOf(cs: seq<Cache>, name: string, url: string, resp: Response, u: string)
    requires u != url
    ensures |Put(cs, name, url, resp)| >= |cs|
    ensures forall i :: 0 <= i < |Put(cs, name, url, resp)| && u in Put(cs, name, url, resp)[i].entries ==>
              i < |cs| && u in cs[i].entries && Put(cs, name, url, resp)[i].entries[u] == cs[i].entries[u]
    ensures forall i :: 0 <= i < |cs| && u in cs[i].entries ==> u in Put(cs, name, url, resp)[i].entries
  {
    var o := Opened(cs, name);
    assert forall i :: 0 <= i < |cs| ==> o[i] == cs[i];
  }

  /** A URL no cache holds, once put in one, is then found with that response. */
  lemma MatchAfterPut(cs: seq<Cache>, name: string, url: string, resp: Response)
    requires Match(cs, url).None?
    ensures Match(Put(cs, name, url, resp), url) == Some(resp)
  {
    var o := Opened(cs, name);
    var p := Put(cs, name, url, resp);
    assert forall i :: 0 <= i < |o| ==> url !in o[i].entries by {
      assert forall i :: 0 <= i < |cs| ==> o[i] == cs[i];
    }
    assert name in Names(o);
    var k :| 0 <= k < |o| && o[k].name == name;
    assert url in p[k].entries;
    var h := FirstHolder(p, url).value;
    assert o[h].name == name;
  }

  /**
   * A static GET that missed and got a 200 response is answered from the cache the next
   * time, with the same response, whatever the network does then, and nothing changes.
   */
  lemma StaticMissThenHit(cs: seq<Cache>, origin: string, req: Request, resp: Response, later: NetResult)
    requires req.verb == "GET" && IsStaticAsset(req.path) && Match(cs, req.url).None? && resp.status == 200
    ensures var after := FetchStep(cs, origin, req, Received(resp)).caches;
            FetchStep(after, origin, req, later) == Fetched(after, RespondWith(Some(resp)))
  {
    MatchAfterPut(cs, STATIC_CACHE, req.url, resp);
  }

  /**
   * Network first: a non-static GET that no cache could answer and that got a 200 response
   * is answered from the dynamic cache, with that response, once the network fails.
   */
  lemma NetworkFirstMissThenOffline(cs: seq<Cache>, origin: string, req: Request, resp: Response)
    requires req.verb == "GET" && !IsStaticAsset(req.path) && Match(cs, req.url).None? && resp.status == 200
    ensures var after := FetchStep(cs, origin, req, Received(resp)).caches;
            after == Put(cs, DYNAMIC_CACHE, req.url, resp)
            && FetchStep(after, origin, req, NetworkError) == Fetched(after, RespondWith(Some(resp)))
  {
    MatchAfterPut(cs, DYNAMIC_CACHE, req.url, resp);
  }

  /**
   * The offline fallback: after an install whose fetches all succeeded and an activate, a GET
   * for "/" or "/index.html" under a URL no cache holds is answered, when the network is down,
   * with the `/index.html` response fetched at install.
   */
  lemma ShellFallbackOffline(cs: seq<Cache>, origin: string, net: map<string, NetResult>, req: Request)
    requires req.verb == "GET" && (req.path == "/" || req.path == "/index.html")
    requires InstallStep(cs, origin, net).ok
    requires forall c :: c in cs && c.name == DYNAMIC_CACHE ==> origin + "/index.html" !in c.entries
    requires Match(ActivateStep(InstallStep(cs, origin, net).caches), req.url).None?
    ensures var after := ActivateStep(InstallStep(cs, origin, net).caches);
            NetFor(net, origin + "/index.html").Received?
            && FetchStep(after, origin, req, NetworkError)
            == Fetched(after, RespondWith(Some(NetFor(net, origin + "/index.html").response)))
  {
    IndexIsShell(origin, req.path);
    InstalledShellKept(cs, origin, net, origin + "/index.html");
    StaticMissOffline(ActivateStep(InstallStep(cs, origin, net).caches), origin, req,
                      NetFor(net, origin + "/index.html").response);
  }

  /** "/" and "/index.html" are static, and the page they fall back to is installed. */
  lemma IndexIsShell(origin: string, path: string)
    requires path == "/" || path == "/index.html"
    ensures IsStaticAsset(path) && origin + "/index.html" in AssetUrls(origin)
  {
    ShellIsStatic(0);
    ShellIsStatic(1);
    assert STATIC_ASSETS[1] == "/index.html";
    assert AssetUrls(origin)[1] == origin + "/index.html";
  }

  /** A static GET that no cache answers gets the offline fallback when the network is down. */
  lemma StaticMissOffline(cs: seq<Cache>, origin: string, req: Request, x: Response)
    requires req.verb == "GET" && IsStaticAsset(req.path) && Match(cs, req.url).None?
    requires OfflineFallback(cs, origin, req.path) == Some(x)
    ensures FetchStep(cs, origin, req, NetworkError) == Fetched(cs, RespondWith(Some(x)))
  {
  }

  /**
   * The offline shell: after an install whose fetches all succeeded and an activate, a GET
   * for any listed path of the shell is answered with the response fetched at install, even
   * when the network is down, unless a dynamic cache kept from before holds its URL.
   */
  lemma ShellServedOffline(cs: seq<Cache>, origin: string, net: map<string, NetResult>, path: string, later: NetResult)
    requires path in STATIC_PATHS
    requires InstallStep(cs, origin, net).ok
    requires forall c :: c in cs && c.name == DYNAMIC_CACHE ==> origin + path !in c.entries
    ensures var after := ActivateStep(InstallStep(cs, origin, net).caches);
            NetFor(net, origin + path).Received?
            && FetchStep(after, origin, Request("GET", origin + path, path), later)
            == Fetched(after, RespondWith(Some(NetFor(net, origin + path).response)))
  {
    var i :| 0 <= i < |STATIC_PATHS| && STATIC_PATHS[i] == path;
    ShellIsStatic(i);
    assert AssetUrls(origin)[i] == origin + path;
    InstalledShellKept(cs, origin, net, origin + path);
    StaticHit(ActivateStep(InstallStep(cs, origin, net).caches), origin, Request("GET", origin + path, path), later,
              NetFor(net, origin + path).response);
  }

  lemma StaticHit(cs: seq<Cache>, origin: string, req: Request, net: NetResult, x: Response)
    requires req.verb == "GET" && IsStaticAsset(req.path) && Match(cs, req.url) == Some(x)
    ensures FetchStep(cs, origin, req, net) == Fetched(cs, RespondWith(Some(x)))
  {
  }

  /**
   * After a successful install and an activate, an installed URL is found in the caches
   * with the response fetched at install.
   */
  lemma InstalledShellKept(cs: seq<Cache>, origin: string, net: map<string, NetResult>, url: string)
    requires InstallStep(cs, origin, net).ok && url in AssetUrls(origin)
    requires forall c :: c in cs && c.name == DYNAMIC_CACHE ==> url !in c.entries
    ensures Match(ActivateStep(InstallStep(cs, origin, net).caches), url) == Some(NetFor(net, url).response)
  {
    InstalledStaticKept(cs, origin, net, url);
    InstalledHoldersAgree(cs, origin, net, url);
    MatchWhenHoldersAgree(ActivateStep(InstallStep(cs, origin, net).caches), url, NetFor(net, url).response);
  }

  /** When some cache holds `url` and every holder stores the same response, that is the match. */
  lemma MatchWhenHoldersAgree(cs: seq<Cache>, url: string, x: Response)
    requires exists c :: c in cs && url in c.entries
    requires forall c :: c in cs && url in c.entries ==> c.entries[url] == x
    ensures Match(cs, url) == Some(x)
  {
    var c :| c in cs && url in c.entries;
    var i :| 0 <= i < |cs| && url in cs[i].entries && Match(cs, url).value == cs[i].entries[url];
    assert cs[i] in cs;
  }

  /** The static cache survives activate holding every installed URL. */
  lemma InstalledStaticKept(cs: seq<Cache>, origin: string, net: map<string, NetResult>, url: string)
    requires InstallStep(cs, origin, net).ok && url in AssetUrls(origin)
    ensures exists c :: c in ActivateStep(InstallStep(cs, origin, net).caches) && url in c.entries
  {
    var installed := InstallStep(cs, origin, net).caches;
    var k :| 0 <= k < |installed| && installed[k].name == STATIC_CACHE;
    assert installed[k] in ActivateStep(installed);
  }

  /** Every cache left after activate that holds an installed URL holds the installed response. */
  lemma InstalledHoldersAgree(cs: seq<Cache>, origin: string, net: map<string, NetResult>, url: string)
    requires InstallStep(cs, origin, net).ok && url in AssetUrls(origin)
    requires forall c :: c in cs && c.name == DYNAMIC_CACHE ==> url !in c.entries
    ensures forall c :: c in ActivateStep(InstallStep(cs, origin, net).caches) && url in c.entries ==>
              c.entries[url] == NetFor(net, url).response
  {
    var installed := InstallStep(cs, origin, net).caches;
    InstallKeepsOtherCaches(cs, origin, net);
    forall c | c in ActivateStep(installed) && url in c.entries ensures c.entries[url] == NetFor(net, url).response {
      assert c in installed;
      if c.name == STATIC_CACHE {
        var j :| 0 <= j < |installed| && installed[j] == c;
      }
    }
  }

  /** Install writes only the static cache: every other cache it leaves was there before. */
  lemma InstallKeepsOtherCaches(cs: seq<Cache>, origin: string, net: map<string, NetResult>)
    ensures forall c :: c in InstallStep(cs, origin, net).caches && c.name != STATIC_CACHE ==> c in cs
  {
    var o := Opened(cs, STATIC_CACHE);
    var installed := InstallStep(cs, origin, net).caches;
    forall c | c in installed && c.name != STATIC_CACHE ensures c in cs {
      var j :| 0 <= j < |installed| && installed[j] == c;
      assert c == o[j];
      assert j < |cs|;
      assert o[j] == cs[j];
    }
  }

  /** Every step keeps the cache names unique. */
  lemma StepsKeepNamesDistinct(cs: seq<Cache>, origin: string, net: map<string, NetResult>, req: Request, r: NetResult)
    requires DistinctNames(cs)
    ensures DistinctNames(InstallStep(cs, origin, net).caches)
    ensures DistinctNames(ActivateStep(cs))
    ensures DistinctNames(FetchStep(cs, origin, req, r).caches)
  {
    ActivateKeepsNamesDistinct(cs);
    PutKeepsNamesDistinct(cs, STATIC_CACHE, req.url, if r.Received? then r.response else Response(0, ""));
    PutKeepsNamesDistinct(cs, DYNAMIC_CACHE, req.url, if r.Received? then r.response else Response(0, ""));
  }

  lemma PutKeepsNamesDistinct(cs: seq<Cache>, name: string, url: string, resp: Response)
    requires DistinctNames(cs)
    ensures DistinctNames(Put(cs, name, url, resp))
  {
  }

  lemma ActivateKeepsNamesDistinct(cs: seq<Cache>)
    requires DistinctNames(cs)
    ensures DistinctNames(ActivateStep(cs))
  {
    var a := ActivateStep(cs);
    forall i, j | 0 <= i < j < |a| ensures a[i].name != a[j].name {
      ActivateKeepsOrder(cs, i, j);
    }
  }

  /** Two kept caches come from two different positions of the storage, in the same order. */
  lemma {:induction false} ActivateKeepsOrder(cs: seq<Cache>, i: nat, j: nat)
    requires i < j < |ActivateStep(cs)|
    ensures exists p, q :: 0 <= p < q < |cs| && cs[p] == ActivateStep(cs)[i] && cs[q] == ActivateStep(cs)[j]
    decreases |cs|
  {
    var init, last := cs[..|cs| - 1], cs[|cs| - 1];
    var kept := ActivateStep(init);
    var a := ActivateStep(cs);
    if j < |kept| {
      ActivateKeepsOrder(init, i, j);
      var p, q :| 0 <= p < q < |init| && init[p] == kept[i] && init[q] == kept[j];
      assert cs[p] == init[p] && cs[q] == init[q];
    } else {
      assert a[j] == last;
      assert kept[i] in init;
      var p :| 0 <= p < |init| && init[p] == kept[i];
      assert cs[p] == init[p] && cs[|cs| - 1] == last;
    }
  }

  // ---------------------------------------------------------------- the worker

  /** The worker's view of the cache storage, and whether it has called `skipWaiting`. */
  class Worker {
    const origin: string
    var caches: seq<Cache>
    var waitingSkipped: bool

    constructor (origin: string, caches: seq<Cache>)
      ensures this.origin == origin && this.caches == caches && !waitingSkipped
    {
      this.origin := origin;
      this.caches := caches;
      waitingSkipped := false;
    }

    /** The install handler; a failed `addAll` is caught and `skipWaiting` is not reached. */
    method Install(net: map<string, NetResult>) returns (ok: bool)
      modifies this`caches, this`waitingSkipped
      ensures Installed(caches, ok) == InstallStep(old(caches), origin, net)
      ensures waitingSkipped == (old(waitingSkipped) || ok)
    {
      var r := InstallStep(caches, origin, net);
      caches := r.caches;
      ok := r.ok;
      if ok {
        waitingSkipped := true;
      }
    }

    /** The activate handler: every cache of another version is deleted, one name at a time. */
    method Activate()
      modifies this`caches
      ensures caches == ActivateStep(old(caches))
    {
      var kept: seq<Cache> := [];
      var i := 0;
      while i < |caches|
        invariant 0 <= i <= |caches|
        invariant kept == ActivateStep(caches[..i])
      {
        assert caches[..i + 1][..i] == caches[..i];
        if IsCurrentName(caches[i].name) {
          kept := kept + [caches[i]];
        }
        i := i + 1;
      }
      assert caches[..i] == caches;
      caches := kept;
    }

    /** The fetch handler for one request, `net` being what the network would give. */
    method Fetch(req: Request, net: NetResult) returns (outcome: FetchOutcome)
      modifies this`caches
      ensures Fetched(caches, outcome) == FetchStep(old(caches), origin, req, net)
    {
      var r := FetchStep(caches, origin, req, net);
      caches := r.caches;
      outcome := r.outcome;
    }
  }
}
