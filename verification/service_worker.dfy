/**
  The offline cache of the app (sw.js): installation stores the app shell
  assets that load successfully, activation deletes every cache but the
  current one, and the fetch handler answers GET requests from the caches
  first, stores successful same-origin network responses, and falls back to
  the cached page for navigations when the network fails.

  The cache storage is the sequence of named caches in creation order, each
  a map from request URL to response. The network is a function from URL to
  a response or a network error (`None`); URL resolution against the
  worker's location is the parameter `resolve`.
 */
module ServiceWorker {
  import opened Types
  import opened Strings

  const CacheName: string := "dqr-cache-v6"

  const Assets: seq<string> := [
    "./",
    "./index.html",
    "./manifest.json",
    "https://cdn.tailwindcss.com",
    "https://fonts.googleapis.com/css2?family=Inter:wght@400;700;900&family=Space+Grotesk:wght@700&family=JetBrains+Mono&display=swap"
  ]

  const ShellPage: string := "./"
  const IndexPage: string := "./index.html"

  /** Requests to an origin containing this are never answered by the worker. */
  const ApiOriginMarker: string := "generativelanguage"

  datatype ResponseType = Basic | Cors | Opaque | Error

  datatype Response = Response(status: int, kind: ResponseType)

  /** `response.ok`: a status in the range 200 to 299. */
  predicate IsOk(r: Response) {
    200 <= r.status <= 299
  }

  datatype NamedCache = NamedCache(name: string, entries: map<string, Response>)

  type Storage = seq<NamedCache>

  /** Cache names are unique. */
  predicate WellFormed(st: Storage) {
    forall i, j :: 0 <= i < j < |st| ==> st[i].name != st[j].name
  }

  /** Every stored response is a successful one. */
  predicate AllOk(st: Storage) {
    forall i, u :: 0 <= i < |st| && u in st[i].entries ==> IsOk(st[i].entries[u])
  }

  /** The position of the cache with this name. */
  function Find(st: Storage, name: string): (r: Option<nat>)
    ensures r.None? <==> forall i :: 0 <= i < |st| ==> st[i].name != name
    ensures r.Some? ==> r.value < |st| && st[r.value].name == name
    ensures r.Some? ==> forall i :: 0 <= i < r.value ==> st[i].name != name
    decreases |st|
  {
    if |st| == 0 then None
    else if st[0].name == name then Some(0)
    else
      var r := Find(st[1..], name);
      assert forall i :: 1 <= i < |st| ==> st[i] == st[1..][i - 1];
      if r.None? then None else Some(r.value + 1)
  }

  /** `caches.open(name)`: the cache is created, last, when it does not exist. */
  function Open(st: Storage, name: string): (st': Storage)
    ensures Find(st', name).Some?
    ensures Find(st, name).Some? ==> st' == st
    ensures Find(st, name).None? ==> st' == st + [NamedCache(name, map[])]
    ensures WellFormed(st) ==> WellFormed(st')
    ensures AllOk(st) ==> AllOk(st')
  {
    if Find(st, name).Some? then st
    else
      var st' := st + [NamedCache(name, map[])];
      assert st'[|st|].name == name;
      st'
  }

  /** What the named cache holds for a URL. */
  function Lookup(st: Storage, name: string, url: string): Option<Response> {
    match Find(st, name)
    case None => None
    case Some(k) => if url in st[k].entries then Some(st[k].entries[url]) else None
  }

  /** `cache.put` on the named cache, opened first. Other caches and other URLs are untouched. */
  function Put(st: Storage, name: string, url: string, r: Response): (st': Storage)
    ensures |st'| == |Open(st, name)|
    ensures forall i :: 0 <= i < |st'| ==> st'[i].name == Open(st, name)[i].name
    ensures Lookup(st', name, url) == Some(r)
    ensures forall i :: 0 <= i < |st'| && st'[i].name != name ==> st'[i] == Open(st, name)[i]
    ensures forall i, u :: 0 <= i < |st'| && u != url && u in Open(st, name)[i].entries ==>
      u in st'[i].entries && st'[i].entries[u] == Open(st, name)[i].entries[u]
    ensures forall i, u :: 0 <= i < |st'| && u != url && u in st'[i].entries ==> u in Open(st, name)[i].entries
    ensures WellFormed(st) ==> WellFormed(st')
    ensures AllOk(st) && IsOk(r) ==> AllOk(st')
  {
    var o := Open(st, name);
    var k := Find(o, name).value;
    var st' := SetEntry(o, k, url, r);
    FindByNames(o, st', name);
    st'
  }

  /** Cache `k` with the URL mapped to the response; every other cache as it was. */
  function SetEntry(o: Storage, k: nat, url: string, r: Response): (st': Storage)
    requires k < |o|
    ensures |st'| == |o| && st'[k].name == o[k].name && st'[k].entries == o[k].entries[url := r]
    ensures forall i :: 0 <= i < |o| && i != k ==> st'[i] == o[i]
  {
    o[k := o[k].(entries := o[k].entries[url := r])]
  }

  /** Two storages with the same names in the same order find a name at the same place. */
  lemma {:induction false} FindByNames(a: Storage, b: Storage, name: string)
    requires |a| == |b| && forall i :: 0 <= i < |a| ==> a[i].name == b[i].name
    ensures Find(a, name) == Find(b, name)
    decreases |a|
  {
    if |a| > 0 && a[0].name != name {
      FindByNames(a[1..], b[1..], name);
    }
  }

  /** `caches.match(url)`: the response of the first cache, in creation order, holding the URL. */
  function Match(st: Storage, url: string): (r: Option<Response>)
    ensures r.None? <==> forall i :: 0 <= i < |st| ==> url !in st[i].entries
    ensures r.Some? ==> exists i :: FirstHolder(st, url, i) && st[i].entries[url] == r.value
    decreases |st|
  {
    if |st| == 0 then None
    else if url in st[0].entries then
      assert FirstHolder(st, url, 0);
      Some(st[0].entries[url])
    else
      var r := Match(st[1..], url);
      assert forall i :: 1 <= i < |st| ==> st[i] == st[1..][i - 1];
      assert r.Some? ==> exists i :: FirstHolder(st, url, i) && st[i].entries[url] == r.value by {
        if r.Some? {
          var i :| FirstHolder(st[1..], url, i) && st[1..][i].entries[url] == r.value;
          assert st[i + 1] == st[1..][i];
          assert FirstHolder(st, url, i + 1);
        }
      }
      r
  }

  /** Cache `i` is the first, in creation order, to hold the URL. */
  predicate FirstHolder(st: Storage, url: string, i: int) {
    && 0 <= i < |st| && url in st[i].entries
    && forall j :: 0 <= j < i ==> url !in st[j].entries
  }

  /** In a storage of successful responses, a match is a successful response. */
  lemma MatchIsOk(st: Storage, url: string)
    requires AllOk(st) && Match(st, url).Some?
    ensures IsOk(Match(st, url).value)
  {
  }

  // ---- install ----

  /**
    The settled fetches of the install step, one URL after another: an ok
    response is stored in the current cache, anything else is dropped
    without affecting the other URLs.
   */
  function InstallAll(st: Storage, urls: seq<string>, network: string -> Option<Response>): (st': Storage)
    requires Find(st, CacheName).Some?
    ensures |st'| == |st| && Find(st', CacheName) == Find(st, CacheName)
    ensures forall i :: 0 <= i < |st| ==> st'[i].name == st[i].name
    ensures forall i :: 0 <= i < |st| && st[i].name != CacheName ==> st'[i] == st[i]
    ensures WellFormed(st) ==> WellFormed(st')
    ensures AllOk(st) ==> AllOk(st')
    decreases |urls|
  {
    if |urls| == 0 then st
    else
      var next := InstallOne(st, urls[0], network);
      InstallAll(next, urls[1..], network)
  }

  /** One settled fetch of the install step. */
  function InstallOne(st: Storage, u: string, network: string -> Option<Response>): (st': Storage)
    requires Find(st, CacheName).Some?
    ensures |st'| == |st| && Find(st', CacheName) == Find(st, CacheName)
    ensures forall i :: 0 <= i < |st| ==> st'[i].name == st[i].name
    ensures forall i :: 0 <= i < |st| && st[i].name != CacheName ==> st'[i] == st[i]
    ensures network(u).Some? && IsOk(network(u).value) ==> Lookup(st', CacheName, u) == network(u)
    ensures !(network(u).Some? && IsOk(network(u).value)) ==> st' == st
    ensures forall v :: v != u ==> Lookup(st', CacheName, v) == Lookup(st, CacheName, v)
    ensures WellFormed(st) ==> WellFormed(st')
    ensures AllOk(st) ==> AllOk(st')
  {
    if network(u).Some? && IsOk(network(u).value) then
      var st' := Put(st, CacheName, u, network(u).value);
      FindByNames(st, st', CacheName);
      st'
    else st
  }

  /** Every URL whose fetch succeeded is stored with its response once the install step is over. */
  lemma {:induction false} InstallStoresOk(st: Storage, urls: seq<string>, network: string -> Option<Response>, k: nat)
    requires Find(st, CacheName).Some?
    requires k < |urls| && network(urls[k]).Some? && IsOk(network(urls[k]).value)
    ensures Lookup(InstallAll(st, urls, network), CacheName, urls[k]) == network(urls[k])
    decreases |urls|
  {
    var next := InstallOne(st, urls[0], network);
    if k == 0 {
      InstallKeepsStored(next, urls[1..], network, urls[0]);
    } else {
      assert urls[1..][k - 1] == urls[k];
      InstallStoresOk(next, urls[1..], network, k - 1);
    }
  }

  /** A URL stored with its network response keeps it through the remaining fetches. */
  lemma {:induction false} InstallKeepsStored(st: Storage, urls: seq<string>, network: string -> Option<Response>, u: string)
    requires Find(st, CacheName).Some?
    requires network(u).Some? && Lookup(st, CacheName, u) == network(u)
    ensures Lookup(InstallAll(st, urls, network), CacheName, u) == network(u)
    decreases |urls|
  {
    if |urls| > 0 {
      InstallKeepsStored(InstallOne(st, urls[0], network), urls[1..], network, u);
    }
  }

  /** The install step changes the current cache's entry for a URL only by storing its ok response. */
  lemma {:induction false} InstallOnlyOk(st: Storage, urls: seq<string>, network: string -> Option<Response>, v: string)
    requires Find(st, CacheName).Some?
    requires Lookup(InstallAll(st, urls, network), CacheName, v) != Lookup(st, CacheName, v)
    ensures v in urls && network(v).Some? && IsOk(network(v).value)
    ensures Lookup(InstallAll(st, urls, network), CacheName, v) == network(v)
    decreases |urls|
  {
    var next := InstallOne(st, urls[0], network);
    assert InstallAll(st, urls, network) == InstallAll(next, urls[1..], network);
    if Lookup(InstallAll(next, urls[1..], network), CacheName, v) != Lookup(next, CacheName, v) {
      InstallOnlyOk(next, urls[1..], network, v);
      assert v in urls[1..];
    } else {
      assert Lookup(next, CacheName, v) != Lookup(st, CacheName, v);
      assert v == urls[0];
    }
  }

  /** The asset list resolved against the worker's location. */
  function AssetUrls(resolve: string -> string): (urls: seq<string>)
    ensures |urls| == |Assets| && forall k :: 0 <= k < |Assets| ==> urls[k] == resolve(Assets[k])
  {
    seq(|Assets|, k requires 0 <= k < |Assets| => resolve(Assets[k]))
  }

  /** Opening the current cache does not change what it holds for any URL. */
  lemma OpenKeepsLookup(st: Storage, v: string)
    ensures Lookup(Open(st, CacheName), CacheName, v) == Lookup(st, CacheName, v)
  {
    if Find(st, CacheName).None? {
      var o := Open(st, CacheName);
      assert o[|st|].name == CacheName;
      assert Find(o, CacheName) == Some(|st|);
    }
  }

  /** A URL whose entry the install event changed is an asset whose fetch was ok, stored with its response. */
  lemma InstallChangesOnlyOkAssets(st: Storage, network: string -> Option<Response>, resolve: string -> string, v: string)
    requires Lookup(InstallAll(Open(st, CacheName), AssetUrls(resolve), network), CacheName, v) != Lookup(st, CacheName, v)
    ensures exists k :: 0 <= k < |Assets| && resolve(Assets[k]) == v
    ensures network(v).Some? && IsOk(network(v).value)
    ensures Lookup(InstallAll(Open(st, CacheName), AssetUrls(resolve), network), CacheName, v) == network(v)
  {
    var urls := AssetUrls(resolve);
    OpenKeepsLookup(st, v);
    InstallOnlyOk(Open(st, CacheName), urls, network, v);
    var k :| 0 <= k < |urls| && urls[k] == v;
    assert resolve(Assets[k]) == v;
  }

  /** The install event: the current cache is opened, then every asset is fetched and stored if ok. */
  function Install(st: Storage, network: string -> Option<Response>, resolve: string -> string): (st': Storage)
    ensures Find(st', CacheName).Some?
    ensures forall k :: 0 <= k < |Assets| && network(resolve(Assets[k])).Some? && IsOk(network(resolve(Assets[k])).value) ==>
      Lookup(st', CacheName, resolve(Assets[k])) == network(resolve(Assets[k]))
    ensures forall v :: Lookup(st', CacheName, v) != Lookup(st, CacheName, v) ==>
      && (exists k :: 0 <= k < |Assets| && resolve(Assets[k]) == v)
      && network(v).Some? && IsOk(network(v).value) && Lookup(st', CacheName, v) == network(v)
    ensures WellFormed(st) ==> WellFormed(st')
    ensures AllOk(st) ==> AllOk(st')
  {
    var urls := AssetUrls(resolve);
    var created := Open(st, CacheName);
    var st' := InstallAll(created, urls, network);
    forall v | Lookup(st', CacheName, v) != Lookup(st, CacheName, v)
      ensures && (exists k :: 0 <= k < |Assets| && resolve(Assets[k]) == v)
              && network(v).Some? && IsOk(network(v).value) && Lookup(st', CacheName, v) == network(v)
    {
      InstallChangesOnlyOkAssets(st, network, resolve, v);
    }
    forall k | 0 <= k < |Assets| && network(resolve(Assets[k])).Some? && IsOk(network(resolve(Assets[k])).value)
      ensures Lookup(st', CacheName, resolve(Assets[k])) == network(resolve(Assets[k]))
    {
      InstallStoresOk(created, urls, network, k);
    }
    st'
  }

  // ---- activate ----

  /** The activate event: every cache not named as the current one is deleted. */
  function Activate(st: Storage): (st': Storage)
    ensures forall c :: c in st' ==> c in st && c.name == CacheName
    ensures forall c :: c in st && c.name == CacheName ==> c in st'
    decreases |st|
  {
    if |st| == 0 then []
    else
      var rest := Activate(st[1..]);
      assert forall c :: c in st[1..] ==> c in st;
      assert forall c :: c in st ==> c == st[0] || c in st[1..];
      if st[0].name == CacheName then [st[0]] + rest else rest
  }

  lemma {:induction false} ActivateWithoutCurrent(st: Storage)
    requires forall i :: 0 <= i < |st| ==> st[i].name != CacheName
    ensures Activate(st) == []
    decreases |st|
  {
    if |st| > 0 {
      assert st[0].name != CacheName;
      ActivateWithoutCurrent(st[1..]);
    }
  }

  /** After activation only the current cache remains, unchanged, if it existed. */
  lemma {:induction false} ActivateLeavesCurrent(st: Storage)
    requires WellFormed(st)
    ensures |Activate(st)| <= 1
    ensures Find(st, CacheName).Some? ==> Activate(st) == [st[Find(st, CacheName).value]]
    ensures Find(st, CacheName).None? ==> Activate(st) == []
    decreases |st|
  {
    if |st| > 0 {
      var tail := st[1..];
      assert WellFormed(tail) by {
        forall i, j | 0 <= i < j < |tail| ensures tail[i].name != tail[j].name {
          assert tail[i] == st[i + 1] && tail[j] == st[j + 1];
        }
      }
      assert Activate(st) == if st[0].name == CacheName then [st[0]] + Activate(tail) else Activate(tail);
      if st[0].name == CacheName {
        forall i | 0 <= i < |tail| ensures tail[i].name != CacheName {
          assert tail[i] == st[i + 1];
        }
        ActivateWithoutCurrent(tail);
      } else {
        ActivateLeavesCurrent(tail);
        FindInTail(st, CacheName);
      }
    }
  }

  /** Past a first cache of another name, the position is the one found in the rest, shifted by one. */
  lemma FindInTail(st: Storage, name: string)
    requires |st| > 0 && st[0].name != name
    ensures Find(st, name) == if Find(st[1..], name).Some? then Some(Find(st[1..], name).value + 1) else None
    ensures Find(st[1..], name).Some? ==> st[Find(st, name).value] == st[1..][Find(st[1..], name).value]
  {
  }

  // ---- fetch ----

  datatype Request = Request(url: string, origin: string, httpMethod: string, navigate: bool)

  /** Not intercepted (the browser handles the request), or answered with a response or a network error (`None`). */
  datatype Answer = NotIntercepted | Answered(response: Option<Response>)

  datatype Handled = Handled(storage: Storage, answer: Answer, usedNetwork: bool)

  /** Only a 200 response of type basic is stored. */
  predicate Storable(r: Response) {
    r.status == 200 && r.kind == Basic
  }

  /**
    The navigation fallback as written, `caches.match('./') ||
    caches.match('./index.html')`: the first operand is a promise, which is
    always truthy, so only the shell page is ever looked up.
   */
  function NavigateFallbackAsWritten(st: Storage, resolve: string -> string): (r: Option<Response>)
    ensures r.None? <==> forall i :: 0 <= i < |st| ==> resolve(ShellPage) !in st[i].entries
    ensures r.Some? ==> exists i :: FirstHolder(st, resolve(ShellPage), i) && st[i].entries[resolve(ShellPage)] == r.value
  {
    Match(st, resolve(ShellPage))
  }

  /** The navigation fallback: the cached shell page, else the cached index page. */
  function NavigateFallback(st: Storage, resolve: string -> string): (r: Option<Response>)
    ensures Match(st, resolve(ShellPage)).Some? ==> r == Match(st, resolve(ShellPage))
    ensures Match(st, resolve(ShellPage)).None? ==> r == Match(st, resolve(IndexPage))
    ensures r.None? <==> Match(st, resolve(ShellPage)).None? && Match(st, resolve(IndexPage)).None?
  {
    match Match(st, resolve(ShellPage))
    case Some(r) => Some(r)
    case None => Match(st, resolve(IndexPage))
  }

  /**
    The fetch handler, given the answer to a navigation the network fails:
    requests other than GET and requests to the API origin are left to the
    browser; a cached response is answered without the network; otherwise
    the network's response is answered, and stored when it is a 200 basic
    one; a network error answers a navigation with `fallback` and anything
    else with nothing.
   */
  function FetchWith(st: Storage, req: Request, network: string -> Option<Response>,
                     fallback: Option<Response>): (h: Handled)
    ensures req.httpMethod != "GET" || Contains(req.origin, ApiOriginMarker) ==> h == Handled(st, NotIntercepted, false)
    ensures h.answer.Answered? && Match(st, req.url).Some? ==> h == Handled(st, Answered(Match(st, req.url)), false)
    ensures req.httpMethod == "GET" && !Contains(req.origin, ApiOriginMarker) && Match(st, req.url).Some? ==>
      h == Handled(st, Answered(Match(st, req.url)), false)
    ensures GoesToNetwork(st, req) && network(req.url).Some? ==>
      h.storage == (if Storable(network(req.url).value) then Put(st, CacheName, req.url, network(req.url).value) else st)
    ensures h.usedNetwork <==> h.answer.Answered? && Match(st, req.url).None?
    ensures h.usedNetwork && network(req.url).Some? ==> h.answer == Answered(network(req.url))
    ensures h.usedNetwork && network(req.url).None? ==> h == Handled(st, Answered(if req.navigate then fallback else None), true)
    ensures h.storage != st ==>
      && h.answer.Answered? && h.answer.response.Some? && Storable(h.answer.response.value)
      && h.storage == Put(st, CacheName, req.url, h.answer.response.value)
    ensures WellFormed(st) ==> WellFormed(h.storage)
    ensures AllOk(st) ==> AllOk(h.storage)
  {
    if req.httpMethod != "GET" then Handled(st, NotIntercepted, false)
    else if Contains(req.origin, ApiOriginMarker) then Handled(st, NotIntercepted, false)
    else match Match(st, req.url)
      case Some(cached) => Handled(st, Answered(Some(cached)), false)
      case None =>
        match network(req.url)
        case Some(r) =>
          if Storable(r) then Handled(Put(st, CacheName, req.url, r), Answered(Some(r)), true)
          else Handled(st, Answered(Some(r)), true)
        case None => Handled(st, Answered(if req.navigate then fallback else None), true)
  }

  /** A GET request to the app's own origins that no cache holds: one the handler sends to the network. */
  predicate GoesToNetwork(st: Storage, req: Request) {
    req.httpMethod == "GET" && !Contains(req.origin, ApiOriginMarker) && Match(st, req.url).None?
  }

  /** The fetch handler as written: an offline navigation gets the cached shell page or nothing. */
  function HandleFetchAsWritten(st: Storage, req: Request, network: string -> Option<Response>,
                                resolve: string -> string): (h: Handled)
    ensures req.httpMethod != "GET" || Contains(req.origin, ApiOriginMarker) ==> h == Handled(st, NotIntercepted, false)
    ensures GoesToNetwork(st, req) && network(req.url).None? && req.navigate ==>
      h == Handled(st, Answered(Match(st, resolve(ShellPage))), true)
    ensures GoesToNetwork(st, req) && network(req.url).None? && !req.navigate ==> h == Handled(st, Answered(None), true)
  {
    FetchWith(st, req, network, NavigateFallbackAsWritten(st, resolve))
  }

  /** The fetch handler, with the navigation fallback consulting both pages. */
  function HandleFetch(st: Storage, req: Request, network: string -> Option<Response>,
                       resolve: string -> string): (h: Handled)
    ensures req.httpMethod != "GET" || Contains(req.origin, ApiOriginMarker) ==> h == Handled(st, NotIntercepted, false)
    ensures h.answer.Answered? && Match(st, req.url).Some? ==> h == Handled(st, Answered(Match(st, req.url)), false)
    ensures req.httpMethod == "GET" && !Contains(req.origin, ApiOriginMarker) && Match(st, req.url).Some? ==>
      h == Handled(st, Answered(Match(st, req.url)), false)
    ensures GoesToNetwork(st, req) && network(req.url).Some? ==>
      h.storage == (if Storable(network(req.url).value) then Put(st, CacheName, req.url, network(req.url).value) else st)
    ensures h.usedNetwork <==> h.answer.Answered? && Match(st, req.url).None?
    ensures GoesToNetwork(st, req) && network(req.url).Some? ==> h.answer == Answered(network(req.url))
    ensures GoesToNetwork(st, req) && network(req.url).None? && req.navigate ==>
      && h.storage == st && h.answer.Answered?
      && (h.answer.response.None? <==> Match(st, resolve(ShellPage)).None? && Match(st, resolve(IndexPage)).None?)
      && (Match(st, resolve(ShellPage)).None? ==> h.answer.response == Match(st, resolve(IndexPage)))
    ensures GoesToNetwork(st, req) && network(req.url).None? && !req.navigate ==> h == Handled(st, Answered(None), true)
    ensures h.storage != st ==>
      && h.answer.Answered? && h.answer.response.Some? && Storable(h.answer.response.value)
      && h.storage == Put(st, CacheName, req.url, h.answer.response.value)
    ensures WellFormed(st) ==> WellFormed(h.storage)
    ensures AllOk(st) ==> AllOk(h.storage)
  {
    FetchWith(st, req, network, NavigateFallback(st, resolve))
  }

  /**
    A response stored on a miss answers the next identical request from the
    cache, without the network, whatever the network does then.
   */
  lemma StoredResponseServedNext(st: Storage, req: Request, network: string -> Option<Response>,
                                 network': string -> Option<Response>, resolve: string -> string)
    requires req.httpMethod == "GET" && !Contains(req.origin, ApiOriginMarker)
    requires Match(st, req.url).None? && network(req.url).Some? && Storable(network(req.url).value)
    ensures var h := HandleFetch(st, req, network, resolve);
      HandleFetch(h.storage, req, network', resolve) == Handled(h.storage, Answered(network(req.url)), false)
  {
    var h := HandleFetch(st, req, network, resolve);
    var k := Find(h.storage, CacheName).value;
    assert req.url in h.storage[k].entries;
    assert Match(h.storage, req.url).Some?;
    MatchAfterPut(st, req.url, network(req.url).value);
  }

  /** After a put of a URL no cache held, matching the URL finds the stored response. */
  lemma MatchAfterPut(st: Storage, url: string, r: Response)
    requires Match(st, url).None?
    ensures Match(Put(st, CacheName, url, r), url) == Some(r)
  {
    var st' := Put(st, CacheName, url, r);
    var k := Find(st', CacheName).value;
    assert url in st'[k].entries && st'[k].entries[url] == r;
    forall i | 0 <= i < |st'| && i != k
      ensures url !in st'[i].entries
    {
      var o := Open(st, CacheName);
      assert url !in o[i].entries;
    }
    MatchUnique(st', url, k);
  }

  /** When a single cache holds the URL, matching gives its response. */
  lemma {:induction false} MatchUnique(st: Storage, url: string, k: nat)
    requires k < |st| && url in st[k].entries
    requires forall i :: 0 <= i < |st| && i != k ==> url !in st[i].entries
    ensures Match(st, url) == Some(st[k].entries[url])
    decreases |st|
  {
    if k > 0 {
      assert url !in st[0].entries;
      MatchUnique(st[1..], url, k - 1);
    }
  }

  /**
    Two storages that hold the same response for a URL at each position,
    where the longer one's extra caches do not hold it, match it alike.
   */
  lemma {:induction false} MatchByEntries(a: Storage, b: Storage, w: string)
    requires |a| <= |b|
    requires forall i :: 0 <= i < |b| ==> (w in b[i].entries <==> i < |a| && w in a[i].entries)
    requires forall i :: 0 <= i < |a| && w in a[i].entries ==> b[i].entries[w] == a[i].entries[w]
    ensures Match(b, w) == Match(a, w)
    decreases |a|
  {
    if |a| > 0 && w !in a[0].entries {
      assert w !in b[0].entries;
      MatchByEntries(a[1..], b[1..], w);
    }
  }

  /** Storing another URL does not change what matching a URL finds. */
  lemma MatchAfterPutOther(st: Storage, url: string, r: Response, w: string)
    requires w != url
    ensures Match(Put(st, CacheName, url, r), w) == Match(st, w)
  {
    var st' := Put(st, CacheName, url, r);
    var o := Open(st, CacheName);
    assert forall i :: 0 <= i < |st| ==> o[i] == st[i];
    assert forall i :: |st| <= i < |o| ==> o[i].entries == map[];
    MatchByEntries(st, st', w);
  }

  /** As written, storing the index page never changes the fallback. */
  lemma FallbackAsWrittenIgnoresIndex(st: Storage, resolve: string -> string, page: Response)
    requires resolve(ShellPage) != resolve(IndexPage)
    ensures NavigateFallbackAsWritten(Put(st, CacheName, resolve(IndexPage), page), resolve)
         == NavigateFallbackAsWritten(st, resolve)
  {
    MatchAfterPutOther(st, resolve(IndexPage), page, resolve(ShellPage));
  }

  /**
    As written, an offline navigation gets no page when the shell page is not
    cached even though the index page is, which the install step allows when
    only the first asset failed to load; consulting both pages answers it.
   */
  lemma OfflineNavigationMissesIndexAsWritten(req: Request, network: string -> Option<Response>,
                                              resolve: string -> string, page: Response)
    requires resolve(ShellPage) != resolve(IndexPage)
    requires req.httpMethod == "GET" && !Contains(req.origin, ApiOriginMarker) && req.navigate
    requires req.url != resolve(IndexPage) && network(req.url).None?
    ensures var st := [NamedCache(CacheName, map[resolve(IndexPage) := page])];
      && HandleFetchAsWritten(st, req, network, resolve) == Handled(st, Answered(None), true)
      && HandleFetch(st, req, network, resolve) == Handled(st, Answered(Some(page)), true)
  {
    var st := [NamedCache(CacheName, map[resolve(IndexPage) := page])];
    assert Match(st[1..], resolve(ShellPage)).None?;
    assert Match(st[1..], resolve(IndexPage)).None?;
    assert Match(st[1..], req.url).None?;
    assert GoesToNetwork(st, req);
  }
}
