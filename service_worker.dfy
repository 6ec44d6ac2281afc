/** The offline cache worker (sw.js): its cache name and manifest, and its install, activate,
    fetch and message handlers, each taken as one atomic step on the worker's state. The pure
    functions Install, Activate, Fetch and Message say what each step does; the ServiceWorker
    class performs the steps on its fields and is proved to agree with them. */
module OfflineWorker {
  import opened Wrappers
  import opened Strings
  import opened CacheStorage

  /** The name of the current cache generation. */
  const CACHE_NAME := "pwa-camera-v1"

  /** The app shell cached at install time, relative to the worker's location. */
  const CACHE_RESOURCES: seq<string> := ["./", "./index.html", "./app.js", "./manifest.json"]

  /** Resolution of a manifest path against the worker's base URL (the directory that holds sw.js,
      ending in '/'): "./x" names base + "x". */
  function Resolve(base: string, path: string): (url: string)
    ensures StartsWith(url, base)
    ensures |url| == |base| + (if StartsWith(path, "./") then |path| - 2 else |path|)
  {
    if StartsWith(path, "./") then base + path[2..] else base + path
  }

  /** The absolute URLs of CACHE_RESOURCES: all under the base URL, and pairwise different
      whatever the base, so addAll never rejects them as duplicates. */
  function ManifestUrls(base: string): (urls: seq<string>)
    ensures forall u :: u in urls ==> StartsWith(u, base)
    ensures NoDuplicates(urls)
  {
    var urls := seq(|CACHE_RESOURCES|, i requires 0 <= i < |CACHE_RESOURCES| => Resolve(base, CACHE_RESOURCES[i]));
    assert |urls[0]| == |base| && |urls[1]| == |base| + 10;
    assert |urls[2]| == |base| + 6 && |urls[3]| == |base| + 13;
    urls
  }

  /** A request as the fetch handler sees it (`method` is a Dafny keyword, hence `httpMethod`). */
  datatype Request = Request(httpMethod: string, url: string)

  /** The filter at the top of the fetch handler: the worker answers only GET requests whose URL
      starts with its own origin. */
  predicate Intercepts(origin: string, request: Request) {
    request.httpMethod == "GET" && StartsWith(request.url, origin)
  }

  /** The origin test compares strings, not origins: every URL that extends the origin string is
      intercepted, including URLs of other hosts or ports such as origin + ".example.org/x" or
      origin + ":8443/x". */
  lemma InterceptsByPrefix(origin: string, rest: string)
    ensures Intercepts(origin, Request("GET", origin + rest))
  {
    assert (origin + rest)[..|origin|] == origin;
  }

  /** The test before a network response is stored: it exists, its status is 200 and its type is
      not 'error'. */
  predicate Cacheable(response: Option<Response>) {
    !(response.None? || response.value.status != 200 || response.value.responseType == "error")
  }

  /** What the worker holds: the cache storage and whether skipWaiting() has been called. */
  datatype WorkerState = WorkerState(caches: Storage, skipWaiting: bool)

  /** How the fetch handler answers a request. */
  datatype FetchResult =
    | NotHandled                              // the handler returned without respondWith
    | FromCache(cached: Response)             // served from the cache, no network
    | FromNetwork(response: Option<Response>) // a miss, answered by the network's response
    | Failed(reason: string)                  // a miss whose network fetch rejected

  /** One fetch event: the answer and the state after it. */
  datatype FetchStep = FetchStep(result: FetchResult, state: WorkerState)

  // ---------------------------------------------------------------------------------------------
  // The handlers as steps on the worker's state
  // ---------------------------------------------------------------------------------------------

  /** Every manifest URL was fetched with a response Cache.addAll accepts. */
  predicate InstallSucceeds(base: string, net: string -> NetworkOutcome) {
    AllFetched(ManifestUrls(base), net)
  }

  /** The install handler: open CACHE_NAME, addAll the manifest, and on success call skipWaiting();
      a rejection is caught and ignored. */
  function Install(w: WorkerState, base: string, net: string -> NetworkOutcome): (r: WorkerState)
    ensures Find(r.caches, CACHE_NAME).Some?
    ensures r.skipWaiting == (w.skipWaiting || InstallSucceeds(base, net))
  {
    var withCurrent := Open(w.caches, CACHE_NAME);
    match AddAll(Find(withCurrent, CACHE_NAME).value, ManifestUrls(base), net)
    case Some(entries) =>
      var installed := SetEntries(withCurrent, CACHE_NAME, entries);
      SetEntriesMembers(withCurrent, CACHE_NAME, entries, Cache(CACHE_NAME, entries));
      WorkerState(installed, true)
    case None =>
      WorkerState(withCurrent, w.skipWaiting)
  }

  /** The names the activate handler deletes: every name of the storage but CACHE_NAME. */
  function StaleNames(names: seq<string>): set<string> {
    set n | n in names && n != CACHE_NAME
  }

  /** The activate handler: delete every cache whose name is not CACHE_NAME. */
  function Activate(w: WorkerState): (r: WorkerState)
    ensures r.skipWaiting == w.skipWaiting
    ensures forall i :: 0 <= i < |r.caches| ==> r.caches[i].name == CACHE_NAME
  {
    var r := w.(caches := Without(w.caches, StaleNames(Names(w.caches))));
    assert forall i :: 0 <= i < |r.caches| ==> r.caches[i].name == CACHE_NAME by {
      forall i | 0 <= i < |r.caches| ensures r.caches[i].name == CACHE_NAME {
        WithoutMembers(w.caches, StaleNames(Names(w.caches)), r.caches[i]);
        var j :| 0 <= j < |w.caches| && w.caches[j] == r.caches[i];
        assert Names(w.caches)[j] == r.caches[i].name;
      }
    }
    r
  }

  /** The fetch handler: requests it does not intercept pass through; otherwise the first cached
      match answers; on a miss the network answers, and a cacheable answer is also put into
      CACHE_NAME; a network rejection propagates. */
  function Fetch(w: WorkerState, origin: string, request: Request, net: NetworkOutcome): (r: FetchStep)
    ensures r.state.skipWaiting == w.skipWaiting
    ensures r.result.NotHandled? <==> !Intercepts(origin, request)
    ensures r.result.FromCache? <==> Intercepts(origin, request) && Match(w.caches, request.url).Some?
    ensures r.state != w ==>
      Intercepts(origin, request) && Match(w.caches, request.url).None? && net.Answered? && Cacheable(net.response)
  {
    if request.httpMethod != "GET" then FetchStep(NotHandled, w)
    else if !StartsWith(request.url, origin) then FetchStep(NotHandled, w)
    else match Match(w.caches, request.url)
      case Some(cached) => FetchStep(FromCache(cached), w)
      case None =>
        match net
        case NetworkError(reason) => FetchStep(Failed(reason), w)
        case Answered(response) =>
          if !Cacheable(response) then FetchStep(FromNetwork(response), w)
          else
            var stored := Put(Open(w.caches, CACHE_NAME), CACHE_NAME, request.url, response.value);
            FetchStep(FromNetwork(response), w.(caches := stored))
  }

  /** The message handler: 'skipWaiting' sets the flag, 'clearCache' deletes every cache, any other
      action does nothing. */
  function Message(w: WorkerState, action: string): (r: WorkerState)
    ensures action == "skipWaiting" ==> r == w.(skipWaiting := true)
    ensures action == "clearCache" ==> r == w.(caches := [])
    ensures action != "skipWaiting" && action != "clearCache" ==> r == w
  {
    if action == "skipWaiting" then w.(skipWaiting := true)
    else if action == "clearCache" then
      WithoutAll(w.caches, set n | n in Names(w.caches));
      w.(caches := Without(w.caches, set n | n in Names(w.caches)))
    else w
  }

  // ---------------------------------------------------------------------------------------------
  // Properties of the handlers
  // ---------------------------------------------------------------------------------------------

  /** On success the install handler replaces the entries of CACHE_NAME by the result of addAll,
      leaves the caches of other names exactly as they were, and keeps the names distinct. */
  lemma InstallStores(w: WorkerState, base: string, net: string -> NetworkOutcome)
    requires DistinctNames(w.caches)
    requires InstallSucceeds(base, net)
    ensures var r := Install(w, base, net);
      && DistinctNames(r.caches)
      && Find(r.caches, CACHE_NAME) ==
           AddAll(Find(Open(w.caches, CACHE_NAME), CACHE_NAME).value, ManifestUrls(base), net)
      && (forall c: Cache :: c.name != CACHE_NAME ==> (c in r.caches <==> c in w.caches))
  {
    var withCurrent := Open(w.caches, CACHE_NAME);
    var added := AddAll(Find(withCurrent, CACHE_NAME).value, ManifestUrls(base), net).value;
    var r := Install(w, base, net);
    assert r.caches == SetEntries(withCurrent, CACHE_NAME, added);
    OpenDistinct(w.caches, CACHE_NAME);
    SetEntriesFind(withCurrent, CACHE_NAME, added);
    forall c: Cache | c.name != CACHE_NAME ensures c in r.caches <==> c in w.caches {
      OpenOthers(w.caches, CACHE_NAME, c);
    }
  }

  /** Install is all or nothing. On success CACHE_NAME holds exactly its earlier URLs and the
      manifest URLs, every manifest URL with the response fetched for it and every other URL with
      its earlier response; the caches of other names are exactly as before, and skipWaiting()
      was called. */
  lemma InstallSuccess(w: WorkerState, base: string, net: string -> NetworkOutcome)
    requires DistinctNames(w.caches)
    requires InstallSucceeds(base, net)
    ensures var r := Install(w, base, net);
      && DistinctNames(r.caches)
      && r.skipWaiting
      && (forall c: Cache :: c.name != CACHE_NAME ==> (c in r.caches <==> c in w.caches))
      && var before := Find(Open(w.caches, CACHE_NAME), CACHE_NAME).value;
        var entries := Find(r.caches, CACHE_NAME).value;
        && (forall u :: u in entries <==> u in before || u in ManifestUrls(base))
        && (forall u :: u in ManifestUrls(base) ==> u in entries && entries[u] == net(u).response.value)
        && (forall u :: u in before && u !in ManifestUrls(base) ==> u in entries && entries[u] == before[u])
  {
    InstallStores(w, base, net);
    var added := AddAll(Find(Open(w.caches, CACHE_NAME), CACHE_NAME).value, ManifestUrls(base), net).value;
    assert Find(Install(w, base, net).caches, CACHE_NAME).value == added;
  }

  /** When some manifest URL cannot be fetched acceptably, nothing is added: the storage is as
      after caches.open(CACHE_NAME) alone, and skipWaiting() is not called. */
  lemma InstallFailure(w: WorkerState, base: string, net: string -> NetworkOutcome)
    requires !InstallSucceeds(base, net)
    ensures Install(w, base, net) == WorkerState(Open(w.caches, CACHE_NAME), w.skipWaiting)
  {
  }

  /** Activate keeps exactly the caches named CACHE_NAME, with all their entries. */
  lemma ActivateKeepsCurrent(w: WorkerState)
    requires DistinctNames(w.caches)
    ensures var r := Activate(w);
      && DistinctNames(r.caches)
      && (forall c :: c in r.caches <==> c in w.caches && c.name == CACHE_NAME)
      && Find(r.caches, CACHE_NAME) == Find(w.caches, CACHE_NAME)
  {
    var r := Activate(w);
    var stale := StaleNames(Names(w.caches));
    WithoutDistinct(w.caches, stale);
    forall c ensures c in r.caches <==> c in w.caches && c.name == CACHE_NAME {
      WithoutMembers(w.caches, stale, c);
      if c in w.caches {
        var j :| 0 <= j < |w.caches| && w.caches[j] == c;
        assert Names(w.caches)[j] == c.name;
      }
    }
    match Find(w.caches, CACHE_NAME)
    case Some(entries) =>
      FindPresent(r.caches, CACHE_NAME, entries);
    case None =>
  }

  /** A request the worker does not intercept is answered NotHandled, leaves the state alone, and
      does not depend on the network. */
  lemma PassThrough(w: WorkerState, origin: string, request: Request, net: NetworkOutcome, other: NetworkOutcome)
    requires !Intercepts(origin, request)
    ensures Fetch(w, origin, request, net) == FetchStep(NotHandled, w)
    ensures Fetch(w, origin, request, net) == Fetch(w, origin, request, other)
  {
  }

  /** Cache first: when some cache holds the URL, the stored response is returned, the state is
      unchanged and the network is not consulted. */
  lemma CacheFirst(w: WorkerState, origin: string, request: Request, net: NetworkOutcome, other: NetworkOutcome)
    requires Intercepts(origin, request)
    requires exists c :: c in w.caches && request.url in c.entries
    ensures Fetch(w, origin, request, net) == FetchStep(FromCache(Match(w.caches, request.url).value), w)
    ensures Fetch(w, origin, request, net) == Fetch(w, origin, request, other)
    ensures exists c :: c in w.caches && request.url in c.entries && c.entries[request.url] == Match(w.caches, request.url).value
  {
    var i :| 0 <= i < |w.caches| && request.url in w.caches[i].entries
      && w.caches[i].entries[request.url] == Match(w.caches, request.url).value;
    assert w.caches[i] in w.caches;
  }

  /** On a miss, the network's answer is the handler's answer: a response is returned unchanged, a
      rejection propagates, and the state changes only when the response is cacheable. */
  lemma MissGoesToNetwork(w: WorkerState, origin: string, request: Request, net: NetworkOutcome)
    requires Intercepts(origin, request)
    requires forall c :: c in w.caches ==> request.url !in c.entries
    ensures var r := Fetch(w, origin, request, net);
      && r.result == (match net case Answered(response) => FromNetwork(response) case NetworkError(reason) => Failed(reason))
      && (r.state == w <==> !(net.Answered? && Cacheable(net.response)))
  {
    var r := Fetch(w, origin, request, net);
    if net.Answered? && Cacheable(net.response) {
      var withCurrent := Open(w.caches, CACHE_NAME);
      var entries := Find(withCurrent, CACHE_NAME).value;
      var stored := SetEntries(withCurrent, CACHE_NAME, entries[request.url := net.response.value]);
      SetEntriesMembers(withCurrent, CACHE_NAME, entries[request.url := net.response.value],
                        Cache(CACHE_NAME, entries[request.url := net.response.value]));
      assert r.state.caches == stored;
      assert Cache(CACHE_NAME, entries[request.url := net.response.value]) in stored;
      assert r.state.caches != w.caches;
    }
  }

  /** A cacheable miss stores the response under the request's URL in CACHE_NAME, keeps that
      cache's other entries, and leaves every other cache as it was. */
  lemma MissStores(w: WorkerState, origin: string, request: Request, net: NetworkOutcome)
    requires DistinctNames(w.caches)
    requires Intercepts(origin, request)
    requires forall c :: c in w.caches ==> request.url !in c.entries
    requires net.Answered? && Cacheable(net.response)
    ensures var s := Fetch(w, origin, request, net).state;
      && DistinctNames(s.caches)
      && Find(s.caches, CACHE_NAME).Some?
      && request.url in Find(s.caches, CACHE_NAME).value
      && Find(s.caches, CACHE_NAME).value[request.url] == net.response.value
      && Find(s.caches, CACHE_NAME).value ==
           Find(Open(w.caches, CACHE_NAME), CACHE_NAME).value[request.url := net.response.value]
      && (forall c: Cache :: c.name != CACHE_NAME ==> (c in s.caches <==> c in w.caches))
  {
    var withCurrent := Open(w.caches, CACHE_NAME);
    OpenDistinct(w.caches, CACHE_NAME);
    var s := Fetch(w, origin, request, net).state;
    assert s.caches == Put(withCurrent, CACHE_NAME, request.url, net.response.value);
    PutDistinct(withCurrent, CACHE_NAME, request.url, net.response.value);
    PutFind(withCurrent, CACHE_NAME, request.url, net.response.value);
    forall c: Cache | c.name != CACHE_NAME ensures c in s.caches <==> c in w.caches {
      PutOthers(withCurrent, CACHE_NAME, request.url, net.response.value, c);
    }
  }

  /** After a miss whose response was stored, the same GET is a hit: it returns the stored
      response, whatever the network would now do, and changes nothing. */
  lemma StoredThenHit(w: WorkerState, origin: string, request: Request, net: NetworkOutcome, later: NetworkOutcome)
    requires DistinctNames(w.caches)
    requires Intercepts(origin, request)
    requires forall c :: c in w.caches ==> request.url !in c.entries
    requires net.Answered? && Cacheable(net.response)
    ensures var s := Fetch(w, origin, request, net).state;
      Fetch(s, origin, request, later) == FetchStep(FromCache(net.response.value), s)
  {
    var s := Fetch(w, origin, request, net).state;
    MissStores(w, origin, request, net);
    var entries := Find(s.caches, CACHE_NAME).value;
    assert Cache(CACHE_NAME, entries) in s.caches;
    forall c | c in s.caches && request.url in c.entries ensures c.entries[request.url] == net.response.value {
      if c.name == CACHE_NAME {
        FindPresent(s.caches, CACHE_NAME, c.entries);
      }
    }
    MatchAgreeing(s.caches, request.url, net.response.value);
  }

  /** A URL that is a hit stays a hit after any fetch: a stored response is never dropped by the
      fetch handler, so it is served until a cache is deleted. */
  lemma FetchKeepsHits(w: WorkerState, origin: string, request: Request, net: NetworkOutcome, url: string)
    requires DistinctNames(w.caches)
    requires Match(w.caches, url).Some?
    ensures Match(Fetch(w, origin, request, net).state.caches, url).Some?
  {
    var s := Fetch(w, origin, request, net).state;
    if s != w {
      MissGoesToNetwork(w, origin, request, net);
      MissStores(w, origin, request, net);
      var holder :| holder in w.caches && url in holder.entries;
      if holder.name != CACHE_NAME {
        assert holder in s.caches;
      } else {
        FindPresent(w.caches, CACHE_NAME, holder.entries);
        assert Find(Open(w.caches, CACHE_NAME), CACHE_NAME).value == holder.entries;
        assert url in Find(s.caches, CACHE_NAME).value;
        assert Cache(CACHE_NAME, Find(s.caches, CACHE_NAME).value) in s.caches;
      }
    }
  }

  /** After a 'clearCache' message every lookup misses, so an intercepted request goes to the
      network. */
  lemma ClearedThenNetwork(w: WorkerState, origin: string, request: Request, net: NetworkOutcome)
    requires Intercepts(origin, request)
    ensures Fetch(Message(w, "clearCache"), origin, request, net).result ==
      match net case Answered(response) => FromNetwork(response) case NetworkError(reason) => Failed(reason)
  {
  }

  /** After a successful install followed by activation, every manifest URL of the worker's origin
      is served from the cache, without the network. */
  lemma InstalledShellServedOffline(w: WorkerState, base: string, origin: string, net: string -> NetworkOutcome,
                                    url: string, later: NetworkOutcome)
    requires DistinctNames(w.caches)
    requires InstallSucceeds(base, net)
    requires StartsWith(base, origin)
    requires url in ManifestUrls(base)
    ensures var s := Activate(Install(w, base, net));
      Fetch(s, origin, Request("GET", url), later) == FetchStep(FromCache(net(url).response.value), s)
  {
    var installed := Install(w, base, net);
    InstallSuccess(w, base, net);
    var s := Activate(installed);
    ActivateKeepsCurrent(installed);
    var entries := Find(installed.caches, CACHE_NAME).value;
    assert Cache(CACHE_NAME, entries) in s.caches;
    forall c | c in s.caches && url in c.entries ensures c.entries[url] == net(url).response.value {
      FindPresent(installed.caches, CACHE_NAME, c.entries);
    }
    MatchAgreeing(s.caches, url, net(url).response.value);
    StartsWithTransitive(url, base, origin);
  }

  /** Going through one more name adds it to the stale names unless it is CACHE_NAME. */
  lemma StaleNamesStep(names: seq<string>, i: nat)
    requires i < |names|
    ensures StaleNames(names[..i + 1]) == StaleNames(names[..i]) + (if names[i] != CACHE_NAME then {names[i]} else {})
  {
    assert names[..i + 1] == names[..i] + [names[i]];
    assert forall n :: n in names[..i] + [names[i]] <==> n in names[..i] || n == names[i];
  }

  /** One step of the activate loop: deleting the next name, unless it is CACHE_NAME, extends the
      deletion to one more name of the list. */
  lemma ActivateStep(initial: Storage, names: seq<string>, i: nat)
    requires i < |names|
    requires DistinctNames(Without(initial, StaleNames(names[..i])))
    ensures DistinctNames(Without(initial, StaleNames(names[..i + 1])))
    ensures names[i] != CACHE_NAME ==>
      Without(Without(initial, StaleNames(names[..i])), {names[i]}) == Without(initial, StaleNames(names[..i + 1]))
    ensures names[i] == CACHE_NAME ==> Without(initial, StaleNames(names[..i + 1])) == Without(initial, StaleNames(names[..i]))
  {
    StaleNamesStep(names, i);
    if names[i] != CACHE_NAME {
      WithoutOneMore(initial, StaleNames(names[..i]), names[i]);
    } else {
      assert StaleNames(names[..i + 1]) == StaleNames(names[..i]);
    }
  }

  // ---------------------------------------------------------------------------------------------
  // The worker
  // ---------------------------------------------------------------------------------------------

  /** The running worker: its origin and base URL, the cache storage it shares with earlier
      versions, and whether it has called skipWaiting(). */
  class ServiceWorker {
    const origin: string
    const base: string
    var caches: Storage
    var skipWaitingCalled: bool

    ghost predicate Valid()
      reads this
    {
      DistinctNames(caches)
    }

    function State(): WorkerState
      reads this
    {
      WorkerState(caches, skipWaitingCalled)
    }

    /** A worker started over the caches left by earlier versions. */
    constructor (origin: string, base: string, existing: Storage)
      requires DistinctNames(existing)
      ensures Valid() && this.origin == origin && this.base == base
      ensures State() == WorkerState(existing, false)
    {
      this.origin := origin;
      this.base := base;
      caches := existing;
      skipWaitingCalled := false;
    }

    /** The 'install' event. */
    method OnInstall(net: string -> NetworkOutcome)
      requires Valid()
      modifies this
      ensures Valid() && State() == Install(old(State()), base, net)
    {
      OpenDistinct(caches, CACHE_NAME);
      caches := Open(caches, CACHE_NAME);
      var added := AddAll(Find(caches, CACHE_NAME).value, ManifestUrls(base), net);
      if added.Some? {
        SetEntriesDistinct(caches, CACHE_NAME, added.value);
        caches := SetEntries(caches, CACHE_NAME, added.value);
        skipWaitingCalled := true;
      }
    }

    /** The 'activate' event: every name of `caches.keys()` other than CACHE_NAME is deleted. */
    method OnActivate()
      requires Valid()
      modifies this
      ensures Valid() && State() == Activate(old(State()))
    {
      ghost var initial := caches;
      var cacheNames := Names(caches);
      WithoutNone(caches, StaleNames(cacheNames[..0]));
      for i := 0 to |cacheNames|
        invariant DistinctNames(caches)
        invariant caches == Without(initial, StaleNames(cacheNames[..i]))
        invariant skipWaitingCalled == old(skipWaitingCalled)
      {
        var name := cacheNames[i];
        ActivateStep(initial, cacheNames, i);
        if name != CACHE_NAME {
          DeleteCache(name);
        }
      }
      assert cacheNames[..|cacheNames|] == cacheNames;
    }

    /** `caches.delete(name)`: the cache of that name, if any, is removed. */
    method DeleteCache(name: string)
      requires Valid()
      modifies this
      ensures Valid() && caches == Without(old(caches), {name})
      ensures skipWaitingCalled == old(skipWaitingCalled)
    {
      WithoutDistinct(caches, {name});
      caches := Without(caches, {name});
    }

    /** The 'fetch' event for `request`, with `net` the outcome a network fetch would have. */
    method OnFetch(request: Request, net: NetworkOutcome) returns (result: FetchResult)
      requires Valid()
      modifies this
      ensures Valid() && Fetch(old(State()), origin, request, net) == FetchStep(result, State())
    {
      if request.httpMethod != "GET" {
        return NotHandled;
      }
      if !StartsWith(request.url, origin) {
        return NotHandled;
      }
      var cached := Match(caches, request.url);
      if cached.Some? {
        return FromCache(cached.value);
      }
      match net
      case NetworkError(reason) =>
        result := Failed(reason);
      case Answered(response) =>
        if !Cacheable(response) {
          return FromNetwork(response);
        }
        OpenDistinct(caches, CACHE_NAME);
        caches := Open(caches, CACHE_NAME);
        var entries := Find(caches, CACHE_NAME).value[request.url := response.value];
        SetEntriesDistinct(caches, CACHE_NAME, entries);
        caches := Put(caches, CACHE_NAME, request.url, response.value);
        result := FromNetwork(response);
    }

    /** The 'message' event carrying `{action: action}`. */
    method OnMessage(action: string)
      requires Valid()
      modifies this
      ensures Valid() && State() == Message(old(State()), action)
    {
      if action == "skipWaiting" {
        skipWaitingCalled := true;
      }
      if action == "clearCache" {
        DeleteAllCaches();
      }
    }

    /** The 'clearCache' branch: every name of `caches.keys()` is deleted. */
    method DeleteAllCaches()
      requires Valid()
      modifies this
      ensures Valid() && caches == [] && skipWaitingCalled == old(skipWaitingCalled)
    {
      var cacheNames := Names(caches);
      ghost var deleted: set<string> := {};
      WithoutNone(caches, deleted);
      var i := 0;
      while i < |cacheNames|
        invariant 0 <= i <= |cacheNames|
        invariant DistinctNames(caches)
        invariant skipWaitingCalled == old(skipWaitingCalled)
        invariant caches == Without(old(caches), deleted)
        invariant forall k :: 0 <= k < i ==> cacheNames[k] in deleted
      {
        var name := cacheNames[i];
        WithoutOneMore(old(caches), deleted, name);
        DeleteCache(name);
        deleted := deleted + {name};
        assert forall k :: 0 <= k <= i ==> cacheNames[k] in deleted;
        i := i + 1;
      }
      WithoutAll(old(caches), deleted);
    }
  }
}
