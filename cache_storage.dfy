/** The browser's Cache Storage as the worker uses it, after the CacheStorage and Cache interfaces
    of the W3C Service Workers specification: an ordered list of named caches (creation order,
    the order of `caches.keys()`), each a map from request URL to stored response. */
module CacheStorage {
  import opened Wrappers

  /** A response: its HTTP status and its type ("basic", "cors", "opaque", "error", ...). */
  datatype Response = Response(status: int, responseType: string)

  /** How a network fetch settles: with a response (None for a missing one) or rejected. */
  datatype NetworkOutcome = Answered(response: Option<Response>) | NetworkError(reason: string)

  /** One named cache. */
  datatype Cache = Cache(name: string, entries: map<string, Response>)

  /** The name-to-cache map, in creation order. */
  type Storage = seq<Cache>

  /** No two caches share a name. */
  predicate DistinctNames(s: Storage) {
    s == [] || ((forall c :: c in s[1..] ==> c.name != s[0].name) && DistinctNames(s[1..]))
  }

  /** `caches.keys()`: the cache names in creation order. */
  function Names(s: Storage): (names: seq<string>)
    ensures |names| == |s|
    ensures forall i :: 0 <= i < |s| ==> names[i] == s[i].name
  {
    if s == [] then [] else [s[0].name] + Names(s[1..])
  }

  /** The entries of the cache called `name`, if there is one. */
  function Find(s: Storage, name: string): (r: Option<map<string, Response>>)
    ensures r.None? <==> forall c :: c in s ==> c.name != name
    ensures r.Some? ==> Cache(name, r.value) in s
  {
    if s == [] then None
    else if s[0].name == name then Some(s[0].entries)
    else Find(s[1..], name)
  }

  /** `caches.open(name)`: the existing cache of that name, or a new empty one added at the end. */
  function Open(s: Storage, name: string): (r: Storage)
    ensures Find(r, name).Some?
    ensures Find(s, name).Some? ==> r == s
    ensures Find(s, name).None? ==> r == s + [Cache(name, map[])]
  {
    if Find(s, name).Some? then s else s + [Cache(name, map[])]
  }

  /** The storage after `caches.delete(n)` for every name n in `doomed`. */
  function Without(s: Storage, doomed: set<string>): (r: Storage)
    ensures |r| <= |s|
    ensures forall i :: 0 <= i < |r| ==> r[i].name !in doomed
  {
    if s == [] then []
    else (if s[0].name in doomed then [] else [s[0]]) + Without(s[1..], doomed)
  }

  /** The storage with the entries of the cache called `name` replaced by `entries`. */
  function SetEntries(s: Storage, name: string, entries: map<string, Response>): (r: Storage)
    ensures Names(r) == Names(s)
  {
    if s == [] then []
    else [if s[0].name == name then Cache(name, entries) else s[0]] + SetEntries(s[1..], name, entries)
  }

  /** `cache.put(url, response)` on the cache called `name`; nothing happens if there is none. */
  function Put(s: Storage, name: string, url: string, response: Response): (r: Storage)
    ensures Names(r) == Names(s)
  {
    match Find(s, name)
    case Some(entries) => SetEntries(s, name, entries[url := response])
    case None => s
  }

  /** `caches.match(url)`: the response stored for `url` in the first cache, in creation order,
      that holds one; a miss when none does. */
  function Match(s: Storage, url: string): (r: Option<Response>)
    ensures r.None? <==> forall c :: c in s ==> url !in c.entries
    ensures r.Some? ==> exists i ::
      && 0 <= i < |s| && url in s[i].entries && s[i].entries[url] == r.value
      && forall j :: 0 <= j < i ==> url !in s[j].entries
  {
    if s == [] then None
    else if url in s[0].entries then Some(s[0].entries[url])
    else
      var rest := Match(s[1..], url);
      assert rest.Some? ==> exists i ::
        && 0 < i < |s| && url in s[i].entries && s[i].entries[url] == rest.value
        && forall j :: 0 <= j < i ==> url !in s[j].entries
      by {
        if rest.Some? {
          var k :|
            && 0 <= k < |s[1..]| && url in s[1..][k].entries && s[1..][k].entries[url] == rest.value
            && forall j :: 0 <= j < k ==> url !in s[1..][j].entries;
          assert forall j :: 0 <= j < k + 1 ==> url !in s[j].entries by {
            forall j | 0 <= j < k + 1 ensures url !in s[j].entries {
              if j > 0 {
                assert s[j] == s[1..][j - 1];
              }
            }
          }
        }
      }
      rest
  }

  // ---------------------------------------------------------------------------------------------
  // Cache.addAll (section 5.4.4 of the W3C Service Workers specification)
  // ---------------------------------------------------------------------------------------------

  /** A fetch that addAll accepts: it settled with a response that is not a network error, whose
      status is an ok status (200-299) and is not 206 (partial content). */
  predicate Fetched(outcome: NetworkOutcome) {
    && outcome.Answered?
    && outcome.response.Some?
    && outcome.response.value.responseType != "error"
    && 200 <= outcome.response.value.status <= 299
    && outcome.response.value.status != 206
  }

  /** No URL is listed twice (a batch that puts the same request twice is rejected). */
  predicate NoDuplicates(urls: seq<string>) {
    forall i, j :: 0 <= i < j < |urls| ==> urls[i] != urls[j]
  }

  /** Every URL of the batch was fetched with an acceptable response. */
  predicate AllFetched(urls: seq<string>, net: string -> NetworkOutcome) {
    forall u :: u in urls ==> Fetched(net(u))
  }

  /** The entries after storing each URL's fetched response, one after the other. */
  function PutAll(entries: map<string, Response>, urls: seq<string>, net: string -> NetworkOutcome): (r: map<string, Response>)
    requires AllFetched(urls, net)
    decreases |urls|
    ensures r.Keys == entries.Keys + set u | u in urls
    ensures forall u :: u in urls ==> r[u] == net(u).response.value
    ensures forall u :: u in entries && u !in urls ==> r[u] == entries[u]
  {
    if urls == [] then entries
    else
      assert forall u :: u in urls[1..] ==> u in urls;
      PutAll(entries[urls[0] := net(urls[0]).response.value], urls[1..], net)
  }

  /** `cache.addAll(urls)` on a cache holding `entries`: all or nothing. When every fetch is
      acceptable and no URL repeats, the new entries; otherwise the operation rejects and the
      cache is left as it was. */
  function AddAll(entries: map<string, Response>, urls: seq<string>, net: string -> NetworkOutcome)
    : (r: Option<map<string, Response>>)
    ensures r.Some? <==> NoDuplicates(urls) && AllFetched(urls, net)
    ensures r.Some? ==> forall u :: u in urls ==> u in r.value && r.value[u] == net(u).response.value
    ensures r.Some? ==> forall u :: u in entries && u !in urls ==> u in r.value && r.value[u] == entries[u]
    ensures r.Some? ==> r.value.Keys == entries.Keys + set u | u in urls
  {
    if NoDuplicates(urls) && AllFetched(urls, net) then Some(PutAll(entries, urls, net)) else None
  }

  // ---------------------------------------------------------------------------------------------
  // Lemmas
  // ---------------------------------------------------------------------------------------------

  /** With distinct names, a cache present in the storage is the one Find returns. */
  lemma {:induction false} FindPresent(s: Storage, name: string, entries: map<string, Response>)
    requires DistinctNames(s)
    requires Cache(name, entries) in s
    ensures Find(s, name) == Some(entries)
  {
    if s[0] != Cache(name, entries) {
      assert Cache(name, entries) in s[1..];
      FindPresent(s[1..], name, entries);
    }
  }

  /** The caches that survive the deletions are exactly those whose name was not deleted. */
  lemma {:induction false} WithoutMembers(s: Storage, doomed: set<string>, c: Cache)
    ensures c in Without(s, doomed) <==> c in s && c.name !in doomed
  {
    if s != [] {
      WithoutMembers(s[1..], doomed, c);
      assert s == [s[0]] + s[1..];
    }
  }

  /** Deleting caches keeps the names distinct. */
  lemma {:induction false} WithoutDistinct(s: Storage, doomed: set<string>)
    requires DistinctNames(s)
    ensures DistinctNames(Without(s, doomed))
  {
    if s != [] {
      WithoutDistinct(s[1..], doomed);
      var rest := Without(s[1..], doomed);
      if s[0].name !in doomed {
        var r := [s[0]] + rest;
        assert r[1..] == rest;
        forall c | c in rest ensures c.name != s[0].name {
          WithoutMembers(s[1..], doomed, c);
        }
      } else {
        assert Without(s, doomed) == rest;
      }
    }
  }

  /** Two rounds of deletions are one round deleting both sets of names. */
  lemma {:induction false} WithoutTwice(s: Storage, first: set<string>, second: set<string>)
    ensures Without(Without(s, first), second) == Without(s, first + second)
  {
    if s == [] {
      assert Without(s, first) == [];
    } else {
      WithoutTwice(s[1..], first, second);
      var once := Without(s, first);
      if s[0].name in first {
        assert once == Without(s[1..], first);
      } else {
        assert once == [s[0]] + Without(s[1..], first);
        assert once[0] == s[0] && once[1..] == Without(s[1..], first);
      }
    }
  }

  /** Deleting one more name after a round of deletions is one round deleting all of them, and
      keeps the names distinct. */
  lemma WithoutOneMore(s: Storage, doomed: set<string>, name: string)
    requires DistinctNames(Without(s, doomed))
    ensures Without(Without(s, doomed), {name}) == Without(s, doomed + {name})
    ensures DistinctNames(Without(s, doomed + {name}))
  {
    WithoutTwice(s, doomed, {name});
    WithoutDistinct(Without(s, doomed), {name});
  }

  /** Deleting every name the storage holds leaves it empty. */
  lemma WithoutAll(s: Storage, doomed: set<string>)
    requires forall i :: 0 <= i < |s| ==> s[i].name in doomed
    ensures Without(s, doomed) == []
  {
    var r := Without(s, doomed);
    if r != [] {
      WithoutMembers(s, doomed, r[0]);
    }
  }

  /** Deleting only names the storage does not hold changes nothing. */
  lemma {:induction false} WithoutNone(s: Storage, doomed: set<string>)
    requires forall i :: 0 <= i < |s| ==> s[i].name !in doomed
    ensures Without(s, doomed) == s
  {
    if s != [] {
      WithoutNone(s[1..], doomed);
      assert [s[0]] + s[1..] == s;
    }
  }

  /** After replacing the entries of `name`, each cache is either an untouched cache of another
      name or the cache `name` with the new entries. */
  lemma {:induction false} SetEntriesMembers(s: Storage, name: string, entries: map<string, Response>, c: Cache)
    ensures c in SetEntries(s, name, entries) <==>
      (c in s && c.name != name) || (c == Cache(name, entries) && Find(s, name).Some?)
  {
    if s != [] {
      SetEntriesMembers(s[1..], name, entries, c);
      assert s == [s[0]] + s[1..];
    }
  }

  /** Replacing entries keeps the names distinct. */
  lemma {:induction false} SetEntriesDistinct(s: Storage, name: string, entries: map<string, Response>)
    requires DistinctNames(s)
    ensures DistinctNames(SetEntries(s, name, entries))
  {
    if s != [] {
      SetEntriesDistinct(s[1..], name, entries);
      var r := SetEntries(s, name, entries);
      assert r[1..] == SetEntries(s[1..], name, entries);
      forall c | c in r[1..] ensures c.name != r[0].name {
        SetEntriesMembers(s[1..], name, entries, c);
        if c.name == name {
          assert Find(s[1..], name).Some?;
        }
      }
    }
  }

  /** After replacing the entries of an existing cache, that cache is found with exactly the new
      entries, the names stay distinct, and the caches of other names are exactly as before. */
  lemma SetEntriesFind(s: Storage, name: string, entries: map<string, Response>)
    requires DistinctNames(s)
    requires Find(s, name).Some?
    ensures DistinctNames(SetEntries(s, name, entries))
    ensures Find(SetEntries(s, name, entries), name) == Some(entries)
    ensures forall c: Cache :: c.name != name ==> (c in SetEntries(s, name, entries) <==> c in s)
  {
    SetEntriesDistinct(s, name, entries);
    SetEntriesMembers(s, name, entries, Cache(name, entries));
    FindPresent(SetEntries(s, name, entries), name, entries);
    forall c: Cache | c.name != name ensures c in SetEntries(s, name, entries) <==> c in s {
      SetEntriesMembers(s, name, entries, c);
    }
  }

  /** Storing a response keeps the names distinct. */
  lemma PutDistinct(s: Storage, name: string, url: string, response: Response)
    requires DistinctNames(s)
    ensures DistinctNames(Put(s, name, url, response))
  {
    if Find(s, name).Some? {
      SetEntriesDistinct(s, name, Find(s, name).value[url := response]);
    }
  }

  /** After storing a response in an existing cache, that cache holds it under the URL, next to
      the entries it already had. */
  lemma PutFind(s: Storage, name: string, url: string, response: Response)
    requires DistinctNames(s)
    requires Find(s, name).Some?
    ensures Find(Put(s, name, url, response), name) == Some(Find(s, name).value[url := response])
  {
    SetEntriesFind(s, name, Find(s, name).value[url := response]);
  }

  /** Storing a response in one cache leaves every cache of another name as it was. */
  lemma PutOthers(s: Storage, name: string, url: string, response: Response, c: Cache)
    requires c.name != name
    ensures c in Put(s, name, url, response) <==> c in s
  {
    if Find(s, name).Some? {
      SetEntriesMembers(s, name, Find(s, name).value[url := response], c);
    }
  }

  /** Opening a cache leaves every cache of another name as it was. */
  lemma OpenOthers(s: Storage, name: string, c: Cache)
    requires c.name != name
    ensures c in Open(s, name) <==> c in s
  {
  }

  /** Opening a cache keeps the names distinct. */
  lemma {:induction false} OpenDistinct(s: Storage, name: string)
    requires DistinctNames(s)
    ensures DistinctNames(Open(s, name))
  {
    if Find(s, name).None? {
      AppendDistinct(s, Cache(name, map[]));
    }
  }

  /** Appending a cache with a fresh name keeps the names distinct. */
  lemma {:induction false} AppendDistinct(s: Storage, c: Cache)
    requires DistinctNames(s)
    requires forall d :: d in s ==> d.name != c.name
    ensures DistinctNames(s + [c])
  {
    if s != [] {
      assert (s + [c])[1..] == s[1..] + [c];
      AppendDistinct(s[1..], c);
    } else {
      assert [c][1..] == [];
    }
  }

  /** When every cache that holds `url` holds the same response, that response is the match. */
  lemma MatchAgreeing(s: Storage, url: string, response: Response)
    requires exists c :: c in s && url in c.entries
    requires forall c :: c in s && url in c.entries ==> c.entries[url] == response
    ensures Match(s, url) == Some(response)
  {
    var r := Match(s, url);
    var i :| 0 <= i < |s| && url in s[i].entries && s[i].entries[url] == r.value;
    assert s[i] in s;
  }
}
