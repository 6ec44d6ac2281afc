# PWA camera: a Dafny model

This project models the two scripts of a small progressive web app that takes photos with the
device camera and keeps working offline.

- **The camera page (`app.js`).** The page holds one camera stream at a time. It can open,
  close and switch the stream between the rear camera (`environment`) and the front camera
  (`user`). It checks whether the device has a front camera, captures photos into a gallery held
  in memory, and deletes photos by id. In `camera_app.dfy`, the page's module-level variables
  become the fields of the class `CameraSession`, and each handler becomes a method of that class.
  - A stream is a sequence of `Track` objects, each with a `live` flag (`media_devices.dfy`).
  - The ghost set `acquired` records every track the page was ever given. The class invariant
    then says that no track outside the current stream is still live.
  - The front-camera test, the error classification and the gallery filter are pure functions
    with lemmas about them.
- **The offline worker (`sw.js`).** The worker caches the app shell at install time and deletes
  older cache generations when it activates. It answers requests cache-first and
  stores cacheable network answers. It intercepts GET requests whose URL starts with the
  worker's origin string. It obeys two messages, `skipWaiting` and `clearCache`.
  - `cache_storage.dfy` models the browser's Cache Storage as described in the W3C Service
    Workers specification. It is an ordered list of named caches (creation order, the order of
    `caches.keys()`), each a map from URL to response. It includes the all-or-nothing
    `Cache.addAll` of section 5.4.4.
  - In `service_worker.dfy`, the pure functions `Install`, `Activate`, `Fetch` and `Message`
    state what each handler does to the worker's state. The class `ServiceWorker` performs the
    handlers on its fields, with loops where the source loops over `caches.keys()`. Each method
    is proved to agree with its function. Lemmas state the caching strategy's guarantees.

Browser services are inputs to the model:
- `getUserMedia` is a function from facing mode to outcome: a stream with the given track kinds,
  or a DOMException name and message.
- `enumerateDevices` is a device list or a failure.
- A network fetch is an outcome: a response, a missing response, or a rejection.
- The photo's id, image data and timestamp are parameters.

The model follows the code in these places, where a reader might expect something else:
- The message actions are spelled `skipWaiting` and `clearCache`.
- The manifest has four entries, including `./index.html`.
- `caches.match` searches every cache, in creation order, and not only the current generation.
  So a response left in an older cache can still be served until activation deletes that cache.
- `deletePhoto` removes every photo carrying the id. Ids come from `Date.now()` and need not be
  unique.
- A failed install adds no entry, but `caches.open` runs before `addAll`: when no
  `pwa-camera-v1` cache existed, an empty one is left behind; an existing one keeps its entries.
  The rejection is swallowed by the `catch`.
- The fetch handler's origin test is a string-prefix test on the URL, not a comparison of
  origins. With origin `https://a.com`, the URLs `https://a.com.evil.org/x` and
  `https://a.com:8443/x` are intercepted too.
- `switchCamera` flips the facing mode before reopening, so the flip stays even when the reopen
  fails.

## Model

| member | source | states |
|---|---|---|
| CameraApp.Toggle | app.js:162 | switching always changes the facing mode (environment to user and user to environment) |
| CameraApp.ToggleTwice | app.js:161-167 | two switches restore the original facing mode |
| CameraApp.VideoInputs | app.js:54 | the filtered list holds exactly the devices of kind 'videoinput' and is never longer than the input |
| CameraApp.VideoInputsAppend | app.js:54 | filtering a concatenation is the concatenation of the filtered parts |
| CameraApp.LabelHintsFront | app.js:61-63 | definition: the lower-cased label contains 'front' or 'user' |
| CameraApp.HasFrontCamera | app.js:60-64 | an empty device list gives false; a true result implies the list holds a video input |
| CameraApp.TwoVideoInputsFound | app.js:54-60 | more than one filtered device yields two distinct positions of the list holding video inputs |
| CameraApp.TwoVideoInputsCounted | app.js:54-60 | two distinct positions holding video inputs leave more than one filtered device |
| CameraApp.TwoVideoInputs | app.js:54-60 | more than one filtered device exactly when two distinct positions of the list hold video inputs |
| CameraApp.HasFrontCameraIff | app.js:54-64 | the test is true exactly when two positions hold video inputs or some video input's lower-cased label contains 'front' or 'user' |
| CameraApp.OtherKindsIgnored | app.js:54-64 | inserting a device of another kind anywhere never changes the result |
| CameraApp.HintIgnoresCase | app.js:61-63 | a label containing any capitalisation of 'front' or 'user' makes the test true |
| Strings.StartsWith | sw.js:101 | definition: `startsWith`, the string's first characters are the prefix |
| Strings.Includes | app.js:62-63 | definition: `includes`, the part occurs at some position of the string |
| Strings.ToLower | app.js:62 | lower-casing keeps the length and lowers each character |
| Strings.IncludesLowered | app.js:62-63 | a string that contains a part still contains it after both are lower-cased |
| Strings.StartsWithTransitive | sw.js:101 | a URL starting with the base URL, which starts with the origin, starts with the origin |
| CameraApp.ClassifyError | app.js:120-128 | each of NotAllowedError, NotFoundError and NotReadableError gives its own error and only that name does; any other name gives the unknown error carrying the message |
| CameraApp.WithoutId | app.js:246 | no survivor carries the deleted id and the gallery never grows |
| CameraApp.WithoutIdAppend | app.js:246 | the survivors of a concatenation are the survivors of each part, in order |
| CameraApp.WithoutIdMembers | app.js:246 | a photo survives exactly when it was in the gallery and its id differs |
| CameraApp.WithoutAbsentId | app.js:245-246 | deleting an id no photo carries leaves the gallery identical |
| CameraApp.RemoveOnly | app.js:246 | deleting the id of one photo whose neighbours keep their photos removes exactly that photo |
| CameraApp.DeleteOne | app.js:245-246 | with unique ids, deleting the id of the photo at position k removes exactly that photo, keeps the others in order, and shortens the gallery by one |
| CameraApp.AppendKeepsUnique | app.js:196-197 | appending a photo with a new id keeps the ids unique (used by CapturePhoto) |
| CameraApp.StopTracks | app.js:138-141 | after the loop every track of the stream is stopped |
| MediaDevices.Track.Stop | app.js:139 | a stopped track is no longer live |
| MediaDevices.NewStream | app.js:98 | a granted stream consists of new, live tracks of the requested kinds |
| CameraApp.CameraSession.constructor | app.js:34-37 | the page starts with no stream, the rear camera, no front camera known, an empty gallery, and no track acquired yet |
| CameraApp.CameraSession.CheckForFrontCamera | app.js:48-73 | with a device list it stores and returns the front-camera test; when enumeration fails it returns false and leaves the stored flag alone |
| CameraApp.CameraSession.CloseCamera | app.js:135-156 | with a stream, every one of its tracks is stopped and the stream is dropped; without one nothing changes, so a second call is a no-op; no track is left live |
| CameraApp.CameraSession.OpenCamera | app.js:82-130 | every earlier track is stopped; a refusal reports the classified error, holds no stream and keeps the facing mode and the front-camera flag; a grant holds exactly the new tracks live and re-runs the front-camera test; the recorded tracks grow by the new stream's tracks on a grant and stay the same on a refusal, so calls can be chained |
| CameraApp.CameraSession.SwitchCamera | app.js:161-167 | the facing mode is toggled whether or not a stream was open, then the camera is reopened in the new mode: every earlier track is stopped; a refusal reports the classified error, holds no stream and keeps the front-camera flag; a grant holds exactly the new tracks, fresh and of the requested kinds, live and re-runs the front-camera test; the recorded tracks grow by exactly the new stream's tracks |
| CameraApp.CameraSession.CapturePhoto | app.js:176-205 | without a stream the gallery is unchanged; with one exactly one photo is appended and earlier photos are untouched; a new id keeps unique ids unique |
| CameraApp.CameraSession.DeletePhoto | app.js:245-249 | the gallery becomes the photos whose id differs, in their order |
| CameraApp.CameraSession.OnOpenCameraClick | app.js:256-262 | with a stream the click closes it, stopping every track and keeping the front-camera flag; without one it opens with OpenCamera's outcomes: a refusal reports the classified error, holds no stream and keeps the flag; a grant holds exactly the fresh tracks of the requested kinds live and re-runs the front-camera test; the recorded tracks stay the same on a close or a refusal and grow by exactly the new stream's tracks on a grant |
| CameraApp.CameraSession.OnBeforeUnload | app.js:268-272 | leaving the page stops every track of the open stream, drops it and leaves no track live, keeping the gallery, facing mode and front-camera flag; with no stream open it changes nothing |
| OfflineWorker.Resolve | sw.js:12-17 | a manifest path resolves to a URL under the worker's base URL |
| OfflineWorker.ManifestUrls | sw.js:12-17 | every manifest URL lies under the worker's base URL, and the four URLs are pairwise different whatever the base, so addAll never rejects them as duplicates |
| CacheStorage.Names | sw.js:61 | `caches.keys()` lists the name of each cache, in order |
| CacheStorage.Find | sw.js:32 | a cache is found exactly when one has the name, and the entries found belong to it |
| CacheStorage.FindPresent | sw.js:32 | with distinct names, a cache present in storage is the one found |
| CacheStorage.Open | sw.js:32 | `caches.open` returns the existing cache or appends an empty one, so afterwards the name exists |
| CacheStorage.OpenDistinct | sw.js:32 | opening a cache keeps the names distinct |
| CacheStorage.OpenOthers | sw.js:32 | `caches.open` leaves every cache of another name as it was, in both directions |
| CacheStorage.AppendDistinct | sw.js:32 | appending a cache with a new name keeps the names distinct |
| CacheStorage.Without | sw.js:68 | after `caches.delete` of a set of names no remaining cache has one of them |
| CacheStorage.WithoutMembers | sw.js:64-71 | the caches that survive deletion are exactly those whose name was not deleted |
| CacheStorage.WithoutDistinct | sw.js:64-71 | deleting caches keeps the names distinct |
| CacheStorage.WithoutTwice | sw.js:64-71 | two rounds of deletion equal one round of both, so the order of the concurrent deletions does not matter |
| CacheStorage.WithoutOneMore | sw.js:64-71 | deleting one more name after a round of deletions equals one round deleting all of them, and keeps the names distinct |
| CacheStorage.WithoutAll | sw.js:170-174 | deleting every name the storage holds leaves it empty |
| CacheStorage.WithoutNone | sw.js:64-71 | deleting names the storage does not hold changes nothing |
| CacheStorage.SetEntries | sw.js:134 | replacing one cache's entries keeps every name in place |
| CacheStorage.SetEntriesMembers | sw.js:134 | after the replacement each cache is either an untouched cache of another name or the named cache with the new entries |
| CacheStorage.SetEntriesDistinct | sw.js:134 | replacing entries keeps the names distinct |
| CacheStorage.SetEntriesFind | sw.js:36 | after replacing an existing cache's entries, that cache is found with exactly the new entries, the names stay distinct, and the caches of other names are exactly as before |
| CacheStorage.Put | sw.js:134 | `cache.put` keeps every name in place |
| CacheStorage.PutDistinct | sw.js:134 | `cache.put` keeps the names distinct |
| CacheStorage.PutFind | sw.js:131-134 | after `cache.put` the cache holds the response under the URL next to its earlier entries |
| CacheStorage.PutOthers | sw.js:131-134 | `cache.put` leaves every cache of another name as it was |
| CacheStorage.Match | sw.js:109 | `caches.match` misses exactly when no cache holds the URL; a hit is the response stored by the first cache, in creation order, that holds the URL |
| CacheStorage.MatchAgreeing | sw.js:109-115 | when every cache holding the URL stores the same response, that response is the match |
| CacheStorage.PutAll | sw.js:36 | storing a batch puts each fetched response under its URL and keeps the other entries |
| CacheStorage.AddAll | sw.js:36 | `addAll` succeeds exactly when every fetch is acceptable and no URL repeats; on success every URL maps to its response and other entries stay |
| CacheStorage.Fetched | sw.js:36 | definition: addAll accepts a fetch that settled with a response that is not a network error, with an ok status (200-299) other than 206 |
| OfflineWorker.Install | sw.js:27-47 | after install the cache pwa-camera-v1 exists; skipWaiting() is requested exactly when every manifest URL was fetched acceptably |
| OfflineWorker.InstallStores | sw.js:31-37 | on success pwa-camera-v1 holds exactly the result of `addAll` over its earlier entries, the caches of other names are exactly as before, and the names stay distinct |
| OfflineWorker.InstallSuccess | sw.js:31-42 | after a successful install pwa-camera-v1 holds exactly its earlier URLs and the manifest URLs, each manifest URL with its fetched response and each other URL with its earlier response; the caches of other names are exactly as before (both directions), and skipWaiting() is requested |
| OfflineWorker.InstallFailure | sw.js:31-46 | a failed install adds nothing beyond opening the cache, and skipWaiting() is not requested |
| OfflineWorker.StaleNames | sw.js:65-66 | definition: the listed cache names other than pwa-camera-v1 |
| OfflineWorker.Activate | sw.js:57-79 | after activation every remaining cache is named pwa-camera-v1 and the skip flag is untouched |
| OfflineWorker.ActivateKeepsCurrent | sw.js:61-72 | activation keeps exactly the caches named pwa-camera-v1, with all their entries |
| OfflineWorker.StaleNamesStep | sw.js:65-69 | each listed name other than pwa-camera-v1 is added to the deleted names |
| OfflineWorker.ActivateStep | sw.js:64-71 | deleting the next listed name, unless it is pwa-camera-v1, equals deleting the stale names of the longer prefix in one round, and keeps the names distinct |
| OfflineWorker.Intercepts | sw.js:96-103 | definition: the request is a GET and its URL starts with the origin string |
| OfflineWorker.InterceptsByPrefix | sw.js:101 | every URL extending the origin string is intercepted, including URLs of other hosts or ports |
| OfflineWorker.Cacheable | sw.js:123 | definition: the response exists, its status is 200 and its type is not 'error' |
| OfflineWorker.Fetch | sw.js:92-149 | a request is left unhandled exactly when it is not a GET or its URL does not start with the origin string; it is served from the cache exactly when intercepted and cached; the state changes only on an intercepted miss with a cacheable answer |
| OfflineWorker.PassThrough | sw.js:96-103 | a request that is not a GET, or whose URL does not start with the origin string, is not handled, changes nothing and does not depend on the network |
| OfflineWorker.CacheFirst | sw.js:109-115 | when some cache holds the URL, a stored response is returned, the state is unchanged and the network is not consulted |
| OfflineWorker.MissGoesToNetwork | sw.js:117-146 | on a miss the network's answer, or its rejection, is returned unchanged, and the state changes exactly when the answer is cacheable |
| OfflineWorker.MissStores | sw.js:123-135 | after a cacheable miss pwa-camera-v1 holds exactly its earlier entries with the response added under the URL, and every cache of another name is exactly as before |
| OfflineWorker.FetchKeepsHits | sw.js:106-146 | a URL that some cache holds is still held after any fetch, so a cached response stays servable until a cache is deleted |
| OfflineWorker.StoredThenHit | sw.js:109-135 | after a miss whose response was stored, the same GET is a hit that returns that response whatever the network would do |
| OfflineWorker.Message | sw.js:159-177 | 'skipWaiting' only sets the flag, 'clearCache' only empties the storage, any other action changes nothing |
| OfflineWorker.ClearedThenNetwork | sw.js:168-176 | after 'clearCache' every intercepted request goes to the network |
| OfflineWorker.InstalledShellServedOffline | sw.js:27-115 | after a successful install and an activation, every manifest URL of the origin is served from the cache without the network |
| OfflineWorker.ServiceWorker.constructor | sw.js:8-17 | a worker starts over the caches left by earlier versions, with skipWaiting() not yet called |
| OfflineWorker.ServiceWorker.OnInstall | sw.js:27-47 | the install handler changes the worker's state as Install says and keeps the names distinct |
| OfflineWorker.ServiceWorker.DeleteCache | sw.js:68 | `caches.delete(name)` removes the cache of that name, keeps the names distinct and leaves the skip flag alone |
| OfflineWorker.ServiceWorker.OnActivate | sw.js:57-79 | deleting the listed names one by one leaves the state Activate describes |
| OfflineWorker.ServiceWorker.OnFetch | sw.js:92-149 | the answer and the new state are those Fetch describes |
| OfflineWorker.ServiceWorker.OnMessage | sw.js:159-177 | the new state is the one Message describes |
| OfflineWorker.ServiceWorker.DeleteAllCaches | sw.js:168-175 | deleting every listed name leaves no cache |

## Left out

- DOM and UI work is not modelled: video element wiring, class toggles, button texts, `alert`, `console`, and the rendering in `displayPhotos`. It holds no state beyond what the model keeps.
- Canvas drawing and JPEG encoding are not modelled. The photo's data URL is an opaque parameter of `CapturePhoto`.
- `Date.now()` and `toLocaleString()` are not modelled. The id and timestamp are parameters.
- The getUserMedia constraint object (ideal 1280×720, no audio) is not modelled. Only the facing mode reaches the browser in the model.
- `getUserMedia`, `enumerateDevices` and `fetch` are not modelled as calls. They are inputs: a function of the facing mode, an enumeration outcome, and a network outcome.
- Service worker registration and `clients.claim()` are not modelled. They are host calls and leave no state the page or worker reads.
- Asynchrony is not modelled. Each handler is one atomic step, so events that interleave while a promise is pending are not captured. This includes the fire-and-forget `cache.put` of the fetch handler, which the model performs within the same step. The deletions that `Promise.all` runs concurrently are performed one by one; `CacheStorage.WithoutTwice` shows the order does not matter.
- Response bodies and `clone()` are not modelled. A response is its status and type.
- Requests are identified by URL only. HTTP method matching, `Vary` headers and query options of the Cache API are not modelled.
- A message whose `data` is null or undefined is not modelled. The handler would throw on reading `action`.
- OfflineWorker.Resolve: resolves "./x" as the base URL followed by "x", without the full URL parser of the WHATWG URL standard (no normalisation of dot segments or escapes).
- Strings.ToLower: lower-cases the ASCII letters A-Z only, not the full Unicode case mapping of `toLowerCase`.
