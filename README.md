# சாரம் service worker — verified model

This project models the service worker of the சாரம் (Saram) progressive web app,
`service-worker.js`. The worker keeps the application usable offline. It

- pre-caches the application shell on **install**,
- deletes older cache generations on **activate**,
- answers every **fetch**: cross-origin traffic goes to the network with a JSON
  "offline" fallback; same-origin traffic is served cache-first with write-back
  and offline fallbacks,
- builds **push** notifications with Tamil defaults,
- routes **notification clicks** to an open window or a new one,
- has a **background-sync** placeholder.

The browser's primitives become values:

- The cache store (`caches`) is a `Caches` value. It holds region names in creation order
  and a map from region name to a map from request key (method and URL) to response.
  The class `CacheStorage` is the same store changed in place. Each of its methods is
  specified by the function on `Caches` that it performs.
- The network is a parameter. It is a function from request key to `Ok(response)` or
  `Fail` for install, and a single such result for one fetch.
- Notifications, focusing and opening windows are returned as values (`PushEffect`,
  `ClickEffect`) for the host to carry out.

Files:

- `http.dfy`: request keys, responses, network results.
- `cache_store.dfy`: the cache store, as a value and as a class.
- `config.dfy`: the version tag, the static asset list and the offline page.
- `lifecycle.dfy`: install, activate, sync.
- `fetch.dfy`: the fetch decision and its execution on the store.
- `notifications.dfy`: push and notificationclick.

Four points of the code's behaviour that are easy to misread:

- `caches.match` searches **every** region in creation order, not only the current one
  (service-worker.js:55, :71). A stale region not yet deleted can therefore answer.
- `cache.addAll` rejects when any response is not ok or is partial (206), as well as when
  a fetch fails (service-worker.js:19). Install therefore also fails on, for example, a 404
  for one asset.
- `caches.match` and `cache.put` only deal with GET requests, and `cache.put` refuses a
  206 response (service-worker.js:55, :64). The model states both.
- The notification click focuses the **first** listed window whose URL is the target
  and that can be focused (service-worker.js:112-116). It does not pick just any
  matching window.

## Model

| member | source | states |
|---|---|---|
| `CacheStore.MatchIsFirstHit` | service-worker.js:55-57 | `MatchIn`, the region-by-region search of `caches.match`, finds nothing exactly when no region holds the key; otherwise it answers with the entry of the earliest region that holds it |
| `CacheStore.MatchFirst` | service-worker.js:55 | a request that is not a GET matches nothing; a GET is looked up region by region in creation order |
| `CacheStore.OnlyHolderMatches` | service-worker.js:71 | when one region alone holds a key, a match answers from that region |
| `CacheStore.OpenRegion` | service-worker.js:18 | `caches.open` makes the region exist; a new one starts empty and is appended last to the creation order; opening an existing region changes nothing; every existing region keeps its contents; the store stays well formed |
| `CacheStore.PutEntry` | service-worker.js:64 | `cache.put` of a GET with a non-206 response (`PutAccepts`, its refusal rule) makes the key hold the response in that region; a non-GET request or a 206 response changes nothing; every other entry is kept and no other entry appears |
| `CacheStore.Pruned` | service-worker.js:31 | deleting a set of regions removes exactly those names and regions; the rest keep their contents; dropping names the list lacks leaves the list as it was |
| `CacheStore.DeleteRegion` | service-worker.js:31 | `caches.delete` is pruning one name; afterwards the name is neither listed nor a region; deleting a missing region changes nothing |
| `CacheStore.WithoutMembers` | service-worker.js:30 | filtering a name list keeps exactly the names not dropped and never lengthens it |
| `CacheStore.WithoutAppend` | service-worker.js:30 | filtering a list is filtering its two halves, so the names kept stay in their relative order |
| `CacheStore.WithoutAbsent` | service-worker.js:30 | filtering out names the list does not hold returns the list unchanged |
| `CacheStore.Stored` | service-worker.js:19 | after `addAll` succeeds, each URL's GET key holds the network's response; keys not among the URLs keep their old responses; no other key appears |
| `CacheStore.Refilled` | service-worker.js:19 | a successful `addAll` replaces the contents of its region only: the list of names, the set of regions and every other region are kept, and the store stays well formed |
| `CacheStore.CacheStorage.Keys` | service-worker.js:27 | `caches.keys()` returns the region names as listed; opening appends a name and deleting keeps the others' order (`OpenRegion`, `WithoutAppend`), so this is creation order |
| `CacheStore.CacheStorage.Open` | service-worker.js:18 | the live store becomes `OpenRegion` of its old state and stays well formed |
| `CacheStore.CacheStorage.Put` | service-worker.js:64 | the live store becomes `PutEntry` of its old state and stays well formed |
| `CacheStore.CacheStorage.Delete` | service-worker.js:31 | the live store becomes `DeleteRegion` of its old state and stays well formed; the result tells whether the region existed |
| `CacheStore.CacheStorage.AddAll` | service-worker.js:19 | succeeds exactly when no URL is listed twice and every URL was fetched with an ok, non-206 response; then the store is `Refilled` with the region `Stored`; otherwise the store is untouched; the store stays well formed |
| `Lifecycle.Installed` | service-worker.js:16-21 | install adds region CACHE_NAME, last in creation order when it is new, and leaves the list of names otherwise as it was and every other region's contents unchanged |
| `Lifecycle.StaticAssetsDistinct` | service-worker.js:6-13 | the static asset list names no path twice, so `addAll` never refuses it for that reason |
| `Lifecycle.Install` | service-worker.js:16-21 | opens CACHE_NAME, then runs `addAll` on the static assets; `skipWaiting` is reached exactly when every asset was fetched ok; the store ends as `Installed` and stays well formed |
| `Lifecycle.InstallCachesEveryAsset` | service-worker.js:6-21 | after a successful install every path of STATIC_ASSETS is a key of CACHE_NAME holding its network response; earlier entries under other keys survive |
| `Lifecycle.InstallFailureStoresNothing` | service-worker.js:17-21 | a failed install names an asset that failed; no entry is added and none is lost |
| `Lifecycle.Activate` | service-worker.js:25-35 | deletes, one by one, every listed region but CACHE_NAME; the store ends as `Activated` of its old state (all those regions pruned at once) and stays well formed |
| `Lifecycle.ActivateKeepsOnlyCurrent` | service-worker.js:27-32 | after activate (`Activated`) the region names are the old ones intersected with {CACHE_NAME}; CACHE_NAME keeps its contents; the store stays well formed |
| `Lifecycle.InstallThenActivate` | service-worker.js:16-35 | install followed by activate leaves CACHE_NAME as the only region, listed once, holding every static asset |
| `Lifecycle.HandleSync` | service-worker.js:80-84 | the sync handler leaves the store unchanged for every tag, `sync-likes` included |
| `Fetch.Route` | service-worker.js:38-77 | only a same-origin GET that missed and got an ok response is written back, under its own key; the network is skipped exactly on a same-origin hit; a network response, when consulted and received, is passed on unchanged; `undefined` is answered only to an offline same-origin navigation |
| `Fetch.Commit` | service-worker.js:62-65 | a write opens CACHE_NAME, even if that region was deleted meanwhile, appending it last to the region list when it is new and otherwise leaving the list as it was; the key then holds the response there, unless `cache.put` refuses it (206), in which case the store is exactly the opened one; every other entry survives unchanged and no other entry appears |
| `Fetch.HandleFetch` | service-worker.js:54-76 | answers with `Route`'s answer; the store changes only when the detached write lands, and then by `Commit`; it stays well formed |
| `Fetch.CrossOriginIgnoresStore` | service-worker.js:43-50 | a cross-origin decision is the same for every store and writes nothing; it returns the network response, or the JSON `{"error":"offline",...}` response when the network fails |
| `Fetch.CacheHitIgnoresNetwork` | service-worker.js:55-57 | a same-origin hit returns the cached response whatever the network would answer; it does not fetch and does not write |
| `Fetch.MissWritesOnlyOkGet` | service-worker.js:59-66 | a same-origin miss returns the network response; it is written back if and only if it is ok and the method is GET |
| `Fetch.MissOfflineFallback` | service-worker.js:68-74 | a same-origin miss without network answers a navigation with the lookup of `/offline.html`, which may be absent; anything else gets an empty 408; nothing is written |
| `Fetch.WriteThenHit` | service-worker.js:59-66 | once the write-back of an ok, non-206 response has landed, the same request is a hit: the stored response is returned without a fetch |
| `Fetch.OfflinePageAfterInstall` | service-worker.js:68-72 | after a successful install and activate, every offline same-origin navigation gets a response; on a miss it is the `/offline.html` fetched at install |
| `Notifications.OrElse` | service-worker.js:92-96 | JavaScript's logical-or defaulting: a present non-empty value is the result; otherwise the default is; it is never empty when the default is not |
| `Notifications.Push` | service-worker.js:87-103 | no payload shows nothing; an unparsable payload is an error; otherwise title, body and url are not empty and the actions are `open` then `close` |
| `Notifications.PushFieldDefaults` | service-worker.js:92-100 | each present non-empty field is shown as given; an absent or empty one takes its default (`சாரம்`, the Tamil body, `/`); the actions are exactly [open, close] |
| `Notifications.PushExamples` | service-worker.js:88-101 | `{"title":"T","body":"B","url":"/x"}` is shown as T, B, /x; `{}` falls back on all three fields |
| `Notifications.Target` | service-worker.js:108 | the click target is the url the notification carries when it is present and non-empty, and `/` otherwise; it is never empty |
| `Notifications.FirstFocusable` | service-worker.js:112-116 | finds the first listed window at the target that can be focused, or reports that none is |
| `Notifications.HandleClick` | service-worker.js:105-121 | as written: always closes the notification; for `open` or no action it focuses the first listed focusable window whose url equals the target, and opens one window at the target only when there is none; any other action does nothing more |
| `Notifications.PathTargetNeverFocuses` | service-worker.js:108-113 | when the target is a path and every window url is absolute, no window is focusable for it |
| `Notifications.StartPageNotReused` | service-worker.js:108-113 | a default click is not matched to an open focusable window at the application's start page, but it is once the target is resolved |
| `Notifications.HandleClickResolved` | service-worker.js:105-121 | as intended: like `HandleClick`, but windows are compared with the target resolved against the worker's origin (`Resolve`; `ProtocolRelativeKept` shows that `/x` gets the origin in front and `//host/x` is kept), so an open window showing it is focused |
| `Notifications.PushThenClickTarget` | service-worker.js:96-108 | the url a pushed notification carries is the one its click targets: the payload's url when present and non-empty, otherwise `/` |

## Left out

- URL parsing and origin comparison (service-worker.js:40-43): whether a request is
  same-origin is an input of `Fetch.Request`.
- Promise scheduling, `event.waitUntil` and `respondWith`, and the interleaving of
  overlapping fetch events. Each handler runs to completion on its own.
- The order in which `addAll` fetches and the order in which activate's deletions
  complete. The network is deterministic per key, so neither order changes the result.
- `self.skipWaiting()` is recorded as the result of `Lifecycle.Install`.
  `self.clients.claim()` is always reached after activate and is not modelled.
- Requests and responses are reduced to method, URL, status, body and content type.
  Not modelled: other headers, `Vary`, `response.clone()`, body streams, and the cache
  matching options (`ignoreSearch`, `ignoreMethod`).
- `Fetch.HandleFetch`: a detached write either has run completely (open then put) or
  not at all. A put refused for a 206 response leaves the opened region as it was.
  A put refused for storage quota is not modelled.
- URLs of requests and of the static assets are paths on the worker's own origin. The
  host resolves both sides of a cache lookup alike, so comparing paths gives the same
  result. Window urls, by contrast, are absolute, and `Notifications.Resolve` only
  resolves targets that start with `/`. Relative targets without a leading slash and
  protocol-relative targets are kept as they are.
- The `Vary` header, including `Vary: *`, which makes `cache.put` reject, is not modelled.
- `new Response` objects built by the worker are given status 200 (the default) and the
  content type set in the code. The 408 response gets the plain-text content type that
  the Fetch Standard assigns to a string body.
- JSON parsing of the push payload (service-worker.js:89). The payload is a record of
  optional strings. A payload that is not JSON, or is the JSON value `null` (whose
  `.title` throws at service-worker.js:92), is the `ParseError` outcome. Any other JSON
  value that is not an object has no fields, so it shows the defaults. Non-string
  field values, such as numbers, are not modelled.
- Displaying notifications, and the icon and badge images
  (service-worker.js:94-95). The host's window APIs are also left out:
  `clients.matchAll`, `focus` and `openWindow` become a list input and returned actions.
- Logging: the worker has none.

## Findings

| source | as written | input that shows it | evidently intended | confidence | as-written member | corrected member |
|---|---|---|---|---|---|---|
| service-worker.js:113 | `client.url === targetUrl` compares the window's absolute url with the target, which is a path such as `/` | a click with no url in the payload (target `/`) while the start page `https://saram.example/` is open and focusable: it is not focused, and a second window is opened | compare with the target resolved against the worker's origin, so the open window is focused | high; not executed | `Notifications.PathTargetNeverFocuses`, `Notifications.StartPageNotReused` | `Notifications.HandleClickResolved` |
