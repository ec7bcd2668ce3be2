/** The fetch handler. `Route` is the decision the handler takes for one request:
    what it answers, whether it goes to the network, and which cache write it
    starts. `HandleFetch` carries the decision out on the store, where the write,
    detached from the answer, may or may not land. */
module Fetch {
  import opened Http
  import opened CacheStore
  import opened Config
  import opened Lifecycle

  /** An intercepted request. Whether its origin is the worker's own is taken as
      given; `navigate` is `request.mode === 'navigate'`. */
  datatype Request = Request(verb: string, url: string, sameOrigin: bool, navigate: bool)

  function KeyOf(req: Request): RequestKey {
    RequestKey(req.verb, req.url)
  }

  /** A cache write started by the handler and not awaited by it. */
  datatype CacheWrite = CacheWrite(key: RequestKey, response: Response)

  /** `answer` is what the handler responds with; `None` is the `undefined` a
      failed `caches.match` resolves to. `fetched` records that `fetch` was called. */
  datatype FetchOutcome = FetchOutcome(answer: Option<Response>, fetched: bool, write: Option<CacheWrite>)

  const OFFLINE_MESSAGE: string := "இணைய இணைப்பு இல்லை"

  /** `JSON.stringify({ error: 'offline', message: OFFLINE_MESSAGE })`. */
  const OFFLINE_JSON: string := "{\"error\":\"offline\",\"message\":\"" + OFFLINE_MESSAGE + "\"}"

  /** The response synthesised for a cross-origin request the network could not
      serve: status 200 (the `Response` default), tagged as JSON. */
  const OFFLINE_API_RESPONSE: Response := Response(200, OFFLINE_JSON, "application/json")

  /** `new Response('', { status: 408 })`: an empty body, which the Fetch
      Standard labels as plain text. */
  const TIMEOUT_RESPONSE: Response := Response(408, "", "text/plain;charset=UTF-8")

  /** The fetch handler's decision for `req`, given the store `c` and what the
      network would answer for it. */
  function Route(c: Caches, req: Request, net: NetResult): (r: FetchOutcome)
    // only a same-origin GET that missed every region, answered ok by the
    // network, is written back, and under the request's own key
    ensures r.write.Some? ==>
              && req.sameOrigin && req.verb == "GET"
              && MatchFirst(c, KeyOf(req)).None?
              && net == Ok(r.write.value.response) && r.write.value.response.IsOk()
              && r.write.value.key == KeyOf(req)
    // the network is skipped exactly on a same-origin cache hit
    ensures !r.fetched <==> req.sameOrigin && MatchFirst(c, KeyOf(req)).Some?
    // whenever the network is consulted and answers, its response is passed on unchanged
    ensures r.fetched && net.Ok? ==> r.answer == Some(net.response)
    // the handler can answer `undefined` only for an offline navigation
    ensures r.answer.None? ==> req.sameOrigin && req.navigate && net.Fail?
  {
    if !req.sameOrigin then
      FetchOutcome(Some(if net.Ok? then net.response else OFFLINE_API_RESPONSE), true, None)
    else
      match MatchFirst(c, KeyOf(req))
      case Some(cached) => FetchOutcome(Some(cached), false, None)
      case None =>
        if net.Ok? then
          var write := if net.response.IsOk() && req.verb == "GET"
                       then Some(CacheWrite(KeyOf(req), net.response)) else None;
          FetchOutcome(Some(net.response), true, write)
        else if req.navigate then
          FetchOutcome(MatchFirst(c, GetKey(OFFLINE_PAGE)), true, None)
        else
          FetchOutcome(Some(TIMEOUT_RESPONSE), true, None)
  }

  /** The store once a write has run: region CACHE_NAME is opened (it may have
      been deleted meanwhile) and the response is put under the key, unless
      `cache.put` refuses it (a 206 response). */
  function Commit(c: Caches, write: Option<CacheWrite>): (r: Caches)
    ensures write.None? ==> r == c
    ensures write.Some? ==> CACHE_NAME in r.regions
    // the region list is the one `caches.open` leaves: a new CACHE_NAME goes last
    ensures write.Some? ==> r.names == OpenRegion(c, CACHE_NAME).names &&
                            r.regions.Keys == c.regions.Keys + {CACHE_NAME}
    ensures write.Some? && PutAccepts(write.value.key, write.value.response) ==>
              Holds(r.regions, CACHE_NAME, write.value.key) &&
              r.regions[CACHE_NAME][write.value.key] == write.value.response
    // a refused put leaves the store as `caches.open` made it
    ensures write.Some? && !PutAccepts(write.value.key, write.value.response) ==>
              r == OpenRegion(c, CACHE_NAME)
    // no entry appears but the one written
    ensures write.Some? ==> forall n, k | Holds(r.regions, n, k) && (n != CACHE_NAME || k != write.value.key) ::
                              Holds(c.regions, n, k) && r.regions[n][k] == c.regions[n][k]
    // and every other entry survives
    ensures write.Some? ==> forall n, k | Holds(c.regions, n, k) && (n != CACHE_NAME || k != write.value.key) ::
                              Holds(r.regions, n, k) && r.regions[n][k] == c.regions[n][k]
    ensures Valid(c) ==> Valid(r)
  {
    match write
    case None => c
    case Some(w) => PutEntry(OpenRegion(c, CACHE_NAME), CACHE_NAME, w.key, w.response)
  }

  /** The fetch handler on the live store. `writeLands` says whether the detached
      write has run; until it has, the store is as before. The answer never
      depends on it. */
  method HandleFetch(storage: CacheStorage, req: Request, net: NetResult, writeLands: bool)
    returns (answer: Option<Response>)
    modifies storage
    ensures answer == Route(old(storage.View()), req, net).answer
    ensures storage.View() == if writeLands then Commit(old(storage.View()), Route(old(storage.View()), req, net).write)
                              else old(storage.View())
    ensures Valid(old(storage.View())) ==> Valid(storage.View())
  {
    var outcome := Route(storage.View(), req, net);
    answer := outcome.answer;
    if writeLands && outcome.write.Some? {
      storage.Open(CACHE_NAME);
      storage.Put(CACHE_NAME, outcome.write.value.key, outcome.write.value.response);
    }
  }

  // ---------------------------------------------------------------------------
  // Properties of the decision

  /** Cross-origin requests never look at the store: the decision is the same
      whatever it holds. The network's response is returned as it is; without
      one, the JSON "offline" body is. Nothing is written. */
  lemma CrossOriginIgnoresStore(c1: Caches, c2: Caches, req: Request, net: NetResult)
    requires !req.sameOrigin
    ensures Route(c1, req, net) == Route(c2, req, net)
    ensures Route(c1, req, net).write.None?
    ensures net.Ok? ==> Route(c1, req, net).answer == Some(net.response)
    ensures net.Fail? ==> Route(c1, req, net).answer == Some(OFFLINE_API_RESPONSE)
  {
  }

  /** A same-origin hit answers with the cached response whatever the network
      would have said, and leaves the store alone. */
  lemma CacheHitIgnoresNetwork(c: Caches, req: Request, net1: NetResult, net2: NetResult)
    requires req.sameOrigin && MatchFirst(c, KeyOf(req)).Some?
    ensures Route(c, req, net1) == Route(c, req, net2)
    ensures Route(c, req, net1) == FetchOutcome(MatchFirst(c, KeyOf(req)), false, None)
  {
  }

  /** On a same-origin miss the network's response is returned, and it is written
      back exactly when it is ok and the request is a GET. */
  lemma MissWritesOnlyOkGet(c: Caches, req: Request, response: Response)
    requires req.sameOrigin && MatchFirst(c, KeyOf(req)).None?
    ensures Route(c, req, Ok(response)).answer == Some(response)
    ensures Route(c, req, Ok(response)).write.Some? <==> response.IsOk() && req.verb == "GET"
  {
  }

  /** On a same-origin miss without network, a navigation gets whatever the store
      holds for the offline page (possibly nothing) and anything else gets the
      empty 408 response; nothing is written. */
  lemma MissOfflineFallback(c: Caches, req: Request)
    requires req.sameOrigin && MatchFirst(c, KeyOf(req)).None?
    ensures req.navigate ==> Route(c, req, Fail).answer == MatchFirst(c, GetKey(OFFLINE_PAGE))
    ensures !req.navigate ==> Route(c, req, Fail).answer == Some(TIMEOUT_RESPONSE)
    ensures Route(c, req, Fail).write.None?
  {
  }

  /** Once the write-back of a miss has landed, the same request hits: it is
      answered with the stored response and the network is not consulted. */
  lemma WriteThenHit(c: Caches, req: Request, response: Response, later: NetResult)
    requires Valid(c) && req.sameOrigin && MatchFirst(c, KeyOf(req)).None?
    requires response.IsOk() && req.verb == "GET" && response.status != 206
    ensures Route(Commit(c, Route(c, req, Ok(response)).write), req, later) ==
            FetchOutcome(Some(response), false, None)
  {
    var key := KeyOf(req);
    var after := Commit(c, Route(c, req, Ok(response)).write);
    MatchIsFirstHit(c.names, c.regions, key);
    forall n | n in after.regions && n != CACHE_NAME
      ensures !Holds(after.regions, n, key)
    {
      assert n in c.regions;
      var i :| 0 <= i < |c.names| && c.names[i] == n;
      assert !Holds(c.regions, c.names[i], key);
    }
    OnlyHolderMatches(after, CACHE_NAME, key);
  }

  /** After a successful install followed by activate, every offline navigation
      gets an answer: a miss is answered with the offline page fetched at
      install. */
  lemma OfflinePageAfterInstall(c: Caches, net: RequestKey -> NetResult, req: Request)
    requires Valid(c) && AllFetched(net, STATIC_ASSETS)
    requires req.sameOrigin && req.navigate
    ensures Route(Activated(Installed(c, net)), req, Fail).answer.Some?
    ensures MatchFirst(Activated(Installed(c, net)), KeyOf(req)).None? ==>
              Route(Activated(Installed(c, net)), req, Fail).answer == Some(net(GetKey(OFFLINE_PAGE)).response)
  {
    var a := Activated(Installed(c, net));
    InstallThenActivate(c, net);
    assert OFFLINE_PAGE in STATIC_ASSETS;
    OnlyHolderMatches(a, CACHE_NAME, GetKey(OFFLINE_PAGE));
  }
}
