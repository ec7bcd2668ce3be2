/** The worker's lifecycle handlers: `install` fills the current cache region with
    the application shell, `activate` deletes every older region, and `sync` is
    a placeholder that does nothing. */
module Lifecycle {
  import opened Http
  import opened CacheStore
  import opened Config

  // ---------------------------------------------------------------------------
  // install

  /** The static asset list names no path twice, so `addAll` does not refuse it. */
  lemma StaticAssetsDistinct()
    ensures Distinct(STATIC_ASSETS)
  {
  }

  /** The store after the install handler: region CACHE_NAME is opened (created
      if needed) and, when `addAll` succeeds on the static assets, filled with
      their responses. */
  function Installed(c: Caches, net: RequestKey -> NetResult): (r: Caches)
    ensures r.regions.Keys == c.regions.Keys + {CACHE_NAME}
    ensures r.names == OpenRegion(c, CACHE_NAME).names
    ensures forall n | n in c.regions && n != CACHE_NAME :: r.regions[n] == c.regions[n]
    ensures Valid(c) ==> Valid(r)
  {
    var created := OpenRegion(c, CACHE_NAME);
    if AddAllSucceeds(net, STATIC_ASSETS) then
      Refilled(created, CACHE_NAME, Stored(created.regions[CACHE_NAME], STATIC_ASSETS, net))
    else created
  }

  /** The install handler. `skippedWaiting` records that the chain reached
      `self.skipWaiting()`, which happens exactly when every static asset was
      fetched with an ok response. */
  method Install(storage: CacheStorage, net: RequestKey -> NetResult) returns (skippedWaiting: bool)
    modifies storage
    ensures skippedWaiting == AllFetched(net, STATIC_ASSETS)
    ensures storage.View() == Installed(old(storage.View()), net)
    ensures Valid(old(storage.View())) ==> Valid(storage.View())
  {
    StaticAssetsDistinct();
    storage.Open(CACHE_NAME);
    skippedWaiting := storage.AddAll(CACHE_NAME, STATIC_ASSETS, net);
  }

  /** After a successful install every static asset is a key of region CACHE_NAME,
      holding what the network answered for it; entries the region already had
      under other keys are kept. */
  lemma InstallCachesEveryAsset(c: Caches, net: RequestKey -> NetResult)
    requires AllFetched(net, STATIC_ASSETS)
    ensures forall p | p in STATIC_ASSETS ::
              Holds(Installed(c, net).regions, CACHE_NAME, GetKey(p)) &&
              Installed(c, net).regions[CACHE_NAME][GetKey(p)] == net(GetKey(p)).response
    ensures forall k | Holds(c.regions, CACHE_NAME, k) && k !in KeysOf(STATIC_ASSETS) ::
              Holds(Installed(c, net).regions, CACHE_NAME, k) &&
              Installed(c, net).regions[CACHE_NAME][k] == c.regions[CACHE_NAME][k]
  {
    StaticAssetsDistinct();
    var created := OpenRegion(c, CACHE_NAME);
    forall p | p in STATIC_ASSETS
      ensures GetKey(p) in KeysOf(STATIC_ASSETS)
    {
    }
  }

  /** A failed install stores nothing: every entry afterwards was already there,
      and every entry that was there is still there. Only an empty region
      CACHE_NAME may have appeared. */
  lemma InstallFailureStoresNothing(c: Caches, net: RequestKey -> NetResult)
    requires !AllFetched(net, STATIC_ASSETS)
    ensures exists p | p in STATIC_ASSETS :: !Fetched(net, p)
    ensures forall n, k | Holds(Installed(c, net).regions, n, k) ::
              Holds(c.regions, n, k) && Installed(c, net).regions[n][k] == c.regions[n][k]
    ensures forall n, k | Holds(c.regions, n, k) :: Holds(Installed(c, net).regions, n, k)
  {
    StaticAssetsDistinct();
    var i :| 0 <= i < |STATIC_ASSETS| && !Fetched(net, STATIC_ASSETS[i]);
    assert STATIC_ASSETS[i] in STATIC_ASSETS;
  }

  // ---------------------------------------------------------------------------
  // activate

  /** The regions an activation deletes: every listed name but CACHE_NAME. */
  function Stale(names: seq<string>): set<string> {
    set n | n in names && n != CACHE_NAME
  }

  /** Looking at one more listed name adds it to the stale set unless it is CACHE_NAME. */
  lemma StaleStep(keys: seq<string>, i: nat)
    requires i < |keys|
    ensures Stale(keys[..i + 1]) == Stale(keys[..i]) + (if keys[i] != CACHE_NAME then {keys[i]} else {})
  {
    assert keys[..i + 1] == keys[..i] + [keys[i]];
  }

  /** The store after the activate handler. */
  function Activated(c: Caches): Caches {
    Pruned(c, Stale(c.names))
  }

  /** The activate handler: deletes, one by one, every region whose name is not
      CACHE_NAME, then claims the open clients (not modelled: it always happens). */
  method Activate(storage: CacheStorage)
    modifies storage
    ensures storage.View() == Activated(old(storage.View()))
    ensures Valid(old(storage.View())) ==> Valid(storage.View())
  {
    var keys := storage.Keys();
    ghost var before := storage.View();
    ghost var deleted: set<string> := {};
    PrunedNothing(before);
    var i := 0;
    while i < |keys|
      invariant 0 <= i <= |keys|
      invariant deleted == Stale(keys[..i])
      invariant storage.View() == Pruned(before, deleted)
    {
      StaleStep(keys, i);
      if keys[i] != CACHE_NAME {
        PrunedThenDeleted(before, deleted, keys[i]);
        var _ := storage.Delete(keys[i]);
        deleted := deleted + {keys[i]};
      }
      i := i + 1;
    }
    assert keys[..i] == keys;
  }

  /** After activate, region CACHE_NAME is the only region that can remain; it
      remains when it existed, with its contents unchanged. */
  lemma ActivateKeepsOnlyCurrent(c: Caches)
    requires Valid(c)
    ensures Valid(Activated(c))
    ensures Activated(c).regions.Keys == c.regions.Keys * {CACHE_NAME}
    ensures forall n :: n in Activated(c).names <==> n in c.names && n == CACHE_NAME
    ensures CACHE_NAME in c.regions ==> Activated(c).regions[CACHE_NAME] == c.regions[CACHE_NAME]
  {
  }

  /** Installing successfully and then activating leaves exactly one region,
      CACHE_NAME, listed once and holding every static asset. */
  lemma InstallThenActivate(c: Caches, net: RequestKey -> NetResult)
    requires Valid(c) && AllFetched(net, STATIC_ASSETS)
    ensures Valid(Activated(Installed(c, net)))
    ensures forall n :: n in Activated(Installed(c, net)).names <==> n == CACHE_NAME
    ensures Activated(Installed(c, net)).regions.Keys == {CACHE_NAME}
    ensures forall p | p in STATIC_ASSETS ::
              Holds(Activated(Installed(c, net)).regions, CACHE_NAME, GetKey(p)) &&
              Activated(Installed(c, net)).regions[CACHE_NAME][GetKey(p)] == net(GetKey(p)).response
  {
    var installed := Installed(c, net);
    InstallCachesEveryAsset(c, net);
    ActivateKeepsOnlyCurrent(installed);
  }

  // ---------------------------------------------------------------------------
  // sync

  /** The background-sync handler: a placeholder. The tag SYNC_LIKES is singled
      out, but neither it nor any other tag does anything, so the store is left
      as it was. */
  function HandleSync(c: Caches, tag: string): (r: Caches)
    ensures r == c
  {
    if tag == SYNC_LIKES then c else c
  }
}
