/** The host's persistent cache store (`caches`): an ordered collection of named
    regions, each mapping request identities to responses. The value `Caches`
    describes a state of the store; the class `CacheStorage` is the store the
    handlers change in place, and each of its methods is specified by the
    function on `Caches` it performs. */
module CacheStore {
  import opened Http

  type Region = map<RequestKey, Response>

  /** `names` lists the regions in creation order; `regions` holds their contents. */
  datatype Caches = Caches(names: seq<string>, regions: map<string, Region>)

  /** Region names are distinct and name exactly the regions that exist. */
  ghost predicate Valid(c: Caches) {
    && (forall i, j | 0 <= i < j < |c.names| :: c.names[i] != c.names[j])
    && (forall n :: n in c.regions <==> n in c.names)
  }

  /** Region `name` exists and holds an entry under `key`. */
  predicate Holds(regions: map<string, Region>, name: string, key: RequestKey) {
    name in regions && key in regions[name]
  }

  // ---------------------------------------------------------------------------
  // Sequences of region names

  /** `s` without the names in `drop`, order kept. */
  function Without(s: seq<string>, drop: set<string>): seq<string>
  {
    if s == [] then []
    else (if s[0] in drop then [] else [s[0]]) + Without(s[1..], drop)
  }

  /** Filtering keeps exactly the names not dropped, and never lengthens the list. */
  lemma {:induction false} WithoutMembers(s: seq<string>, drop: set<string>)
    ensures forall x :: x in Without(s, drop) <==> x in s && x !in drop
    ensures |Without(s, drop)| <= |s|
  {
    if s != [] {
      WithoutMembers(s[1..], drop);
      assert s == [s[0]] + s[1..];
    }
  }

  predicate Distinct(s: seq<string>) {
    forall i, j | 0 <= i < j < |s| :: s[i] != s[j]
  }

  /** Filtering keeps a list of names free of repetitions. */
  lemma {:induction false} WithoutDistinct(s: seq<string>, drop: set<string>)
    ensures Distinct(s) ==> Distinct(Without(s, drop))
  {
    if s != [] && Distinct(s) {
      WithoutDistinct(s[1..], drop);
      WithoutMembers(s[1..], drop);
      var rest := Without(s[1..], drop);
      assert s[0] !in s[1..] by {
        forall k | 0 <= k < |s[1..]| ensures s[1..][k] != s[0] {
          assert s[1..][k] == s[k + 1];
        }
      }
      assert s[0] !in rest;
    }
  }

  /** Dropping names the list does not hold leaves it as it was. */
  lemma {:induction false} WithoutAbsent(s: seq<string>, drop: set<string>)
    ensures (forall x | x in s :: x !in drop) ==> Without(s, drop) == s
  {
    if s != [] && forall x | x in s :: x !in drop {
      assert s[0] in s;
      forall x | x in s[1..] ensures x !in drop {
        assert x in s;
      }
      WithoutAbsent(s[1..], drop);
      assert s == [s[0]] + s[1..];
    }
  }

  /** Filtering a list is filtering its two halves: the names that remain keep
      their relative order. */
  lemma {:induction false} WithoutAppend(s1: seq<string>, s2: seq<string>, drop: set<string>)
    ensures Without(s1 + s2, drop) == Without(s1, drop) + Without(s2, drop)
  {
    if s1 == [] {
      assert s1 + s2 == s2;
    } else {
      var head := if s1[0] in drop then [] else [s1[0]];
      var rest1 := Without(s1[1..], drop);
      var rest2 := Without(s2, drop);
      assert Without(s1 + s2, drop) == head + Without(s1[1..] + s2, drop) by {
        assert (s1 + s2)[1..] == s1[1..] + s2;
      }
      WithoutAppend(s1[1..], s2, drop);
      assert head + (rest1 + rest2) == (head + rest1) + rest2;
    }
  }

  /** Dropping `a` and then `b` is dropping both at once. */
  lemma {:induction false} WithoutTwice(s: seq<string>, a: set<string>, b: set<string>)
    ensures Without(Without(s, a), b) == Without(s, a + b)
  {
    if s != [] {
      WithoutTwice(s[1..], a, b);
      var head := if s[0] in a then [] else [s[0]];
      assert Without(s, a) == head + Without(s[1..], a);
      if s[0] in a {
        assert Without(s, a) == Without(s[1..], a);
      } else {
        assert Without(s, a)[0] == s[0];
        assert Without(s, a)[1..] == Without(s[1..], a);
      }
    }
  }

  // ---------------------------------------------------------------------------
  // Operations of the store, as functions of its state

  /** The response stored under `key` in the first of `names` whose region holds it. */
  function MatchIn(names: seq<string>, regions: map<string, Region>, key: RequestKey): Option<Response>
  {
    if names == [] then None
    else if Holds(regions, names[0], key) then Some(regions[names[0]][key])
    else MatchIn(names[1..], regions, key)
  }

  /** `caches.match(key)`: searches every region, in creation order. Without the
      `ignoreMethod` option a request that is not a GET matches nothing. */
  function MatchFirst(c: Caches, key: RequestKey): (r: Option<Response>)
    ensures key.verb != "GET" ==> r.None?
    ensures key.verb == "GET" ==> r == MatchIn(c.names, c.regions, key)
  {
    if key.verb != "GET" then None else MatchIn(c.names, c.regions, key)
  }

  /** A match finds nothing exactly when no region holds the key, and otherwise
      answers from the earliest region that holds it. */
  lemma {:induction false} MatchIsFirstHit(names: seq<string>, regions: map<string, Region>, key: RequestKey)
    ensures MatchIn(names, regions, key).None? <==>
            forall i | 0 <= i < |names| :: !Holds(regions, names[i], key)
    ensures forall i | 0 <= i < |names| && Holds(regions, names[i], key) &&
                       (forall j | 0 <= j < i :: !Holds(regions, names[j], key)) ::
              MatchIn(names, regions, key) == Some(regions[names[i]][key])
  {
    if names != [] {
      MatchIsFirstHit(names[1..], regions, key);
      forall i | 1 <= i < |names| ensures names[1..][i - 1] == names[i] { }
    }
  }

  /** When region `name` is the only one holding `key`, a match answers from it. */
  lemma OnlyHolderMatches(c: Caches, name: string, key: RequestKey)
    requires Valid(c) && Holds(c.regions, name, key) && key.verb == "GET"
    requires forall n | n in c.regions && n != name :: !Holds(c.regions, n, key)
    ensures MatchFirst(c, key) == Some(c.regions[name][key])
  {
    MatchIsFirstHit(c.names, c.regions, key);
    var i :| 0 <= i < |c.names| && c.names[i] == name;
    assert forall j | 0 <= j < i :: c.names[j] != name;
  }

  /** `caches.open(name)`: the region is created, empty and last in order, when it
      does not exist yet; otherwise nothing changes. */
  function OpenRegion(c: Caches, name: string): (r: Caches)
    ensures name in r.regions
    ensures r.regions.Keys == c.regions.Keys + {name}
    ensures forall n | n in c.regions :: r.regions[n] == c.regions[n]
    ensures name !in c.regions ==> r.regions[name] == map[] && r.names == c.names + [name]
    ensures name in c.regions ==> r == c
    ensures Valid(c) ==> Valid(r)
  {
    if name in c.regions then c
    else Caches(c.names + [name], c.regions[name := map[]])
  }

  /** `cache.put` rejects a request that is not a GET and a partial (206) response. */
  predicate PutAccepts(key: RequestKey, response: Response) {
    key.verb == "GET" && response.status != 206
  }

  /** `cache.put(key, response)` on region `name`. A rejected put changes nothing,
      and neither does one on a region that no longer exists, since that region
      is not part of the store. */
  function PutEntry(c: Caches, name: string, key: RequestKey, response: Response): (r: Caches)
    ensures r.names == c.names && r.regions.Keys == c.regions.Keys
    ensures name in c.regions && PutAccepts(key, response) ==>
              Holds(r.regions, name, key) && r.regions[name][key] == response
    ensures !PutAccepts(key, response) ==> r == c
    ensures forall n, k | Holds(c.regions, n, k) && (n != name || k != key) ::
              Holds(r.regions, n, k) && r.regions[n][k] == c.regions[n][k]
    ensures forall n, k | Holds(r.regions, n, k) :: Holds(c.regions, n, k) || (n == name && k == key)
    ensures Valid(c) ==> Valid(r)
  {
    if name in c.regions && PutAccepts(key, response) then
      Caches(c.names, c.regions[name := c.regions[name][key := response]])
    else c
  }

  /** Every region named in `drop` deleted at once. */
  function Pruned(c: Caches, drop: set<string>): (r: Caches)
    ensures r.regions.Keys == c.regions.Keys - drop
    ensures forall n | n in r.regions :: r.regions[n] == c.regions[n]
    ensures forall n :: n in r.names <==> n in c.names && n !in drop
    ensures (forall n | n in c.names :: n !in drop) ==> r.names == c.names
    ensures Valid(c) ==> Valid(r)
  {
    WithoutMembers(c.names, drop);
    WithoutDistinct(c.names, drop);
    WithoutAbsent(c.names, drop);
    Caches(Without(c.names, drop), c.regions - drop)
  }

  /** `caches.delete(name)`; deleting a region that does not exist is not an error. */
  function DeleteRegion(c: Caches, name: string): (r: Caches)
    ensures r == Pruned(c, {name})
    ensures name !in r.regions && name !in r.names
    ensures Valid(c) && name !in c.regions ==> r == c
  {
    WithoutMembers(c.names, {name});
    WithoutAbsent(c.names, {name});
    Caches(Without(c.names, {name}), c.regions - {name})
  }

  /** Deleting no region changes nothing. */
  lemma PrunedNothing(c: Caches)
    ensures Pruned(c, {}) == c
  {
    WithoutAbsent(c.names, {});
    assert c.regions - {} == c.regions;
  }

  /** Deleting regions one after another is deleting all of them together. */
  lemma PrunedThenDeleted(c: Caches, drop: set<string>, name: string)
    ensures DeleteRegion(Pruned(c, drop), name) == Pruned(c, drop + {name})
  {
    WithoutTwice(c.names, drop, {name});
    assert (c.regions - drop) - {name} == c.regions - (drop + {name});
  }

  // ---------------------------------------------------------------------------
  // `cache.addAll(urls)`

  /** The network answered `url` with an ok response that is not partial (206). */
  predicate Fetched(net: RequestKey -> NetResult, url: string) {
    net(GetKey(url)).Ok? && net(GetKey(url)).response.IsOk() && net(GetKey(url)).response.status != 206
  }

  predicate AllFetched(net: RequestKey -> NetResult, urls: seq<string>) {
    forall i | 0 <= i < |urls| :: Fetched(net, urls[i])
  }

  /** `addAll` succeeds when no URL is listed twice and every URL was fetched. */
  predicate AddAllSucceeds(net: RequestKey -> NetResult, urls: seq<string>) {
    Distinct(urls) && AllFetched(net, urls)
  }

  /** The store with the contents of existing region `name` replaced by `region`,
      as a successful `addAll` leaves it. */
  function Refilled(c: Caches, name: string, region: Region): (r: Caches)
    requires name in c.regions
    ensures r.names == c.names && r.regions.Keys == c.regions.Keys
    ensures r.regions[name] == region
    ensures forall n | n in c.regions && n != name :: r.regions[n] == c.regions[n]
    ensures Valid(c) ==> Valid(r)
  {
    Caches(c.names, c.regions[name := region])
  }

  function KeysOf(urls: seq<string>): set<RequestKey> {
    set u | u in urls :: GetKey(u)
  }

  /** The region after every response of a successful `addAll` has been stored:
      each URL's key holds what the network answered, and nothing else changes. */
  function Stored(region: Region, urls: seq<string>, net: RequestKey -> NetResult): (r: Region)
    requires AllFetched(net, urls)
    ensures r.Keys == region.Keys + KeysOf(urls)
    ensures forall u | u in urls :: r[GetKey(u)] == net(GetKey(u)).response
    ensures forall k | k in region && k !in KeysOf(urls) :: r[k] == region[k]
    decreases |urls|
  {
    if urls == [] then region
    else
      var last := urls[|urls| - 1];
      var front := urls[..|urls| - 1];
      assert urls == front + [last];
      assert KeysOf(urls) == KeysOf(front) + {GetKey(last)};
      Stored(region, front, net)[GetKey(last) := net(GetKey(last)).response]
  }

  /** The host's cache store, changed in place by the worker's handlers. */
  class CacheStorage {
    var names: seq<string>
    var regions: map<string, Region>

    /** The state of the store as a value. */
    function View(): Caches
      reads this
    {
      Caches(names, regions)
    }

    constructor ()
      ensures View() == Caches([], map[])
    {
      names := [];
      regions := map[];
    }

    /** `caches.keys()`: the region names in creation order. */
    method Keys() returns (ks: seq<string>)
      ensures ks == names
    {
      ks := names;
    }

    /** `caches.open(name)`. */
    method Open(name: string)
      modifies this
      ensures View() == OpenRegion(old(View()), name)
      ensures Valid(old(View())) ==> Valid(View())
    {
      if name !in regions {
        names := names + [name];
        regions := regions[name := map[]];
      }
    }

    /** `cache.put(key, response)` on the region called `name`. */
    method Put(name: string, key: RequestKey, response: Response)
      modifies this
      ensures View() == PutEntry(old(View()), name, key, response)
      ensures Valid(old(View())) ==> Valid(View())
    {
      if name in regions && PutAccepts(key, response) {
        regions := regions[name := regions[name][key := response]];
      }
    }

    /** `caches.delete(name)`; `found` tells whether the region existed. */
    method Delete(name: string) returns (found: bool)
      modifies this
      ensures found == (name in old(regions))
      ensures View() == DeleteRegion(old(View()), name)
      ensures Valid(old(View())) ==> Valid(View())
    {
      found := name in regions;
      names := Without(names, {name});
      regions := regions - {name};
    }

    /** `cache.addAll(urls)` on region `name`: a list naming a URL twice is
        refused; otherwise every URL is fetched, and if any fetch fails or answers
        with a status that is not ok or is 206, the whole call fails and the store
        is untouched; otherwise every response is stored. */
    method AddAll(name: string, urls: seq<string>, net: RequestKey -> NetResult) returns (ok: bool)
      requires name in regions
      modifies this
      ensures ok == AddAllSucceeds(net, urls)
      ensures ok ==> View() == Refilled(old(View()), name, Stored(old(regions)[name], urls, net))
      ensures !ok ==> View() == old(View())
      ensures Valid(old(View())) ==> Valid(View())
    {
      if !Distinct(urls) {
        return false;
      }
      var i := 0;
      while i < |urls|
        invariant 0 <= i <= |urls|
        invariant AllFetched(net, urls[..i])
      {
        var answer := net(GetKey(urls[i]));
        if !(answer.Ok? && answer.response.IsOk() && answer.response.status != 206) {
          assert !Fetched(net, urls[i]);
          return false;
        }
        i := i + 1;
      }
      assert urls[..i] == urls;
      var region := regions[name];
      i := 0;
      while i < |urls|
        invariant 0 <= i <= |urls|
        invariant AllFetched(net, urls[..i])
        invariant region == Stored(regions[name], urls[..i], net)
      {
        region := region[GetKey(urls[i]) := net(GetKey(urls[i])).response];
        assert urls[..i + 1][..i] == urls[..i];
        i := i + 1;
      }
      assert urls[..i] == urls;
      regions := regions[name := region];
      ok := true;
    }
  }
}
