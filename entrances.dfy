/** The per-node enrichment of entrances.js: the cache key, the `check` state
    machine over one node and the shared cache, the sequential run over all
    nodes, and the post-pass that drops failed nodes and strips `_entrance`.
    The templates (`format`, `valid`), the serialiser of the key fields and the
    `uniq_key` regular expression are parameters carried by Config. */
module Entrances {
  import opened JsValue
  import opened EntranceLookup

  /** A cache entry: `{ api }` after an accepted lookup, `{}` after a failure. */
  datatype Entry = Success(api: Value) | Failure

  datatype Config = Config(
    url: string,                                // the `api` argument, as it appears in the key
    formatText: string,                         // the `format` argument, as it appears in the key
    internal: Value,                            // the `internal` argument
    uniqKey: string -> bool,                    // new RegExp(uniq_key).test(fieldName)
    stringify: Proxy -> string,                 // JSON.stringify of the selected fields
    format: (Proxy, Value) -> Option<string>,   // formatResult; None when the template throws
    valid: Value -> Option<bool>,               // truthiness of isValid(api); None when it throws
    cacheEnabled: bool,
    ignoreFailedError: bool,
    entrance: bool,
    removeFailed: bool)

  /** The fields of a node whose names the `uniq_key` pattern accepts. */
  function Selected(p: Proxy, uniqKey: string -> bool): (r: Proxy)
    ensures forall k :: k in r <==> k in p && uniqKey(k)
    ensures forall k :: k in r ==> r[k] == p[k]
  {
    map k | k in p && uniqKey(k) :: p[k]
  }

  const KeyPrefix: string := "entrance:"

  /** generateCacheKey. The validity template is not part of the key. */
  function CacheKey(cfg: Config, p: Proxy): string {
    KeyPrefix + cfg.url + ":" + cfg.formatText + ":" + ToStr(cfg.internal) + ":"
      + cfg.stringify(Selected(p, cfg.uniqKey))
  }

  /** The default `uniq_key`, `^server$`, accepts exactly the field name "server". */
  predicate DefaultUniqKey(k: string) {
    k == "server"
  }

  lemma {:induction false} PrefixCancel(a: string, x: string, y: string)
    requires a + x == a + y
    ensures x == y
  {
    assert x == (a + x)[|a|..];
    assert y == (a + y)[|a|..];
  }

  /** Under one configuration, two nodes share a cache key exactly when their
      serialised key fields agree; with an injective serialiser, exactly when
      the selected fields themselves agree. */
  lemma CacheKeyShared(cfg: Config, p: Proxy, q: Proxy)
    ensures CacheKey(cfg, p) == CacheKey(cfg, q)
            <==> cfg.stringify(Selected(p, cfg.uniqKey)) == cfg.stringify(Selected(q, cfg.uniqKey))
    ensures (forall a: Proxy, b: Proxy :: cfg.stringify(a) == cfg.stringify(b) ==> a == b) ==>
            (CacheKey(cfg, p) == CacheKey(cfg, q) <==> Selected(p, cfg.uniqKey) == Selected(q, cfg.uniqKey))
  {
    var prefix := KeyPrefix + cfg.url + ":" + cfg.formatText + ":" + ToStr(cfg.internal) + ":";
    if CacheKey(cfg, p) == CacheKey(cfg, q) {
      PrefixCancel(prefix, cfg.stringify(Selected(p, cfg.uniqKey)), cfg.stringify(Selected(q, cfg.uniqKey)));
    }
  }

  /** With the default `^server$`, nodes with the same server share one cache key,
      whatever their other fields. */
  lemma SameServerSameKey(cfg: Config, p: Proxy, q: Proxy)
    requires forall k :: cfg.uniqKey(k) == DefaultUniqKey(k)
    requires ("server" in p <==> "server" in q) && Field(p, "server") == Field(q, "server")
    ensures CacheKey(cfg, p) == CacheKey(cfg, q)
  {
    assert Selected(p, cfg.uniqKey) == Selected(q, cfg.uniqKey);
  }

  // ---------------------------------------------------------------- check

  /** A node renamed and annotated: `proxy.name = ...; proxy._entrance = api`. */
  function Annotate(p: Proxy, name: string, api: Value): (r: Proxy)
    ensures Field(r, "name") == Str(name) && Field(r, "_entrance") == api
    ensures forall k :: k != "name" && k != "_entrance" ==> (k in r <==> k in p) && Field(r, k) == Field(p, k)
  {
    p["name" := Str(name)]["_entrance" := api]
  }

  /** `if (cacheEnabled) cache.set(id, entry)`. */
  function Record(cfg: Config, cache: map<string, Entry>, key: string, e: Entry): map<string, Entry> {
    if cfg.cacheEnabled then cache[key := e] else cache
  }

  /** The outcome of one node's check: the node, the cache, and whether requestAPI
      was called. */
  datatype Step = Step(proxy: Proxy, cache: map<string, Entry>, looked: bool)

  /** Lines 110-121: look the node up, validate, then rename, annotate and cache
      `{ api }`; any failure or throw caches `{}` and leaves the node alone. */
  function LookUpAndRecord(cfg: Config, p: Proxy, cache: map<string, Entry>, key: string, lookup: Lookup): Step {
    match lookup
    case Threw => Step(p, Record(cfg, cache, key, Failure), true)
    case Returned(api) =>
      match cfg.valid(api)
      case Some(true) =>
        (match cfg.format(p, api)
         case Some(name) => Step(Annotate(p, name, api), Record(cfg, cache, key, Success(api)), true)
         case None => Step(p, Record(cfg, cache, key, Failure), true))
      case _ => Step(p, Record(cfg, cache, key, Failure), true)
  }

  /** check(proxy), lines 91-122. `lookup` is what requestAPI would hand back for
      this node; it is consulted only when `looked` is true. */
  function CheckStep(cfg: Config, p: Proxy, cache: map<string, Entry>, lookup: Lookup): Step {
    var key := CacheKey(cfg, p);
    if cfg.cacheEnabled && key in cache then
      var cached := cache[key];
      if cached.Success? && Truthy(cached.api) then
        match cfg.format(p, cached.api)
        case Some(name) => Step(Annotate(p, name, cached.api), cache, false)
        case None => Step(p, cache[key := Failure], false)
      else if !cfg.ignoreFailedError then Step(p, cache, false)
      else LookUpAndRecord(cfg, p, cache, key, lookup)
    else LookUpAndRecord(cfg, p, cache, key, lookup)
  }

  /** Only `name` and `_entrance` can change; every other field keeps its value. */
  lemma CheckTouchesOnlyNameAndEntrance(cfg: Config, p: Proxy, cache: map<string, Entry>, lookup: Lookup, k: string)
    requires k != "name" && k != "_entrance"
    ensures var r := CheckStep(cfg, p, cache, lookup).proxy;
      (k in r <==> k in p) && Field(r, k) == Field(p, k)
  {
  }

  /** A cached success (caching on, entry `{ api }` with a truthy api) renames the
      node by the template and sets `_entrance := api`, without a lookup and
      without writing the cache. */
  lemma CachedSuccess(cfg: Config, p: Proxy, cache: map<string, Entry>, lookup: Lookup, api: Value, name: string)
    requires cfg.cacheEnabled && CacheKey(cfg, p) in cache
    requires cache[CacheKey(cfg, p)] == Success(api) && Truthy(api)
    requires cfg.format(p, api) == Some(name)
    ensures CheckStep(cfg, p, cache, lookup) == Step(Annotate(p, name, api), cache, false)
  {
  }

  /** A cached failure (`{}`, or an `{ api }` whose api is falsy) without
      `ignore_failed_error` leaves node and cache as they were and makes no lookup. */
  lemma CachedFailureSkips(cfg: Config, p: Proxy, cache: map<string, Entry>, lookup: Lookup)
    requires cfg.cacheEnabled && CacheKey(cfg, p) in cache
    requires !(cache[CacheKey(cfg, p)].Success? && Truthy(cache[CacheKey(cfg, p)].api))
    requires !cfg.ignoreFailedError
    ensures CheckStep(cfg, p, cache, lookup) == Step(p, cache, false)
  {
  }

  /** With `ignore_failed_error`, a node whose entry is a failure (`{}`, or an
      `{ api }` whose api is falsy) is checked exactly as if it had no entry at all. */
  lemma IgnoredFailureIsAMiss(cfg: Config, p: Proxy, cache: map<string, Entry>, lookup: Lookup)
    requires cfg.cacheEnabled && cfg.ignoreFailedError
    requires CacheKey(cfg, p) in cache
    requires !(cache[CacheKey(cfg, p)].Success? && Truthy(cache[CacheKey(cfg, p)].api))
    ensures CheckStep(cfg, p, cache, lookup) == CheckStep(cfg, p, cache - {CacheKey(cfg, p)}, lookup)
  {
    var key := CacheKey(cfg, p);
    var e := if lookup.Returned? && cfg.valid(lookup.api) == Some(true) && cfg.format(p, lookup.api).Some?
             then Success(lookup.api) else Failure;
    assert cache[key := e] == (cache - {key})[key := e];
  }

  /** Two nodes with one key, checked one after the other with caching on and
      `ignore_failed_error` off: the first leaves its key cached, the second is
      not looked up, and when the first ends with a usable `{ api }` it carries
      that api. The second node either stays as it was or carries the same api
      record as the first. */
  lemma SharedKeySharesRecord(cfg: Config, p: Proxy, q: Proxy, cache: map<string, Entry>, first: Lookup, second: Lookup)
    requires cfg.cacheEnabled && !cfg.ignoreFailedError
    requires CacheKey(cfg, p) == CacheKey(cfg, q)
    ensures var key, s1 := CacheKey(cfg, p), CheckStep(cfg, p, cache, first);
      var s2 := CheckStep(cfg, q, s1.cache, second);
      && key in s1.cache
      && !s2.looked
      && (s1.cache[key].Success? && Truthy(s1.cache[key].api) ==> Field(s1.proxy, "_entrance") == s1.cache[key].api)
      && (s2.proxy == q || (s1.cache[key].Success? && Field(s2.proxy, "_entrance") == s1.cache[key].api))
  {
    CheckRecordsKey(cfg, p, cache, first);
  }

  /** An accepted lookup renames and annotates the node and, with caching on,
      stores `{ api }` under the node's key. */
  lemma AcceptedLookup(cfg: Config, p: Proxy, cache: map<string, Entry>, api: Value, name: string)
    requires !(cfg.cacheEnabled && CacheKey(cfg, p) in cache)
    requires cfg.valid(api) == Some(true) && cfg.format(p, api) == Some(name)
    ensures var s := CheckStep(cfg, p, cache, Returned(api));
      && s.looked
      && s.proxy == Annotate(p, name, api)
      && s.cache == if cfg.cacheEnabled then cache[CacheKey(cfg, p) := Success(api)] else cache
  {
  }

  /** A thrown lookup, a rejected one, or an accepted one whose `format` template
      throws leaves the node as it was and, with caching on, stores `{}` under the
      node's key. */
  lemma RejectedLookup(cfg: Config, p: Proxy, cache: map<string, Entry>, lookup: Lookup)
    requires !(cfg.cacheEnabled && CacheKey(cfg, p) in cache)
    requires lookup.Threw? || cfg.valid(lookup.api) != Some(true) || cfg.format(p, lookup.api).None?
    ensures var s := CheckStep(cfg, p, cache, lookup);
      && s.looked
      && s.proxy == p
      && s.cache == if cfg.cacheEnabled then cache[CacheKey(cfg, p) := Failure] else cache
  {
  }

  /** With caching off the cache is never consulted and never written: every
      node is looked up. */
  lemma CacheDisabled(cfg: Config, p: Proxy, cache: map<string, Entry>, lookup: Lookup)
    requires !cfg.cacheEnabled
    ensures CheckStep(cfg, p, cache, lookup).looked
    ensures CheckStep(cfg, p, cache, lookup).cache == cache
  {
  }

  /** A check never removes a cache key, and with caching on the node's key is in
      the cache afterwards. */
  lemma CheckRecordsKey(cfg: Config, p: Proxy, cache: map<string, Entry>, lookup: Lookup)
    ensures var s := CheckStep(cfg, p, cache, lookup);
      && cache.Keys <= s.cache.Keys
      && (cfg.cacheEnabled ==> CacheKey(cfg, p) in s.cache)
  {
  }

  /** With caching on and `ignore_failed_error` off, a node whose key is cached,
      as a success or as a failure, is not looked up. */
  lemma CachedMeansNoLookup(cfg: Config, p: Proxy, cache: map<string, Entry>, lookup: Lookup)
    requires cfg.cacheEnabled && !cfg.ignoreFailedError && CacheKey(cfg, p) in cache
    ensures !CheckStep(cfg, p, cache, lookup).looked
  {
  }

  /** The process-wide cache shared by all checks. */
  class Cache {
    var entries: map<string, Entry>

    /** An empty store, as the host hands one to the script on a cold start. */
    constructor ()
      ensures entries == map[]
    {
      entries := map[];
    }

    /** cache.get(id) */
    function Get(key: string): (e: Option<Entry>)
      reads this
      ensures e.Some? <==> key in entries
      ensures e.Some? ==> e.value == entries[key]
    {
      if key in entries then Some(entries[key]) else None
    }

    /** cache.set(id, entry) */
    method Set(key: string, e: Entry)
      modifies this
      ensures entries == old(entries)[key := e]
    {
      entries := entries[key := e];
    }
  }

  /** check(proxy) on node i of the list, updating it and the cache in place. */
  method Check(cfg: Config, proxies: array<Proxy>, i: nat, cache: Cache, lookup: Lookup) returns (looked: bool)
    requires i < proxies.Length
    modifies proxies, cache
    ensures var s := CheckStep(cfg, old(proxies[i]), old(cache.entries), lookup);
      && proxies[..] == old(proxies[..])[i := s.proxy]
      && cache.entries == s.cache
      && looked == s.looked
  {
    var proxy := proxies[i];
    var id := CacheKey(cfg, proxy);
    var cached := cache.Get(id);
    if cfg.cacheEnabled && cached.Some? {
      if cached.value.Success? && Truthy(cached.value.api) {
        var name := cfg.format(proxy, cached.value.api);
        if name.None? {
          cache.Set(id, Failure);
          return false;
        }
        proxies[i] := proxies[i]["name" := Str(name.value)];
        proxies[i] := proxies[i]["_entrance" := cached.value.api];
        return false;
      } else if !cfg.ignoreFailedError {
        return false;
      }
    }
    looked := true;
    if lookup.Threw? {
      if cfg.cacheEnabled { cache.Set(id, Failure); }
      return;
    }
    var api := lookup.api;
    var ok := cfg.valid(api);
    if ok == Some(true) {
      var name := cfg.format(proxy, api);
      if name.None? {
        if cfg.cacheEnabled { cache.Set(id, Failure); }
        return;
      }
      proxies[i] := proxies[i]["name" := Str(name.value)];
      proxies[i] := proxies[i]["_entrance" := api];
      if cfg.cacheEnabled { cache.Set(id, Success(api)); }
    } else {
      if cfg.cacheEnabled { cache.Set(id, Failure); }
    }
  }

  // ---------------------------------------------------------------- the run

  datatype RunState = RunState(proxies: seq<Proxy>, cache: map<string, Entry>, looked: seq<bool>)

  /** Nodes 0..k-1 put through `step` one after the other, each seeing the cache
      the previous ones left. */
  function RunWith(step: (Proxy, map<string, Entry>, Lookup) -> Step, ps: seq<Proxy>, cache: map<string, Entry>,
                   lookups: nat -> Lookup, k: nat): (s: RunState)
    requires k <= |ps|
    ensures |s.proxies| == |ps| && |s.looked| == k
  {
    if k == 0 then RunState(ps, cache, [])
    else
      var prev := RunWith(step, ps, cache, lookups, k - 1);
      var r := step(ps[k - 1], prev.cache, lookups(k - 1));
      RunState(prev.proxies[k - 1 := r.proxy], r.cache, prev.looked + [r.looked])
  }

  /** Nodes not reached yet keep their original value. */
  lemma {:induction false} RunWithUntouched(step: (Proxy, map<string, Entry>, Lookup) -> Step, ps: seq<Proxy>,
                                           cache: map<string, Entry>, lookups: nat -> Lookup, k: nat, j: nat)
    requires k <= j < |ps|
    ensures RunWith(step, ps, cache, lookups, k).proxies[j] == ps[j]
  {
    if k > 0 {
      RunWithUntouched(step, ps, cache, lookups, k - 1, j);
    }
  }

  /** In a run, node j is put through the step exactly once, at its own turn,
      from its original value; nodes keep their positions. */
  lemma {:induction false} RunWithVisitsOnce(step: (Proxy, map<string, Entry>, Lookup) -> Step, ps: seq<Proxy>,
                                            cache: map<string, Entry>, lookups: nat -> Lookup, k: nat, j: nat)
    requires j < k <= |ps|
    ensures var r := step(ps[j], RunWith(step, ps, cache, lookups, j).cache, lookups(j));
      RunWith(step, ps, cache, lookups, k).proxies[j] == r.proxy
      && RunWith(step, ps, cache, lookups, k).looked[j] == r.looked
  {
    if j < k - 1 {
      RunWithVisitsOnce(step, ps, cache, lookups, k - 1, j);
    } else {
      RunWithUntouched(step, ps, cache, lookups, j, j);
    }
  }

  /** The checks of nodes 0..k-1, one after the other. `lookups(i)` is what
      requestAPI hands back for node i. */
  function RunPrefix(cfg: Config, ps: seq<Proxy>, cache: map<string, Entry>, lookups: nat -> Lookup, k: nat): (s: RunState)
    requires k <= |ps|
  {
    RunWith(CheckOf(cfg), ps, cache, lookups, k)
  }

  /** check under a fixed configuration, as a step of a run. */
  function CheckOf(cfg: Config): (Proxy, map<string, Entry>, Lookup) -> Step {
    (p, c, l) => CheckStep(cfg, p, c, l)
  }

  /** The cache after node k-1 is what its check leaves from the cache before it. */
  lemma RunPrefixCache(cfg: Config, ps: seq<Proxy>, cache: map<string, Entry>, lookups: nat -> Lookup, k: nat)
    requires 0 < k <= |ps|
    ensures CacheBefore(cfg, ps, cache, lookups, k)
         == CheckStep(cfg, ps[k - 1], CacheBefore(cfg, ps, cache, lookups, k - 1), lookups(k - 1)).cache
  {
  }

  /** The cache as node j finds it. */
  function CacheBefore(cfg: Config, ps: seq<Proxy>, cache: map<string, Entry>, lookups: nat -> Lookup, j: nat): map<string, Entry>
    requires j <= |ps|
  {
    RunPrefix(cfg, ps, cache, lookups, j).cache
  }

  /** Each node is checked exactly once, at its own turn, from its original value;
      nodes keep their positions. */
  lemma RunChecksEachNodeOnce(cfg: Config, ps: seq<Proxy>, cache: map<string, Entry>, lookups: nat -> Lookup, k: nat, j: nat)
    requires j < k <= |ps|
    ensures var step := CheckStep(cfg, ps[j], CacheBefore(cfg, ps, cache, lookups, j), lookups(j));
      RunPrefix(cfg, ps, cache, lookups, k).proxies[j] == step.proxy
      && RunPrefix(cfg, ps, cache, lookups, k).looked[j] == step.looked
  {
    RunWithVisitsOnce(CheckOf(cfg), ps, cache, lookups, k, j);
  }

  /** Cache keys only accumulate over a run. */
  lemma {:induction false} RunKeepsKeys(cfg: Config, ps: seq<Proxy>, cache: map<string, Entry>, lookups: nat -> Lookup, i: nat, k: nat)
    requires i <= k <= |ps|
    ensures CacheBefore(cfg, ps, cache, lookups, i).Keys <= CacheBefore(cfg, ps, cache, lookups, k).Keys
  {
    if k > i {
      RunKeepsKeys(cfg, ps, cache, lookups, i, k - 1);
      RunPrefixCache(cfg, ps, cache, lookups, k);
      CheckRecordsKey(cfg, ps[k - 1], CacheBefore(cfg, ps, cache, lookups, k - 1), lookups(k - 1));
    }
  }

  /** With caching on, every node's key is in the cache once the node has been
      checked. */
  lemma RunRecordsKeys(cfg: Config, ps: seq<Proxy>, cache: map<string, Entry>, lookups: nat -> Lookup, j: nat, k: nat)
    requires cfg.cacheEnabled && j < k <= |ps|
    ensures CacheKey(cfg, ps[j]) in CacheBefore(cfg, ps, cache, lookups, k)
  {
    RunPrefixCache(cfg, ps, cache, lookups, j + 1);
    CheckRecordsKey(cfg, ps[j], CacheBefore(cfg, ps, cache, lookups, j), lookups(j));
    RunKeepsKeys(cfg, ps, cache, lookups, j + 1, k);
  }

  /** With caching on and `ignore_failed_error` off, a sequential run looks up each
      cache key at most once: never for a key already cached before the run, and
      never for a node that shares its key with an earlier node. */
  lemma RunLooksUpEachKeyOnce(cfg: Config, ps: seq<Proxy>, cache: map<string, Entry>, lookups: nat -> Lookup, i: nat, j: nat)
    requires cfg.cacheEnabled && !cfg.ignoreFailedError
    requires i < j < |ps| && CacheKey(cfg, ps[i]) == CacheKey(cfg, ps[j])
    ensures !RunPrefix(cfg, ps, cache, lookups, |ps|).looked[j]
    ensures CacheKey(cfg, ps[i]) in cache ==> !RunPrefix(cfg, ps, cache, lookups, |ps|).looked[i]
  {
    var n := |ps|;
    RunChecksEachNodeOnce(cfg, ps, cache, lookups, n, j);
    RunRecordsKeys(cfg, ps, cache, lookups, i, j);
    CachedMeansNoLookup(cfg, ps[j], CacheBefore(cfg, ps, cache, lookups, j), lookups(j));
    if CacheKey(cfg, ps[i]) in cache {
      RunChecksEachNodeOnce(cfg, ps, cache, lookups, n, i);
      RunKeepsKeys(cfg, ps, cache, lookups, 0, i);
      CachedMeansNoLookup(cfg, ps[i], CacheBefore(cfg, ps, cache, lookups, i), lookups(i));
    }
  }

  /** With caching off every node is looked up and the cache stays as it was. */
  lemma {:induction false} RunWithoutCache(cfg: Config, ps: seq<Proxy>, cache: map<string, Entry>, lookups: nat -> Lookup, k: nat)
    requires !cfg.cacheEnabled && k <= |ps|
    ensures RunPrefix(cfg, ps, cache, lookups, k).cache == cache
    ensures forall j :: 0 <= j < k ==> RunPrefix(cfg, ps, cache, lookups, k).looked[j]
  {
    if k > 0 {
      RunWithoutCache(cfg, ps, cache, lookups, k - 1);
    }
  }

  // ---------------------------------------------------------------- post-pass

  predicate Enriched(p: Proxy) {
    Truthy(Field(p, "_entrance"))
  }

  /** `proxies.filter(p => p._entrance)`. */
  function KeepEnriched(ps: seq<Proxy>): (r: seq<Proxy>)
    ensures |r| <= |ps|
    ensures forall p :: p in r <==> p in ps && Enriched(p)
  {
    if ps == [] then []
    else if Enriched(ps[0]) then [ps[0]] + KeepEnriched(ps[1..])
    else KeepEnriched(ps[1..])
  }

  /** The filter keeps relative order: filtering a concatenation concatenates the
      filtered parts. */
  lemma {:induction false} KeepEnrichedAppend(a: seq<Proxy>, b: seq<Proxy>)
    ensures KeepEnriched(a + b) == KeepEnriched(a) + KeepEnriched(b)
  {
    if a != [] {
      assert (a + b)[1..] == a[1..] + b;
      KeepEnrichedAppend(a[1..], b);
    } else {
      assert a + b == b;
    }
  }

  /** `delete p._entrance`. */
  function Strip(p: Proxy): (r: Proxy)
    ensures "_entrance" !in r
    ensures forall k :: k != "_entrance" ==> (k in r <==> k in p) && Field(r, k) == Field(p, k)
  {
    p - {"_entrance"}
  }

  function StripAll(ps: seq<Proxy>): (r: seq<Proxy>)
    ensures |r| == |ps|
    ensures forall i :: 0 <= i < |ps| ==> r[i] == Strip(ps[i])
  {
    if ps == [] then [] else [Strip(ps[0])] + StripAll(ps[1..])
  }

  /** `proxies.map(p => { delete p._entrance; return p })`, deleting in place. */
  method StripEntrances(a: array<Proxy>)
    modifies a
    ensures a[..] == StripAll(old(a[..]))
  {
    for i := 0 to a.Length
      invariant forall j :: 0 <= j < i ==> a[j] == Strip(old(a[j]))
      invariant forall j :: i <= j < a.Length ==> a[j] == old(a[j])
    {
      a[i] := a[i] - {"_entrance"};
    }
  }

  /** Lines 76-83. */
  function PostPass(cfg: Config, ps: seq<Proxy>): seq<Proxy> {
    var kept := if cfg.removeFailed then KeepEnriched(ps) else ps;
    if cfg.entrance then kept else StripAll(kept)
  }

  lemma {:induction false} StripAllAppend(a: seq<Proxy>, b: seq<Proxy>)
    ensures StripAll(a + b) == StripAll(a) + StripAll(b)
  {
    if a != [] {
      assert (a + b)[1..] == a[1..] + b;
      StripAllAppend(a[1..], b);
    } else {
      assert a + b == b;
    }
  }

  /** Whatever the flags, the post-pass works node by node and keeps the run's
      order: on a concatenation it concatenates the results. Without
      `remove_failed` it drops no node, and with `entrance` as well it is the
      identity. */
  lemma PostPassKeepsOrder(cfg: Config, a: seq<Proxy>, b: seq<Proxy>)
    ensures PostPass(cfg, a + b) == PostPass(cfg, a) + PostPass(cfg, b)
    ensures !cfg.removeFailed ==> |PostPass(cfg, a)| == |a|
    ensures !cfg.removeFailed && cfg.entrance ==> PostPass(cfg, a) == a
  {
    KeepEnrichedAppend(a, b);
    if cfg.removeFailed {
      StripAllAppend(KeepEnriched(a), KeepEnriched(b));
    } else {
      StripAllAppend(a, b);
    }
  }

  /** Without `entrance` (the default), whatever `remove_failed` says, no output
      node carries `_entrance`, and every output node is an input node with only
      `_entrance` deleted; without `remove_failed` as well, node i of the output
      is node i of the input. */
  lemma PostPassStrips(cfg: Config, ps: seq<Proxy>)
    requires !cfg.entrance
    ensures forall q :: q in PostPass(cfg, ps) ==> "_entrance" !in q
    ensures forall q :: q in PostPass(cfg, ps) ==> exists p :: p in ps && q == Strip(p)
    ensures !cfg.removeFailed ==>
      |PostPass(cfg, ps)| == |ps| && forall i :: 0 <= i < |ps| ==> PostPass(cfg, ps)[i] == Strip(ps[i])
  {
    var kept := if cfg.removeFailed then KeepEnriched(ps) else ps;
    var out := PostPass(cfg, ps);
    assert out == StripAll(kept);
    forall q | q in out
      ensures exists p :: p in ps && q == Strip(p)
    {
      var i :| 0 <= i < |out| && out[i] == q;
      assert kept[i] in kept;
    }
  }

  /** With `remove_failed`, whatever `entrance` says, the output holds exactly the
      enriched nodes (stripped of `_entrance` unless `entrance` is on), and
      nothing built from a node that failed. */
  lemma PostPassRemovesFailed(cfg: Config, ps: seq<Proxy>)
    requires cfg.removeFailed
    ensures forall p :: p in ps && Enriched(p) ==>
      (if cfg.entrance then p else Strip(p)) in PostPass(cfg, ps)
    ensures forall q :: q in PostPass(cfg, ps) ==>
      exists p :: p in ps && Enriched(p) && q == (if cfg.entrance then p else Strip(p))
  {
    var kept := KeepEnriched(ps);
    var out := PostPass(cfg, ps);
    if !cfg.entrance {
      assert out == StripAll(kept);
      forall p | p in ps && Enriched(p)
        ensures Strip(p) in out
      {
        var i :| 0 <= i < |kept| && kept[i] == p;
        assert out[i] == Strip(p);
      }
      forall q | q in out
        ensures exists p :: p in ps && Enriched(p) && q == Strip(p)
      {
        var i :| 0 <= i < |out| && out[i] == q;
        assert kept[i] in kept;
      }
    }
  }

  /** operator(proxies): check every node in list order (the bounded-concurrency
      executor is not modelled), then run the post-pass. */
  method Operator(cfg: Config, cache: Cache, proxies: array<Proxy>, lookups: nat -> Lookup) returns (result: seq<Proxy>)
    modifies proxies, cache
    ensures var run := RunPrefix(cfg, old(proxies[..]), old(cache.entries), lookups, proxies.Length);
      && proxies[..] == run.proxies
      && cache.entries == run.cache
      && result == PostPass(cfg, run.proxies)
  {
    ghost var ps := proxies[..];
    ghost var cache0 := cache.entries;
    for i := 0 to proxies.Length
      invariant proxies[..] == RunPrefix(cfg, ps, cache0, lookups, i).proxies
      invariant cache.entries == RunPrefix(cfg, ps, cache0, lookups, i).cache
    {
      RunWithUntouched(CheckOf(cfg), ps, cache0, lookups, i, i);
      var _ := Check(cfg, proxies, i, cache, lookups(i));
    }
    var kept := if cfg.removeFailed then KeepEnriched(proxies[..]) else proxies[..];
    var out := new Proxy[|kept|](j => if 0 <= j < |kept| then kept[j] else map[]);
    if !cfg.entrance {
      StripEntrances(out);
    }
    result := out[..];
  }
}
