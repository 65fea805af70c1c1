/**
 * The performance monitor's state: its configuration, the response cache
 * (a Map that remembers insertion order, with expiry times), the buffer of
 * resource timings, the threshold test and the resource classification.
 * The clock is the parameter `now` (milliseconds); observers, timers,
 * the fetch interception and the panel are left out.
 */
module Performance {
  import opened Wrappers
  import opened Strings
  import opened Seqs

  // ---------------------------------------------------------------------
  // Configuration

  /** The caller's options; an absent one is a key the options object lacks. */
  datatype Options = Options(
    enableMetrics: Option<bool>,
    enableCaching: Option<bool>,
    cacheSize: Option<nat>,
    performanceThresholds: Option<map<string, nat>>,
    reportingInterval: Option<nat>)

  datatype Config = Config(
    enableMetrics: bool,
    enableCaching: bool,
    cacheSize: nat,
    thresholds: map<string, nat>,
    reportingInterval: nat)

  /** Load time 3000 ms, interaction time 100 ms, memory 50 MiB. */
  const DefaultThresholds: map<string, nat> :=
    map["loadTime" := 3000, "interactionTime" := 100, "memoryUsage" := 50 * 1024 * 1024]

  /** `value || fallback` for a number that may be absent. */
  function OrDefault(v: Option<nat>, fallback: nat): nat {
    if v.Some? && v.value != 0 then v.value else fallback
  }

  /**
   * The configuration as the constructor writes it: the trailing
   * `...options` puts every option the caller gave back over the merged
   * values, so a caller's thresholds replace the defaults outright and an
   * explicit 0 for the cache size or the interval stays 0.
   */
  function ConfigAsWritten(o: Options): Config {
    Config(o.enableMetrics.GetOr(true), o.enableCaching.GetOr(true),
      o.cacheSize.GetOr(100), o.performanceThresholds.GetOr(DefaultThresholds), o.reportingInterval.GetOr(30000))
  }

  /** The configuration the merge evidently intends: `|| 100`, `|| 30000`, and the caller's thresholds over the defaults. */
  function ConfigIntended(o: Options): Config {
    Config(o.enableMetrics.GetOr(true), o.enableCaching.GetOr(true),
      OrDefault(o.cacheSize, 100), DefaultThresholds + o.performanceThresholds.GetOr(map[]),
      OrDefault(o.reportingInterval, 30000))
  }

  /** As written, thresholds of the caller for one type drop the default for the others. */
  lemma ThresholdsAsWrittenDropDefaults()
    ensures var o := Options(None, None, None, Some(map["loadTime" := 5000]), None);
      var c := ConfigAsWritten(o);
      "interactionTime" !in c.thresholds && "interactionTime" in DefaultThresholds
  {
    assert "interactionTime" != "loadTime";
  }

  /** As written, an explicit cache size of 0 survives the `|| 100`. */
  lemma CacheSizeAsWrittenKeepsZero()
    ensures ConfigAsWritten(Options(None, None, Some(0), None, None)).cacheSize == 0
  {
  }

  /** The intended merge keeps each default unless the caller sets that type, and the caller's value wins. */
  lemma ConfigIntendedMerges(o: Options, t: string)
    ensures var c := ConfigIntended(o);
      var given := o.performanceThresholds.GetOr(map[]);
      (t in c.thresholds <==> t in DefaultThresholds || t in given)
      && (t in given ==> c.thresholds[t] == given[t])
      && (t !in given && t in DefaultThresholds ==> c.thresholds[t] == DefaultThresholds[t])
  {
  }

  /** The intended cache size and interval are never 0; without options everything is the default. */
  lemma ConfigIntendedDefaults(o: Options)
    ensures ConfigIntended(o).cacheSize >= 1 && ConfigIntended(o).reportingInterval >= 1
    ensures o.cacheSize.Some? && o.cacheSize.value != 0 ==> ConfigIntended(o).cacheSize == o.cacheSize.value
    ensures ConfigIntended(Options(None, None, None, None, None))
      == Config(true, true, 100, DefaultThresholds, 30000)
  {
    assert DefaultThresholds + map[] == DefaultThresholds;
  }

  // ---------------------------------------------------------------------
  // Thresholds and resource types

  datatype Issue = Issue(metric: string, value: int, threshold: nat)

  /** `checkThresholds`: the issue it reports, if any. */
  function CheckThresholds(thresholds: map<string, nat>, metric: string, value: int): Option<Issue> {
    if metric in thresholds && thresholds[metric] != 0 && value > thresholds[metric]
    then Some(Issue(metric, value, thresholds[metric])) else None
  }

  /**
   * A larger value of a reported metric is reported too, with the same
   * threshold; a value at the threshold never is, nor any value of a
   * metric without a non-zero threshold.
   */
  lemma CheckThresholdsMonotone(thresholds: map<string, nat>, metric: string, v1: int, v2: int)
    requires v1 <= v2
    ensures var r1 := CheckThresholds(thresholds, metric, v1);
      var r2 := CheckThresholds(thresholds, metric, v2);
      r1.Some? ==> r2.Some? && r2.value.threshold == r1.value.threshold && r2.value.value == v2
    ensures metric in thresholds ==> CheckThresholds(thresholds, metric, thresholds[metric]).None?
    ensures metric !in thresholds || thresholds[metric] == 0 ==> CheckThresholds(thresholds, metric, v2).None?
  {
  }

  /** The `types` table of `getResourceType`. */
  function TypeOfExtension(ext: string): Option<string> {
    if ext == "js" then Some("script")
    else if ext == "css" then Some("stylesheet")
    else if ext == "png" || ext == "jpg" || ext == "jpeg" || ext == "gif" || ext == "svg" then Some("image")
    else if ext == "woff" || ext == "woff2" || ext == "ttf" then Some("font")
    else None
  }

  /** `getResourceType`: the lower-cased text after the last `.`, looked up, `other` when unknown. */
  function GetResourceType(url: string): (r: string)
    ensures r in {"script", "stylesheet", "image", "font", "other"}
  {
    TypeOfExtension(Lower(AfterLast(url, '.'))).GetOr("other")
  }

  /** A URL is classified by its extension, in any letter case. */
  lemma ResourceTypeOfExtension(path: string, ext: string)
    requires '.' !in ext
    ensures GetResourceType(path + "." + ext) == TypeOfExtension(Lower(ext)).GetOr("other")
  {
    assert path + "." + ext == path + ['.'] + ext;
    AfterLastOf(path, '.', ext);
  }

  // ---------------------------------------------------------------------
  // The monitor

  /** One cache entry: the data and the time after which it is stale. */
  datatype CacheItem = CacheItem(data: string, expiry: int)

  /** One entry of `metrics.apiCalls` from `recordResourceMetrics`. */
  datatype ResourceMetric = ResourceMetric(name: string, rtype: string, duration: nat, size: nat, timestamp: int)

  function NotKey(key: string): string -> bool { (k: string) => k != key }

  class PerformanceMonitor {
    var config: Config
    /** The keys of `this.cache` in insertion order, and what each holds. */
    var order: seq<string>
    var store: map<string, CacheItem>
    var cacheHits: nat
    var cacheMisses: nat
    var apiCalls: seq<ResourceMetric>

    /** The cache's key order lists each stored key exactly once. */
    ghost predicate Valid()
      reads this
    {
      Distinct(order) && forall k :: k in store <==> k in order
    }

    /** The configuration from the options, an empty cache, zero counters, no timings. */
    constructor(o: Options)
      ensures config == ConfigIntended(o) && Valid()
      ensures order == [] && store == map[] && cacheHits == 0 && cacheMisses == 0 && apiCalls == []
    {
      config := ConfigIntended(o);
      order := [];
      store := map[];
      cacheHits := 0;
      cacheMisses := 0;
      apiCalls := [];
    }

    /**
     * `setCache`: when the cache holds `cacheSize` keys or more, the
     * earliest-inserted key goes first (even when `key` is already
     * stored); then `key` maps to the data, expiring `ttl` after `now`
     * (a caller that omits `ttl` passes five minutes, 300000).
     * A key already present keeps its place.
     */
    method SetCache(key: string, data: string, ttl: int, now: int)
      requires Valid()
      modifies this`order, this`store
      ensures Valid()
      ensures var full := |old(order)| >= config.cacheSize && |old(order)| > 0;
        var kept := if full then old(order)[1..] else old(order);
        order == (if key in kept then kept else kept + [key])
        && store == (if full then old(store) - {old(order)[0]} else old(store))[key := CacheItem(data, now + ttl)]
      ensures config.cacheSize >= 1 && |old(order)| <= config.cacheSize ==> |order| <= config.cacheSize
      ensures key in store && store[key] == CacheItem(data, now + ttl)
    {
      if |order| >= config.cacheSize && |order| > 0 {
        var first := order[0];
        assert first !in order[1..] by {
          forall k | 0 <= k < |order[1..]| ensures order[1..][k] != first { assert order[1..][k] == order[k + 1]; }
        }
        store := store - {first};
        order := order[1..];
      }
      if key !in order {
        order := order + [key];
      }
      store := store[key := CacheItem(data, now + ttl)];
    }

    /**
     * `getFromCache`: nothing for an absent key; a stale entry (`now`
     * past its expiry) is deleted and nothing returned; otherwise the
     * entry, with the insertion order untouched.
     */
    method GetFromCache(key: string, now: int) returns (r: Option<CacheItem>)
      requires Valid()
      modifies this`order, this`store
      ensures Valid() && |order| <= |old(order)|
      ensures key !in old(store) ==> r.None? && order == old(order) && store == old(store)
      ensures key in old(store) && now > old(store)[key].expiry ==>
        r.None? && store == old(store) - {key} && order == Filter(old(order), NotKey(key))
      ensures key in old(store) && now <= old(store)[key].expiry ==>
        r == Some(old(store)[key]) && order == old(order) && store == old(store)
    {
      if key !in store {
        return None;
      }
      var item := store[key];
      if now > item.expiry {
        FilterDistinct(order, NotKey(key));
        FilterMembers(order, NotKey(key));
        store := store - {key};
        order := Filter(order, NotKey(key));
        return None;
      }
      return Some(item);
    }

    /** `clearCache`: empties the cache and zeroes both counters. */
    method ClearCache()
      modifies this`order, this`store, this`cacheHits, this`cacheMisses
      ensures Valid() && order == [] && store == map[] && cacheHits == 0 && cacheMisses == 0
    {
      order := [];
      store := map[];
      cacheHits := 0;
      cacheMisses := 0;
    }

    /**
     * `recordResourceMetrics`: past 1000 entries the buffer is cut to the
     * last 500, then the new entry is appended.
     */
    method RecordResourceMetrics(name: string, duration: nat, size: nat, now: int)
      modifies this`apiCalls
      ensures var m := ResourceMetric(name, GetResourceType(name), duration, size, now);
        apiCalls == (if |old(apiCalls)| > 1000 then old(apiCalls)[|old(apiCalls)| - 500..] else old(apiCalls)) + [m]
      ensures |apiCalls| <= 1001 && |apiCalls| <= |old(apiCalls)| + 1
      ensures apiCalls[|apiCalls| - 1] == ResourceMetric(name, GetResourceType(name), duration, size, now)
      ensures apiCalls[..|apiCalls| - 1] == old(apiCalls)[|old(apiCalls)| - (|apiCalls| - 1)..]
    {
      var m := ResourceMetric(name, GetResourceType(name), duration, size, now);
      if |apiCalls| > 1000 {
        apiCalls := apiCalls[|apiCalls| - 500..];
      }
      apiCalls := apiCalls + [m];
    }
  }
}
