/**
  The request flow of the browser: the catch-all route lists the buckets at "/"
  and any other path as a bucket and prefix, through the client's listing cache.
  A rendered template is modelled as the page it would be rendered from, and the
  values put on the request context for the access log as tags.
 */
module Server {
  import opened Wrappers
  import opened S3Client
  import opened PathUtil
  import Env

  /** What a request renders: the template chosen and the data handed to it. */
  datatype Page =
    | BucketsPage(siteName: string, buckets: seq<BucketInfo>)
    | BucketsErrorPage(siteName: string, error: string, path: string)
    | ObjectsPage(siteName: string, bucket: string, parentPrefix: string, prefix: string,
                  objects: seq<ObjectInfo>, hitCache: bool, lastCached: Time)
    | ObjectsErrorPage(siteName: string, error: string, bucket: string, parentPrefix: string, prefix: string)

  /** The HTTP status a page is rendered with. */
  function Status(page: Page): int {
    if page.BucketsPage? || page.ObjectsPage? then 200 else 500
  }

  /** The request-context values read by the access log: "hitCache" and "cacheExpire", when set. */
  datatype Tags = Tags(hitCache: Option<bool>, cacheExpire: Option<Time>)

  /** Everything one request produces: the page, the tags, the cache after it, and the store query it sent. */
  datatype Outcome = Outcome(page: Page, tags: Tags, cache: map<string, ListObjectsCacheEntry>, query: Option<ListObjectsV2Input>)

  function BucketInfos(bs: seq<Bucket>): (infos: seq<BucketInfo>)
    ensures |infos| == |bs|
    ensures forall i :: 0 <= i < |bs| ==> infos[i] == BucketInfoOf(bs[i])
  {
    seq(|bs|, i requires 0 <= i < |bs| => BucketInfoOf(bs[i]))
  }

  /** The zero time.Time, which a listing served from the store reports as its expiry. */
  const ZeroTime: Time := 0

  /** The bucket list at "/": the store's buckets, or its error, with the cache untouched. */
  function ServeBuckets(s3: Gateway, cache: map<string, ListObjectsCacheEntry>, siteName: string, now: Time): Outcome {
    var page := match s3.listBuckets(now)
      case Failure(cause) => BucketsErrorPage(siteName, ListBucketsError(cause), "/")
      case Success(bs) => BucketsPage(siteName, BucketInfos(bs));
    Outcome(page, Tags(None, None), cache, None)
  }

  /**
    The listing of a resolved path: with refresh=true the cached listing is dropped
    first; the listing is then served from the cache or the store; the expiry is
    looked up only on a hit; the expired entries are swept (at sweepNow, the
    sweep's own clock reading) whether or not the listing failed; and the page
    reports the expiry less the cache duration as the time the listing was cached.
   */
  function ServeListing(s3: Gateway, cacheDuration: Duration, cache: map<string, ListObjectsCacheEntry>,
                        siteName: string, loc: ResolvedPath, refresh: string, now: Time, sweepNow: Time): Outcome
  {
    var key := CacheKey(loc.bucket, loc.prefix);
    var cleared := if refresh == "true" then cache - {key} else cache;
    var p := QueryPrefix(loc.prefix);
    if Fresh(cleared, key, now) then
      var expiry := cleared[key].expiry;
      Outcome(
        ObjectsPage(siteName, loc.bucket, loc.parentPrefix, loc.prefix,
                    ObjectInfos(cleared[key].data, p), true, expiry - cacheDuration),
        Tags(Some(true), Some(expiry)),
        Sweep(cleared, sweepNow),
        None)
    else
      var q := ListQuery(loc.bucket, loc.prefix);
      match s3.listObjectsV2(q, now)
      case Failure(cause) =>
        Outcome(
          ObjectsErrorPage(siteName, ListObjectsError(loc.bucket, cause), loc.bucket, loc.parentPrefix, loc.prefix),
          Tags(Some(false), None),
          Sweep(cleared, sweepNow),
          Some(q))
      case Success(out) =>
        Outcome(
          ObjectsPage(siteName, loc.bucket, loc.parentPrefix, loc.prefix,
                      ObjectInfos(out, p), false, ZeroTime - cacheDuration),
          Tags(Some(false), None),
          Sweep(cleared[key := ListObjectsCacheEntry(out, now + cacheDuration)], sweepNow),
          Some(q))
  }

  /** handleRequest, one request at a time: "/" lists the buckets, any other path is resolved and listed. */
  function Serve(s3: Gateway, cacheDuration: Duration, cache: map<string, ListObjectsCacheEntry>,
                 siteName: string, path: string, refresh: string, now: Time, sweepNow: Time): Outcome
  {
    if path == "/" then ServeBuckets(s3, cache, siteName, now)
    else ServeListing(s3, cacheDuration, cache, siteName, ParsePath(path), refresh, now, sweepNow)
  }

  function QueryLog(query: Option<ListObjectsV2Input>): seq<ListObjectsV2Input> {
    match query
    case None => []
    case Some(q) => [q]
  }

  /** handleRequest over the client: the page and tags of Serve, and the client left in Serve's state. */
  method HandleRequest(client: Client, siteName: string, path: string, refresh: string, now: Time, sweepNow: Time)
    returns (page: Page, tags: Tags)
    modifies client
    ensures client.cacheDuration == old(client.cacheDuration)
    ensures var o := Serve(client.s3, old(client.cacheDuration), old(client.cache), siteName, path, refresh, now, sweepNow);
      && page == o.page && tags == o.tags && client.cache == o.cache
      && client.queries == old(client.queries) + QueryLog(o.query)
  {
    if path == "/" {
      page, tags := HandleBuckets(client, siteName, now);
    } else {
      page, tags := HandleListing(client, siteName, ParsePath(path), refresh, now, sweepNow);
    }
  }

  /** The "/" branch of handleRequest. */
  method HandleBuckets(client: Client, siteName: string, now: Time) returns (page: Page, tags: Tags)
    ensures var o := ServeBuckets(client.s3, client.cache, siteName, now);
      page == o.page && tags == o.tags
  {
    var r := client.ListBuckets(now);
    tags := Tags(None, None);
    match r
    case Failure(e) =>
      page := BucketsErrorPage(siteName, e, "/");
    case Success(bs) =>
      assert bs == BucketInfos(client.s3.listBuckets(now).value);
      page := BucketsPage(siteName, bs);
  }

  /** The listing branch of handleRequest, for the bucket and prefix the path resolved to. */
  method HandleListing(client: Client, siteName: string, loc: ResolvedPath, refresh: string, now: Time, sweepNow: Time)
    returns (page: Page, tags: Tags)
    modifies client
    ensures client.cacheDuration == old(client.cacheDuration)
    ensures var o := ServeListing(client.s3, old(client.cacheDuration), old(client.cache), siteName, loc, refresh, now, sweepNow);
      && page == o.page && tags == o.tags && client.cache == o.cache
      && client.queries == old(client.queries) + QueryLog(o.query)
  {
    ghost var key := CacheKey(loc.bucket, loc.prefix);
    if refresh == "true" {
      client.ClearListObjectsCache(loc.bucket, loc.prefix);
    }
    assert client.cache == if refresh == "true" then old(client.cache) - {key} else old(client.cache);
    var objects, hitCache, err := client.ListObjects(loc.bucket, loc.prefix, now);
    tags := Tags(Some(hitCache), None);
    var cacheExpire := ZeroTime;
    if hitCache {
      var entry := client.GetListObjectsCacheEntry(loc.bucket, loc.prefix);
      if entry.Some? {
        cacheExpire := entry.value.expiry;
        tags := tags.(cacheExpire := Some(cacheExpire));
      }
    }
    client.ClearOldListObjectsCache(sweepNow);
    match err
    case Some(e) =>
      page := ObjectsErrorPage(siteName, e, loc.bucket, loc.parentPrefix, loc.prefix);
    case None =>
      page := ObjectsPage(siteName, loc.bucket, loc.parentPrefix, loc.prefix, objects, hitCache,
                          cacheExpire - client.cacheDuration);
  }

  // ---------------------------------------------------------------------------
  // Properties of a request

  /** "/" lists the buckets and nothing else: no tags, no store listing, and the cache as it was. */
  lemma RootListsBuckets(s3: Gateway, d: Duration, cache: map<string, ListObjectsCacheEntry>,
                         site: string, refresh: string, now: Time, sweepNow: Time)
    ensures var o := Serve(s3, d, cache, site, "/", refresh, now, sweepNow);
      && o.cache == cache && o.query == None && o.tags == Tags(None, None)
      && (o.page.BucketsPage? <==> s3.listBuckets(now).Success?)
      && (o.page.BucketsPage? ==> o.page.buckets == BucketInfos(s3.listBuckets(now).value) && Status(o.page) == 200)
      && (o.page.BucketsErrorPage? ==> o.page.error == ListBucketsError(s3.listBuckets(now).error) && o.page.path == "/" && Status(o.page) == 500)
  {
  }

  /** Any other path lists the bucket and prefix ParsePath resolves it to, and asks the store only for those. */
  lemma ListsResolvedPath(s3: Gateway, d: Duration, cache: map<string, ListObjectsCacheEntry>,
                          site: string, path: string, refresh: string, now: Time, sweepNow: Time)
    requires path != "/"
    ensures var o := Serve(s3, d, cache, site, path, refresh, now, sweepNow);
      var loc := ParsePath(path);
      && (o.page.ObjectsPage? || o.page.ObjectsErrorPage?)
      && o.page.bucket == loc.bucket && o.page.parentPrefix == loc.parentPrefix && o.page.prefix == loc.prefix
      && (o.query.Some? ==> o.query.value == ListQuery(loc.bucket, loc.prefix))
      && o.tags.hitCache.Some?
  {
    ListingShowsLocation(s3, d, cache, site, ParsePath(path), refresh, now, sweepNow);
  }

  /** The listing of a resolved location renders that location and queries only its bucket and prefix. */
  lemma ListingShowsLocation(s3: Gateway, d: Duration, cache: map<string, ListObjectsCacheEntry>,
                             site: string, loc: ResolvedPath, refresh: string, now: Time, sweepNow: Time)
    ensures var o := ServeListing(s3, d, cache, site, loc, refresh, now, sweepNow);
      && (o.page.ObjectsPage? || o.page.ObjectsErrorPage?)
      && o.page.bucket == loc.bucket && o.page.parentPrefix == loc.parentPrefix && o.page.prefix == loc.prefix
      && (o.query.Some? ==> o.query.value == ListQuery(loc.bucket, loc.prefix))
      && o.tags.hitCache.Some?
  {
  }

  /** A request with refresh=true never hits the cache: it always asks the store. */
  lemma RefreshAlwaysQueries(s3: Gateway, d: Duration, cache: map<string, ListObjectsCacheEntry>,
                             site: string, path: string, now: Time, sweepNow: Time)
    requires path != "/"
    ensures var o := Serve(s3, d, cache, site, path, "true", now, sweepNow);
      && o.query.Some? && o.tags == Tags(Some(false), None)
      && (o.page.ObjectsPage? ==> !o.page.hitCache)
  {
  }

  /**
    The expiry is reported exactly on a hit, and then it lies strictly after the
    request's clock reading; a hit never asks the store.
   */
  lemma ExpiryOnlyOnHit(s3: Gateway, d: Duration, cache: map<string, ListObjectsCacheEntry>,
                        site: string, path: string, refresh: string, now: Time, sweepNow: Time)
    ensures var o := Serve(s3, d, cache, site, path, refresh, now, sweepNow);
      && (o.tags.cacheExpire.Some? <==> o.tags.hitCache == Some(true))
      && (o.tags.cacheExpire.Some? ==> o.tags.cacheExpire.value > now && o.query == None)
      && (o.tags.hitCache == Some(false) <==> o.query.Some?)
  {
    if path != "/" {
      ListingExpiryOnlyOnHit(s3, d, cache, site, ParsePath(path), refresh, now, sweepNow);
    }
  }

  lemma ListingExpiryOnlyOnHit(s3: Gateway, d: Duration, cache: map<string, ListObjectsCacheEntry>,
                               site: string, loc: ResolvedPath, refresh: string, now: Time, sweepNow: Time)
    ensures var o := ServeListing(s3, d, cache, site, loc, refresh, now, sweepNow);
      && (o.tags.cacheExpire.Some? <==> o.tags.hitCache == Some(true))
      && (o.tags.cacheExpire.Some? ==> o.tags.cacheExpire.value > now && o.query == None)
      && (o.tags.hitCache == Some(false) <==> o.query.Some?)
  {
  }

  /**
    A failed listing still sweeps the cache, and stores nothing: the cache afterwards
    is the swept cache before it (less the refreshed entry).
   */
  lemma FailedListingSweeps(s3: Gateway, d: Duration, cache: map<string, ListObjectsCacheEntry>,
                            site: string, path: string, refresh: string, now: Time, sweepNow: Time)
    requires Serve(s3, d, cache, site, path, refresh, now, sweepNow).page.ObjectsErrorPage?
    ensures var o := Serve(s3, d, cache, site, path, refresh, now, sweepNow);
      var key := CacheKey(ParsePath(path).bucket, ParsePath(path).prefix);
      && o.cache == Sweep(if refresh == "true" then cache - {key} else cache, sweepNow)
      && Status(o.page) == 500
  {
  }

  /** After any listing, successful or not, no entry that expired before the sweep is left. */
  lemma ListingLeavesNoExpired(s3: Gateway, d: Duration, cache: map<string, ListObjectsCacheEntry>,
                               site: string, path: string, refresh: string, now: Time, sweepNow: Time)
    requires path != "/"
    ensures var o := Serve(s3, d, cache, site, path, refresh, now, sweepNow);
      forall k :: k in o.cache ==> o.cache[k].expiry >= sweepNow
  {
  }

  /**
    Two listings of the same path within the cache duration: the second is served
    from the cache with the same rows, asks the store nothing, and reports the
    time of the first as its last-cached time. The first request's sweep must not
    run later than the entry's expiry.
   */
  lemma SecondListingHits(s3: Gateway, d: Duration, cache: map<string, ListObjectsCacheEntry>,
                          site: string, path: string, refresh: string,
                          t1: Time, s1: Time, t2: Time, s2: Time)
    requires path != "/"
    requires Serve(s3, d, cache, site, path, refresh, t1, s1).query.Some?
    requires Serve(s3, d, cache, site, path, refresh, t1, s1).page.ObjectsPage?
    requires t1 <= t2 < t1 + d && s1 <= t1 + d
    ensures var o1 := Serve(s3, d, cache, site, path, refresh, t1, s1);
      var o2 := Serve(s3, d, o1.cache, site, path, "", t2, s2);
      && o2.query == None
      && o2.page.ObjectsPage? && o2.page.hitCache
      && o2.page.objects == o1.page.objects
      && o2.page.lastCached == t1
  {
    var loc := ParsePath(path);
    var key := CacheKey(loc.bucket, loc.prefix);
    var o1 := Serve(s3, d, cache, site, path, refresh, t1, s1);
    assert o1.cache[key].expiry == t1 + d;
  }

  /**
    With a cache duration of zero, a listing that was just stored is never served
    from the cache: every later request for it asks the store again.
   */
  lemma ZeroDurationNeverHits(s3: Gateway, cache: map<string, ListObjectsCacheEntry>,
                              site: string, path: string, r1: string, r2: string,
                              t1: Time, s1: Time, t2: Time, s2: Time)
    requires path != "/"
    requires Serve(s3, 0, cache, site, path, r1, t1, s1).query.Some?
    requires t2 >= t1
    ensures var o1 := Serve(s3, 0, cache, site, path, r1, t1, s1);
      var o2 := Serve(s3, 0, o1.cache, site, path, r2, t2, s2);
      && o2.query.Some? && o2.tags.hitCache == Some(false)
  {
    var loc := ParsePath(path);
    var key := CacheKey(loc.bucket, loc.prefix);
    var o1 := Serve(s3, 0, cache, site, path, r1, t1, s1);
    assert key in o1.cache ==> o1.cache[key].expiry <= t1;
  }

  // ---------------------------------------------------------------------------
  // Startup

  /** A configured value, or the default when it is empty. */
  function OrDefault(value: string, default: string): string {
    if value == "" then default else value
  }

  /** StartServer's listen address: the configured IP and port, defaulting to 0.0.0.0 and 1323. */
  function ListenAddress(cfg: Env.PBConfig): string {
    OrDefault(cfg.ipAddress, "0.0.0.0") + ":" + OrDefault(cfg.port, "1323")
  }

  /** The listen address uses each configured value when it is set and the default when it is empty. */
  lemma ListenAddressDefaults(cfg: Env.PBConfig)
    ensures var a := ListenAddress(cfg);
      && (cfg.ipAddress == "" ==> a[..8] == "0.0.0.0:")
      && (cfg.port == "" ==> a[|a| - 5..] == ":1323")
      && (cfg.ipAddress != "" ==> a[..|cfg.ipAddress| + 1] == cfg.ipAddress + ":")
      && (cfg.port != "" ==> a[|a| - |cfg.port| - 1..] == ":" + cfg.port)
      && (cfg.ipAddress != "" && cfg.port != "" ==> a == cfg.ipAddress + ":" + cfg.port)
      && |a| > |cfg.ipAddress| + |cfg.port|
  {
  }

  /** With an empty environment the server listens on 0.0.0.0:1323 and caches listings for an hour. */
  lemma EmptyEnvironmentDefaults(parseDuration: Env.DurationParser)
    ensures ListenAddress(Env.LoadPBConfig(map[], parseDuration)) == "0.0.0.0:1323"
    ensures Env.LoadPBConfig(map[], parseDuration).cacheDuration == 60 * Env.Minute
  {
  }

  /** SetupRoutes' client: the store's gateway, the configured cache duration, and an empty cache. */
  method NewServerClient(gateway: Gateway, cfg: Env.PBConfig) returns (client: Client)
    ensures fresh(client)
    ensures client.s3 == gateway && client.cacheDuration == cfg.cacheDuration
    ensures client.cache == map[] && client.queries == []
  {
    client := new Client(gateway, 0);
    client.cacheDuration := cfg.cacheDuration;
  }
}
