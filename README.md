# polybuckets: a Dafny model of the bucket browser's core

polybuckets is a small web browser for S3-compatible object stores. At `/` it lists
the buckets. Any other path is read as a bucket and a prefix, and the browser shows
the "directories" (common prefixes) and files under that prefix. Listings are kept
in an in-memory cache keyed by bucket and prefix. An entry is served until it
expires; a `refresh=true` query drops it first; expired entries are swept after
every listing. Configuration comes from environment variables.

This project models that core and proves properties of it:

- `wrappers.dfy` (`Wrappers`): `Option` and `Result`. They stand for Go's nil pointers and its (value, error) pairs.
- `go_strings.dfy` (`GoStrings`): the `strings` functions the path code relies on, over `seq<char>`: `HasPrefix`, `HasSuffix`, `TrimPrefix`, `Trim`, `Split` and `Join`, with a one-character cut set or separator.
- `go_format.dfy` (`GoFormat`): what `formatSize` and the error messages borrow from Go's `strconv` and `fmt`:
  - the conversion of an integer to `float64`;
  - rounding to one decimal, half to even;
  - decimal rendering;
  - `%q` quoting.
- `util.dfy` (`PathUtil`): `ParsePath` and `joinPath` (internal/util.go).
- `client.dfy` (`S3Client`): the store client (internal/s3client/client.go):
  - `formatSize`;
  - `convertToObjectInfo`, as a method with two loops proved against the function `ObjectInfos`;
  - `ListBuckets`;
  - the class `Client`. Its cache map is a `map` field that `ListObjects`, `ClearListObjectsCache` and `ClearOldListObjectsCache` update in place.
- `env.dfy` (`Env`): `loadPBConfig` (internal/env/env.go) as a function of an environment map.
- `server.dfy` (`Server`):
  - `handleRequest` (internal/server/server.go) as a method over a `Client`, proved against the function `Serve`, which lemmas then characterise;
  - the listen-address defaults of `StartServer`;
  - the client set up by `SetupRoutes`.

Modelling choices:
- **Time.** A `time.Time` is an integer count of nanoseconds since Go's zero time, and a `time.Duration` is a count of nanoseconds. `After` is `>` and `Before` is `<`.
- **The clock.** Every `time.Now()` reading is a parameter: `now` for the listing and `sweepNow` for the sweep, which reads the clock again inside its own goroutine.
- **The store.** The store is a `Gateway`: two function values that give the store's answer to a request at a given instant. `ListObjectsV2` answers with its common prefixes and objects, or with an error text.
- **Store queries.** The `Client` keeps a ghost log, `queries`, of every `ListObjectsV2` request it sent. Properties such as "a cache hit asks the store nothing" are stated with it.
- **Rendering.** A rendered template is modelled as a `Page` value: the template chosen plus the data passed to it. The values stored on the request context for the access log are modelled as `Tags`.
- **`time.ParseDuration`** is an uninterpreted parameter, `string -> Option<Duration>`.

Two points where the source's own text and its code part ways; the model follows the code:
- The comment on `formatSize` (internal/s3client/client.go:232) speaks of SI prefixes, but the thresholds at internal/s3client/client.go:238-250 are binary: a kilobyte is 1024 bytes, and every negative size falls to the byte branch.
- `ListObjects` (internal/s3client/client.go:156) takes no refresh parameter. A forced refresh is `handleRequest` clearing the entry before it calls `ListObjects` (internal/server/server.go:159-161).

## Model

| member | source | states |
|---|---|---|
| GoStrings.TrimPrefix | internal/s3client/client.go:195 | the result, put after the prefix, gives back the string when the string starts with the prefix; otherwise the string is unchanged |
| GoStrings.Split | internal/util.go:19 | a split always has at least one piece; it has exactly one piece, the string itself, iff the separator does not occur |
| GoStrings.SplitPiecesFree | internal/util.go:19 | no piece of a split contains the separator |
| GoStrings.JoinSplit | internal/util.go:8-10 | joining the pieces of a split on the same separator gives back the string |
| GoStrings.SplitJoin | internal/util.go:19 | splitting the join of separator-free pieces gives back the pieces |
| GoStrings.TrimLeftSpec | internal/util.go:19 | TrimLeft removes exactly the leading run of the cut character |
| GoStrings.TrimRightSpec | internal/util.go:19 | TrimRight removes exactly the trailing run of the cut character |
| GoStrings.TrimEmptyIff | internal/util.go:19 | trimming gives "" iff the string consists only of the cut character |
| GoStrings.TrimmedEnds | internal/util.go:19 | a trimmed string neither starts nor ends with the cut character |
| GoStrings.TrimIgnoresOuter | internal/util.go:19 | any leading and trailing runs of the cut character leave Trim unchanged |
| GoStrings.TrimIdempotent | internal/util.go:19 | trimming twice is trimming once |
| PathUtil.DropLeadingSlash | internal/util.go:15-17 | the path loses at most one character: a leading '/' |
| PathUtil.Segments | internal/util.go:15-19 | the segment list is never empty, so the `len(parts) == 0` branch cannot be taken |
| PathUtil.SegmentsOfTrim | internal/util.go:15-19 | dropping one leading '/' before trimming changes nothing: the segments are those of the fully trimmed path |
| PathUtil.ParsePathOfTrim | internal/util.go:15-19 | ParsePath depends only on the path with all outer slashes trimmed |
| PathUtil.SlashInsensitive | internal/util.go:15-19 | adding any number of leading or trailing slashes does not change the result |
| PathUtil.BucketShape | internal/util.go:19-24 | the bucket never contains '/', and it is empty iff the path consists only of slashes |
| PathUtil.BucketPrefixRoundTrip | internal/util.go:19-31 | when the trimmed path contains '/', it is the bucket, '/' and the prefix; otherwise it is the bucket and the prefix is empty |
| PathUtil.ParentPrefixOfPrefix | internal/util.go:27-31 | the parent prefix is a string prefix of the prefix; with three or more segments the prefix is the parent, '/' and the last segment; with at most two the parent is empty |
| PathUtil.PrefixHasNoTrailingSlash | internal/util.go:19-31 | the prefix never ends with '/' |
| PathUtil.SegmentsOfUntrimmed | internal/util.go:15-19 | a path without outer slashes is split as it is |
| PathUtil.TwoSegments | internal/util.go:24-31 | "a/b" resolves to bucket a, no parent and prefix b |
| PathUtil.ThreeSegments | internal/util.go:24-31 | "a/b/d" resolves to bucket a, parent b and prefix "b/d" |
| PathUtil.FourSegments | internal/util.go:24-31 | "a/b/d/e" resolves to bucket a, parent "b/d" and prefix "b/d/e" |
| PathUtil.ParsePathEmptyExample | internal/util_test.go:18-24 | the empty path resolves to three empty strings |
| PathUtil.ParsePathBucketExample | internal/util_test.go:25-31 | "my-bucket" resolves to that bucket with empty prefixes |
| PathUtil.ParsePathDirsExample | internal/util_test.go:32-38 | "my-bucket/dir1/dir2" resolves to parent "dir1" and prefix "dir1/dir2" |
| PathUtil.ParsePathSlashesExample | internal/util_test.go:39-45 | "/my-bucket/dir1/" resolves to bucket "my-bucket", no parent and prefix "dir1" |
| PathUtil.ParsePathDeepExample | internal/util_test.go:46-52 | "my-bucket/parent/current/child" resolves to parent "parent/current" and prefix "parent/current/child" |
| PathUtil.InteriorEmptySegmentExample | internal/util.go:19-31 | interior empty segments are kept: "b//x" resolves to prefix "/x" |
| PathUtil.JoinPathExamples | internal/util_test.go:72-91 | joinPath of [], ["dir"], ["parent","child","file.txt"] and ["","dir",""] |
| PathUtil.JoinPathSplit | internal/util.go:8-10 | joinPath after a split on '/' is the identity |
| GoFormat.RoundHalfEvenNearest | internal/s3client/client.go:253 | the rounded quotient is within half a unit of the exact one, and is even on an exact tie |
| GoFormat.RoundHalfEvenUnique | internal/s3client/client.go:253 | any number within half a unit, and even on a tie, is the rounded quotient |
| GoFormat.RoundHalfEvenBetween | internal/s3client/client.go:253 | a quotient between two whole numbers rounds to a number between them |
| GoFormat.RoundHalfEvenExact | internal/s3client/client.go:253 | an exact quotient is returned unchanged |
| GoFormat.UlpBounds | internal/s3client/client.go:238-250 | the spacing of float64 values around m is at least 1, m lies below 2^53 spacings, and above 2^53 the spacing is at most 2m/2^53 |
| GoFormat.Float64OfNearest | internal/s3client/client.go:238-250 | float64(size) is a multiple of the spacing and within half a spacing of size |
| GoFormat.NatToString | internal/s3client/client.go:253 | the decimal text is non-empty, all digits, and has no leading zero |
| GoFormat.ParseNatToString | internal/s3client/client.go:253 | the decimal text reads back as the number |
| GoFormat.NatToStringInjective | internal/s3client/client.go:253 | distinct numbers have distinct decimal texts |
| GoFormat.FixedOneDecimal | internal/s3client/client.go:253 | the text ends in a '.' followed by exactly one digit, after at least one character |
| GoFormat.FixedOneDecimalInjective | internal/s3client/client.go:253 | equal one-decimal texts have the same sign and tenths |
| GoFormat.EscapeChar | internal/s3client/client.go:178 | an escape starts with '\\' exactly for quotes, backslashes and control characters |
| GoFormat.EscapePlain | internal/s3client/client.go:178 | text without quotes, backslashes or control characters is kept as it is |
| GoFormat.Quote | internal/s3client/client.go:178 | %q output is enclosed in double quotes |
| GoFormat.UnescapeEscape | internal/s3client/client.go:178 | unescaping the %q escape of any text gives the text back |
| S3Client.FormatSizeUnit | internal/s3client/client.go:236-252 | the unit suffix is TB iff size ≥ 2^40, GB iff 2^30 ≤ size < 2^40, MB, KB likewise, and B iff size < 1024 (negatives included) |
| S3Client.FormatSizeRange | internal/s3client/client.go:233-254 | from KB up the number shown is at least 1.0, and at most 1024.0 below TB; below 1024 bytes, negative sizes down to -2^53 included, it is the exact magnitude of the byte count |
| S3Client.FormatSizeAccuracy | internal/s3client/client.go:233-254 | up to 2^53 bytes the number shown is within half a tenth of the exact size in its unit |
| S3Client.FormatSizeReadBack | internal/s3client/client.go:233-254 | two sizes with the same text have the same unit, the same sign and the same tenths |
| S3Client.FormatSizeWholeUnits | internal/s3client/client.go:233-254 | k whole units, below the next unit, are shown as k, ".0" and that unit |
| S3Client.FormatSizeByteExamples | internal/s3client/client_test.go:223-224 | 0 → "0.0 B" and 500 → "500.0 B" |
| S3Client.FormatSizeSmallUnitExamples | internal/s3client/client_test.go:225-227 | 1024 and 2^20 bytes are shown as 1.0 KB and 1.0 MB |
| S3Client.FormatSizeLargeUnitExamples | internal/s3client/client_test.go:228-229 | 2^30 and 2^40 bytes are shown as 1.0 GB and 1.0 TB |
| S3Client.FormatSizeHalfExample | internal/s3client/client_test.go:226 | 1536 → "1.5 KB" |
| S3Client.FormatSizeTieExample | internal/s3client/client.go:247-253 | 1280 → "1.2 KB": an exact tie rounds to the even tenth |
| S3Client.FormatSizeNegativeExample | internal/s3client/client.go:250-253 | -5 → "-5.0 B": a negative size is shown in bytes |
| S3Client.FormatSizeBelowMiBExample | internal/s3client/client.go:244-253 | 1048575 → "1024.0 KB": the unit follows the size, not the rounded value |
| S3Client.ListedMembers | internal/s3client/client.go:200-204 | an object is listed iff it is in the response and its key is not the prefix |
| S3Client.ListedAppend | internal/s3client/client.go:200-204 | filtering a concatenation filters each part, in order |
| S3Client.ObjectInfosShape | internal/s3client/client.go:190-218 | the rows are the directory rows of the common prefixes in order, then the file rows of the listed objects in order, and nothing else |
| S3Client.NoMarkerRow | internal/s3client/client.go:200-204 | no file row is named by the prefix, and none is a directory |
| S3Client.ShortNames | internal/s3client/client.go:190-218 | every row's short name is its name with the prefix trimmed |
| S3Client.ShortNameRoundTrip | internal/s3client/client.go:190-218 | for every row under the prefix, the prefix followed by the short name is the name |
| S3Client.ConvertToObjectInfo | internal/s3client/client.go:190-218 | the two loops build exactly the rows of ObjectInfos |
| S3Client.ConvertToObjectInfoExample | internal/s3client/client_test.go:112-145 | two common prefixes and one 1024-byte file under "test/prefix/" give rows "dir1/", "dir2/" and "file1.txt" of "1.0 KB" |
| S3Client.QueryPrefix | internal/s3client/client.go:161-163 | an empty prefix, or one already ending in '/', is sent unchanged; any other prefix is sent with one '/' appended; so the queried prefix is empty or ends with '/' and starts with the given prefix |
| S3Client.QueryPrefixIdempotent | internal/s3client/client.go:161-163 | normalising twice is normalising once |
| S3Client.RawPrefixKeys | internal/s3client/client.go:157-163 | a prefix with and without a trailing '/' gives one query but two distinct cache keys |
| S3Client.RawPrefixKeysExample | internal/s3client/client.go:157-163 | ("b","d") and ("b","d/") have distinct keys and the same query |
| S3Client.CacheKeyInjective | internal/s3client/client.go:157 | as buckets contain no '/', equal keys come from equal buckets and prefixes |
| S3Client.ListObjectsErrorPlain | internal/s3client/client.go:178 | a plain bucket name appears in the error verbatim, in double quotes, followed by the cause |
| S3Client.ListObjectsErrorExample | internal/s3client/client_test.go:154 | the failed listing of "invalid-bucket" with "access denied" gives the expected message |
| S3Client.SweepRemovesExpired | internal/s3client/client.go:120-127 | an entry survives the sweep iff it expires at or after the sweep time, and it survives unchanged |
| S3Client.SweepPreservesHits | internal/s3client/client.go:120-127 | a sweep never changes whether a later request hits |
| S3Client.SweepIdempotent | internal/s3client/client.go:120-127 | sweeping twice at the same time is sweeping once |
| S3Client.SweepLeavesNoExpired | internal/s3client/client.go:120-127 | after a sweep no entry expired before the sweep time |
| S3Client.Client.constructor | internal/s3client/client.go:62 | a new client starts with an empty cache |
| S3Client.Client.ClearListObjectsCache | internal/s3client/client.go:104-107 | exactly the key of (bucket, prefix) is removed, and removing an absent key changes nothing |
| S3Client.Client.GetListObjectsCacheEntry | internal/s3client/client.go:110-117 | the entry of the key whatever its expiry, and None iff there is none |
| S3Client.Client.ClearOldListObjectsCache | internal/s3client/client.go:120-127 | the loop over the keys leaves exactly the swept cache |
| S3Client.Client.ListBuckets | internal/s3client/client.go:130-144 | the store's error is wrapped as "ListBuckets operation failed: …"; on success one BucketInfo per bucket, in order |
| S3Client.Client.ListObjects | internal/s3client/client.go:156-188 | a hit iff the raw-prefix key is cached and expires after now. A hit serves the cached rows, leaves the cache as it was and asks the store nothing. A miss sends one query with the normalised prefix and '/' as delimiter. A successful miss stores the answer until now + CacheDuration. A failed miss leaves the cache as it was and returns no rows and the quoted error |
| Env.LoadPBConfigCopies | internal/env/env.go:31-38 | AWS_REGION, AWS_PROFILE, AWS_ENDPOINT, PB_PORT and PB_IP_ADDRESS are copied verbatim; an unset variable gives "" |
| Env.SiteNameDefault | internal/env/env.go:37-43 | the site name is PB_SITE_NAME when that is non-empty and "polybuckets" otherwise, so it is never empty |
| Env.CacheDurationDefault | internal/env/env.go:45-52 | an unset or empty PB_CACHE_DURATION gives 60 minutes |
| Env.CacheDurationFromOtherKey | internal/env/env.go:45-49 | a non-empty PB_CACHE_DURATION makes the duration the parse of CACHE_DURATION, or 0 when that parse fails |
| Env.PbCacheDurationValueIgnored | internal/env/env.go:45-49 | any two non-empty values of PB_CACHE_DURATION give the same configuration |
| Env.KeyMismatchExample | internal/env/env.go:45-49 | PB_CACHE_DURATION=5m on its own gives duration 0, while the corrected reading gives 5 minutes |
| Env.FixedHonoursSetting | internal/env/env.go:45-52 | the corrected reading takes the duration from PB_CACHE_DURATION itself |
| Env.FixedAgreesElsewhere | internal/env/env.go:30-58 | the correction changes only the cache duration, and not even that when PB_CACHE_DURATION is empty or equals CACHE_DURATION |
| Server.HandleRequest | internal/server/server.go:129-198 | the page, the tags, the new cache and the store queries are those of Serve |
| Server.HandleBuckets | internal/server/server.go:132-153 | the "/" branch renders the page and tags of ServeBuckets |
| Server.HandleListing | internal/server/server.go:155-196 | the listing branch (clear on refresh, list, look up the expiry on a hit, sweep, render) renders the page and leaves the cache of ServeListing |
| Server.RootListsBuckets | internal/server/server.go:132-153 | "/" never touches the cache or lists objects. It renders the bucket list with status 200, or the wrapped error with status 500 and the path "/" |
| Server.ListsResolvedPath | internal/server/server.go:155-163 | any other path renders the bucket, parent prefix and prefix ParsePath gives. The store is asked only about that bucket and prefix |
| Server.RefreshAlwaysQueries | internal/server/server.go:159-163 | with refresh=true the listing always misses and asks the store |
| Server.ExpiryOnlyOnHit | internal/server/server.go:165-173 | cacheExpire is set exactly on a hit, and then lies after the request's clock reading. The store is asked exactly on a miss |
| Server.FailedListingSweeps | internal/server/server.go:175-186 | a failed listing renders status 500 and still sweeps; it stores nothing |
| Server.ListingLeavesNoExpired | internal/server/server.go:175-176 | after any listing no entry expired before the sweep is left |
| Server.SecondListingHits | internal/server/server.go:188-196 | a second listing within the cache duration is a hit with the same rows, asks nothing, and shows the first listing's time as LastCached |
| Server.ZeroDurationNeverHits | internal/server/server.go:163-173 | with a cache duration of 0 a stored listing is never served again: every later request asks the store |
| Server.ListenAddressDefaults | internal/server/server.go:202-211 | an empty IP gives "0.0.0.0", an empty port gives "1323"; a set IP opens the address, followed by ':', and a set port closes it, after ':', each used as it is |
| Server.EmptyEnvironmentDefaults | internal/server/server.go:202-209 | with an empty environment, the configuration as the program reads it listens on 0.0.0.0:1323 and caches for an hour |
| Server.NewServerClient | internal/server/server.go:79-80 | the client of the routes has the configured cache duration and an empty cache |

## Left out

- `NewClient`'s AWS wiring is not modelled: configuration loading, the endpoint override, `WithConfig` and `WithCustomClient` (internal/s3client/client.go:34-89). Only the creation of the empty cache map is kept. It is foreign SDK code.
- `GetObject` and the download route (internal/s3client/client.go:221-230, internal/server/server.go:95-119) are not modelled. They stream objects and call `url.QueryUnescape`, both I/O through foreign code.
- Templates, Echo routing, middleware and the access-log format are not modelled. Neither is the RFC 3339 (section 5.6) rendering of the expiry. The model keeps the values handed to them: `Page`, `Tags` and the status.
- S3Client.Client.ClearOldListObjectsCache: the sweep runs here as a synchronous call, with its own clock reading `sweepNow`. In the program it runs as a goroutine over an unsynchronised map, and that race is not modelled.
- Server.HandleRequest: one request is served at a time. The interleaving of concurrent requests over the shared map is not modelled.
- GoFormat.Quote escapes only ASCII quotes, backslashes and control characters. `strconv.Quote` also escapes non-printable Unicode characters and invalid UTF-8, and the model's strings are sequences of characters with no encoding.
- S3Client.FormatSize rounds an exact tie to the even tenth. That is the rule of `strconv.FormatFloat` for `'f'` with precision 1, which lives in library code not shown here. The conversion `float64(size)` is modelled as round-to-nearest-even on the integer.
- Time arithmetic is plain integer arithmetic. Go's `Time.Add` saturates at the limits of its range, and `time.Time` also carries a monotonic reading and a location. `.UTC()` on LastCached changes only the location, so it is not modelled.
- The global `time.Local = time.UTC` assignment in `loadPBConfig` (internal/env/env.go:55) is left out. It is a process-wide side effect with no effect on the modelled values.
- The nil-pointer dereferences of fields coming from the store are not modelled (`*b.Name`, `*obj.Key`, `*obj.Size` and so on). The model's records always carry values.
- main.go and internal/logger.go are not part of this model. main.go is an older copy of the server that no longer matches the client's signatures; logger.go is a one-line wrapper around the logger.
- `SetupRoutes` assigns the cache duration before it checks `NewClient`'s error. Only the assignment is modelled, by Server.NewServerClient.

## Findings

| source | as written | input that shows it | evidently intended | confidence | as-written member | corrected member |
|---|---|---|---|---|---|---|
| internal/env/env.go:45-46 | checks that PB_CACHE_DURATION is set, then parses CACHE_DURATION | PB_CACHE_DURATION=5m with CACHE_DURATION unset: `time.ParseDuration("")` fails, so CacheDuration is 0 and no listing is ever served from the cache | parse the value of PB_CACHE_DURATION | high, not executed | Env.LoadPBConfig (Env.KeyMismatchExample, Server.ZeroDurationNeverHits) | Env.LoadPBConfigFixed (Env.FixedHonoursSetting) |
