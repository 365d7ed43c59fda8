/**
  The browser's configuration, read once from the process environment. The
  environment is a map from variable names to values (an unset variable is
  absent, and reads as the empty string), and Go's time.ParseDuration is a
  parameter: a partial function from text to nanoseconds.
 */
module Env {
  import opened Wrappers

  type Environment = map<string, string>

  /** A time.Duration: a count of nanoseconds. */
  type Duration = int

  /** time.ParseDuration, left uninterpreted: None stands for its error. */
  type DurationParser = string -> Option<Duration>

  const Minute: Duration := 60_000_000_000
  const DefaultCacheDuration: Duration := 60 * Minute
  const DefaultSiteName := "polybuckets"

  const AwsRegionKey := "AWS_REGION"
  const AwsProfileKey := "AWS_PROFILE"
  const AwsEndpointKey := "AWS_ENDPOINT"
  const PortKey := "PB_PORT"
  const IpAddressKey := "PB_IP_ADDRESS"
  const SiteNameKey := "PB_SITE_NAME"
  const PbCacheDurationKey := "PB_CACHE_DURATION"
  const CacheDurationKey := "CACHE_DURATION"

  datatype PBConfig = PBConfig(
    awsRegion: string,
    awsProfile: string,
    awsEndpoint: string,
    port: string,
    ipAddress: string,
    cacheDuration: Duration,
    siteName: string)

  /** os.Getenv: the value of a variable, or "" when it is unset. */
  function Getenv(env: Environment, key: string): string {
    if key in env then env[key] else ""
  }

  /** A parse that succeeds gives its duration; a failed parse leaves Go's zero value. */
  function ParsedOrZero(parsed: Option<Duration>): Duration {
    match parsed
    case Some(d) => d
    case None => 0
  }

  /**
    loadPBConfig as written: the plain fields are copied, the site name defaults
    to "polybuckets", and the cache duration defaults to one hour. When
    PB_CACHE_DURATION is set, the duration is parsed from CACHE_DURATION, a
    different variable, and is zero when that parse fails.
   */
  function LoadPBConfig(env: Environment, parseDuration: DurationParser): PBConfig {
    var site := Getenv(env, SiteNameKey);
    PBConfig(
      Getenv(env, AwsRegionKey),
      Getenv(env, AwsProfileKey),
      Getenv(env, AwsEndpointKey),
      Getenv(env, PortKey),
      Getenv(env, IpAddressKey),
      if Getenv(env, PbCacheDurationKey) != "" then ParsedOrZero(parseDuration(Getenv(env, CacheDurationKey)))
      else DefaultCacheDuration,
      if site == "" then DefaultSiteName else site)
  }

  /** loadPBConfig as evidently intended: the duration is parsed from PB_CACHE_DURATION itself. */
  function LoadPBConfigFixed(env: Environment, parseDuration: DurationParser): PBConfig {
    var pb := Getenv(env, PbCacheDurationKey);
    LoadPBConfig(env, parseDuration).(
      cacheDuration := if pb != "" then ParsedOrZero(parseDuration(pb)) else DefaultCacheDuration)
  }

  // ---------------------------------------------------------------------------
  // Properties of the configuration as written

  /** A variable read verbatim: its value when set, the empty string when unset. */
  predicate ReadVerbatim(env: Environment, key: string, field: string) {
    (key in env ==> field == env[key]) && (key !in env ==> field == "")
  }

  /** The AWS settings, the port and the IP address are the variables' values, untouched. */
  lemma LoadPBConfigCopies(env: Environment, parseDuration: DurationParser)
    ensures var cfg := LoadPBConfig(env, parseDuration);
      && ReadVerbatim(env, AwsRegionKey, cfg.awsRegion)
      && ReadVerbatim(env, AwsProfileKey, cfg.awsProfile)
      && ReadVerbatim(env, AwsEndpointKey, cfg.awsEndpoint)
      && ReadVerbatim(env, PortKey, cfg.port)
      && ReadVerbatim(env, IpAddressKey, cfg.ipAddress)
  {
  }

  /** The site name is never empty: PB_SITE_NAME when that is set and non-empty, "polybuckets" otherwise. */
  lemma SiteNameDefault(env: Environment, parseDuration: DurationParser)
    ensures var cfg := LoadPBConfig(env, parseDuration);
      && cfg.siteName != ""
      && (SiteNameKey in env && env[SiteNameKey] != "" ==> cfg.siteName == env[SiteNameKey])
      && (SiteNameKey !in env || env[SiteNameKey] == "" ==> cfg.siteName == "polybuckets")
  {
  }

  /** Without a non-empty PB_CACHE_DURATION, listings are cached for 60 minutes, in both readings. */
  lemma CacheDurationDefault(env: Environment, parseDuration: DurationParser)
    requires PbCacheDurationKey !in env || env[PbCacheDurationKey] == ""
    ensures LoadPBConfig(env, parseDuration).cacheDuration == 3_600_000_000_000
    ensures LoadPBConfigFixed(env, parseDuration).cacheDuration == 3_600_000_000_000
  {
  }

  /**
    With a non-empty PB_CACHE_DURATION, the duration comes from CACHE_DURATION: its
    parse when that succeeds, zero otherwise (an unset CACHE_DURATION is parsed as "").
   */
  lemma CacheDurationFromOtherKey(env: Environment, parseDuration: DurationParser)
    requires PbCacheDurationKey in env && env[PbCacheDurationKey] != ""
    ensures var d := LoadPBConfig(env, parseDuration).cacheDuration;
      && (CacheDurationKey in env ==>
            match parseDuration(env[CacheDurationKey])
            case Some(p) => d == p
            case None => d == 0)
      && (CacheDurationKey !in env ==> d == (if parseDuration("").Some? then parseDuration("").value else 0))
  {
  }

  /** The value of PB_CACHE_DURATION is never parsed: any two non-empty values give the same configuration. */
  lemma PbCacheDurationValueIgnored(env: Environment, parseDuration: DurationParser, v1: string, v2: string)
    requires v1 != "" && v2 != ""
    ensures LoadPBConfig(env[PbCacheDurationKey := v1], parseDuration)
         == LoadPBConfig(env[PbCacheDurationKey := v2], parseDuration)
  {
    var e1, e2 := env[PbCacheDurationKey := v1], env[PbCacheDurationKey := v2];
    assert forall k :: k != PbCacheDurationKey ==> Getenv(e1, k) == Getenv(e2, k);
    assert Getenv(e1, CacheDurationKey) == Getenv(e2, CacheDurationKey);
  }

  /**
    The key mismatch exhibited: PB_CACHE_DURATION=5m alone, with a parser that reads
    "5m" as five minutes and rejects "" (as time.ParseDuration does), disables the
    cache, while the intended reading caches for five minutes.
   */
  lemma KeyMismatchExample(parseDuration: DurationParser)
    requires parseDuration("5m") == Some(5 * Minute) && parseDuration("") == None
    ensures LoadPBConfig(map[PbCacheDurationKey := "5m"], parseDuration).cacheDuration == 0
    ensures LoadPBConfigFixed(map[PbCacheDurationKey := "5m"], parseDuration).cacheDuration == 300_000_000_000
  {
    var env := map[PbCacheDurationKey := "5m"];
    assert CacheDurationKey !in env;
  }

  // ---------------------------------------------------------------------------
  // Properties of the corrected configuration

  /** The corrected configuration honours PB_CACHE_DURATION: its parse when that succeeds, zero otherwise. */
  lemma FixedHonoursSetting(env: Environment, parseDuration: DurationParser)
    requires PbCacheDurationKey in env && env[PbCacheDurationKey] != ""
    ensures var d := LoadPBConfigFixed(env, parseDuration).cacheDuration;
      match parseDuration(env[PbCacheDurationKey])
      case Some(p) => d == p
      case None => d == 0
  {
  }

  /**
    The correction changes nothing but the cache duration, and not even that when
    PB_CACHE_DURATION is unset or empty, or when CACHE_DURATION holds the same text.
   */
  lemma FixedAgreesElsewhere(env: Environment, parseDuration: DurationParser)
    ensures LoadPBConfigFixed(env, parseDuration).(cacheDuration := 0)
         == LoadPBConfig(env, parseDuration).(cacheDuration := 0)
    ensures Getenv(env, PbCacheDurationKey) == "" || Getenv(env, PbCacheDurationKey) == Getenv(env, CacheDurationKey)
      ==> LoadPBConfigFixed(env, parseDuration) == LoadPBConfig(env, parseDuration)
  {
  }
}
