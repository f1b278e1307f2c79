/**
  The immutable configuration records of the network layer and their
  documented defaults (NetworkConfiguration.kt).
 */
module Config {
  import opened Http

  datatype LoggingConfigurationLevel = NONE | BASIC | BODY | HEADERS

  datatype LoggingConfiguration = LoggingConfiguration(
    debugPrivateData: bool,
    loggingConfigurationLevel: LoggingConfigurationLevel)

  datatype HeaderMapConfiguration = HeaderMapConfiguration(
    headers: map<string, string>,
    patternRegex: Option<string>)

  datatype RetryConfiguration = RetryConfiguration(maxRetries: Int32, initialDelayMillis: Int64)

  datatype CacheConfiguration = CacheConfiguration(cacheSize: Int64, cacheDirectory: string)

  /** A Gson type adapter registration, by identity. */
  datatype TypeAdapter = TypeAdapter(id: nat)

  datatype GsonConfiguration = GsonConfiguration(
    dateFormat: string,
    typeAdapters: seq<TypeAdapter>,
    prettyPrinting: bool)

  /** A `java.net.CookieManager` instance, by identity. */
  datatype CookieManager = CookieManager(id: nat)

  datatype NetworkConfiguration = NetworkConfiguration(
    homeServerUrl: string,
    networkInterceptors: seq<Interceptor>,
    interceptors: seq<Interceptor>,
    readTimeoutInSecs: Option<Int64>,
    writeTimeoutInSecs: Option<Int64>,
    connectTimeoutInSecs: Option<Int64>,
    refreshTokenTimeoutInSecs: Int64,
    retryConfiguration: Option<RetryConfiguration>,
    gsonConfiguration: GsonConfiguration,
    loggingConfiguration: LoggingConfiguration,
    headerMapConfiguration: HeaderMapConfiguration,
    cacheConfiguration: Option<CacheConfiguration>,
    cookieManager: Option<CookieManager>)

  const DefaultDateFormat: string := "yyyy-MM-dd'T'HH:mm:ssZ"

  /** `LoggingConfiguration()` with every argument left to its default. */
  function DefaultLoggingConfiguration(): (c: LoggingConfiguration)
    ensures !c.debugPrivateData && c.loggingConfigurationLevel == BASIC
  {
    LoggingConfiguration(false, BASIC)
  }

  /** `HeaderMapConfiguration()` with every argument left to its default. */
  function DefaultHeaderMapConfiguration(): (c: HeaderMapConfiguration)
    ensures |c.headers| == 0 && c.patternRegex.None?
  {
    HeaderMapConfiguration(map[], None)
  }

  /** `GsonConfiguration()` with every argument left to its default. */
  function DefaultGsonConfiguration(): (c: GsonConfiguration)
    ensures c.dateFormat == DefaultDateFormat && c.typeAdapters == [] && !c.prettyPrinting
  {
    GsonConfiguration(DefaultDateFormat, [], false)
  }

  /**
    `NetworkConfiguration(homeServerUrl)`: only the server URL given, every
    other parameter at its declared default.
   */
  function DefaultConfiguration(homeServerUrl: string): (c: NetworkConfiguration)
    ensures c.homeServerUrl == homeServerUrl
    ensures c.networkInterceptors == [] && c.interceptors == []
    ensures c.readTimeoutInSecs.None? && c.writeTimeoutInSecs.None? && c.connectTimeoutInSecs.None?
    ensures c.refreshTokenTimeoutInSecs == 30
    ensures c.retryConfiguration.None?
    ensures c.loggingConfiguration == DefaultLoggingConfiguration()
    ensures c.headerMapConfiguration == DefaultHeaderMapConfiguration()
    ensures c.gsonConfiguration == DefaultGsonConfiguration()
    ensures c.cacheConfiguration.None? && c.cookieManager.None?
  {
    NetworkConfiguration(
      homeServerUrl, [], [], None, None, None, 30, None,
      DefaultGsonConfiguration(), DefaultLoggingConfiguration(), DefaultHeaderMapConfiguration(),
      None, None)
  }

  /** The enum has exactly four constants, and they are pairwise distinct. */
  lemma LoggingLevelsAreFour(l: LoggingConfigurationLevel)
    ensures l in {NONE, BASIC, BODY, HEADERS}
    ensures |{NONE, BASIC, BODY, HEADERS}| == 4
  {
  }
}
