/**
  The dependency-injection module (NetworkModule.kt): the HTTP logging
  interceptor's level and redaction, the order of the built-in interceptors,
  the converter factories, and the Retrofit client for the home server.
 */
module NetworkModule {
  import opened Http
  import Config
  import HttpClient
  import RetrofitFactory

  /** `HttpLoggingInterceptor.Level`. */
  datatype Level = NONE | BASIC | HEADERS | BODY

  /** The `when` of `provideHttpLoggingInterceptor`: each configuration level to the logging level of the same name. */
  function ToHttpLoggingLevel(level: Config.LoggingConfigurationLevel): Level {
    match level
    case NONE => NONE
    case BASIC => BASIC
    case BODY => BODY
    case HEADERS => HEADERS
  }

  function ConfigLevelName(level: Config.LoggingConfigurationLevel): string {
    match level
    case NONE => "NONE"
    case BASIC => "BASIC"
    case BODY => "BODY"
    case HEADERS => "HEADERS"
  }

  function LevelName(level: Level): string {
    match level
    case NONE => "NONE"
    case BASIC => "BASIC"
    case HEADERS => "HEADERS"
    case BODY => "BODY"
  }

  /**
    The mapping keeps each level's name, and it is a bijection: no two
    configuration levels share a logging level and every logging level is hit.
   */
  lemma LevelMappingIsBijective(a: Config.LoggingConfigurationLevel, b: Config.LoggingConfigurationLevel, l: Level)
    ensures LevelName(ToHttpLoggingLevel(a)) == ConfigLevelName(a)
    ensures ToHttpLoggingLevel(a) == ToHttpLoggingLevel(b) ==> a == b
    ensures exists c :: ToHttpLoggingLevel(c) == l
  {
    match l
    case NONE => assert ToHttpLoggingLevel(Config.NONE) == l;
    case BASIC => assert ToHttpLoggingLevel(Config.BASIC) == l;
    case HEADERS => assert ToHttpLoggingLevel(Config.HEADERS) == l;
    case BODY => assert ToHttpLoggingLevel(Config.BODY) == l;
  }

  /** `FormattedJsonHttpLogger(level)`: the logger is told the same level. */
  datatype Logger = FormattedJsonHttpLogger(level: Level)

  /** OkHttp's logging interceptor: the header names it redacts and its level, both set after construction. */
  class HttpLoggingInterceptor {
    const logger: Logger
    var headersToRedact: set<string>
    var level: Level

    constructor(logger: Logger)
      ensures this.logger == logger && headersToRedact == {} && level == NONE
    {
      this.logger := logger;
      headersToRedact := {};
      level := NONE;
    }

    method RedactHeader(name: string)
      modifies this
      ensures headersToRedact == old(headersToRedact) + {name} && level == old(level)
    {
      headersToRedact := headersToRedact + {name};
    }
  }

  /** The headers kept out of the logs: Authorization and Cookie unless private data may be logged. */
  function RedactedHeaders(logging: Config.LoggingConfiguration): (r: set<string>)
    ensures "Authorization" in r <==> !logging.debugPrivateData
    ensures "Cookie" in r <==> !logging.debugPrivateData
    ensures r <= {"Authorization", "Cookie"}
  {
    if logging.debugPrivateData then {} else {"Authorization", "Cookie"}
  }

  /** `provideHttpLoggingInterceptor`. */
  method ProvideHttpLoggingInterceptor(networkConfiguration: Config.NetworkConfiguration)
    returns (interceptor: HttpLoggingInterceptor)
    ensures fresh(interceptor)
    ensures interceptor.level == ToHttpLoggingLevel(networkConfiguration.loggingConfiguration.loggingConfigurationLevel)
    ensures interceptor.logger == FormattedJsonHttpLogger(interceptor.level)
    ensures interceptor.headersToRedact == RedactedHeaders(networkConfiguration.loggingConfiguration)
  {
    var httpLoggingLevel := ToHttpLoggingLevel(networkConfiguration.loggingConfiguration.loggingConfigurationLevel);
    var logger := FormattedJsonHttpLogger(httpLoggingLevel);
    interceptor := new HttpLoggingInterceptor(logger);
    if !networkConfiguration.loggingConfiguration.debugPrivateData {
      interceptor.RedactHeader("Authorization");
      interceptor.RedactHeader("Cookie");
    }
    interceptor.level := httpLoggingLevel;
  }

  const Builtins: seq<Interceptor> := [Builtin(AuthToken), Builtin(Api), Builtin(HttpLogging), Builtin(TimeOut)]

  /**
    `provideOkHttpClient`: auth token, api, HTTP logging and timeout
    interceptors in that order, the curl logger last only when private data
    may be logged, then assembled with the configuration; the timeouts, cache
    and cookie jar are those `getHttpClientBuilder` takes from it.
   */
  method ProvideOkHttpClient(configuration: Config.NetworkConfiguration) returns (client: HttpClient.OkHttpClient)
    ensures configuration.loggingConfiguration.debugPrivateData ==>
              client.interceptors == HttpClient.Assembled(Builtins + [Builtin(CurlLogging)], configuration.interceptors)
    ensures !configuration.loggingConfiguration.debugPrivateData ==>
              client.interceptors == HttpClient.Assembled(Builtins, configuration.interceptors)
    ensures client.networkInterceptors == configuration.networkInterceptors
    ensures client.connectTimeoutSecs == configuration.connectTimeoutInSecs
    ensures client.readTimeoutSecs == configuration.readTimeoutInSecs
    ensures client.writeTimeoutSecs == configuration.writeTimeoutInSecs
    ensures client.cache.Some? <==> configuration.cacheConfiguration.Some?
    ensures client.cache.Some? ==>
              client.cache.value == HttpClient.Cache(configuration.cacheConfiguration.value.cacheDirectory,
                                                     configuration.cacheConfiguration.value.cacheSize)
    ensures client.cookieJar.Some? <==> configuration.cookieManager.Some?
    ensures client.cookieJar.Some? ==>
              client.cookieJar.value == HttpClient.JavaNetCookieJar(configuration.cookieManager.value)
  {
    var interceptors := [Builtin(AuthToken), Builtin(Api), Builtin(HttpLogging), Builtin(TimeOut)];
    if configuration.loggingConfiguration.debugPrivateData {
      interceptors := interceptors + [Builtin(CurlLogging)];
    }
    client := HttpClient.GetHttpClientBuilder(configuration, interceptors);
  }

  /**
    When the application supplies only its own interceptors, they run after
    every built-in one, the auth token interceptor runs first, and the curl
    logger is present exactly when private data may be logged.
   */
  lemma SuppliedInterceptorsRunAfterBuiltins(debugPrivateData: bool, configured: seq<Interceptor>)
    requires forall i :: i in configured ==> i.Supplied?
    ensures var builtins := if debugPrivateData then Builtins + [Builtin(CurlLogging)] else Builtins;
      && HttpClient.Assembled(builtins, configured) == builtins + configured
      && HttpClient.Assembled(builtins, configured)[0] == Builtin(AuthToken)
      && (Builtin(CurlLogging) in HttpClient.Assembled(builtins, configured) <==> debugPrivateData)
  {
    var builtins := if debugPrivateData then Builtins + [Builtin(CurlLogging)] else Builtins;
    HttpClient.RemoveAllBounds(builtins, configured);
    assert Builtin(CurlLogging) !in configured;
    if !debugPrivateData {
      assert Builtin(CurlLogging) !in Builtins;
    }
  }

  /** A `Gson` instance, by identity. */
  datatype Gson = Gson(id: nat)

  /** `provideConverterFactories`: the Unit converter is consulted before the Gson one. */
  function ProvideConverterFactories(gson: Gson): (r: seq<RetrofitFactory.ConverterFactory>)
    ensures |r| == 2
    ensures RetrofitFactory.UnitConverterFactory in r && RetrofitFactory.GsonConverterFactory(gson.id) in r
    ensures forall i, j :: 0 <= i < j < |r| && r[j] == RetrofitFactory.UnitConverterFactory ==>
              !r[i].GsonConverterFactory?
  {
    [RetrofitFactory.UnitConverterFactory, RetrofitFactory.GsonConverterFactory(gson.id)]
  }

  /** `provideRetrofitClient`: the factory's instance for the home-server URL. */
  method ProvideRetrofitClient(configuration: Config.NetworkConfiguration, okHttpClient: RetrofitFactory.ClientProvider,
                               retrofitFactory: RetrofitFactory.RetrofitFactory,
                               converterFactories: seq<RetrofitFactory.ConverterFactory>)
    returns (retrofit: RetrofitFactory.Retrofit)
    requires retrofitFactory.Valid()
    modifies retrofitFactory
    ensures retrofitFactory.Valid()
    ensures configuration.homeServerUrl in retrofitFactory.retrofitInstanceMap
    ensures retrofit == retrofitFactory.retrofitInstanceMap[configuration.homeServerUrl]
    ensures retrofit.baseUrl == RetrofitFactory.EnsureTrailingSlash(configuration.homeServerUrl)
  {
    retrofit := retrofitFactory.GetRetrofitInstance(okHttpClient, configuration.homeServerUrl, converterFactories);
  }
}
