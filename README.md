# droidcraft-sdk network layer, in Dafny

A model of the HTTP layer of the droidcraft Android SDK. The layer is a set of
OkHttp interceptors with the configuration and the client and Retrofit
assembly around them. Each interceptor is modelled on its own. The rest of the
chain below it (`chain.proceed`) is a scripted `Downstream`: a function from
the number of the call to its outcome, which is a response or an exception.

- `Http` (http.dfy): requests, responses, exceptions and the scripted
  downstream. Header lookup and removal follow OkHttp: names are compared
  case-insensitively and `header(name)` returns the last value with that name.
- `Config` (config.dfy): `NetworkConfiguration` and its sub-configurations,
  with their declared defaults.
- `ApiInterceptor` (api_interceptor.dfy): the registry of response
  listeners. It is an insertion-ordered map from `ApiPath` to listener lists,
  kept in a class that `AddListener` and `RemoveListener` update in place.
  The module also holds the segment-by-segment template matcher and the
  delivery of a response body to the listeners of the first matching key.
- `RetryInterceptor` (retry_interceptor.dfy): the retry loop with
  exponential backoff. The loop method is proved equal to `Retry`, a
  declarative specification stated over the sequence of attempt outcomes.
- `AuthTokenInterceptor` (auth_token_interceptor.dfy): the Bearer token
  header and the refresh protocol on 401. The protocol is one refresh, then
  at most one re-issue of the request.
- `TimeOutInterceptor` (timeout_interceptor.dfy): the three per-request
  timeout directives. It includes a model of Java's `Integer.valueOf`.
- `RetrofitFactory` (retrofit_factory.dfy): the get-or-create cache of
  Retrofit instances, keyed by the raw base-URL string.
- `HttpClient` (http_client.dfy): the OkHttp builder and the
  remove-then-append assembly of the interceptor lists.
- `NetworkModule` (network_module.dfy): the logging level and redaction, the
  order of the built-in interceptors, and the converter factories.
- `NetworkModuleApi` (network_module_api.dfy): the SDK entry point and its
  checks: the service must be an interface, and `initialize` must have run.

Assumptions about code outside the modelled files:

- `addHeaderIfAbsent` appends a header only when no header of that name is
  present.
- `ensureTrailingSlash` appends "/" unless the string already ends with one.
- `tryOrNull` swallows what a listener throws.
- `HttpStatusCode.UNAUTHORIZED.code` is 401.
- `findApiPath` compares methods with reference identity (`===`). The
  model compares them as strings. The two agree when method strings are
  interned, as OkHttp's are for the standard methods.

## Model

| member | source | states |
|---|---|---|
| Config.DefaultConfiguration | droidcraft-sdk/src/main/java/me/sankalpchauhan/droidcraft/sdk/network/internal/config/NetworkConfiguration.kt:24-38 | with only the server URL given: both interceptor lists are empty; the read, write and connect timeouts are null; the refresh timeout is 30 s; retry is disabled; logging, header-map and Gson settings are at their defaults; there is no cache and no cookie manager |
| Config.DefaultLoggingConfiguration | droidcraft-sdk/src/main/java/me/sankalpchauhan/droidcraft/sdk/network/internal/config/NetworkConfiguration.kt:55-58 | logging defaults to `debugPrivateData = false` and level BASIC |
| Config.DefaultHeaderMapConfiguration | droidcraft-sdk/src/main/java/me/sankalpchauhan/droidcraft/sdk/network/internal/config/NetworkConfiguration.kt:40-43 | the header map defaults to empty, with no pattern |
| Config.DefaultGsonConfiguration | droidcraft-sdk/src/main/java/me/sankalpchauhan/droidcraft/sdk/network/internal/config/NetworkConfiguration.kt:60-64 | the Gson date format is "yyyy-MM-dd'T'HH:mm:ssZ", with no type adapters and no pretty printing |
| Config.LoggingLevelsAreFour | droidcraft-sdk/src/main/java/me/sankalpchauhan/droidcraft/sdk/network/internal/config/NetworkConfiguration.kt:66-71 | every logging configuration level is one of exactly four distinct values |
| Http.HeaderValue | droidcraft-sdk/src/main/java/me/sankalpchauhan/droidcraft/sdk/network/internal/interceptors/TimeOutInterceptor.kt:61-63 | `header(name)` is present iff some header has that name (case-insensitive), and it is the value of the last such header |
| Http.RemoveHeader | droidcraft-sdk/src/main/java/me/sankalpchauhan/droidcraft/sdk/network/internal/interceptors/TimeOutInterceptor.kt:65-68 | `removeHeader(name)` keeps exactly the headers whose names differ from `name` |
| ApiInterceptor.Split | droidcraft-sdk/src/main/java/me/sankalpchauhan/droidcraft/sdk/network/internal/interceptors/ApiInterceptor.kt:101-102 | `split("/")` gives one more segment than there are slashes, and no segment contains a slash |
| ApiInterceptor.JoinSplit | droidcraft-sdk/src/main/java/me/sankalpchauhan/droidcraft/sdk/network/internal/interceptors/ApiInterceptor.kt:101-102 | joining the pieces of a split with "/" gives back the string |
| ApiInterceptor.SplitJoin | droidcraft-sdk/src/main/java/me/sankalpchauhan/droidcraft/sdk/network/internal/interceptors/ApiInterceptor.kt:101-102 | splitting a "/"-join of slash-free segments gives back the segments |
| ApiInterceptor.NormalizePath | droidcraft-sdk/src/main/java/me/sankalpchauhan/droidcraft/sdk/network/internal/interceptors/ApiInterceptor.kt:72 | `replaceFirst("/", "")`: its contract is carried by LeadingSlashTemplate |
| ApiInterceptor.IsTheSamePath | droidcraft-sdk/src/main/java/me/sankalpchauhan/droidcraft/sdk/network/internal/interceptors/ApiInterceptor.kt:100-109 | `isTheSamePath`: its contract is carried by SlashCountMismatch, LiteralTemplateMatchesOnlyItself, TemplateMatchesInstances and FirstLiteralMismatch |
| ApiInterceptor.SlashCountMismatch | droidcraft-sdk/src/main/java/me/sankalpchauhan/droidcraft/sdk/network/internal/interceptors/ApiInterceptor.kt:101-104 | a template and a path with different segment counts never match |
| ApiInterceptor.LiteralTemplateMatchesOnlyItself | droidcraft-sdk/src/main/java/me/sankalpchauhan/droidcraft/sdk/network/internal/interceptors/ApiInterceptor.kt:100-109 | a template with no placeholder segment matches a path iff the two are equal |
| ApiInterceptor.TemplateMatchesInstances | droidcraft-sdk/src/main/java/me/sankalpchauhan/droidcraft/sdk/network/internal/interceptors/ApiInterceptor.kt:106-108 | a template matches every path made by putting any slash-free segment, the empty one included, in place of its placeholders |
| ApiInterceptor.LeadingSlashTemplate | droidcraft-sdk/src/main/java/me/sankalpchauhan/droidcraft/sdk/network/internal/interceptors/ApiInterceptor.kt:72-104 | the matched path is the encoded path without its first "/", so a template that starts with "/" only matches an encoded path that starts with "//" |
| ApiInterceptor.UsersIdMatches | droidcraft-sdk/src/main/java/me/sankalpchauhan/droidcraft/sdk/network/internal/interceptors/ApiInterceptor.kt:100-109 | "users/{id}" matches "users/42", and "users/" too, because a placeholder matches the empty segment |
| ApiInterceptor.UsersIdRejectsLonger | droidcraft-sdk/src/main/java/me/sankalpchauhan/droidcraft/sdk/network/internal/interceptors/ApiInterceptor.kt:100-109 | "users/{id}" does not match "users/42/extra", which has one more segment |
| ApiInterceptor.FirstLiteralMismatch | droidcraft-sdk/src/main/java/me/sankalpchauhan/droidcraft/sdk/network/internal/interceptors/ApiInterceptor.kt:106-108 | a template whose first segment is not a placeholder never matches a path whose first segment differs from it |
| ApiInterceptor.UsersIdRejectsOtherLiteral | droidcraft-sdk/src/main/java/me/sankalpchauhan/droidcraft/sdk/network/internal/interceptors/ApiInterceptor.kt:100-109 | "users/{id}" does not match "groups/42", whose literal segment differs |
| ApiInterceptor.FindApiPath | droidcraft-sdk/src/main/java/me/sankalpchauhan/droidcraft/sdk/network/internal/interceptors/ApiInterceptor.kt:92-98 | the result is absent iff no key matches both method and path; otherwise it is the first matching key in insertion order |
| ApiInterceptor.FirstMatchWins | droidcraft-sdk/src/main/java/me/sankalpchauhan/droidcraft/sdk/network/internal/interceptors/ApiInterceptor.kt:92-98 | when two keys match, the later one is never chosen |
| ApiInterceptor.RemoveFirst | droidcraft-sdk/src/main/java/me/sankalpchauhan/droidcraft/sdk/network/internal/interceptors/ApiInterceptor.kt:126 | `MutableList.remove` takes out the first occurrence of the listener, if any, and only that one |
| ApiInterceptor.Added | droidcraft-sdk/src/main/java/me/sankalpchauhan/droidcraft/sdk/network/internal/interceptors/ApiInterceptor.kt:114-119 | `addListener` on the registry value: its contract is carried by AddListenerSpec and AddThenRemove |
| ApiInterceptor.Removed | droidcraft-sdk/src/main/java/me/sankalpchauhan/droidcraft/sdk/network/internal/interceptors/ApiInterceptor.kt:124-131 | `removeListener` on the registry value: its contract is carried by RemoveListenerSpec, RemovedIsValid and AddThenRemove |
| ApiInterceptor.AddListenerSpec | droidcraft-sdk/src/main/java/me/sankalpchauhan/droidcraft/sdk/network/internal/interceptors/ApiInterceptor.kt:114-119 | adding keeps every list non-empty; the listener goes at the end of its path's list, with duplicates kept; a new path is appended to the key order; other entries are unchanged |
| ApiInterceptor.RemoveListenerSpec | droidcraft-sdk/src/main/java/me/sankalpchauhan/droidcraft/sdk/network/internal/interceptors/ApiInterceptor.kt:124-131 | removing takes out one occurrence of the listener; it deletes the entry exactly when the list was just that listener, and an unregistered path changes nothing; a surviving list is the old one without the first occurrence of the listener, in order; the key order is unchanged while the entry survives, and a deleted key leaves the order with every other key keeping its place; other entries are unchanged |
| ApiInterceptor.DeleteKeyOrder | droidcraft-sdk/src/main/java/me/sankalpchauhan/droidcraft/sdk/network/internal/interceptors/ApiInterceptor.kt:128 | `LinkedHashMap.remove(key)` takes the key out of the insertion order and keeps the other keys in their order |
| ApiInterceptor.RemovedIsValid | droidcraft-sdk/src/main/java/me/sankalpchauhan/droidcraft/sdk/network/internal/interceptors/ApiInterceptor.kt:127-129 | after a removal no registered path maps to an empty list |
| ApiInterceptor.AddThenRemove | droidcraft-sdk/src/main/java/me/sankalpchauhan/droidcraft/sdk/network/internal/interceptors/ApiInterceptor.kt:114-131 | removing a listener just added to a list that did not hold it restores the registry exactly, key order included |
| ApiInterceptor.ApiInterceptor.AddListener | droidcraft-sdk/src/main/java/me/sankalpchauhan/droidcraft/sdk/network/internal/interceptors/ApiInterceptor.kt:114-119 | the registry becomes `Added(old registry)` and stays valid |
| ApiInterceptor.ApiInterceptor.RemoveListener | droidcraft-sdk/src/main/java/me/sankalpchauhan/droidcraft/sdk/network/internal/interceptors/ApiInterceptor.kt:124-131 | the registry becomes `Removed(old registry)` and stays valid |
| ApiInterceptor.ApiInterceptor.Intercept | droidcraft-sdk/src/main/java/me/sankalpchauhan/droidcraft/sdk/network/internal/interceptors/ApiInterceptor.kt:70-90 | exactly one `proceed` is made, with the chain's request unchanged, and its outcome is returned unchanged; an exception delivers nothing; a response's body goes, in list order, to every listener of the first matching key, and delivery continues past a listener that throws |
| RetryInterceptor.ToLongInRange | droidcraft-sdk/src/main/java/me/sankalpchauhan/droidcraft/sdk/network/internal/interceptors/RetryInterceptor.kt:52 | the Long wrap-around leaves a value that fits in a Long unchanged |
| RetryInterceptor.DoubleToLong | droidcraft-sdk/src/main/java/me/sankalpchauhan/droidcraft/sdk/network/internal/interceptors/RetryInterceptor.kt:52 | doubling a value already wrapped to a Long gives the same Long as doubling the exact value, so repeated `currentDelay *= 2` stays equal to `initialDelayMillis * 2^k` wrapped to a Long |
| RetryInterceptor.FirstDecisive | droidcraft-sdk/src/main/java/me/sankalpchauhan/droidcraft/sdk/network/internal/interceptors/RetryInterceptor.kt:40-47 | the index of the first attempt that ends the loop (a success or an exception that is not an IOException), or the attempt count when none does |
| RetryInterceptor.LastIoSpec | droidcraft-sdk/src/main/java/me/sankalpchauhan/droidcraft/sdk/network/internal/interceptors/RetryInterceptor.kt:47-57 | the IOException kept in `lastException` is present iff some attempt threw one, and is then that of the last such attempt |
| RetryInterceptor.CountIoBound | droidcraft-sdk/src/main/java/me/sankalpchauhan/droidcraft/sdk/network/internal/interceptors/RetryInterceptor.kt:47-54 | no more attempts threw an IOException than were made |
| RetryInterceptor.Retry | droidcraft-sdk/src/main/java/me/sankalpchauhan/droidcraft/sdk/network/internal/interceptors/RetryInterceptor.kt:31-58 | the declarative `intercept`: the loop is proved equal to it by Intercept, and its properties are carried by the lemmas below |
| RetryInterceptor.RetryDecidedAt | droidcraft-sdk/src/main/java/me/sankalpchauhan/droidcraft/sdk/network/internal/interceptors/RetryInterceptor.kt:40-47 | when attempt k is the first success or non-IO exception, k + 1 calls are made with the delays of the IOExceptions before it, and attempt k's outcome is the result |
| RetryInterceptor.RetryExhausted | droidcraft-sdk/src/main/java/me/sankalpchauhan/droidcraft/sdk/network/internal/interceptors/RetryInterceptor.kt:40-57 | when no attempt decides, every attempt is made (none for `maxRetries <= 0`) and the last IOException, or the synthesised one, is thrown |
| RetryInterceptor.Intercept | droidcraft-sdk/src/main/java/me/sankalpchauhan/droidcraft/sdk/network/internal/interceptors/RetryInterceptor.kt:31-58 | the loop returns exactly what the declarative specification `Retry` gives: the requests sent, the delays and the result |
| RetryInterceptor.DefaultConfigurationPassesThrough | droidcraft-sdk/src/main/java/me/sankalpchauhan/droidcraft/sdk/network/internal/interceptors/RetryInterceptor.kt:32-36 | with no retry configuration there is one call, and its result or exception passes through unchanged |
| RetryInterceptor.CallsBounded | droidcraft-sdk/src/main/java/me/sankalpchauhan/droidcraft/sdk/network/internal/interceptors/RetryInterceptor.kt:40-57 | there are at most `maxRetries` calls, each with the chain's request; with `maxRetries <= 0` there is no call and the synthesised IOException is thrown; with `maxRetries > 0` there is at least one call and fewer delays than calls |
| RetryInterceptor.FirstSuccessReturned | droidcraft-sdk/src/main/java/me/sankalpchauhan/droidcraft/sdk/network/internal/interceptors/RetryInterceptor.kt:42-45 | a successful attempt k that follows k attempts which decided nothing is returned after exactly k + 1 calls |
| RetryInterceptor.NeverReturnsUnsuccessful | droidcraft-sdk/src/main/java/me/sankalpchauhan/droidcraft/sdk/network/internal/interceptors/RetryInterceptor.kt:43-57 | with a retry configuration, an unsuccessful response is never returned |
| RetryInterceptor.OtherExceptionPropagates | droidcraft-sdk/src/main/java/me/sankalpchauhan/droidcraft/sdk/network/internal/interceptors/RetryInterceptor.kt:41-47 | an exception that is not an IOException propagates at once, with no further attempt |
| RetryInterceptor.ExhaustedThrowsLastIoException | droidcraft-sdk/src/main/java/me/sankalpchauhan/droidcraft/sdk/network/internal/interceptors/RetryInterceptor.kt:47-57 | when no attempt succeeds, all attempts are made and the most recent IOException is thrown, even when later attempts returned unsuccessful responses; with no IOException at all, the synthesised one is thrown |
| RetryInterceptor.DelaysDouble | droidcraft-sdk/src/main/java/me/sankalpchauhan/droidcraft/sdk/network/internal/interceptors/RetryInterceptor.kt:38-53 | the k-th delay is `initialDelayMillis * 2^k` wrapped to a Long, and exactly that product while it fits |
| RetryInterceptor.NoDelayWithoutIoException | droidcraft-sdk/src/main/java/me/sankalpchauhan/droidcraft/sdk/network/internal/interceptors/RetryInterceptor.kt:46-54 | unsuccessful responses are retried with no delay; only an IOException causes one |
| RetryInterceptor.ThreeAttemptsExample | droidcraft-sdk/src/main/java/me/sankalpchauhan/droidcraft/sdk/network/internal/interceptors/RetryInterceptor.kt:31-58 | with maxRetries 3 and a 100 ms initial delay, two IOExceptions then a success give three calls, delays of 100 and 200 ms, and the success |
| AuthTokenInterceptor.RequestWithTokenSpec | droidcraft-sdk/src/main/java/me/sankalpchauhan/droidcraft/sdk/network/internal/interceptors/AuthTokenInterceptor.kt:63-69 | a null or empty token leaves the request unchanged; a non-empty one adds "Authorization: Bearer <token>" unless an Authorization header is already present, and changes nothing else |
| AuthTokenInterceptor.RequestWithToken | droidcraft-sdk/src/main/java/me/sankalpchauhan/droidcraft/sdk/network/internal/interceptors/AuthTokenInterceptor.kt:63-69 | `requestWithToken`: its contract is carried by RequestWithTokenSpec and ReissuedRequestUsesNewToken |
| AuthTokenInterceptor.DefaultRefreshWaitIsThirtySeconds | droidcraft-sdk/src/main/java/me/sankalpchauhan/droidcraft/sdk/network/internal/interceptors/AuthTokenInterceptor.kt:50 | with the default configuration, a refresh callback after 30 s counts as in time, and one after more than 30 s or none at all does not |
| AuthTokenInterceptor.Intercept | droidcraft-sdk/src/main/java/me/sankalpchauhan/droidcraft/sdk/network/internal/interceptors/AuthTokenInterceptor.kt:36-61 | the first call carries the current token. A non-401 outcome is returned after that one call, with no refresh. On 401 the refresh is called exactly once. A refresh that completes in time with a non-null token leads to exactly one re-issue, built from the original request, whose result is returned without a second 401 check. Otherwise the first response is returned, closed. There are never more than two calls |
| AuthTokenInterceptor.ReissuedRequestUsesNewToken | droidcraft-sdk/src/main/java/me/sankalpchauhan/droidcraft/sdk/network/internal/interceptors/AuthTokenInterceptor.kt:37-68 | the re-issued request is built from the original request, so it carries the new token rather than the old one, and an empty new token sends it with no Authorization header |
| TimeOutInterceptor.ParseFormatRoundTrip | droidcraft-sdk/src/main/java/me/sankalpchauhan/droidcraft/sdk/network/internal/interceptors/TimeOutInterceptor.kt:61-63 | `Integer.valueOf` of the decimal form of an integer gives back that integer when it fits in an Int, and throws otherwise |
| TimeOutInterceptor.ParseIntEdgeCases | droidcraft-sdk/src/main/java/me/sankalpchauhan/droidcraft/sdk/network/internal/interceptors/TimeOutInterceptor.kt:61-63 | leading zeros, a plus sign and "-0" are accepted; the empty string, a lone sign, a blank and a decimal point are rejected |
| TimeOutInterceptor.StripDirectivesKeepsOthers | droidcraft-sdk/src/main/java/me/sankalpchauhan/droidcraft/sdk/network/internal/interceptors/TimeOutInterceptor.kt:65-68 | the three `removeHeader` calls keep exactly the headers that are not directives, in their order |
| TimeOutInterceptor.ForwardedRequestStripped | droidcraft-sdk/src/main/java/me/sankalpchauhan/droidcraft/sdk/network/internal/interceptors/TimeOutInterceptor.kt:65-70 | the forwarded request has no CONNECT_TIMEOUT, READ_TIMEOUT or WRITE_TIMEOUT header in any casing; it keeps every other header in order, and keeps the method, URL and body |
| TimeOutInterceptor.TimeoutsResolved | droidcraft-sdk/src/main/java/me/sankalpchauhan/droidcraft/sdk/network/internal/interceptors/TimeOutInterceptor.kt:61-76 | the request is forwarded iff every directive present parses as an Int and no timeout chosen is negative; each timeout is then the parsed directive, or the chain's value when the directive is absent, and the result of that one call is returned |
| TimeOutInterceptor.MalformedDirectiveThrows | droidcraft-sdk/src/main/java/me/sankalpchauhan/droidcraft/sdk/network/internal/interceptors/TimeOutInterceptor.kt:61-63 | the first malformed directive in the order CONNECT_TIMEOUT, READ_TIMEOUT, WRITE_TIMEOUT throws NumberFormatException with its text and nothing is sent, whatever the timeouts are, so a parse failure takes precedence over a negative timeout |
| TimeOutInterceptor.NegativeTimeoutThrows | droidcraft-sdk/src/main/java/me/sankalpchauhan/droidcraft/sdk/network/internal/interceptors/TimeOutInterceptor.kt:72-76 | once every directive parses, a negative connect, read or write timeout throws IllegalStateException before anything is sent, and the first negative one in that order is reported |
| TimeOutInterceptor.SentIsStripped | droidcraft-sdk/src/main/java/me/sankalpchauhan/droidcraft/sdk/network/internal/interceptors/TimeOutInterceptor.kt:65-76 | the request that is sent is the chain's request with the three directives removed |
| TimeOutInterceptor.Intercept | droidcraft-sdk/src/main/java/me/sankalpchauhan/droidcraft/sdk/network/internal/interceptors/TimeOutInterceptor.kt:58-77 | the whole `intercept`: its contract is carried by TimeoutsResolved, MalformedDirectiveThrows, NegativeTimeoutThrows and ForwardedRequestStripped |
| TimeOutInterceptor.ResolveChosen | droidcraft-sdk/src/main/java/me/sankalpchauhan/droidcraft/sdk/network/internal/interceptors/TimeOutInterceptor.kt:61-63 | a directive that is absent or parses resolves to the parsed value, or to the chain's value when absent |
| TimeOutInterceptor.ParseInt | droidcraft-sdk/src/main/java/me/sankalpchauhan/droidcraft/sdk/network/internal/interceptors/TimeOutInterceptor.kt:61-63 | `Integer.valueOf`: its contract is carried by ParseFormatRoundTrip and ParseIntEdgeCases |
| RetrofitFactory.EnsureTrailingSlash | droidcraft-sdk/src/main/java/me/sankalpchauhan/droidcraft/sdk/network/internal/retrofit/RetrofitFactory.kt:35 | the base URL is the shortest extension of the given string that ends with "/": the string itself when it already ends with "/", otherwise the string with "/" appended |
| RetrofitFactory.TrailingSlashIdempotent | droidcraft-sdk/src/main/java/me/sankalpchauhan/droidcraft/sdk/network/internal/retrofit/RetrofitFactory.kt:35 | adding the trailing slash twice changes nothing, and "x" and "x/" give the same base URL |
| RetrofitFactory.RetrofitFactory.Create | droidcraft-sdk/src/main/java/me/sankalpchauhan/droidcraft/sdk/network/internal/retrofit/RetrofitFactory.kt:29-42 | a new instance on the slash-terminated URL, which calls through the given client and has the converter factories in the given order |
| RetrofitFactory.RetrofitFactory.GetRetrofitInstance | droidcraft-sdk/src/main/java/me/sankalpchauhan/droidcraft/sdk/network/internal/retrofit/RetrofitFactory.kt:44-56 | a cached key returns its instance, and the client and converters given are ignored; an unseen key adds exactly one entry, with a new instance, and leaves the other entries unchanged; the key set only grows |
| RetrofitFactory.SameKeySameInstance | droidcraft-sdk/src/main/java/me/sankalpchauhan/droidcraft/sdk/network/internal/retrofit/RetrofitFactory.kt:28-54 | two calls with one key give the same instance, built with the first call's arguments; "x" and "x/" are two entries with two distinct instances on the same base URL |
| HttpClient.RemoveAll | droidcraft-sdk/src/main/java/me/sankalpchauhan/droidcraft/sdk/network/internal/client/HttpClient.kt:60-61 | `removeAll` keeps exactly the elements that are not in the removed list |
| HttpClient.RemoveAllAppend | droidcraft-sdk/src/main/java/me/sankalpchauhan/droidcraft/sdk/network/internal/client/HttpClient.kt:60 | removal distributes over concatenation, so the surviving elements keep their relative order |
| HttpClient.AssembledIdempotent | droidcraft-sdk/src/main/java/me/sankalpchauhan/droidcraft/sdk/network/internal/client/HttpClient.kt:60-64 | assembling a second time with the same configuration changes nothing, and the result holds exactly the given and the configured interceptors |
| HttpClient.Filtered | droidcraft-sdk/src/main/java/me/sankalpchauhan/droidcraft/sdk/network/internal/client/HttpClient.kt:60-61 | the scan keeps the elements of the list that are not removed, in order |
| HttpClient.GetHttpClientBuilder | droidcraft-sdk/src/main/java/me/sankalpchauhan/droidcraft/sdk/network/internal/client/HttpClient.kt:27-70 | the application interceptors are the given ones minus the configured ones, then the configured ones in order; the network interceptors are exactly the configured ones; each timeout, in seconds, is set only when configured; a cache with the configured directory and size exists iff one is configured; a cookie jar exists iff a cookie manager is configured |
| NetworkModule.LevelMappingIsBijective | droidcraft-sdk/src/main/java/me/sankalpchauhan/droidcraft/sdk/network/internal/di/NetworkModule.kt:92-97 | each configuration level maps to the logging level of the same name, and the mapping is injective and onto |
| NetworkModule.ToHttpLoggingLevel | droidcraft-sdk/src/main/java/me/sankalpchauhan/droidcraft/sdk/network/internal/di/NetworkModule.kt:92-97 | the `when` over logging levels: its contract is carried by LevelMappingIsBijective |
| NetworkModule.RedactedHeaders | droidcraft-sdk/src/main/java/me/sankalpchauhan/droidcraft/sdk/network/internal/di/NetworkModule.kt:100-103 | "Authorization" and "Cookie" are redacted exactly when `debugPrivateData` is false, and no other header is |
| NetworkModule.ProvideHttpLoggingInterceptor | droidcraft-sdk/src/main/java/me/sankalpchauhan/droidcraft/sdk/network/internal/di/NetworkModule.kt:91-106 | the interceptor's level and its logger's level are the mapped level, and it redacts exactly the headers above |
| NetworkModule.ProvideOkHttpClient | droidcraft-sdk/src/main/java/me/sankalpchauhan/droidcraft/sdk/network/internal/di/NetworkModule.kt:110-128 | the built-in interceptors are auth token, api, HTTP logging and timeout, in that order, followed by the curl logger iff `debugPrivateData` is set; they are then assembled with the configured interceptors, and the network interceptors, timeouts, cache and cookie jar are those the configuration sets |
| NetworkModule.SuppliedInterceptorsRunAfterBuiltins | droidcraft-sdk/src/main/java/me/sankalpchauhan/droidcraft/sdk/network/internal/di/NetworkModule.kt:118-127 | when the application supplies only its own interceptors, they come after all the built-in ones; the auth token interceptor comes first; the curl logger is present iff `debugPrivateData` is set |
| NetworkModule.ProvideConverterFactories | droidcraft-sdk/src/main/java/me/sankalpchauhan/droidcraft/sdk/network/internal/di/NetworkModule.kt:64-69 | two converter factories, Unit and Gson, with Unit before Gson |
| NetworkModule.ProvideRetrofitClient | droidcraft-sdk/src/main/java/me/sankalpchauhan/droidcraft/sdk/network/internal/di/NetworkModule.kt:132-143 | the factory's instance for the home-server URL, whose base URL ends with "/" |
| NetworkModuleApi.ServiceBaseUrl | droidcraft-sdk/src/main/java/me/sankalpchauhan/droidcraft/sdk/network/api/NetworkModuleApi.kt:39-48 | a class that is not an interface is refused with IllegalArgumentException before the initialisation check; an interface before `initialize` gets IllegalStateException; otherwise the base URL is the one given, or the home server's |
| NetworkModuleApi.NetworkModuleApi.Initialize | droidcraft-sdk/src/main/java/me/sankalpchauhan/droidcraft/sdk/network/api/NetworkModuleApi.kt:29-37 | the component is replaced by one built from the new configuration |
| NetworkModuleApi.NetworkModuleApi.ProvideService | droidcraft-sdk/src/main/java/me/sankalpchauhan/droidcraft/sdk/network/api/NetworkModuleApi.kt:39-51 | an exception as `ServiceBaseUrl` decides; otherwise the service is bound to a new Retrofit instance on that URL with a trailing slash, calling through this call's client provider, with the Unit and Gson converters over this call's Gson instance |
| NetworkModuleApi.InitializeEnablesServices | droidcraft-sdk/src/main/java/me/sankalpchauhan/droidcraft/sdk/network/api/NetworkModuleApi.kt:29-48 | before `initialize` an interface is refused with IllegalStateException; after it, the call passes both checks; a later `initialize` makes calls with no base URL use the new home server |
| NetworkModuleApi.InterfaceCheckComesFirst | droidcraft-sdk/src/main/java/me/sankalpchauhan/droidcraft/sdk/network/api/NetworkModuleApi.kt:40-45 | a class that is not an interface gets the same IllegalArgumentException whether or not the API was initialised |

## Left out

- Concurrency is not modelled. The `synchronized` blocks of ApiInterceptor and AuthTokenInterceptor and the `CountDownLatch` wait are left out, and each interceptor is sequential. The refresh is an input: when its callback runs, and the token it gives.
- Coroutine sleep is not modelled. The retry delays are recorded as a list of values, not slept.
- RetryInterceptor is modelled on its own. The SDK does not add it to the client, so the model makes no claim about its place in the chain.
- HeaderInterceptor is not part of this model. It uses regular expressions and URL host parsing. The request it builds is discarded, so its only effect is to pass the request through. The client does not install it either.
- FormattedJsonHttpLogger, UnitConverterFactory, NetworkComponent, the sample app's MainActivity and `provideGson` are not part of this model. They are logging, Retrofit and Dagger glue, UI, and Gson set-up. Instances of these appear only by identity.
- The internals of OkHttp, Retrofit, Cache, CookieJar and `peekBody` are not modelled, for example the proxy that `retrofit.create` builds. The one OkHttp check modelled is the negative-timeout check of `Interceptor.Chain.withConnectTimeout`, `withReadTimeout` and `withWriteTimeout`.
- TimeOutInterceptor.Intercept: the chain's refusal to adjust timeouts in a network interceptor is left out, because the SDK installs TimeOutInterceptor as an application interceptor.
- HttpClient.GetHttpClientBuilder: OkHttp's builder throws IllegalStateException for a negative configured timeout, and IllegalArgumentException for one too large in milliseconds for an Int. OkHttp's `Cache` throws IllegalArgumentException ("maxSize <= 0") for a cache size that is not positive. The model sets the timeout as given, so its contract claims a client for configurations where the program throws.
- RetrofitFactory.RetrofitFactory.GetRetrofitInstance: `Retrofit.Builder.baseUrl` throws for a string that is not an HTTP URL, and then nothing is cached. The model accepts every string, so its contract claims a cached instance where the program throws.
- RetrofitFactory.RetrofitFactory.Create: the same `baseUrl` validation is left out here, for the same reason.
- NetworkModuleApi.NetworkModuleApi.ProvideService: the identities of the `Lazy<OkHttpClient>` and the Gson that the unscoped Dagger providers build on each call are parameters.
- AuthTokenInterceptor.Intercept: the current token from `tokenProvider.getToken()` is a parameter.
- RetrofitFactory.RetrofitFactory.GetRetrofitInstance: the model claims no caching across `provideService` calls. The factory is unscoped in the Dagger module, so each call gets a new factory.
- NetworkModuleApi.NetworkModuleApi.Initialize: the identity of the component Dagger builds is a parameter. The `tokenProvider` argument is dropped from the signature: it only reaches AuthTokenInterceptor, whose model takes the current token and the refresh behaviour as inputs. Planting the Timber debug tree (logging) is left out.
- NetworkModule.ProvideOkHttpClient: the injected interceptor instances are the fixed built-in identities, one per kind.
- TimeOutInterceptor.ParseFormatRoundTrip: `Integer.valueOf` also accepts non-ASCII Unicode digits. The model accepts ASCII digits only.
- Http.HeaderValue: header names are compared with ASCII case folding only.
- ApiInterceptor.FindApiPath: methods are compared by string equality, where the source uses reference identity.
- ApiInterceptor.ApiInterceptor.Intercept: listeners are assumed not to add or remove listeners from inside `onApiResponse`. In the program such a call reaches `addListener` or `removeListener` on the same thread, because `synchronized` is reentrant, and changes the list that `forEach` is iterating. A lone listener that removes itself makes the iterator throw ConcurrentModificationException out of `intercept`, so the response is lost. In `[L1, L2]`, L1 removing itself makes L2 be skipped silently. In longer lists the iterator throws again. The contract's `result == proceeded` and its "every listener of the first matching key" hold only under this assumption.
- ApiInterceptor.ApiInterceptor.Intercept: `peekBody(Long.MAX_VALUE).string()` reads the response body and can throw an IOException out of `intercept` after `proceed` returned. The model reads the body as a given string, so `result == proceeded` claims a pass-through where the program throws.
