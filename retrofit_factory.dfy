/**
  The Retrofit cache (RetrofitFactory.kt): one Retrofit instance per base-URL
  string, built on first use and returned from the map afterwards.
 */
module RetrofitFactory {

  /** A `Converter.Factory` instance, by identity. */
  datatype ConverterFactory = UnitConverterFactory | GsonConverterFactory(gsonId: nat) | OtherConverterFactory(id: nat)

  /** A `Lazy<OkHttpClient>` provider, by identity. */
  datatype ClientProvider = ClientProvider(id: nat)

  /** `String.ensureTrailingSlash()` (an SDK extension): the shortest extension of `url` that ends with "/". */
  function EnsureTrailingSlash(url: string): (r: string)
    ensures |r| > 0 && r[|r| - 1] == '/'
    ensures url <= r && |r| <= |url| + 1
    ensures |url| > 0 && url[|url| - 1] == '/' ==> r == url
    ensures !(|url| > 0 && url[|url| - 1] == '/') ==> r == url + "/"
  {
    if |url| > 0 && url[|url| - 1] == '/' then url else url + "/"
  }

  /**
    The extension is idempotent, and when "x" has no trailing slash, "x" and
    "x/" build the same base URL.
   */
  lemma TrailingSlashIdempotent(url: string)
    ensures EnsureTrailingSlash(EnsureTrailingSlash(url)) == EnsureTrailingSlash(url)
    ensures (|url| == 0 || url[|url| - 1] != '/') ==> EnsureTrailingSlash(url + "/") == EnsureTrailingSlash(url)
  {
    assert (url + "/")[|url + "/"| - 1] == '/';
  }

  /** A built `Retrofit` instance: its base URL, call factory and converter factories, fixed at build time. */
  class Retrofit {
    const baseUrl: string
    const callFactory: ClientProvider
    const converterFactories: seq<ConverterFactory>

    constructor(baseUrl: string, callFactory: ClientProvider, converterFactories: seq<ConverterFactory>)
      ensures this.baseUrl == baseUrl && this.callFactory == callFactory
      ensures this.converterFactories == converterFactories
    {
      this.baseUrl := baseUrl;
      this.callFactory := callFactory;
      this.converterFactories := converterFactories;
    }
  }

  class RetrofitFactory {
    var retrofitInstanceMap: map<string, Retrofit>

    /** Every cached instance was built for its key: its base URL is the key with a trailing slash. */
    ghost predicate Valid()
      reads this
    {
      forall key | key in retrofitInstanceMap :: retrofitInstanceMap[key].baseUrl == EnsureTrailingSlash(key)
    }

    constructor()
      ensures Valid() && retrofitInstanceMap == map[]
    {
      retrofitInstanceMap := map[];
    }

    /** `create`: a new instance on the slash-terminated URL, calling through the client, with the converter factories in order. */
    method Create(okHttpClient: ClientProvider, baseUrl: string, converterFactories: seq<ConverterFactory>)
      returns (retrofit: Retrofit)
      ensures fresh(retrofit)
      ensures retrofit.baseUrl == EnsureTrailingSlash(baseUrl)
      ensures retrofit.callFactory == okHttpClient
      ensures retrofit.converterFactories == converterFactories
    {
      var added: seq<ConverterFactory> := [];
      for i := 0 to |converterFactories|
        invariant added == converterFactories[..i]
      {
        added := added + [converterFactories[i]];
      }
      retrofit := new Retrofit(EnsureTrailingSlash(baseUrl), okHttpClient, added);
    }

    /**
      `getRetrofitInstance`: a cached key returns its instance and ignores the
      other arguments; an unseen key gets a new instance, which becomes its
      one new entry. Keys are the raw strings, and none is ever removed.
     */
    method GetRetrofitInstance(okHttpClient: ClientProvider, baseUrl: string, converterFactories: seq<ConverterFactory>)
      returns (retrofit: Retrofit)
      requires Valid()
      modifies this
      ensures Valid()
      ensures baseUrl in old(retrofitInstanceMap) ==>
                retrofit == old(retrofitInstanceMap)[baseUrl] && retrofitInstanceMap == old(retrofitInstanceMap)
      ensures baseUrl !in old(retrofitInstanceMap) ==>
                && fresh(retrofit)
                && retrofitInstanceMap == old(retrofitInstanceMap)[baseUrl := retrofit]
                && retrofit.callFactory == okHttpClient
                && retrofit.converterFactories == converterFactories
      ensures retrofit == retrofitInstanceMap[baseUrl]
      ensures retrofit.baseUrl == EnsureTrailingSlash(baseUrl)
      ensures retrofitInstanceMap.Keys == old(retrofitInstanceMap.Keys) + {baseUrl}
    {
      if baseUrl in retrofitInstanceMap {
        retrofit := retrofitInstanceMap[baseUrl];
      } else {
        var newRetrofitInstance := Create(okHttpClient, baseUrl, converterFactories);
        retrofitInstanceMap := retrofitInstanceMap[baseUrl := newRetrofitInstance];
        retrofit := newRetrofitInstance;
      }
    }
  }

  /**
    Two calls with the same base URL on one factory give the same instance,
    built with the first call's client and converters; "x" and "x/" are two
    entries with two distinct instances on the same base URL.
   */
  method SameKeySameInstance(factory: RetrofitFactory, url: string,
                             client1: ClientProvider, converters1: seq<ConverterFactory>,
                             client2: ClientProvider, converters2: seq<ConverterFactory>)
    returns (first: Retrofit, second: Retrofit, slashed: Retrofit)
    requires factory.Valid()
    requires |url| == 0 || url[|url| - 1] != '/'
    requires url !in factory.retrofitInstanceMap && url + "/" !in factory.retrofitInstanceMap
    modifies factory
    ensures first == second
    ensures second.callFactory == client1 && second.converterFactories == converters1
    ensures slashed != first && slashed.baseUrl == first.baseUrl
    ensures factory.retrofitInstanceMap.Keys == old(factory.retrofitInstanceMap.Keys) + {url, url + "/"}
  {
    first := factory.GetRetrofitInstance(client1, url, converters1);
    second := factory.GetRetrofitInstance(client2, url, converters2);
    assert url + "/" != url;
    slashed := factory.GetRetrofitInstance(client2, url + "/", converters2);
    TrailingSlashIdempotent(url);
  }
}
