/**
  The OkHttp client assembly (HttpClient.kt): the given interceptors, the
  configured timeouts, cache and cookie jar, then the configured interceptors
  moved to the end of their lists.
 */
module HttpClient {
  import opened Http
  import opened Config

  /** `List.removeAll(elements)`: every element that occurs in `elements` is dropped. */
  function RemoveAll<T(==,!new)>(s: seq<T>, elements: seq<T>): (r: seq<T>)
    ensures forall x :: x in r <==> x in s && x !in elements
    ensures |r| <= |s|
  {
    if s == [] then []
    else (if s[0] in elements then [] else [s[0]]) + RemoveAll(s[1..], elements)
  }

  /** Removal distributes over concatenation, so the survivors keep their relative order. */
  lemma {:induction false} RemoveAllAppend<T(!new)>(a: seq<T>, b: seq<T>, elements: seq<T>)
    ensures RemoveAll(a + b, elements) == RemoveAll(a, elements) + RemoveAll(b, elements)
  {
    if a == [] {
      assert a + b == b;
    } else {
      assert (a + b)[0] == a[0];
      assert (a + b)[1..] == a[1..] + b;
      RemoveAllAppend(a[1..], b, elements);
    }
  }

  /** Removing a list from itself leaves nothing; removing from a list with none of the elements changes nothing. */
  lemma RemoveAllBounds<T(!new)>(s: seq<T>, elements: seq<T>)
    ensures RemoveAll(elements, elements) == []
    ensures (forall x :: x in s ==> x !in elements) ==> RemoveAll(s, elements) == s
  {
    if RemoveAll(elements, elements) != [] {
      assert RemoveAll(elements, elements)[0] in RemoveAll(elements, elements);
    }
    if forall x :: x in s ==> x !in elements {
      RemoveAllDisjoint(s, elements);
    }
  }

  lemma {:induction false} RemoveAllDisjoint<T(!new)>(s: seq<T>, elements: seq<T>)
    requires forall x :: x in s ==> x !in elements
    ensures RemoveAll(s, elements) == s
  {
    if s != [] {
      assert s[0] in s;
      RemoveAllDisjoint(s[1..], elements);
      assert [s[0]] + s[1..] == s;
    }
  }

  /** The list the client ends up with: the given ones minus the configured ones, then the configured ones. */
  function Assembled<T(==,!new)>(given: seq<T>, configured: seq<T>): seq<T> {
    RemoveAll(given, configured) + configured
  }

  /**
    Assembling again with the same configuration changes nothing, and every
    configured interceptor ends up in the list, after every surviving given one.
   */
  lemma AssembledIdempotent<T(!new)>(given: seq<T>, configured: seq<T>)
    ensures Assembled(Assembled(given, configured), configured) == Assembled(given, configured)
    ensures forall x :: x in Assembled(given, configured) <==> x in given || x in configured
  {
    var kept := RemoveAll(given, configured);
    RemoveAllAppend(kept, configured, configured);
    RemoveAllBounds(kept, configured);
    assert RemoveAll(kept + configured, configured) == kept + [];
    assert kept + [] == kept;
  }

  /** `okhttp3.Cache(directory, maxSize)`. */
  datatype Cache = Cache(directory: string, maxSize: Int64)

  /** `JavaNetCookieJar(cookieHandler)`. */
  datatype CookieJar = JavaNetCookieJar(cookieHandler: CookieManager)

  /**
    The settings of a built client this model tracks. A timeout of None is
    OkHttp's own default; a set one is in seconds.
   */
  datatype OkHttpClient = OkHttpClient(
    interceptors: seq<Interceptor>,
    networkInterceptors: seq<Interceptor>,
    connectTimeoutSecs: Option<Int64>,
    readTimeoutSecs: Option<Int64>,
    writeTimeoutSecs: Option<Int64>,
    cache: Option<Cache>,
    cookieJar: Option<CookieJar>)

  /** `OkHttpClient.Builder`, with its mutable interceptor lists and settings. */
  class Builder {
    var interceptors: seq<Interceptor>
    var networkInterceptors: seq<Interceptor>
    var connectTimeoutSecs: Option<Int64>
    var readTimeoutSecs: Option<Int64>
    var writeTimeoutSecs: Option<Int64>
    var cache: Option<Cache>
    var cookieJar: Option<CookieJar>

    function Snapshot(): OkHttpClient
      reads this
    {
      OkHttpClient(interceptors, networkInterceptors, connectTimeoutSecs, readTimeoutSecs,
                   writeTimeoutSecs, cache, cookieJar)
    }

    constructor()
      ensures Snapshot() == OkHttpClient([], [], None, None, None, None, None)
    {
      interceptors := [];
      networkInterceptors := [];
      connectTimeoutSecs := None;
      readTimeoutSecs := None;
      writeTimeoutSecs := None;
      cache := None;
      cookieJar := None;
    }

    method AddInterceptor(interceptor: Interceptor)
      modifies this
      ensures Snapshot() == old(Snapshot()).(interceptors := old(interceptors) + [interceptor])
    {
      interceptors := interceptors + [interceptor];
    }

    method AddNetworkInterceptor(interceptor: Interceptor)
      modifies this
      ensures Snapshot() == old(Snapshot()).(networkInterceptors := old(networkInterceptors) + [interceptor])
    {
      networkInterceptors := networkInterceptors + [interceptor];
    }

    /** `list.forEach { addInterceptor(it) }`. */
    method AddInterceptors(list: seq<Interceptor>)
      modifies this
      ensures Snapshot() == old(Snapshot()).(interceptors := old(interceptors) + list)
    {
      for i := 0 to |list|
        invariant Snapshot() == old(Snapshot()).(interceptors := old(interceptors) + list[..i])
      {
        AddInterceptor(list[i]);
        assert list[..i + 1] == list[..i] + [list[i]];
      }
      assert list[..|list|] == list;
    }

    /** `list.forEach { addNetworkInterceptor(it) }`. */
    method AddNetworkInterceptors(list: seq<Interceptor>)
      modifies this
      ensures Snapshot() == old(Snapshot()).(networkInterceptors := old(networkInterceptors) + list)
    {
      for i := 0 to |list|
        invariant Snapshot() == old(Snapshot()).(networkInterceptors := old(networkInterceptors) + list[..i])
      {
        AddNetworkInterceptor(list[i]);
        assert list[..i + 1] == list[..i] + [list[i]];
      }
      assert list[..|list|] == list;
    }

    /** `interceptors().removeAll(elements)` on the builder's live list. */
    method RemoveAllInterceptors(elements: seq<Interceptor>)
      modifies this
      ensures Snapshot() == old(Snapshot()).(interceptors := RemoveAll(old(interceptors), elements))
    {
      interceptors := Filtered(interceptors, elements);
    }

    /** `networkInterceptors().removeAll(elements)` on the builder's live list. */
    method RemoveAllNetworkInterceptors(elements: seq<Interceptor>)
      modifies this
      ensures Snapshot() == old(Snapshot()).(networkInterceptors := RemoveAll(old(networkInterceptors), elements))
    {
      networkInterceptors := Filtered(networkInterceptors, elements);
    }
  }

  /** The scan `ArrayList.removeAll` makes: each element is kept unless `elements` contains it. */
  method Filtered(list: seq<Interceptor>, elements: seq<Interceptor>) returns (kept: seq<Interceptor>)
    ensures kept == RemoveAll(list, elements)
  {
    kept := [];
    for i := 0 to |list|
      invariant kept == RemoveAll(list[..i], elements)
    {
      assert list[..i + 1] == list[..i] + [list[i]];
      RemoveAllAppend(list[..i], [list[i]], elements);
      if list[i] !in elements {
        kept := kept + [list[i]];
      }
    }
    assert list[..|list|] == list;
  }

  /**
    `getHttpClientBuilder`: the application interceptors are the given ones
    without the configured ones, followed by the configured ones in order; the
    network interceptors are exactly the configured ones; each timeout,
    the cache and the cookie jar are set exactly when configured.
   */
  method GetHttpClientBuilder(configuration: NetworkConfiguration, interceptors: seq<Interceptor>)
    returns (client: OkHttpClient)
    ensures client.interceptors == Assembled(interceptors, configuration.interceptors)
    ensures client.networkInterceptors == configuration.networkInterceptors
    ensures client.connectTimeoutSecs == configuration.connectTimeoutInSecs
    ensures client.readTimeoutSecs == configuration.readTimeoutInSecs
    ensures client.writeTimeoutSecs == configuration.writeTimeoutInSecs
    ensures client.cache.Some? <==> configuration.cacheConfiguration.Some?
    ensures client.cache.Some? ==>
              client.cache.value == Cache(configuration.cacheConfiguration.value.cacheDirectory,
                                          configuration.cacheConfiguration.value.cacheSize)
    ensures client.cookieJar.Some? <==> configuration.cookieManager.Some?
    ensures client.cookieJar.Some? ==> client.cookieJar.value == JavaNetCookieJar(configuration.cookieManager.value)
  {
    var builder := new Builder();
    builder.AddInterceptors(interceptors);
    assert builder.interceptors == interceptors by {
      assert [] + interceptors == interceptors;
    }
    if configuration.connectTimeoutInSecs.Some? {
      builder.connectTimeoutSecs := configuration.connectTimeoutInSecs;
    }
    if configuration.readTimeoutInSecs.Some? {
      builder.readTimeoutSecs := configuration.readTimeoutInSecs;
    }
    if configuration.writeTimeoutInSecs.Some? {
      builder.writeTimeoutSecs := configuration.writeTimeoutInSecs;
    }
    if configuration.cacheConfiguration.Some? {
      var it := configuration.cacheConfiguration.value;
      builder.cache := Some(Cache(it.cacheDirectory, it.cacheSize));
    }
    if configuration.cookieManager.Some? {
      builder.cookieJar := Some(JavaNetCookieJar(configuration.cookieManager.value));
    }
    ghost var configured := OkHttpClient(interceptors, [], configuration.connectTimeoutInSecs,
      configuration.readTimeoutInSecs, configuration.writeTimeoutInSecs, builder.cache, builder.cookieJar);
    assert builder.Snapshot() == configured;
    builder.RemoveAllInterceptors(configuration.interceptors);
    assert builder.Snapshot() == configured.(interceptors := RemoveAll(interceptors, configuration.interceptors));
    builder.RemoveAllNetworkInterceptors(configuration.networkInterceptors);
    builder.AddInterceptors(configuration.interceptors);
    builder.AddNetworkInterceptors(configuration.networkInterceptors);
    client := builder.Snapshot();
  }
}
