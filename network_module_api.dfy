/**
  The SDK's entry point (NetworkModuleApi.kt): `initialize` builds the network
  component from a configuration, and `provideService` hands out a Retrofit
  service for an API interface once that has happened.
 */
module NetworkModuleApi {
  import opened Http
  import Config
  import RetrofitFactory
  import NetworkModule

  /**
    The built `NetworkComponent`, by identity, with the configuration it was
    built from. Its `okHttpClient()` and `converterFactory()` providers are
    unscoped, so each call builds a new `Lazy` and a new Gson instance; those
    identities are inputs of `ProvideService`.
   */
  datatype NetworkComponent = NetworkComponent(id: nat, networkConfiguration: Config.NetworkConfiguration)

  /** A `Class<T>` handed to `provideService`. */
  datatype ServiceClass = ServiceClass(name: string, isInterface: bool)

  /** What `retrofit.create(service)` returns: a proxy for the interface bound to that Retrofit instance. */
  datatype Service = Service(serviceClass: ServiceClass, retrofit: RetrofitFactory.Retrofit)

  datatype ServiceResult = Provided(service: Service) | Failed(fault: Fault)

  const NotAnInterface: string := "API declarations must be interfaces."
  const NotInitialized: string := "NetworkModule must be initialized first"

  /**
    The base URL `provideService` asks the factory for, or the exception it
    throws first: a class that is not an interface is refused before the
    initialisation check, and a missing base URL falls back to the home server.
   */
  function ServiceBaseUrl(component: Option<NetworkComponent>, service: ServiceClass, baseUrl: Option<string>)
    : (r: Result)
    ensures !service.isInterface ==> r == Refused(IllegalArgument(NotAnInterface))
    ensures service.isInterface && component.None? ==> r == Refused(IllegalState(NotInitialized))
    ensures service.isInterface && component.Some? ==>
              r == BaseUrl(baseUrl.GetOr(component.value.networkConfiguration.homeServerUrl))
  {
    if !service.isInterface then Refused(IllegalArgument(NotAnInterface))
    else if component.None? then Refused(IllegalState(NotInitialized))
    else
      match baseUrl
      case Some(url) => BaseUrl(url)
      case None => BaseUrl(component.value.networkConfiguration.homeServerUrl)
  }

  datatype Result = BaseUrl(url: string) | Refused(fault: Fault)

  /** The `NetworkModuleApi` object: its `lateinit` component, None until `initialize` runs. */
  class NetworkModuleApi {
    var networkComponent: Option<NetworkComponent>

    constructor()
      ensures networkComponent.None?
    {
      networkComponent := None;
    }

    /**
      `initialize`: builds a component from the configuration and replaces any
      earlier one. The component's identity is given, as Dagger allocates it.
     */
    method Initialize(configuration: Config.NetworkConfiguration, componentId: nat)
      modifies this
      ensures networkComponent == Some(NetworkComponent(componentId, configuration))
    {
      networkComponent := Some(NetworkComponent(componentId, configuration));
    }

    /**
      `provideService`: the checks of `ServiceBaseUrl`, then the service bound
      to a Retrofit instance on that URL with a trailing slash, built from a
      factory of its own, this call's client provider and its converters over
      this call's Gson instance. `clientId` and `gsonId` are the identities
      Dagger gives the `Lazy<OkHttpClient>` and the Gson built for this call.
     */
    method ProvideService(service: ServiceClass, baseUrl: Option<string>, clientId: nat, gsonId: nat)
      returns (result: ServiceResult)
      ensures ServiceBaseUrl(networkComponent, service, baseUrl).Refused? ==>
                result == Failed(ServiceBaseUrl(networkComponent, service, baseUrl).fault)
      ensures ServiceBaseUrl(networkComponent, service, baseUrl).BaseUrl? ==>
                && result.Provided?
                && fresh(result.service.retrofit)
                && result.service.serviceClass == service
                && result.service.retrofit.baseUrl ==
                     RetrofitFactory.EnsureTrailingSlash(ServiceBaseUrl(networkComponent, service, baseUrl).url)
                && result.service.retrofit.callFactory == RetrofitFactory.ClientProvider(clientId)
                && result.service.retrofit.converterFactories ==
                     NetworkModule.ProvideConverterFactories(NetworkModule.Gson(gsonId))
    {
      if !service.isInterface {
        return Failed(IllegalArgument(NotAnInterface));
      }
      if networkComponent.None? {
        return Failed(IllegalState(NotInitialized));
      }
      var component := networkComponent.value;
      var factory := new RetrofitFactory.RetrofitFactory();
      var retrofit := factory.GetRetrofitInstance(
        RetrofitFactory.ClientProvider(clientId),
        baseUrl.GetOr(component.networkConfiguration.homeServerUrl),
        NetworkModule.ProvideConverterFactories(NetworkModule.Gson(gsonId)));
      result := Provided(Service(service, retrofit));
    }
  }

  /**
    Before `initialize`, an interface is refused with IllegalStateException;
    after it, the same call passes both checks, and a later `initialize`
    makes calls without a base URL use the new home server.
   */
  lemma InitializeEnablesServices(service: ServiceClass, first: Config.NetworkConfiguration,
                                  second: Config.NetworkConfiguration, id1: nat, id2: nat)
    requires service.isInterface
    ensures ServiceBaseUrl(None, service, None).Refused?
    ensures ServiceBaseUrl(None, service, None).fault.IllegalState?
    ensures ServiceBaseUrl(Some(NetworkComponent(id1, first)), service, None) == BaseUrl(first.homeServerUrl)
    ensures ServiceBaseUrl(Some(NetworkComponent(id2, second)), service, None) == BaseUrl(second.homeServerUrl)
  {
  }

  /** A class that is not an interface is refused the same way whether or not the API was initialised. */
  lemma InterfaceCheckComesFirst(component: Option<NetworkComponent>, service: ServiceClass, baseUrl: Option<string>)
    requires !service.isInterface
    ensures ServiceBaseUrl(component, service, baseUrl) == ServiceBaseUrl(None, service, None)
    ensures ServiceBaseUrl(component, service, baseUrl).fault.IllegalArgument?
  {
  }
}
