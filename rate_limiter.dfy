/**
 * `AbstractRateLimiter`: the per-route configuration store shared by the
 * rate limiters. It listens for `FilterArgsEvent`s and, when an event
 * carries arguments under its configuration property name, binds a fresh
 * configuration from them and stores it under the event's route id.
 */
module RateLimiter {
  import opened Wrappers
  import opened Strings

  /** A `FilterArgsEvent`: the route whose filter arguments were (re)read
      and those arguments, keyed by normalized property name. The argument
      values are modelled as strings. */
  datatype FilterArgsEvent = FilterArgsEvent(routeId: string, args: map<string, string>)

  /** A bean validator, known only by its identity. */
  datatype Validator = Validator(id: nat)

  /** `hasRelevantKey`: some key starts with the property name followed by a dot. */
  function HasRelevantKey(name: string, args: map<string, string>): (b: bool)
    ensures b <==> exists k :: k in args && |k| > |name| && k[..|name| + 1] == name + "."
  {
    exists k | k in args.Keys :: StartsWith(k, name + ".")
  }

  /** The guard of `onApplicationEvent`: the arguments are not empty and
      some key is relevant. */
  predicate IsRelevant(name: string, event: FilterArgsEvent)
  {
    |event.args| != 0 && HasRelevantKey(name, event.args)
  }

  /** The configuration map after `onApplicationEvent`: an irrelevant event
      leaves it as it was; a relevant one stores `bound` under the event's
      route id, replacing any earlier entry, and keeps every other entry. */
  function AfterEvent<C>(configs: map<string, C>, name: string, event: FilterArgsEvent, bound: C): (r: map<string, C>)
    ensures !IsRelevant(name, event) ==> r == configs
    ensures IsRelevant(name, event) ==> r.Keys == configs.Keys + {event.routeId} && r[event.routeId] == bound
    ensures forall id :: id in configs && id != event.routeId ==> id in r && r[id] == configs[id]
  {
    if IsRelevant(name, event) then configs[event.routeId := bound] else configs
  }

  /** An event whose only argument is the bare property name, without the
      dot, is not relevant and changes nothing. */
  lemma BareNameIsIgnored<C>(configs: map<string, C>, name: string, routeId: string, v: string, bound: C)
    ensures AfterEvent(configs, name, FilterArgsEvent(routeId, map[name := v]), bound) == configs
  {
  }

  /** `ConfigurationService`; only its validator is modelled. */
  class ConfigurationService {
    var validator: Option<Validator>

    constructor ()
      ensures validator == None
    {
      validator := None;
    }

    method SetValidator(v: Option<Validator>)
      modifies this
      ensures validator == v
    {
      validator := v;
    }
  }

  /** `AbstractRateLimiter<C>`. `newConfig` is the freshly instantiated
      configuration (`newConfig()`); `bind` stands for
      `configurationService.with(c).name(n).normalizedProperties(args).bind()`. */
  class AbstractRateLimiter<C> {
    const configurationPropertyName: string
    var configurationService: ConfigurationService?
    const newConfig: C
    const bind: (C, string, map<string, string>) -> C
    /** `getConfig()`: the per-route configurations. */
    var config: map<string, C>

    /** The deprecated constructor: a new `ConfigurationService` carrying
        the given validator. */
    constructor WithValidator(newConfig: C, bind: (C, string, map<string, string>) -> C,
                              configurationPropertyName: string, validator: Option<Validator>)
      ensures this.configurationPropertyName == configurationPropertyName
      ensures configurationService != null && fresh(configurationService)
      ensures configurationService.validator == validator
      ensures this.newConfig == newConfig && this.bind == bind && config == map[]
    {
      this.configurationPropertyName := configurationPropertyName;
      this.newConfig := newConfig;
      this.bind := bind;
      config := map[];
      var service := new ConfigurationService();
      service.SetValidator(validator);
      configurationService := service;
    }

    constructor (newConfig: C, bind: (C, string, map<string, string>) -> C,
                 configurationPropertyName: string, configurationService: ConfigurationService?)
      ensures this.configurationPropertyName == configurationPropertyName
      ensures this.configurationService == configurationService
      ensures this.newConfig == newConfig && this.bind == bind && config == map[]
    {
      this.configurationPropertyName := configurationPropertyName;
      this.configurationService := configurationService;
      this.newConfig := newConfig;
      this.bind := bind;
      config := map[];
    }

    /** The configuration a relevant event stores: bound from the event's
        arguments under the property name, or left unbound when there is
        no configuration service. */
    function RouteConfig(args: map<string, string>): (c: C)
      reads this
      ensures configurationService != null ==> c == bind(newConfig, configurationPropertyName, args)
      ensures configurationService == null ==> c == newConfig
    {
      if configurationService != null then bind(newConfig, configurationPropertyName, args) else newConfig
    }

    /** `getValidator`: null when there is no configuration service. */
    method GetValidator() returns (v: Option<Validator>)
      ensures configurationService == null ==> v == None
      ensures configurationService != null ==> v == configurationService.validator
    {
      if configurationService != null {
        v := configurationService.validator;
      } else {
        v := None;
      }
    }

    /** `setValidator`: a no-op when there is no configuration service. */
    method SetValidator(v: Option<Validator>)
      modifies configurationService
      ensures configurationService != null ==> configurationService.validator == v
    {
      if configurationService != null {
        configurationService.SetValidator(v);
      }
    }

    method SetConfigurationService(service: ConfigurationService?)
      modifies this`configurationService
      ensures configurationService == service
    {
      configurationService := service;
    }

    /** `onApplicationEvent(FilterArgsEvent)`. */
    method OnApplicationEvent(event: FilterArgsEvent)
      modifies this`config
      ensures config == AfterEvent(old(config), configurationPropertyName, event, RouteConfig(event.args))
    {
      if |event.args| == 0 || !HasRelevantKey(configurationPropertyName, event.args) {
        return;
      }
      var routeConfig := newConfig;
      if configurationService != null {
        routeConfig := bind(routeConfig, configurationPropertyName, event.args);
      }
      config := config[event.routeId := routeConfig];
    }
  }
}
