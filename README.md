# Spring Cloud Gateway control logic, modelled in Dafny

This project models five pieces of sequential control logic from the core of
Spring Cloud Gateway, an API gateway. The model covers only these pieces, not
the reactive request pipeline.

- **Rate-limiter configuration store** (`AbstractRateLimiter`). The store
  listens for `FilterArgsEvent`s. When an event carries arguments under
  `<configurationPropertyName>.`, it binds a fresh configuration from them
  and stores it under the event's route id. Any earlier entry for that id is
  replaced and every other entry stays as it was.
- **Route-management endpoint** (`AbstractGatewayControllerEndpoint`):
  - route-definition validation against the registered filter and predicate
    factories;
  - `save`, which answers 400, or 201 with a location, or fails with the
    exception validation or `URI.create` throws;
  - `delete`, which answers 200 or 404, and lets any other writer error
    through;
  - the names-to-orders maps;
  - `combinedfilters`;
  - `refresh`.
- **Discovery route-definition locator**
  (`DiscoveryClientRouteDefinitionLocator`):
  - the choice of route-id prefix;
  - the first-instance-per-service rule;
  - the include expression;
  - how a route definition is built;
  - the copying of the configured predicates and filters, with every argument
    value replaced by its evaluated expression;
  - the lower-casing delegate instance.
- **Discovery locator settings** (`DiscoveryLocatorProperties`): the default
  values and the setters.
- **Forward routing filter** (`ForwardRoutingFilter`): the pass-through or
  dispatch decision, the filter's order, and the lazily cached dispatcher
  handler.

Files and modules:

| file | module | models |
|---|---|---|
| `wrappers.dfy` | `Wrappers` | `Option` (Java `null`) and `Result` (exceptions) |
| `strings.dfy` | `Strings` | `startsWith`, `toLowerCase`, `equalsIgnoreCase`, `Character.isWhitespace`, `StringUtils.hasText` |
| `route_definitions.dfy` | `RouteDefinitions` | `RouteDefinition`, `PredicateDefinition`, `FilterDefinition`; the argument `LinkedHashMap` as an ordered list of pairs with `put` |
| `rate_limiter.dfy` | `RateLimiter` | `FilterArgsEvent`, `ConfigurationService` (validator only), `AbstractRateLimiter` |
| `controller_endpoint.dfy` | `ControllerEndpoint` | `AbstractGatewayControllerEndpoint`, with an in-memory route writer, the route locator's stream and a recording event publisher |
| `discovery_properties.dfy` | `DiscoveryProperties` | `DiscoveryLocatorProperties` |
| `discovery_locator.dfy` | `DiscoveryLocator` | `DiscoveryClientRouteDefinitionLocator`, `DelegatingServiceInstance` |
| `forward_routing.dfy` | `ForwardRouting` | `ForwardRoutingFilter` |

Modelling choices:

- State that the source updates in place is a class with the same fields:
  - the rate limiter's per-route configuration map;
  - the locator settings;
  - the filter's cached dispatcher handler;
  - the endpoint's writer and publisher.
- Code that builds a value step by step is a method with loops. Each such
  method is proved equal to a specification function, and the lemmas state
  what the source promises about that function. This applies to:
  - the locator's setters-and-`addArg` loops;
  - the `putItem` reduction.
- Foreign collaborators are parameters:
  - SpEL parsing and evaluation are the three functions of a `SpelEngine`;
  - configuration binding is a `bind` function;
  - `newConfig()` is a value;
  - the discovery client is a value that lists its services and their
    instances;
  - the dispatcher handler provider is an object whose answer is given.

Behaviour of the code worth knowing, which the model follows:

- **The forward filter neither rewrites the path nor records the original
  URL.** The class comment of `ForwardRoutingFilter` (ForwardRoutingFilter.java:33-38)
  says the request path is overwritten by the forward URL's path, and that
  the original URL is appended to `GATEWAY_ORIGINAL_REQUEST_URL_ATTR`.
  `filter` (ForwardRoutingFilter.java:67-82) does neither. It sets no
  attribute and leaves a "translate url?" TODO, and the exchange reaches the
  dispatcher unchanged.
- **The names-to-orders maps are keyed by `toString()`.** `putItem` keys each
  entry by the object's `toString()`. The value is null for objects that are
  not `Ordered`, and a later object with the same text overwrites an earlier
  one.
- **`combinedfilters` collects routes, not filters.** It puts the matching
  `Route` objects themselves into the map. A `Route` is `Ordered`, so each key
  maps to the route's order.
- **`save` can fail after writing.** The location `/routes/{id}` is built with
  `URI.create` only after the writer has stored the definition. For an id that
  is illegal in a URI, the definition is stored and the reply is an error.
- **A definition without a name makes validation throw.** `validateRouteDefinition`
  calls `getName().equals(...)`, so a null name throws a `NullPointerException`
  when it is compared. It is compared only when some factory is registered and
  no earlier definition has already failed.

## Model

| member | source | states |
|---|---|---|
| `Strings.StartsWith` | spring-cloud-gateway-core/src/main/java/org/springframework/cloud/gateway/filter/ratelimit/AbstractRateLimiter.java:105 | `key.startsWith(p)` holds iff `p` is no longer than `key` and `key` begins with `p` |
| `Strings.ToLower` | spring-cloud-gateway-core/src/main/java/org/springframework/cloud/gateway/discovery/DiscoveryClientRouteDefinitionLocator.java:249 | `toLowerCase()` keeps the length and lower-cases each character |
| `Strings.EqualsIgnoreCase` | spring-cloud-gateway-core/src/main/java/org/springframework/cloud/gateway/discovery/DiscoveryClientRouteDefinitionLocator.java:137 | `"true".equalsIgnoreCase(e)` holds iff `e` is not null, has the same length, and agrees with "true" character by character once both are lower-cased; an identical text always compares equal |
| `RateLimiter.HasRelevantKey` | spring-cloud-gateway-core/src/main/java/org/springframework/cloud/gateway/filter/ratelimit/AbstractRateLimiter.java:103-106 | an argument map is relevant iff some key is longer than the property name and begins with the name followed by "." |
| `RateLimiter.IsRelevant` | spring-cloud-gateway-core/src/main/java/org/springframework/cloud/gateway/filter/ratelimit/AbstractRateLimiter.java:83-85 | an event is acted on iff its args are not empty and some key is relevant |
| `RateLimiter.AfterEvent` | spring-cloud-gateway-core/src/main/java/org/springframework/cloud/gateway/filter/ratelimit/AbstractRateLimiter.java:79-96 | an event with empty args or no relevant key leaves the map as it was; a relevant event stores the bound config under the event's route id, replacing any earlier entry, and the other ids keep their entries |
| `RateLimiter.BareNameIsIgnored` | spring-cloud-gateway-core/src/main/java/org/springframework/cloud/gateway/filter/ratelimit/AbstractRateLimiter.java:83-85 | an event whose only key is the bare property name, without the dot, changes nothing |
| `RateLimiter.AbstractRateLimiter.RouteConfig` | spring-cloud-gateway-core/src/main/java/org/springframework/cloud/gateway/filter/ratelimit/AbstractRateLimiter.java:89-94 | the stored config is bound with `configurationPropertyName` as name and the event's args as properties; without a configuration service it is the unbound `newConfig()` |
| `RateLimiter.AbstractRateLimiter.OnApplicationEvent` | spring-cloud-gateway-core/src/main/java/org/springframework/cloud/gateway/filter/ratelimit/AbstractRateLimiter.java:79-96 | the new config map is `AfterEvent` of the old one for the event and the config bound from its args |
| `RateLimiter.AbstractRateLimiter.constructor` | spring-cloud-gateway-core/src/main/java/org/springframework/cloud/gateway/filter/ratelimit/AbstractRateLimiter.java:44-49 | keeps the given property name and configuration service; `getConfigurationPropertyName` returns that name |
| `RateLimiter.AbstractRateLimiter.WithValidator` | spring-cloud-gateway-core/src/main/java/org/springframework/cloud/gateway/filter/ratelimit/AbstractRateLimiter.java:36-42 | the deprecated constructor keeps the name and creates a new configuration service that carries the given validator |
| `RateLimiter.AbstractRateLimiter.GetValidator` | spring-cloud-gateway-core/src/main/java/org/springframework/cloud/gateway/filter/ratelimit/AbstractRateLimiter.java:56-61 | null without a configuration service, else the service's validator |
| `RateLimiter.AbstractRateLimiter.SetValidator` | spring-cloud-gateway-core/src/main/java/org/springframework/cloud/gateway/filter/ratelimit/AbstractRateLimiter.java:64-68 | sets the service's validator; without a service it changes nothing (it may modify only the service) |
| `RateLimiter.AbstractRateLimiter.SetConfigurationService` | spring-cloud-gateway-core/src/main/java/org/springframework/cloud/gateway/filter/ratelimit/AbstractRateLimiter.java:70-72 | replaces the configuration service and nothing else |
| `ControllerEndpoint.NameResolves` | spring-cloud-gateway-core/src/main/java/org/springframework/cloud/gateway/actuate/AbstractGatewayControllerEndpoint.java:193-195 | the inner `anyMatch`: true iff the name is not null and some factory's `name()` equals it; it throws iff the name is null and some factory is compared |
| `ControllerEndpoint.ThrowsOnCons` | spring-cloud-gateway-core/src/main/java/org/springframework/cloud/gateway/actuate/AbstractGatewayControllerEndpoint.java:192-195 | the outer `allMatch` throws on a list iff something is registered and either the head's name is null or the head resolves and the rest throws |
| `ControllerEndpoint.AllResolve` | spring-cloud-gateway-core/src/main/java/org/springframework/cloud/gateway/actuate/AbstractGatewayControllerEndpoint.java:192-195 | the outer `allMatch`: true iff every definition's name resolves; it throws iff a null name is reached before any definition that fails, with something registered |
| `ControllerEndpoint.ValidateRouteDefinition` | spring-cloud-gateway-core/src/main/java/org/springframework/cloud/gateway/actuate/AbstractGatewayControllerEndpoint.java:191-204 | valid iff every filter name resolves to a filter factory and every predicate name to a predicate factory; it throws iff either `allMatch` reaches a null name |
| `ControllerEndpoint.FailureBeforeNullNameRejects` | spring-cloud-gateway-core/src/main/java/org/springframework/cloud/gateway/actuate/AbstractGatewayControllerEndpoint.java:192-195 | a null name behind a definition that already fails is never compared: the definition is rejected with no exception |
| `ControllerEndpoint.NullNameThrows` | spring-cloud-gateway-core/src/main/java/org/springframework/cloud/gateway/actuate/AbstractGatewayControllerEndpoint.java:192-195 | a null first filter name throws when a filter factory is registered |
| `ControllerEndpoint.EmptyDefinitionIsValid` | spring-cloud-gateway-core/src/main/java/org/springframework/cloud/gateway/actuate/AbstractGatewayControllerEndpoint.java:191-204 | empty filter and predicate lists are valid whatever is registered, and nothing throws |
| `ControllerEndpoint.NothingRegisteredRejects` | spring-cloud-gateway-core/src/main/java/org/springframework/cloud/gateway/actuate/AbstractGatewayControllerEndpoint.java:191-204 | with no factories registered nothing throws, and a definition is valid iff it has no filters and no predicates |
| `ControllerEndpoint.NamesToOrdersOf` | spring-cloud-gateway-core/src/main/java/org/springframework/cloud/gateway/actuate/AbstractGatewayControllerEndpoint.java:147-149 | the reduction over a list, putting each item in order (its properties are stated by `NamesToOrdersLastWins`) |
| `ControllerEndpoint.NamesToOrdersLastWins` | spring-cloud-gateway-core/src/main/java/org/springframework/cloud/gateway/actuate/AbstractGatewayControllerEndpoint.java:147-166 | the reduced map has exactly one key per distinct `toString()`, and each key maps to the order (or null) of the last item with that text |
| `ControllerEndpoint.NamesToOrders` | spring-cloud-gateway-core/src/main/java/org/springframework/cloud/gateway/actuate/AbstractGatewayControllerEndpoint.java:147-166 | the `putItem` loop computes the reduction, and its keys are the items' texts |
| `ControllerEndpoint.AbstractGatewayControllerEndpoint.GlobalFiltersToOrders` | spring-cloud-gateway-core/src/main/java/org/springframework/cloud/gateway/actuate/AbstractGatewayControllerEndpoint.java:124-127 | `globalfilters` is the names-to-orders map of the global filters |
| `ControllerEndpoint.AbstractGatewayControllerEndpoint.RouteFiltersToOrders` | spring-cloud-gateway-core/src/main/java/org/springframework/cloud/gateway/actuate/AbstractGatewayControllerEndpoint.java:133-136 | `routefilers` is the names-to-orders map of the filter factories |
| `ControllerEndpoint.AbstractGatewayControllerEndpoint.RoutePredicatesToOrders` | spring-cloud-gateway-core/src/main/java/org/springframework/cloud/gateway/actuate/AbstractGatewayControllerEndpoint.java:142-145 | `routepredicates` is the names-to-orders map of the predicate factories |
| `ControllerEndpoint.SaveReply` | spring-cloud-gateway-core/src/main/java/org/springframework/cloud/gateway/actuate/AbstractGatewayControllerEndpoint.java:177-188 | 201 with location `/routes/{id}` iff the definition is valid and that text is a legal URI; the `IllegalArgumentException` iff it is valid and the text is not; 400 iff it is invalid; the `NullPointerException` iff validation throws |
| `ControllerEndpoint.RouteDefinitionWriter.Save` | spring-cloud-gateway-core/src/main/java/org/springframework/cloud/gateway/actuate/AbstractGatewayControllerEndpoint.java:179-184 | the in-memory writer stores a definition under its id, replacing any earlier one |
| `ControllerEndpoint.RouteDefinitionWriter.Delete` | spring-cloud-gateway-core/src/main/java/org/springframework/cloud/gateway/actuate/AbstractGatewayControllerEndpoint.java:211 | the in-memory writer removes a stored id, and answers `NotFoundException` with the store unchanged for an unknown id |
| `ControllerEndpoint.AbstractGatewayControllerEndpoint.Save` | spring-cloud-gateway-core/src/main/java/org/springframework/cloud/gateway/actuate/AbstractGatewayControllerEndpoint.java:175-189 | the reply is `SaveReply` of the validation outcome and whether `URI.create` accepts `/routes/{id}`; the writer is called, storing the definition under the path id with its id overwritten, iff validation answers true, even when the location then fails |
| `ControllerEndpoint.DeleteReply` | spring-cloud-gateway-core/src/main/java/org/springframework/cloud/gateway/actuate/AbstractGatewayControllerEndpoint.java:211-216 | 200 iff the writer succeeded, 404 iff it failed with `NotFoundException`, and any other error propagates |
| `ControllerEndpoint.AbstractGatewayControllerEndpoint.Delete` | spring-cloud-gateway-core/src/main/java/org/springframework/cloud/gateway/actuate/AbstractGatewayControllerEndpoint.java:211-216 | a stored id is removed and answered 200; an unknown id leaves the store as it was and is answered 404 |
| `ControllerEndpoint.RoutesWithId` | spring-cloud-gateway-core/src/main/java/org/springframework/cloud/gateway/actuate/AbstractGatewayControllerEndpoint.java:225 | keeps exactly the routes whose id equals the requested id; a single route is kept iff its id matches |
| `ControllerEndpoint.RoutesWithIdDistributes` | spring-cloud-gateway-core/src/main/java/org/springframework/cloud/gateway/actuate/AbstractGatewayControllerEndpoint.java:225-226 | the filter keeps stream order and duplicates: filtering a concatenation concatenates the filtered parts, so the reduction's last-wins rule sees the routes in stream order |
| `ControllerEndpoint.Route.AsComponent` | spring-cloud-gateway-core/src/main/java/org/springframework/cloud/gateway/actuate/AbstractGatewayControllerEndpoint.java:160-164 | `putItem` sees a route, which is `Ordered`, as its `toString()` with its order |
| `ControllerEndpoint.AsComponents` | spring-cloud-gateway-core/src/main/java/org/springframework/cloud/gateway/actuate/AbstractGatewayControllerEndpoint.java:226 | the stream handed to the reduction: each matching route as a component with its order, same length and order |
| `ControllerEndpoint.AbstractGatewayControllerEndpoint.CombinedFilters` | spring-cloud-gateway-core/src/main/java/org/springframework/cloud/gateway/actuate/AbstractGatewayControllerEndpoint.java:222-227 | the result is the names-to-orders map of the routes with the requested id, and every key comes from such a route |
| `ControllerEndpoint.AbstractGatewayControllerEndpoint.constructor` | spring-cloud-gateway-core/src/main/java/org/springframework/cloud/gateway/actuate/AbstractGatewayControllerEndpoint.java:90-101 | keeps the global filters, the filter and predicate factories, the writer and the route locator; no publisher is set yet |
| `ControllerEndpoint.AbstractGatewayControllerEndpoint.SetApplicationEventPublisher` | spring-cloud-gateway-core/src/main/java/org/springframework/cloud/gateway/actuate/AbstractGatewayControllerEndpoint.java:104-106 | sets the publisher and nothing else |
| `ControllerEndpoint.AbstractGatewayControllerEndpoint.Refresh` | spring-cloud-gateway-core/src/main/java/org/springframework/cloud/gateway/actuate/AbstractGatewayControllerEndpoint.java:114-118 | publishes exactly one `RefreshRoutesEvent` and completes; with no publisher set, it fails and publishes nothing |
| `RouteDefinitions.Put` | spring-cloud-gateway-core/src/main/java/org/springframework/cloud/gateway/discovery/DiscoveryClientRouteDefinitionLocator.java:167 | `addArg` puts into a `LinkedHashMap`: a new key is appended at the end, and a present key keeps its position |
| `RouteDefinitions.PutLookup` | spring-cloud-gateway-core/src/main/java/org/springframework/cloud/gateway/discovery/DiscoveryClientRouteDefinitionLocator.java:167 | after `addArg(k, v)` the key `k` maps to `v`, and every other key maps to what it mapped to before |
| `RouteDefinitions.PutKeepsDistinct` | spring-cloud-gateway-core/src/main/java/org/springframework/cloud/gateway/discovery/DiscoveryClientRouteDefinitionLocator.java:167 | the argument map never holds a key twice |
| `Strings.ContainsText` | spring-cloud-gateway-core/src/main/java/org/springframework/cloud/gateway/discovery/DiscoveryClientRouteDefinitionLocator.java:109 | `StringUtils.containsText`, used by `hasText`: true iff some character is not `Character.isWhitespace` |
| `Strings.HasText` | spring-cloud-gateway-core/src/main/java/org/springframework/cloud/gateway/discovery/DiscoveryClientRouteDefinitionLocator.java:109 | `StringUtils.hasText` holds iff the string is non-null and has a character that is not whitespace |
| `DiscoveryLocator.RouteIdPrefix` | spring-cloud-gateway-core/src/main/java/org/springframework/cloud/gateway/discovery/DiscoveryClientRouteDefinitionLocator.java:105-115 | the configured prefix when it has text, otherwise the client's simple class name followed by "_" |
| `DiscoveryLocator.BlankPrefixIsIgnored` | spring-cloud-gateway-core/src/main/java/org/springframework/cloud/gateway/discovery/DiscoveryClientRouteDefinitionLocator.java:109-115 | a configured prefix made only of whitespace falls back to the client name followed by "_" |
| `DiscoveryLocator.DiscoveryClientRouteDefinitionLocator.constructor` | spring-cloud-gateway-core/src/main/java/org/springframework/cloud/gateway/discovery/DiscoveryClientRouteDefinitionLocator.java:93-118 | the locator's prefix is `RouteIdPrefix` of the client's simple name and the configured prefix |
| `DiscoveryLocator.InstanceLists` | spring-cloud-gateway-core/src/main/java/org/springframework/cloud/gateway/discovery/DiscoveryClientRouteDefinitionLocator.java:93-98 | the stream holds one instance list per service, in service order |
| `DiscoveryLocator.ForEval` | spring-cloud-gateway-core/src/main/java/org/springframework/cloud/gateway/discovery/DiscoveryClientRouteDefinitionLocator.java:247-282 | the delegating instance returns the lower-cased service id when `lowerCaseServiceId` is set, and the raw one otherwise; every other accessor returns the delegate's value |
| `DiscoveryLocator.IncludesAll` | spring-cloud-gateway-core/src/main/java/org/springframework/cloud/gateway/discovery/DiscoveryClientRouteDefinitionLocator.java:136-138 | a null include expression, or "true" in any case, admits every instance without evaluation |
| `DiscoveryLocator.TrueInAnyCaseIncludesAll` | spring-cloud-gateway-core/src/main/java/org/springframework/cloud/gateway/discovery/DiscoveryClientRouteDefinitionLocator.java:137 | "TRUE", "True" and "tRuE" admit every instance; "yes" and "true " do not |
| `DiscoveryLocator.Included` | spring-cloud-gateway-core/src/main/java/org/springframework/cloud/gateway/discovery/DiscoveryClientRouteDefinitionLocator.java:136-148 | a null expression or "true" in any case includes every instance; otherwise an instance is included iff the expression evaluates to true, a null result excludes it, and it fails exactly when the evaluation fails |
| `DiscoveryLocator.ValueFromExpr` | spring-cloud-gateway-core/src/main/java/org/springframework/cloud/gateway/discovery/DiscoveryClientRouteDefinitionLocator.java:217-229 | an expression that does not parse raises a parse error; otherwise the result is the evaluation's value or its error, which is rethrown |
| `DiscoveryLocator.EvaluatedArgs` | spring-cloud-gateway-core/src/main/java/org/springframework/cloud/gateway/discovery/DiscoveryClientRouteDefinitionLocator.java:162-168 | the copied argument map of one definition, each entry `addArg`-ed in order with its evaluated value, stopping at the first failure (stated by the lemmas below) |
| `DiscoveryLocator.EvaluatedDefinitions` | spring-cloud-gateway-core/src/main/java/org/springframework/cloud/gateway/discovery/DiscoveryClientRouteDefinitionLocator.java:159-183 | the copied predicates or filters, in order, stopping at the first failure (stated by the lemmas below) |
| `DiscoveryLocator.EvaluatedArgsFailsOnlyOnFailure` | spring-cloud-gateway-core/src/main/java/org/springframework/cloud/gateway/discovery/DiscoveryClientRouteDefinitionLocator.java:217-229 | copying a definition's arguments succeeds iff every argument expression succeeds, so no failure is swallowed |
| `DiscoveryLocator.EvaluatedArgsStep` | spring-cloud-gateway-core/src/main/java/org/springframework/cloud/gateway/discovery/DiscoveryClientRouteDefinitionLocator.java:162-168 | one step of a successful copy: the front was copied, the last expression evaluated, and its value put |
| `DiscoveryLocator.CopyExtends` | spring-cloud-gateway-core/src/main/java/org/springframework/cloud/gateway/discovery/DiscoveryClientRouteDefinitionLocator.java:162-168 | putting the last evaluated entry into a faithful copy of the front of a map with distinct keys appends it and gives a faithful copy of the whole |
| `DiscoveryLocator.EvaluatedArgsCopiesEveryKey` | spring-cloud-gateway-core/src/main/java/org/springframework/cloud/gateway/discovery/DiscoveryClientRouteDefinitionLocator.java:162-168 | a successful copy has the same keys in the same order, and each value is its expression's value on the delegating instance |
| `DiscoveryLocator.EvaluatedDefinitionsFailsOnlyOnFailure` | spring-cloud-gateway-core/src/main/java/org/springframework/cloud/gateway/discovery/DiscoveryClientRouteDefinitionLocator.java:159-183 | copying the configured predicates or filters succeeds iff every definition's arguments copy successfully |
| `DiscoveryLocator.EvaluatedDefinitionsCopiesEach` | spring-cloud-gateway-core/src/main/java/org/springframework/cloud/gateway/discovery/DiscoveryClientRouteDefinitionLocator.java:159-183 | a successful copy yields exactly one definition per configured predicate or filter, in configured order, with the same name and the copied arguments |
| `DiscoveryLocator.DiscoveryClientRouteDefinitionLocator.CopyArgs` | spring-cloud-gateway-core/src/main/java/org/springframework/cloud/gateway/discovery/DiscoveryClientRouteDefinitionLocator.java:162-168 | the `addArg` loop computes the evaluated arguments, and stops at the first failure |
| `DiscoveryLocator.DiscoveryClientRouteDefinitionLocator.CopyDefinitions` | spring-cloud-gateway-core/src/main/java/org/springframework/cloud/gateway/discovery/DiscoveryClientRouteDefinitionLocator.java:159-183 | the predicate and filter loops compute the evaluated definitions |
| `DiscoveryLocator.BuiltRoute` | spring-cloud-gateway-core/src/main/java/org/springframework/cloud/gateway/discovery/DiscoveryClientRouteDefinitionLocator.java:195-207 | the id, uri and metadata of a new definition, or the failure of the url expression (stated by `RouteForShape`) |
| `DiscoveryLocator.DiscoveryClientRouteDefinitionLocator.BuildRouteDefinition` | spring-cloud-gateway-core/src/main/java/org/springframework/cloud/gateway/discovery/DiscoveryClientRouteDefinitionLocator.java:195-207 | id = prefix + raw service id; uri = the url expression evaluated on the raw instance; metadata = the instance's metadata; a null uri fails |
| `DiscoveryLocator.RouteFor` | spring-cloud-gateway-core/src/main/java/org/springframework/cloud/gateway/discovery/DiscoveryClientRouteDefinitionLocator.java:152-186 | the mapping lambda's route for an instance (stated by `RouteForShape`) |
| `DiscoveryLocator.RouteForShape` | spring-cloud-gateway-core/src/main/java/org/springframework/cloud/gateway/discovery/DiscoveryClientRouteDefinitionLocator.java:152-186 | a built route has the prefixed raw id, the raw-instance uri and the copied metadata; its predicates and filters are the configured ones evaluated against the delegating instance |
| `DiscoveryLocator.DiscoveryClientRouteDefinitionLocator.MapInstance` | spring-cloud-gateway-core/src/main/java/org/springframework/cloud/gateway/discovery/DiscoveryClientRouteDefinitionLocator.java:152-186 | the mapping lambda computes `RouteFor` for the instance |
| `DiscoveryLocator.ListContribution` | spring-cloud-gateway-core/src/main/java/org/springframework/cloud/gateway/discovery/DiscoveryClientRouteDefinitionLocator.java:150-153 | what one instance list contributes: nothing when it is empty or its first instance is excluded, else that instance's route or error |
| `DiscoveryLocator.RouteDefinitionsOf` | spring-cloud-gateway-core/src/main/java/org/springframework/cloud/gateway/discovery/DiscoveryClientRouteDefinitionLocator.java:150-186 | the stream over the instance lists, ending at the first error; its order and multiplicity are stated by `SingleListEmission` and `RouteDefinitionsConcat` |
| `DiscoveryLocator.SingleListEmission` | spring-cloud-gateway-core/src/main/java/org/springframework/cloud/gateway/discovery/DiscoveryClientRouteDefinitionLocator.java:150-153 | a single instance list emits exactly its contribution: one route, no route, or its error |
| `DiscoveryLocator.RouteDefinitionsConcat` | spring-cloud-gateway-core/src/main/java/org/springframework/cloud/gateway/discovery/DiscoveryClientRouteDefinitionLocator.java:150-186 | the `Flux` keeps the order of the services: when the lists in `a` complete, the stream over `a + b` emits `a`'s routes followed by `b`'s and ends as `b`'s stream ends, so each included non-empty list contributes exactly one route, in service order |
| `DiscoveryLocator.ErrorIsFinal` | spring-cloud-gateway-core/src/main/java/org/springframework/cloud/gateway/discovery/DiscoveryClientRouteDefinitionLocator.java:150-186 | once the stream has failed on a prefix of the instance lists, the later lists change nothing: an error ends the stream |
| `DiscoveryLocator.EmptyListsContributeNothing` | spring-cloud-gateway-core/src/main/java/org/springframework/cloud/gateway/discovery/DiscoveryClientRouteDefinitionLocator.java:150 | empty instance lists produce no route and no error |
| `DiscoveryLocator.RoutesComeFromFirstInstances` | spring-cloud-gateway-core/src/main/java/org/springframework/cloud/gateway/discovery/DiscoveryClientRouteDefinitionLocator.java:150-153 | every emitted route is the route of the first instance of some non-empty list, and that instance passed the include filter |
| `DiscoveryLocator.CompletedPrefix` | spring-cloud-gateway-core/src/main/java/org/springframework/cloud/gateway/discovery/DiscoveryClientRouteDefinitionLocator.java:150-186 | a stream that completes has completed on every prefix of the lists and keeps the routes the prefix emitted |
| `DiscoveryLocator.IncludedFirstInstancesAreRouted` | spring-cloud-gateway-core/src/main/java/org/springframework/cloud/gateway/discovery/DiscoveryClientRouteDefinitionLocator.java:136-153 | the converse of `RoutesComeFromFirstInstances`: in a stream that completes, every non-empty list whose first instance is included has that instance's route emitted |
| `DiscoveryLocator.IncludeAllKeepsEveryService` | spring-cloud-gateway-core/src/main/java/org/springframework/cloud/gateway/discovery/DiscoveryClientRouteDefinitionLocator.java:136-151 | with an include-all expression, a stream that completes has exactly one route per non-empty instance list |
| `DiscoveryLocator.Located` | spring-cloud-gateway-core/src/main/java/org/springframework/cloud/gateway/discovery/DiscoveryClientRouteDefinitionLocator.java:125-187 | the whole result: the include and url expressions are parsed first (a parse failure is thrown by the call, recorded as an emission with no route), then the instance lists are processed (stated by the lemmas above) |
| `DiscoveryLocator.DiscoveryClientRouteDefinitionLocator.GetRouteDefinitions` | spring-cloud-gateway-core/src/main/java/org/springframework/cloud/gateway/discovery/DiscoveryClientRouteDefinitionLocator.java:125-187 | the emitted routes and the terminating error are those of `Located`: the include and url expressions are parsed first, then the instance lists are processed in order until the first error |
| `DiscoveryProperties.DefaultSettings` | spring-cloud-gateway-core/src/main/java/org/springframework/cloud/gateway/discovery/DiscoveryLocatorProperties.java:37-85 | defaults: `enabled` false, `routeIdPrefix` null, `includeExpression` "true", `urlExpression` "'lb://'+serviceId", `lowerCaseServiceId` false, no predicates and no filters |
| `DiscoveryProperties.DiscoveryLocatorProperties.constructor` | spring-cloud-gateway-core/src/main/java/org/springframework/cloud/gateway/discovery/DiscoveryLocatorProperties.java:37-85 | a new settings object reads the defaults |
| `DiscoveryProperties.DiscoveryLocatorProperties.SetEnabled` | spring-cloud-gateway-core/src/main/java/org/springframework/cloud/gateway/discovery/DiscoveryLocatorProperties.java:91-93 | only `enabled` changes, and `isEnabled` returns the value set |
| `DiscoveryProperties.DiscoveryLocatorProperties.SetRouteIdPrefix` | spring-cloud-gateway-core/src/main/java/org/springframework/cloud/gateway/discovery/DiscoveryLocatorProperties.java:99-101 | only `routeIdPrefix` changes, and its getter returns the value set |
| `DiscoveryProperties.DiscoveryLocatorProperties.SetIncludeExpression` | spring-cloud-gateway-core/src/main/java/org/springframework/cloud/gateway/discovery/DiscoveryLocatorProperties.java:107-109 | only `includeExpression` changes, and its getter returns the value set |
| `DiscoveryProperties.DiscoveryLocatorProperties.SetUrlExpression` | spring-cloud-gateway-core/src/main/java/org/springframework/cloud/gateway/discovery/DiscoveryLocatorProperties.java:115-117 | only `urlExpression` changes, and its getter returns the value set |
| `DiscoveryProperties.DiscoveryLocatorProperties.SetLowerCaseServiceId` | spring-cloud-gateway-core/src/main/java/org/springframework/cloud/gateway/discovery/DiscoveryLocatorProperties.java:123-125 | only `lowerCaseServiceId` changes, and its getter returns the value set |
| `DiscoveryProperties.DiscoveryLocatorProperties.SetPredicates` | spring-cloud-gateway-core/src/main/java/org/springframework/cloud/gateway/discovery/DiscoveryLocatorProperties.java:131-133 | only `predicates` changes, and its getter returns the value set |
| `DiscoveryProperties.DiscoveryLocatorProperties.SetFilters` | spring-cloud-gateway-core/src/main/java/org/springframework/cloud/gateway/discovery/DiscoveryLocatorProperties.java:139-141 | only `filters` changes, and its getter returns the value set |
| `ForwardRouting.IsAlreadyRouted` | spring-cloud-gateway-core/src/main/java/org/springframework/cloud/gateway/filter/ForwardRoutingFilter.java:71 | `isAlreadyRouted(exchange)`: the already-routed attribute is true; an absent attribute reads as false, as `ServerWebExchangeUtils` does (that class is not part of this model) |
| `ForwardRouting.Decide` | spring-cloud-gateway-core/src/main/java/org/springframework/cloud/gateway/filter/ForwardRoutingFilter.java:67-82 | a missing request-URL attribute is an error; an already-routed exchange continues the chain whatever its scheme, and so does a scheme other than exactly "forward" (null included); it forwards iff the URL is present, the exchange is not routed and the scheme is "forward" |
| `ForwardRouting.UpperCaseSchemeIsNotForwarded` | spring-cloud-gateway-core/src/main/java/org/springframework/cloud/gateway/filter/ForwardRoutingFilter.java:71 | the scheme comparison is case-sensitive: "FORWARD" continues the chain |
| `ForwardRouting.DispatcherHandlerProvider.GetIfAvailable` | spring-cloud-gateway-core/src/main/java/org/springframework/cloud/gateway/filter/ForwardRoutingFilter.java:55 | `getIfAvailable()` answers the handler the provider has, or null, and counts the lookup |
| `ForwardRouting.ForwardRoutingFilter.constructor` | spring-cloud-gateway-core/src/main/java/org/springframework/cloud/gateway/filter/ForwardRoutingFilter.java:48-51 | keeps the provider; nothing is cached yet |
| `ForwardRouting.ForwardRoutingFilter.GetOrder` | spring-cloud-gateway-core/src/main/java/org/springframework/cloud/gateway/filter/ForwardRoutingFilter.java:61-64 | `getOrder` is `LOWEST_PRECEDENCE`, `Integer.MAX_VALUE`, as a Java `int` (its property is stated by `SortsLast`) |
| `ForwardRouting.ForwardRoutingFilter.SortsLast` | spring-cloud-gateway-core/src/main/java/org/springframework/cloud/gateway/filter/ForwardRoutingFilter.java:61-64 | no `int` order exceeds `getOrder()`: no ordered component sorts after the filter, and one whose order is also `LOWEST_PRECEDENCE` ties with it |
| `ForwardRouting.ForwardRoutingFilter.GetDispatcherHandler` | spring-cloud-gateway-core/src/main/java/org/springframework/cloud/gateway/filter/ForwardRoutingFilter.java:53-59 | asks the provider only while nothing is cached and caches its answer; a cached handler is returned without consulting the provider |
| `ForwardRouting.ForwardRoutingFilter.Filter` | spring-cloud-gateway-core/src/main/java/org/springframework/cloud/gateway/filter/ForwardRoutingFilter.java:67-82 | as `Decide` says, passes the unchanged exchange down the chain, or hands it unchanged to the cached dispatcher without continuing the chain; a forward with nothing cached asks the provider once and dispatches to its answer; nothing else consults the provider |

## Left out

- `GatewayAutoConfiguration` is not modelled. It is bean wiring and HTTP
  client pool, proxy and SSL configuration.
- `PredicateArgsEvent` and `EnableBodyCachingEvent` are not modelled. No core
  operation consumes them.
- SpEL parsing and evaluation are not modelled. They are the abstract functions
  of `SpelEngine`, and what the parser does with a null expression text is up to
  that engine.
- `ConfigurationService` binding and validation are not modelled. They are the
  abstract `bind` function. Only the service's validator field is kept.
- `RateLimiter.FilterArgsEvent`: the argument values, Java `Object`s, are
  modelled as strings. The guard reads only the keys. The values reach only
  the abstract `bind`.
- `Strings.ToLower`: handles only `A`-`Z`. `String.toLowerCase` is
  locale-sensitive and covers all of Unicode.
- `Strings.EqualsIgnoreCase`: compares only ASCII letters case-insensitively.
  This is exact for the only use, a comparison with "true".
- `DiscoveryLocator.DiscoveryClientRouteDefinitionLocator.BuildRouteDefinition`:
  a null uri fails, but URI syntax errors raised by `URI.create` are not
  modelled.
- The locator's two public constructors are modelled as one. The blocking
  client's scheduling is left out, and so is the reactive client's `flatMap`
  interleaving. The model takes the instance lists in service order.
- `DiscoveryLocator.Located`: a `ParseException` from the include or url
  expression is thrown by the `getRouteDefinitions()` call itself, before any
  `Flux` exists. The model records it as an emission with no route and that
  error, so it does not distinguish a thrown call from a failed stream.
- `DiscoveryLocator.ServiceInstance`: has no `instanceId`.
  `ServiceInstance.getInstanceId()` and any other accessor that
  `DelegatingServiceInstance` does not override are not modelled. `ForEval`
  speaks only of the accessors it overrides.
- The reactive plumbing (`Flux`, `Mono`) is not modelled. A stream is a
  sequence, and an error ends it after the routes already emitted.
  `Emission` records both.
- `ControllerEndpoint.AbstractGatewayControllerEndpoint.Save`: the grammar
  `URI.create` enforces is not modelled. Whether it accepts `/routes/{id}` is
  the endpoint's `uriCreates` parameter.
- Aliasing of mutable objects is not modelled:
  - `save` also overwrites the id of the caller's request body object, since it
    calls `setId` on that object;
  - `getPredicates()`/`getFilters()` return live lists.

  Route definitions are values here.
- `ControllerEndpoint.RouteDefinitionWriter`: an in-memory store stands in for
  the writer. Its `save` cannot fail, and it needs a non-null id, which the
  endpoint always provides. Writer errors other than `NotFoundException` are
  covered by `DeleteReply`, but this store does not produce them.
- The `routeDefinitionLocator` field is not modelled. No operation shown here
  uses it.
- `DispatcherHandler.handle` is not modelled. A forward ends in
  `Dispatched(handler, exchange)`. The filter's "translate url" TODO has no
  behaviour to model.
- The `volatile` dispatcher cache and all thread-safety concerns are not
  modelled.
- Logging and `toString` methods are not modelled. Getters are modelled as
  direct field reads (`Settings()` for the locator settings).
