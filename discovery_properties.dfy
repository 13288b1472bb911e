/**
 * `DiscoveryLocatorProperties`: the mutable settings record
 * (`spring.cloud.gateway.discovery.locator.*`) whose values drive the
 * discovery route-definition locator.
 */
module DiscoveryProperties {
  import opened Wrappers
  import opened Strings
  import opened RouteDefinitions

  /** A snapshot of every setting, read through the getters. */
  datatype LocatorSettings = LocatorSettings(
    enabled: bool,
    routeIdPrefix: JString,
    includeExpression: JString,
    urlExpression: JString,
    lowerCaseServiceId: bool,
    predicates: seq<PredicateDefinition>,
    filters: seq<FilterDefinition>)

  /** The field initialisers. */
  function DefaultSettings(): (s: LocatorSettings)
    ensures !s.enabled && s.routeIdPrefix == None
    ensures s.includeExpression == Some("true")
    ensures s.urlExpression == Some("'lb://'+serviceId")
    ensures !s.lowerCaseServiceId && s.predicates == [] && s.filters == []
  {
    LocatorSettings(false, None, Some("true"), Some("'lb://'+serviceId"), false, [], [])
  }

  class DiscoveryLocatorProperties {
    var enabled: bool
    var routeIdPrefix: JString
    var includeExpression: JString
    var urlExpression: JString
    var lowerCaseServiceId: bool
    var predicates: seq<PredicateDefinition>
    var filters: seq<FilterDefinition>

    /** What the getters currently return. */
    function Settings(): LocatorSettings
      reads this
    {
      LocatorSettings(enabled, routeIdPrefix, includeExpression, urlExpression,
                      lowerCaseServiceId, predicates, filters)
    }

    constructor ()
      ensures Settings() == DefaultSettings()
    {
      enabled := false;
      routeIdPrefix := None;
      includeExpression := Some("true");
      urlExpression := Some("'lb://'+serviceId");
      lowerCaseServiceId := false;
      predicates := [];
      filters := [];
    }

    // Each setter changes its own field and nothing else.

    method SetEnabled(v: bool)
      modifies this`enabled
      ensures Settings() == old(Settings()).(enabled := v)
    {
      enabled := v;
    }

    method SetRouteIdPrefix(v: JString)
      modifies this`routeIdPrefix
      ensures Settings() == old(Settings()).(routeIdPrefix := v)
    {
      routeIdPrefix := v;
    }

    method SetIncludeExpression(v: JString)
      modifies this`includeExpression
      ensures Settings() == old(Settings()).(includeExpression := v)
    {
      includeExpression := v;
    }

    method SetUrlExpression(v: JString)
      modifies this`urlExpression
      ensures Settings() == old(Settings()).(urlExpression := v)
    {
      urlExpression := v;
    }

    method SetLowerCaseServiceId(v: bool)
      modifies this`lowerCaseServiceId
      ensures Settings() == old(Settings()).(lowerCaseServiceId := v)
    {
      lowerCaseServiceId := v;
    }

    method SetPredicates(v: seq<PredicateDefinition>)
      modifies this`predicates
      ensures Settings() == old(Settings()).(predicates := v)
    {
      predicates := v;
    }

    method SetFilters(v: seq<FilterDefinition>)
      modifies this`filters
      ensures Settings() == old(Settings()).(filters := v)
    {
      filters := v;
    }
  }
}
