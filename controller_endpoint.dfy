/**
 * `AbstractGatewayControllerEndpoint`: the route-management operations of
 * the gateway actuator — validating and saving a route definition,
 * deleting one, listing components with their orders, and publishing a
 * refresh. HTTP responses are reduced to their status code and location.
 */
module ControllerEndpoint {
  import opened Wrappers
  import opened Strings
  import opened RouteDefinitions

  /** What `putItem` sees of an object: its `toString()` and, when it
      implements `Ordered`, its `getOrder()`. */
  datatype Component = Component(text: string, order: Option<int>)

  /** A `GatewayFilterFactory` or `RoutePredicateFactory`: its `name()`
      and how it shows as a component. */
  datatype Factory = Factory(name: string, component: Component)

  /** A compiled `Route` as the route locator streams it. `Route`
      implements `Ordered`. */
  datatype Route = Route(id: string, order: int, text: string)
  {
    function AsComponent(): Component
    {
      Component(text, Some(order))
    }
  }

  /** A `ResponseEntity` with an empty body. */
  datatype Response = Response(status: int, location: JString)

  const OK := 200
  const CREATED := 201
  const BAD_REQUEST := 400
  const NOT_FOUND := 404

  /** The exceptions the handlers can complete with: the writer's
      `NotFoundException` and other writer errors, the
      `NullPointerException` of a definition without a name, and the
      `IllegalArgumentException` of `URI.create` on an illegal text. */
  datatype HandlerError =
    | NotFoundException(id: string)
    | NullPointerException
    | IllegalArgumentException(input: string)
    | OtherError(message: string)

  /** What the reactive result of a handler completes with: a response,
      or an error that propagates to the caller. */
  datatype Reply = Respond(response: Response) | Propagate(error: HandlerError)

  /** Events the endpoint publishes. */
  datatype GatewayEvent = RefreshRoutesEvent

  // ---------------------------------------------------------------
  // validateRouteDefinition

  /** A definition name resolves: it is not null and some factory has it. */
  predicate Resolves(name: JString, factories: seq<Factory>)
  {
    name.Some? && exists f :: f in factories && f.name == name.value
  }

  /** The inner `anyMatch(factory -> name.equals(factory.name()))`.
      Comparing a null name dereferences it: `None` is the
      `NullPointerException`, raised only when some factory is compared. */
  function NameResolves(name: JString, factories: seq<Factory>): (r: Option<bool>)
    ensures r.None? <==> name.None? && factories != []
    ensures r == Some(true) <==> Resolves(name, factories)
  {
    if factories == [] then Some(false)
    else if name.None? then None
    else if factories[0].name == name.value then Some(true)
    else
      var rest := NameResolves(name, factories[1..]);
      assert forall f :: f in factories[1..] ==> f in factories;
      assert forall f :: f in factories && f != factories[0] ==> f in factories[1..];
      rest
  }

  /** The null dereference is reached: `allMatch` stops at the first
      definition that does not resolve, so it throws iff a null name comes
      before any definition that fails, and something is registered. */
  ghost predicate ThrowsOn(defs: seq<Definition>, factories: seq<Factory>)
  {
    factories != [] &&
    exists i :: 0 <= i < |defs| && defs[i].name.None? &&
      forall j :: 0 <= j < i ==> Resolves(defs[j].name, factories)
  }

  /** `ThrowsOn` one definition at a time: the head throws, or it
      resolves and the rest throws. */
  lemma {:induction false} ThrowsOnCons(defs: seq<Definition>, factories: seq<Factory>)
    requires defs != []
    ensures ThrowsOn(defs, factories) <==>
              factories != [] &&
              (defs[0].name.None? || (Resolves(defs[0].name, factories) && ThrowsOn(defs[1..], factories)))
  {
    var tail := defs[1..];
    if ThrowsOn(defs, factories) && defs[0].name.Some? {
      var i :| 0 <= i < |defs| && defs[i].name.None? &&
               forall j :: 0 <= j < i ==> Resolves(defs[j].name, factories);
      assert Resolves(defs[0].name, factories);
      assert tail[i - 1] == defs[i];
      assert forall j :: 0 <= j < i - 1 ==> tail[j] == defs[j + 1];
    }
    if factories != [] && Resolves(defs[0].name, factories) && ThrowsOn(tail, factories) {
      var i :| 0 <= i < |tail| && tail[i].name.None? &&
               forall j :: 0 <= j < i ==> Resolves(tail[j].name, factories);
      assert defs[i + 1] == tail[i];
      assert forall j :: 1 <= j < i + 1 ==> defs[j] == tail[j - 1];
    }
  }

  /** The outer `allMatch`, evaluated in list order. */
  function AllResolve(defs: seq<Definition>, factories: seq<Factory>): (r: Option<bool>)
    ensures r == Some(true) <==> forall d :: d in defs ==> Resolves(d.name, factories)
    ensures r.None? <==> ThrowsOn(defs, factories)
  {
    if defs == [] then Some(true)
    else
      ThrowsOnCons(defs, factories);
      match NameResolves(defs[0].name, factories)
      case None => None
      case Some(false) => Some(false)
      case Some(true) =>
        var rest := AllResolve(defs[1..], factories);
        assert forall d :: d in defs <==> d == defs[0] || d in defs[1..];
        rest
  }

  /** `validateRouteDefinition`: `None` when it throws. Both `allMatch`
      calls run, the filters' first, so either one's null dereference
      escapes; otherwise the definition is valid iff every filter name is
      some filter factory's name and every predicate name is some
      predicate factory's name. */
  function ValidateRouteDefinition(rd: RouteDefinition, filterFactories: seq<Factory>,
                                   predicateFactories: seq<Factory>): (r: Option<bool>)
    ensures r == Some(true) <==> ((forall d :: d in rd.filters ==> Resolves(d.name, filterFactories)) &&
                                  (forall d :: d in rd.predicates ==> Resolves(d.name, predicateFactories)))
    ensures r.None? <==> ThrowsOn(rd.filters, filterFactories) || ThrowsOn(rd.predicates, predicateFactories)
  {
    match AllResolve(rd.filters, filterFactories)
    case None => None
    case Some(f) =>
      match AllResolve(rd.predicates, predicateFactories)
      case None => None
      case Some(p) => Some(f && p)
  }

  /** A definition without filters and predicates is valid whatever is registered. */
  lemma {:induction false} EmptyDefinitionIsValid(rd: RouteDefinition, filterFactories: seq<Factory>,
                                                  predicateFactories: seq<Factory>)
    requires rd.filters == [] && rd.predicates == []
    ensures ValidateRouteDefinition(rd, filterFactories, predicateFactories) == Some(true)
  {
  }

  /** With nothing registered nothing is compared, so nothing throws, and
      only a definition without filters and predicates is valid. */
  lemma {:induction false} NothingRegisteredRejects(rd: RouteDefinition)
    ensures ValidateRouteDefinition(rd, [], []) == Some(rd.filters == [] && rd.predicates == [])
  {
    if rd.filters != [] {
      assert rd.filters[0] in rd.filters;
    }
    if rd.predicates != [] {
      assert rd.predicates[0] in rd.predicates;
    }
  }

  /** A null name behind a definition that already fails is never
      compared: the definition is rejected, not an error. */
  lemma {:induction false} FailureBeforeNullNameRejects(rd: RouteDefinition, filterFactories: seq<Factory>,
                                                        predicateFactories: seq<Factory>, bad: string)
    requires forall f :: f in filterFactories ==> f.name != bad
    requires filterFactories != [] && rd.predicates == []
    requires rd.filters == [Definition(Some(bad), []), Definition(None, [])]
    ensures ValidateRouteDefinition(rd, filterFactories, predicateFactories) == Some(false)
  {
    assert !Resolves(rd.filters[0].name, filterFactories);
    assert rd.filters[0] in rd.filters;
  }

  /** A null name reached while something is registered throws. */
  lemma {:induction false} NullNameThrows(rd: RouteDefinition, filterFactories: seq<Factory>,
                                          predicateFactories: seq<Factory>)
    requires filterFactories != []
    requires rd.filters != [] && rd.filters[0].name.None?
    ensures ValidateRouteDefinition(rd, filterFactories, predicateFactories) == None
  {
    assert ThrowsOn(rd.filters, filterFactories) by {
      assert rd.filters[0].name.None?;
    }
  }

  // ---------------------------------------------------------------
  // getNamesToOrders / putItem

  /** The reduction `reduce(new HashMap<>(), putItem)`: the items are put
      in stream order, so a later item overwrites an earlier one with the
      same `toString()`. */
  function NamesToOrdersOf(items: seq<Component>): map<string, Option<int>>
  {
    if items == [] then map[]
    else NamesToOrdersOf(items[..|items| - 1])[items[|items| - 1].text := items[|items| - 1].order]
  }

  /** The item at `i` is the last one with its text. */
  ghost predicate LastWithText(items: seq<Component>, i: int)
    requires 0 <= i < |items|
  {
    forall j :: i < j < |items| ==> items[j].text != items[i].text
  }

  /** The names-to-orders map has one key per distinct `toString()`, and
      each key maps to the order of the last item with that text. */
  lemma {:induction false} NamesToOrdersLastWins(items: seq<Component>)
    ensures NamesToOrdersOf(items).Keys == set c | c in items :: c.text
    ensures forall i :: 0 <= i < |items| && LastWithText(items, i) ==>
              NamesToOrdersOf(items)[items[i].text] == items[i].order
  {
    if items != [] {
      var n := |items| - 1;
      var front := items[..n];
      NamesToOrdersLastWins(front);
      assert items == front + [items[n]];
      assert (set c | c in items :: c.text) == (set c | c in front :: c.text) + {items[n].text};
      forall i | 0 <= i < |items| && LastWithText(items, i)
        ensures NamesToOrdersOf(items)[items[i].text] == items[i].order
      {
        if i < n {
          assert items[n].text != items[i].text;
          assert front[i] == items[i];
          assert LastWithText(front, i);
        }
      }
    }
  }

  /** `getNamesToOrders(list)`: fold `putItem` over the list into a map. */
  method NamesToOrders(items: seq<Component>) returns (m: map<string, Option<int>>)
    ensures m == NamesToOrdersOf(items)
    ensures m.Keys == set c | c in items :: c.text
  {
    m := map[];
    var i := 0;
    while i < |items|
      invariant 0 <= i <= |items|
      invariant m == NamesToOrdersOf(items[..i])
    {
      // putItem
      var order: Option<int> := None;
      if items[i].order.Some? {
        order := Some(items[i].order.value);
      }
      m := m[items[i].text := order];
      i := i + 1;
      assert items[..i][..i - 1] == items[..i - 1];
    }
    assert items[..i] == items;
    NamesToOrdersLastWins(items);
  }

  /** The routes of the locator's stream whose id equals `id`, in order. */
  function RoutesWithId(routes: seq<Route>, id: string): (r: seq<Route>)
    ensures forall x :: x in r <==> x in routes && x.id == id
    ensures |r| <= |routes|
    ensures |routes| == 1 ==> r == (if routes[0].id == id then routes else [])
  {
    if routes == [] then []
    else if routes[0].id == id then [routes[0]] + RoutesWithId(routes[1..], id)
    else RoutesWithId(routes[1..], id)
  }

  /** The filter keeps stream order and duplicates: filtering a
      concatenation is the concatenation of the filtered parts, so a
      later matching route stays later. */
  lemma {:induction false} RoutesWithIdDistributes(a: seq<Route>, b: seq<Route>, id: string)
    ensures RoutesWithId(a + b, id) == RoutesWithId(a, id) + RoutesWithId(b, id)
  {
    if a != [] {
      var ab := a + b;
      assert ab[0] == a[0] && ab[1..] == a[1..] + b;
      RoutesWithIdDistributes(a[1..], b, id);
      if a[0].id == id {
        assert RoutesWithId(ab, id) == [a[0]] + RoutesWithId(ab[1..], id);
        assert RoutesWithId(a, id) == [a[0]] + RoutesWithId(a[1..], id);
      } else {
        assert RoutesWithId(ab, id) == RoutesWithId(ab[1..], id);
      }
    } else {
      assert a + b == b;
    }
  }

  function AsComponents(routes: seq<Route>): (cs: seq<Component>)
    ensures |cs| == |routes|
    ensures forall i :: 0 <= i < |routes| ==> cs[i] == routes[i].AsComponent()
  {
    seq(|routes|, i requires 0 <= i < |routes| => routes[i].AsComponent())
  }

  // ---------------------------------------------------------------
  // Collaborators

  /** An in-memory `RouteDefinitionWriter`: definitions keyed by id. */
  class RouteDefinitionWriter {
    var routes: map<string, RouteDefinition>

    constructor ()
      ensures routes == map[]
    {
      routes := map[];
    }

    /** Stores `r` under its id, replacing any earlier definition. */
    method Save(r: RouteDefinition)
      requires r.id.Some?
      modifies this
      ensures routes == old(routes)[r.id.value := r]
    {
      routes := routes[r.id.value := r];
    }

    /** Removes the definition with this id; `NotFoundException` when there is none. */
    method Delete(id: string) returns (outcome: Result<(), HandlerError>)
      modifies this
      ensures id in old(routes) ==> outcome == Success(()) && routes == old(routes) - {id}
      ensures id !in old(routes) ==> outcome == Failure(NotFoundException(id)) && routes == old(routes)
    {
      if id in routes {
        routes := routes - {id};
        outcome := Success(());
      } else {
        outcome := Failure(NotFoundException(id));
      }
    }
  }

  /** The compiled routes the `RouteLocator` currently streams. */
  class RouteLocator {
    var routes: seq<Route>

    constructor (routes: seq<Route>)
      ensures this.routes == routes
    {
      this.routes := routes;
    }
  }

  /** An `ApplicationEventPublisher` that records what it publishes. */
  class EventPublisher {
    var published: seq<GatewayEvent>

    constructor ()
      ensures published == []
    {
      published := [];
    }

    method PublishEvent(e: GatewayEvent)
      modifies this
      ensures published == old(published) + [e]
    {
      published := published + [e];
    }
  }

  // ---------------------------------------------------------------
  // Response mapping

  /** The reply of `save` for the validation outcome and whether
      `URI.create("/routes/" + id)` succeeds: 201 with that location when
      the definition is valid and the text is a legal URI; an
      `IllegalArgumentException` when it is valid but the text is not
      (the definition is already written by then); 400 for an invalid
      definition; the `NullPointerException` when validation throws. */
  function SaveReply(id: string, validation: Option<bool>, locationParses: bool): (r: Reply)
    ensures r == Respond(Response(CREATED, Some("/routes/" + id))) <==> validation == Some(true) && locationParses
    ensures r == Propagate(IllegalArgumentException("/routes/" + id)) <==> validation == Some(true) && !locationParses
    ensures r == Respond(Response(BAD_REQUEST, None)) <==> validation == Some(false)
    ensures r == Propagate(NullPointerException) <==> validation.None?
  {
    match validation
    case None => Propagate(NullPointerException)
    case Some(false) => Respond(Response(BAD_REQUEST, None))
    case Some(true) =>
      if locationParses then Respond(Response(CREATED, Some("/routes/" + id)))
      else Propagate(IllegalArgumentException("/routes/" + id))
  }

  /** The reply of `delete` for the writer's outcome: 200 on success, 404
      only for `NotFoundException`; any other error propagates. */
  function DeleteReply(outcome: Result<(), HandlerError>): (r: Reply)
    ensures r == Respond(Response(OK, None)) <==> outcome.Success?
    ensures r == Respond(Response(NOT_FOUND, None)) <==> outcome.Failure? && outcome.error.NotFoundException?
    ensures outcome.Failure? && !outcome.error.NotFoundException? ==> r == Propagate(outcome.error)
  {
    match outcome
    case Success(_) => Respond(Response(OK, None))
    case Failure(NotFoundException(_)) => Respond(Response(NOT_FOUND, None))
    case Failure(e) => Propagate(e)
  }

  // ---------------------------------------------------------------
  // The endpoint

  class AbstractGatewayControllerEndpoint {
    const globalFilters: seq<Component>
    const gatewayFilters: seq<Factory>
    const routePredicates: seq<Factory>
    const routeDefinitionWriter: RouteDefinitionWriter
    const routeLocator: RouteLocator
    /** Whether `URI.create` accepts a text; the URI grammar is not
        part of this model. */
    const uriCreates: string -> bool
    var publisher: EventPublisher?

    constructor (globalFilters: seq<Component>, gatewayFilters: seq<Factory>, routePredicates: seq<Factory>,
                 routeDefinitionWriter: RouteDefinitionWriter, routeLocator: RouteLocator,
                 uriCreates: string -> bool)
      ensures this.globalFilters == globalFilters && this.gatewayFilters == gatewayFilters
      ensures this.uriCreates == uriCreates
      ensures this.routePredicates == routePredicates
      ensures this.routeDefinitionWriter == routeDefinitionWriter && this.routeLocator == routeLocator
      ensures publisher == null
    {
      this.globalFilters := globalFilters;
      this.gatewayFilters := gatewayFilters;
      this.routePredicates := routePredicates;
      this.routeDefinitionWriter := routeDefinitionWriter;
      this.routeLocator := routeLocator;
      this.uriCreates := uriCreates;
      publisher := null;
    }

    method SetApplicationEventPublisher(p: EventPublisher)
      modifies this`publisher
      ensures publisher == p
    {
      publisher := p;
    }

    /** `refresh`: publishes exactly one `RefreshRoutesEvent` and completes
        empty. Without a publisher the call fails with a null dereference
        and publishes nothing (the result is false). */
    method Refresh() returns (completed: bool)
      modifies publisher
      ensures completed <==> publisher != null
      ensures publisher != null ==> publisher.published == old(publisher.published) + [RefreshRoutesEvent]
    {
      if publisher == null {
        return false;
      }
      publisher.PublishEvent(RefreshRoutesEvent);
      return true;
    }

    /** `globalfilters`. */
    method GlobalFiltersToOrders() returns (m: map<string, Option<int>>)
      ensures m == NamesToOrdersOf(globalFilters)
    {
      m := NamesToOrders(globalFilters);
    }

    /** `routefilers`. */
    method RouteFiltersToOrders() returns (m: map<string, Option<int>>)
      ensures m == NamesToOrdersOf(seq(|gatewayFilters|, i requires 0 <= i < |gatewayFilters| => gatewayFilters[i].component))
    {
      m := NamesToOrders(seq(|gatewayFilters|, i requires 0 <= i < |gatewayFilters| => gatewayFilters[i].component));
    }

    /** `routepredicates`. */
    method RoutePredicatesToOrders() returns (m: map<string, Option<int>>)
      ensures m == NamesToOrdersOf(seq(|routePredicates|, i requires 0 <= i < |routePredicates| => routePredicates[i].component))
    {
      m := NamesToOrders(seq(|routePredicates|, i requires 0 <= i < |routePredicates| => routePredicates[i].component));
    }

    /** `save(id, route)`: the definition is validated first. When
        validation throws or rejects it, the writer is not called. A
        valid one is written with its id overwritten by the path id, and
        only then is the location `/routes/{id}` built, so an id that is
        illegal in a URI leaves the definition written and the reply an
        error. */
    method Save(id: string, route: RouteDefinition) returns (r: Reply)
      modifies routeDefinitionWriter
      ensures r == SaveReply(id, ValidateRouteDefinition(route, gatewayFilters, routePredicates),
                             uriCreates("/routes/" + id))
      ensures ValidateRouteDefinition(route, gatewayFilters, routePredicates) != Some(true) ==>
                routeDefinitionWriter.routes == old(routeDefinitionWriter.routes)
      ensures ValidateRouteDefinition(route, gatewayFilters, routePredicates) == Some(true) ==>
                routeDefinitionWriter.routes == old(routeDefinitionWriter.routes)[id := route.(id := Some(id))]
    {
      var validation := ValidateRouteDefinition(route, gatewayFilters, routePredicates);
      if validation.None? {
        return Propagate(NullPointerException);
      }
      if !validation.value {
        return Respond(Response(BAD_REQUEST, None));
      }
      var saved := route.(id := Some(id));
      routeDefinitionWriter.Save(saved);
      var location := "/routes/" + id;
      if !uriCreates(location) {
        return Propagate(IllegalArgumentException(location));
      }
      return Respond(Response(CREATED, Some(location)));
    }

    /** `delete(id)`. */
    method Delete(id: string) returns (r: Reply)
      modifies routeDefinitionWriter
      ensures id in old(routeDefinitionWriter.routes) ==>
                r == Respond(Response(OK, None)) && routeDefinitionWriter.routes == old(routeDefinitionWriter.routes) - {id}
      ensures id !in old(routeDefinitionWriter.routes) ==>
                r == Respond(Response(NOT_FOUND, None)) && routeDefinitionWriter.routes == old(routeDefinitionWriter.routes)
    {
      var outcome := routeDefinitionWriter.Delete(id);
      r := DeleteReply(outcome);
    }

    /** `combinedfilters(id)`: the names-to-orders map of the routes whose
        id equals `id`; no other route contributes a key. */
    method CombinedFilters(id: string) returns (m: map<string, Option<int>>)
      ensures m == NamesToOrdersOf(AsComponents(RoutesWithId(routeLocator.routes, id)))
      ensures forall k :: k in m ==> exists x :: x in routeLocator.routes && x.id == id && x.text == k
    {
      var matching := RoutesWithId(routeLocator.routes, id);
      var components := AsComponents(matching);
      m := NamesToOrders(components);
      forall k | k in m ensures exists x :: x in routeLocator.routes && x.id == id && x.text == k {
        var c :| c in components && c.text == k;
        var i :| 0 <= i < |components| && components[i] == c;
        assert matching[i] in matching;
      }
    }
  }
}
