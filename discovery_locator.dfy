/**
 * `DiscoveryClientRouteDefinitionLocator`: derives one route definition
 * per registered service from a discovery client. For every service whose
 * instance list is not empty, the first instance is tested against the
 * include expression; an included instance becomes a route whose id is
 * the route-id prefix followed by the service id, whose uri is the url
 * expression evaluated on the instance, whose metadata is the instance's,
 * and whose predicates and filters are the configured ones with every
 * argument value replaced by its evaluated expression.
 *
 * SpEL parsing and evaluation are a foreign engine, given as functions.
 */
module DiscoveryLocator {
  import opened Wrappers
  import opened Strings
  import opened RouteDefinitions
  import opened DiscoveryProperties

  /** A `ServiceInstance` and its accessors. */
  datatype ServiceInstance = ServiceInstance(
    serviceId: string,
    host: string,
    port: int,
    secure: bool,
    uri: string,
    metadata: map<string, string>,
    scheme: JString)

  /** A discovery client: its class's simple name, the services it knows
      and the instances it reports for each. */
  datatype DiscoveryClient = DiscoveryClient(
    simpleName: string,
    services: seq<string>,
    instancesOf: string -> seq<ServiceInstance>)

  /** The `serviceInstances` stream: one instance list per service, in
      service order. */
  function InstanceLists(client: DiscoveryClient): (ls: seq<seq<ServiceInstance>>)
    ensures |ls| == |client.services|
    ensures forall i :: 0 <= i < |ls| ==> ls[i] == client.instancesOf(client.services[i])
  {
    seq(|client.services|, i requires 0 <= i < |client.services| => client.instancesOf(client.services[i]))
  }

  /** A `ParseException` or an `EvaluationException`. */
  datatype SpelError = ParseError(expression: JString) | EvaluationError(expression: JString)

  /** The SpEL parser and the read-only evaluation context: whether an
      expression text parses, and its value as a `Boolean` or a `String`
      (`None` for null) against an instance. */
  datatype SpelEngine = SpelEngine(
    parses: JString -> bool,
    booleanValue: (JString, ServiceInstance) -> Result<Option<bool>, SpelError>,
    stringValue: (JString, ServiceInstance) -> Result<JString, SpelError>)

  /** What stops the stream of route definitions: an expression error, or
      a null uri handed to `URI.create`. */
  datatype LocatorError = Spel(cause: SpelError) | NullUri

  /** What a subscriber to `getRouteDefinitions()` receives: the route
      definitions emitted, then either completion (`error == None`) or
      the error that terminated the stream. */
  datatype Emission = Emission(routes: seq<RouteDefinition>, error: Option<LocatorError>)

  // ---------------------------------------------------------------
  // The pieces of the locator, as functions

  /** The route-id prefix chosen by the constructor. */
  function RouteIdPrefix(discoveryClientName: string, configured: JString): (p: string)
    ensures HasText(configured) ==> p == configured.value
    ensures !HasText(configured) ==> p == discoveryClientName + "_"
  {
    if HasText(configured) then configured.value else discoveryClientName + "_"
  }

  /** A configured prefix made only of whitespace is not used. */
  lemma BlankPrefixIsIgnored(discoveryClientName: string)
    ensures RouteIdPrefix(discoveryClientName, Some(" \t")) == discoveryClientName + "_"
  {
    assert IsWhitespace(" \t"[0]) && IsWhitespace(" \t"[1]);
  }

  /** `DelegatingServiceInstance`: the instance the predicate and filter
      argument expressions are evaluated against. */
  function ForEval(delegate: ServiceInstance, lowerCaseServiceId: bool): (v: ServiceInstance)
    ensures lowerCaseServiceId ==> v.serviceId == ToLower(delegate.serviceId)
    ensures !lowerCaseServiceId ==> v.serviceId == delegate.serviceId
    ensures v.host == delegate.host && v.port == delegate.port && v.secure == delegate.secure
    ensures v.uri == delegate.uri && v.metadata == delegate.metadata && v.scheme == delegate.scheme
  {
    if lowerCaseServiceId then delegate.(serviceId := ToLower(delegate.serviceId)) else delegate
  }

  /** The include expression admits every instance without evaluation. */
  predicate IncludesAll(includeExpression: JString)
  {
    includeExpression.None? || EqualsIgnoreCase(includeExpression, "true")
  }

  /** "true" in any letter case admits every instance. */
  lemma TrueInAnyCaseIncludesAll()
    ensures IncludesAll(Some("TRUE")) && IncludesAll(Some("True")) && IncludesAll(Some("tRuE"))
    ensures !IncludesAll(Some("yes")) && !IncludesAll(Some("true "))
  {
    assert LowerChar("yes"[0]) != LowerChar("true"[0]);
  }

  /** The include predicate applied to an instance. */
  function Included(spel: SpelEngine, includeExpression: JString, instance: ServiceInstance): (r: Result<bool, SpelError>)
    ensures IncludesAll(includeExpression) ==> r == Success(true)
    ensures !IncludesAll(includeExpression) ==>
              (r == Success(true) <==> spel.booleanValue(includeExpression, instance) == Success(Some(true)))
    ensures !IncludesAll(includeExpression) && spel.booleanValue(includeExpression, instance) == Success(None) ==>
              r == Success(false)
    ensures r.Failure? <==> !IncludesAll(includeExpression) && spel.booleanValue(includeExpression, instance).Failure?
  {
    if IncludesAll(includeExpression) then Success(true)
    else
      match spel.booleanValue(includeExpression, instance)
      case Failure(e) => Failure(e)
      case Success(None) => Success(false)
      case Success(Some(b)) => Success(b)
  }

  /** `getValueFromExpr`: parse the argument's expression and evaluate it
      as a `String`; a parse or evaluation failure is rethrown. */
  function ValueFromExpr(spel: SpelEngine, instance: ServiceInstance, expression: JString): (r: Result<JString, SpelError>)
    ensures !spel.parses(expression) ==> r == Failure(ParseError(expression))
    ensures spel.parses(expression) ==> r == spel.stringValue(expression, instance)
  {
    if spel.parses(expression) then spel.stringValue(expression, instance)
    else Failure(ParseError(expression))
  }

  /** The arguments of a copied definition: every entry of `args`, in
      order, `addArg`-ed with its evaluated value, stopping at the first
      failure. */
  function EvaluatedArgs(spel: SpelEngine, instance: ServiceInstance, args: Args): Result<Args, SpelError>
  {
    if args == [] then Success([])
    else
      var n := |args| - 1;
      match EvaluatedArgs(spel, instance, args[..n])
      case Failure(e) => Failure(e)
      case Success(acc) =>
        match ValueFromExpr(spel, instance, args[n].1)
        case Failure(e) => Failure(e)
        case Success(v) => Success(Put(acc, args[n].0, v))
  }

  /** The copies of configured definitions, in order, stopping at the
      first failure. */
  function EvaluatedDefinitions(spel: SpelEngine, instance: ServiceInstance, defs: seq<Definition>): Result<seq<Definition>, SpelError>
  {
    if defs == [] then Success([])
    else
      var n := |defs| - 1;
      match EvaluatedDefinitions(spel, instance, defs[..n])
      case Failure(e) => Failure(e)
      case Success(acc) =>
        match EvaluatedArgs(spel, instance, defs[n].args)
        case Failure(e) => Failure(e)
        case Success(a) => Success(acc + [Definition(defs[n].name, a)])
  }

  /** `buildRouteDefinition`: id, uri and metadata of a new definition. */
  function BuiltRoute(prefix: string, spel: SpelEngine, urlExpression: JString, instance: ServiceInstance): Result<RouteDefinition, LocatorError>
  {
    match spel.stringValue(urlExpression, instance)
    case Failure(e) => Failure(Spel(e))
    case Success(None) => Failure(NullUri)
    case Success(Some(uri)) =>
      Success(NewRouteDefinition().(id := Some(prefix + instance.serviceId), uri := Some(uri), metadata := instance.metadata))
  }

  /** The mapping lambda: the built route with the copied predicates, then
      the copied filters, appended. */
  function RouteFor(prefix: string, s: LocatorSettings, spel: SpelEngine, instance: ServiceInstance): Result<RouteDefinition, LocatorError>
  {
    match BuiltRoute(prefix, spel, s.urlExpression, instance)
    case Failure(e) => Failure(e)
    case Success(rd) =>
      var forEval := ForEval(instance, s.lowerCaseServiceId);
      match EvaluatedDefinitions(spel, forEval, s.predicates)
      case Failure(e) => Failure(Spel(e))
      case Success(ps) =>
        match EvaluatedDefinitions(spel, forEval, s.filters)
        case Failure(e) => Failure(Spel(e))
        case Success(fs) => Success(rd.(predicates := rd.predicates + ps, filters := rd.filters + fs))
  }

  /** What one instance list contributes: nothing when it is empty or its
      first instance is not included, otherwise the route for its first
      instance. */
  function ListContribution(prefix: string, s: LocatorSettings, spel: SpelEngine, instances: seq<ServiceInstance>): Result<Option<RouteDefinition>, LocatorError>
  {
    if instances == [] then Success(None)
    else
      match Included(spel, s.includeExpression, instances[0])
      case Failure(e) => Failure(Spel(e))
      case Success(false) => Success(None)
      case Success(true) =>
        match RouteFor(prefix, s, spel, instances[0])
        case Failure(e) => Failure(e)
        case Success(rd) => Success(Some(rd))
  }

  /** The stream over the instance lists, stopping at the first error. */
  function RouteDefinitionsOf(prefix: string, s: LocatorSettings, spel: SpelEngine, lists: seq<seq<ServiceInstance>>): Emission
  {
    if lists == [] then Emission([], None)
    else
      var n := |lists| - 1;
      var e := RouteDefinitionsOf(prefix, s, spel, lists[..n]);
      if e.error.Some? then e
      else
        match ListContribution(prefix, s, spel, lists[n])
        case Failure(err) => Emission(e.routes, Some(err))
        case Success(None) => e
        case Success(Some(rd)) => Emission(e.routes + [rd], None)
  }

  /** `getRouteDefinitions()`: the include and url expressions are parsed
      first, when the method is called; a parse failure is thrown by that
      call before any stream exists, and is recorded here as an emission
      with no route and that error. */
  function Located(prefix: string, s: LocatorSettings, spel: SpelEngine, lists: seq<seq<ServiceInstance>>): Emission
  {
    if !spel.parses(s.includeExpression) then Emission([], Some(Spel(ParseError(s.includeExpression))))
    else if !spel.parses(s.urlExpression) then Emission([], Some(Spel(ParseError(s.urlExpression))))
    else RouteDefinitionsOf(prefix, s, spel, lists)
  }

  // ---------------------------------------------------------------
  // Properties of the locator

  /** Copying arguments fails exactly when some argument's expression
      fails: no failure is swallowed. */
  lemma {:induction false} EvaluatedArgsFailsOnlyOnFailure(spel: SpelEngine, instance: ServiceInstance, args: Args)
    ensures EvaluatedArgs(spel, instance, args).Success? <==>
              forall i :: 0 <= i < |args| ==> ValueFromExpr(spel, instance, args[i].1).Success?
  {
    if args != [] {
      var n := |args| - 1;
      var front := args[..n];
      EvaluatedArgsFailsOnlyOnFailure(spel, instance, front);
      assert forall i :: 0 <= i < n ==> front[i] == args[i];
      assert EvaluatedArgs(spel, instance, args).Success? <==>
               EvaluatedArgs(spel, instance, front).Success? && ValueFromExpr(spel, instance, args[n].1).Success?;
    }
  }

  /** Putting a key that no entry has appends it. */
  lemma {:induction false} PutNewKeyAppends(acc: Args, key: string, value: JString)
    requires forall j :: 0 <= j < |acc| ==> acc[j].0 != key
    ensures Put(acc, key, value) == acc + [(key, value)]
  {
    assert key !in Keys(acc);
  }

  /** One step of a successful copy: the front was copied, the last
      expression evaluated, and its value put. */
  lemma {:induction false} EvaluatedArgsStep(spel: SpelEngine, instance: ServiceInstance, args: Args)
    requires args != [] && EvaluatedArgs(spel, instance, args).Success?
    ensures EvaluatedArgs(spel, instance, args[..|args| - 1]).Success?
    ensures ValueFromExpr(spel, instance, args[|args| - 1].1).Success?
    ensures EvaluatedArgs(spel, instance, args).value ==
              Put(EvaluatedArgs(spel, instance, args[..|args| - 1]).value, args[|args| - 1].0,
                  ValueFromExpr(spel, instance, args[|args| - 1].1).value)
  {
  }

  /** Putting the evaluated last entry into a faithful copy of the front
      of a map with distinct keys appends it, and gives a faithful copy of
      the whole. */
  lemma {:induction false} CopyExtends(spel: SpelEngine, instance: ServiceInstance, args: Args, acc: Args,
                                       v: JString, r: Args)
    requires args != [] && |acc| == |args| - 1 && DistinctKeys(args)
    requires forall i :: 0 <= i < |acc| ==> acc[i].0 == args[i].0 && ValueFromExpr(spel, instance, args[i].1) == Success(acc[i].1)
    requires ValueFromExpr(spel, instance, args[|acc|].1) == Success(v)
    requires r == Put(acc, args[|acc|].0, v)
    ensures |r| == |args|
    ensures forall i :: 0 <= i < |args| ==> r[i].0 == args[i].0 && ValueFromExpr(spel, instance, args[i].1) == Success(r[i].1)
  {
    PutNewKeyAppends(acc, args[|acc|].0, v);
    forall i | 0 <= i < |acc|
      ensures r[i].0 == args[i].0 && ValueFromExpr(spel, instance, args[i].1) == Success(r[i].1)
    {
      assert r[i] == acc[i];
    }
  }

  /** A successful copy of a map's arguments keeps every key, in order,
      and gives each the value of its expression. */
  lemma {:induction false} EvaluatedArgsCopiesEveryKey(spel: SpelEngine, instance: ServiceInstance, args: Args, r: Args)
    requires DistinctKeys(args)
    requires EvaluatedArgs(spel, instance, args) == Success(r)
    ensures |r| == |args|
    ensures forall i :: 0 <= i < |args| ==> r[i].0 == args[i].0 && ValueFromExpr(spel, instance, args[i].1) == Success(r[i].1)
  {
    if args != [] {
      var front := args[..|args| - 1];
      EvaluatedArgsStep(spel, instance, args);
      var acc := EvaluatedArgs(spel, instance, front).value;
      assert DistinctKeys(front);
      EvaluatedArgsCopiesEveryKey(spel, instance, front, acc);
      CopyExtends(spel, instance, args, acc, ValueFromExpr(spel, instance, args[|args| - 1].1).value, r);
    }
  }

  /** Copying definitions fails exactly when some definition's arguments
      fail. */
  lemma {:induction false} EvaluatedDefinitionsFailsOnlyOnFailure(spel: SpelEngine, instance: ServiceInstance, defs: seq<Definition>)
    ensures EvaluatedDefinitions(spel, instance, defs).Success? <==>
              forall i :: 0 <= i < |defs| ==> EvaluatedArgs(spel, instance, defs[i].args).Success?
  {
    if defs != [] {
      var n := |defs| - 1;
      var front := defs[..n];
      EvaluatedDefinitionsFailsOnlyOnFailure(spel, instance, front);
      assert forall i :: 0 <= i < n ==> front[i] == defs[i];
      assert EvaluatedDefinitions(spel, instance, defs).Success? <==>
               EvaluatedDefinitions(spel, instance, front).Success? && EvaluatedArgs(spel, instance, defs[n].args).Success?;
    }
  }

  /** A successful copy yields one definition per configured one, in
      order, with the same name and the arguments copied as above. */
  lemma {:induction false} EvaluatedDefinitionsCopiesEach(spel: SpelEngine, instance: ServiceInstance, defs: seq<Definition>, r: seq<Definition>)
    requires EvaluatedDefinitions(spel, instance, defs) == Success(r)
    ensures |r| == |defs|
    ensures forall i :: 0 <= i < |defs| ==>
              r[i].name == defs[i].name && EvaluatedArgs(spel, instance, defs[i].args) == Success(r[i].args)
  {
    if defs != [] {
      var n := |defs| - 1;
      var front := defs[..n];
      var acc := EvaluatedDefinitions(spel, instance, front).value;
      var a := EvaluatedArgs(spel, instance, defs[n].args).value;
      EvaluatedDefinitionsCopiesEach(spel, instance, front, acc);
      assert r == acc + [Definition(defs[n].name, a)];
      forall i | 0 <= i < |defs|
        ensures r[i].name == defs[i].name && EvaluatedArgs(spel, instance, defs[i].args) == Success(r[i].args)
      {
        if i < n {
          assert r[i] == acc[i] && front[i] == defs[i];
        }
      }
    }
  }

  /** A route for an instance has id prefix + the raw service id, the url
      expression's value on the raw instance as uri, the instance's
      metadata, and the copied predicates and filters, evaluated against
      the delegating instance. */
  lemma RouteForShape(prefix: string, s: LocatorSettings, spel: SpelEngine, instance: ServiceInstance)
    requires RouteFor(prefix, s, spel, instance).Success?
    ensures var rd := RouteFor(prefix, s, spel, instance).value;
            && rd.id == Some(prefix + instance.serviceId)
            && spel.stringValue(s.urlExpression, instance) == Success(rd.uri)
            && rd.metadata == instance.metadata
            && EvaluatedDefinitions(spel, ForEval(instance, s.lowerCaseServiceId), s.predicates) == Success(rd.predicates)
            && EvaluatedDefinitions(spel, ForEval(instance, s.lowerCaseServiceId), s.filters) == Success(rd.filters)
  {
    var built := BuiltRoute(prefix, spel, s.urlExpression, instance);
    var forEval := ForEval(instance, s.lowerCaseServiceId);
    var ps := EvaluatedDefinitions(spel, forEval, s.predicates);
    var fs := EvaluatedDefinitions(spel, forEval, s.filters);
    assert built.Success? && ps.Success? && fs.Success?;
    assert built.value.predicates + ps.value == ps.value;
    assert built.value.filters + fs.value == fs.value;
    assert RouteFor(prefix, s, spel, instance).value == built.value.(predicates := ps.value, filters := fs.value);
  }

  /** Once the stream has failed, later instance lists change nothing. */
  lemma {:induction false} ErrorIsFinal(prefix: string, s: LocatorSettings, spel: SpelEngine,
                                        lists: seq<seq<ServiceInstance>>, i: nat)
    requires i <= |lists|
    requires RouteDefinitionsOf(prefix, s, spel, lists[..i]).error.Some?
    ensures RouteDefinitionsOf(prefix, s, spel, lists) == RouteDefinitionsOf(prefix, s, spel, lists[..i])
  {
    if i < |lists| {
      var n := |lists| - 1;
      assert lists[..n][..i] == lists[..i];
      ErrorIsFinal(prefix, s, spel, lists[..n], i);
    } else {
      assert lists[..i] == lists;
    }
  }

  /** Empty instance lists produce no route and no error. */
  lemma {:induction false} EmptyListsContributeNothing(prefix: string, s: LocatorSettings, spel: SpelEngine,
                                                       lists: seq<seq<ServiceInstance>>)
    requires forall i :: 0 <= i < |lists| ==> lists[i] == []
    ensures RouteDefinitionsOf(prefix, s, spel, lists) == Emission([], None)
  {
    if lists != [] {
      EmptyListsContributeNothing(prefix, s, spel, lists[..|lists| - 1]);
    }
  }

  /** Every emitted route is the route of the first instance of some
      non-empty list, and that instance was included. */
  lemma {:induction false} RoutesComeFromFirstInstances(prefix: string, s: LocatorSettings, spel: SpelEngine,
                                                        lists: seq<seq<ServiceInstance>>)
    ensures forall rd :: rd in RouteDefinitionsOf(prefix, s, spel, lists).routes ==>
              exists i :: 0 <= i < |lists| && lists[i] != [] &&
                Included(spel, s.includeExpression, lists[i][0]) == Success(true) &&
                RouteFor(prefix, s, spel, lists[i][0]) == Success(rd)
  {
    if lists != [] {
      var n := |lists| - 1;
      var front := lists[..n];
      RoutesComeFromFirstInstances(prefix, s, spel, front);
      forall rd | rd in RouteDefinitionsOf(prefix, s, spel, lists).routes
        ensures exists i :: 0 <= i < |lists| && lists[i] != [] &&
                  Included(spel, s.includeExpression, lists[i][0]) == Success(true) &&
                  RouteFor(prefix, s, spel, lists[i][0]) == Success(rd)
      {
        if rd in RouteDefinitionsOf(prefix, s, spel, front).routes {
          var i :| 0 <= i < |front| && front[i] != [] &&
                   Included(spel, s.includeExpression, front[i][0]) == Success(true) &&
                   RouteFor(prefix, s, spel, front[i][0]) == Success(rd);
          assert front[i] == lists[i];
        } else {
          assert lists[n] != [];
        }
      }
    }
  }

  /** A stream that completes has completed on every prefix of the
      instance lists, and keeps every route the prefix emitted. */
  lemma {:induction false} CompletedPrefix(prefix: string, s: LocatorSettings, spel: SpelEngine,
                                           lists: seq<seq<ServiceInstance>>)
    requires lists != []
    requires RouteDefinitionsOf(prefix, s, spel, lists).error.None?
    ensures RouteDefinitionsOf(prefix, s, spel, lists[..|lists| - 1]).error.None?
    ensures forall rd :: rd in RouteDefinitionsOf(prefix, s, spel, lists[..|lists| - 1]).routes ==>
              rd in RouteDefinitionsOf(prefix, s, spel, lists).routes
  {
  }

  /** The converse of `RoutesComeFromFirstInstances`: when the stream
      completes, the first instance of every non-empty list that the
      include expression admits has its route emitted. */
  lemma {:induction false} IncludedFirstInstancesAreRouted(prefix: string, s: LocatorSettings, spel: SpelEngine,
                                                           lists: seq<seq<ServiceInstance>>, i: nat)
    requires i < |lists| && lists[i] != []
    requires Included(spel, s.includeExpression, lists[i][0]) == Success(true)
    requires RouteDefinitionsOf(prefix, s, spel, lists).error.None?
    ensures RouteFor(prefix, s, spel, lists[i][0]).Success?
    ensures RouteFor(prefix, s, spel, lists[i][0]).value in RouteDefinitionsOf(prefix, s, spel, lists).routes
  {
    var n := |lists| - 1;
    var front := lists[..n];
    CompletedPrefix(prefix, s, spel, lists);
    if i < n {
      assert front[i] == lists[i];
      IncludedFirstInstancesAreRouted(prefix, s, spel, front, i);
    } else {
      assert ListContribution(prefix, s, spel, lists[n]).Success?;
    }
  }

  /** The number of non-empty instance lists. */
  function NonEmptyCount(lists: seq<seq<ServiceInstance>>): nat
  {
    if lists == [] then 0
    else NonEmptyCount(lists[..|lists| - 1]) + (if lists[|lists| - 1] == [] then 0 else 1)
  }

  /** With an include-all expression, a stream that completes without
      error has exactly one route per non-empty instance list. */
  lemma {:induction false} IncludeAllKeepsEveryService(prefix: string, s: LocatorSettings, spel: SpelEngine,
                                                       lists: seq<seq<ServiceInstance>>)
    requires IncludesAll(s.includeExpression)
    requires RouteDefinitionsOf(prefix, s, spel, lists).error.None?
    ensures |RouteDefinitionsOf(prefix, s, spel, lists).routes| == NonEmptyCount(lists)
  {
    if lists != [] {
      var n := |lists| - 1;
      var front := lists[..n];
      IncludeAllKeepsEveryService(prefix, s, spel, front);
    }
  }

  /** One instance list on its own: the stream emits that list's
      contribution, one route or none, or ends with its error. */
  lemma SingleListEmission(prefix: string, s: LocatorSettings, spel: SpelEngine, instances: seq<ServiceInstance>)
    ensures var e := RouteDefinitionsOf(prefix, s, spel, [instances]);
            match ListContribution(prefix, s, spel, instances)
            case Failure(err) => e == Emission([], Some(err))
            case Success(None) => e == Emission([], None)
            case Success(Some(rd)) => e == Emission([rd], None)
  {
    assert [instances][..0] == [];
  }

  /** The stream keeps the order of the instance lists: once the lists
      in `a` have completed, the lists in `b` add their routes after
      those of `a`, and the stream ends as `b`'s stream ends. With
      `SingleListEmission` this fixes the emission exactly, one route
      per included non-empty list, in list order. */
  lemma {:induction false} RouteDefinitionsConcat(prefix: string, s: LocatorSettings, spel: SpelEngine,
                                                  a: seq<seq<ServiceInstance>>, b: seq<seq<ServiceInstance>>)
    requires RouteDefinitionsOf(prefix, s, spel, a).error.None?
    ensures RouteDefinitionsOf(prefix, s, spel, a + b).routes ==
              RouteDefinitionsOf(prefix, s, spel, a).routes + RouteDefinitionsOf(prefix, s, spel, b).routes
    ensures RouteDefinitionsOf(prefix, s, spel, a + b).error == RouteDefinitionsOf(prefix, s, spel, b).error
  {
    if b == [] {
      assert a + b == a;
    } else {
      var n := |b| - 1;
      assert (a + b)[..|a + b| - 1] == a + b[..n];
      assert (a + b)[|a + b| - 1] == b[n];
      RouteDefinitionsConcat(prefix, s, spel, a, b[..n]);
    }
  }

  // ---------------------------------------------------------------
  // The locator

  class DiscoveryClientRouteDefinitionLocator {
    const properties: DiscoveryLocatorProperties
    const routeIdPrefix: string
    const spel: SpelEngine
    const client: DiscoveryClient

    /** The public constructors delegate to the private one with the
        client's simple class name, which chooses the route-id prefix. */
    constructor (client: DiscoveryClient, properties: DiscoveryLocatorProperties, spel: SpelEngine)
      ensures this.properties == properties && this.client == client && this.spel == spel
      ensures routeIdPrefix == RouteIdPrefix(client.simpleName, properties.routeIdPrefix)
    {
      this.properties := properties;
      this.client := client;
      this.spel := spel;
      if HasText(properties.routeIdPrefix) {
        routeIdPrefix := properties.routeIdPrefix.value;
      } else {
        routeIdPrefix := client.simpleName + "_";
      }
    }

    /** `getValueFromExpr` for each entry, `addArg`-ed to a new definition. */
    method CopyArgs(instance: ServiceInstance, args: Args) returns (r: Result<Args, SpelError>)
      ensures r == EvaluatedArgs(spel, instance, args)
    {
      var copied: Args := [];
      var i := 0;
      while i < |args|
        invariant 0 <= i <= |args|
        invariant EvaluatedArgs(spel, instance, args[..i]) == Success(copied)
      {
        assert args[..i + 1][..i] == args[..i];
        var value := ValueFromExpr(spel, instance, args[i].1);
        if value.Failure? {
          ErrorSticksInArgs(instance, args, i + 1);
          return Failure(value.error);
        }
        copied := Put(copied, args[i].0, value.value);
        i := i + 1;
      }
      assert args[..i] == args;
      return Success(copied);
    }

    /** Once copying a prefix of the arguments fails, copying all of them fails the same way. */
    lemma {:induction false} ErrorSticksInArgs(instance: ServiceInstance, args: Args, i: nat)
      requires i <= |args|
      requires EvaluatedArgs(spel, instance, args[..i]).Failure?
      ensures EvaluatedArgs(spel, instance, args) == EvaluatedArgs(spel, instance, args[..i])
    {
      if i < |args| {
        var n := |args| - 1;
        assert args[..n][..i] == args[..i];
        ErrorSticksInArgs(instance, args[..n], i);
      } else {
        assert args[..i] == args;
      }
    }

    /** Once copying a prefix of the definitions fails, copying all of them fails the same way. */
    lemma {:induction false} ErrorSticksInDefinitions(instance: ServiceInstance, defs: seq<Definition>, i: nat)
      requires i <= |defs|
      requires EvaluatedDefinitions(spel, instance, defs[..i]).Failure?
      ensures EvaluatedDefinitions(spel, instance, defs) == EvaluatedDefinitions(spel, instance, defs[..i])
    {
      if i < |defs| {
        var n := |defs| - 1;
        assert defs[..n][..i] == defs[..i];
        ErrorSticksInDefinitions(instance, defs[..n], i);
      } else {
        assert defs[..i] == defs;
      }
    }

    /** The loops over the configured predicates, or filters: one new
        definition per configured one, with its name and copied arguments. */
    method CopyDefinitions(instance: ServiceInstance, defs: seq<Definition>) returns (r: Result<seq<Definition>, SpelError>)
      ensures r == EvaluatedDefinitions(spel, instance, defs)
    {
      var copied: seq<Definition> := [];
      var i := 0;
      while i < |defs|
        invariant 0 <= i <= |defs|
        invariant EvaluatedDefinitions(spel, instance, defs[..i]) == Success(copied)
      {
        assert defs[..i + 1][..i] == defs[..i];
        var args := CopyArgs(instance, defs[i].args);
        if args.Failure? {
          ErrorSticksInDefinitions(instance, defs, i + 1);
          return Failure(args.error);
        }
        copied := copied + [Definition(defs[i].name, args.value)];
        i := i + 1;
      }
      assert defs[..i] == defs;
      return Success(copied);
    }

    /** `buildRouteDefinition(urlExpr, serviceInstance)`. */
    method BuildRouteDefinition(urlExpression: JString, instance: ServiceInstance) returns (r: Result<RouteDefinition, LocatorError>)
      ensures r == BuiltRoute(routeIdPrefix, spel, urlExpression, instance)
      ensures r.Success? ==> r.value.id == Some(routeIdPrefix + instance.serviceId) && r.value.metadata == instance.metadata
      ensures r.Success? ==> spel.stringValue(urlExpression, instance) == Success(r.value.uri)
    {
      var rd := NewRouteDefinition();
      rd := rd.(id := Some(routeIdPrefix + instance.serviceId));
      var uri := spel.stringValue(urlExpression, instance);
      if uri.Failure? {
        return Failure(Spel(uri.error));
      }
      if uri.value.None? {
        return Failure(NullUri);
      }
      rd := rd.(uri := uri.value);
      rd := rd.(metadata := instance.metadata);
      return Success(rd);
    }

    /** The mapping lambda of `getRouteDefinitions` for one included instance. */
    method MapInstance(s: LocatorSettings, instance: ServiceInstance) returns (r: Result<RouteDefinition, LocatorError>)
      ensures r == RouteFor(routeIdPrefix, s, spel, instance)
    {
      var built := BuildRouteDefinition(s.urlExpression, instance);
      if built.Failure? {
        return built;
      }
      var rd := built.value;
      var instanceForEval := ForEval(instance, s.lowerCaseServiceId);
      var predicates := CopyDefinitions(instanceForEval, s.predicates);
      if predicates.Failure? {
        return Failure(Spel(predicates.error));
      }
      rd := rd.(predicates := rd.predicates + predicates.value);
      var filters := CopyDefinitions(instanceForEval, s.filters);
      if filters.Failure? {
        return Failure(Spel(filters.error));
      }
      rd := rd.(filters := rd.filters + filters.value);
      return Success(rd);
    }

    /** `getRouteDefinitions()`. */
    method GetRouteDefinitions() returns (e: Emission)
      ensures e == Located(routeIdPrefix, properties.Settings(), spel, InstanceLists(client))
    {
      var s := properties.Settings();
      if !spel.parses(s.includeExpression) {
        return Emission([], Some(Spel(ParseError(s.includeExpression))));
      }
      if !spel.parses(s.urlExpression) {
        return Emission([], Some(Spel(ParseError(s.urlExpression))));
      }
      var lists := InstanceLists(client);
      e := Emission([], None);
      var i := 0;
      while i < |lists|
        invariant 0 <= i <= |lists|
        invariant e == RouteDefinitionsOf(routeIdPrefix, s, spel, lists[..i])
        invariant e.error.None?
      {
        assert lists[..i + 1][..i] == lists[..i];
        var instances := lists[i];
        i := i + 1;
        if instances == [] {
          continue;
        }
        var instance := instances[0];
        var included := Included(spel, s.includeExpression, instance);
        if included.Failure? {
          e := Emission(e.routes, Some(Spel(included.error)));
          ErrorIsFinal(routeIdPrefix, s, spel, lists, i);
          return;
        }
        if !included.value {
          continue;
        }
        var rd := MapInstance(s, instance);
        if rd.Failure? {
          e := Emission(e.routes, Some(rd.error));
          ErrorIsFinal(routeIdPrefix, s, spel, lists, i);
          return;
        }
        e := Emission(e.routes + [rd.value], None);
      }
      assert lists[..i] == lists;
    }
  }
}
