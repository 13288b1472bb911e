/**
 * `ForwardRoutingFilter`: the global filter that hands an exchange whose
 * request URL has the `forward` scheme to the application's own
 * `DispatcherHandler`, and otherwise continues the filter chain.
 */
module ForwardRouting {
  import opened Wrappers
  import opened Strings

  /** Java's `int`. */
  type Int32 = x: int | -0x8000_0000 <= x < 0x8000_0000

  /** `Ordered.LOWEST_PRECEDENCE`, that is `Integer.MAX_VALUE`. */
  const LOWEST_PRECEDENCE: Int32 := 0x7fff_ffff

  /** The request URL; only its scheme (null for a relative URI) matters here. */
  datatype Uri = Uri(scheme: JString, path: string)

  /** The exchange attributes the filter reads: the required
      `GATEWAY_REQUEST_URL_ATTR`, and `GATEWAY_ALREADY_ROUTED_ATTR`
      (`None` when absent, which reads as false). */
  datatype Exchange = Exchange(requestUrl: Option<Uri>, alreadyRouted: Option<bool>)

  /** `ServerWebExchangeUtils.isAlreadyRouted`. */
  predicate IsAlreadyRouted(exchange: Exchange)
  {
    exchange.alreadyRouted == Some(true)
  }

  /** The local `DispatcherHandler`, known by its identity. */
  datatype DispatcherHandler = DispatcherHandler(id: nat)

  /** Which way `filter` goes for an exchange. */
  datatype Decision = RequiredAttributeMissing | ContinueChain | Forward

  /** The branch of `filter`: a missing request URL is an error; an
      already-routed exchange, or a scheme other than exactly "forward",
      continues the chain; anything else is forwarded. */
  function Decide(exchange: Exchange): (d: Decision)
    ensures d == RequiredAttributeMissing <==> exchange.requestUrl.None?
    ensures exchange.requestUrl.Some? && IsAlreadyRouted(exchange) ==> d == ContinueChain
    ensures exchange.requestUrl.Some? && exchange.requestUrl.value.scheme != Some("forward") ==> d == ContinueChain
    ensures d == Forward <==> exchange.requestUrl.Some? && !IsAlreadyRouted(exchange) &&
                              exchange.requestUrl.value.scheme == Some("forward")
  {
    match exchange.requestUrl
    case None => RequiredAttributeMissing
    case Some(url) =>
      if IsAlreadyRouted(exchange) || url.scheme != Some("forward") then ContinueChain else Forward
  }

  /** The comparison with "forward" is case-sensitive. */
  lemma UpperCaseSchemeIsNotForwarded(path: string)
    ensures Decide(Exchange(Some(Uri(Some("FORWARD"), path)), None)) == ContinueChain
  {
    assert "FORWARD"[0] != "forward"[0];
  }

  /** What `filter` completes with. Every outcome that carries the
      exchange carries it unchanged: the filter sets no attribute. */
  datatype FilterOutcome =
    | PassThrough(exchange: Exchange)
    | Dispatched(handler: DispatcherHandler, exchange: Exchange)
    | MissingRequiredAttribute
    | NullDispatcherHandler

  /** `ObjectProvider<DispatcherHandler>`: what `getIfAvailable()`
      answers, and a count of the times it was asked. */
  class DispatcherHandlerProvider {
    var available: Option<DispatcherHandler>
    ghost var lookups: nat

    constructor (available: Option<DispatcherHandler>)
      ensures this.available == available && lookups == 0
    {
      this.available := available;
      lookups := 0;
    }

    method GetIfAvailable() returns (h: Option<DispatcherHandler>)
      modifies this`lookups
      ensures h == available && lookups == old(lookups) + 1
    {
      h := available;
      lookups := lookups + 1;
    }
  }

  class ForwardRoutingFilter {
    const dispatcherHandlerProvider: DispatcherHandlerProvider
    /** The cached handler; use `GetDispatcherHandler`. */
    var dispatcherHandler: Option<DispatcherHandler>

    constructor (provider: DispatcherHandlerProvider)
      ensures dispatcherHandlerProvider == provider && dispatcherHandler == None
    {
      dispatcherHandlerProvider := provider;
      dispatcherHandler := None;
    }

    /** `getOrder`. */
    function GetOrder(): Int32
    {
      LOWEST_PRECEDENCE
    }

    /** No `int` order is greater: no ordered component sorts after the
        filter (one with the same order ties with it). */
    lemma SortsLast(other: Int32)
      ensures other <= GetOrder()
    {
    }

    /** `getDispatcherHandler`: asks the provider only while nothing is
        cached, and caches what it answers. */
    method GetDispatcherHandler() returns (h: Option<DispatcherHandler>)
      modifies this`dispatcherHandler, dispatcherHandlerProvider`lookups
      ensures old(dispatcherHandler).Some? ==>
                h == old(dispatcherHandler) && dispatcherHandler == old(dispatcherHandler) &&
                dispatcherHandlerProvider.lookups == old(dispatcherHandlerProvider.lookups)
      ensures old(dispatcherHandler).None? ==>
                h == dispatcherHandlerProvider.available && dispatcherHandler == h &&
                dispatcherHandlerProvider.lookups == old(dispatcherHandlerProvider.lookups) + 1
    {
      if dispatcherHandler.None? {
        dispatcherHandler := dispatcherHandlerProvider.GetIfAvailable();
      }
      h := dispatcherHandler;
    }

    /** `filter(exchange, chain)`. */
    method Filter(exchange: Exchange) returns (outcome: FilterOutcome)
      modifies this`dispatcherHandler, dispatcherHandlerProvider`lookups
      ensures Decide(exchange) == RequiredAttributeMissing ==> outcome == MissingRequiredAttribute
      ensures Decide(exchange) == ContinueChain ==> outcome == PassThrough(exchange)
      ensures Decide(exchange) != Forward ==>
                dispatcherHandler == old(dispatcherHandler) &&
                dispatcherHandlerProvider.lookups == old(dispatcherHandlerProvider.lookups)
      ensures Decide(exchange) == Forward && dispatcherHandler.Some? ==> outcome == Dispatched(dispatcherHandler.value, exchange)
      ensures Decide(exchange) == Forward && dispatcherHandler.None? ==> outcome == NullDispatcherHandler
      ensures Decide(exchange) == Forward && old(dispatcherHandler).Some? ==>
                dispatcherHandler == old(dispatcherHandler) &&
                dispatcherHandlerProvider.lookups == old(dispatcherHandlerProvider.lookups)
      ensures Decide(exchange) == Forward && old(dispatcherHandler).None? ==>
                dispatcherHandler == dispatcherHandlerProvider.available &&
                dispatcherHandlerProvider.lookups == old(dispatcherHandlerProvider.lookups) + 1
    {
      if exchange.requestUrl.None? {
        return MissingRequiredAttribute;
      }
      var scheme := exchange.requestUrl.value.scheme;
      if IsAlreadyRouted(exchange) || scheme != Some("forward") {
        return PassThrough(exchange);
      }
      var handler := GetDispatcherHandler();
      if handler.None? {
        return NullDispatcherHandler;
      }
      return Dispatched(handler.value, exchange);
    }
  }
}
