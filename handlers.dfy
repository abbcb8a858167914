/**
 * Routes and the logging decorator (RouterCore/DSL/Route.swift,
 * RouterCore/Logging/LoggingRoute.swift, RouterCore/Logging/RouteLogger.swift).
 * Invoking a route is observed through the effects it has, in order.
 */
module Handlers {
  import opened Routeables

  /** Identifies an application route object. */
  type RouteId = nat

  /** Identifies a `RouteLogger`. */
  type LoggerId = nat

  /**
   * A `Route`.
   * - `Handler`: an application route whose associated `Parameter` type is `parameter`.
   * - `Logging`: a `LoggingRoute` forwarding to `route` and reporting to `logger`.
   */
  datatype Route =
    | Handler(id: RouteId, parameter: TypeTag)
    | Logging(route: Route, logger: LoggerId)

  /** An externally visible effect of invoking a route. */
  datatype Event =
    | Invoked(handler: RouteId, parameter: Routable)                  // the application's `route(_:)` ran
    | WillInvoke(logger: LoggerId, route: Route, parameter: Routable)  // `route(_:willBeInvokedWith:)`
    | WasInvoked(logger: LoggerId, route: Route, parameter: Routable)  // `route(_:wasInvokedWith:)`

  /** The associated `Parameter` type; a `LoggingRoute` takes the one of the route it decorates. */
  function Parameter(r: Route): TypeTag
  {
    match r
    case Handler(_, p) => p
    case Logging(inner, _) => Parameter(inner)
  }

  /** `logging(logger:)`: decorate the receiver with `logger`, leaving its parameter type as it was. */
  function WithLogging(r: Route, logger: LoggerId): (lr: Route)
    ensures lr.Logging? && lr.route == r && lr.logger == logger
    ensures Parameter(lr) == Parameter(r)
  {
    Logging(r, logger)
  }

  /** The application route that a chain of decorators ends at. */
  function Innermost(r: Route): (h: Route)
    ensures h.Handler? && h.parameter == Parameter(r)
  {
    match r
    case Handler(_, _) => r
    case Logging(inner, _) => Innermost(inner)
  }

  function Depth(r: Route): nat
  {
    match r
    case Handler(_, _) => 0
    case Logging(inner, _) => 1 + Depth(inner)
  }

  /** The effects of one call of `route(_:)` with `p`. */
  function Effects(r: Route, p: Routable): seq<Event>
  {
    match r
    case Handler(id, _) => [Invoked(id, p)]
    case Logging(inner, l) => [WillInvoke(l, inner, p)] + Effects(inner, p) + [WasInvoked(l, inner, p)]
  }

  /** `route(_:)`; for a `LoggingRoute`: log "will be invoked", invoke the wrapped route, log "was invoked". */
  method Invoke(r: Route, p: Routable) returns (trace: seq<Event>)
    ensures trace == Effects(r, p)
  {
    match r
    case Handler(id, _) =>
      trace := [Invoked(id, p)];
    case Logging(inner, logger) =>
      trace := [WillInvoke(logger, inner, p)];
      var forwarded := Invoke(inner, p);
      trace := trace + forwarded;
      trace := trace + [WasInvoked(logger, inner, p)];
  }

  /** `routable as? Self.Parameter` succeeds. */
  predicate Claims(r: Route, v: Routable)
  {
    TypeOf(v) == Parameter(r)
  }

  /**
   * The default `dispatch(routable:)` of a `Route`: `.dispatched` exactly when the
   * value has the route's parameter type, in which case `route(_:)` runs once with
   * that value; otherwise nothing runs. It never fails.
   */
  method DispatchRoute(r: Route, v: Routable) returns (result: RouteDispatchResult, trace: seq<Event>)
    ensures result == Dispatched <==> TypeOf(v) == Parameter(r)
    ensures result == Dispatched ==> trace == Effects(r, v)
    ensures result == NotDispatched ==> trace == []
  {
    result := NotDispatched;
    trace := [];
    if TypeOf(v) == Parameter(r) {
      trace := Invoke(r, v);
      result := Dispatched;
    }
  }

  function InvokedCount(trace: seq<Event>): nat
  {
    if trace == [] then 0 else (if trace[0].Invoked? then 1 else 0) + InvokedCount(trace[1..])
  }

  lemma {:induction false} InvokedCountAppend(a: seq<Event>, b: seq<Event>)
    ensures InvokedCount(a + b) == InvokedCount(a) + InvokedCount(b)
    decreases |a|
  {
    if a == [] {
      assert a + b == b;
    } else {
      assert (a + b)[0] == a[0];
      assert (a + b)[1..] == a[1..] + b;
      InvokedCountAppend(a[1..], b);
    }
  }

  /**
   * Invoking a route, however decorated, runs the application route exactly once,
   * with the same parameter, and every effect carries that parameter.
   */
  lemma {:induction false} RouteRunsOnce(r: Route, p: Routable)
    ensures InvokedCount(Effects(r, p)) == 1
    ensures Invoked(Innermost(r).id, p) in Effects(r, p)
    ensures forall e | e in Effects(r, p) :: e.parameter == p
  {
    match r
    case Handler(_, _) =>
    case Logging(inner, l) =>
      RouteRunsOnce(inner, p);
      InvokedCountAppend([WillInvoke(l, inner, p)], Effects(inner, p));
      InvokedCountAppend([WillInvoke(l, inner, p)] + Effects(inner, p), [WasInvoked(l, inner, p)]);
  }

  /** Logger effects inside a route's invocation name only routes it decorates, never the route itself. */
  lemma {:induction false} HooksNameInnerRoutes(r: Route, p: Routable)
    ensures forall e | e in Effects(r, p) && !e.Invoked? :: Depth(e.route) < Depth(r)
  {
    match r
    case Handler(_, _) =>
    case Logging(inner, l) =>
      HooksNameInnerRoutes(inner, p);
  }

  /**
   * A `LoggingRoute` calls, in order, the logger's "will be invoked" hook, the wrapped
   * route, and the logger's "was invoked" hook; each hook runs exactly once, and both
   * receive the wrapped route and the parameter.
   */
  lemma LoggingOrder(r: Route, logger: LoggerId, p: Routable)
    ensures var trace := Effects(WithLogging(r, logger), p);
      && |trace| >= 3
      && trace[0] == WillInvoke(logger, r, p)
      && trace[1..|trace| - 1] == Effects(r, p)
      && trace[|trace| - 1] == WasInvoked(logger, r, p)
      && multiset(trace)[WillInvoke(logger, r, p)] == 1
      && multiset(trace)[WasInvoked(logger, r, p)] == 1
  {
    var trace := Effects(WithLogging(r, logger), p);
    var inner := Effects(r, p);
    RouteRunsOnce(r, p);
    assert |inner| > 0 by {
      assert Invoked(Innermost(r).id, p) in inner;
    }
    HooksNameInnerRoutes(r, p);
    assert WillInvoke(logger, r, p) !in inner;
    assert WasInvoked(logger, r, p) !in inner;
    assert trace == [WillInvoke(logger, r, p)] + inner + [WasInvoked(logger, r, p)];
    assert trace[1..|trace| - 1] == inner;
    assert multiset(inner)[WillInvoke(logger, r, p)] == 0;
    assert multiset(inner)[WasInvoked(logger, r, p)] == 0;
  }

  /** A `LoggingRoute` claims exactly the values the route it decorates claims. */
  lemma LoggingClaimsSame(r: Route, logger: LoggerId, v: Routable)
    ensures Claims(WithLogging(r, logger), v) <==> Claims(r, v)
  {
  }
}
