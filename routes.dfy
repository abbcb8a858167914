/**
 * The `Routes` collection (RouterCore/DSL/Routes.swift) and the default `dispatch` of
 * every `Router` (RouterCore/Dispatching/Router.swift).
 *
 * `Routes` is a Swift struct whose `install` functions mutate it in place; it is a class
 * here with its one stored property. Its routing behaviour is the one `RouteWith` and
 * `Dispatch` in the `Dispatch` module are proved to have.
 */
module RouteCollection {
  import opened Wrappers
  import opened Routeables
  import opened Handlers
  import opened Dispatch
  import opened RoutesBuilder

  class Routes {
    /** The installed dispatchers, oldest first. */
    var dispatchers: seq<Dispatcher>

    /** `init()`: no routes. */
    constructor ()
      ensures dispatchers == []
    {
      dispatchers := [];
    }

    /** `init(children:)`. */
    constructor WithChildren(children: seq<Dispatcher>)
      ensures dispatchers == children
    {
      dispatchers := children;
    }

    /** `init(providers:)`: each provider's routes appended in turn. */
    constructor WithProviders(providers: seq<Provider>)
      ensures dispatchers == BuildBlock(providers)
    {
      var collected: seq<Dispatcher> := [];
      var i := 0;
      while i < |providers|
        invariant 0 <= i <= |providers|
        invariant collected == BuildBlock(providers[..i])
      {
        assert providers[..i + 1][..i] == providers[..i];
        collected := collected + Provided(providers[i]);
        i := i + 1;
      }
      assert providers[..i] == providers;
      dispatchers := collected;
    }

    /**
     * `init(builder:)`: the routes of the DSL block, which `buildBlock` turns into a
     * `Routes(providers:)` of the block's components.
     */
    constructor Declared(block: seq<Provider>)
      ensures dispatchers == BuildBlock(block)
    {
      var built := new Routes.WithProviders(block);
      dispatchers := built.dispatchers;
    }

    /** `install(_ route: RouteableDispatching)`: appended as the newest dispatcher. */
    method Install(d: Dispatcher)
      modifies this
      ensures dispatchers == old(dispatchers) + [d]
    {
      dispatchers := dispatchers + [d];
    }

    /**
     * `install(_ provider: RouteProvider)`: the provider's `routes`, a `Routes` value,
     * is installed as one dispatcher nesting them.
     */
    method InstallProvider(p: Provider)
      modifies this
      ensures dispatchers == old(dispatchers) + [Nested(Provided(p))]
    {
      Install(Nested(Provided(p)));
    }

    /** `route(_:)`: succeeds, or throws `RouteMissing` for the last value no dispatcher claimed. */
    method Route(content: Routable) returns (outcome: Outcome, trace: seq<Event>)
      ensures RouteCall(outcome, trace) == RouteOf(dispatchers, content)
      ensures outcome.Routed? <==>
        forall i | 0 <= i < |Resolve(content)| :: ScanOf(dispatchers, Resolve(content)[i]).result == Dispatched
    {
      outcome, trace := RouteWith(dispatchers, content);
      RoutedIffAllClaimed(dispatchers, content);
    }

    /** `dispatch(routable:)`: `route(_:)` with its error turned into `.notDispatched`. */
    method Dispatch(routable: Routable) returns (result: RouteDispatchResult, trace: seq<Event>)
      ensures Attempt(result, trace) == DispatchOf(Nested(dispatchers), routable)
      ensures result == Dispatched <==> RouteOf(dispatchers, routable).outcome.Routed?
      ensures trace == RouteOf(dispatchers, routable).trace
    {
      var outcome;
      outcome, trace := Route(routable);
      result := if outcome.Routed? then Dispatched else NotDispatched;
    }
  }

  /**
   * The `Router` handed to a DSL block: it forwards to the `Routes` it is later pointed
   * at, and does nothing while it points nowhere.
   */
  class SubrouterProxy {
    /** `target`: the dispatchers of the `Routes` value it forwards to, if any. */
    var target: Option<seq<Dispatcher>>

    constructor ()
      ensures target == None
    {
      target := None;
    }

    /** `route(_:)`: `try target?.route(content)`. */
    method Route(content: Routable) returns (outcome: Outcome, trace: seq<Event>)
      ensures target.None? ==> outcome == Routed && trace == []
      ensures target.Some? ==> RouteCall(outcome, trace) == RouteOf(target.value, content)
    {
      if target.Some? {
        outcome, trace := RouteWith(target.value, content);
      } else {
        outcome, trace := Routed, [];
      }
    }

    /** The default `dispatch(routable:)` of a `Router`: one call of `route(_:)`, its error mapped. */
    method Dispatch(routable: Routable) returns (result: RouteDispatchResult, trace: seq<Event>)
      ensures target.None? ==> result == Dispatched && trace == []
      ensures target.Some? ==> Attempt(result, trace) == DispatchOf(Nested(target.value), routable)
    {
      var outcome;
      outcome, trace := Route(routable);
      result := if outcome.Routed? then Dispatched else NotDispatched;
    }
  }

  /** `install(_:)` of each component in turn on `routes`, each one nesting that component's routes. */
  method InstallEach(routes: Routes, components: seq<Provider>)
    modifies routes
    ensures routes.dispatchers == old(routes.dispatchers) + Installed(components)
  {
    var i := 0;
    while i < |components|
      invariant 0 <= i <= |components|
      invariant routes.dispatchers == old(routes.dispatchers) + Installed(components[..i])
    {
      assert components[..i + 1][..i] == components[..i];
      assert Installed(components[..i + 1]) == Installed(components[..i]) + [Nested(Provided(components[i]))];
      routes.InstallProvider(components[i]);
      i := i + 1;
    }
    assert components[..i] == components;
  }

  /**
   * A `Routes` declared with a DSL block, which splices its components' routes, and a
   * `Routes` whose components are installed one by one, which nests them, route any
   * content alike: same outcome, same effects in the same order.
   */
  method DeclaredRoutesLikeInstalled(components: seq<Provider>, content: Routable)
    returns (viaBlock: RouteCall, viaInstalls: RouteCall)
    ensures viaBlock == viaInstalls
    ensures viaBlock == RouteOf(BuildBlock(components), content)
  {
    var declared := new Routes.Declared(components);
    var installed := new Routes();
    InstallEach(installed, components);
    assert installed.dispatchers == Installed(components);
    var outcome, trace := declared.Route(content);
    viaBlock := RouteCall(outcome, trace);
    outcome, trace := installed.Route(content);
    viaInstalls := RouteCall(outcome, trace);
    forall t: Routable | t.Plain? ensures ScanOf(BuildBlock(components), t) == ScanOf(Installed(components), t) {
      DeclaredMatchesInstalled(components, t);
    }
    ScanAlikeRouteAlike(BuildBlock(components), Installed(components), content);
  }

  /**
   * `init(builder: (Router) -> Routes)`: the block is given a fresh proxy, the routes it
   * declares are stored, and only then is the proxy pointed at the finished collection.
   * Swift copies the struct there, so routes installed later are not seen by the proxy.
   */
  method DeclaredWithSubrouter(block: SubrouterProxy -> seq<Provider>) returns (routes: Routes, proxy: SubrouterProxy)
    ensures fresh(routes) && fresh(proxy)
    ensures routes.dispatchers == BuildBlock(block(proxy))
    ensures proxy.target == Some(routes.dispatchers)
  {
    proxy := new SubrouterProxy();
    routes := new Routes.Declared(block(proxy));
    proxy.target := Some(routes.dispatchers);
  }

  /**
   * After `Routes { (subrouter) in ... }` has been built, installing one more dispatcher
   * changes what the collection routes but not what its subrouter routes: the proxy
   * forwards to the collection as it was when the block finished.
   */
  method SubrouterSeesCopy(block: seq<Provider>, extra: Dispatcher, v: Routable)
    returns (viaRoutes: RouteCall, viaProxy: RouteCall)
    ensures viaRoutes == RouteOf(BuildBlock(block) + [extra], v)
    ensures viaProxy == RouteOf(BuildBlock(block), v)
  {
    var routes, proxy := DeclaredWithSubrouter(_ => block);
    routes.Install(extra);
    var outcome, trace := routes.Route(v);
    viaRoutes := RouteCall(outcome, trace);
    outcome, trace := proxy.Route(v);
    viaProxy := RouteCall(outcome, trace);
  }

  /**
   * Two routes for the same type installed in turn: routing a value of that type
   * invokes only the one installed last.
   */
  method LastInstalledWins(first: Route, second: Route, content: Routable)
    returns (outcome: Outcome, trace: seq<Event>)
    requires content.Plain? && Parameter(first) == Parameter(second) == TypeOf(content)
    ensures outcome == Routed
    ensures trace == Effects(second, content)
  {
    var routes := new Routes();
    routes.Install(Leaf(first));
    routes.Install(Leaf(second));
    outcome, trace := routes.Route(content);
    assert routes.dispatchers == [Leaf(first), Leaf(second)];
    RouteTerminal(routes.dispatchers, content);
  }

  /** A value wrapped in a yielding wrapper reaches the route for the inner value's type, unwrapped. */
  method WrappedContentReachesRoute(route: Route, content: Routable)
    returns (outcome: Outcome, trace: seq<Event>)
    requires content.Plain? && Parameter(route) == TypeOf(content)
    ensures outcome == Routed
    ensures trace == Effects(route, content)
  {
    var routes := new Routes();
    routes.Install(Leaf(route));
    outcome, trace := routes.Route(WrapperContent(content));
    assert routes.dispatchers == [Leaf(route)];
    ResolveSingleYield(WrapperContent(content).tag, WrapperContent(content).key, content);
    ResolveTerminal(content);
    ResolvedBeforeDispatch([Leaf(route)], WrapperContent(content), content);
    RouteTerminal([Leaf(route)], content);
  }

  /**
   * A `Routes` installed into another is consulted as one dispatcher, and so is a
   * provider installed with `install(_ provider:)`: in both, the route inside
   * receives the value.
   */
  method NestedRoutesReachRoute(route: Route, content: Routable)
    returns (viaRoutes: RouteCall, viaProvider: RouteCall)
    requires content.Plain? && Parameter(route) == TypeOf(content)
    ensures viaRoutes == RouteCall(Routed, Effects(route, content))
    ensures viaProvider == RouteCall(Routed, Effects(route, content))
  {
    var child := new Routes();
    child.Install(Leaf(route));
    assert child.dispatchers == [Leaf(route)];
    var top := new Routes();
    top.Install(Nested(child.dispatchers));
    assert top.dispatchers == [Nested([Leaf(route)])];
    var outcome, trace := top.Route(content);
    viaRoutes := RouteCall(outcome, trace);

    var routes := new Routes();
    routes.InstallProvider(Custom([Leaf(route)]));
    assert routes.dispatchers == [Nested([Leaf(route)])];
    outcome, trace := routes.Route(content);
    viaProvider := RouteCall(outcome, trace);

    NestedTerminal([Leaf(route)], content);
    assert ScanOf([Leaf(route)], content) == Attempt(Dispatched, Effects(route, content));
    assert ScanOf([Nested([Leaf(route)])], content) == Attempt(Dispatched, Effects(route, content));
    RouteTerminal([Nested([Leaf(route)])], content);
  }
}
