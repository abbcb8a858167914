# Router — a Dafny model of the routing core

This project models the routing core of the Swift package *Router*. It proves the rules that decide which route handles a value.

- **Routeables.** A routeable is a value that can be routed. Some routeables *yield* other routeables (`YieldsRoutable`). `AnyRouteable` erases a routeable's concrete type but keeps that type's `==`.
- **Resolution.** Before dispatch, `recursivleyYield(to:)` unwraps a routeable down to the terminal values that do not yield.
- **Routes.** A `Route` claims the values of its `Parameter` type. A `LoggingRoute` decorates a route with logger hooks.
- **`Routes` collections.** A `Routes` collection tries its dispatchers newest first. A value nobody claims makes it throw `RouteMissing`. A `Routes` is itself a dispatcher, so collections nest.
- **The DSL.** `RoutesBuilder` flattens a block of components into one collection.
- **External representations.** A URL or a user activity is turned into a routeable by an ordered chain of decoders. The first decoder to succeed wins. A URL that nothing decodes becomes `UnknownURLRouteable`.

Modules, one per file:

| file | module | source |
|---|---|---|
| `wrappers.dfy` | `Wrappers` | `Option` and `Result` |
| `routeable.dfy` | `Routeables` | `Routeable`, `YieldsRoutable`, `AnyRouteable`, `RouteMissing` |
| `handlers.dfy` | `Handlers` | `Route.dispatch`, `LoggingRoute` |
| `dispatch.dfy` | `Dispatch` | `Routes.route`, `ExecuteRoute`, `Routes.dispatch` as functions and the methods proved against them |
| `builder.dfy` | `RoutesBuilder` | `RouteProvider`, `buildBlock`, `buildEither` |
| `routes.dfy` | `RouteCollection` | the `Routes` struct (a class here), `SubrouterProxy`, `Router.dispatch` |
| `external.dfy` | `ExternalRepresentation` | the decoder chain of `ExternallyRepresentedRouteable` |
| `url.dfy` | `URLRouteables` | `URLRouteable`, `Proxy`, `DecoderProxy`, `UnknownURLRouteable` |
| `activity.dfy` | `UserActivityRouteables` | `UserActivityRouteable` and its URL and intent registrations |

## How the model represents the program

- **Values.** A routeable is a `Routable` tree:
  - `Plain` is a terminal value.
  - `Yielding` is a `YieldsRoutable` value whose `successors` are what its `yield(to:)` hands over, in order.
  - `Erased` is an `AnyRouteable`.
- **Types and equality.**
  - A value's concrete Swift type is its `tag`, and `as?` is an exact tag match.
  - A type's `==` compares the stored properties, its `key`. For a URL routeable the key is the URL. For a user-activity routeable it is the activity object. For a value whose one stored property is a routeable (the `WrapperContent` test double, a URL proxy) the key is that routeable's `StoredKey`.
- **Effects.** Invoking a route, and each logger hook, is an `Event`. Every routing operation returns the events it caused, in order (its *trace*). This lets the model state that a route ran once, or that nothing else ran.
- **Specification functions.** `DispatchOf`, `ScanOf`, `DeliverOf` and `RouteOf` state what dispatching does. The imperative code is proved against them:
  - `Dispatch` and `RouteWith`;
  - `ExecuteRoute.Receive`, with its reverse loop and `break`;
  - the `Routes` class with its mutating `Install`.
- **The error.** `ExecuteRoute.error` is overwritten by every unclaimed terminal value and never cleared. So the `RouteMissing` that `route(_:)` throws carries the *last* unclaimed terminal value.
- **Yielding.** A yielder may hand over zero or several values (`YieldedRouteableRecipient.swift:6-7`). So `Resolve` returns a sequence of terminals, and a `route` call succeeds when every one of them is claimed, and also when there are none.
- **Two orders.** The order of decoders is first-registered-wins. The order of dispatchers is last-installed-wins. Both are kept.

## Model

| member | source | states |
|---|---|---|
| Routeables.Missing | Sources/RouterCore/Dispatching/RouteMissing.swift:12-14 | the error carries the unclaimed value, erased |
| Routeables.Yielded | Sources/RouterCore/Dispatching/AnyRouteable.swift:14-16 | an erased value's `yield(to:)` hands over exactly its content, once |
| Routeables.TypeOf | Sources/RouterCore/Dispatching/AnyRouteable.swift:19 | the type an `as?` cast tests; `AnyRouteable` is a type of its own, distinct from every concrete type |
| Routeables.Erase | Sources/RouterCore/Dispatching/AnyRouteable.swift:80-82 | `eraseToAnyRouteable()` gives a value that yields the original once, and so resolves as the original does |
| Routeables.Equal | Sources/RouterCore/Dispatching/AnyRouteable.swift:18-21 | the definition of `==`; what it promises is stated by `ErasedEquality`, `ErasedDifferentTypes`, `EqualSameType` and the three equivalence lemmas |
| Routeables.Resolve | Sources/RouterCore/Dispatching/Routeable.swift:17-20 | everything the final recipient receives is a non-yielding value |
| Routeables.ResolveAll | Sources/RouterCore/Dispatching/Routeable.swift:28-34 | every value received through the unwrapper is terminal |
| Routeables.LastReceived | Sources/XCTRouter/CapturingRoutableRecipient.swift:9-12 | a capturing recipient holds something exactly when resolution delivered a value, and then holds the last value delivered, which is terminal |
| Routeables.TerminalEqualIsIdentity | Sources/RouterCore/Dispatching/AnyRouteable.swift:18-21 | on terminal values the concrete `==` is value identity |
| Routeables.ErasedEquality | Sources/RouterCore/Dispatching/AnyRouteable.swift:18-21 | erased values are equal iff the contents have one concrete type and are equal under its `==` |
| Routeables.ErasedDifferentTypes | Sources/RouterCore/Dispatching/AnyRouteable.swift:19 | contents of different concrete types are never equal once erased |
| Routeables.EqualSameType | Sources/RouterCore/Dispatching/AnyRouteable.swift:50-52 | equal values share a concrete type |
| Routeables.EqualReflexive | Sources/RouterCore/Dispatching/AnyRouteable.swift:50-52 | every value, erased or not, equals itself |
| Routeables.EqualSymmetric | Sources/RouterCore/Dispatching/AnyRouteable.swift:50-52 | erased equality is symmetric |
| Routeables.EqualTransitive | Sources/RouterCore/Dispatching/AnyRouteable.swift:50-52 | erased equality is transitive |
| Routeables.ErasedYieldsContent | Sources/RouterCore/Dispatching/AnyRouteable.swift:62-66 | erasing yields the content once; an erased value resolves exactly as its content does |
| Routeables.ResolveTerminal | Sources/RouterCore/Dispatching/Routeable.swift:31-33 | a non-yielding value reaches the final recipient unchanged, exactly once |
| Routeables.ResolveAllAppend | Sources/RouterCore/Dispatching/Routeable.swift:29-30 | successors are resolved in the order they are yielded |
| Routeables.ResolveAllTerminals | Sources/RouterCore/Dispatching/Routeable.swift:31-33 | terminal values pass through resolution unchanged |
| Routeables.ResolveIdempotent | Sources/RouterCore/Dispatching/Routeable.swift:17-20 | resolving what was received receives the same values again |
| Routeables.ResolveSilentYielder | Sources/RouterCore/Dispatching/YieldedRouteableRecipient.swift:6-7 | a yielder that yields nothing delivers nothing |
| Routeables.ResolveSingleYield | Sources/RouterCore/Dispatching/Routeable.swift:29-30 | a yielder is unwrapped again: one successor resolves as that successor does |
| Routeables.WrapperContent | Tests/RouterCoreTests/RouterTestDoubles.swift:11-20 | the wrapper test double yields exactly its inner value, and its stored property, compared by `==`, is that value |
| Routeables.WrapperEqualIffInnerEqual | Tests/RouterCoreTests/RouterTestDoubles.swift:11-14 | the synthesized `==` of the wrapper: two wrappers around values of one kind are equal iff the inner values are |
| Routeables.DeeplyNestedResolves | Tests/RouterCoreTests/RoutesTests.swift:77-86 | three nested wrappers resolve to the innermost content alone, which the recipient captures erased |
| Routeables.ErasureResolvesToOriginal | Tests/RouterCoreTests/AnyRoutableTests.swift:7-14 | recursively yielding an erased value ends at a value erased-equal to the original |
| Handlers.Parameter | Sources/RouterCore/Logging/LoggingRoute.swift:18 | the definition of the associated `Parameter` type, which a decorator takes from the route it wraps; `LoggingClaimsSame` and `DispatchRoute` state what it promises |
| Handlers.WithLogging | Sources/RouterCore/Logging/LoggingRoute.swift:36-38 | `logging(logger:)` wraps the route with the logger and keeps its `Parameter` |
| Handlers.Innermost | Sources/RouterCore/Logging/LoggingRoute.swift:18 | a chain of decorators ends at an application route with the same `Parameter` |
| Handlers.Effects | Sources/RouterCore/Logging/LoggingRoute.swift:20-24 | the definition of a call's effects; `RouteRunsOnce`, `HooksNameInnerRoutes` and `LoggingOrder` state what it promises |
| Handlers.Claims | Sources/RouterCore/DSL/Route.swift:37 | the definition of `routable as? Self.Parameter`; `DispatchRoute` and `LoggingClaimsSame` state what it promises |
| Handlers.Invoke | Sources/RouterCore/Logging/LoggingRoute.swift:20-24 | `route(_:)` has exactly the effects `Effects` lists: will-be-invoked hook, wrapped route, was-invoked hook |
| Handlers.DispatchRoute | Sources/RouterCore/DSL/Route.swift:35-43 | `.dispatched` iff the value has the `Parameter` type; then the route runs once with it, otherwise nothing runs |
| Handlers.RouteRunsOnce | Sources/RouterCore/DSL/Route.swift:37-39 | however decorated, one invocation runs the application route exactly once, and every effect carries the same parameter |
| Handlers.HooksNameInnerRoutes | Sources/RouterCore/Logging/LoggingRoute.swift:21-23 | logger hooks name only the decorated routes, never the decorator itself |
| Handlers.LoggingOrder | Sources/RouterCore/Logging/LoggingRoute.swift:20-24 | will-be-invoked first, then the wrapped route's effects, then was-invoked last; each hook exactly once with the wrapped route and parameter |
| Handlers.LoggingClaimsSame | Sources/RouterCore/Logging/LoggingRoute.swift:18 | a logging route claims exactly the values the wrapped route claims |
| Dispatch.ResultOf | Sources/RouterCore/Dispatching/Router.swift:14-20 | the do/catch maps returning to `.dispatched` and throwing to `.notDispatched` |
| Dispatch.DispatchOf | Sources/RouterCore/DSL/Routes.swift:160-167 | the reference definition of one `dispatch(routable:)`; `Dispatch` is proved equal to it, and `UnclaimedIsSilent`, `NestedTerminal` and `OneNestingIsFlattening` state its properties |
| Dispatch.ScanOf | Sources/RouterCore/DSL/Routes.swift:126-139 | the reference definition of the newest-first scan; `ExecuteRoute.Receive` is proved equal to it, and `ScanSplit`, `ScanClaimsIffSomeClaims`, `Claimant` and `NewestClaimWins` state its properties |
| Dispatch.DeliverOf | Sources/RouterCore/DSL/Routes.swift:110-114 | the reference definition of handing every terminal to the executor; `DeliverOutcome` states its outcome |
| Dispatch.RouteOf | Sources/RouterCore/DSL/Routes.swift:108-115 | the reference definition of `route(_:)`; `RouteWith` and `Routes.Route` are proved equal to it, and `RouteTerminal`, `RoutedIffAllClaimed` and `ResolvedBeforeDispatch` state its properties |
| Dispatch.Dispatch | Sources/RouterCore/DSL/Routes.swift:160-167 | a dispatcher's `dispatch(routable:)` returns the result and effects `DispatchOf` specifies |
| Dispatch.RouteWith | Sources/RouterCore/DSL/Routes.swift:108-115 | `route(_:)` resolves the content, hands every terminal to the executor, and throws the recorded error, as `RouteOf` specifies |
| Dispatch.ExecuteRoute.constructor | Sources/RouterCore/DSL/Routes.swift:122-124 | a fresh executor has the dispatchers and no error |
| Dispatch.ExecuteRoute.Receive | Sources/RouterCore/DSL/Routes.swift:126-140 | the reverse scan stopping at the first claim has the effects of `ScanOf`; an unclaimed value replaces the error, a claimed one leaves it |
| Dispatch.ScanSplit | Sources/RouterCore/DSL/Routes.swift:128-135 | newer dispatchers are consulted first; older ones only if no newer one claims |
| Dispatch.RouteTerminal | Sources/RouterCore/DSL/Routes.swift:137-139 | a terminal value is routed iff the scan claims it; otherwise `RouteMissing` carries that value |
| Dispatch.NestedTerminal | Sources/RouterCore/DSL/Routes.swift:160-167 | a nested `Routes` claims a terminal value exactly as scanning its own dispatchers does |
| Dispatch.UnclaimedIsSilent | Sources/RouterCore/DSL/Route.swift:36-42 | a dispatcher that does not claim a terminal value has no effect |
| Dispatch.UnclaimedScanIsSilent | Sources/RouterCore/DSL/Routes.swift:130-135 | a scan in which nothing claims has no effect |
| Dispatch.ScanClaimsIffSomeClaims | Sources/RouterCore/DSL/Routes.swift:130-135 | a value is claimed iff some installed dispatcher claims it |
| Dispatch.Claimant | Sources/RouterCore/DSL/Routes.swift:128-135 | a claimed value is claimed by the newest claiming dispatcher, whose effects are the scan's only ones |
| Dispatch.NewestClaimWins | Tests/RouterCoreTests/RoutesTests.swift:51-63 | last installed wins: claimed iff some dispatcher claims; then only the newest claimant runs; unclaimed means no effect |
| Dispatch.Leaves | Sources/RouterCore/DSL/Routes.swift:158-167 | a reference definition with no counterpart in the code, which never flattens: the routes of a nested table in order, and only routes |
| Dispatch.LeavesOf | Sources/RouterCore/DSL/Routes.swift:158-167 | a reference definition with no counterpart in the code: the routes one dispatcher holds, and only routes |
| Dispatch.NestingIsFlattening | Sources/RouterCore/DSL/Routes.swift:160-167 | nesting collections routes every terminal value as the flattened list of routes does |
| Dispatch.OneNestingIsFlattening | Sources/RouterCore/DSL/Routes.swift:160-167 | a nested collection dispatches a terminal value as its flattened routes do |
| Dispatch.DeliverAlike | Sources/RouterCore/DSL/Routes.swift:110-114 | the executor's outcome and effects depend on the table only through how it scans each terminal value |
| Dispatch.ScanAlikeRouteAlike | Sources/RouterCore/DSL/Routes.swift:108-115 | two tables that scan every terminal value alike route any content alike |
| Dispatch.DeliverOutcome | Sources/RouterCore/DSL/Routes.swift:112-114 | routed iff no earlier error and every terminal claimed; otherwise the thrown error carries the last unclaimed terminal |
| Dispatch.RoutedIffAllClaimed | Sources/RouterCore/DSL/Routes.swift:108-115 | `route(_:)` returns iff every resolved terminal value is claimed (so it returns when nothing is resolved) |
| Dispatch.EmptyRoutesThrow | Tests/RouterCoreTests/RoutesTests.swift:18-23 | an empty `Routes` throws `RouteMissing` for any content that resolves to something |
| Dispatch.ResolvedBeforeDispatch | Sources/RouterCore/DSL/Routes.swift:110 | contents that resolve alike route alike: wrappers are removed before dispatch |
| RoutesBuilder.Provided | Sources/RouterCore/DSL/RouteableDispatching.swift:16-18 | the definition of a provider's `routes` (a `Routes` provides itself, `Routes.swift:150-152`); `ProvidedByDispatcher` states what it promises |
| RoutesBuilder.BuildBlock | Sources/RouterCore/DSL/RoutesBuilder.swift:40-42 | the definition of `buildBlock`; `BuildBlockConcat` and `Routes.WithProviders` state what it promises |
| RoutesBuilder.BuildEitherFirst | Sources/RouterCore/DSL/RoutesBuilder.swift:44-46 | passes the taken branch's component through; `OnlyTakenBranch` states the effect |
| RoutesBuilder.BuildEitherSecond | Sources/RouterCore/DSL/RoutesBuilder.swift:48-50 | passes the taken branch's component through; `OnlyTakenBranch` states the effect |
| RoutesBuilder.Block | Sources/RouterCore/DSL/Routes.swift:41-43 | the definition of a nested `Routes { ... }` block used as a component; `OnlyTakenBranch` and `SubdomainOverrides` state what it promises |
| RoutesBuilder.IfElse | Sources/RouterCore/DSL/RoutesBuilder.swift:44-50 | the definition of an `if`/`else` in a block, lowered to `buildEither`; `OnlyTakenBranch` and `SubdomainOverrides` state what it promises |
| RoutesBuilder.ProvidedByDispatcher | Sources/RouterCore/DSL/RouteableDispatching.swift:16-18 | a lone dispatcher provides itself; a `Routes` provides its own dispatchers |
| RoutesBuilder.BuildBlockConcat | Sources/RouterCore/DSL/RoutesBuilder.swift:40-42 | `buildBlock` concatenates the components' dispatchers in argument order |
| RoutesBuilder.OnlyTakenBranch | Sources/RouterCore/DSL/RoutesBuilder.swift:44-50 | an `if`/`else` contributes only the routes of the branch taken |
| RoutesBuilder.Installed | Sources/RouterCore/DSL/Routes.swift:98-100 | the reference definition of what installing components one by one appends (its code counterpart is `RouteCollection.InstallEach`): one dispatcher per component, in order, nesting that component's routes |
| RoutesBuilder.LeavesConcat | Sources/RouterCore/DSL/Routes.swift:74-80 | flattening distributes over concatenation |
| RoutesBuilder.BlockLeavesMatchInstalled | Sources/RouterCore/DSL/RoutesBuilder.swift:5-34 | a DSL block and the same components installed one by one hold the same routes in the same order |
| RoutesBuilder.DeclaredMatchesInstalled | Sources/RouterCore/DSL/RoutesBuilder.swift:5-34 | the DSL (flattening) and imperative `install` (nesting) route every terminal value identically |
| RoutesBuilder.SubdomainOverrides | Sources/RouterCore/DSL/Routes.swift:6-17 | a route declared later in a sub-block supersedes the earlier top-level route for the same type |
| RouteCollection.Routes.constructor | Sources/RouterCore/DSL/Routes.swift:34-36 | `init()` holds no dispatchers |
| RouteCollection.Routes.WithChildren | Sources/RouterCore/DSL/Routes.swift:70-72 | `init(children:)` holds exactly the children |
| RouteCollection.Routes.WithProviders | Sources/RouterCore/DSL/Routes.swift:74-80 | the loop appends each provider's dispatchers in argument order |
| RouteCollection.Routes.Declared | Sources/RouterCore/DSL/Routes.swift:41-43 | `init(builder:)` holds the dispatchers the DSL block built |
| RouteCollection.Routes.Install | Sources/RouterCore/DSL/Routes.swift:90-92 | appends the dispatcher at the end, earlier entries unchanged |
| RouteCollection.Routes.InstallProvider | Sources/RouterCore/DSL/Routes.swift:98-100 | the provider's routes are appended as one nested dispatcher |
| RouteCollection.Routes.Route | Sources/RouterCore/DSL/Routes.swift:108-115 | routes as `RouteOf` specifies; returns iff every resolved terminal is claimed |
| RouteCollection.Routes.Dispatch | Sources/RouterCore/DSL/Routes.swift:160-167 | `.dispatched` iff `route(_:)` returns, with that call's effects |
| RouteCollection.SubrouterProxy.constructor | Sources/RouterCore/DSL/Routes.swift:57 | a fresh proxy has no target |
| RouteCollection.SubrouterProxy.Route | Sources/RouterCore/DSL/Routes.swift:59-61 | with no target, a silent no-op that returns; otherwise routes as the target does |
| RouteCollection.SubrouterProxy.Dispatch | Sources/RouterCore/Dispatching/Router.swift:14-20 | one `route(_:)` call mapped to a result: `.dispatched` iff it returned |
| RouteCollection.InstallEach | Sources/RouterCore/DSL/Routes.swift:98-100 | calling `install(_ provider:)` for each component in turn appends exactly `Installed(components)` after the existing dispatchers |
| RouteCollection.DeclaredRoutesLikeInstalled | Sources/RouterCore/DSL/RoutesBuilder.swift:5-34 | a `Routes` declared with a DSL block and a `Routes` filled by installing the same components one by one route any content with the same outcome and the same effects |
| RouteCollection.DeclaredWithSubrouter | Sources/RouterCore/DSL/Routes.swift:54-68 | the block's routes are stored, then the proxy is pointed at exactly them |
| RouteCollection.SubrouterSeesCopy | Sources/RouterCore/DSL/Routes.swift:65-67 | routes installed after building are seen by the collection but not by its subrouter |
| RouteCollection.LastInstalledWins | Tests/RouterCoreTests/RoutesTests.swift:51-63 | of two same-type routes, only the one installed last is invoked |
| RouteCollection.WrappedContentReachesRoute | Tests/RouterCoreTests/RoutesTests.swift:65-75 | a wrapped value reaches the route for the inner type, unwrapped |
| RouteCollection.NestedRoutesReachRoute | Tests/RouterCoreTests/RoutesTests.swift:88-109 | a nested `Routes` and an installed provider both pass the value to the route inside |
| ExternalRepresentation.FirstDecoded | Tests/RouterCoreTests/ExternallyRepresentedRouteableTests.swift:16-23 | the reference definition of `decodeRouteable()`; `DecodeRouteable` is proved equal to it, and `FirstDecoderWins`, `LaterDecodersIgnored`, `RejectedFallsThrough` and `SkipRejectingLast` state its properties |
| ExternalRepresentation.RegisteredDecoder | Tests/RouterCoreTests/ExternallyRepresentedRouteableTests.swift:7-14 | the definition of a registered type's decoder; `RegisteredDecoderErases` states what it promises |
| ExternalRepresentation.ExternalYield | Tests/URLRouteableTests/URLRouteableTests.swift:42-51 | the definition of `yield(to:)`; `DecodedResolvesToContent`, `UnknownWhenUndecoded` and `DecodedWhenAccepted` state what it promises |
| ExternalRepresentation.SkipRejectingLast | Tests/URLRouteableTests/URLRouteableTests.swift:53-62 | a decoder registered last that rejects a representation changes nothing about its decoding |
| ExternalRepresentation.DecodeRouteable | Tests/RouterCoreTests/ExternallyRepresentedRouteableTests.swift:16-23 | the loop returns the first decoder's non-nil result, or nil |
| ExternalRepresentation.RegisteredDecoderErases | Tests/RouterCoreTests/ExternallyRepresentedRouteableTests.swift:7-14 | a registered type decodes exactly what its failable init accepts, erased |
| ExternalRepresentation.FirstDecoderWins | Tests/RouterCoreTests/ExternallyRepresentedRouteableTests.swift:16-23 | nothing decoded iff every decoder rejects; otherwise the first accepting decoder's result, with all earlier ones rejecting |
| ExternalRepresentation.LaterDecodersIgnored | Tests/RouterCoreTests/ExternallyRepresentedRouteableTests.swift:16-23 | decoders registered after the first accepting one are never consulted |
| ExternalRepresentation.RejectedFallsThrough | Tests/URLRouteableTests/URLRouteableTests.swift:53-62 | a representation rejected by earlier decoders falls through to later ones |
| ExternalRepresentation.DecodedResolvesToContent | Tests/RouterCoreTests/ExternallyRepresentedRouteableTests.swift:7-14 | a decoded routeable is yielded erased and resolves as its content does |
| URLRouteables.UnknownURLRouteable | Sources/URLRouteable/UnknownURLRouteable.swift:9-16 | a terminal value carrying the URL |
| URLRouteables.ProxyOf | Sources/URLRouteable/URLRouteable.swift:85-87 | a proxy yields exactly its wrapped routeable, once |
| URLRouteables.ProxyInit | Sources/URLRouteable/URLRouteable+ExpressibleByURL.swift:27-30 | `Proxy` construction fails iff `T(url:)` does; otherwise it yields what `T(url:)` produced |
| URLRouteables.DecoderProxyInit | Sources/URLRouteable/URLRouteable.swift:97-105 | `DecoderProxy` construction fails iff decoding throws; otherwise it yields the decoded value |
| URLRouteables.RegisterURL | Sources/URLRouteable/URLRouteable+ExpressibleByURL.swift:9-11 | registration appends one decoder and keeps the earlier ones; the new decoder rejects exactly the URLs `T(url:)` rejects, and otherwise decodes the `Proxy` of what `T(url:)` made, erased |
| URLRouteables.RegisterDecodableURL | Sources/URLRouteable/URLRouteable.swift:38-40 | registration appends one decoder and keeps the earlier ones; the new decoder rejects exactly the URLs whose decoding throws, and otherwise decodes the `DecoderProxy` of the decoded value, erased |
| URLRouteables.URLRouteable | Sources/URLRouteable/URLRouteable.swift:42-48 | a yielding value of its subclass's type whose stored property is the URL, and which yields exactly one value |
| URLRouteables.EqualIffSameURL | Sources/URLRouteable/URLRouteable.swift:46-48 | two URL routeables are equal iff their URLs are equal, whatever they registered |
| URLRouteables.UnknownWhenUndecoded | Sources/URLRouteable/URLRouteable.swift:42-44 | when no decoder accepts, the recipient receives `UnknownURLRouteable` with the same URL |
| URLRouteables.DecodedWhenAccepted | Tests/URLRouteableTests/URLRouteableTests.swift:31-40 | when a decoder accepts, the recipient receives what the first accepting decoder produced |
| URLRouteables.ProxyYieldsRouteable | Sources/URLRouteable/URLRouteable+ExpressibleByURL.swift:42-44 | a proxy resolves exactly as its wrapped routeable |
| URLRouteables.RegisteredTypeClaims | Tests/URLRouteableTests/URLRouteableTests.swift:21-29 | a registered type accepting a URL that earlier decoders rejected hands the recipient what it made |
| URLRouteables.DecodableTypeClaims | Sources/URLRouteable/URLRouteable.swift:97-105 | a registered `Decodable` type that decodes a URL every earlier decoder rejected hands the recipient the decoded value |
| URLRouteables.RejectingTypeIsSkipped | Sources/URLRouteable/URLRouteable+ExpressibleByURL.swift:27-30 | a registered type whose `init?(url:)` rejects the URL leaves its decoding to the earlier registrations |
| URLRouteables.FailingDecodableIsSkipped | Sources/URLRouteable/URLRouteable.swift:97-105 | a registered `Decodable` type whose decoding throws leaves the URL's decoding to the earlier registrations |
| URLRouteables.AcceptAllClaimsEveryURL | Tests/URLRouteableTests/URLRouteableTests.swift:82-88 | a type whose `init?(url:)` always succeeds claims every URL |
| UserActivityRouteables.UserActivity.constructor | Sources/UserActivityRouteable/UserActivityRouteable.swift:41-44 | an activity keeps its web page URL and intent |
| UserActivityRouteables.ActivityYield | Sources/UserActivityRouteable/UserActivityRouteable.swift:98-105 | at most one value is yielded |
| UserActivityRouteables.UserActivityRouteable.constructor | Sources/UserActivityRouteable/UserActivityRouteable.swift:41-44 | stores the activity, then registers the subclass's decoders in order |
| UserActivityRouteables.UserActivityRouteable.Register | Sources/UserActivityRouteable/UserActivityRouteable.swift:55-57 | appends the decoder at the end |
| UserActivityRouteables.UserActivityRouteable.Yield | Sources/UserActivityRouteable/UserActivityRouteable.swift:98-105 | the first non-nil decoder result's content is handed over; nothing when all reject |
| UserActivityRouteables.UserActivityRouteable.AsRoutable | Sources/UserActivityRouteable/UserActivityRouteable.swift:87-89 | the routeable yields what `yield(to:)` hands over |
| UserActivityRouteables.EqualIffSameActivity | Sources/UserActivityRouteable/UserActivityRouteable.swift:87-89 | equal iff backed by the same activity object |
| UserActivityRouteables.URLActivityDecoder | Sources/UserActivityRouteable/UserActivityRouteable+URLRouteable.swift:14-19 | the definition of the URL registration's decoder; `URLActivityDecodes` and `FirstRegisteredWins` state what it promises |
| UserActivityRouteables.IntentActivityDecoder | Sources/UserActivityRouteable/UserActivityRouteable+IntentRouteable.swift:14-19 | the definition of the intent registration's decoder; `IntentActivityDecodes` states what it promises |
| UserActivityRouteables.URLActivityDecodes | Sources/UserActivityRouteable/UserActivityRouteable+URLRouteable.swift:14-19 | the URL registration decodes exactly the activities that have a web page URL |
| UserActivityRouteables.IntentActivityDecodes | Sources/UserActivityRouteable/UserActivityRouteable+IntentRouteable.swift:14-19 | the intent registration decodes exactly the activities that have an intent |
| UserActivityRouteables.FirstRegisteredWins | Tests/UserActivityRouteableTests/UserActivityRouteableTests.swift:49-62 | with URL registered before intent, an activity with a URL yields the URL routeable |
| UserActivityRouteables.NothingWhenUndecoded | Sources/UserActivityRouteable/UserActivityRouteable.swift:98-105 | when every decoder rejects, nothing is yielded: there is no fallback |
| UserActivityRouteables.ActivityURLScenario | Tests/UserActivityRouteableTests/UserActivityRouteableTests.swift:22-33 | an activity with a URL resolves to what the URL routeable's type made of that URL |

## Left out

- Swift's `as?` on class hierarchies and protocol existentials, and overload resolution, are not modelled. A concrete type is an exact tag. `install(_ provider:)` always nests, as the overload it calls does.
- Custom `RouteableDispatching` types other than routes and `Routes` are not modelled, and neither are custom `Router`s other than the subrouter proxy.
- A route's body is one `Invoked` event. Routes that post back into a router while they run are not modelled, as in `DSLTests.swift:120-140`. So the cross-posting use of the subrouter is described only by `SubrouterSeesCopy` and `DeclaredWithSubrouter`.
- Loggers are identified by a number. Their output is not modelled: printing, swift-log, and the localised `RouteMissing.description`.
- `URLRouteable+URLDecoder.swift` and the `URLDecoder` library are not part of this model. A `DecoderProxy`'s decoding is an opaque function that returns a value or an error.
- The intent and notification routeables are not part of this model. The intent registration of a user activity takes an opaque function from the intent to a routeable.
- `NSUserActivity` is reduced to its web page URL and its interaction intent.
- The factory form of `register(_:)` in `ExternallyRepresentedRouteable` is not modelled separately. It decodes like any other decoder in the chain.
- `ExternallyRepresentedRouteable`'s own `register` state and its default identity `equals` are not modelled as a class. The chain is a sequence of decoders that the URL registration functions extend.
- `ExternalYield` has no contract of its own. What it yields is stated by `UnknownWhenUndecoded`, `DecodedResolvesToContent` and `DecodedWhenAccepted`.
- Equal: a yielding value is compared by its type and its `key`. A value whose stored property is a routeable (`WrapperContent`, a URL proxy) takes that routeable's `StoredKey` as its key. This agrees with the routeable's own `==` when it is not erased (`WrapperEqualIffInnerEqual`). When it is erased, only its content's type name and stored key are compared. That matches `AnyRouteable`'s `==` except when two types share a name.
- Resolution cannot loop in the model, because routeables are finite trees. The source has no guard against a yield cycle.
- The reference cycle between a `Routes` copy and its subrouter proxy is not modelled, and neither are threads.
