/**
 * The routing DSL (RouterCore/DSL/RoutesBuilder.swift, RouterCore/DSL/RouteProvider.swift,
 * RouterCore/DSL/RouteableDispatching.swift): a block of components becomes one flat list
 * of dispatchers, each component contributing its own `routes`.
 */
module RoutesBuilder {
  import opened Routeables
  import opened Handlers
  import opened Dispatch

  /**
   * A component of a routing block, that is, a `RouteProvider`.
   * - `Dispatching`: a `RouteableDispatching` value (a route, or a `Routes` as `Nested`).
   * - `Custom`: an application type whose `routes` property returns a `Routes` holding `routes`.
   */
  datatype Provider = Dispatching(dispatcher: Dispatcher) | Custom(routes: seq<Dispatcher>)

  /**
   * The `routes` property: a `Routes` provides itself, any other dispatcher a collection
   * holding just itself, and a custom provider whatever it returns.
   */
  function Provided(p: Provider): seq<Dispatcher>
  {
    match p
    case Dispatching(Nested(ds)) => ds
    case Dispatching(d) => [d]
    case Custom(ds) => ds
  }

  /** `buildBlock`, which is `Routes(providers:)`: the components' dispatchers, concatenated in order. */
  function BuildBlock(components: seq<Provider>): seq<Dispatcher>
  {
    if components == [] then []
    else BuildBlock(components[..|components| - 1]) + Provided(components[|components| - 1])
  }

  /** `buildEither(first:)`: the component of the branch that was taken. */
  function BuildEitherFirst(component: Provider): Provider
  {
    component
  }

  /** `buildEither(second:)`: the component of the branch that was taken. */
  function BuildEitherSecond(component: Provider): Provider
  {
    component
  }

  /** A nested block, e.g. the body of `Routes { ... }` or one branch of an `if`, used as a component. */
  function Block(components: seq<Provider>): Provider
  {
    Dispatching(Nested(BuildBlock(components)))
  }

  /** `if cond { first } else { second }` inside a block. */
  function IfElse(cond: bool, first: seq<Provider>, second: seq<Provider>): Provider
  {
    if cond then BuildEitherFirst(Block(first)) else BuildEitherSecond(Block(second))
  }

  /** A lone dispatcher contributes itself; a `Routes` contributes its own dispatchers. */
  lemma ProvidedByDispatcher(d: Dispatcher)
    ensures Provided(Dispatching(d)) == if d.Nested? then d.dispatchers else [d]
    ensures BuildBlock([Dispatching(d)]) == Provided(Dispatching(d))
  {
    assert [Dispatching(d)][..0] == [];
  }

  /** A block's dispatchers are its components' dispatchers concatenated in order. */
  lemma {:induction false} BuildBlockConcat(a: seq<Provider>, b: seq<Provider>)
    ensures BuildBlock(a + b) == BuildBlock(a) + BuildBlock(b)
    decreases |b|
  {
    if b == [] {
      assert a + b == a;
    } else {
      var n := |b|;
      var ab := a + b;
      assert ab != [];
      assert ab[..|ab| - 1] == a + b[..n - 1];
      assert ab[|ab| - 1] == b[n - 1];
      assert BuildBlock(ab) == BuildBlock(a + b[..n - 1]) + Provided(b[n - 1]);
      BuildBlockConcat(a, b[..n - 1]);
      assert BuildBlock(b) == BuildBlock(b[..n - 1]) + Provided(b[n - 1]);
    }
  }

  /** Only the taken branch of an `if` contributes routes to the block. */
  lemma OnlyTakenBranch(cond: bool, first: seq<Provider>, second: seq<Provider>)
    ensures BuildBlock([IfElse(cond, first, second)]) == BuildBlock(if cond then first else second)
  {
    ProvidedByDispatcher(Nested(BuildBlock(if cond then first else second)));
  }

  /**
   * The dispatchers that `install(_:)` of each component in turn appends, as a reference
   * for `InstallEach`: one dispatcher per component, nesting that component's routes.
   */
  function Installed(components: seq<Provider>): (ds: seq<Dispatcher>)
    ensures |ds| == |components|
    ensures forall i | 0 <= i < |components| :: ds[i] == Nested(Provided(components[i]))
  {
    if components == [] then []
    else Installed(components[..|components| - 1]) + [Nested(Provided(components[|components| - 1]))]
  }

  lemma {:induction false} LeavesConcat(a: seq<Dispatcher>, b: seq<Dispatcher>)
    ensures Leaves(a + b) == Leaves(a) + Leaves(b)
    decreases |b|
  {
    if b == [] {
      assert a + b == a;
    } else {
      var n := |b|;
      assert (a + b)[..|a + b| - 1] == a + b[..n - 1];
      assert (a + b)[|a + b| - 1] == b[n - 1];
      LeavesConcat(a, b[..n - 1]);
    }
  }

  /** The routes a block holds are those of installing its components one by one, in the same order. */
  lemma {:induction false} BlockLeavesMatchInstalled(components: seq<Provider>)
    ensures Leaves(BuildBlock(components)) == Leaves(Installed(components))
    decreases |components|
  {
    if components != [] {
      var n := |components|;
      var init := components[..n - 1];
      var last := components[n - 1];
      BlockLeavesMatchInstalled(init);
      assert Installed(components) == Installed(init) + [Nested(Provided(last))];
      LeavesConcat(BuildBlock(init), Provided(last));
      LeavesConcat(Installed(init), [Nested(Provided(last))]);
      assert [Nested(Provided(last))][..0] == [];
      assert Leaves([Nested(Provided(last))]) == Leaves(Provided(last));
    }
  }

  /**
   * A block built with the DSL, which splices its components' dispatchers, and the same
   * components installed one by one, which nests them, route every terminal value
   * identically.
   */
  lemma DeclaredMatchesInstalled(components: seq<Provider>, t: Routable)
    requires t.Plain?
    ensures ScanOf(BuildBlock(components), t) == ScanOf(Installed(components), t)
  {
    BlockLeavesMatchInstalled(components);
    NestingIsFlattening(BuildBlock(components), t);
    NestingIsFlattening(Installed(components), t);
  }

  /**
   * The example of a top-level route overridden in a subdomain: in
   * `Routes { top; Routes { other; sub } }` a value of the type `top` and `sub`
   * both take is routed to `sub` alone.
   */
  lemma SubdomainOverrides(top: Route, other: Route, sub: Route, t: Routable)
    requires t.Plain?
    requires Parameter(top) == Parameter(sub) == TypeOf(t)
    ensures var routes := BuildBlock([Dispatching(Leaf(top)), Block([Dispatching(Leaf(other)), Dispatching(Leaf(sub))])]);
      RouteOf(routes, t) == RouteCall(Routed, Effects(sub, t))
  {
    var inner := [Dispatching(Leaf(other)), Dispatching(Leaf(sub))];
    ProvidedByDispatcher(Leaf(other));
    ProvidedByDispatcher(Leaf(sub));
    BuildBlockConcat([Dispatching(Leaf(other))], [Dispatching(Leaf(sub))]);
    assert [Dispatching(Leaf(other))] + [Dispatching(Leaf(sub))] == inner;
    assert BuildBlock(inner) == [Leaf(other), Leaf(sub)];
    ProvidedByDispatcher(Leaf(top));
    ProvidedByDispatcher(Nested(BuildBlock(inner)));
    BuildBlockConcat([Dispatching(Leaf(top))], [Block(inner)]);
    assert [Dispatching(Leaf(top))] + [Block(inner)] == [Dispatching(Leaf(top)), Block(inner)];
    var routes := BuildBlock([Dispatching(Leaf(top)), Block(inner)]);
    assert routes == [Leaf(top), Leaf(other), Leaf(sub)];
    RouteTerminal(routes, t);
  }
}
