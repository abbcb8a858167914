/**
 * Collections of routes and their dispatch (RouterCore/DSL/Routes.swift,
 * RouterCore/Dispatching/Router.swift, RouterCore/DSL/RouteableDispatching.swift,
 * RouterCore/DSL/RouteProvider.swift).
 *
 * The functions `DispatchOf`, `ScanOf`, `DeliverOf` and `RouteOf` say what one
 * call of `dispatch(routable:)`, of `ExecuteRoute.receive`, of a run of receives and
 * of `route(_:)` does; the methods and classes below are proved to do exactly that,
 * and the lemmas at the end state the routing rules in terms of the functions.
 */
module Dispatch {
  import opened Wrappers
  import opened Routeables
  import opened Handlers

  /**
   * A `RouteableDispatching` held by a `Routes`: a `Route`, or a `Routes` installed as
   * one dispatcher (a copy of its dispatchers, as `Routes` is a value type).
   */
  datatype Dispatcher = Leaf(route: Route) | Nested(dispatchers: seq<Dispatcher>)

  /** What one `dispatch(routable:)` call reports, with the effects it had, in order. */
  datatype Attempt = Attempt(result: RouteDispatchResult, trace: seq<Event>)

  /** How a `route(_:)` call ends: it returns, or throws `RouteMissing`. */
  datatype Outcome = Routed | Threw(error: RouteMissing)

  /** What one `route(_:)` call does: its outcome, with the effects it had, in order. */
  datatype RouteCall = RouteCall(outcome: Outcome, trace: seq<Event>)

  /** The do/catch of `dispatch(routable:)` over one `route(_:)` call: returning is `.dispatched`. */
  function ResultOf(o: Outcome): (r: RouteDispatchResult)
    ensures r == Dispatched <==> o.Routed?
  {
    if o.Routed? then Dispatched else NotDispatched
  }

  /** One `dispatch(routable:)` call on an installed dispatcher. */
  function DispatchOf(d: Dispatcher, v: Routable): Attempt
    decreases d, 0, 0
  {
    match d
    case Leaf(r) =>
      if Claims(r, v) then Attempt(Dispatched, Effects(r, v)) else Attempt(NotDispatched, [])
    case Nested(ds) =>
      var call := RouteOf(ds, v);
      Attempt(ResultOf(call.outcome), call.trace)
  }

  /** `ExecuteRoute.receive`: the dispatchers are tried last-added first, and the first claim ends the scan. */
  function ScanOf(ds: seq<Dispatcher>, v: Routable): Attempt
    decreases ds, 1, 0
  {
    if ds == [] then Attempt(NotDispatched, [])
    else
      var newest := DispatchOf(ds[|ds| - 1], v);
      if newest.result == Dispatched then newest
      else
        var older := ScanOf(ds[..|ds| - 1], v);
        Attempt(older.result, newest.trace + older.trace)
  }

  /**
   * An `ExecuteRoute` receiving each of `ts` in turn, starting from the recorded `error`;
   * each unclaimed value replaces the recorded error, which is never cleared.
   */
  function DeliverOf(ds: seq<Dispatcher>, ts: seq<Routable>, error: Option<RouteMissing>): RouteCall
    decreases ds, 2, |ts|
  {
    if ts == [] then RouteCall(if error.Some? then Threw(error.value) else Routed, [])
    else
      var first := ScanOf(ds, ts[0]);
      var rest := DeliverOf(ds, ts[1..], if first.result == NotDispatched then Some(Missing(ts[0])) else error);
      RouteCall(rest.outcome, first.trace + rest.trace)
  }

  /** `route(_:)` of a `Routes` holding `ds`: resolve the content, hand each terminal value to the executor. */
  function RouteOf(ds: seq<Dispatcher>, content: Routable): RouteCall
    decreases ds, 3, 0
  {
    DeliverOf(ds, Resolve(content), None)
  }

  // ----- The imperative code -----

  /** `dispatch(routable:)` of an installed dispatcher: a `Route`'s default, or `Routes.dispatch`. */
  method Dispatch(d: Dispatcher, v: Routable) returns (result: RouteDispatchResult, trace: seq<Event>)
    ensures Attempt(result, trace) == DispatchOf(d, v)
    decreases d, 0
  {
    match d
    case Leaf(r) =>
      result, trace := DispatchRoute(r, v);
    case Nested(ds) =>
      var outcome;
      outcome, trace := RouteWith(ds, v);
      if outcome.Routed? {
        result := Dispatched;
      } else {
        result := NotDispatched;
      }
  }

  /** `Routes.route(_:)`: the executor receives every terminal value; a recorded error is thrown at the end. */
  method RouteWith(ds: seq<Dispatcher>, content: Routable) returns (outcome: Outcome, trace: seq<Event>)
    ensures RouteCall(outcome, trace) == RouteOf(ds, content)
    decreases ds, 2
  {
    var executor := new ExecuteRoute(ds);
    var terminals := Resolve(content);
    trace := [];
    var i := 0;
    while i < |terminals|
      invariant 0 <= i <= |terminals|
      invariant RouteOf(ds, content).outcome == DeliverOf(ds, terminals[i..], executor.error).outcome
      invariant RouteOf(ds, content).trace == trace + DeliverOf(ds, terminals[i..], executor.error).trace
    {
      assert terminals[i..][1..] == terminals[i + 1..];
      var received := executor.Receive(terminals[i]);
      trace := trace + received;
      i := i + 1;
    }
    if executor.error.Some? {
      outcome := Threw(executor.error.value);
    } else {
      outcome := Routed;
    }
  }

  /** The recipient that `Routes.route(_:)` resolves its content into. */
  class ExecuteRoute {
    const dispatchers: seq<Dispatcher>
    var error: Option<RouteMissing>

    constructor (dispatchers: seq<Dispatcher>)
      ensures this.dispatchers == dispatchers && error == None
    {
      this.dispatchers := dispatchers;
      error := None;
    }

    /**
     * Try the dispatchers in last-added order, stopping at the first `.dispatched`;
     * if none claims `content`, record `RouteMissing` for it.
     */
    method Receive(content: Routable) returns (trace: seq<Event>)
      modifies this
      ensures trace == ScanOf(dispatchers, content).trace
      ensures error == if ScanOf(dispatchers, content).result == NotDispatched then Some(Missing(content)) else old(error)
      decreases dispatchers, 1
    {
      var result := NotDispatched;
      trace := [];
      var i := |dispatchers|;
      assert dispatchers[..i] == dispatchers;
      while i > 0
        invariant 0 <= i <= |dispatchers|
        invariant ScanOf(dispatchers, content) == Attempt(ScanOf(dispatchers[..i], content).result, trace + ScanOf(dispatchers[..i], content).trace)
        invariant error == old(error)
      {
        assert dispatchers[..i][..i - 1] == dispatchers[..i - 1];
        var r, t := Dispatch(dispatchers[i - 1], content);
        trace := trace + t;
        if r == Dispatched {
          result := Dispatched;
          break;
        }
        i := i - 1;
      }
      if result == NotDispatched {
        error := Some(Missing(content));
      }
    }
  }

  // ----- Routing rules -----

  /** Scanning `a + b` scans `b` (the newer part) first and reaches `a` only if nothing in `b` claimed the value. */
  lemma {:induction false} ScanSplit(a: seq<Dispatcher>, b: seq<Dispatcher>, v: Routable)
    ensures ScanOf(a + b, v) ==
      if ScanOf(b, v).result == Dispatched then ScanOf(b, v)
      else Attempt(ScanOf(a, v).result, ScanOf(b, v).trace + ScanOf(a, v).trace)
    decreases |b|
  {
    if b == [] {
      assert a + b == a;
    } else {
      var n := |b|;
      assert (a + b)[|a + b| - 1] == b[n - 1];
      assert (a + b)[..|a + b| - 1] == a + b[..n - 1];
      ScanSplit(a, b[..n - 1], v);
    }
  }

  /** Routing a terminal value hands it to the executor once: it is routed exactly when the scan claims it. */
  lemma RouteTerminal(ds: seq<Dispatcher>, t: Routable)
    requires t.Plain?
    ensures RouteOf(ds, t) == RouteCall(
      if ScanOf(ds, t).result == Dispatched then Routed else Threw(Missing(t)),
      ScanOf(ds, t).trace)
  {
    var first := ScanOf(ds, t);
    var next := if first.result == NotDispatched then Some(Missing(t)) else None;
    assert Resolve(t) == [t];
    assert [t][1..] == [];
    assert DeliverOf(ds, [], next).trace == [];
    assert DeliverOf(ds, [t], None) == RouteCall(DeliverOf(ds, [], next).outcome, first.trace + []);
    assert first.trace + [] == first.trace;
  }

  /** A nested `Routes` claims a terminal value exactly as scanning its own dispatchers does. */
  lemma NestedTerminal(cs: seq<Dispatcher>, t: Routable)
    requires t.Plain?
    ensures DispatchOf(Nested(cs), t) == ScanOf(cs, t)
  {
    RouteTerminal(cs, t);
  }

  /** A dispatcher that does not claim a terminal value has no effect at all. */
  lemma {:induction false} UnclaimedIsSilent(d: Dispatcher, t: Routable)
    requires t.Plain?
    ensures DispatchOf(d, t).result == NotDispatched ==> DispatchOf(d, t).trace == []
    decreases d, 1
  {
    match d
    case Leaf(_) =>
    case Nested(cs) =>
      NestedTerminal(cs, t);
      UnclaimedScanIsSilent(cs, t);
  }

  /** A scan in which nothing claims a terminal value has no effect at all. */
  lemma {:induction false} UnclaimedScanIsSilent(ds: seq<Dispatcher>, t: Routable)
    requires t.Plain?
    ensures ScanOf(ds, t).result == NotDispatched ==> ScanOf(ds, t).trace == []
    decreases ds, 2
  {
    if ds != [] {
      UnclaimedIsSilent(ds[|ds| - 1], t);
      UnclaimedScanIsSilent(ds[..|ds| - 1], t);
    }
  }

  /** A scan claims a value exactly when some dispatcher in it claims the value. */
  lemma {:induction false} ScanClaimsIffSomeClaims(ds: seq<Dispatcher>, t: Routable)
    ensures ScanOf(ds, t).result == Dispatched <==> exists k | 0 <= k < |ds| :: DispatchOf(ds[k], t).result == Dispatched
  {
    if ds != [] {
      var n := |ds|;
      ScanClaimsIffSomeClaims(ds[..n - 1], t);
      assert forall k | 0 <= k < n - 1 :: ds[..n - 1][k] == ds[k];
    }
  }

  /**
   * The newest claiming dispatcher is the one that acts: every newer one declines, and
   * the effects of the whole scan are that dispatcher's effects alone.
   */
  lemma {:induction false} Claimant(ds: seq<Dispatcher>, t: Routable) returns (k: nat)
    requires t.Plain?
    requires ScanOf(ds, t).result == Dispatched
    ensures k < |ds| && DispatchOf(ds[k], t).result == Dispatched
    ensures forall j | k < j < |ds| :: DispatchOf(ds[j], t).result == NotDispatched
    ensures ScanOf(ds, t).trace == DispatchOf(ds[k], t).trace
  {
    var n := |ds|;
    var newest := DispatchOf(ds[n - 1], t);
    if newest.result == Dispatched {
      k := n - 1;
    } else {
      UnclaimedIsSilent(ds[n - 1], t);
      var prefix := ds[..n - 1];
      k := Claimant(prefix, t);
      assert forall j | k < j < n - 1 :: prefix[j] == ds[j];
      assert prefix[k] == ds[k];
    }
  }

  /**
   * Last installed wins: a terminal value is claimed exactly when some dispatcher claims
   * it, and then by the newest such dispatcher, whose effects are the only ones; no
   * older dispatcher is consulted, and a newer one that declines has no effect.
   */
  lemma NewestClaimWins(ds: seq<Dispatcher>, t: Routable)
    requires t.Plain?
    ensures ScanOf(ds, t).result == Dispatched <==> exists k | 0 <= k < |ds| :: DispatchOf(ds[k], t).result == Dispatched
    ensures ScanOf(ds, t).result == Dispatched ==>
      exists k | 0 <= k < |ds| ::
        && DispatchOf(ds[k], t).result == Dispatched
        && (forall j | k < j < |ds| :: DispatchOf(ds[j], t).result == NotDispatched)
        && ScanOf(ds, t).trace == DispatchOf(ds[k], t).trace
    ensures ScanOf(ds, t).result == NotDispatched ==> ScanOf(ds, t).trace == []
  {
    ScanClaimsIffSomeClaims(ds, t);
    UnclaimedScanIsSilent(ds, t);
    if ScanOf(ds, t).result == Dispatched {
      var k := Claimant(ds, t);
    }
  }

  /** The flat list of routes a table holds, nested collections spliced in place. */
  function Leaves(ds: seq<Dispatcher>): (ls: seq<Dispatcher>)
    ensures forall l | l in ls :: l.Leaf?
    decreases ds, 1
  {
    if ds == [] then [] else Leaves(ds[..|ds| - 1]) + LeavesOf(ds[|ds| - 1])
  }

  function LeavesOf(d: Dispatcher): (ls: seq<Dispatcher>)
    ensures forall l | l in ls :: l.Leaf?
    decreases d, 0
  {
    match d
    case Leaf(_) => [d]
    case Nested(cs) => Leaves(cs)
  }

  /**
   * Nesting a collection as one dispatcher and splicing its dispatchers in place route
   * every terminal value identically: same result, same effects in the same order.
   */
  lemma {:induction false} NestingIsFlattening(ds: seq<Dispatcher>, t: Routable)
    requires t.Plain?
    ensures ScanOf(Leaves(ds), t) == ScanOf(ds, t)
    decreases ds, 1
  {
    if ds != [] {
      var n := |ds|;
      NestingIsFlattening(ds[..n - 1], t);
      OneNestingIsFlattening(ds[n - 1], t);
      ScanSplit(Leaves(ds[..n - 1]), LeavesOf(ds[n - 1]), t);
    }
  }

  lemma {:induction false} OneNestingIsFlattening(d: Dispatcher, t: Routable)
    requires t.Plain?
    ensures ScanOf(LeavesOf(d), t) == DispatchOf(d, t)
    decreases d, 0
  {
    match d
    case Leaf(_) =>
      assert [d][..0] == [];
    case Nested(cs) =>
      NestingIsFlattening(cs, t);
      NestedTerminal(cs, t);
  }

  /**
   * `route(_:)` returns exactly when every terminal value the content resolves to is
   * claimed; otherwise it throws `RouteMissing` carrying the last unclaimed one. In
   * particular it returns when resolution delivers nothing.
   */
  /** Two tables that scan every terminal value alike deliver any terminal values alike. */
  lemma {:induction false} DeliverAlike(a: seq<Dispatcher>, b: seq<Dispatcher>, ts: seq<Routable>, error: Option<RouteMissing>)
    requires forall i | 0 <= i < |ts| :: ScanOf(a, ts[i]) == ScanOf(b, ts[i])
    ensures DeliverOf(a, ts, error) == DeliverOf(b, ts, error)
    decreases |ts|
  {
    if ts != [] {
      var e := if ScanOf(a, ts[0]).result == NotDispatched then Some(Missing(ts[0])) else error;
      assert forall i | 0 <= i < |ts[1..]| :: ScanOf(a, ts[1..][i]) == ScanOf(b, ts[1..][i]) by {
        forall i | 0 <= i < |ts[1..]| ensures ScanOf(a, ts[1..][i]) == ScanOf(b, ts[1..][i]) {
          assert ts[1..][i] == ts[i + 1];
        }
      }
      DeliverAlike(a, b, ts[1..], e);
    }
  }

  /** Two tables that scan every terminal value alike route any content alike. */
  lemma ScanAlikeRouteAlike(a: seq<Dispatcher>, b: seq<Dispatcher>, content: Routable)
    requires forall t: Routable | t.Plain? :: ScanOf(a, t) == ScanOf(b, t)
    ensures RouteOf(a, content) == RouteOf(b, content)
  {
    var ts := Resolve(content);
    forall i | 0 <= i < |ts| ensures ScanOf(a, ts[i]) == ScanOf(b, ts[i]) {
      var t := ts[i];
      assert t in ts;
      assert ScanOf(a, t) == ScanOf(b, t);
    }
    DeliverAlike(a, b, ts, None);
  }

  lemma {:induction false} DeliverOutcome(ds: seq<Dispatcher>, ts: seq<Routable>, error: Option<RouteMissing>)
    ensures DeliverOf(ds, ts, error).outcome.Routed? <==>
      error.None? && forall i | 0 <= i < |ts| :: ScanOf(ds, ts[i]).result == Dispatched
    ensures (exists i | 0 <= i < |ts| :: ScanOf(ds, ts[i]).result == NotDispatched) ==>
      exists k | 0 <= k < |ts| ::
        && ScanOf(ds, ts[k]).result == NotDispatched
        && (forall j | k < j < |ts| :: ScanOf(ds, ts[j]).result == Dispatched)
        && DeliverOf(ds, ts, error).outcome == Threw(Missing(ts[k]))
    ensures (forall i | 0 <= i < |ts| :: ScanOf(ds, ts[i]).result == Dispatched) ==>
      DeliverOf(ds, ts, error).outcome == if error.Some? then Threw(error.value) else Routed
    decreases |ts|
  {
    if ts != [] {
      var next := if ScanOf(ds, ts[0]).result == NotDispatched then Some(Missing(ts[0])) else error;
      DeliverOutcome(ds, ts[1..], next);
      assert forall i | 1 <= i < |ts| :: ts[1..][i - 1] == ts[i];
      if exists i | 0 <= i < |ts| :: ScanOf(ds, ts[i]).result == NotDispatched {
        if exists i | 1 <= i < |ts| :: ScanOf(ds, ts[i]).result == NotDispatched {
          var i :| 1 <= i < |ts| && ScanOf(ds, ts[i]).result == NotDispatched;
          assert ScanOf(ds, ts[1..][i - 1]).result == NotDispatched;
          var k :| 0 <= k < |ts[1..]| && ScanOf(ds, ts[1..][k]).result == NotDispatched
            && (forall j | k < j < |ts[1..]| :: ScanOf(ds, ts[1..][j]).result == Dispatched)
            && DeliverOf(ds, ts[1..], next).outcome == Threw(Missing(ts[1..][k]));
          assert forall j | k + 1 < j < |ts| :: ScanOf(ds, ts[j]).result == Dispatched by {
            forall j | k + 1 < j < |ts| ensures ScanOf(ds, ts[j]).result == Dispatched {
              assert ts[1..][j - 1] == ts[j];
            }
          }
        } else {
          assert forall j | 0 < j < |ts| :: ScanOf(ds, ts[j]).result == Dispatched;
        }
      }
    }
  }

  /** `route(_:)` returns exactly when every terminal value the content resolves to is claimed. */
  lemma RoutedIffAllClaimed(ds: seq<Dispatcher>, content: Routable)
    ensures RouteOf(ds, content).outcome.Routed? <==>
      forall t | t in Resolve(content) :: ScanOf(ds, t).result == Dispatched
  {
    var ts := Resolve(content);
    DeliverOutcome(ds, ts, None);
    assert forall t | t in ts :: exists i | 0 <= i < |ts| :: ts[i] == t;
  }

  /** An empty `Routes` throws for every content that resolves to something, carrying the last terminal value. */
  lemma EmptyRoutesThrow(content: Routable)
    requires Resolve(content) != []
    ensures RouteOf([], content).outcome == Threw(Missing(Resolve(content)[|Resolve(content)| - 1]))
  {
    var ts := Resolve(content);
    DeliverOutcome([], ts, None);
    assert ScanOf([], ts[|ts| - 1]).result == NotDispatched;
  }

  /** Content is resolved before any dispatch: contents resolving alike route alike. */
  lemma ResolvedBeforeDispatch(ds: seq<Dispatcher>, a: Routable, b: Routable)
    requires Resolve(a) == Resolve(b)
    ensures RouteOf(ds, a) == RouteOf(ds, b)
  {
  }
}
