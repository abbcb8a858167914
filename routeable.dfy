/**
 * Routeables and their type-erased form, and the recursive unwrapping of a
 * routeable down to the terminal values a recipient is handed
 * (RouterCore/Dispatching: Routeable, YieldsRoutable, YieldedRouteableRecipient,
 * AnyRouteable, RouteMissing, RouteDispatchResult).
 */
module Routeables {
  import opened Wrappers

  /** The concrete (Swift) type of a value. `AnyRouteableType` is the type eraser itself. */
  datatype TypeTag = AnyRouteableType | Named(name: string)

  /** The stored properties of a concrete value. `Identity` stands for an object compared with `===`. */
  datatype Datum =
    | Unit
    | Int(i: int)
    | Text(s: string)
    | Fields(items: seq<Datum>)
    | Identity(o: object)

  /**
   * A routeable value.
   * - `Plain`: a value whose type does not conform to `YieldsRoutable` (a terminal value).
   * - `Yielding`: a value whose type conforms to `YieldsRoutable`; `successors` lists, in order,
   *   what its `yield(to:)` hands the recipient (zero or more values).
   * - `Erased`: an `AnyRouteable` wrapping `content`.
   * A concrete type's own `==` is equality of these values.
   */
  datatype Routable =
    | Plain(tag: string, key: Datum)
    | Yielding(tag: string, key: Datum, successors: seq<Routable>)
    | Erased(content: Routable)

  /** The `AnyRouteable` struct: a routeable whose concrete type has been erased. */
  type AnyRouteable = r: Routable | r.Erased? witness Erased(Plain("", Unit))

  /** The outcome of a dispatching attempt. */
  datatype RouteDispatchResult = Dispatched | NotDispatched

  /** The error thrown when no route claims a terminal value; it carries that value, erased. */
  datatype RouteMissing = RouteMissing(routeable: AnyRouteable)

  /** The concrete type of a value; the type eraser is a type of its own, distinct from every concrete type. */
  function TypeOf(r: Routable): (t: TypeTag)
    ensures t == AnyRouteableType <==> r.Erased?
  {
    match r
    case Plain(t, _) => Named(t)
    case Yielding(t, _, _) => Named(t)
    case Erased(_) => AnyRouteableType
  }

  /** `eraseToAnyRouteable()`, which is `AnyRouteable(self)`. */
  function Erase(r: Routable): (e: AnyRouteable)
    ensures Yielded(e) == [r]
    ensures Resolve(e) == Resolve(r)
  {
    Erased(r)
  }

  /** `RouteMissing(content:)` erases the unclaimed value. */
  function Missing(content: Routable): (e: RouteMissing)
    ensures e.routeable.content == content
  {
    RouteMissing(Erase(content))
  }

  /**
   * `a == b` for two values of one static type. A concrete type's `==` compares its
   * stored properties, `key`; what a yielding value yields is derived from them and
   * takes no part. For `AnyRouteable` this is the `equals` closure captured at
   * construction: cast the other's content to this content's concrete type, failing
   * with `false`, then compare under that type's `==`.
   */
  predicate Equal(a: Routable, b: Routable)
  {
    match a
    case Plain(_, _) => a == b
    case Yielding(t, k, _) => b.Yielding? && b.tag == t && b.key == k
    case Erased(x) => b.Erased? && TypeOf(b.content) == TypeOf(x) && Equal(x, b.content)
  }

  /** What `yield(to:)` hands the recipient, in order; terminal values do not yield. */
  function Yielded(r: Routable): (ys: seq<Routable>)
    requires !r.Plain?
    ensures r.Erased? ==> ys == [r.content]
  {
    match r
    case Yielding(_, _, ys) => ys
    case Erased(c) => [c]
  }

  /**
   * `recursivleyYield(to:)`: the values the final recipient receives, in order.
   * A value that yields is handed the same unwrapper again (for `AnyRouteable`
   * that is one `receive(content)`); a value that does not is passed on.
   */
  function Resolve(r: Routable): (ts: seq<Routable>)
    ensures forall t | t in ts :: t.Plain?
    decreases r
  {
    match r
    case Plain(_, _) => [r]
    case Yielding(_, _, ys) => ResolveAll(ys)
    case Erased(c) => Resolve(c)
  }

  /** The unwrapper receiving each of `rs` in turn. */
  function ResolveAll(rs: seq<Routable>): (ts: seq<Routable>)
    ensures forall t | t in ts :: t.Plain?
    decreases rs
  {
    if rs == [] then [] else Resolve(rs[0]) + ResolveAll(rs[1..])
  }

  /** What a capturing recipient holds afterwards: the last value received, erased. */
  function LastReceived(r: Routable): (last: Option<AnyRouteable>)
    ensures last.None? <==> Resolve(r) == []
    ensures last.Some? ==> last.value.content.Plain?
    ensures last.Some? ==> last.value.content == Resolve(r)[|Resolve(r)| - 1]
  {
    var ts := Resolve(r);
    if ts == [] then None else Some(Erase(ts[|ts| - 1]))
  }

  // ----- Erased equality -----

  /** On terminal values of a concrete type, `==` is value identity. */
  lemma TerminalEqualIsIdentity(a: Routable, b: Routable)
    requires a.Plain? || b.Plain?
    ensures Equal(a, b) <==> a == b
  {
  }

  /** Two erased values are equal exactly when the contents share a concrete type and are equal under it. */
  lemma ErasedEquality(x: Routable, y: Routable)
    ensures Equal(Erase(x), Erase(y)) <==> TypeOf(x) == TypeOf(y) && Equal(x, y)
  {
  }

  /** Contents of different concrete types are never equal once erased, whatever they hold. */
  lemma ErasedDifferentTypes(x: Routable, y: Routable)
    requires TypeOf(x) != TypeOf(y)
    ensures !Equal(Erase(x), Erase(y))
  {
  }

  /** Equal values share a concrete type. */
  lemma EqualSameType(a: Routable, b: Routable)
    requires Equal(a, b)
    ensures TypeOf(a) == TypeOf(b)
  {
  }

  /** Every value, and in particular every erased value, equals itself. */
  lemma {:induction false} EqualReflexive(a: Routable)
    ensures Equal(a, a)
  {
    if a.Erased? {
      EqualReflexive(a.content);
    }
  }

  lemma {:induction false} EqualSymmetric(a: Routable, b: Routable)
    requires Equal(a, b)
    ensures Equal(b, a)
  {
    if a.Erased? {
      EqualSymmetric(a.content, b.content);
    }
  }

  lemma {:induction false} EqualTransitive(a: Routable, b: Routable, c: Routable)
    requires Equal(a, b) && Equal(b, c)
    ensures Equal(a, c)
  {
    if a.Erased? {
      EqualTransitive(a.content, b.content, c.content);
    }
  }

  // ----- Yielding through the eraser -----

  /** An erased value yields exactly its content, once; erasing it again changes nothing about that. */
  lemma ErasedYieldsContent(r: Routable)
    ensures Yielded(Erase(r)) == [r]
    ensures Resolve(Erase(r)) == Resolve(r)
  {
  }

  // ----- Recursive resolution -----

  /** A terminal value reaches the final recipient unchanged, exactly once. */
  lemma ResolveTerminal(t: Routable)
    requires t.Plain?
    ensures Resolve(t) == [t]
  {
  }

  /** Successors are resolved in the order they are yielded. */
  lemma {:induction false} ResolveAllAppend(a: seq<Routable>, b: seq<Routable>)
    ensures ResolveAll(a + b) == ResolveAll(a) + ResolveAll(b)
    decreases |a|
  {
    if a == [] {
      assert a + b == b;
    } else {
      assert (a + b)[0] == a[0];
      assert (a + b)[1..] == a[1..] + b;
      ResolveAllAppend(a[1..], b);
    }
  }

  /** Resolving values that are already terminal hands them on unchanged. */
  lemma {:induction false} ResolveAllTerminals(ts: seq<Routable>)
    requires forall t | t in ts :: t.Plain?
    ensures ResolveAll(ts) == ts
  {
    if ts != [] {
      assert ts[0] in ts;
      ResolveAllTerminals(ts[1..]);
    }
  }

  /** Resolution is idempotent: resolving what was received again receives the same values. */
  lemma ResolveIdempotent(r: Routable)
    ensures ResolveAll(Resolve(r)) == Resolve(r)
  {
    ResolveAllTerminals(Resolve(r));
  }

  /** A yielding value whose `yield(to:)` hands over nothing delivers nothing. */
  lemma ResolveSilentYielder(tag: string, key: Datum)
    ensures Resolve(Yielding(tag, key, [])) == []
  {
  }

  /** A value that yields one successor resolves to what that successor resolves to. */
  lemma ResolveSingleYield(tag: string, key: Datum, inner: Routable)
    ensures Resolve(Yielding(tag, key, [inner])) == Resolve(inner)
  {
    assert Resolve(Yielding(tag, key, [inner])) == ResolveAll([inner]);
    assert [inner][1..] == [];
    assert ResolveAll([inner]) == Resolve(inner) + ResolveAll([]);
  }

  /**
   * The stored properties of a value whose one stored property is `r`, which its
   * synthesized `==` compares: `r`'s own key, and for an erased `r` the type and key
   * of its content.
   */
  function StoredKey(r: Routable): Datum
  {
    match r
    case Plain(_, k) => k
    case Yielding(_, k, _) => k
    case Erased(c) => Fields([Text(TypeName(c)), StoredKey(c)])
  }

  /** The `WrapperContent` test double: a routeable that stores `inner` and yields it. */
  function WrapperContent(inner: Routable): (w: Routable)
    ensures w.Yielding? && Yielded(w) == [inner]
    ensures w.key == StoredKey(inner)
  {
    Yielding("WrapperContent<" + TypeName(inner) + ">", StoredKey(inner), [inner])
  }

  /**
   * The synthesized `==` of `WrapperContent` compares the stored `inner` values:
   * two wrappers around values of one kind are equal exactly when those values are.
   */
  lemma WrapperEqualIffInnerEqual(a: Routable, b: Routable)
    requires !a.Erased? && !b.Erased? && a.Plain? == b.Plain?
    ensures Equal(WrapperContent(a), WrapperContent(b)) <==> Equal(a, b)
  {
    var wa, wb := WrapperContent(a), WrapperContent(b);
    if Equal(wa, wb) {
      assert |a.tag| == |wa.tag| - 16 == |b.tag|;
      assert a.tag == wa.tag[15..|wa.tag| - 1] == wb.tag[15..|wb.tag| - 1] == b.tag;
    }
  }

  function TypeName(r: Routable): string
  {
    match TypeOf(r)
    case AnyRouteableType => "AnyRouteable"
    case Named(n) => n
  }

  /** Three nested wrappers resolve to the innermost content, which is erased-equal to itself. */
  lemma DeeplyNestedResolves(content: Routable)
    requires content.Plain?
    ensures Resolve(WrapperContent(WrapperContent(WrapperContent(content)))) == [content]
    ensures LastReceived(WrapperContent(WrapperContent(WrapperContent(content)))) == Some(Erase(content))
  {
    var first := WrapperContent(content);
    var second := WrapperContent(first);
    ResolveSingleYield(first.tag, first.key, content);
    ResolveSingleYield(second.tag, second.key, first);
    ResolveSingleYield(WrapperContent(second).tag, WrapperContent(second).key, second);
  }

  /** Recursively yielding an erased terminal value ends at a value erased-equal to the original. */
  lemma ErasureResolvesToOriginal(content: Routable)
    requires content.Plain?
    ensures LastReceived(Erase(content)).Some?
    ensures Equal(LastReceived(Erase(content)).value, Erase(content))
  {
    assert Resolve(Erase(content)) == [content];
    EqualReflexive(Erase(content));
  }
}
