/**
 * The decoder chain of a routeable defined by an external representation
 * (RouterCore/External Representation/ExternallyRepresentedRouteable.swift): decoders
 * are tried in registration order, the first value decoded is yielded, and when none
 * decodes the failure hook decides what, if anything, is yielded instead.
 *
 * This is deliberately the opposite order to the dispatcher table of a `Routes`,
 * which lets the newest entry win.
 */
module ExternalRepresentation {
  import opened Wrappers
  import opened Routeables

  /** A registered decoder: an external value to an erased routeable, or `nil`. */
  type Decoder<!Rep> = Rep -> Option<AnyRouteable>

  /** `decodeRouteable()` as a function: the first decoder's non-nil result, if any. */
  function FirstDecoded<Rep>(decoders: seq<Decoder<Rep>>, rep: Rep): Option<AnyRouteable>
  {
    if decoders == [] then None
    else if decoders[0](rep).Some? then decoders[0](rep)
    else FirstDecoded(decoders[1..], rep)
  }

  /** `decodeRouteable()`: the loop over the decoders that returns at the first hit. */
  method DecodeRouteable<Rep>(decoders: seq<Decoder<Rep>>, rep: Rep) returns (decoded: Option<AnyRouteable>)
    ensures decoded == FirstDecoded(decoders, rep)
  {
    var i := 0;
    while i < |decoders|
      invariant 0 <= i <= |decoders|
      invariant FirstDecoded(decoders, rep) == FirstDecoded(decoders[i..], rep)
    {
      assert decoders[i..][1..] == decoders[i + 1..];
      var routeable := decoders[i](rep);
      if routeable.Some? {
        return routeable;
      }
      i := i + 1;
    }
    return None;
  }

  /** `RegisteredDecoder(T.self)`: `T(representitiveValue:)`, erased when it succeeds. */
  function RegisteredDecoder<Rep>(init: Rep -> Option<Routable>): Decoder<Rep>
  {
    rep => if init(rep).Some? then Some(Erase(init(rep).value)) else None
  }

  /** A registered type decodes exactly what its failable initialiser accepts, and erases it. */
  lemma RegisteredDecoderErases<Rep>(init: Rep -> Option<Routable>, rep: Rep)
    ensures RegisteredDecoder(init)(rep).None? <==> init(rep).None?
    ensures init(rep).Some? ==> RegisteredDecoder(init)(rep) == Some(Erase(init(rep).value))
  {
  }

  /**
   * `yield(to:)`: the decoded routeable, itself erased, handed over once; otherwise
   * whatever `failedToYieldRouteable(to:)` hands over (`failed`; nothing by default).
   */
  function ExternalYield(decoded: Option<AnyRouteable>, failed: seq<Routable>): seq<Routable>
  {
    if decoded.Some? then [decoded.value] else failed
  }

  /**
   * The decoded value is the one of the first decoder that accepts, and no decoder
   * before it accepts; nothing is decoded exactly when no decoder accepts.
   */
  lemma {:induction false} FirstDecoderWins<Rep>(decoders: seq<Decoder<Rep>>, rep: Rep) returns (k: nat)
    ensures FirstDecoded(decoders, rep).None? <==> forall j | 0 <= j < |decoders| :: decoders[j](rep).None?
    ensures FirstDecoded(decoders, rep).Some? ==>
      k < |decoders| && FirstDecoded(decoders, rep) == decoders[k](rep) &&
      forall j | 0 <= j < k :: decoders[j](rep).None?
  {
    if decoders == [] {
      k := 0;
    } else if decoders[0](rep).Some? {
      k := 0;
      var _ := FirstDecoderWins(decoders[1..], rep);
    } else {
      var k' := FirstDecoderWins(decoders[1..], rep);
      k := k' + 1;
      forall j | 0 <= j < |decoders| && decoders[j](rep).Some? ensures j > 0 && decoders[1..][j - 1](rep).Some? {
      }
    }
  }

  /** Decoders registered after the first accepting one are never consulted. */
  lemma {:induction false} LaterDecodersIgnored<Rep>(first: seq<Decoder<Rep>>, later: seq<Decoder<Rep>>, rep: Rep)
    requires FirstDecoded(first, rep).Some?
    ensures FirstDecoded(first + later, rep) == FirstDecoded(first, rep)
  {
    if first[0](rep).None? {
      assert (first + later)[1..] == first[1..] + later;
      LaterDecodersIgnored(first[1..], later, rep);
    }
  }

  /** A representation rejected by every earlier decoder falls through to the later ones. */
  lemma {:induction false} RejectedFallsThrough<Rep>(first: seq<Decoder<Rep>>, later: seq<Decoder<Rep>>, rep: Rep)
    requires forall j | 0 <= j < |first| :: first[j](rep).None?
    ensures FirstDecoded(first + later, rep) == FirstDecoded(later, rep)
  {
    if first == [] {
      assert first + later == later;
    } else {
      assert (first + later)[1..] == first[1..] + later;
      RejectedFallsThrough(first[1..], later, rep);
    }
  }

  /** A decoder appended after the others is consulted only when all of them reject, so one that rejects changes nothing. */
  lemma {:induction false} SkipRejectingLast<Rep>(first: seq<Decoder<Rep>>, last: Decoder<Rep>, rep: Rep)
    requires last(rep).None?
    ensures FirstDecoded(first + [last], rep) == FirstDecoded(first, rep)
  {
    if first == [] {
      assert [last][1..] == [];
    } else {
      assert (first + [last])[1..] == first[1..] + [last];
      SkipRejectingLast(first[1..], last, rep);
    }
  }

  /** Whatever is yielded is resolved further: a decoded routeable resolves to its content's terminals. */
  lemma DecodedResolvesToContent(decoded: AnyRouteable, failed: seq<Routable>)
    ensures ResolveAll(ExternalYield(Some(decoded), failed)) == Resolve(decoded.content)
  {
    assert [decoded][1..] == [];
  }
}
