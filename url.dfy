/**
 * URL-backed routeables (URLRouteable/URLRouteable.swift,
 * URLRouteable/URLRouteable+ExpressibleByURL.swift, URLRouteable/UnknownURLRouteable.swift):
 * an externally represented routeable over a URL, whose registered types are wrapped in
 * proxies, which falls back to `UnknownURLRouteable`, and whose `==` compares URLs.
 */
module URLRouteables {
  import opened Wrappers
  import opened Routeables
  import opened ExternalRepresentation

  /** A URL, compared by its text. */
  type URL = string

  /** `UnknownURLRouteable(url:)`: a terminal value carrying the URL nothing decoded. */
  function UnknownURLRouteable(url: URL): (r: Routable)
    ensures r.Plain? && r.key == Text(url)
  {
    Plain("UnknownURLRouteable", Text(url))
  }

  /**
   * A `Proxy<T>` or `DecoderProxy<T>` value storing `routeable`, which its synthesized `==`
   * compares; its `yield(to:)` hands over `routeable`.
   */
  function ProxyOf(kind: string, routeable: Routable): (p: Routable)
    ensures !p.Plain? && Yielded(p) == [routeable]
  {
    Yielding("URLRouteable." + kind + "<" + TypeName(routeable) + ">", StoredKey(routeable), [routeable])
  }

  /** `Proxy<T>.init?(representitiveValue:)`: `nil` exactly when `T(url:)` is; otherwise wraps what it made. */
  function ProxyInit(make: URL -> Option<Routable>, url: URL): (p: Option<Routable>)
    ensures p.None? <==> make(url).None?
    ensures p.Some? ==> !p.value.Plain? && Yielded(p.value) == [make(url).value]
  {
    match make(url)
    case None => None
    case Some(routeable) => Some(ProxyOf("Proxy", routeable))
  }

  /** `DecoderProxy<T>.init?(representitiveValue:)`: `nil` exactly when decoding throws. */
  function DecoderProxyInit(decode: URL -> Result<Routable, string>, url: URL): (p: Option<Routable>)
    ensures p.None? <==> decode(url).Failure?
    ensures p.Some? ==> !p.value.Plain? && Yielded(p.value) == [decode(url).value]
  {
    match decode(url)
    case Failure(_) => None
    case Success(routeable) => Some(ProxyOf("DecoderProxy", routeable))
  }

  /** `registerURL(_:)` for an `ExpressibleByURL` type: its proxy becomes the last decoder. */
  function RegisterURL(decoders: seq<Decoder<URL>>, make: URL -> Option<Routable>): (ds: seq<Decoder<URL>>)
    ensures |ds| == |decoders| + 1 && ds[..|decoders|] == decoders
    ensures forall u: URL :: ds[|decoders|](u).None? <==> make(u).None?
    ensures forall u: URL | make(u).Some? :: ds[|decoders|](u) == Some(Erase(ProxyOf("Proxy", make(u).value)))
  {
    decoders + [RegisteredDecoder(u => ProxyInit(make, u))]
  }

  /** `registerURL(_:)` for a `Decodable` type: its decoder proxy becomes the last decoder. */
  function RegisterDecodableURL(decoders: seq<Decoder<URL>>, decode: URL -> Result<Routable, string>): (ds: seq<Decoder<URL>>)
    ensures |ds| == |decoders| + 1 && ds[..|decoders|] == decoders
    ensures forall u: URL :: ds[|decoders|](u).None? <==> decode(u).Failure?
    ensures forall u: URL | decode(u).Success? ::
      ds[|decoders|](u) == Some(Erase(ProxyOf("DecoderProxy", decode(u).value)))
  {
    decoders + [RegisteredDecoder(u => DecoderProxyInit(decode, u))]
  }

  /**
   * A `URLRouteable` subclass `tag` with its registered `decoders`, created with `url`.
   * Its stored property compared by `equals` is the URL; it yields the first decoded
   * routeable, or else `UnknownURLRouteable(url:)` through its `failedToYieldRouteable`.
   */
  function URLRouteable(tag: string, decoders: seq<Decoder<URL>>, url: URL): (r: Routable)
    ensures r.Yielding? && TypeOf(r) == Named(tag) && r.key == Text(url)
    ensures |Yielded(r)| == 1
  {
    Yielding(tag, Text(url), ExternalYield(FirstDecoded(decoders, url), [UnknownURLRouteable(url)]))
  }

  /** Two URL routeables of one type are equal exactly when their URLs are, whatever they registered. */
  lemma EqualIffSameURL(tag: string, a: seq<Decoder<URL>>, b: seq<Decoder<URL>>, u: URL, v: URL)
    ensures Equal(URLRouteable(tag, a, u), URLRouteable(tag, b, v)) <==> u == v
  {
  }

  /** When no registered decoder accepts the URL, the recipient receives `UnknownURLRouteable` with that URL. */
  lemma UnknownWhenUndecoded(tag: string, decoders: seq<Decoder<URL>>, url: URL)
    requires forall j | 0 <= j < |decoders| :: decoders[j](url).None?
    ensures Yielded(URLRouteable(tag, decoders, url)) == [UnknownURLRouteable(url)]
    ensures Resolve(URLRouteable(tag, decoders, url)) == [UnknownURLRouteable(url)]
  {
    var _ := FirstDecoderWins(decoders, url);
    ResolveSingleYield(tag, Text(url), UnknownURLRouteable(url));
  }

  /** When some decoder accepts, the recipient receives what the first accepting decoder produced. */
  lemma DecodedWhenAccepted(tag: string, decoders: seq<Decoder<URL>>, url: URL)
    requires FirstDecoded(decoders, url).Some?
    ensures Resolve(URLRouteable(tag, decoders, url)) == Resolve(FirstDecoded(decoders, url).value.content)
  {
    DecodedResolvesToContent(FirstDecoded(decoders, url).value, [UnknownURLRouteable(url)]);
  }

  /** A proxy, like a decoder proxy, yields exactly its wrapped routeable. */
  lemma ProxyYieldsRouteable(kind: string, routeable: Routable)
    ensures Resolve(ProxyOf(kind, routeable)) == Resolve(routeable)
  {
    var p := ProxyOf(kind, routeable);
    ResolveSingleYield(p.tag, p.key, routeable);
  }

  /**
   * A type registered with `registerURL(_:)` whose `init?(url:)` accepts the URL claims it
   * when every earlier registration rejected it: the recipient receives what the type made.
   */
  lemma RegisteredTypeClaims(tag: string, decoders: seq<Decoder<URL>>, make: URL -> Option<Routable>, url: URL)
    requires forall j | 0 <= j < |decoders| :: decoders[j](url).None?
    requires make(url).Some?
    ensures Resolve(URLRouteable(tag, RegisterURL(decoders, make), url)) == Resolve(make(url).value)
  {
    var proxy := RegisteredDecoder(u => ProxyInit(make, u));
    RejectedFallsThrough(decoders, [proxy], url);
    RegisteredDecoderErases(u => ProxyInit(make, u), url);
    assert [proxy][1..] == [];
    assert FirstDecoded(RegisterURL(decoders, make), url) == Some(Erase(ProxyOf("Proxy", make(url).value)));
    DecodedWhenAccepted(tag, RegisterURL(decoders, make), url);
    ProxyYieldsRouteable("Proxy", make(url).value);
  }

  /**
   * A `Decodable` type registered with `registerURL(_:)` that decodes the URL claims it
   * when every earlier registration rejected it: the recipient receives what was decoded.
   */
  lemma DecodableTypeClaims(tag: string, decoders: seq<Decoder<URL>>, decode: URL -> Result<Routable, string>, url: URL)
    requires forall j | 0 <= j < |decoders| :: decoders[j](url).None?
    requires decode(url).Success?
    ensures Resolve(URLRouteable(tag, RegisterDecodableURL(decoders, decode), url)) == Resolve(decode(url).value)
  {
    var ds := RegisterDecodableURL(decoders, decode);
    assert ds == decoders + [ds[|decoders|]];
    RejectedFallsThrough(decoders, [ds[|decoders|]], url);
    assert FirstDecoded(ds, url) == Some(Erase(ProxyOf("DecoderProxy", decode(url).value)));
    DecodedWhenAccepted(tag, ds, url);
    ProxyYieldsRouteable("DecoderProxy", decode(url).value);
  }

  /** A registered type whose `init?(url:)` rejects the URL leaves the decoding to the earlier registrations. */
  lemma RejectingTypeIsSkipped(decoders: seq<Decoder<URL>>, make: URL -> Option<Routable>, url: URL)
    requires make(url).None?
    ensures FirstDecoded(RegisterURL(decoders, make), url) == FirstDecoded(decoders, url)
  {
    var ds := RegisterURL(decoders, make);
    assert ds == decoders + [ds[|decoders|]];
    SkipRejectingLast(decoders, ds[|decoders|], url);
  }

  /** A `Decodable` type whose decoding of the URL throws leaves the decoding to the earlier registrations. */
  lemma FailingDecodableIsSkipped(decoders: seq<Decoder<URL>>, decode: URL -> Result<Routable, string>, url: URL)
    requires decode(url).Failure?
    ensures FirstDecoded(RegisterDecodableURL(decoders, decode), url) == FirstDecoded(decoders, url)
  {
    var ds := RegisterDecodableURL(decoders, decode);
    assert ds == decoders + [ds[|decoders|]];
    SkipRejectingLast(decoders, ds[|decoders|], url);
  }

  /** A type whose `init?(url:)` always succeeds claims every URL, leaving `UnknownURLRouteable` unreachable. */
  lemma AcceptAllClaimsEveryURL(tag: string, make: URL -> Option<Routable>, url: URL)
    requires forall u :: make(u).Some?
    ensures Resolve(URLRouteable(tag, RegisterURL([], make), url)) == Resolve(make(url).value)
  {
    RegisteredTypeClaims(tag, [], make, url);
  }
}
