/**
 * Routeables backed by a user activity (UserActivityRouteable/UserActivityRouteable.swift
 * and its URL and intent registrations): an ordered list of decoders, the first to
 * produce a routeable wins, nothing is yielded when none does, and `==` is the identity
 * of the backing activity object.
 */
module UserActivityRouteables {
  import opened Wrappers
  import opened Routeables
  import opened ExternalRepresentation
  import opened URLRouteables

  /** An `NSUserActivity`: an object whose web page URL and interaction intent are fixed here. */
  class UserActivity {
    const webpageURL: Option<URL>
    const intent: Option<Datum>

    constructor (webpageURL: Option<URL>, intent: Option<Datum>)
      ensures this.webpageURL == webpageURL && this.intent == intent
    {
      this.webpageURL := webpageURL;
      this.intent := intent;
    }
  }

  /** A decoding block passed to `register(decoder:)`. */
  type ActivityDecoder = Decoder<UserActivity>

  /** What `yield(to:)` hands the recipient: the content of the first decoded routeable, or nothing. */
  function ActivityYield(decoders: seq<ActivityDecoder>, activity: UserActivity): (ys: seq<Routable>)
    ensures |ys| <= 1
  {
    match FirstDecoded(decoders, activity)
    case None => []
    case Some(routeable) => Yielded(routeable)
  }

  class UserActivityRouteable {
    /** The subclass, which decides the registrations. */
    const tag: string
    const userActivity: UserActivity
    var decoders: seq<ActivityDecoder>

    /**
     * `init(userActivity:)`: stores the activity, then runs `registerRouteables()`,
     * whose override registers `registrations` in order.
     */
    constructor (tag: string, userActivity: UserActivity, registrations: seq<ActivityDecoder>)
      ensures this.tag == tag && this.userActivity == userActivity
      ensures decoders == registrations
    {
      this.tag := tag;
      this.userActivity := userActivity;
      decoders := [];
      new;
      var i := 0;
      while i < |registrations|
        invariant 0 <= i <= |registrations|
        invariant decoders == registrations[..i]
      {
        Register(registrations[i]);
        assert registrations[..i + 1] == registrations[..i] + [registrations[i]];
        i := i + 1;
      }
      assert registrations[..i] == registrations;
    }

    /** `register(decoder:)`: the block becomes the last decoder. */
    method Register(decoder: ActivityDecoder)
      modifies this
      ensures decoders == old(decoders) + [decoder]
    {
      decoders := decoders + [decoder];
    }

    /**
     * `yield(to:)`: decoders are tried in registration order; the first non-nil routeable
     * is itself yielded to the recipient, which hands over its content, and no later
     * decoder runs. If none decodes, nothing is received.
     */
    method Yield() returns (received: seq<Routable>)
      ensures received == ActivityYield(decoders, userActivity)
      ensures FirstDecoded(decoders, userActivity).Some? ==> received == [FirstDecoded(decoders, userActivity).value.content]
      ensures FirstDecoded(decoders, userActivity).None? ==> received == []
    {
      received := [];
      var i := 0;
      while i < |decoders|
        invariant 0 <= i <= |decoders|
        invariant FirstDecoded(decoders, userActivity) == FirstDecoded(decoders[i..], userActivity)
      {
        assert decoders[i..][1..] == decoders[i + 1..];
        var routeable := decoders[i](userActivity);
        if routeable.Some? {
          received := Yielded(routeable.value);
          break;
        }
        i := i + 1;
      }
    }

    /** This routeable as a value: its stored property compared by `==` is the activity object. */
    function AsRoutable(): (r: Routable)
      reads this
      ensures !r.Plain? && Yielded(r) == ActivityYield(decoders, userActivity)
    {
      Yielding(tag, Identity(userActivity), ActivityYield(decoders, userActivity))
    }
  }

  /** Two routeables of one type are equal exactly when they are backed by the same activity object. */
  lemma EqualIffSameActivity(a: UserActivityRouteable, b: UserActivityRouteable)
    requires a.tag == b.tag
    ensures Equal(a.AsRoutable(), b.AsRoutable()) <==> a.userActivity == b.userActivity
  {
  }

  /** `register(_:)` for a `URLRouteable` type: an activity with a web page URL decodes to that URL routeable. */
  function URLActivityDecoder(urlTag: string, urlDecoders: seq<Decoder<URL>>): ActivityDecoder
  {
    (activity: UserActivity) =>
      if activity.webpageURL.Some?
      then Some(Erase(URLRouteable(urlTag, urlDecoders, activity.webpageURL.value)))
      else None
  }

  /** `register(_:)` for an `IntentRouteable` type: an activity with an intent decodes to `make(intent)`. */
  function IntentActivityDecoder(make: Datum -> Routable): ActivityDecoder
  {
    (activity: UserActivity) => if activity.intent.Some? then Some(Erase(make(activity.intent.value))) else None
  }

  /** The URL registration decodes exactly the activities that carry a web page URL. */
  lemma URLActivityDecodes(urlTag: string, urlDecoders: seq<Decoder<URL>>, activity: UserActivity)
    ensures URLActivityDecoder(urlTag, urlDecoders)(activity).Some? <==> activity.webpageURL.Some?
  {
  }

  /** The intent registration decodes exactly the activities that carry an intent. */
  lemma IntentActivityDecodes(make: Datum -> Routable, activity: UserActivity)
    ensures IntentActivityDecoder(make)(activity).Some? <==> activity.intent.Some?
  {
  }

  /**
   * When a URL registration precedes an intent registration and the activity carries
   * a URL, the URL routeable is yielded, and an intent it also carries is ignored.
   */
  lemma FirstRegisteredWins(urlTag: string, urlDecoders: seq<Decoder<URL>>, make: Datum -> Routable, activity: UserActivity)
    requires activity.webpageURL.Some?
    ensures ActivityYield([URLActivityDecoder(urlTag, urlDecoders), IntentActivityDecoder(make)], activity)
      == [URLRouteable(urlTag, urlDecoders, activity.webpageURL.value)]
  {
  }

  /** Registered decoders that all reject the activity leave the recipient empty: there is no fallback. */
  lemma NothingWhenUndecoded(decoders: seq<ActivityDecoder>, activity: UserActivity)
    requires forall j | 0 <= j < |decoders| :: decoders[j](activity).None?
    ensures ActivityYield(decoders, activity) == []
  {
    var _ := FirstDecoderWins(decoders, activity);
  }

  /**
   * An activity whose URL a type accepting every URL decodes: recursively yielding the
   * activity routeable hands the recipient exactly what that type made of the URL.
   */
  lemma ActivityURLScenario(tag: string, urlTag: string, make: URL -> Option<Routable>, intentMake: Datum -> Routable, activity: UserActivity)
    requires activity.webpageURL.Some?
    requires forall u :: make(u).Some?
    ensures var decoders := [URLActivityDecoder(urlTag, RegisterURL([], make)), IntentActivityDecoder(intentMake)];
      Resolve(Yielding(tag, Identity(activity), ActivityYield(decoders, activity))) == Resolve(make(activity.webpageURL.value).value)
  {
    var url := activity.webpageURL.value;
    var urlRouteable := URLRouteable(urlTag, RegisterURL([], make), url);
    FirstRegisteredWins(urlTag, RegisterURL([], make), intentMake, activity);
    ResolveSingleYield(tag, Identity(activity), urlRouteable);
    AcceptAllClaimsEveryURL(urlTag, make, url);
  }
}
