/** Decoding a rejection notification and finding its handler, as the OO aggregate and the command router do it. */
module Rejections {
  import opened Proto
  import opened Keys

  /** Byte decoders for the two framework messages; `None` is a decoding error. */
  datatype Codec = Codec(notification: seq<Byte> -> Option<Notification>, rejection: seq<Byte> -> Option<Rejection>)

  /** `UnmarshalTo`: the type named by the URL must be the target type. */
  function UnmarshalTo<M>(any: TypedAny, name: string, decode: seq<Byte> -> Option<M>): Option<M> {
    if TypeNameFromURL(any.typeUrl) == name then decode(any.value) else None
  }

  /** A notification's rejection; a missing payload is an empty rejection. */
  function RejectionOf(codec: Codec, notification: Notification): Option<Rejection> {
    match notification.payload
    case Some(payload) => UnmarshalTo(payload, REJECTION, codec.rejection)
    case None => Some(Rejection(None, ""))
  }

  datatype Route<+H> = Route(notification: Notification, key: string, handler: Option<H>)

  function RouteRejection<H>(codec: Codec, handlers: map<string, H>, cmd: TypedAny): Result<Route<H>> {
    match UnmarshalTo(cmd, NOTIFICATION, codec.notification)
    case None => Err(BadNotification)
    case Some(notification) =>
      match RejectionOf(codec, notification)
      case None => Err(BadRejection)
      case Some(rejection) =>
        var (domain, suffix) := InlineKeyParts(rejection);
        var key := RejectionKey(domain, suffix);
        Ok(Route(notification, key, if key in handlers then Some(handlers[key]) else None))
  }

  /** `DelegateToFramework` with the message that both dispatchers format. */
  function NoCompensation(domain: string, key: string): BusinessResponse {
    Revocation(true, "CommandHandler " + domain + " has no custom compensation for " + key)
  }

  lemma NotificationDecoded(codec: Codec, value: seq<Byte>)
    ensures UnmarshalTo(TypedAny(TYPE_URL_PREFIX + NOTIFICATION, value), NOTIFICATION, codec.notification) ==
            codec.notification(value)
  {
    TypeNameRoundTrip(NOTIFICATION);
  }

  /** What a notification event carries when everything decodes: a rejection under the rejection type's name, or an
      empty one if there is no payload. */
  ghost predicate Carries(codec: Codec, value: seq<Byte>, notification: Notification, rejection: Rejection) {
    && codec.notification(value) == Some(notification)
    && match notification.payload
       case Some(payload) =>
         After(payload.typeUrl, '/') == REJECTION && codec.rejection(payload.value) == Some(rejection)
       case None => rejection == Rejection(None, "")
  }

  /** The lookup is by the joined domain and command. */
  lemma RoutesCarried<H>(codec: Codec, handlers: map<string, H>, value: seq<Byte>, notification: Notification,
                         rejection: Rejection)
    requires Carries(codec, value, notification, rejection)
    ensures var key := InlineKeyParts(rejection).0 + "/" + InlineKeyParts(rejection).1;
            RouteRejection(codec, handlers, TypedAny(TYPE_URL_PREFIX + NOTIFICATION, value)) ==
            Ok(Route(notification, key, if key in handlers then Some(handlers[key]) else None))
  {
    NotificationDecoded(codec, value);
    var (domain, suffix) := InlineKeyParts(rejection);
    assert RejectionKey(domain, suffix) == domain + "/" + suffix;
  }

  /** Anything else is a decoding error, and which one depends on the message that does not decode. */
  lemma RoutesNothing<H>(codec: Codec, handlers: map<string, H>, value: seq<Byte>)
    requires forall notification, rejection :: !Carries(codec, value, notification, rejection)
    ensures RouteRejection(codec, handlers, TypedAny(TYPE_URL_PREFIX + NOTIFICATION, value)) ==
            Err(if codec.notification(value).None? then BadNotification else BadRejection)
  {
    NotificationDecoded(codec, value);
    var decoded := codec.notification(value);
    if decoded.Some? {
      var rejection := RejectionOf(codec, decoded.value);
      assert rejection.Some? ==> Carries(codec, value, decoded.value, rejection.value);
    }
  }
}
