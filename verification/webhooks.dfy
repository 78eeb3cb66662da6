/** Incoming webhooks: validation, the response, and the notification each
    recognised event triggers. Notifying an external system only writes a log
    entry; here it is the `Notification` value the handler emits. */
module Webhooks {
  import opened Wrappers
  import opened Text
  import opened Time

  datatype Webhook = Webhook(
    event: Option<string>,
    url: Option<string>,
    data: Option<string>,
    timestamp: int,
    secret: Option<string>)

  datatype WebhookResponse = WebhookResponse(success: bool, message: string, processedAt: int)

  datatype Notification = Notification(eventType: string, data: Option<string>)

  /** The event names with a handler, in their canonical lower-case form. */
  const KnownEvents: seq<string> :=
    ["product.created", "product.updated", "product.deleted", "inventory.low_stock", "order.created"]

  /** `ValidateWebhookAsync`. `isAbsoluteUri` stands for
      `Uri.TryCreate(url, UriKind.Absolute, ...)`, roughly the absolute-URI
      form of section 4.3 of RFC 3986; the literal "string" is accepted
      without it. */
  function ValidateWebhook(w: Webhook, isAbsoluteUri: string -> bool): (valid: bool)
    ensures valid ==> w.event.Some? && w.url.Some?
    ensures valid <==>
      && !IsNullOrEmpty(w.event)
      && !IsNullOrEmpty(w.url)
      && (w.url.value == "string" || isAbsoluteUri(w.url.value))
      && w.timestamp != DefaultDateTime
  {
    if IsNullOrEmpty(w.event) then false
    else if IsNullOrEmpty(w.url) then false
    else if w.url.value != "string" && !isAbsoluteUri(w.url.value) then false
    else if w.timestamp == DefaultDateTime then false
    else true
  }

  /** Each check on its own is enough to reject a webhook. */
  lemma ValidationRejects(w: Webhook, isAbsoluteUri: string -> bool)
    ensures IsNullOrEmpty(w.event) ==> !ValidateWebhook(w, isAbsoluteUri)
    ensures IsNullOrEmpty(w.url) ==> !ValidateWebhook(w, isAbsoluteUri)
    ensures w.url.Some? && w.url.value != "string" && !isAbsoluteUri(w.url.value) ==> !ValidateWebhook(w, isAbsoluteUri)
    ensures w.timestamp == DefaultDateTime ==> !ValidateWebhook(w, isAbsoluteUri)
    ensures w.url == Some("string") && !IsNullOrEmpty(w.event) && w.timestamp != DefaultDateTime ==> ValidateWebhook(w, isAbsoluteUri)
  {
  }

  /** `ProcessWebhookEventAsync`: the lower-cased event selects a handler,
      which notifies once under the canonical name; an unknown event notifies
      nobody. */
  function EventNotifications(event: string, data: Option<string>): (ns: seq<Notification>)
    ensures |ns| <= 1
    ensures |ns| == 1 <==> ToLower(event) in KnownEvents
    ensures |ns| == 1 ==> ns[0] == Notification(ToLower(event), data)
  {
    var lower := ToLower(event);
    if lower == "product.created" then [Notification("product.created", data)]
    else if lower == "product.updated" then [Notification("product.updated", data)]
    else if lower == "product.deleted" then [Notification("product.deleted", data)]
    else if lower == "inventory.low_stock" then [Notification("inventory.low_stock", data)]
    else if lower == "order.created" then [Notification("order.created", data)]
    else []
  }

  /** The dispatch ignores case, and every notification carries one of the
      known names. */
  lemma EventNotificationsIgnoreCase(event: string, data: Option<string>)
    ensures EventNotifications(ToLower(event), data) == EventNotifications(event, data)
    ensures forall k :: 0 <= k < |EventNotifications(event, data)| ==> EventNotifications(event, data)[k].eventType in KnownEvents
  {
    ToLowerIdempotent(event);
  }

  /** `ProcessWebhookAsync`. `fault` is the message of an exception raised
      while processing, if one is; the response is stamped with `now`. */
  function ProcessWebhook(w: Webhook, isAbsoluteUri: string -> bool, fault: Option<string>, now: int): (r: (WebhookResponse, seq<Notification>))
    ensures r.0.processedAt == now
    ensures r.0.success <==> fault.None? && ValidateWebhook(w, isAbsoluteUri)
    ensures fault.Some? ==> r.0.message == "Error processing webhook: " + fault.value && r.1 == []
    ensures fault.None? && !ValidateWebhook(w, isAbsoluteUri) ==> r.0.message == "Invalid webhook data" && r.1 == []
    ensures r.0.success ==> r.0.message == "Webhook processed successfully" && r.1 == EventNotifications(w.event.value, w.data)
  {
    if fault.Some? then (WebhookResponse(false, "Error processing webhook: " + fault.value, now), [])
    else if !ValidateWebhook(w, isAbsoluteUri) then (WebhookResponse(false, "Invalid webhook data", now), [])
    else (WebhookResponse(true, "Webhook processed successfully", now), EventNotifications(w.event.value, w.data))
  }

  /** A valid webhook with an unknown event is still a success, one that
      notifies nobody. */
  lemma UnknownEventSucceedsSilently(w: Webhook, isAbsoluteUri: string -> bool, now: int)
    requires ValidateWebhook(w, isAbsoluteUri)
    requires ToLower(w.event.value) !in KnownEvents
    ensures ProcessWebhook(w, isAbsoluteUri, None, now).0.success
    ensures ProcessWebhook(w, isAbsoluteUri, None, now).1 == []
  {
  }

  /** A valid `PRODUCT.Created` webhook notifies `product.created` once. */
  lemma ProductCreatedExample(data: Option<string>, now: int, isAbsoluteUri: string -> bool)
    ensures var w := Webhook(Some("PRODUCT.Created"), Some("string"), data, 1, None);
      ProcessWebhook(w, isAbsoluteUri, None, now).1 == [Notification("product.created", data)]
  {
    LowerProductCreated();
    var w := Webhook(Some("PRODUCT.Created"), Some("string"), data, 1, None);
    assert ValidateWebhook(w, isAbsoluteUri);
    assert EventNotifications("PRODUCT.Created", data) == [Notification("product.created", data)];
  }

  lemma LowerProductCreated()
    ensures ToLower("PRODUCT.Created") == "product.created"
  {
    assert ToLower("Created") == "created";
    assert ToLower("PRODUCT.Created") == ToLower("PRODUCT.") + ToLower("Created");
  }
}
