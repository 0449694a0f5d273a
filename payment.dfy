/** The pure part of `PaymentService` (src/services/paymentService.ts): the
    delivery-fee rule, the receipt, and the mapping from a verified Stripe
    event to the webhook result. Stripe's API calls are not modelled; the
    signature check `stripe.webhooks.constructEvent` is the parameter
    `constructEvent` (`None` where it throws). */
module Payment {
  import opened Errors
  import opened Domain

  /** `calculateDeliveryFee(orderAmount, location)`. */
  function CalculateDeliveryFee(orderAmount: Money, cfg: FeeConfig, location: Option<string>): Money {
    if orderAmount >= cfg.freeDeliveryThreshold then 0.0 else cfg.defaultDeliveryFee
  }

  /** Free from the threshold on (inclusive), the flat default below it, and
      the location never matters. */
  lemma DeliveryFeeRule(orderAmount: Money, cfg: FeeConfig, location: Option<string>, other: Option<string>)
    ensures orderAmount >= cfg.freeDeliveryThreshold ==> CalculateDeliveryFee(orderAmount, cfg, location) == 0.0
    ensures orderAmount < cfg.freeDeliveryThreshold ==>
      CalculateDeliveryFee(orderAmount, cfg, location) == cfg.defaultDeliveryFee
    ensures CalculateDeliveryFee(orderAmount, cfg, location) == CalculateDeliveryFee(orderAmount, cfg, other)
  {
  }

  datatype Receipt = Receipt(
    orderNumber: string, customerName: string, customerEmail: string,
    items: seq<OrderItem>, subtotal: Money, deliveryFee: Money, total: Money,
    paymentMethod: string, paymentStatus: string, transactionId: string, paidAt: Time)

  /** `generateReceiptData(order, paymentIntent)`; `now` is the `paidAt` clock. */
  function GenerateReceiptData(order: Order, paymentIntentId: string, now: Time): (r: Receipt)
    ensures r.total == order.totalAmount
    ensures r.deliveryFee == (if order.deliveryFee.Some? then order.deliveryFee.value else 0.0)
    ensures r.subtotal + r.deliveryFee == r.total
    ensures r.orderNumber == order.orderNumber && r.items == order.items
    ensures r.paymentMethod == "Card" && r.paymentStatus == "Paid"
    ensures r.transactionId == paymentIntentId && r.paidAt == now
  {
    var fee := order.deliveryFee.GetOr(0.0);
    Receipt(order.orderNumber, order.customerName, order.customerEmail, order.items,
            order.totalAmount - fee, fee, order.totalAmount,
            "Card", "Paid", paymentIntentId, now)
  }

  /** A Stripe event after its signature was checked: its type and the
      `metadata.orderId` of the payment intent it carries. */
  datatype StripeEvent = StripeEvent(eventType: string, orderId: string)

  /** The object `handleWebhookEvent` returns. */
  datatype WebhookOutcome = WebhookOutcome(success: bool, kind: string, orderId: Option<string>)

  /** The `switch (event.type)`. */
  function EventOutcome(e: StripeEvent): WebhookOutcome {
    if e.eventType == "payment_intent.succeeded" then WebhookOutcome(true, "payment_succeeded", Some(e.orderId))
    else if e.eventType == "payment_intent.payment_failed" then WebhookOutcome(false, "payment_failed", Some(e.orderId))
    else WebhookOutcome(true, "unhandled", None)
  }

  /** `handleWebhookEvent(payload, signature)`; `webhookSecret` is
      STRIPE_WEBHOOK_SECRET (`None` when unset). */
  function HandleWebhookEvent(payload: string, signature: string, webhookSecret: Option<string>,
                              constructEvent: (string, string, string) -> Option<StripeEvent>)
    : (r: Result<WebhookOutcome>)
    ensures webhookSecret == None || webhookSecret == Some("") ==>
      r == Fail(Validation, "Webhook secret not configured")
  {
    if webhookSecret.None? || webhookSecret.value == "" then Fail(Validation, "Webhook secret not configured")
    else
      match constructEvent(payload, signature, webhookSecret.value)
      case None => Fail(Validation, "Invalid webhook signature")
      case Some(e) => Ok(EventOutcome(e))
  }

  /** The outcomes of a webhook call: a configured secret and a verified
      event are needed for any result; a success event names its order, a
      failure event reports failure, everything else is "unhandled". */
  lemma WebhookOutcomes(payload: string, signature: string, secret: string,
                        constructEvent: (string, string, string) -> Option<StripeEvent>)
    requires secret != ""
    ensures constructEvent(payload, signature, secret).None? ==>
      HandleWebhookEvent(payload, signature, Some(secret), constructEvent)
        == Fail(Validation, "Invalid webhook signature")
    ensures constructEvent(payload, signature, secret).Some? ==>
      var e := constructEvent(payload, signature, secret).value;
      var r := HandleWebhookEvent(payload, signature, Some(secret), constructEvent);
      && r.Ok?
      && (e.eventType == "payment_intent.succeeded" ==>
            r.value == WebhookOutcome(true, "payment_succeeded", Some(e.orderId)))
      && (e.eventType == "payment_intent.payment_failed" ==>
            r.value == WebhookOutcome(false, "payment_failed", Some(e.orderId)))
      && (e.eventType != "payment_intent.succeeded" && e.eventType != "payment_intent.payment_failed" ==>
            r.value == WebhookOutcome(true, "unhandled", None))
  {
  }

  /** Only a verified "payment_intent.succeeded" event reports a payment
      success, and it reports the order its metadata names. */
  lemma PaymentSucceededOnlyFromVerifiedEvent(payload: string, signature: string, webhookSecret: Option<string>,
                                              constructEvent: (string, string, string) -> Option<StripeEvent>)
    ensures var r := HandleWebhookEvent(payload, signature, webhookSecret, constructEvent);
      r.Ok? && r.value.kind == "payment_succeeded" ==>
        && webhookSecret.Some? && webhookSecret.value != ""
        && constructEvent(payload, signature, webhookSecret.value).Some?
        && constructEvent(payload, signature, webhookSecret.value).value.eventType == "payment_intent.succeeded"
        && r.value.orderId == Some(constructEvent(payload, signature, webhookSecret.value).value.orderId)
        && r.value.success
  {
  }
}
