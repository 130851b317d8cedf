/**
 * The payment service: a registry of payment-provider handlers keyed by
 * provider id, payment initiation and capture through the selected handler,
 * and the payment table the service writes to.
 *
 * The handlers, the order service and the database are outside this model:
 * a handler's `initPayment`/`capturePayment` and the order service's
 * `updateCheckoutStatus` are given as functions, the call to
 * `updateOrderStatus` is returned as the message it would carry, and the
 * repository is a map from payment id to payment with a counter for new ids.
 */
module Payments {
  import opened Common

  /** The payment methods named in the order and checkout code. */
  datatype PaymentMethod = COD | BANKING | PAYPAL

  /** Payment statuses; only NEW and PROCESSING are chosen by this service, the others come from providers. */
  datatype PaymentStatus = NEW | PROCESSING | ProviderStatus(statusName: string) {
    /** Java's `Enum.name()`. */
    function Name(): string {
      match this
      case NEW => "NEW"
      case PROCESSING => "PROCESSING"
      case ProviderStatus(n) => n
    }
  }

  datatype InitPaymentRequest = InitPaymentRequest(paymentMethod: string, totalPrice: int, checkoutId: string)

  datatype InitiatedPayment = InitiatedPayment(status: string, paymentId: string, redirectUrl: string)

  datatype InitPaymentResponse = InitPaymentResponse(status: string, paymentId: string, redirectUrl: string)

  datatype CapturePaymentRequest = CapturePaymentRequest(paymentMethod: string, token: string)

  /** What a provider reports after capturing; amounts are modelled as integers. */
  datatype CapturedPayment = CapturedPayment(
    orderId: Option<int>,
    checkoutId: string,
    amount: int,
    paymentFee: int,
    gatewayTransactionId: string,
    paymentMethod: PaymentMethod,
    paymentStatus: PaymentStatus,
    failureMessage: Option<string>)

  datatype CapturePaymentResponse = CapturePaymentResponse(
    orderId: Option<int>,
    checkoutId: string,
    amount: int,
    paymentFee: int,
    gatewayTransactionId: string,
    paymentMethod: PaymentMethod,
    paymentStatus: PaymentStatus,
    failureMessage: Option<string>)

  /** A row of the payment table; absent columns are `None`. */
  datatype Payment = Payment(
    id: int,
    checkoutId: string,
    orderId: Option<int>,
    paymentStatus: PaymentStatus,
    paymentFee: Option<int>,
    paymentMethod: PaymentMethod,
    amount: int,
    failureMessage: Option<string>,
    gatewayTransactionId: Option<string>)

  /** The message sent to the order service's `updateOrderStatus`. */
  datatype PaymentOrderStatus = PaymentOrderStatus(paymentId: int, orderId: Option<int>, paymentStatus: string)

  /** The checkout event a payment is created from. */
  datatype CheckoutPayment = CheckoutPayment(checkoutId: string, paymentMethod: PaymentMethod, totalAmount: int)

  /** A provider's handler: its id and what its two calls return. */
  datatype PaymentHandler = PaymentHandler(
    providerId: string,
    initPayment: InitPaymentRequest -> InitiatedPayment,
    capturePayment: CapturePaymentRequest -> CapturedPayment)

  datatype PaymentError = IllegalArgument(message: string)

  /** `providers.put(handler.getProviderId(), handler)` for each handler in turn. */
  function Register(providers: map<string, PaymentHandler>, handlers: seq<PaymentHandler>): map<string, PaymentHandler>
    decreases |handlers|
  {
    if handlers == [] then providers
    else
      var last := handlers[|handlers| - 1];
      Register(providers, handlers[..|handlers| - 1])[last.providerId := last]
  }

  /**
   * After registration every handler's id is a key, and each key holds the last
   * handler with that id; keys no handler has keep what they held before.
   */
  lemma {:induction false} RegisterLastWins(providers: map<string, PaymentHandler>, handlers: seq<PaymentHandler>, id: string)
    ensures (exists i :: 0 <= i < |handlers| && handlers[i].providerId == id) ==>
      && id in Register(providers, handlers)
      && exists i :: 0 <= i < |handlers| && handlers[i].providerId == id
           && Register(providers, handlers)[id] == handlers[i]
           && forall j :: i < j < |handlers| ==> handlers[j].providerId != id
    ensures (forall i :: 0 <= i < |handlers| ==> handlers[i].providerId != id) ==>
      && (id in Register(providers, handlers) <==> id in providers)
      && (id in providers ==> Register(providers, handlers)[id] == providers[id])
  {
    if exists i :: 0 <= i < |handlers| && handlers[i].providerId == id {
      RegisterPresent(providers, handlers, id);
    } else {
      RegisterAbsent(providers, handlers, id);
    }
  }

  /** A registered id holds the last handler carrying it. */
  lemma {:induction false} RegisterPresent(providers: map<string, PaymentHandler>, handlers: seq<PaymentHandler>, id: string)
    requires exists i :: 0 <= i < |handlers| && handlers[i].providerId == id
    ensures id in Register(providers, handlers)
    ensures exists i :: 0 <= i < |handlers| && handlers[i].providerId == id
              && Register(providers, handlers)[id] == handlers[i]
              && forall j :: i < j < |handlers| ==> handlers[j].providerId != id
    decreases |handlers|
  {
    var init, last := handlers[..|handlers| - 1], handlers[|handlers| - 1];
    if last.providerId == id {
      assert handlers[|handlers| - 1].providerId == id;
    } else {
      var i :| 0 <= i < |handlers| && handlers[i].providerId == id;
      assert init[i].providerId == id;
      RegisterPresent(providers, init, id);
      var k :| 0 <= k < |init| && init[k].providerId == id
               && Register(providers, init)[id] == init[k]
               && forall j :: k < j < |init| ==> init[j].providerId != id;
      assert handlers[k] == init[k];
    }
  }

  /** An id no handler carries keeps what it held before registration. */
  lemma {:induction false} RegisterAbsent(providers: map<string, PaymentHandler>, handlers: seq<PaymentHandler>, id: string)
    requires forall i :: 0 <= i < |handlers| ==> handlers[i].providerId != id
    ensures id in Register(providers, handlers) <==> id in providers
    ensures id in providers ==> Register(providers, handlers)[id] == providers[id]
    decreases |handlers|
  {
    if handlers != [] {
      var init := handlers[..|handlers| - 1];
      assert forall i :: 0 <= i < |init| ==> init[i] == handlers[i];
      assert handlers[|handlers| - 1].providerId != id;
      RegisterAbsent(providers, init, id);
    }
  }

  /** The row `createPaymentFromEvent` builds: status NEW for cash on delivery, PROCESSING for any other method. */
  function EventPayment(event: CheckoutPayment, id: int): (p: Payment)
    ensures p.paymentStatus == NEW <==> event.paymentMethod == COD
    ensures p.paymentStatus == PROCESSING <==> event.paymentMethod != COD
    ensures p.id == id && p.checkoutId == event.checkoutId
    ensures p.paymentMethod == event.paymentMethod && p.amount == event.totalAmount
    ensures p.orderId.None? && p.paymentFee.None? && p.failureMessage.None? && p.gatewayTransactionId.None?
  {
    Payment(id, event.checkoutId, None, if event.paymentMethod == COD then NEW else PROCESSING,
            None, event.paymentMethod, event.totalAmount, None, None)
  }

  /** `createPayment`: the row built from a captured payment, before the database assigns it `id`. */
  function CapturedRow(captured: CapturedPayment, id: int): (p: Payment)
    ensures p.id == id && p.checkoutId == captured.checkoutId && p.orderId == captured.orderId
    ensures p.paymentStatus == captured.paymentStatus && p.paymentMethod == captured.paymentMethod
    ensures p.amount == captured.amount && p.paymentFee == Some(captured.paymentFee)
    ensures p.failureMessage == captured.failureMessage
    ensures p.gatewayTransactionId == Some(captured.gatewayTransactionId)
  {
    Payment(id, captured.checkoutId, captured.orderId, captured.paymentStatus, Some(captured.paymentFee),
            captured.paymentMethod, captured.amount, captured.failureMessage, Some(captured.gatewayTransactionId))
  }

  class PaymentService {
    const paymentHandlers: seq<PaymentHandler>
    /** The order service's `updateCheckoutStatus`, which answers with the id of the order created. */
    const updateCheckoutStatus: CapturedPayment -> int
    var providers: map<string, PaymentHandler>
    var payments: map<int, Payment>
    var nextId: int

    /** Every stored payment sits under its own id, and ids still to be given out are above them all. */
    ghost predicate Valid()
      reads this
    {
      forall id :: id in payments ==> id < nextId && payments[id].id == id
    }

    constructor (paymentHandlers: seq<PaymentHandler>, updateCheckoutStatus: CapturedPayment -> int)
      ensures Valid()
      ensures this.paymentHandlers == paymentHandlers && this.updateCheckoutStatus == updateCheckoutStatus
      ensures providers == map[] && payments == map[]
    {
      this.paymentHandlers := paymentHandlers;
      this.updateCheckoutStatus := updateCheckoutStatus;
      providers := map[];
      payments := map[];
      nextId := 1;
    }

    /** The `@PostConstruct` registration of every handler. */
    method InitializeProviders()
      modifies this
      ensures providers == Register(old(providers), paymentHandlers)
      ensures payments == old(payments) && nextId == old(nextId)
    {
      ghost var start := providers;
      for i := 0 to |paymentHandlers|
        invariant providers == Register(start, paymentHandlers[..i])
        invariant payments == old(payments) && nextId == old(nextId)
      {
        var handler := paymentHandlers[i];
        assert paymentHandlers[..i + 1][..i] == paymentHandlers[..i];
        providers := providers[handler.providerId := handler];
      }
      assert paymentHandlers[..|paymentHandlers|] == paymentHandlers;
    }

    /** `getPaymentHandler`: the registered handler, or an `IllegalArgumentException`. */
    method GetPaymentHandler(providerName: string) returns (r: Result<PaymentHandler, PaymentError>)
      ensures r.Ok? <==> providerName in providers
      ensures r.Ok? ==> r.value == providers[providerName]
      ensures r.Err? ==> r.error == IllegalArgument("No payment handler found for provider: " + providerName)
    {
      if providerName !in providers {
        return Err(IllegalArgument("No payment handler found for provider: " + providerName));
      }
      r := Ok(providers[providerName]);
    }

    /** `initPayment`: the selected handler's answer, field by field. */
    method InitPayment(request: InitPaymentRequest) returns (r: Result<InitPaymentResponse, PaymentError>)
      ensures r.Err? <==> request.paymentMethod !in providers
      ensures r.Err? ==> r.error == IllegalArgument("No payment handler found for provider: " + request.paymentMethod)
      ensures r.Ok? ==>
        var initiated := providers[request.paymentMethod].initPayment(request);
        && r.value.status == initiated.status
        && r.value.paymentId == initiated.paymentId
        && r.value.redirectUrl == initiated.redirectUrl
    {
      var handler := GetPaymentHandler(request.paymentMethod);
      if handler.Err? {
        return Err(handler.error);
      }
      var initiated := handler.value.initPayment(request);
      r := Ok(InitPaymentResponse(initiated.status, initiated.paymentId, initiated.redirectUrl));
    }

    /** `paymentRepository.save` of a new row: the database assigns the next id. */
    method Save(row: Payment) returns (saved: Payment)
      requires Valid()
      modifies this
      ensures Valid()
      ensures saved == row.(id := old(nextId)) && old(nextId) !in old(payments)
      ensures payments == old(payments)[old(nextId) := saved] && nextId > old(nextId)
      ensures providers == old(providers)
    {
      saved := row.(id := nextId);
      payments := payments[nextId := saved];
      nextId := nextId + 1;
    }

    /**
     * `capturePayment`: capture through the handler, learn the order id from the
     * order service, store the payment with that order id, and report the
     * payment's status to the order service (`statusUpdate`).
     */
    method CapturePayment(request: CapturePaymentRequest)
      returns (r: Result<CapturePaymentResponse, PaymentError>, statusUpdate: Option<PaymentOrderStatus>)
      requires Valid()
      modifies this
      ensures Valid() && providers == old(providers)
      ensures r.Err? <==> request.paymentMethod !in providers
      ensures r.Err? ==> payments == old(payments) && statusUpdate.None?
      ensures r.Ok? ==>
        var captured := providers[request.paymentMethod].capturePayment(request);
        var orderId := updateCheckoutStatus(captured);
        var stored := CapturedRow(captured.(orderId := Some(orderId)), old(nextId));
        && old(nextId) !in old(payments)
        && payments == old(payments)[old(nextId) := stored]
        && statusUpdate == Some(PaymentOrderStatus(old(nextId), Some(orderId), captured.paymentStatus.Name()))
        && r.value == CapturePaymentResponse(Some(orderId), captured.checkoutId, captured.amount,
                                             captured.paymentFee, captured.gatewayTransactionId,
                                             captured.paymentMethod, captured.paymentStatus, captured.failureMessage)
    {
      var handler := GetPaymentHandler(request.paymentMethod);
      if handler.Err? {
        return Err(handler.error), None;
      }
      var capturedPayment := handler.value.capturePayment(request);
      var orderId := updateCheckoutStatus(capturedPayment);
      capturedPayment := capturedPayment.(orderId := Some(orderId));
      var payment := Save(CapturedRow(capturedPayment, 0));
      statusUpdate := Some(PaymentOrderStatus(payment.id, payment.orderId, payment.paymentStatus.Name()));
      r := Ok(CapturePaymentResponse(capturedPayment.orderId, capturedPayment.checkoutId, capturedPayment.amount,
                                     capturedPayment.paymentFee, capturedPayment.gatewayTransactionId,
                                     capturedPayment.paymentMethod, capturedPayment.paymentStatus,
                                     capturedPayment.failureMessage));
    }

    /** `createPaymentFromEvent`: store a payment for the checkout and answer with its id. */
    method CreatePaymentFromEvent(event: CheckoutPayment) returns (id: int)
      requires Valid()
      modifies this
      ensures Valid() && providers == old(providers)
      ensures id == old(nextId) && id !in old(payments)
      ensures payments == old(payments)[id := EventPayment(event, id)]
    {
      var createdPayment := Save(EventPayment(event, 0));
      id := createdPayment.id;
    }
  }
}
