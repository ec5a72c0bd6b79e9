/** The order input schemas: `createOrderInputSchema` and `updateOrderInputSchema`. */
module Order {
  import opened Wrappers
  import opened JsString
  import opened Zod

  // ---------------------------------------------------------------- enumerations

  /** `z.enum(['cod', 'prepaid', 'credit'])`. */
  datatype PaymentMethod = Cod | Prepaid | Credit
  {
    function Name(): string
    {
      match this
      case Cod => "cod"
      case Prepaid => "prepaid"
      case Credit => "credit"
    }
  }

  const PaymentMethodNames: set<string> := {"cod", "prepaid", "credit"}

  function ParsePaymentMethod(name: string): (r: Option<PaymentMethod>)
    ensures r.Some? <==> name in PaymentMethodNames
    ensures r.Some? ==> r.value.Name() == name
  {
    if name == "cod" then Some(Cod)
    else if name == "prepaid" then Some(Prepaid)
    else if name == "credit" then Some(Credit)
    else None
  }

  lemma PaymentMethodNameRoundTrip(m: PaymentMethod)
    ensures m.Name() in PaymentMethodNames
    ensures ParsePaymentMethod(m.Name()) == Some(m)
  {
  }

  /** The eight order statuses the update schema accepts. */
  datatype OrderStatus =
    | PendingVendorConfirmation
    | Confirmed
    | Preparing
    | Dispatched
    | InTransit
    | Delivered
    | Cancelled
    | VendorDeclined
  {
    function Name(): string
    {
      match this
      case PendingVendorConfirmation => "pending_vendor_confirmation"
      case Confirmed => "confirmed"
      case Preparing => "preparing"
      case Dispatched => "dispatched"
      case InTransit => "in_transit"
      case Delivered => "delivered"
      case Cancelled => "cancelled"
      case VendorDeclined => "vendor_declined"
    }
  }

  const OrderStatusNames: set<string> := {
    "pending_vendor_confirmation", "confirmed", "preparing", "dispatched",
    "in_transit", "delivered", "cancelled", "vendor_declined"}

  function ParseOrderStatus(name: string): (r: Option<OrderStatus>)
    ensures r.Some? <==> name in OrderStatusNames
    ensures r.Some? ==> r.value.Name() == name
  {
    if name == "pending_vendor_confirmation" then Some(PendingVendorConfirmation)
    else if name == "confirmed" then Some(Confirmed)
    else if name == "preparing" then Some(Preparing)
    else if name == "dispatched" then Some(Dispatched)
    else if name == "in_transit" then Some(InTransit)
    else if name == "delivered" then Some(Delivered)
    else if name == "cancelled" then Some(Cancelled)
    else if name == "vendor_declined" then Some(VendorDeclined)
    else None
  }

  lemma OrderStatusNameRoundTrip(s: OrderStatus)
    ensures s.Name() in OrderStatusNames
    ensures ParseOrderStatus(s.Name()) == Some(s)
  {
  }

  // ---------------------------------------------------------------- create

  /** The body of a create-order request. */
  datatype CreateOrderRequest = CreateOrderRequest(
    rfqId: Field<string>,
    quoteId: Field<string>,
    buyerId: Field<string>,
    vendorId: Field<string>,
    organizationId: Field<string>,
    productId: Field<string>,
    quantity: Field<real>,
    unitPrice: Field<real>,
    currency: Field<string>,
    deliveryFee: Field<real>,
    deliveryAddressId: Field<string>,
    expectedDeliveryDate: Field<DateCoercion>,
    paymentMethod: Field<string>)

  /** The parsed `CreateOrderInput`. */
  datatype CreateOrderInput = CreateOrderInput(
    rfqId: string,
    quoteId: string,
    buyerId: string,
    vendorId: string,
    organizationId: Option<string>,
    productId: string,
    quantity: int,
    unitPrice: real,
    currency: string,
    deliveryFee: Option<real>,
    deliveryAddressId: string,
    expectedDeliveryDate: Option<int>,
    paymentMethod: PaymentMethod)

  predicate ValidCreateOrder(q: CreateOrderRequest)
  {
    && q.rfqId.Present?
    && q.quoteId.Present?
    && q.buyerId.Present?
    && q.vendorId.Present?
    && !q.organizationId.Missing?
    && q.productId.Present?
    && q.quantity.Present? && IsInteger(q.quantity.value) && q.quantity.value > 0.0
    && q.unitPrice.Present? && q.unitPrice.value > 0.0
    && (q.currency.Missing? || (q.currency.Present? && Utf16Length(q.currency.value) == 3))
    && (q.deliveryFee.Null? || (q.deliveryFee.Present? && q.deliveryFee.value >= 0.0))
    && q.deliveryAddressId.Present?
    && (q.expectedDeliveryDate.Null?
        || (q.expectedDeliveryDate.Present? && q.expectedDeliveryDate.value.ValidTime?))
    && (q.paymentMethod.Missing? || (q.paymentMethod.Present? && q.paymentMethod.value in PaymentMethodNames))
  }

  predicate WellFormedCreateOrder(p: CreateOrderInput)
  {
    && p.quantity > 0
    && p.unitPrice > 0.0
    && Utf16Length(p.currency) == 3
    && (p.deliveryFee.Some? ==> p.deliveryFee.value >= 0.0)
  }

  /** `currency` defaults to `USD`, `payment_method` to `cod`. */
  function ApplyCreateOrderDefaults(q: CreateOrderRequest): (r: CreateOrderRequest)
    ensures !r.currency.Missing? && !r.paymentMethod.Missing?
    ensures q.currency.Missing? ==> r.currency == Present("USD")
    ensures q.paymentMethod.Missing? ==> r.paymentMethod == Present(Cod.Name())
    ensures !q.currency.Missing? ==> r.currency == q.currency
    ensures !q.paymentMethod.Missing? ==> r.paymentMethod == q.paymentMethod
    ensures r.(currency := q.currency, paymentMethod := q.paymentMethod) == q
    ensures ValidCreateOrder(r) <==> ValidCreateOrder(q)
  {
    q.(currency := Default(q.currency, "USD"), paymentMethod := Default(q.paymentMethod, "cod"))
  }

  function UnparseCreateOrder(p: CreateOrderInput): CreateOrderRequest
  {
    CreateOrderRequest(
      Present(p.rfqId), Present(p.quoteId), Present(p.buyerId), Present(p.vendorId),
      NullableField(p.organizationId), Present(p.productId), IntField(p.quantity),
      Present(p.unitPrice), Present(p.currency), NullableField(p.deliveryFee),
      Present(p.deliveryAddressId), NullableDateField(p.expectedDeliveryDate),
      Present(p.paymentMethod.Name()))
  }

  /**
    `createOrderInputSchema.safeParse`. The delivery date is coerced inside
    `.nullable()`, so `null` stays `null`.
  */
  function ParseCreateOrder(q: CreateOrderRequest): Result<CreateOrderInput, seq<Issue>>
  {
    var rfqId := Str(q.rfqId);
    var quoteId := Str(q.quoteId);
    var buyerId := Str(q.buyerId);
    var vendorId := Str(q.vendorId);
    var organizationId := Nullable(q.organizationId, Str(q.organizationId));
    var productId := Str(q.productId);
    var quantity := Integer(q.quantity, Gt(0.0));
    var unitPrice := Number(q.unitPrice, Gt(0.0), NoMax);
    var currency := StrLength(Default(q.currency, "USD"), 3);
    var deliveryFee := Nullable(q.deliveryFee, Number(q.deliveryFee, Gte(0.0), NoMax));
    var deliveryAddressId := Str(q.deliveryAddressId);
    var expectedDeliveryDate := Nullable(q.expectedDeliveryDate, CoerceDate(q.expectedDeliveryDate));
    var paymentMethod := Enum(Default(q.paymentMethod, "cod"), ParsePaymentMethod);
    if && rfqId.Ok? && quoteId.Ok? && buyerId.Ok? && vendorId.Ok? && organizationId.Ok?
       && productId.Ok? && quantity.Ok? && unitPrice.Ok? && currency.Ok? && deliveryFee.Ok?
       && deliveryAddressId.Ok? && expectedDeliveryDate.Ok? && paymentMethod.Ok?
    then
      Success(CreateOrderInput(
        rfqId.value, quoteId.value, buyerId.value, vendorId.value, organizationId.value,
        productId.value, quantity.value, unitPrice.value, currency.value, deliveryFee.value,
        deliveryAddressId.value, expectedDeliveryDate.value, paymentMethod.value))
    else
      Failure(Gather(
        Key("rfq_id", Codes(rfqId),
        Key("quote_id", Codes(quoteId),
        Key("buyer_id", Codes(buyerId),
        Key("vendor_id", Codes(vendorId),
        Key("organization_id", Codes(organizationId),
        Key("product_id", Codes(productId),
        Key("quantity", Codes(quantity),
        Key("unit_price", Codes(unitPrice),
        Key("currency", Codes(currency),
        Key("delivery_fee", Codes(deliveryFee),
        Key("delivery_address_id", Codes(deliveryAddressId),
        Key("expected_delivery_date", Codes(expectedDeliveryDate),
        Key("payment_method", Codes(paymentMethod),
        Done)))))))))))))))
  }

  /** A body is accepted exactly when it is valid. */
  lemma CreateOrderAcceptance(q: CreateOrderRequest)
    ensures ParseCreateOrder(q).Success? <==> ValidCreateOrder(q)
  {
  }

  /** An accepted body parses to a well-formed input that carries the body's values. */
  lemma CreateOrderOutput(q: CreateOrderRequest)
    requires ParseCreateOrder(q).Success?
    ensures WellFormedCreateOrder(ParseCreateOrder(q).value)
    ensures UnparseCreateOrder(ParseCreateOrder(q).value) == ApplyCreateOrderDefaults(q)
  {
  }

  /** Different inputs send different bodies. */
  lemma UnparseCreateOrderInjective(a: CreateOrderInput, b: CreateOrderInput)
    requires UnparseCreateOrder(a) == UnparseCreateOrder(b)
    ensures a == b
  {
    PaymentMethodNameRoundTrip(a.paymentMethod);
    PaymentMethodNameRoundTrip(b.paymentMethod);
  }

  /** Parsing the body that a parsed input would send gives back that input. */
  lemma CreateOrderRoundTrip(p: CreateOrderInput)
    requires WellFormedCreateOrder(p)
    ensures ParseCreateOrder(UnparseCreateOrder(p)) == Success(p)
  {
    var q := UnparseCreateOrder(p);
    PaymentMethodNameRoundTrip(p.paymentMethod);
    assert ValidCreateOrder(q);
    CreateOrderAcceptance(q);
    CreateOrderOutput(q);
    UnparseCreateOrderInjective(ParseCreateOrder(q).value, p);
  }

  /** A valid body without `currency` is in US dollars, and without `payment_method` is cash on delivery. */
  lemma CreateOrderDefaults(q: CreateOrderRequest)
    requires ValidCreateOrder(q)
    ensures ParseCreateOrder(q).Success?
    ensures q.currency.Missing? ==> ParseCreateOrder(q).value.currency == "USD"
    ensures q.paymentMethod.Missing? ==> ParseCreateOrder(q).value.paymentMethod == Cod
  {
    CreateOrderAcceptance(q);
    CreateOrderOutput(q);
    PaymentMethodNameRoundTrip(ParseCreateOrder(q).value.paymentMethod);
  }

  // ---------------------------------------------------------------- update

  /** The body of an update-order request. */
  datatype UpdateOrderRequest = UpdateOrderRequest(
    orderId: Field<string>,
    status: Field<string>,
    expectedDeliveryDate: Field<DateCoercion>,
    vendorDeclinedReason: Field<string>,
    cancellationReason: Field<string>)

  /** The parsed `UpdateOrderInput`. */
  datatype UpdateOrderInput = UpdateOrderInput(
    orderId: string,
    status: Opt<OrderStatus>,
    expectedDeliveryDate: Opt<Option<int>>,
    vendorDeclinedReason: Opt<Option<string>>,
    cancellationReason: Opt<Option<string>>)

  predicate ValidUpdateOrder(q: UpdateOrderRequest)
  {
    && q.orderId.Present?
    && (q.status.Missing? || (q.status.Present? && q.status.value in OrderStatusNames))
    && (q.expectedDeliveryDate.Present? ==> q.expectedDeliveryDate.value.ValidTime?)
  }

  function UnparseUpdateOrder(p: UpdateOrderInput): UpdateOrderRequest
  {
    UpdateOrderRequest(
      Present(p.orderId),
      match p.status { case Absent => Missing case Given(s) => Present(s.Name()) },
      NullableOptionalDateField(p.expectedDeliveryDate),
      NullableOptionalField(p.vendorDeclinedReason),
      NullableOptionalField(p.cancellationReason))
  }

  /** `updateOrderInputSchema.safeParse`: every key but `order_id` may be left out. */
  function ParseUpdateOrder(q: UpdateOrderRequest): Result<UpdateOrderInput, seq<Issue>>
  {
    var orderId := Str(q.orderId);
    var status := Optional(q.status, Enum(q.status, ParseOrderStatus));
    var expectedDeliveryDate := NullableOptional(q.expectedDeliveryDate, CoerceDate(q.expectedDeliveryDate));
    var vendorDeclinedReason := NullableOptional(q.vendorDeclinedReason, Str(q.vendorDeclinedReason));
    var cancellationReason := NullableOptional(q.cancellationReason, Str(q.cancellationReason));
    if && orderId.Ok? && status.Ok? && expectedDeliveryDate.Ok?
       && vendorDeclinedReason.Ok? && cancellationReason.Ok?
    then
      Success(UpdateOrderInput(
        orderId.value, status.value, expectedDeliveryDate.value,
        vendorDeclinedReason.value, cancellationReason.value))
    else
      Failure(Gather(
        Key("order_id", Codes(orderId),
        Key("status", Codes(status),
        Key("expected_delivery_date", Codes(expectedDeliveryDate),
        Key("vendor_declined_reason", Codes(vendorDeclinedReason),
        Key("cancellation_reason", Codes(cancellationReason),
        Done)))))))
  }

  /** A body is accepted exactly when it is valid. */
  lemma UpdateOrderAcceptance(q: UpdateOrderRequest)
    ensures ParseUpdateOrder(q).Success? <==> ValidUpdateOrder(q)
  {
  }

  /** An accepted body parses to an input that carries exactly the body's values. */
  lemma UpdateOrderOutput(q: UpdateOrderRequest)
    requires ParseUpdateOrder(q).Success?
    ensures UnparseUpdateOrder(ParseUpdateOrder(q).value) == q
  {
  }

  /** Different inputs send different bodies. */
  lemma UnparseUpdateOrderInjective(a: UpdateOrderInput, b: UpdateOrderInput)
    requires UnparseUpdateOrder(a) == UnparseUpdateOrder(b)
    ensures a == b
  {
    if a.status.Given? && b.status.Given? {
      OrderStatusNameRoundTrip(a.status.value);
      OrderStatusNameRoundTrip(b.status.value);
    }
  }

  /** Parsing the body that a parsed input would send gives back that input. */
  lemma UpdateOrderRoundTrip(p: UpdateOrderInput)
    ensures ParseUpdateOrder(UnparseUpdateOrder(p)) == Success(p)
  {
    var q := UnparseUpdateOrder(p);
    if p.status.Given? {
      OrderStatusNameRoundTrip(p.status.value);
    }
    assert ValidUpdateOrder(q);
    UpdateOrderAcceptance(q);
    UpdateOrderOutput(q);
    UnparseUpdateOrderInjective(ParseUpdateOrder(q).value, p);
  }

  /**
    A `status` key is accepted exactly when it names one of the eight order
    statuses, whatever the rest of a valid body holds.
  */
  lemma UpdateOrderStatusAcceptedIff(q: UpdateOrderRequest, name: string)
    requires ValidUpdateOrder(q)
    ensures ParseUpdateOrder(q.(status := Present(name))).Success? <==> name in OrderStatusNames
    ensures ParseUpdateOrder(q.(status := Missing)).Success?
  {
  }

  /**
    Any order status, `delivered` and `cancelled` included, passes the update
    schema with nothing else in the body: the schema does not look at the stored
    order or at the status it is moving from.
  */
  lemma UpdateOrderAcceptsEveryStatus(id: string, s: OrderStatus)
    ensures ParseUpdateOrder(UpdateOrderRequest(Present(id), Present(s.Name()), Missing, Missing, Missing))
            == Success(UpdateOrderInput(id, Given(s), Absent, Absent, Absent))
  {
    OrderStatusNameRoundTrip(s);
  }
}
