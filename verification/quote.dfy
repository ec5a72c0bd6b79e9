/** The quote input schemas: `createQuoteInputSchema` and `updateQuoteInputSchema`. */
module Quote {
  import opened Wrappers
  import opened JsString
  import opened Zod

  // ---------------------------------------------------------------- enumerations

  /** `z.enum(['cod', 'net_30', 'net_60', 'prepaid'])`. */
  datatype PaymentTerms = Cod | Net30 | Net60 | Prepaid
  {
    function Name(): string
    {
      match this
      case Cod => "cod"
      case Net30 => "net_30"
      case Net60 => "net_60"
      case Prepaid => "prepaid"
    }
  }

  const PaymentTermsNames: set<string> := {"cod", "net_30", "net_60", "prepaid"}

  function ParsePaymentTerms(name: string): (r: Option<PaymentTerms>)
    ensures r.Some? <==> name in PaymentTermsNames
    ensures r.Some? ==> r.value.Name() == name
  {
    if name == "cod" then Some(Cod)
    else if name == "net_30" then Some(Net30)
    else if name == "net_60" then Some(Net60)
    else if name == "prepaid" then Some(Prepaid)
    else None
  }

  lemma PaymentTermsNameRoundTrip(t: PaymentTerms)
    ensures t.Name() in PaymentTermsNames
    ensures ParsePaymentTerms(t.Name()) == Some(t)
  {
  }

  /** `z.enum(['submitted', 'accepted', 'declined', 'expired'])`. */
  datatype QuoteStatus = Submitted | Accepted | Declined | Expired
  {
    function Name(): string
    {
      match this
      case Submitted => "submitted"
      case Accepted => "accepted"
      case Declined => "declined"
      case Expired => "expired"
    }
  }

  const QuoteStatusNames: set<string> := {"submitted", "accepted", "declined", "expired"}

  function ParseQuoteStatus(name: string): (r: Option<QuoteStatus>)
    ensures r.Some? <==> name in QuoteStatusNames
    ensures r.Some? ==> r.value.Name() == name
  {
    if name == "submitted" then Some(Submitted)
    else if name == "accepted" then Some(Accepted)
    else if name == "declined" then Some(Declined)
    else if name == "expired" then Some(Expired)
    else None
  }

  lemma QuoteStatusNameRoundTrip(s: QuoteStatus)
    ensures s.Name() in QuoteStatusNames
    ensures ParseQuoteStatus(s.Name()) == Some(s)
  {
  }

  // ---------------------------------------------------------------- create

  /** The body of a create-quote request. */
  datatype CreateQuoteRequest = CreateQuoteRequest(
    rfqId: Field<string>,
    vendorId: Field<string>,
    pricePerUnit: Field<real>,
    currency: Field<string>,
    quantityAvailable: Field<real>,
    minOrderQuantity: Field<real>,
    maxOrderQuantity: Field<real>,
    deliveryFee: Field<real>,
    leadTimeDays: Field<real>,
    paymentTerms: Field<string>,
    validUntil: Field<DateCoercion>,
    notes: Field<string>)

  /** The parsed `CreateQuoteInput`. */
  datatype CreateQuoteInput = CreateQuoteInput(
    rfqId: string,
    vendorId: string,
    pricePerUnit: real,
    currency: string,
    quantityAvailable: int,
    minOrderQuantity: Option<int>,
    maxOrderQuantity: Option<int>,
    deliveryFee: Option<real>,
    leadTimeDays: int,
    paymentTerms: PaymentTerms,
    validUntil: int,
    notes: Option<string>)

  predicate ValidCreateQuote(q: CreateQuoteRequest)
  {
    && q.rfqId.Present?
    && q.vendorId.Present?
    && q.pricePerUnit.Present? && q.pricePerUnit.value > 0.0
    && (q.currency.Missing? || (q.currency.Present? && Utf16Length(q.currency.value) == 3))
    && q.quantityAvailable.Present? && IsInteger(q.quantityAvailable.value) && q.quantityAvailable.value > 0.0
    && (q.minOrderQuantity.Null?
        || (q.minOrderQuantity.Present? && IsInteger(q.minOrderQuantity.value) && q.minOrderQuantity.value > 0.0))
    && (q.maxOrderQuantity.Null?
        || (q.maxOrderQuantity.Present? && IsInteger(q.maxOrderQuantity.value) && q.maxOrderQuantity.value > 0.0))
    && (q.deliveryFee.Null? || (q.deliveryFee.Present? && q.deliveryFee.value >= 0.0))
    && q.leadTimeDays.Present? && IsInteger(q.leadTimeDays.value) && q.leadTimeDays.value >= 0.0
    && (q.paymentTerms.Missing? || (q.paymentTerms.Present? && q.paymentTerms.value in PaymentTermsNames))
    && CoercesToDate(q.validUntil)
    && (q.notes.Null? || (q.notes.Present? && Utf16Length(q.notes.value) <= 2000))
  }

  predicate WellFormedCreateQuote(p: CreateQuoteInput)
  {
    && p.pricePerUnit > 0.0
    && Utf16Length(p.currency) == 3
    && p.quantityAvailable > 0
    && (p.minOrderQuantity.Some? ==> p.minOrderQuantity.value > 0)
    && (p.maxOrderQuantity.Some? ==> p.maxOrderQuantity.value > 0)
    && (p.deliveryFee.Some? ==> p.deliveryFee.value >= 0.0)
    && p.leadTimeDays >= 0
    && (p.notes.Some? ==> Utf16Length(p.notes.value) <= 2000)
  }

  /** `currency` defaults to `USD`, `payment_terms` to `cod`. */
  function ApplyCreateQuoteDefaults(q: CreateQuoteRequest): (r: CreateQuoteRequest)
    ensures !r.currency.Missing? && !r.paymentTerms.Missing?
    ensures q.currency.Missing? ==> r.currency == Present("USD")
    ensures q.paymentTerms.Missing? ==> r.paymentTerms == Present(Cod.Name())
    ensures !q.currency.Missing? ==> r.currency == q.currency
    ensures !q.paymentTerms.Missing? ==> r.paymentTerms == q.paymentTerms
    ensures r.(currency := q.currency, paymentTerms := q.paymentTerms) == q
    ensures ValidCreateQuote(r) <==> ValidCreateQuote(q)
  {
    q.(currency := Default(q.currency, "USD"), paymentTerms := Default(q.paymentTerms, "cod"))
  }

  function UnparseCreateQuote(p: CreateQuoteInput): CreateQuoteRequest
  {
    CreateQuoteRequest(
      Present(p.rfqId), Present(p.vendorId), Present(p.pricePerUnit), Present(p.currency),
      IntField(p.quantityAvailable), NullableIntField(p.minOrderQuantity),
      NullableIntField(p.maxOrderQuantity), NullableField(p.deliveryFee),
      IntField(p.leadTimeDays), Present(p.paymentTerms.Name()), DateField(p.validUntil),
      NullableField(p.notes))
  }

  /**
    `createQuoteInputSchema.safeParse`. `valid_until` is coerced without `.nullable()`,
    so a `null` deadline is read as the epoch.
  */
  function ParseCreateQuote(q: CreateQuoteRequest): Result<CreateQuoteInput, seq<Issue>>
  {
    var rfqId := Str(q.rfqId);
    var vendorId := Str(q.vendorId);
    var pricePerUnit := Number(q.pricePerUnit, Gt(0.0), NoMax);
    var currency := StrLength(Default(q.currency, "USD"), 3);
    var quantityAvailable := Integer(q.quantityAvailable, Gt(0.0));
    var minOrderQuantity := Nullable(q.minOrderQuantity, Integer(q.minOrderQuantity, Gt(0.0)));
    var maxOrderQuantity := Nullable(q.maxOrderQuantity, Integer(q.maxOrderQuantity, Gt(0.0)));
    var deliveryFee := Nullable(q.deliveryFee, Number(q.deliveryFee, Gte(0.0), NoMax));
    var leadTimeDays := Integer(q.leadTimeDays, Gte(0.0));
    var paymentTerms := Enum(Default(q.paymentTerms, "cod"), ParsePaymentTerms);
    var validUntil := CoerceDate(q.validUntil);
    var notes := Nullable(q.notes, StrMax(q.notes, 2000));
    if && rfqId.Ok? && vendorId.Ok? && pricePerUnit.Ok? && currency.Ok?
       && quantityAvailable.Ok? && minOrderQuantity.Ok? && maxOrderQuantity.Ok?
       && deliveryFee.Ok? && leadTimeDays.Ok? && paymentTerms.Ok? && validUntil.Ok? && notes.Ok?
    then
      Success(CreateQuoteInput(
        rfqId.value, vendorId.value, pricePerUnit.value, currency.value,
        quantityAvailable.value, minOrderQuantity.value, maxOrderQuantity.value,
        deliveryFee.value, leadTimeDays.value, paymentTerms.value, validUntil.value, notes.value))
    else
      Failure(Gather(
        Key("rfq_id", Codes(rfqId),
        Key("vendor_id", Codes(vendorId),
        Key("price_per_unit", Codes(pricePerUnit),
        Key("currency", Codes(currency),
        Key("quantity_available", Codes(quantityAvailable),
        Key("min_order_quantity", Codes(minOrderQuantity),
        Key("max_order_quantity", Codes(maxOrderQuantity),
        Key("delivery_fee", Codes(deliveryFee),
        Key("lead_time_days", Codes(leadTimeDays),
        Key("payment_terms", Codes(paymentTerms),
        Key("valid_until", Codes(validUntil),
        Key("notes", Codes(notes),
        Done))))))))))))))
  }

  /** A body is accepted exactly when it is valid. */
  lemma CreateQuoteAcceptance(q: CreateQuoteRequest)
    ensures ParseCreateQuote(q).Success? <==> ValidCreateQuote(q)
  {
  }

  /** An accepted body parses to a well-formed input that carries the body's values. */
  lemma CreateQuoteOutput(q: CreateQuoteRequest)
    requires ParseCreateQuote(q).Success?
    ensures WellFormedCreateQuote(ParseCreateQuote(q).value)
    ensures UnparseCreateQuote(ParseCreateQuote(q).value)
                           == ApplyCreateQuoteDefaults(q).(validUntil := NullAsEpoch(q.validUntil))
  {
  }

  /** Different inputs send different bodies. */
  lemma UnparseCreateQuoteInjective(a: CreateQuoteInput, b: CreateQuoteInput)
    requires UnparseCreateQuote(a) == UnparseCreateQuote(b)
    ensures a == b
  {
    PaymentTermsNameRoundTrip(a.paymentTerms);
    PaymentTermsNameRoundTrip(b.paymentTerms);
  }

  /** Parsing the body that a parsed input would send gives back that input. */
  lemma CreateQuoteRoundTrip(p: CreateQuoteInput)
    requires WellFormedCreateQuote(p)
    ensures ParseCreateQuote(UnparseCreateQuote(p)) == Success(p)
  {
    var q := UnparseCreateQuote(p);
    PaymentTermsNameRoundTrip(p.paymentTerms);
    assert ValidCreateQuote(q);
    CreateQuoteAcceptance(q);
    CreateQuoteOutput(q);
    UnparseCreateQuoteInjective(ParseCreateQuote(q).value, p);
  }

  /** A valid body without `currency` quotes in US dollars, and without `payment_terms` asks cash on delivery. */
  lemma CreateQuoteDefaults(q: CreateQuoteRequest)
    requires ValidCreateQuote(q)
    ensures ParseCreateQuote(q).Success?
    ensures q.currency.Missing? ==> ParseCreateQuote(q).value.currency == "USD"
    ensures q.paymentTerms.Missing? ==> ParseCreateQuote(q).value.paymentTerms == Cod
  {
    CreateQuoteAcceptance(q);
    CreateQuoteOutput(q);
    PaymentTermsNameRoundTrip(ParseCreateQuote(q).value.paymentTerms);
  }

  /** A `null` deadline is not rejected: it parses as the epoch, 1970-01-01T00:00:00Z. */
  lemma CreateQuoteNullDeadlineIsEpoch(q: CreateQuoteRequest)
    requires ValidCreateQuote(q) && q.validUntil.Null?
    ensures ParseCreateQuote(q).Success? && ParseCreateQuote(q).value.validUntil == 0
  {
  }

  /**
    The schema bounds the minimum and maximum order quantities separately and does
    not relate them: a minimum above the maximum is accepted.
  */
  lemma CreateQuoteAcceptsMinAboveMax()
    ensures var q := CreateQuoteRequest(
              Present("rfq"), Present("vendor"), Present(1.0), Missing, Present(100.0),
              Present(10.0), Present(5.0), Null, Present(0.0), Missing,
              Present(ValidTime(0)), Null);
            ParseCreateQuote(q).Success?
            && ParseCreateQuote(q).value.minOrderQuantity.value
               > ParseCreateQuote(q).value.maxOrderQuantity.value
  {
  }

  // ---------------------------------------------------------------- update

  /** The body of an update-quote request. */
  datatype UpdateQuoteRequest = UpdateQuoteRequest(
    quoteId: Field<string>,
    pricePerUnit: Field<real>,
    quantityAvailable: Field<real>,
    minOrderQuantity: Field<real>,
    maxOrderQuantity: Field<real>,
    deliveryFee: Field<real>,
    leadTimeDays: Field<real>,
    paymentTerms: Field<string>,
    validUntil: Field<DateCoercion>,
    notes: Field<string>,
    status: Field<string>)

  /** The parsed `UpdateQuoteInput`. */
  datatype UpdateQuoteInput = UpdateQuoteInput(
    quoteId: string,
    pricePerUnit: Opt<real>,
    quantityAvailable: Opt<int>,
    minOrderQuantity: Opt<Option<int>>,
    maxOrderQuantity: Opt<Option<int>>,
    deliveryFee: Opt<Option<real>>,
    leadTimeDays: Opt<int>,
    paymentTerms: Opt<PaymentTerms>,
    validUntil: Opt<int>,
    notes: Opt<Option<string>>,
    status: Opt<QuoteStatus>)

  predicate ValidUpdateQuote(q: UpdateQuoteRequest)
  {
    && q.quoteId.Present?
    && (q.pricePerUnit.Missing? || (q.pricePerUnit.Present? && q.pricePerUnit.value > 0.0))
    && (q.quantityAvailable.Missing?
        || (q.quantityAvailable.Present? && IsInteger(q.quantityAvailable.value) && q.quantityAvailable.value > 0.0))
    && (q.minOrderQuantity.Present? ==> IsInteger(q.minOrderQuantity.value) && q.minOrderQuantity.value > 0.0)
    && (q.maxOrderQuantity.Present? ==> IsInteger(q.maxOrderQuantity.value) && q.maxOrderQuantity.value > 0.0)
    && (q.deliveryFee.Present? ==> q.deliveryFee.value >= 0.0)
    && (q.leadTimeDays.Missing?
        || (q.leadTimeDays.Present? && IsInteger(q.leadTimeDays.value) && q.leadTimeDays.value >= 0.0))
    && (q.paymentTerms.Missing? || (q.paymentTerms.Present? && q.paymentTerms.value in PaymentTermsNames))
    && (q.validUntil.Missing? || CoercesToDate(q.validUntil))
    && (q.notes.Present? ==> Utf16Length(q.notes.value) <= 2000)
    && (q.status.Missing? || (q.status.Present? && q.status.value in QuoteStatusNames))
  }

  predicate WellFormedUpdateQuote(p: UpdateQuoteInput)
  {
    && (p.pricePerUnit.Given? ==> p.pricePerUnit.value > 0.0)
    && (p.quantityAvailable.Given? ==> p.quantityAvailable.value > 0)
    && (p.minOrderQuantity.Given? && p.minOrderQuantity.value.Some? ==> p.minOrderQuantity.value.value > 0)
    && (p.maxOrderQuantity.Given? && p.maxOrderQuantity.value.Some? ==> p.maxOrderQuantity.value.value > 0)
    && (p.deliveryFee.Given? && p.deliveryFee.value.Some? ==> p.deliveryFee.value.value >= 0.0)
    && (p.leadTimeDays.Given? ==> p.leadTimeDays.value >= 0)
    && (p.notes.Given? && p.notes.value.Some? ==> Utf16Length(p.notes.value.value) <= 2000)
  }

  function UnparseUpdateQuote(p: UpdateQuoteInput): UpdateQuoteRequest
  {
    UpdateQuoteRequest(
      Present(p.quoteId), OptionalField(p.pricePerUnit), OptionalIntField(p.quantityAvailable),
      NullableOptionalIntField(p.minOrderQuantity), NullableOptionalIntField(p.maxOrderQuantity),
      NullableOptionalField(p.deliveryFee), OptionalIntField(p.leadTimeDays),
      match p.paymentTerms { case Absent => Missing case Given(t) => Present(t.Name()) },
      OptionalDateField(p.validUntil), NullableOptionalField(p.notes),
      match p.status { case Absent => Missing case Given(s) => Present(s.Name()) })
  }

  /** `updateQuoteInputSchema.safeParse`: every key but `quote_id` may be left out. */
  function ParseUpdateQuote(q: UpdateQuoteRequest): Result<UpdateQuoteInput, seq<Issue>>
  {
    var quoteId := Str(q.quoteId);
    var pricePerUnit := Optional(q.pricePerUnit, Number(q.pricePerUnit, Gt(0.0), NoMax));
    var quantityAvailable := Optional(q.quantityAvailable, Integer(q.quantityAvailable, Gt(0.0)));
    var minOrderQuantity := NullableOptional(q.minOrderQuantity, Integer(q.minOrderQuantity, Gt(0.0)));
    var maxOrderQuantity := NullableOptional(q.maxOrderQuantity, Integer(q.maxOrderQuantity, Gt(0.0)));
    var deliveryFee := NullableOptional(q.deliveryFee, Number(q.deliveryFee, Gte(0.0), NoMax));
    var leadTimeDays := Optional(q.leadTimeDays, Integer(q.leadTimeDays, Gte(0.0)));
    var paymentTerms := Optional(q.paymentTerms, Enum(q.paymentTerms, ParsePaymentTerms));
    var validUntil := Optional(q.validUntil, CoerceDate(q.validUntil));
    var notes := NullableOptional(q.notes, StrMax(q.notes, 2000));
    var status := Optional(q.status, Enum(q.status, ParseQuoteStatus));
    if && quoteId.Ok? && pricePerUnit.Ok? && quantityAvailable.Ok? && minOrderQuantity.Ok?
       && maxOrderQuantity.Ok? && deliveryFee.Ok? && leadTimeDays.Ok? && paymentTerms.Ok?
       && validUntil.Ok? && notes.Ok? && status.Ok?
    then
      Success(UpdateQuoteInput(
        quoteId.value, pricePerUnit.value, quantityAvailable.value, minOrderQuantity.value,
        maxOrderQuantity.value, deliveryFee.value, leadTimeDays.value, paymentTerms.value,
        validUntil.value, notes.value, status.value))
    else
      Failure(Gather(
        Key("quote_id", Codes(quoteId),
        Key("price_per_unit", Codes(pricePerUnit),
        Key("quantity_available", Codes(quantityAvailable),
        Key("min_order_quantity", Codes(minOrderQuantity),
        Key("max_order_quantity", Codes(maxOrderQuantity),
        Key("delivery_fee", Codes(deliveryFee),
        Key("lead_time_days", Codes(leadTimeDays),
        Key("payment_terms", Codes(paymentTerms),
        Key("valid_until", Codes(validUntil),
        Key("notes", Codes(notes),
        Key("status", Codes(status),
        Done)))))))))))))
  }

  /** A body is accepted exactly when it is valid. */
  lemma UpdateQuoteAcceptance(q: UpdateQuoteRequest)
    ensures ParseUpdateQuote(q).Success? <==> ValidUpdateQuote(q)
  {
  }

  /** An accepted body parses to a well-formed input that carries the body's values. */
  lemma UpdateQuoteOutput(q: UpdateQuoteRequest)
    requires ParseUpdateQuote(q).Success?
    ensures WellFormedUpdateQuote(ParseUpdateQuote(q).value)
    ensures UnparseUpdateQuote(ParseUpdateQuote(q).value) == q.(validUntil := if q.validUntil.Missing? then Missing else NullAsEpoch(q.validUntil))
  {
  }

  /** Different inputs send different bodies. */
  lemma UnparseUpdateQuoteInjective(a: UpdateQuoteInput, b: UpdateQuoteInput)
    requires UnparseUpdateQuote(a) == UnparseUpdateQuote(b)
    ensures a == b
  {
    if a.paymentTerms.Given? && b.paymentTerms.Given? {
      PaymentTermsNameRoundTrip(a.paymentTerms.value);
      PaymentTermsNameRoundTrip(b.paymentTerms.value);
    }
    if a.status.Given? && b.status.Given? {
      QuoteStatusNameRoundTrip(a.status.value);
      QuoteStatusNameRoundTrip(b.status.value);
    }
  }

  /** Parsing the body that a parsed input would send gives back that input. */
  lemma UpdateQuoteRoundTrip(p: UpdateQuoteInput)
    requires WellFormedUpdateQuote(p)
    ensures ParseUpdateQuote(UnparseUpdateQuote(p)) == Success(p)
  {
    var q := UnparseUpdateQuote(p);
    if p.paymentTerms.Given? {
      PaymentTermsNameRoundTrip(p.paymentTerms.value);
    }
    if p.status.Given? {
      QuoteStatusNameRoundTrip(p.status.value);
    }
    assert ValidUpdateQuote(q);
    UpdateQuoteAcceptance(q);
    UpdateQuoteOutput(q);
    UnparseUpdateQuoteInjective(ParseUpdateQuote(q).value, p);
  }

  /**
    Any quote status, `accepted` included, passes the update schema with nothing
    else in the body: the schema does not look at the stored quote or its RFQ.
  */
  lemma UpdateQuoteAcceptsEveryStatus(id: string, s: QuoteStatus)
    ensures ParseUpdateQuote(UpdateQuoteRequest(Present(id), Missing, Missing, Missing, Missing,
                                                Missing, Missing, Missing, Missing, Missing,
                                                Present(s.Name())))
            == Success(UpdateQuoteInput(id, Absent, Absent, Absent, Absent, Absent, Absent,
                                        Absent, Absent, Absent, Given(s)))
  {
    QuoteStatusNameRoundTrip(s);
  }
}
