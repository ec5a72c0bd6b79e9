/**
  The RFQ (request for quote) input schemas: `createRfqInputSchema`,
  `updateRfqInputSchema` and `searchRfqInputSchema`.
*/
module Rfq {
  import opened Wrappers
  import opened JsString
  import opened Zod

  // ---------------------------------------------------------------- enumerations

  /** `z.enum(['draft', 'active', 'closed', 'cancelled'])`. */
  datatype RfqStatus = Draft | Active | Closed | Cancelled
  {
    function Name(): string
    {
      match this
      case Draft => "draft"
      case Active => "active"
      case Closed => "closed"
      case Cancelled => "cancelled"
    }
  }

  const RfqStatusNames: set<string> := {"draft", "active", "closed", "cancelled"}

  function ParseRfqStatus(name: string): (r: Option<RfqStatus>)
    ensures r.Some? <==> name in RfqStatusNames
    ensures r.Some? ==> r.value.Name() == name
  {
    if name == "draft" then Some(Draft)
    else if name == "active" then Some(Active)
    else if name == "closed" then Some(Closed)
    else if name == "cancelled" then Some(Cancelled)
    else None
  }

  lemma RfqStatusNameRoundTrip(s: RfqStatus)
    ensures s.Name() in RfqStatusNames
    ensures ParseRfqStatus(s.Name()) == Some(s)
  {
  }

  /** `z.enum(['created_at', 'expires_at', 'rfq_number'])`. */
  datatype RfqSortKey = CreatedAt | ExpiresAt | RfqNumber
  {
    function Name(): string
    {
      match this
      case CreatedAt => "created_at"
      case ExpiresAt => "expires_at"
      case RfqNumber => "rfq_number"
    }
  }

  const RfqSortKeyNames: set<string> := {"created_at", "expires_at", "rfq_number"}

  function ParseRfqSortKey(name: string): (r: Option<RfqSortKey>)
    ensures r.Some? <==> name in RfqSortKeyNames
    ensures r.Some? ==> r.value.Name() == name
  {
    if name == "created_at" then Some(CreatedAt)
    else if name == "expires_at" then Some(ExpiresAt)
    else if name == "rfq_number" then Some(RfqNumber)
    else None
  }

  lemma RfqSortKeyNameRoundTrip(k: RfqSortKey)
    ensures k.Name() in RfqSortKeyNames
    ensures ParseRfqSortKey(k.Name()) == Some(k)
  {
  }

  /** `z.enum(['asc', 'desc'])`. */
  datatype SortOrder = Asc | Desc
  {
    function Name(): string
    {
      match this
      case Asc => "asc"
      case Desc => "desc"
    }
  }

  const SortOrderNames: set<string> := {"asc", "desc"}

  function ParseSortOrder(name: string): (r: Option<SortOrder>)
    ensures r.Some? <==> name in SortOrderNames
    ensures r.Some? ==> r.value.Name() == name
  {
    if name == "asc" then Some(Asc)
    else if name == "desc" then Some(Desc)
    else None
  }

  lemma SortOrderNameRoundTrip(o: SortOrder)
    ensures o.Name() in SortOrderNames
    ensures ParseSortOrder(o.Name()) == Some(o)
  {
  }

  // ---------------------------------------------------------------- create

  /** The body of a create-RFQ request, one `Field` per key of the schema. */
  datatype CreateRfqRequest = CreateRfqRequest(
    buyerId: Field<string>,
    organizationId: Field<string>,
    productId: Field<string>,
    quantity: Field<real>,
    deliveryAddressId: Field<string>,
    preferredDeliveryDate: Field<DateCoercion>,
    notes: Field<string>,
    status: Field<string>,
    expiresAt: Field<DateCoercion>)

  /** The parsed `CreateRfqInput`. */
  datatype CreateRfqInput = CreateRfqInput(
    buyerId: string,
    organizationId: Option<string>,
    productId: string,
    quantity: int,
    deliveryAddressId: string,
    preferredDeliveryDate: Option<int>,
    notes: Option<string>,
    status: RfqStatus,
    expiresAt: Option<int>)

  /** The request bodies the schema accepts, key by key. */
  predicate ValidCreateRfq(q: CreateRfqRequest)
  {
    && q.buyerId.Present?
    && !q.organizationId.Missing?
    && q.productId.Present?
    && q.quantity.Present? && IsInteger(q.quantity.value) && q.quantity.value > 0.0
    && q.deliveryAddressId.Present?
    && CoercesToDate(q.preferredDeliveryDate)
    && (q.notes.Null? || (q.notes.Present? && Utf16Length(q.notes.value) <= 2000))
    && (q.status.Missing? || (q.status.Present? && q.status.value in RfqStatusNames))
    && CoercesToDate(q.expiresAt)
  }

  /** What every parsed create-RFQ input satisfies. */
  predicate WellFormedCreateRfq(p: CreateRfqInput)
  {
    && p.quantity > 0
    && (p.notes.Some? ==> Utf16Length(p.notes.value) <= 2000)
  }

  /** `status` defaults to `draft`. */
  function ApplyCreateRfqDefaults(q: CreateRfqRequest): (r: CreateRfqRequest)
    ensures !r.status.Missing?
    ensures q.status.Missing? ==> r.status == Present(Draft.Name())
    ensures !q.status.Missing? ==> r.status == q.status
    ensures r.(status := q.status) == q
    ensures ValidCreateRfq(r) <==> ValidCreateRfq(q)
  {
    q.(status := Default(q.status, "draft"))
  }

  /** The request body that sends exactly the values of a parsed input. */
  function UnparseCreateRfq(p: CreateRfqInput): CreateRfqRequest
  {
    CreateRfqRequest(
      Present(p.buyerId), NullableField(p.organizationId), Present(p.productId),
      IntField(p.quantity), Present(p.deliveryAddressId),
      NullableDateField(p.preferredDeliveryDate), NullableField(p.notes),
      Present(p.status.Name()), NullableDateField(p.expiresAt))
  }

  /** `createRfqInputSchema.safeParse`. */
  function ParseCreateRfq(q: CreateRfqRequest): Result<CreateRfqInput, seq<Issue>>
  {
    var buyerId := Str(q.buyerId);
    var organizationId := Nullable(q.organizationId, Str(q.organizationId));
    var productId := Str(q.productId);
    var quantity := Integer(q.quantity, Gt(0.0));
    var deliveryAddressId := Str(q.deliveryAddressId);
    var preferredDeliveryDate := Nullable(q.preferredDeliveryDate, CoerceDate(q.preferredDeliveryDate));
    var notes := Nullable(q.notes, StrMax(q.notes, 2000));
    var status := Enum(Default(q.status, "draft"), ParseRfqStatus);
    var expiresAt := Nullable(q.expiresAt, CoerceDate(q.expiresAt));
    if && buyerId.Ok? && organizationId.Ok? && productId.Ok? && quantity.Ok?
       && deliveryAddressId.Ok? && preferredDeliveryDate.Ok? && notes.Ok? && status.Ok?
       && expiresAt.Ok?
    then
      Success(CreateRfqInput(
        buyerId.value, organizationId.value, productId.value, quantity.value,
        deliveryAddressId.value, preferredDeliveryDate.value, notes.value, status.value,
        expiresAt.value))
    else
      Failure(Gather(
        Key("buyer_id", Codes(buyerId),
        Key("organization_id", Codes(organizationId),
        Key("product_id", Codes(productId),
        Key("quantity", Codes(quantity),
        Key("delivery_address_id", Codes(deliveryAddressId),
        Key("preferred_delivery_date", Codes(preferredDeliveryDate),
        Key("notes", Codes(notes),
        Key("status", Codes(status),
        Key("expires_at", Codes(expiresAt),
        Done)))))))))))
  }

  /** A body is accepted exactly when it is valid. */
  lemma CreateRfqAcceptance(q: CreateRfqRequest)
    ensures ParseCreateRfq(q).Success? <==> ValidCreateRfq(q)
  {
  }

  /** An accepted body parses to a well-formed input that carries the body's values. */
  lemma CreateRfqOutput(q: CreateRfqRequest)
    requires ParseCreateRfq(q).Success?
    ensures WellFormedCreateRfq(ParseCreateRfq(q).value)
    ensures UnparseCreateRfq(ParseCreateRfq(q).value) == ApplyCreateRfqDefaults(q)
  {
  }

  /** Different inputs send different bodies. */
  lemma UnparseCreateRfqInjective(a: CreateRfqInput, b: CreateRfqInput)
    requires UnparseCreateRfq(a) == UnparseCreateRfq(b)
    ensures a == b
  {
    RfqStatusNameRoundTrip(a.status);
    RfqStatusNameRoundTrip(b.status);
  }

  /** Parsing the body that a parsed input would send gives back that input. */
  lemma CreateRfqRoundTrip(p: CreateRfqInput)
    requires WellFormedCreateRfq(p)
    ensures ParseCreateRfq(UnparseCreateRfq(p)) == Success(p)
  {
    var q := UnparseCreateRfq(p);
    RfqStatusNameRoundTrip(p.status);
    assert ValidCreateRfq(q);
    CreateRfqAcceptance(q);
    CreateRfqOutput(q);
    UnparseCreateRfqInjective(ParseCreateRfq(q).value, p);
  }

  /** A valid body without a `status` creates a draft. */
  lemma CreateRfqStatusDefaultsToDraft(q: CreateRfqRequest)
    requires ValidCreateRfq(q) && q.status.Missing?
    ensures ParseCreateRfq(q).Success? && ParseCreateRfq(q).value.status == Draft
  {
    CreateRfqAcceptance(q);
    CreateRfqOutput(q);
    RfqStatusNameRoundTrip(ParseCreateRfq(q).value.status);
  }

  // ---------------------------------------------------------------- update

  /** The body of an update-RFQ request. */
  datatype UpdateRfqRequest = UpdateRfqRequest(
    rfqId: Field<string>,
    quantity: Field<real>,
    deliveryAddressId: Field<string>,
    preferredDeliveryDate: Field<DateCoercion>,
    notes: Field<string>,
    status: Field<string>,
    expiresAt: Field<DateCoercion>,
    closedReason: Field<string>)

  /** The parsed `UpdateRfqInput`; `Absent` keys leave the stored value alone. */
  datatype UpdateRfqInput = UpdateRfqInput(
    rfqId: string,
    quantity: Opt<int>,
    deliveryAddressId: Opt<string>,
    preferredDeliveryDate: Opt<Option<int>>,
    notes: Opt<Option<string>>,
    status: Opt<RfqStatus>,
    expiresAt: Opt<Option<int>>,
    closedReason: Opt<Option<string>>)

  predicate ValidUpdateRfq(q: UpdateRfqRequest)
  {
    && q.rfqId.Present?
    && (q.quantity.Missing? || (q.quantity.Present? && IsInteger(q.quantity.value) && q.quantity.value > 0.0))
    && !q.deliveryAddressId.Null?
    && (q.preferredDeliveryDate.Missing? || CoercesToDate(q.preferredDeliveryDate))
    && (q.notes.Present? ==> Utf16Length(q.notes.value) <= 2000)
    && (q.status.Missing? || (q.status.Present? && q.status.value in RfqStatusNames))
    && (q.expiresAt.Missing? || CoercesToDate(q.expiresAt))
  }

  predicate WellFormedUpdateRfq(p: UpdateRfqInput)
  {
    && (p.quantity.Given? ==> p.quantity.value > 0)
    && (p.notes.Given? && p.notes.value.Some? ==> Utf16Length(p.notes.value.value) <= 2000)
  }

  function UnparseUpdateRfq(p: UpdateRfqInput): UpdateRfqRequest
  {
    UpdateRfqRequest(
      Present(p.rfqId), OptionalIntField(p.quantity), OptionalField(p.deliveryAddressId),
      NullableOptionalDateField(p.preferredDeliveryDate), NullableOptionalField(p.notes),
      match p.status { case Absent => Missing case Given(s) => Present(s.Name()) },
      NullableOptionalDateField(p.expiresAt), NullableOptionalField(p.closedReason))
  }

  /** `updateRfqInputSchema.safeParse`: every key but `rfq_id` may be left out. */
  function ParseUpdateRfq(q: UpdateRfqRequest): Result<UpdateRfqInput, seq<Issue>>
  {
    var rfqId := Str(q.rfqId);
    var quantity := Optional(q.quantity, Integer(q.quantity, Gt(0.0)));
    var deliveryAddressId := Optional(q.deliveryAddressId, Str(q.deliveryAddressId));
    var preferredDeliveryDate := NullableOptional(q.preferredDeliveryDate, CoerceDate(q.preferredDeliveryDate));
    var notes := NullableOptional(q.notes, StrMax(q.notes, 2000));
    var status := Optional(q.status, Enum(q.status, ParseRfqStatus));
    var expiresAt := NullableOptional(q.expiresAt, CoerceDate(q.expiresAt));
    var closedReason := NullableOptional(q.closedReason, Str(q.closedReason));
    if && rfqId.Ok? && quantity.Ok? && deliveryAddressId.Ok? && preferredDeliveryDate.Ok?
       && notes.Ok? && status.Ok? && expiresAt.Ok? && closedReason.Ok?
    then
      Success(UpdateRfqInput(
        rfqId.value, quantity.value, deliveryAddressId.value, preferredDeliveryDate.value,
        notes.value, status.value, expiresAt.value, closedReason.value))
    else
      Failure(Gather(
        Key("rfq_id", Codes(rfqId),
        Key("quantity", Codes(quantity),
        Key("delivery_address_id", Codes(deliveryAddressId),
        Key("preferred_delivery_date", Codes(preferredDeliveryDate),
        Key("notes", Codes(notes),
        Key("status", Codes(status),
        Key("expires_at", Codes(expiresAt),
        Key("closed_reason", Codes(closedReason),
        Done))))))))))
  }

  /** A body is accepted exactly when it is valid. */
  lemma UpdateRfqAcceptance(q: UpdateRfqRequest)
    ensures ParseUpdateRfq(q).Success? <==> ValidUpdateRfq(q)
  {
  }

  /** An accepted body parses to a well-formed input that carries the body's values. */
  lemma UpdateRfqOutput(q: UpdateRfqRequest)
    requires ParseUpdateRfq(q).Success?
    ensures WellFormedUpdateRfq(ParseUpdateRfq(q).value)
    ensures UnparseUpdateRfq(ParseUpdateRfq(q).value) == q
  {
  }

  /** Different inputs send different bodies. */
  lemma UnparseUpdateRfqInjective(a: UpdateRfqInput, b: UpdateRfqInput)
    requires UnparseUpdateRfq(a) == UnparseUpdateRfq(b)
    ensures a == b
  {
    if a.status.Given? && b.status.Given? {
      RfqStatusNameRoundTrip(a.status.value);
      RfqStatusNameRoundTrip(b.status.value);
    }
  }

  /** Parsing the body that a parsed input would send gives back that input. */
  lemma UpdateRfqRoundTrip(p: UpdateRfqInput)
    requires WellFormedUpdateRfq(p)
    ensures ParseUpdateRfq(UnparseUpdateRfq(p)) == Success(p)
  {
    var q := UnparseUpdateRfq(p);
    if p.status.Given? {
      RfqStatusNameRoundTrip(p.status.value);
    }
    assert ValidUpdateRfq(q);
    UpdateRfqAcceptance(q);
    UpdateRfqOutput(q);
    UnparseUpdateRfqInjective(ParseUpdateRfq(q).value, p);
  }

  /**
    The update schema checks only that a new status is one of the four names: any
    status is accepted with nothing else in the body, whatever the stored RFQ's
    current status is.
  */
  lemma UpdateRfqAcceptsEveryStatus(id: string, s: RfqStatus)
    ensures ParseUpdateRfq(UpdateRfqRequest(Present(id), Missing, Missing, Missing, Missing,
                                            Present(s.Name()), Missing, Missing))
            == Success(UpdateRfqInput(id, Absent, Absent, Absent, Absent, Given(s), Absent, Absent))
  {
    RfqStatusNameRoundTrip(s);
  }

  // ---------------------------------------------------------------- search

  /** The query of a search-RFQ request. */
  datatype SearchRfqRequest = SearchRfqRequest(
    buyerId: Field<string>,
    organizationId: Field<string>,
    productId: Field<string>,
    status: Field<string>,
    fromDate: Field<DateCoercion>,
    toDate: Field<DateCoercion>,
    limit: Field<real>,
    offset: Field<real>,
    sortBy: Field<string>,
    sortOrder: Field<string>)

  /** The parsed `SearchRfqInput`. */
  datatype SearchRfqInput = SearchRfqInput(
    buyerId: Opt<string>,
    organizationId: Opt<string>,
    productId: Opt<string>,
    status: Opt<RfqStatus>,
    fromDate: Opt<int>,
    toDate: Opt<int>,
    limit: int,
    offset: int,
    sortBy: RfqSortKey,
    sortOrder: SortOrder)

  predicate ValidSearchRfq(q: SearchRfqRequest)
  {
    && !q.buyerId.Null?
    && !q.organizationId.Null?
    && !q.productId.Null?
    && (q.status.Missing? || (q.status.Present? && q.status.value in RfqStatusNames))
    && (q.fromDate.Missing? || CoercesToDate(q.fromDate))
    && (q.toDate.Missing? || CoercesToDate(q.toDate))
    && (q.limit.Missing? || (q.limit.Present? && IsInteger(q.limit.value) && q.limit.value > 0.0))
    && (q.offset.Missing? || (q.offset.Present? && IsInteger(q.offset.value) && q.offset.value >= 0.0))
    && (q.sortBy.Missing? || (q.sortBy.Present? && q.sortBy.value in RfqSortKeyNames))
    && (q.sortOrder.Missing? || (q.sortOrder.Present? && q.sortOrder.value in SortOrderNames))
  }

  predicate WellFormedSearchRfq(p: SearchRfqInput)
  {
    p.limit > 0 && p.offset >= 0
  }

  /** `limit` defaults to 20, `offset` to 0, `sort_by` to `created_at`, `sort_order` to `desc`. */
  function ApplySearchRfqDefaults(q: SearchRfqRequest): (r: SearchRfqRequest)
    ensures !r.limit.Missing? && !r.offset.Missing? && !r.sortBy.Missing? && !r.sortOrder.Missing?
    ensures q.limit.Missing? ==> r.limit == Present(20.0)
    ensures q.offset.Missing? ==> r.offset == Present(0.0)
    ensures q.sortBy.Missing? ==> r.sortBy == Present(CreatedAt.Name())
    ensures q.sortOrder.Missing? ==> r.sortOrder == Present(Desc.Name())
    ensures !q.limit.Missing? ==> r.limit == q.limit
    ensures !q.offset.Missing? ==> r.offset == q.offset
    ensures !q.sortBy.Missing? ==> r.sortBy == q.sortBy
    ensures !q.sortOrder.Missing? ==> r.sortOrder == q.sortOrder
    ensures r.(limit := q.limit, offset := q.offset, sortBy := q.sortBy, sortOrder := q.sortOrder) == q
    ensures ValidSearchRfq(r) <==> ValidSearchRfq(q)
  {
    q.(limit := Default(q.limit, 20.0), offset := Default(q.offset, 0.0),
       sortBy := Default(q.sortBy, "created_at"), sortOrder := Default(q.sortOrder, "desc"))
  }

  function UnparseSearchRfq(p: SearchRfqInput): SearchRfqRequest
  {
    SearchRfqRequest(
      OptionalField(p.buyerId), OptionalField(p.organizationId), OptionalField(p.productId),
      match p.status { case Absent => Missing case Given(s) => Present(s.Name()) },
      OptionalDateField(p.fromDate), OptionalDateField(p.toDate),
      IntField(p.limit), IntField(p.offset),
      Present(p.sortBy.Name()), Present(p.sortOrder.Name()))
  }

  /**
    `searchRfqInputSchema.safeParse`. The date bounds are coerced without a
    `.nullable()`, so a `null` bound is read as the epoch.
  */
  function ParseSearchRfq(q: SearchRfqRequest): Result<SearchRfqInput, seq<Issue>>
  {
    var buyerId := Optional(q.buyerId, Str(q.buyerId));
    var organizationId := Optional(q.organizationId, Str(q.organizationId));
    var productId := Optional(q.productId, Str(q.productId));
    var status := Optional(q.status, Enum(q.status, ParseRfqStatus));
    var fromDate := Optional(q.fromDate, CoerceDate(q.fromDate));
    var toDate := Optional(q.toDate, CoerceDate(q.toDate));
    var limit := Integer(Default(q.limit, 20.0), Gt(0.0));
    var offset := Integer(Default(q.offset, 0.0), Gte(0.0));
    var sortBy := Enum(Default(q.sortBy, "created_at"), ParseRfqSortKey);
    var sortOrder := Enum(Default(q.sortOrder, "desc"), ParseSortOrder);
    if && buyerId.Ok? && organizationId.Ok? && productId.Ok? && status.Ok? && fromDate.Ok?
       && toDate.Ok? && limit.Ok? && offset.Ok? && sortBy.Ok? && sortOrder.Ok?
    then
      Success(SearchRfqInput(
        buyerId.value, organizationId.value, productId.value, status.value, fromDate.value,
        toDate.value, limit.value, offset.value, sortBy.value, sortOrder.value))
    else
      Failure(Gather(
        Key("buyer_id", Codes(buyerId),
        Key("organization_id", Codes(organizationId),
        Key("product_id", Codes(productId),
        Key("status", Codes(status),
        Key("from_date", Codes(fromDate),
        Key("to_date", Codes(toDate),
        Key("limit", Codes(limit),
        Key("offset", Codes(offset),
        Key("sort_by", Codes(sortBy),
        Key("sort_order", Codes(sortOrder),
        Done))))))))))))
  }

  /** A body is accepted exactly when it is valid. */
  lemma SearchRfqAcceptance(q: SearchRfqRequest)
    ensures ParseSearchRfq(q).Success? <==> ValidSearchRfq(q)
  {
  }

  /** An accepted body parses to a well-formed input that carries the body's values. */
  lemma SearchRfqOutput(q: SearchRfqRequest)
    requires ParseSearchRfq(q).Success?
    ensures WellFormedSearchRfq(ParseSearchRfq(q).value)
    ensures UnparseSearchRfq(ParseSearchRfq(q).value)
                           == ApplySearchRfqDefaults(q).(fromDate := NullAsEpoch(q.fromDate),
                                                         toDate := NullAsEpoch(q.toDate))
  {
  }

  /** Different inputs send different bodies. */
  lemma UnparseSearchRfqInjective(a: SearchRfqInput, b: SearchRfqInput)
    requires UnparseSearchRfq(a) == UnparseSearchRfq(b)
    ensures a == b
  {
    if a.status.Given? && b.status.Given? {
      RfqStatusNameRoundTrip(a.status.value);
      RfqStatusNameRoundTrip(b.status.value);
    }
    RfqSortKeyNameRoundTrip(a.sortBy);
    RfqSortKeyNameRoundTrip(b.sortBy);
    SortOrderNameRoundTrip(a.sortOrder);
    SortOrderNameRoundTrip(b.sortOrder);
  }

  /** Parsing the body that a parsed input would send gives back that input. */
  lemma SearchRfqRoundTrip(p: SearchRfqInput)
    requires WellFormedSearchRfq(p)
    ensures ParseSearchRfq(UnparseSearchRfq(p)) == Success(p)
  {
    var q := UnparseSearchRfq(p);
    if p.status.Given? {
      RfqStatusNameRoundTrip(p.status.value);
    }
    RfqSortKeyNameRoundTrip(p.sortBy);
    SortOrderNameRoundTrip(p.sortOrder);
    assert ValidSearchRfq(q);
    SearchRfqAcceptance(q);
    SearchRfqOutput(q);
    UnparseSearchRfqInjective(ParseSearchRfq(q).value, p);
  }

  /** An empty query is accepted and reads the first 20 RFQs, newest first. */
  lemma SearchRfqEmptyQuery()
    ensures ParseSearchRfq(SearchRfqRequest(Missing, Missing, Missing, Missing, Missing,
                                            Missing, Missing, Missing, Missing, Missing))
            == Success(SearchRfqInput(Absent, Absent, Absent, Absent, Absent, Absent,
                                      20, 0, CreatedAt, Desc))
  {
  }
}
