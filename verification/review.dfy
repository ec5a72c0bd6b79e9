/** The review input schemas: `createReviewInputSchema` and `updateReviewInputSchema`. */
module Review {
  import opened Wrappers
  import opened JsString
  import opened Zod

  // ---------------------------------------------------------------- enumerations

  /** `z.enum(['published', 'hidden', 'flagged'])`. */
  datatype ReviewStatus = Published | Hidden | Flagged
  {
    function Name(): string
    {
      match this
      case Published => "published"
      case Hidden => "hidden"
      case Flagged => "flagged"
    }
  }

  const ReviewStatusNames: set<string> := {"published", "hidden", "flagged"}

  function ParseReviewStatus(name: string): (r: Option<ReviewStatus>)
    ensures r.Some? <==> name in ReviewStatusNames
    ensures r.Some? ==> r.value.Name() == name
  {
    if name == "published" then Some(Published)
    else if name == "hidden" then Some(Hidden)
    else if name == "flagged" then Some(Flagged)
    else None
  }

  lemma ReviewStatusNameRoundTrip(s: ReviewStatus)
    ensures s.Name() in ReviewStatusNames
    ensures ParseReviewStatus(s.Name()) == Some(s)
  {
  }

  // ---------------------------------------------------------------- create

  /** Every rating is `z.number().min(1).max(5)`: fractional stars are allowed. */
  predicate IsRating(x: real)
  {
    1.0 <= x <= 5.0
  }

  /** The body of a create-review request. */
  datatype CreateReviewRequest = CreateReviewRequest(
    orderId: Field<string>,
    buyerId: Field<string>,
    vendorId: Field<string>,
    overallRating: Field<real>,
    productQualityRating: Field<real>,
    deliveryRating: Field<real>,
    communicationRating: Field<real>,
    pricingRating: Field<real>,
    reviewText: Field<string>,
    isAnonymous: Field<bool>)

  /** The parsed `CreateReviewInput`. */
  datatype CreateReviewInput = CreateReviewInput(
    orderId: string,
    buyerId: string,
    vendorId: string,
    overallRating: real,
    productQualityRating: Option<real>,
    deliveryRating: Option<real>,
    communicationRating: Option<real>,
    pricingRating: Option<real>,
    reviewText: Option<string>,
    isAnonymous: bool)

  /** A sub-rating key: `null`, or a rating. */
  predicate ValidSubRating(f: Field<real>)
  {
    f.Null? || (f.Present? && IsRating(f.value))
  }

  predicate ValidCreateReview(q: CreateReviewRequest)
  {
    && q.orderId.Present?
    && q.buyerId.Present?
    && q.vendorId.Present?
    && q.overallRating.Present? && IsRating(q.overallRating.value)
    && ValidSubRating(q.productQualityRating)
    && ValidSubRating(q.deliveryRating)
    && ValidSubRating(q.communicationRating)
    && ValidSubRating(q.pricingRating)
    && (q.reviewText.Null? || (q.reviewText.Present? && Utf16Length(q.reviewText.value) <= 2000))
    && !q.isAnonymous.Null?
  }

  predicate WellFormedCreateReview(p: CreateReviewInput)
  {
    && IsRating(p.overallRating)
    && (p.productQualityRating.Some? ==> IsRating(p.productQualityRating.value))
    && (p.deliveryRating.Some? ==> IsRating(p.deliveryRating.value))
    && (p.communicationRating.Some? ==> IsRating(p.communicationRating.value))
    && (p.pricingRating.Some? ==> IsRating(p.pricingRating.value))
    && (p.reviewText.Some? ==> Utf16Length(p.reviewText.value) <= 2000)
  }

  /** `is_anonymous` defaults to `false`. */
  function ApplyCreateReviewDefaults(q: CreateReviewRequest): (r: CreateReviewRequest)
    ensures !r.isAnonymous.Missing?
    ensures q.isAnonymous.Missing? ==> r.isAnonymous == Present(false)
    ensures !q.isAnonymous.Missing? ==> r.isAnonymous == q.isAnonymous
    ensures r.(isAnonymous := q.isAnonymous) == q
    ensures ValidCreateReview(r) <==> ValidCreateReview(q)
  {
    q.(isAnonymous := Default(q.isAnonymous, false))
  }

  function UnparseCreateReview(p: CreateReviewInput): CreateReviewRequest
  {
    CreateReviewRequest(
      Present(p.orderId), Present(p.buyerId), Present(p.vendorId), Present(p.overallRating),
      NullableField(p.productQualityRating), NullableField(p.deliveryRating),
      NullableField(p.communicationRating), NullableField(p.pricingRating),
      NullableField(p.reviewText), Present(p.isAnonymous))
  }

  /** The check of one rating key. */
  function Rating(f: Field<real>): (r: Check<real>)
    ensures r.Ok? <==> f.Present? && IsRating(f.value)
    ensures r.Ok? ==> r.value == f.value
  {
    Number(f, Gte(1.0), Lte(5.0))
  }

  /** `createReviewInputSchema.safeParse`. */
  function ParseCreateReview(q: CreateReviewRequest): Result<CreateReviewInput, seq<Issue>>
  {
    var orderId := Str(q.orderId);
    var buyerId := Str(q.buyerId);
    var vendorId := Str(q.vendorId);
    var overallRating := Rating(q.overallRating);
    var productQualityRating := Nullable(q.productQualityRating, Rating(q.productQualityRating));
    var deliveryRating := Nullable(q.deliveryRating, Rating(q.deliveryRating));
    var communicationRating := Nullable(q.communicationRating, Rating(q.communicationRating));
    var pricingRating := Nullable(q.pricingRating, Rating(q.pricingRating));
    var reviewText := Nullable(q.reviewText, StrMax(q.reviewText, 2000));
    var isAnonymous := Boolean(Default(q.isAnonymous, false));
    if && orderId.Ok? && buyerId.Ok? && vendorId.Ok? && overallRating.Ok?
       && productQualityRating.Ok? && deliveryRating.Ok? && communicationRating.Ok?
       && pricingRating.Ok? && reviewText.Ok? && isAnonymous.Ok?
    then
      Success(CreateReviewInput(
        orderId.value, buyerId.value, vendorId.value, overallRating.value,
        productQualityRating.value, deliveryRating.value, communicationRating.value,
        pricingRating.value, reviewText.value, isAnonymous.value))
    else
      Failure(Gather(
        Key("order_id", Codes(orderId),
        Key("buyer_id", Codes(buyerId),
        Key("vendor_id", Codes(vendorId),
        Key("overall_rating", Codes(overallRating),
        Key("product_quality_rating", Codes(productQualityRating),
        Key("delivery_rating", Codes(deliveryRating),
        Key("communication_rating", Codes(communicationRating),
        Key("pricing_rating", Codes(pricingRating),
        Key("review_text", Codes(reviewText),
        Key("is_anonymous", Codes(isAnonymous),
        Done))))))))))))
  }

  /** A body is accepted exactly when it is valid. */
  lemma CreateReviewAcceptance(q: CreateReviewRequest)
    ensures ParseCreateReview(q).Success? <==> ValidCreateReview(q)
  {
  }

  /** An accepted body parses to a well-formed input that carries the body's values. */
  lemma CreateReviewOutput(q: CreateReviewRequest)
    requires ParseCreateReview(q).Success?
    ensures WellFormedCreateReview(ParseCreateReview(q).value)
    ensures UnparseCreateReview(ParseCreateReview(q).value) == ApplyCreateReviewDefaults(q)
  {
  }

  /** Different inputs send different bodies. */
  lemma UnparseCreateReviewInjective(a: CreateReviewInput, b: CreateReviewInput)
    requires UnparseCreateReview(a) == UnparseCreateReview(b)
    ensures a == b
  {
  }

  /** Parsing the body that a parsed input would send gives back that input. */
  lemma CreateReviewRoundTrip(p: CreateReviewInput)
    requires WellFormedCreateReview(p)
    ensures ParseCreateReview(UnparseCreateReview(p)) == Success(p)
  {
    var q := UnparseCreateReview(p);
    assert ValidCreateReview(q);
    CreateReviewAcceptance(q);
    CreateReviewOutput(q);
    UnparseCreateReviewInjective(ParseCreateReview(q).value, p);
  }

  /**
    A review that leaves out `is_anonymous` is published under the buyer's name;
    an explicit `null` is rejected, since the default only fills a missing key.
  */
  lemma CreateReviewAnonymityDefault(q: CreateReviewRequest)
    requires ValidCreateReview(q.(isAnonymous := Missing))
    ensures ParseCreateReview(q.(isAnonymous := Missing)) == ParseCreateReview(q.(isAnonymous := Present(false)))
    ensures ParseCreateReview(q.(isAnonymous := Missing)).Success?
    ensures !ParseCreateReview(q.(isAnonymous := Missing)).value.isAnonymous
    ensures ParseCreateReview(q.(isAnonymous := Null)).Failure?
  {
    CreateReviewAcceptance(q.(isAnonymous := Missing));
    CreateReviewAcceptance(q.(isAnonymous := Null));
  }

  // ---------------------------------------------------------------- update

  /** The body of an update-review request. */
  datatype UpdateReviewRequest = UpdateReviewRequest(
    reviewId: Field<string>,
    reviewText: Field<string>,
    vendorResponse: Field<string>,
    status: Field<string>,
    hiddenReason: Field<string>)

  /** The parsed `UpdateReviewInput`. */
  datatype UpdateReviewInput = UpdateReviewInput(
    reviewId: string,
    reviewText: Opt<Option<string>>,
    vendorResponse: Opt<Option<string>>,
    status: Opt<ReviewStatus>,
    hiddenReason: Opt<Option<string>>)

  predicate ValidUpdateReview(q: UpdateReviewRequest)
  {
    && q.reviewId.Present?
    && (q.reviewText.Present? ==> Utf16Length(q.reviewText.value) <= 2000)
    && (q.vendorResponse.Present? ==> Utf16Length(q.vendorResponse.value) <= 2000)
    && (q.status.Missing? || (q.status.Present? && q.status.value in ReviewStatusNames))
  }

  predicate WellFormedUpdateReview(p: UpdateReviewInput)
  {
    && (p.reviewText.Given? && p.reviewText.value.Some? ==> Utf16Length(p.reviewText.value.value) <= 2000)
    && (p.vendorResponse.Given? && p.vendorResponse.value.Some?
        ==> Utf16Length(p.vendorResponse.value.value) <= 2000)
  }

  function UnparseUpdateReview(p: UpdateReviewInput): UpdateReviewRequest
  {
    UpdateReviewRequest(
      Present(p.reviewId), NullableOptionalField(p.reviewText),
      NullableOptionalField(p.vendorResponse),
      match p.status { case Absent => Missing case Given(s) => Present(s.Name()) },
      NullableOptionalField(p.hiddenReason))
  }

  /** `updateReviewInputSchema.safeParse`: every key but `review_id` may be left out. */
  function ParseUpdateReview(q: UpdateReviewRequest): Result<UpdateReviewInput, seq<Issue>>
  {
    var reviewId := Str(q.reviewId);
    var reviewText := NullableOptional(q.reviewText, StrMax(q.reviewText, 2000));
    var vendorResponse := NullableOptional(q.vendorResponse, StrMax(q.vendorResponse, 2000));
    var status := Optional(q.status, Enum(q.status, ParseReviewStatus));
    var hiddenReason := NullableOptional(q.hiddenReason, Str(q.hiddenReason));
    if reviewId.Ok? && reviewText.Ok? && vendorResponse.Ok? && status.Ok? && hiddenReason.Ok? then
      Success(UpdateReviewInput(
        reviewId.value, reviewText.value, vendorResponse.value, status.value, hiddenReason.value))
    else
      Failure(Gather(
        Key("review_id", Codes(reviewId),
        Key("review_text", Codes(reviewText),
        Key("vendor_response", Codes(vendorResponse),
        Key("status", Codes(status),
        Key("hidden_reason", Codes(hiddenReason),
        Done)))))))
  }

  /** A body is accepted exactly when it is valid. */
  lemma UpdateReviewAcceptance(q: UpdateReviewRequest)
    ensures ParseUpdateReview(q).Success? <==> ValidUpdateReview(q)
  {
  }

  /** An accepted body parses to a well-formed input that carries exactly the body's values. */
  lemma UpdateReviewOutput(q: UpdateReviewRequest)
    requires ParseUpdateReview(q).Success?
    ensures WellFormedUpdateReview(ParseUpdateReview(q).value)
    ensures UnparseUpdateReview(ParseUpdateReview(q).value) == q
  {
  }

  /** Different inputs send different bodies. */
  lemma UnparseUpdateReviewInjective(a: UpdateReviewInput, b: UpdateReviewInput)
    requires UnparseUpdateReview(a) == UnparseUpdateReview(b)
    ensures a == b
  {
    if a.status.Given? && b.status.Given? {
      ReviewStatusNameRoundTrip(a.status.value);
      ReviewStatusNameRoundTrip(b.status.value);
    }
  }

  /** Parsing the body that a parsed input would send gives back that input. */
  lemma UpdateReviewRoundTrip(p: UpdateReviewInput)
    requires WellFormedUpdateReview(p)
    ensures ParseUpdateReview(UnparseUpdateReview(p)) == Success(p)
  {
    var q := UnparseUpdateReview(p);
    if p.status.Given? {
      ReviewStatusNameRoundTrip(p.status.value);
    }
    assert ValidUpdateReview(q);
    UpdateReviewAcceptance(q);
    UpdateReviewOutput(q);
    UnparseUpdateReviewInjective(ParseUpdateReview(q).value, p);
  }

  /**
    Hiding a review needs no reason: `hidden` is accepted with `hidden_reason`
    left out, since the schema does not relate the two keys.
  */
  lemma UpdateReviewHidesWithoutReason(id: string)
    ensures ParseUpdateReview(UpdateReviewRequest(Present(id), Missing, Missing, Present("hidden"), Missing))
            == Success(UpdateReviewInput(id, Absent, Absent, Given(Hidden), Absent))
  {
  }
}
