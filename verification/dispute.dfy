/** The dispute input schemas: `createDisputeInputSchema` and `updateDisputeInputSchema`. */
module Dispute {
  import opened Wrappers
  import opened JsString
  import opened Zod

  // ---------------------------------------------------------------- enumerations

  /** `z.enum(['quality_issue', 'delivery_issue', 'pricing_issue', 'other'])`. */
  datatype IssueType = QualityIssue | DeliveryIssue | PricingIssue | Other
  {
    function Name(): string
    {
      match this
      case QualityIssue => "quality_issue"
      case DeliveryIssue => "delivery_issue"
      case PricingIssue => "pricing_issue"
      case Other => "other"
    }
  }

  const IssueTypeNames: set<string> := {"quality_issue", "delivery_issue", "pricing_issue", "other"}

  function ParseIssueType(name: string): (r: Option<IssueType>)
    ensures r.Some? <==> name in IssueTypeNames
    ensures r.Some? ==> r.value.Name() == name
  {
    if name == "quality_issue" then Some(QualityIssue)
    else if name == "delivery_issue" then Some(DeliveryIssue)
    else if name == "pricing_issue" then Some(PricingIssue)
    else if name == "other" then Some(Other)
    else None
  }

  lemma IssueTypeNameRoundTrip(t: IssueType)
    ensures t.Name() in IssueTypeNames
    ensures ParseIssueType(t.Name()) == Some(t)
  {
  }

  /** `z.enum(['open', 'investigating', 'resolved', 'closed'])`. */
  datatype DisputeStatus = Open | Investigating | Resolved | Closed
  {
    function Name(): string
    {
      match this
      case Open => "open"
      case Investigating => "investigating"
      case Resolved => "resolved"
      case Closed => "closed"
    }
  }

  const DisputeStatusNames: set<string> := {"open", "investigating", "resolved", "closed"}

  function ParseDisputeStatus(name: string): (r: Option<DisputeStatus>)
    ensures r.Some? <==> name in DisputeStatusNames
    ensures r.Some? ==> r.value.Name() == name
  {
    if name == "open" then Some(Open)
    else if name == "investigating" then Some(Investigating)
    else if name == "resolved" then Some(Resolved)
    else if name == "closed" then Some(Closed)
    else None
  }

  lemma DisputeStatusNameRoundTrip(s: DisputeStatus)
    ensures s.Name() in DisputeStatusNames
    ensures ParseDisputeStatus(s.Name()) == Some(s)
  {
  }

  // ---------------------------------------------------------------- create

  /** The body of a create-dispute request. */
  datatype CreateDisputeRequest = CreateDisputeRequest(
    orderId: Field<string>,
    raisedBy: Field<string>,
    issueType: Field<string>,
    description: Field<string>,
    preferredResolution: Field<string>)

  /** The parsed `CreateDisputeInput`. */
  datatype CreateDisputeInput = CreateDisputeInput(
    orderId: string,
    raisedBy: string,
    issueType: IssueType,
    description: string,
    preferredResolution: Option<string>)

  predicate ValidCreateDispute(q: CreateDisputeRequest)
  {
    && q.orderId.Present?
    && q.raisedBy.Present?
    && q.issueType.Present? && q.issueType.value in IssueTypeNames
    && q.description.Present? && 10 <= Utf16Length(q.description.value) <= 2000
    && (q.preferredResolution.Null?
        || (q.preferredResolution.Present? && Utf16Length(q.preferredResolution.value) <= 1000))
  }

  predicate WellFormedCreateDispute(p: CreateDisputeInput)
  {
    && 10 <= Utf16Length(p.description) <= 2000
    && (p.preferredResolution.Some? ==> Utf16Length(p.preferredResolution.value) <= 1000)
  }

  function UnparseCreateDispute(p: CreateDisputeInput): CreateDisputeRequest
  {
    CreateDisputeRequest(
      Present(p.orderId), Present(p.raisedBy), Present(p.issueType.Name()),
      Present(p.description), NullableField(p.preferredResolution))
  }

  /** `createDisputeInputSchema.safeParse`: there are no defaults. */
  function ParseCreateDispute(q: CreateDisputeRequest): Result<CreateDisputeInput, seq<Issue>>
  {
    var orderId := Str(q.orderId);
    var raisedBy := Str(q.raisedBy);
    var issueType := Enum(q.issueType, ParseIssueType);
    var description := StrMinMax(q.description, 10, 2000);
    var preferredResolution := Nullable(q.preferredResolution, StrMax(q.preferredResolution, 1000));
    if orderId.Ok? && raisedBy.Ok? && issueType.Ok? && description.Ok? && preferredResolution.Ok? then
      Success(CreateDisputeInput(
        orderId.value, raisedBy.value, issueType.value, description.value, preferredResolution.value))
    else
      Failure(Gather(
        Key("order_id", Codes(orderId),
        Key("raised_by", Codes(raisedBy),
        Key("issue_type", Codes(issueType),
        Key("description", Codes(description),
        Key("preferred_resolution", Codes(preferredResolution),
        Done)))))))
  }

  /** A body is accepted exactly when it is valid. */
  lemma CreateDisputeAcceptance(q: CreateDisputeRequest)
    ensures ParseCreateDispute(q).Success? <==> ValidCreateDispute(q)
  {
  }

  /** An accepted body parses to a well-formed input that carries exactly the body's values. */
  lemma CreateDisputeOutput(q: CreateDisputeRequest)
    requires ParseCreateDispute(q).Success?
    ensures WellFormedCreateDispute(ParseCreateDispute(q).value)
    ensures UnparseCreateDispute(ParseCreateDispute(q).value) == q
  {
  }

  /** Different inputs send different bodies. */
  lemma UnparseCreateDisputeInjective(a: CreateDisputeInput, b: CreateDisputeInput)
    requires UnparseCreateDispute(a) == UnparseCreateDispute(b)
    ensures a == b
  {
    IssueTypeNameRoundTrip(a.issueType);
    IssueTypeNameRoundTrip(b.issueType);
  }

  /** Parsing the body that a parsed input would send gives back that input. */
  lemma CreateDisputeRoundTrip(p: CreateDisputeInput)
    requires WellFormedCreateDispute(p)
    ensures ParseCreateDispute(UnparseCreateDispute(p)) == Success(p)
  {
    var q := UnparseCreateDispute(p);
    IssueTypeNameRoundTrip(p.issueType);
    assert ValidCreateDispute(q);
    CreateDisputeAcceptance(q);
    CreateDisputeOutput(q);
    UnparseCreateDisputeInjective(ParseCreateDispute(q).value, p);
  }

  /**
    In an otherwise valid body, a description is accepted exactly when it has from
    10 to 2000 UTF-16 code units, both ends included.
  */
  lemma CreateDisputeDescriptionBounds(q: CreateDisputeRequest, d: string)
    requires ValidCreateDispute(q)
    ensures ParseCreateDispute(q.(description := Present(d))).Success?
            <==> 10 <= Utf16Length(d) <= 2000
  {
    CreateDisputeAcceptance(q.(description := Present(d)));
  }

  // ---------------------------------------------------------------- update

  /** The body of an update-dispute request. */
  datatype UpdateDisputeRequest = UpdateDisputeRequest(
    disputeId: Field<string>,
    status: Field<string>,
    assignedTo: Field<string>,
    resolutionDecision: Field<string>,
    resolutionNotes: Field<string>,
    resolutionAction: Field<string>)

  /** The parsed `UpdateDisputeInput`. */
  datatype UpdateDisputeInput = UpdateDisputeInput(
    disputeId: string,
    status: Opt<DisputeStatus>,
    assignedTo: Opt<Option<string>>,
    resolutionDecision: Opt<Option<string>>,
    resolutionNotes: Opt<Option<string>>,
    resolutionAction: Opt<Option<string>>)

  predicate ValidUpdateDispute(q: UpdateDisputeRequest)
  {
    && q.disputeId.Present?
    && (q.status.Missing? || (q.status.Present? && q.status.value in DisputeStatusNames))
  }

  function UnparseUpdateDispute(p: UpdateDisputeInput): UpdateDisputeRequest
  {
    UpdateDisputeRequest(
      Present(p.disputeId),
      match p.status { case Absent => Missing case Given(s) => Present(s.Name()) },
      NullableOptionalField(p.assignedTo), NullableOptionalField(p.resolutionDecision),
      NullableOptionalField(p.resolutionNotes), NullableOptionalField(p.resolutionAction))
  }

  /** `updateDisputeInputSchema.safeParse`: every key but `dispute_id` may be left out. */
  function ParseUpdateDispute(q: UpdateDisputeRequest): Result<UpdateDisputeInput, seq<Issue>>
  {
    var disputeId := Str(q.disputeId);
    var status := Optional(q.status, Enum(q.status, ParseDisputeStatus));
    var assignedTo := NullableOptional(q.assignedTo, Str(q.assignedTo));
    var resolutionDecision := NullableOptional(q.resolutionDecision, Str(q.resolutionDecision));
    var resolutionNotes := NullableOptional(q.resolutionNotes, Str(q.resolutionNotes));
    var resolutionAction := NullableOptional(q.resolutionAction, Str(q.resolutionAction));
    if && disputeId.Ok? && status.Ok? && assignedTo.Ok? && resolutionDecision.Ok?
       && resolutionNotes.Ok? && resolutionAction.Ok?
    then
      Success(UpdateDisputeInput(
        disputeId.value, status.value, assignedTo.value, resolutionDecision.value,
        resolutionNotes.value, resolutionAction.value))
    else
      Failure(Gather(
        Key("dispute_id", Codes(disputeId),
        Key("status", Codes(status),
        Key("assigned_to", Codes(assignedTo),
        Key("resolution_decision", Codes(resolutionDecision),
        Key("resolution_notes", Codes(resolutionNotes),
        Key("resolution_action", Codes(resolutionAction),
        Done))))))))
  }

  /** A body is accepted exactly when it is valid. */
  lemma UpdateDisputeAcceptance(q: UpdateDisputeRequest)
    ensures ParseUpdateDispute(q).Success? <==> ValidUpdateDispute(q)
  {
  }

  /** An accepted body parses to an input that carries exactly the body's values. */
  lemma UpdateDisputeOutput(q: UpdateDisputeRequest)
    requires ParseUpdateDispute(q).Success?
    ensures UnparseUpdateDispute(ParseUpdateDispute(q).value) == q
  {
  }

  /** Different inputs send different bodies. */
  lemma UnparseUpdateDisputeInjective(a: UpdateDisputeInput, b: UpdateDisputeInput)
    requires UnparseUpdateDispute(a) == UnparseUpdateDispute(b)
    ensures a == b
  {
    if a.status.Given? && b.status.Given? {
      DisputeStatusNameRoundTrip(a.status.value);
      DisputeStatusNameRoundTrip(b.status.value);
    }
  }

  /** Parsing the body that a parsed input would send gives back that input. */
  lemma UpdateDisputeRoundTrip(p: UpdateDisputeInput)
    ensures ParseUpdateDispute(UnparseUpdateDispute(p)) == Success(p)
  {
    var q := UnparseUpdateDispute(p);
    if p.status.Given? {
      DisputeStatusNameRoundTrip(p.status.value);
    }
    assert ValidUpdateDispute(q);
    UpdateDisputeAcceptance(q);
    UpdateDisputeOutput(q);
    UnparseUpdateDisputeInjective(ParseUpdateDispute(q).value, p);
  }

  /**
    Any dispute status, `closed` included, passes the update schema with nothing
    else in the body: resolving needs no decision and reopening is not refused.
  */
  lemma UpdateDisputeAcceptsEveryStatus(id: string, s: DisputeStatus)
    ensures ParseUpdateDispute(UpdateDisputeRequest(Present(id), Present(s.Name()), Missing, Missing, Missing, Missing))
            == Success(UpdateDisputeInput(id, Given(s), Absent, Absent, Absent, Absent))
  {
    DisputeStatusNameRoundTrip(s);
  }
}
