# Procurement API input schemas, modelled in Dafny

This project models the input-validation layer of a B2B procurement marketplace
backend. Every create, update or search request for the marketplace's entities
is parsed with a zod object schema before it reaches the database. The model covers:

- RFQs: create, update and search.
- Quotes, orders, reviews and disputes: create and update.
- The vendor-profile `primary_color` key.
- The currency create and update schemas.

Each schema decides whether a JSON body is accepted, what a missing key
defaults to, and what typed value the handler receives.

## How the model reads a schema

- **Bodies.** A request body is a record with one `Field` per key
  (`Zod.Field`). A field is `Missing` (the key was left out), `Null`, or
  `Present(v)`, where `v` has the key's JSON type. Strings are `string`,
  numbers are `real` and booleans are `bool`.
  - A `z.coerce.date()` key holds the outcome of `new Date(v)`, a
    `Zod.DateCoercion`.
- **Leaves.** Each zod leaf and wrapper is a function in module `Zod`.
  - Every leaf returns a `Check`: either the parsed value, or the issue codes
    zod raises, in zod's order.
  - `.nullable()` accepts `null` first and `.optional()` accepts a missing key
    first.
  - `.default(v)` replaces only a missing key; an explicit `null` still reaches
    the inner schema.
- **Schemas.** Each schema `X` has these parts:
  - a request datatype `XRequest` and a parsed datatype `XInput`;
  - `ValidX`, a key-by-key statement of the bodies the schema accepts;
  - `ApplyXDefaults` for the `.default(...)` keys;
  - `ParseX`, the schema's `safeParse`: it runs every key's check in
    declaration order and either returns the parsed input or gathers the issues
    of every failing key;
  - `UnparseX`, the body that sends exactly a parsed input's values.

  Three lemmas tie the parts together:
  - `XAcceptance`: a body is accepted exactly when `ValidX` holds.
  - `XOutput`: an accepted body yields a well-formed input whose values are
    the body's, after defaults and coercions.
  - `XRoundTrip`: parsing the body of a well-formed input returns that input.
- **Enums.** Each `z.enum([...])` is a closed datatype with its spellings
  (`Name`), a parser, and a name round-trip lemma.
- **Strings.** JavaScript string length counts UTF-16 code units, so every
  `.min`, `.max` and `.length` bound is stated on `JsString.Utf16Length`, not
  on the character count.
- **No lifecycle rules.** The update schemas restrict `status` only to a closed
  set of names. Nothing in them looks at the stored entity. So the model makes
  no claim about legal status transitions, accept-quote atomicity, review
  gating or duplicate disputes. The `…AcceptsEveryStatus` lemmas state the
  opposite explicitly: every status passes with nothing else in the body.
- **Currency code.** `ParseCreateCurrency` and `ParseUpdateCurrency` run
  `z.string().length(3).toUpperCase()` as written: the length is measured
  before upper-casing. `ParseCreateCurrencyIntended` and
  `ParseUpdateCurrencyIntended` upper-case first. The two readings share every
  other key (`CreateCurrencyWithCode`, `UpdateCurrencyWithCode`); see Findings.

Modules:

| module | file |
|---|---|
| `Wrappers` | wrappers.dfy |
| `JsString` | jsstring.dfy |
| `Regex` | regex.dfy |
| `Zod` | zod.dfy |
| `Rfq` | rfq.dfy |
| `Quote` | quote.dfy |
| `Order` | order.dfy |
| `Review` | review.dfy |
| `Dispute` | dispute.dfy |
| `Vendor` | vendor.dfy |
| `Currency` | currency.dfy |

## Model

| member | source | states |
|---|---|---|
| Zod.Str | backend/schema.ts:694 | `z.string()` accepts exactly a present string and returns it unchanged |
| Zod.StrMax | backend/schema.ts:700 | `z.string().max(n)` accepts exactly a present string of at most n UTF-16 code units, and returns it unchanged |
| Zod.StrMinMax | backend/schema.ts:1037 | `z.string().min(lo).max(hi)` accepts exactly a present string whose UTF-16 length is between lo and hi inclusive |
| Zod.StrLength | backend/schema.ts:762 | `z.string().length(n)` accepts exactly a present string of n UTF-16 code units |
| Zod.StrRegex | backend/schema.ts:566 | `z.string().regex(p)` accepts exactly a present string the anchored pattern matches |
| Zod.Number | backend/schema.ts:920 | `z.number()` with `.positive()`, `.nonnegative()`, `.min`, `.max` accepts exactly a present number inside every bound, and returns it |
| Zod.Integer | backend/schema.ts:697 | `z.number().int()` with a lower bound accepts exactly a present whole number passing the bound, and returns that integer |
| Zod.Boolean | backend/schema.ts:926 | `z.boolean()` accepts exactly a present boolean |
| Zod.Enum | backend/schema.ts:701 | `z.enum([...])` accepts exactly a present spelling the enum's parser knows, and returns that enum value |
| Zod.CoerceDate | backend/schema.ts:769 | `z.coerce.date()` accepts `null` (as the epoch) or a value that makes a valid Date; a missing key or an Invalid Date is rejected |
| Zod.Nullable | backend/schema.ts:695 | `.nullable()` accepts `null` as `None` whatever the inner schema says; otherwise it passes on the inner result |
| Zod.Optional | backend/schema.ts:707 | `.optional()` accepts a missing key as absent; otherwise it passes on the inner result |
| Zod.NullableOptional | backend/schema.ts:709 | `.nullable().optional()` accepts a missing key, then `null`, and otherwise passes on the inner result |
| Zod.Default | backend/schema.ts:701 | `.default(v)` replaces a missing key by `v`, and hands `null` and present values to the inner schema unchanged |
| JsString.Utf16LengthBounds | backend/schema.ts:700 | a string's JavaScript length is between its character count and twice that |
| JsString.Utf16LengthOfBmp | backend/schema.ts:700 | JavaScript length equals character count exactly when no character is outside the Basic Multilingual Plane |
| JsString.ToUpperCaseIsUpperCase | backend/schema.ts:1202 | whatever `toUpperCase` returns is all upper case |
| JsString.ToUpperCaseIdempotent | backend/schema.ts:1202 | upper-casing twice gives the same string as upper-casing once |
| JsString.ToUpperCaseLength | backend/schema.ts:1202 | on Latin-1 text, upper-casing adds one code unit per sharp s and keeps every other character's length |
| JsString.ToUpperCaseKeepsLengthIff | backend/schema.ts:1202 | on Latin-1 text, upper-casing keeps the JavaScript length exactly when the string has no sharp s |
| Regex.MatchesPiece | backend/schema.ts:566 | a pattern starting with `atom{k}` matches exactly when the first k characters match the atom and the rest matches the remaining pattern |
| Rfq.ParseRfqStatus | backend/schema.ts:701 | a status spelling is accepted exactly when it is one of draft, active, closed, cancelled, and parses to the value of that name |
| Rfq.RfqStatusNameRoundTrip | backend/schema.ts:701 | every RFQ status's spelling is in the enum and parses back to that status |
| Rfq.ParseRfqSortKey | backend/schema.ts:725 | `sort_by` accepts exactly created_at, expires_at, rfq_number |
| Rfq.ParseSortOrder | backend/schema.ts:726 | `sort_order` accepts exactly asc, desc |
| Rfq.ApplyCreateRfqDefaults | backend/schema.ts:701 | a missing `status` becomes `draft`, a given one is kept, no other key changes, and filling defaults does not change which bodies are valid |
| Rfq.ParseCreateRfq | backend/schema.ts:693-703 | `createRfqInputSchema.safeParse`: every key checked in declaration order, the typed input or every failing key's issues; which bodies it accepts and what it returns are stated by Rfq.CreateRfqAcceptance and Rfq.CreateRfqOutput |
| Rfq.CreateRfqAcceptance | backend/schema.ts:693-703 | a create-RFQ body is accepted exactly when ids are strings, `organization_id` is a string or null, `quantity` is a positive integer, both dates are null or valid, `notes` is null or at most 2000 code units, and `status` is missing or one of the four names |
| Rfq.CreateRfqOutput | backend/schema.ts:693-703 | an accepted create-RFQ body yields a positive quantity and bounded notes, carrying exactly the body's values with `status` defaulted |
| Rfq.CreateRfqRoundTrip | backend/schema.ts:693-703 | parsing the body a well-formed create-RFQ input would send gives back that input |
| Rfq.CreateRfqStatusDefaultsToDraft | backend/schema.ts:701 | a valid create-RFQ body without `status` creates a draft |
| Rfq.ParseUpdateRfq | backend/schema.ts:705-714 | `updateRfqInputSchema.safeParse`: every key checked in declaration order, the typed input or every failing key's issues; which bodies it accepts and what it returns are stated by Rfq.UpdateRfqAcceptance and Rfq.UpdateRfqOutput |
| Rfq.UpdateRfqAcceptance | backend/schema.ts:705-714 | an update-RFQ body is accepted exactly when `rfq_id` is a string and `quantity` is missing or a positive integer, the dates are missing, null or valid, `notes` is missing, null or at most 2000 code units, and `status` is missing or one of the four names |
| Rfq.UpdateRfqOutput | backend/schema.ts:705-714 | an accepted update-RFQ body yields an input that sends back exactly that body |
| Rfq.UpdateRfqRoundTrip | backend/schema.ts:705-714 | parsing the body of a well-formed update-RFQ input gives back that input |
| Rfq.UpdateRfqAcceptsEveryStatus | backend/schema.ts:711 | every RFQ status is accepted as an update with nothing else in the body: no from-state check |
| Rfq.ApplySearchRfqDefaults | backend/schema.ts:723-726 | missing `limit`, `offset`, `sort_by`, `sort_order` become 20, 0, created_at, desc; given ones are kept, no other key changes, and validity is unchanged |
| Rfq.ParseSearchRfq | backend/schema.ts:716-727 | `searchRfqInputSchema.safeParse`: every key checked in declaration order, the typed input or every failing key's issues; which bodies it accepts and what it returns are stated by Rfq.SearchRfqAcceptance and Rfq.SearchRfqOutput |
| Rfq.SearchRfqAcceptance | backend/schema.ts:716-727 | a search-RFQ query is accepted exactly when each filter is missing or well typed, dates coerce, `limit` is a positive and `offset` a non-negative integer, and the sort keys are known |
| Rfq.SearchRfqOutput | backend/schema.ts:716-727 | an accepted query yields a positive limit and non-negative offset and carries the query's values, with defaults filled and a null date bound read as the epoch |
| Rfq.SearchRfqRoundTrip | backend/schema.ts:716-727 | parsing the query of a well-formed search input gives back that input |
| Rfq.SearchRfqEmptyQuery | backend/schema.ts:723-726 | the empty query reads 20 RFQs from offset 0 by creation time, newest first |
| Quote.ParsePaymentTerms | backend/schema.ts:768 | `payment_terms` accepts exactly cod, net_30, net_60, prepaid |
| Quote.ParseQuoteStatus | backend/schema.ts:784 | a quote status is accepted exactly when it is submitted, accepted, declined or expired |
| Quote.ApplyCreateQuoteDefaults | backend/schema.ts:762-768 | a missing `currency` becomes USD and a missing `payment_terms` becomes cod; given ones are kept, no other key changes, and validity is unchanged |
| Quote.ParseCreateQuote | backend/schema.ts:758-771 | `createQuoteInputSchema.safeParse`: every key checked in declaration order, the typed input or every failing key's issues; which bodies it accepts and what it returns are stated by Quote.CreateQuoteAcceptance and Quote.CreateQuoteOutput |
| Quote.CreateQuoteAcceptance | backend/schema.ts:758-771 | a create-quote body is accepted exactly when price > 0, currency is missing or 3 code units, `quantity_available` a positive integer, min/max quantities null or positive integers, fee null or ≥ 0, lead time a non-negative integer, terms known, `valid_until` coerces, notes null or ≤ 2000 |
| Quote.CreateQuoteOutput | backend/schema.ts:758-771 | an accepted create-quote body yields a well-formed input carrying the body's values, defaults filled and a null deadline read as the epoch |
| Quote.CreateQuoteRoundTrip | backend/schema.ts:758-771 | parsing the body of a well-formed create-quote input gives back that input |
| Quote.CreateQuoteDefaults | backend/schema.ts:762-768 | a valid quote without `currency` is in USD and without `payment_terms` is cod |
| Quote.CreateQuoteNullDeadlineIsEpoch | backend/schema.ts:769 | a `null` `valid_until` is not rejected: it parses as 1970-01-01T00:00:00Z |
| Quote.CreateQuoteAcceptsMinAboveMax | backend/schema.ts:764-765 | the minimum and maximum order quantities are never compared: min 10 with max 5 is accepted |
| Quote.ParseUpdateQuote | backend/schema.ts:773-785 | `updateQuoteInputSchema.safeParse`: every key checked in declaration order, the typed input or every failing key's issues; which bodies it accepts and what it returns are stated by Quote.UpdateQuoteAcceptance and Quote.UpdateQuoteOutput |
| Quote.UpdateQuoteAcceptance | backend/schema.ts:773-785 | an update-quote body is accepted exactly when `quote_id` is a string and every other key is missing or meets its bound |
| Quote.UpdateQuoteOutput | backend/schema.ts:773-785 | an accepted update-quote body yields a well-formed input carrying the body's values, a null deadline read as the epoch |
| Quote.UpdateQuoteRoundTrip | backend/schema.ts:773-785 | parsing the body of a well-formed update-quote input gives back that input |
| Quote.UpdateQuoteAcceptsEveryStatus | backend/schema.ts:784 | every quote status, accepted included, passes the update schema with nothing else in the body |
| Order.ParsePaymentMethod | backend/schema.ts:848 | `payment_method` accepts exactly cod, prepaid, credit |
| Order.ParseOrderStatus | backend/schema.ts:853-862 | an order status is accepted exactly when it is one of the eight names |
| Order.ApplyCreateOrderDefaults | backend/schema.ts:844-848 | a missing `currency` becomes USD and a missing `payment_method` becomes cod; given ones are kept, no other key changes, and validity is unchanged |
| Order.ParseCreateOrder | backend/schema.ts:835-849 | `createOrderInputSchema.safeParse`: every key checked in declaration order, the typed input or every failing key's issues; which bodies it accepts and what it returns are stated by Order.CreateOrderAcceptance and Order.CreateOrderOutput |
| Order.CreateOrderAcceptance | backend/schema.ts:835-849 | a create-order body is accepted exactly when the ids are strings (organization may be null), quantity is a positive integer, unit price > 0, currency missing or 3 code units, fee null or ≥ 0, the delivery date null or valid, and the payment method known |
| Order.CreateOrderOutput | backend/schema.ts:835-849 | an accepted create-order body yields a well-formed input carrying the body's values with defaults filled |
| Order.CreateOrderRoundTrip | backend/schema.ts:835-849 | parsing the body of a well-formed create-order input gives back that input |
| Order.CreateOrderDefaults | backend/schema.ts:844-848 | a valid order without `currency` is in USD and without `payment_method` is cod |
| Order.ParseUpdateOrder | backend/schema.ts:851-866 | `updateOrderInputSchema.safeParse`: every key checked in declaration order, the typed input or every failing key's issues; which bodies it accepts and what it returns are stated by Order.UpdateOrderAcceptance and Order.UpdateOrderOutput |
| Order.UpdateOrderAcceptance | backend/schema.ts:851-866 | an update-order body is accepted exactly when `order_id` is a string, `status` is missing or one of the eight names, and the delivery date is missing, null or valid |
| Order.UpdateOrderOutput | backend/schema.ts:851-866 | an accepted update-order body yields an input that sends back exactly that body |
| Order.UpdateOrderRoundTrip | backend/schema.ts:851-866 | parsing the body of any update-order input gives back that input |
| Order.UpdateOrderStatusAcceptedIff | backend/schema.ts:853-862 | in a valid update body, a `status` is accepted exactly when it is one of the eight names, and leaving it out is accepted |
| Order.UpdateOrderAcceptsEveryStatus | backend/schema.ts:853-862 | every order status, delivered and cancelled included, passes with nothing else in the body |
| Review.ParseReviewStatus | backend/schema.ts:933 | a review status is accepted exactly when it is published, hidden or flagged |
| Review.Rating | backend/schema.ts:920 | a rating is accepted exactly when it is a present number in [1, 5] |
| Review.ApplyCreateReviewDefaults | backend/schema.ts:926 | a missing `is_anonymous` becomes false; a given one is kept, no other key changes, and validity is unchanged |
| Review.ParseCreateReview | backend/schema.ts:916-927 | `createReviewInputSchema.safeParse`: every key checked in declaration order, the typed input or every failing key's issues; which bodies it accepts and what it returns are stated by Review.CreateReviewAcceptance and Review.CreateReviewOutput |
| Review.CreateReviewAcceptance | backend/schema.ts:916-927 | a create-review body is accepted exactly when the ids are strings, the overall rating is in [1, 5], each sub-rating is null or in [1, 5], the text is null or ≤ 2000, and `is_anonymous` is not null |
| Review.CreateReviewOutput | backend/schema.ts:916-927 | an accepted create-review body yields ratings within bounds and carries the body's values with the default filled |
| Review.CreateReviewRoundTrip | backend/schema.ts:916-927 | parsing the body of a well-formed create-review input gives back that input |
| Review.CreateReviewAnonymityDefault | backend/schema.ts:926 | leaving out `is_anonymous` parses like sending false, so the review is not anonymous; sending null is rejected |
| Review.ParseUpdateReview | backend/schema.ts:929-935 | `updateReviewInputSchema.safeParse`: every key checked in declaration order, the typed input or every failing key's issues; which bodies it accepts and what it returns are stated by Review.UpdateReviewAcceptance and Review.UpdateReviewOutput |
| Review.UpdateReviewAcceptance | backend/schema.ts:929-935 | an update-review body is accepted exactly when `review_id` is a string, the texts are missing, null or ≤ 2000, and `status` is missing or known |
| Review.UpdateReviewOutput | backend/schema.ts:929-935 | an accepted update-review body yields an input that sends back exactly that body |
| Review.UpdateReviewRoundTrip | backend/schema.ts:929-935 | parsing the body of a well-formed update-review input gives back that input |
| Review.UpdateReviewHidesWithoutReason | backend/schema.ts:933-934 | `status: hidden` is accepted without a `hidden_reason` |
| Dispute.ParseIssueType | backend/schema.ts:1036 | `issue_type` accepts exactly quality_issue, delivery_issue, pricing_issue, other |
| Dispute.ParseDisputeStatus | backend/schema.ts:1043 | a dispute status is accepted exactly when it is open, investigating, resolved or closed |
| Dispute.ParseCreateDispute | backend/schema.ts:1033-1039 | `createDisputeInputSchema.safeParse`: every key checked in declaration order, the typed input or every failing key's issues; which bodies it accepts and what it returns are stated by Dispute.CreateDisputeAcceptance and Dispute.CreateDisputeOutput |
| Dispute.CreateDisputeAcceptance | backend/schema.ts:1033-1039 | a create-dispute body is accepted exactly when the ids are strings, the issue type is known, the description has 10 to 2000 code units, and the preferred resolution is null or ≤ 1000 |
| Dispute.CreateDisputeOutput | backend/schema.ts:1033-1039 | an accepted create-dispute body yields bounded texts and sends back exactly that body |
| Dispute.CreateDisputeRoundTrip | backend/schema.ts:1033-1039 | parsing the body of a well-formed create-dispute input gives back that input |
| Dispute.CreateDisputeDescriptionBounds | backend/schema.ts:1037 | in an otherwise valid body, a description is accepted exactly when its length is from 10 to 2000, both inclusive |
| Dispute.ParseUpdateDispute | backend/schema.ts:1041-1048 | `updateDisputeInputSchema.safeParse`: every key checked in declaration order, the typed input or every failing key's issues; which bodies it accepts and what it returns are stated by Dispute.UpdateDisputeAcceptance and Dispute.UpdateDisputeOutput |
| Dispute.UpdateDisputeAcceptance | backend/schema.ts:1041-1048 | an update-dispute body is accepted exactly when `dispute_id` is a string and `status` is missing or known |
| Dispute.UpdateDisputeOutput | backend/schema.ts:1041-1048 | an accepted update-dispute body yields an input that sends back exactly that body |
| Dispute.UpdateDisputeRoundTrip | backend/schema.ts:1041-1048 | parsing the body of any update-dispute input gives back that input |
| Dispute.UpdateDisputeAcceptsEveryStatus | backend/schema.ts:1043 | every dispute status, closed included, passes with nothing else in the body |
| Vendor.HexDigitClassMatches | backend/schema.ts:566 | the class `[0-9A-Fa-f]` matches exactly the hexadecimal digits |
| Vendor.HexColorPatternMatches | backend/schema.ts:566 | `^#[0-9A-Fa-f]{6}$` matches exactly `#` followed by six hexadecimal digits, seven characters in all |
| Vendor.Utf16LengthOfHexColor | backend/schema.ts:566 | an accepted colour is seven UTF-16 code units long |
| Vendor.PrimaryColor | backend/schema.ts:566 | a create-profile `primary_color` is accepted exactly when it is null or a `#` plus six hex digits, and a given colour has length 7 |
| Vendor.PrimaryColorUpdate | backend/schema.ts:585 | an update-profile `primary_color` is accepted exactly when it is missing, null, or a `#` plus six hex digits |
| Currency.CurrencyCodeAsWritten | backend/schema.ts:1202 | as written, a code is accepted exactly when the input has 3 code units, and is returned upper-cased |
| Currency.CurrencyCodeAsWrittenAcceptsFourLetters | backend/schema.ts:1202 | as written, `ßab` is accepted and becomes `SSAB`, four code units long |
| Currency.CurrencyCode | backend/schema.ts:1202 | upper-casing first: a code is accepted exactly when its upper-case form has 3 code units, and the result is that upper-case form, all upper case and 3 long |
| Currency.CurrencyCodeIdempotent | backend/schema.ts:1202 | normalising an accepted code again returns it unchanged |
| Currency.CurrencyCodeFixedPoints | backend/schema.ts:1202 | the codes returned unchanged are exactly the upper-case three-unit strings |
| Currency.CurrencyCodeAgreesWithoutSharpS | backend/schema.ts:1202 | for Latin-1 input without a sharp s, the written and the corrected code checks agree |
| Currency.CurrencyCodeAsWrittenOverlongHasSharpS | backend/schema.ts:1202 | every Latin-1 code the written order accepts and the corrected order refuses contains a sharp s |
| Currency.UpperCaseCodePassesBoth | backend/schema.ts:1202 | a code of three upper-case code units passes both orders and comes back unchanged |
| Currency.ApplyCreateCurrencyDefaults | backend/schema.ts:1206 | a missing `is_active` becomes true, a given one is kept, no other key changes, and validity is unchanged |
| Currency.ParseCreateCurrency | backend/schema.ts:1201-1207 | `createCurrencyInputSchema.safeParse` as written, with the code measured before it is upper-cased; stated by Currency.CreateCurrencyAcceptance and Currency.CreateCurrencyOutput |
| Currency.CreateCurrencyAcceptance | backend/schema.ts:1201-1207 | a create-currency body is accepted exactly when the code has 3 code units as sent, the name has 1 to 100 and the symbol 1 to 10 code units, the rate is > 0, and `is_active` is not null |
| Currency.CreateCurrencyOutput | backend/schema.ts:1201-1207 | an accepted create-currency body yields its own values with the code upper-cased and `is_active` defaulted; the result has a 3-unit code exactly when the upper-cased code is still 3 units long |
| Currency.CreateCurrencyRoundTrip | backend/schema.ts:1201-1207 | parsing the body of a well-formed create-currency input gives back that input |
| Currency.CreateCurrencyStoresFourLetterCode | backend/schema.ts:1202 | the schema as written accepts a body with code `ßab` and stores `SSAB`, an input that is not well formed; the corrected schema refuses that body |
| Currency.ParseCreateCurrencyIntended | backend/schema.ts:1201-1207 | the create-currency schema with the code upper-cased before its length is checked; stated by Currency.CreateCurrencyIntendedAcceptance and Currency.CreateCurrencyIntendedOutput |
| Currency.CreateCurrencyIntendedAcceptance | backend/schema.ts:1201-1207 | with the corrected code check, a body is accepted exactly when the upper-cased code has 3 code units and the other keys are as the schema requires |
| Currency.CreateCurrencyIntendedOutput | backend/schema.ts:1201-1207 | with the corrected code check, every accepted body yields a well-formed input: a 3-unit upper-case code and bounded fields |
| Currency.CreateCurrencyIntendedRoundTrip | backend/schema.ts:1201-1207 | with the corrected code check, parsing the body of a well-formed input gives back that input |
| Currency.CreateCurrencyReadingsAgree | backend/schema.ts:1201-1207 | for a Latin-1 code without a sharp s, the schema as written and the corrected schema parse a body alike |
| Currency.ParseUpdateCurrency | backend/schema.ts:1209-1213 | `updateCurrencyInputSchema.safeParse` as written; stated by Currency.UpdateCurrencyAcceptance and Currency.UpdateCurrencyOutput |
| Currency.UpdateCurrencyAcceptance | backend/schema.ts:1209-1213 | an update-currency body is accepted exactly when the code has 3 code units as sent, the rate is missing or > 0, and `is_active` is missing or a boolean |
| Currency.UpdateCurrencyOutput | backend/schema.ts:1209-1213 | an accepted update-currency body yields its own values with the code upper-cased; the result has a 3-unit code exactly when the upper-cased code is still 3 units long |
| Currency.UpdateCurrencyRoundTrip | backend/schema.ts:1209-1213 | parsing the body of a well-formed update-currency input gives back that input |
| Currency.UpdateCurrencyStoresFourLetterCode | backend/schema.ts:1210 | the update schema as written accepts the code `ßab` and stores `SSAB`; the corrected schema refuses it |
| Currency.ParseUpdateCurrencyIntended | backend/schema.ts:1209-1213 | the update-currency schema with the code upper-cased before its length is checked; stated by Currency.UpdateCurrencyIntendedAcceptance and Currency.UpdateCurrencyIntendedOutput |
| Currency.UpdateCurrencyIntendedAcceptance | backend/schema.ts:1209-1213 | with the corrected code check, an update is accepted exactly when the upper-cased code has 3 code units, the rate is missing or > 0, and `is_active` is missing or a boolean |
| Currency.UpdateCurrencyIntendedOutput | backend/schema.ts:1209-1213 | with the corrected code check, every accepted update yields a 3-unit upper-case code and a positive rate when one is given |
| Currency.UpdateCurrencyIntendedRoundTrip | backend/schema.ts:1209-1213 | with the corrected code check, parsing the body of a well-formed update gives back that input |
| Currency.UpdateCurrencyReadingsAgree | backend/schema.ts:1209-1213 | for a Latin-1 code without a sharp s, both readings of the update schema parse a body alike |

## Left out

- backend/initdb.js: database pool setup, file reading and transaction I/O.
  There is no validation logic in it.
- vitereact/src/__tests__/auth.e2e.test.tsx: UI rendering against a live API.
- The other schemas in backend/schema.ts: users, organisations, catalogue,
  vendor offers, searches other than RFQ search, and notifications.
  - Of the vendor-profile schemas only `primary_color` is modelled.
  - `.email()`, `.url()` and `z.record(...)` are left out. Their
    implementations live in the zod library.
- The output/entity schemas (`rfqSchema`, `orderSchema`, …). They describe
  stored rows and constrain nothing.
- Date parsing: how JavaScript turns a string or number into a Date is a
  parameter of the model. Each date key carries the outcome, a valid instant or
  an Invalid Date.
- JavaScript numbers are modelled as `real`:
  - NaN is left out; JSON cannot carry it.
  - ±Infinity is left out, because a `real` has no infinite value. `JSON.parse`
    reads an overflowing literal such as `1e400` as Infinity. zod 3's
    `z.number()` accepts it unless `.finite()` is chained, so `price_per_unit`,
    `unit_price`, `delivery_fee` and `exchange_rate_to_base` accept it, while
    `.int()` refuses it.
  - Rounding is left out; the schemas only compare numbers against bounds.
- A value of the wrong JSON type (a number where a string is expected, say)
  is not modelled: a `Field` holds only a value of its key's type. zod rejects
  such a value with `invalid_type` even on an `.optional()` or `.default(...)`
  key, where a missing key is accepted. No contract states those rejections.
- Lone surrogates: a JSON string such as `"\ud800"` is a JavaScript string of
  length 1 holding a lone surrogate. A Dafny `char` is a Unicode scalar value
  and cannot hold one, so such strings are outside the model.
- Keys the schema does not declare are dropped by zod's default object mode.
  The request datatypes have no room for them.
- Issue lists: a rejection's issues are built as zod builds them, key by key in
  schema order. No contract states their contents. The `…Acceptance` lemmas
  state only which bodies are accepted.
- JsString.UpperChar: upper-casing covers Basic Latin and the Latin-1
  Supplement, including ß → SS, µ → Μ and ÿ → Ÿ. Every other character is left
  as it is. So mappings outside Latin-1 are not modelled, among them those that
  change the length: ŉ → ʼN and ligatures such as ﬀ → FF.
- JsString.ToUpperCaseLength: stated for Latin-1 text only (`JsString.IsLatin1`),
  because outside it ŉ and the ligatures also grow.
- JsString.ToUpperCaseKeepsLengthIff: stated for Latin-1 text only, for the same
  reason.
- Currency.CurrencyCodeAgreesWithoutSharpS: stated for Latin-1 codes only; the
  two orders also disagree on `"ﬀa"`, which has no sharp s.
- Currency.CurrencyCodeAsWrittenOverlongHasSharpS: stated for Latin-1 codes
  only; `"ŉab"` passes the written order, grows to four units and has no sharp s.
- Currency.CreateCurrencyReadingsAgree and Currency.UpdateCurrencyReadingsAgree:
  stated for Latin-1 codes only, for the same reason.

## Findings

| source | as written | input that shows it | evidently intended | confidence | as-written member | corrected member |
|---|---|---|---|---|---|---|
| backend/schema.ts:1202 and 1210 | `z.string().length(3).toUpperCase()` checks the length before upper-casing | `"ßab"` has 3 code units and is accepted, then becomes `"SSAB"`, 4 code units; outside the modelled case table `"ŉab"` (→ `"ʼNAB"`) does the same | every stored currency code is three upper-case characters: upper-case first, then check the length | high for the check order zod documents; not executed | Currency.CurrencyCodeAsWritten, Currency.CurrencyCodeAsWrittenAcceptsFourLetters, Currency.ParseCreateCurrency, Currency.CreateCurrencyStoresFourLetterCode, Currency.UpdateCurrencyStoresFourLetterCode | Currency.CurrencyCode, Currency.CurrencyCodeIdempotent, Currency.CreateCurrencyIntendedOutput, Currency.UpdateCurrencyIntendedOutput |
