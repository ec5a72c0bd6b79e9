/**
  The currency input schemas: `createCurrencyInputSchema` and
  `updateCurrencyInputSchema`, and their `currency_code` key.
*/
module Currency {
  import opened Wrappers
  import opened JsString
  import opened Zod

  // ---------------------------------------------------------------- currency code

  /**
    `z.string().length(3).toUpperCase()` as written: zod runs the checks and the
    transform in the order they are chained, so the length is measured before the
    code is upper-cased.
  */
  function CurrencyCodeAsWritten(f: Field<string>): (r: Check<string>)
    ensures r.Ok? <==> f.Present? && Utf16Length(f.value) == 3
    ensures r.Ok? ==> IsUpperCase(r.value) && r.value == ToUpperCase(f.value)
  {
    match StrLength(f, 3)
    case Ok(s) =>
      ToUpperCaseIsUpperCase(s);
      Ok(ToUpperCase(s))
    case Bad(c, m) => Bad(c, m)
  }

  /**
    The order of the chain lets a three-character code through whose upper-case
    form is four characters long: `ßab` becomes `SSAB`.
  */
  lemma CurrencyCodeAsWrittenAcceptsFourLetters()
    ensures CurrencyCodeAsWritten(Present([SharpS, 'a', 'b'])) == Ok("SSAB")
    ensures Utf16Length("SSAB") == 4
  {
    var code := [SharpS, 'a', 'b'];
    assert code[1..] == ['a', 'b'] && code[1..][1..] == ['b'] && code[1..][1..][1..] == [];
    assert Utf16Length(code[1..][1..]) == 1 && Utf16Length(code[1..]) == 2;
    assert ToUpperCase(code[1..][1..]) == "B" && ToUpperCase(code[1..]) == "AB";
    assert ToUpperCase(code) == "SS" + "AB" == "SSAB";
    assert StrLength(Present(code), 3) == Ok(code);
  }

  /**
    The currency code as evidently intended: upper-cased first, then required to be
    three code units long, so that every accepted code is three upper-case
    characters.
  */
  function CurrencyCode(f: Field<string>): (r: Check<string>)
    ensures r.Ok? <==> f.Present? && Utf16Length(ToUpperCase(f.value)) == 3
    ensures r.Ok? ==> r.value == ToUpperCase(f.value)
    ensures r.Ok? ==> IsUpperCase(r.value) && Utf16Length(r.value) == 3
  {
    match f
    case Present(s) =>
      ToUpperCaseIsUpperCase(s);
      StrLength(Present(ToUpperCase(s)), 3)
    case _ => Bad(InvalidType, [])
  }

  /** Normalising an accepted code again accepts it unchanged. */
  lemma CurrencyCodeIdempotent(f: Field<string>)
    requires CurrencyCode(f).Ok?
    ensures CurrencyCode(Present(CurrencyCode(f).value)) == CurrencyCode(f)
  {
    ToUpperCaseIdempotent(f.value);
  }

  /** The upper-case three-letter codes are exactly the values the check returns unchanged. */
  lemma CurrencyCodeFixedPoints(s: string)
    ensures CurrencyCode(Present(s)) == Ok(s) <==> IsUpperCase(s) && Utf16Length(s) == 3
  {
    if IsUpperCase(s) {
      ToUpperCaseOfUpperCase(s);
    }
  }

  /** On Latin-1 text without a sharp s the chain order makes no difference. */
  lemma CurrencyCodeAgreesWithoutSharpS(f: Field<string>)
    requires f.Present? ==> IsLatin1(f.value) && forall i :: 0 <= i < |f.value| ==> f.value[i] != SharpS
    ensures CurrencyCode(f) == CurrencyCodeAsWritten(f)
  {
    if f.Present? {
      ToUpperCaseKeepsLengthIff(f.value);
    }
  }

  /**
    Any Latin-1 code the written order accepts that the intended order refuses
    contains a sharp s.
  */
  lemma CurrencyCodeAsWrittenOverlongHasSharpS(f: Field<string>)
    requires CurrencyCodeAsWritten(f).Ok? && IsLatin1(f.value) && !CurrencyCode(f).Ok?
    ensures exists i :: 0 <= i < |f.value| && f.value[i] == SharpS
  {
    ToUpperCaseKeepsLengthIff(f.value);
  }

  /** A code of three upper-case units passes either order unchanged. */
  lemma UpperCaseCodePassesBoth(s: string)
    requires IsUpperCase(s) && Utf16Length(s) == 3
    ensures CurrencyCodeAsWritten(Present(s)) == Ok(s)
    ensures CurrencyCode(Present(s)) == Ok(s)
  {
    ToUpperCaseOfUpperCase(s);
  }

  // ---------------------------------------------------------------- create

  /** The body of a create-currency request. */
  datatype CreateCurrencyRequest = CreateCurrencyRequest(
    currencyCode: Field<string>,
    currencyName: Field<string>,
    symbol: Field<string>,
    exchangeRateToBase: Field<real>,
    isActive: Field<bool>)

  /** The parsed `CreateCurrencyInput`. */
  datatype CreateCurrencyInput = CreateCurrencyInput(
    currencyCode: string,
    currencyName: string,
    symbol: string,
    exchangeRateToBase: real,
    isActive: bool)

  /** The code the intended order accepts: its upper-case form has three code units. */
  predicate ValidCurrencyCode(f: Field<string>)
  {
    f.Present? && Utf16Length(ToUpperCase(f.value)) == 3
  }

  /** The keys of a create-currency body other than the code. */
  predicate ValidCreateCurrencyRest(q: CreateCurrencyRequest)
  {
    && q.currencyName.Present? && 1 <= Utf16Length(q.currencyName.value) <= 100
    && q.symbol.Present? && 1 <= Utf16Length(q.symbol.value) <= 10
    && q.exchangeRateToBase.Present? && q.exchangeRateToBase.value > 0.0
    && !q.isActive.Null?
  }

  /** The bodies the schema accepts as written: the code is measured before upper-casing. */
  predicate ValidCreateCurrency(q: CreateCurrencyRequest)
  {
    q.currencyCode.Present? && Utf16Length(q.currencyCode.value) == 3 && ValidCreateCurrencyRest(q)
  }

  /** The bodies the intended schema accepts. */
  predicate ValidCreateCurrencyIntended(q: CreateCurrencyRequest)
  {
    ValidCurrencyCode(q.currencyCode) && ValidCreateCurrencyRest(q)
  }

  predicate WellFormedCreateCurrency(p: CreateCurrencyInput)
  {
    && IsUpperCase(p.currencyCode) && Utf16Length(p.currencyCode) == 3
    && 1 <= Utf16Length(p.currencyName) <= 100
    && 1 <= Utf16Length(p.symbol) <= 10
    && p.exchangeRateToBase > 0.0
  }

  /** `is_active` defaults to `true`. */
  function ApplyCreateCurrencyDefaults(q: CreateCurrencyRequest): (r: CreateCurrencyRequest)
    ensures !r.isActive.Missing?
    ensures q.isActive.Missing? ==> r.isActive == Present(true)
    ensures !q.isActive.Missing? ==> r.isActive == q.isActive
    ensures r.(isActive := q.isActive) == q
    ensures ValidCreateCurrency(r) <==> ValidCreateCurrency(q)
  {
    q.(isActive := Default(q.isActive, true))
  }

  function UnparseCreateCurrency(p: CreateCurrencyInput): CreateCurrencyRequest
  {
    CreateCurrencyRequest(
      Present(p.currencyCode), Present(p.currencyName), Present(p.symbol),
      Present(p.exchangeRateToBase), Present(p.isActive))
  }

  /** The create-currency schema once its code has been checked, by whichever order. */
  function CreateCurrencyWithCode(q: CreateCurrencyRequest, currencyCode: Check<string>)
    : Result<CreateCurrencyInput, seq<Issue>>
  {
    var currencyName := StrMinMax(q.currencyName, 1, 100);
    var symbol := StrMinMax(q.symbol, 1, 10);
    var exchangeRateToBase := Number(q.exchangeRateToBase, Gt(0.0), NoMax);
    var isActive := Boolean(Default(q.isActive, true));
    if currencyCode.Ok? && currencyName.Ok? && symbol.Ok? && exchangeRateToBase.Ok? && isActive.Ok? then
      Success(CreateCurrencyInput(
        currencyCode.value, currencyName.value, symbol.value, exchangeRateToBase.value, isActive.value))
    else
      Failure(Gather(
        Key("currency_code", Codes(currencyCode),
        Key("currency_name", Codes(currencyName),
        Key("symbol", Codes(symbol),
        Key("exchange_rate_to_base", Codes(exchangeRateToBase),
        Key("is_active", Codes(isActive),
        Done)))))))
  }

  /** `createCurrencyInputSchema.safeParse`, as written. */
  function ParseCreateCurrency(q: CreateCurrencyRequest): Result<CreateCurrencyInput, seq<Issue>>
  {
    CreateCurrencyWithCode(q, CurrencyCodeAsWritten(q.currencyCode))
  }

  /** The create-currency schema with the code upper-cased before its length is checked. */
  function ParseCreateCurrencyIntended(q: CreateCurrencyRequest): Result<CreateCurrencyInput, seq<Issue>>
  {
    CreateCurrencyWithCode(q, CurrencyCode(q.currencyCode))
  }

  /** A body is accepted exactly when it is valid. */
  lemma CreateCurrencyAcceptance(q: CreateCurrencyRequest)
    ensures ParseCreateCurrency(q).Success? <==> ValidCreateCurrency(q)
  {
  }

  /**
    An accepted body parses to its own values with the code upper-cased; the
    result is well formed exactly when upper-casing kept the code three units long.
  */
  lemma CreateCurrencyOutput(q: CreateCurrencyRequest)
    requires ParseCreateCurrency(q).Success?
    ensures IsUpperCase(ParseCreateCurrency(q).value.currencyCode)
    ensures UnparseCreateCurrency(ParseCreateCurrency(q).value)
            == ApplyCreateCurrencyDefaults(q).(currencyCode := Present(ToUpperCase(q.currencyCode.value)))
    ensures WellFormedCreateCurrency(ParseCreateCurrency(q).value) <==> ValidCurrencyCode(q.currencyCode)
  {
  }

  /** Parsing the body that a parsed input would send gives back that input. */
  lemma CreateCurrencyRoundTrip(p: CreateCurrencyInput)
    requires WellFormedCreateCurrency(p)
    ensures ParseCreateCurrency(UnparseCreateCurrency(p)) == Success(p)
  {
    var q := UnparseCreateCurrency(p);
    UpperCaseCodePassesBoth(p.currencyCode);
    assert ValidCreateCurrency(q);
    CreateCurrencyAcceptance(q);
    CreateCurrencyOutput(q);
  }

  /**
    As written, the schema accepts the code `ßab` and stores the four-letter
    `SSAB`; the intended schema refuses the same body.
  */
  lemma CreateCurrencyStoresFourLetterCode()
    ensures ParseCreateCurrency(CreateCurrencyRequest(
              Present([SharpS, 'a', 'b']), Present("Euro"), Present("E"), Present(1.0), Missing))
            == Success(CreateCurrencyInput("SSAB", "Euro", "E", 1.0, true))
    ensures !WellFormedCreateCurrency(CreateCurrencyInput("SSAB", "Euro", "E", 1.0, true))
    ensures ParseCreateCurrencyIntended(CreateCurrencyRequest(
              Present([SharpS, 'a', 'b']), Present("Euro"), Present("E"), Present(1.0), Missing)).Failure?
  {
    CurrencyCodeAsWrittenAcceptsFourLetters();
    assert Utf16Length("Euro") == 4 by {
      Utf16LengthOfBmp("Euro");
    }
    assert Utf16Length("E") == 1 by {
      Utf16LengthOfBmp("E");
    }
  }

  /** The intended schema accepts a body exactly when it is valid under that reading. */
  lemma CreateCurrencyIntendedAcceptance(q: CreateCurrencyRequest)
    ensures ParseCreateCurrencyIntended(q).Success? <==> ValidCreateCurrencyIntended(q)
  {
  }

  /** Under the intended reading every accepted body yields a well-formed input. */
  lemma CreateCurrencyIntendedOutput(q: CreateCurrencyRequest)
    requires ParseCreateCurrencyIntended(q).Success?
    ensures WellFormedCreateCurrency(ParseCreateCurrencyIntended(q).value)
    ensures UnparseCreateCurrency(ParseCreateCurrencyIntended(q).value)
            == ApplyCreateCurrencyDefaults(q).(currencyCode := Present(ToUpperCase(q.currencyCode.value)))
  {
  }

  /** The intended schema also gives back the input whose body it parses. */
  lemma CreateCurrencyIntendedRoundTrip(p: CreateCurrencyInput)
    requires WellFormedCreateCurrency(p)
    ensures ParseCreateCurrencyIntended(UnparseCreateCurrency(p)) == Success(p)
  {
    var q := UnparseCreateCurrency(p);
    UpperCaseCodePassesBoth(p.currencyCode);
    assert ValidCreateCurrencyIntended(q);
    CreateCurrencyIntendedAcceptance(q);
    CreateCurrencyIntendedOutput(q);
  }

  /** On a Latin-1 code without a sharp s both readings parse a body alike. */
  lemma CreateCurrencyReadingsAgree(q: CreateCurrencyRequest)
    requires q.currencyCode.Present? ==> IsLatin1(q.currencyCode.value)
    requires q.currencyCode.Present? ==> forall i :: 0 <= i < |q.currencyCode.value| ==> q.currencyCode.value[i] != SharpS
    ensures ParseCreateCurrencyIntended(q) == ParseCreateCurrency(q)
  {
    CurrencyCodeAgreesWithoutSharpS(q.currencyCode);
  }

  // ---------------------------------------------------------------- update

  /** The body of an update-currency request. */
  datatype UpdateCurrencyRequest = UpdateCurrencyRequest(
    currencyCode: Field<string>,
    exchangeRateToBase: Field<real>,
    isActive: Field<bool>)

  /** The parsed `UpdateCurrencyInput`. */
  datatype UpdateCurrencyInput = UpdateCurrencyInput(
    currencyCode: string,
    exchangeRateToBase: Opt<real>,
    isActive: Opt<bool>)

  /** The keys of an update-currency body other than the code. */
  predicate ValidUpdateCurrencyRest(q: UpdateCurrencyRequest)
  {
    && (q.exchangeRateToBase.Missing? || (q.exchangeRateToBase.Present? && q.exchangeRateToBase.value > 0.0))
    && !q.isActive.Null?
  }

  /** The bodies the schema accepts as written. */
  predicate ValidUpdateCurrency(q: UpdateCurrencyRequest)
  {
    q.currencyCode.Present? && Utf16Length(q.currencyCode.value) == 3 && ValidUpdateCurrencyRest(q)
  }

  /** The bodies the intended schema accepts. */
  predicate ValidUpdateCurrencyIntended(q: UpdateCurrencyRequest)
  {
    ValidCurrencyCode(q.currencyCode) && ValidUpdateCurrencyRest(q)
  }

  predicate WellFormedUpdateCurrency(p: UpdateCurrencyInput)
  {
    && IsUpperCase(p.currencyCode) && Utf16Length(p.currencyCode) == 3
    && (p.exchangeRateToBase.Given? ==> p.exchangeRateToBase.value > 0.0)
  }

  function UnparseUpdateCurrency(p: UpdateCurrencyInput): UpdateCurrencyRequest
  {
    UpdateCurrencyRequest(
      Present(p.currencyCode), OptionalField(p.exchangeRateToBase), OptionalField(p.isActive))
  }

  /** The update-currency schema once its code has been checked, by whichever order. */
  function UpdateCurrencyWithCode(q: UpdateCurrencyRequest, currencyCode: Check<string>)
    : Result<UpdateCurrencyInput, seq<Issue>>
  {
    var exchangeRateToBase := Optional(q.exchangeRateToBase, Number(q.exchangeRateToBase, Gt(0.0), NoMax));
    var isActive := Optional(q.isActive, Boolean(q.isActive));
    if currencyCode.Ok? && exchangeRateToBase.Ok? && isActive.Ok? then
      Success(UpdateCurrencyInput(currencyCode.value, exchangeRateToBase.value, isActive.value))
    else
      Failure(Gather(
        Key("currency_code", Codes(currencyCode),
        Key("exchange_rate_to_base", Codes(exchangeRateToBase),
        Key("is_active", Codes(isActive),
        Done)))))
  }

  /** `updateCurrencyInputSchema.safeParse`, as written. */
  function ParseUpdateCurrency(q: UpdateCurrencyRequest): Result<UpdateCurrencyInput, seq<Issue>>
  {
    UpdateCurrencyWithCode(q, CurrencyCodeAsWritten(q.currencyCode))
  }

  /** The update-currency schema with the code upper-cased before its length is checked. */
  function ParseUpdateCurrencyIntended(q: UpdateCurrencyRequest): Result<UpdateCurrencyInput, seq<Issue>>
  {
    UpdateCurrencyWithCode(q, CurrencyCode(q.currencyCode))
  }

  /** A body is accepted exactly when it is valid. */
  lemma UpdateCurrencyAcceptance(q: UpdateCurrencyRequest)
    ensures ParseUpdateCurrency(q).Success? <==> ValidUpdateCurrency(q)
  {
  }

  /**
    An accepted body parses to its own values with the code upper-cased; the
    result is well formed exactly when upper-casing kept the code three units long.
  */
  lemma UpdateCurrencyOutput(q: UpdateCurrencyRequest)
    requires ParseUpdateCurrency(q).Success?
    ensures IsUpperCase(ParseUpdateCurrency(q).value.currencyCode)
    ensures UnparseUpdateCurrency(ParseUpdateCurrency(q).value)
            == q.(currencyCode := Present(ToUpperCase(q.currencyCode.value)))
    ensures WellFormedUpdateCurrency(ParseUpdateCurrency(q).value) <==> ValidCurrencyCode(q.currencyCode)
  {
  }

  /** Parsing the body that a parsed input would send gives back that input. */
  lemma UpdateCurrencyRoundTrip(p: UpdateCurrencyInput)
    requires WellFormedUpdateCurrency(p)
    ensures ParseUpdateCurrency(UnparseUpdateCurrency(p)) == Success(p)
  {
    var q := UnparseUpdateCurrency(p);
    UpperCaseCodePassesBoth(p.currencyCode);
    assert ValidUpdateCurrency(q);
    UpdateCurrencyAcceptance(q);
    UpdateCurrencyOutput(q);
  }

  /** As written, an update with the code `ßab` is accepted and stores `SSAB`. */
  lemma UpdateCurrencyStoresFourLetterCode()
    ensures ParseUpdateCurrency(UpdateCurrencyRequest(Present([SharpS, 'a', 'b']), Missing, Missing))
            == Success(UpdateCurrencyInput("SSAB", Absent, Absent))
    ensures !WellFormedUpdateCurrency(UpdateCurrencyInput("SSAB", Absent, Absent))
    ensures ParseUpdateCurrencyIntended(UpdateCurrencyRequest(Present([SharpS, 'a', 'b']), Missing, Missing)).Failure?
  {
    CurrencyCodeAsWrittenAcceptsFourLetters();
  }

  /** The intended schema accepts a body exactly when it is valid under that reading. */
  lemma UpdateCurrencyIntendedAcceptance(q: UpdateCurrencyRequest)
    ensures ParseUpdateCurrencyIntended(q).Success? <==> ValidUpdateCurrencyIntended(q)
  {
  }

  /** Under the intended reading every accepted body yields a well-formed input. */
  lemma UpdateCurrencyIntendedOutput(q: UpdateCurrencyRequest)
    requires ParseUpdateCurrencyIntended(q).Success?
    ensures WellFormedUpdateCurrency(ParseUpdateCurrencyIntended(q).value)
    ensures UnparseUpdateCurrency(ParseUpdateCurrencyIntended(q).value)
            == q.(currencyCode := Present(ToUpperCase(q.currencyCode.value)))
  {
  }

  /** The intended schema also gives back the input whose body it parses. */
  lemma UpdateCurrencyIntendedRoundTrip(p: UpdateCurrencyInput)
    requires WellFormedUpdateCurrency(p)
    ensures ParseUpdateCurrencyIntended(UnparseUpdateCurrency(p)) == Success(p)
  {
    var q := UnparseUpdateCurrency(p);
    UpperCaseCodePassesBoth(p.currencyCode);
    assert ValidUpdateCurrencyIntended(q);
    UpdateCurrencyIntendedAcceptance(q);
    UpdateCurrencyIntendedOutput(q);
  }

  /** On a Latin-1 code without a sharp s both readings parse an update alike. */
  lemma UpdateCurrencyReadingsAgree(q: UpdateCurrencyRequest)
    requires q.currencyCode.Present? ==> IsLatin1(q.currencyCode.value)
    requires q.currencyCode.Present? ==> forall i :: 0 <= i < |q.currencyCode.value| ==> q.currencyCode.value[i] != SharpS
    ensures ParseUpdateCurrencyIntended(q) == ParseUpdateCurrency(q)
  {
    CurrencyCodeAgreesWithoutSharpS(q.currencyCode);
  }
}
