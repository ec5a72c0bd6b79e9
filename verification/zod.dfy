/**
  The parts of zod's parsing semantics that the input schemas use, stated as pure
  functions over one key of the request body.

  A request body is a JSON object; for each key the schema sees one of three states:
  the key is missing (`undefined`), it is `null`, or it holds a value of the key's
  JSON type. Each zod leaf (`z.string().max(n)`, `z.number().int().positive()`, ...)
  becomes a function from that state to a `Check`, which either carries the parsed
  value or the issue codes zod reports, in the order zod runs its checks.
  The wrappers `.nullable()`, `.optional()` and `.default(v)` are applied around the
  leaf exactly as zod nests them.
*/
module Zod {
  import opened Wrappers
  import opened JsString
  import Regex

  /** The state of one key of the incoming JSON object. */
  datatype Field<+T> = Missing | Null | Present(value: T)

  /** The parsed value of an `.optional()` key: left out, or given. */
  datatype Opt<+T> = Absent | Given(value: T)

  /**
    What JavaScript's `new Date(v)` produced for the value sent for a
    `z.coerce.date()` key: a valid instant in milliseconds since the epoch, or an
    Invalid Date. How JavaScript parses date strings is not part of this model.
  */
  datatype DateCoercion = ValidTime(millis: int) | InvalidTime

  /** zod's issue codes, restricted to the ones these schemas can raise. */
  datatype IssueCode = InvalidType | TooSmall | TooBig | InvalidString | InvalidEnumValue | InvalidDate

  /** One entry of a `ZodError`: the key and what was wrong with it. */
  datatype Issue = Issue(path: string, code: IssueCode)

  /** The outcome of parsing one key: its value, or at least one issue code. */
  datatype Check<+T> = Ok(value: T) | Bad(code: IssueCode, more: seq<IssueCode>)

  /** The issue codes a check carries, in order. */
  function Codes<T>(c: Check<T>): seq<IssueCode>
  {
    match c
    case Ok(_) => []
    case Bad(code, more) => [code] + more
  }

  /** The keys of an object schema in declaration order, each with the codes its check raised. */
  datatype Keys = Done | Key(path: string, codes: seq<IssueCode>, rest: Keys)

  /** The issues of a `ZodError`: key by key, one issue per code, in schema order. */
  function Gather(keys: Keys): seq<Issue>
  {
    match keys
    case Done => []
    case Key(path, codes, rest) =>
      seq(|codes|, i requires 0 <= i < |codes| => Issue(path, codes[i])) + Gather(rest)
  }

  /** A check that succeeds with `v` when no code was raised. */
  function FromCodes<T>(codes: seq<IssueCode>, v: T): (r: Check<T>)
    ensures r.Ok? <==> codes == []
    ensures r.Ok? ==> r.value == v
    ensures Codes(r) == codes
  {
    if codes == [] then Ok(v) else Bad(codes[0], codes[1..])
  }

  /** A JavaScript number that `Number.isInteger` accepts. */
  predicate IsInteger(x: real)
  {
    x == x.Floor as real
  }

  // ---------------------------------------------------------------- strings

  /** `z.string()`: anything but a string (here: missing or null) is an invalid type. */
  function Str(f: Field<string>): (r: Check<string>)
    ensures r.Ok? <==> f.Present?
    ensures r.Ok? ==> r.value == f.value
  {
    match f
    case Present(s) => Ok(s)
    case _ => Bad(InvalidType, [])
  }

  /** `z.string().max(n)`, counting UTF-16 code units as JavaScript does. */
  function StrMax(f: Field<string>, n: nat): (r: Check<string>)
    ensures r.Ok? <==> f.Present? && Utf16Length(f.value) <= n
    ensures r.Ok? ==> r.value == f.value
  {
    match f
    case Present(s) => FromCodes(if Utf16Length(s) > n then [TooBig] else [], s)
    case _ => Bad(InvalidType, [])
  }

  /** `z.string().min(lo).max(hi)`: both checks run, in that order. */
  function StrMinMax(f: Field<string>, lo: nat, hi: nat): (r: Check<string>)
    ensures r.Ok? <==> f.Present? && lo <= Utf16Length(f.value) <= hi
    ensures r.Ok? ==> r.value == f.value
  {
    match f
    case Present(s) =>
      var len := Utf16Length(s);
      FromCodes((if len < lo then [TooSmall] else []) + (if len > hi then [TooBig] else []), s)
    case _ => Bad(InvalidType, [])
  }

  /** `z.string().length(n)`: too long and too short are reported with different codes. */
  function StrLength(f: Field<string>, n: nat): (r: Check<string>)
    ensures r.Ok? <==> f.Present? && Utf16Length(f.value) == n
    ensures r.Ok? ==> r.value == f.value
  {
    match f
    case Present(s) =>
      var len := Utf16Length(s);
      FromCodes(if len > n then [TooBig] else if len < n then [TooSmall] else [], s)
    case _ => Bad(InvalidType, [])
  }

  /** `z.string().regex(p)`. */
  function StrRegex(f: Field<string>, p: Regex.Pattern): (r: Check<string>)
    ensures r.Ok? <==> f.Present? && Regex.Matches(p, f.value)
    ensures r.Ok? ==> r.value == f.value
  {
    match f
    case Present(s) => FromCodes(if Regex.Matches(p, s) then [] else [InvalidString], s)
    case _ => Bad(InvalidType, [])
  }

  // ---------------------------------------------------------------- numbers

  /** The lower-bound check of a number schema, if any. */
  datatype Lower =
    | NoMin
    | Gt(bound: real)    // `.positive()` is `Gt(0)`
    | Gte(bound: real)   // `.nonnegative()` is `Gte(0)`, `.min(v)` is `Gte(v)`

  /** The upper-bound check of a number schema, if any: `.max(v)` is `Lte(v)`. */
  datatype Upper = NoMax | Lte(bound: real)

  /** Whether `x` passes the lower-bound check. */
  predicate AboveLower(lower: Lower, x: real)
  {
    match lower
    case NoMin => true
    case Gt(b) => x > b
    case Gte(b) => x >= b
  }

  /** Whether `x` passes the upper-bound check. */
  predicate BelowUpper(upper: Upper, x: real)
  {
    match upper
    case NoMax => true
    case Lte(b) => x <= b
  }

  function LowerCodes(lower: Lower, x: real): (r: seq<IssueCode>)
    ensures r == [] <==> AboveLower(lower, x)
  {
    match lower
    case NoMin => []
    case Gt(b) => if x > b then [] else [TooSmall]
    case Gte(b) => if x >= b then [] else [TooSmall]
  }

  function UpperCodes(upper: Upper, x: real): (r: seq<IssueCode>)
    ensures r == [] <==> BelowUpper(upper, x)
  {
    match upper
    case NoMax => []
    case Lte(b) => if x <= b then [] else [TooBig]
  }

  /** `z.number()` followed by its lower and upper bound checks. */
  function Number(f: Field<real>, lower: Lower, upper: Upper): (r: Check<real>)
    ensures r.Ok? <==> f.Present? && AboveLower(lower, f.value) && BelowUpper(upper, f.value)
    ensures r.Ok? ==> r.value == f.value
  {
    match f
    case Present(x) => FromCodes(LowerCodes(lower, x) + UpperCodes(upper, x), x)
    case _ => Bad(InvalidType, [])
  }

  /**
    `z.number().int()` followed by a lower bound check. zod reports a fractional
    number with the invalid-type code and still runs the bound check.
  */
  function Integer(f: Field<real>, lower: Lower): (r: Check<int>)
    ensures r.Ok? <==> f.Present? && IsInteger(f.value) && AboveLower(lower, f.value)
    ensures r.Ok? ==> r.value as real == f.value
  {
    match f
    case Present(x) => FromCodes((if IsInteger(x) then [] else [InvalidType]) + LowerCodes(lower, x), x.Floor)
    case _ => Bad(InvalidType, [])
  }

  // ---------------------------------------------------------------- other leaves

  /** `z.boolean()`. */
  function Boolean(f: Field<bool>): (r: Check<bool>)
    ensures r.Ok? <==> f.Present?
    ensures r.Ok? ==> r.value == f.value
  {
    match f
    case Present(b) => Ok(b)
    case _ => Bad(InvalidType, [])
  }

  /** `z.enum([...])`, given the parser from the enum's spellings to its values. */
  function Enum<E>(f: Field<string>, fromName: string -> Option<E>): (r: Check<E>)
    ensures r.Ok? <==> f.Present? && fromName(f.value).Some?
    ensures r.Ok? ==> Some(r.value) == fromName(f.value)
  {
    match f
    case Present(s) =>
      (match fromName(s)
       case Some(e) => Ok(e)
       case None => Bad(InvalidEnumValue, []))
    case _ => Bad(InvalidType, [])
  }

  /**
    `z.coerce.date()`: the value is passed to `new Date`, so `null` becomes the epoch
    and a missing key becomes an Invalid Date.
  */
  function CoerceDate(f: Field<DateCoercion>): (r: Check<int>)
    ensures r.Ok? <==> CoercesToDate(f)
    ensures r.Ok? ==> NullAsEpoch(f) == Present(ValidTime(r.value))
  {
    match f
    case Missing => Bad(InvalidDate, [])
    case Null => Ok(0)
    case Present(ValidTime(t)) => Ok(t)
    case Present(InvalidTime) => Bad(InvalidDate, [])
  }

  // ---------------------------------------------------------------- wrappers

  /** `inner.nullable()`: `null` is accepted before `inner` sees it. */
  function Nullable<T, U>(f: Field<T>, inner: Check<U>): (r: Check<Option<U>>)
    ensures r.Ok? <==> f.Null? || inner.Ok?
    ensures f.Null? ==> r == Ok(None)
    ensures !f.Null? && inner.Ok? ==> r == Ok(Some(inner.value))
  {
    if f.Null? then Ok(None)
    else match inner
      case Ok(v) => Ok(Some(v))
      case Bad(c, m) => Bad(c, m)
  }

  /** `inner.optional()`: a missing key is accepted before `inner` sees it. */
  function Optional<T, U>(f: Field<T>, inner: Check<U>): (r: Check<Opt<U>>)
    ensures r.Ok? <==> f.Missing? || inner.Ok?
    ensures f.Missing? ==> r == Ok(Absent)
    ensures !f.Missing? && inner.Ok? ==> r == Ok(Given(inner.value))
  {
    if f.Missing? then Ok(Absent)
    else match inner
      case Ok(v) => Ok(Given(v))
      case Bad(c, m) => Bad(c, m)
  }

  /** `inner.nullable().optional()`. */
  function NullableOptional<T, U>(f: Field<T>, inner: Check<U>): (r: Check<Opt<Option<U>>>)
    ensures r.Ok? <==> f.Missing? || f.Null? || inner.Ok?
    ensures f.Missing? ==> r == Ok(Absent)
    ensures f.Null? ==> r == Ok(Given(None))
    ensures f.Present? && inner.Ok? ==> r == Ok(Given(Some(inner.value)))
  {
    if f.Missing? then Ok(Absent)
    else if f.Null? then Ok(Given(None))
    else match inner
      case Ok(v) => Ok(Given(Some(v)))
      case Bad(c, m) => Bad(c, m)
  }

  /** `.default(d)`: a missing key is replaced by `d` before the inner schema runs. */
  function Default<T>(f: Field<T>, d: T): (r: Field<T>)
    ensures r.Present? || r.Null?
    ensures f.Missing? ==> r == Present(d)
    ensures !f.Missing? ==> r == f
  {
    if f.Missing? then Present(d) else f
  }

  /** The values `z.coerce.date()` accepts: `null` (read as the epoch) or a valid instant. */
  predicate CoercesToDate(f: Field<DateCoercion>)
  {
    f.Null? || (f.Present? && f.value.ValidTime?)
  }

  /**
    The key `z.coerce.date()` effectively reads: `null` is read as the epoch, every
    other state as it is.
  */
  function NullAsEpoch(f: Field<DateCoercion>): (r: Field<DateCoercion>)
    ensures !r.Null?
    ensures CoercesToDate(f) <==> r.Present? && r.value.ValidTime?
  {
    if f.Null? then Present(ValidTime(0)) else f
  }

  // ---------------------------------------------------------------- back to JSON

  /** The key a parsed nullable value came from. */
  function NullableField<T>(v: Option<T>): Field<T>
  {
    match v
    case None => Null
    case Some(x) => Present(x)
  }

  /** The key a parsed optional value came from. */
  function OptionalField<T>(v: Opt<T>): Field<T>
  {
    match v
    case Absent => Missing
    case Given(x) => Present(x)
  }

  /** The key a parsed optional nullable value came from. */
  function NullableOptionalField<T>(v: Opt<Option<T>>): Field<T>
  {
    match v
    case Absent => Missing
    case Given(None) => Null
    case Given(Some(x)) => Present(x)
  }

  /** The JSON number sent for an integer. */
  function IntField(n: int): Field<real>
  {
    Present(n as real)
  }

  /** The date value sent for an instant. */
  function DateField(t: int): Field<DateCoercion>
  {
    Present(ValidTime(t))
  }

  function NullableIntField(v: Option<int>): Field<real>
  {
    match v
    case None => Null
    case Some(n) => Present(n as real)
  }

  function OptionalIntField(v: Opt<int>): Field<real>
  {
    match v
    case Absent => Missing
    case Given(n) => Present(n as real)
  }

  function NullableOptionalIntField(v: Opt<Option<int>>): Field<real>
  {
    match v
    case Absent => Missing
    case Given(None) => Null
    case Given(Some(n)) => Present(n as real)
  }

  function NullableDateField(v: Option<int>): Field<DateCoercion>
  {
    match v
    case None => Null
    case Some(t) => Present(ValidTime(t))
  }

  function OptionalDateField(v: Opt<int>): Field<DateCoercion>
  {
    match v
    case Absent => Missing
    case Given(t) => Present(ValidTime(t))
  }

  function NullableOptionalDateField(v: Opt<Option<int>>): Field<DateCoercion>
  {
    match v
    case Absent => Missing
    case Given(None) => Null
    case Given(Some(t)) => Present(ValidTime(t))
  }
}
