/**
 * The default error handler `#errorHandler` (src/binden.ts, src/kauai.ts)
 * as a decision: from whether a custom handler is installed, the
 * response's state and the thrown value, what the handler does to the
 * response.
 */
module ErrorHandling {
  import opened Wrappers
  import opened Strings
  import opened Js
  import opened Http
  import Errors
  import opened Responses
  import opened Stacks
  import opened Walks

  /** `DefaultErrorCode`. */
  const DefaultStatus: int := 500

  /**
   * What the handler does: hand over to the custom handler, destroy the
   * request, end the response as it is, or answer with a status, possibly a
   * content type, and possibly a body.
   */
  datatype Answer =
    | Delegate
    | Destroy
    | EndOnly
    | Reply(status: int, contentType: Option<string>, body: Option<string>)

  /**
   * `Number(value)`, as far as a status code can come out of it: `undefined`
   * and objects are `NaN`, and only a number can be negative.
   */
  function NumberValue(v: Value): (n: Num)
    ensures v.Undefined? || v.Object? ==> n.NaN?
    ensures n.Int? && n.value < 0 ==> v.Number?
  {
    match v
    case Undefined => NaN
    case Null => Int(0)
    case Bool(b) => Int(if b then 1 else 0)
    case Number(n) => n
    case Str(s) => if Trim(s) == "" then Int(0) else NumberOf(Trim(s))
    case Object => NaN
  }

  /** A status given as a number or as its decimal text converts back to that status. */
  lemma StatusText(status: nat)
    ensures NumberValue(Number(Int(status))) == Int(status)
    ensures NumberValue(Str(NatToString(status))) == Int(status)
  {
    var t := NatToString(status);
    assert Trimmed(t) by {
      assert IsDigit(t[0]) && IsDigit(t[|t| - 1]);
    }
    TrimOfTrimmed(t);
    NatToStringValue(status);
  }

  /** The status of the answer: the error's when `STATUS_CODES` knows it, `500` otherwise (also for `null` under `Kauai`). */
  function ErrorStatus(error: ErrorValue): (status: int)
    ensures IsKnownStatus(status) || status == DefaultStatus
  {
    if error.NullValue? then DefaultStatus
    else
      var n := NumberValue(error.status);
      if n.Int? && IsKnownStatus(n.value) then n.value else DefaultStatus
  }

  /** Whether the error is to be shown: a truthy `expose`; `null` never is. */
  predicate Exposed(error: ErrorValue) {
    error.ErrorObject? && Truthy(error.expose)
  }

  /**
   * Whether `plain/text` goes in before a message: `Binden` when the
   * response has no `Content-Type` at all, `Kauai` when it has none that is
   * truthy.
   */
  predicate SetsText(variant: Variant, contentType: Option<HeaderValue>) {
    if variant == Binden then contentType.None? else !Present(contentType)
  }

  /**
   * What goes out once the status is set, as a content type to set and a
   * body: nothing for an unexposed error; the JSON text for a `json` member
   * that stringifies, nothing when it does not; otherwise a non-empty
   * string message, with `plain/text` when `SetsText` says so.
   */
  function Body(variant: Variant, contentType: Option<HeaderValue>, error: ErrorValue,
                stringify: Errors.Json -> Result<string, string>): (r: (Option<string>, Option<string>))
    ensures r.0.Some? ==> r.1.Some?
  {
    if !Exposed(error) then (None, None)
    else if error.json.Some? then
      match stringify(error.json.value)
      case Ok(text) => (Some(CtJson), Some(text))
      case Err(_) => (None, None)
    else if error.message.Str? && error.message.s != "" then
      (if SetsText(variant, contentType) then Some(CtText) else None, Some(error.message.s))
    else (None, None)
  }

  /**
   * The handler's decision, in its order: a custom handler; an ended
   * response; sent headers; otherwise the status and what `Body` sends.
   */
  function Resolve(variant: Variant, custom: bool, ended: bool, headersSent: bool, contentType: Option<HeaderValue>,
                   error: ErrorValue, stringify: Errors.Json -> Result<string, string>): (a: Answer)
    ensures a.Reply? <==> !custom && !ended && !headersSent
    ensures a.Reply? ==> IsKnownStatus(a.status)
    ensures a.Reply? && a.body.Some? ==> Exposed(error)
    ensures a.Reply? && a.contentType.Some? ==> a.body.Some?
  {
    KnownDefault();
    if custom then Delegate
    else if ended then Destroy
    else if headersSent then EndOnly
    else
      var body := Body(variant, contentType, error, stringify);
      Reply(ErrorStatus(error), body.0, body.1)
  }

  /** A custom handler takes every error; without one, an ended response is destroyed and one with sent headers just ended. */
  lemma ResolveOrder(variant: Variant, custom: bool, ended: bool, headersSent: bool, contentType: Option<HeaderValue>,
                     error: ErrorValue, stringify: Errors.Json -> Result<string, string>)
    ensures var a := Resolve(variant, custom, ended, headersSent, contentType, error, stringify);
            && (a == Delegate <==> custom)
            && (a == Destroy <==> !custom && ended)
            && (a == EndOnly <==> !custom && !ended && headersSent)
            && (a.Reply? <==> !custom && !ended && !headersSent)
  {
  }

  /** Every answer carries a status `STATUS_CODES` knows, the error's own when it is one, else `500`. */
  lemma ReplyStatus(variant: Variant, contentType: Option<HeaderValue>, error: ErrorValue, stringify: Errors.Json -> Result<string, string>)
    ensures var a := Resolve(variant, false, false, false, contentType, error, stringify);
            && a.Reply? && IsKnownStatus(a.status)
            && (error.ErrorObject? && NumberValue(error.status).Int? && IsKnownStatus(NumberValue(error.status).value) ==> a.status == NumberValue(error.status).value)
            && (error.ErrorObject? && !(NumberValue(error.status).Int? && IsKnownStatus(NumberValue(error.status).value)) ==> a.status == DefaultStatus)
  {
    KnownDefault();
  }

  /** `500` is in `STATUS_CODES`. */
  lemma KnownDefault()
    ensures IsKnownStatus(DefaultStatus)
  {
    assert StatusCodes[500] == "Internal Server Error";
  }

  /** A body goes out only for an exposed error, and a body that is not JSON is the error's non-empty message. */
  lemma BodyOnlyWhenExposed(variant: Variant, contentType: Option<HeaderValue>, error: ErrorValue, stringify: Errors.Json -> Result<string, string>)
    ensures var a := Resolve(variant, false, false, false, contentType, error, stringify);
            && (a.body.Some? ==> Exposed(error))
            && (a.body.Some? && error.json.None? ==> error.message == Str(a.body.value) && a.body.value != "")
            && (a.body.Some? && error.json.Some? ==> stringify(error.json.value) == Ok(a.body.value) && a.contentType == Some(CtJson))
  {
  }

  /** A `json` member wins over the message, and answers with no body when it will not stringify. */
  lemma JsonFirst(variant: Variant, contentType: Option<HeaderValue>, error: ErrorValue, stringify: Errors.Json -> Result<string, string>)
    requires Exposed(error) && error.json.Some?
    ensures var a := Resolve(variant, false, false, false, contentType, error, stringify);
            && (stringify(error.json.value).Ok? ==> a.body == Some(stringify(error.json.value).value) && a.contentType == Some(CtJson))
            && (stringify(error.json.value).Err? ==> a.body == None && a.contentType == None)
  {
  }

  /**
   * A message answer sets `plain/text` only if no content type is there;
   * the two versions differ on a content type that is set but falsy, which
   * `Kauai` replaces and `Binden` keeps.
   */
  lemma TextTypeDiffers(error: ErrorValue, stringify: Errors.Json -> Result<string, string>)
    requires Exposed(error) && error.json.None? && error.message.Str? && error.message.s != ""
    ensures Resolve(Binden, false, false, false, Some(Text("")), error, stringify).contentType == None
    ensures Resolve(Kauai, false, false, false, Some(Text("")), error, stringify).contentType == Some(CtText)
    ensures forall v: Variant :: Resolve(v, false, false, false, None, error, stringify).contentType == Some(CtText)
    ensures forall v: Variant, t: string :: t != "" ==> Resolve(v, false, false, false, Some(Text(t)), error, stringify).contentType == None
  {
  }

  /** Under `Kauai` a thrown `null` or `undefined` is answered with `500` and no body. */
  lemma NullAnswer(contentType: Option<HeaderValue>, stringify: Errors.Json -> Result<string, string>)
    ensures Resolve(Kauai, false, false, false, contentType, NullValue, stringify) == Reply(DefaultStatus, None, None)
  {
  }

  /** The walk's own errors, `404` and `405` with default options, are answered with their status and no body. */
  lemma OwnErrorAnswer(variant: Variant, status: int, contentType: Option<HeaderValue>, stringify: Errors.Json -> Result<string, string>)
    requires Errors.New(status, Errors.NoOptions).Ok?
    ensures Resolve(variant, false, false, false, contentType, ErrorOf(Errors.New(status, Errors.NoOptions).value), stringify) ==
              Reply(status, None, None)
  {
  }
}
