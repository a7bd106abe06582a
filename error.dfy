/**
 * `KauaiError` (src/error.ts): the error a handler throws to answer with an
 * HTTP error status. Its constructor accepts only a status Node's
 * `STATUS_CODES` table knows that lies between 400 and 599, checking the
 * upper bound first, then the table, then the lower bound.
 */
module Errors {
  import opened Wrappers
  import opened Http
  import opened Js

  /** The two built-in error classes the constructor throws. */
  datatype ErrorClass = RangeError | TypeError

  /** A thrown built-in error. */
  datatype Thrown = Thrown(errorClass: ErrorClass, message: string)

  /** A JSON body: an object with arbitrary members. */
  type Json = map<string, Value>

  /** The options argument; an absent member is `None`. */
  datatype Options = Options(message: Option<string>, expose: Option<bool>, json: Option<Json>)

  /** The options `{}`, the default. */
  const NoOptions: Options := Options(None, None, None)

  datatype KauaiError = KauaiError(status: int, message: string, expose: bool, json: Option<Json>)

  /** The error class's name. */
  const ErrorName: string := "KauaiError"

  /**
   * `new KauaiError(status, options)`: a status above 599 is a `RangeError`,
   * one the table does not know a `TypeError`, one below 400 a `RangeError`;
   * otherwise an error whose message defaults to the status's reason phrase,
   * whose `expose` is false unless set, and whose `json` defaults to `null`.
   */
  function New(status: int, options: Options): (r: Result<KauaiError, Thrown>)
    ensures r.Ok? <==> 400 <= status <= 599 && IsKnownStatus(status)
    ensures status > 599 ==> r == Err(Thrown(RangeError, "Status code is greater than 599"))
    ensures status <= 599 && !IsKnownStatus(status) ==> r == Err(Thrown(TypeError, "Invalid status code"))
    ensures IsKnownStatus(status) && status < 400 ==> r == Err(Thrown(RangeError, "Status code is less than 400"))
    ensures r.Ok? ==> r.value.status == status
    ensures r.Ok? ==> r.value.message == options.message.GetOr(StatusCodes[status])
    ensures r.Ok? ==> (r.value.expose <==> options.expose == Some(true))
    ensures r.Ok? ==> r.value.json == options.json
  {
    if status > 599 then Err(Thrown(RangeError, "Status code is greater than 599"))
    else if status !in StatusCodes then Err(Thrown(TypeError, "Invalid status code"))
    else if status < 400 then Err(Thrown(RangeError, "Status code is less than 400"))
    else
      var message := if options.message.Some? then options.message.value else StatusCodes[status];
      Ok(KauaiError(status, message, options.expose == Some(true), options.json))
  }
}
