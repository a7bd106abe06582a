/**
 * `Context` (src/context.ts): what a middleware is handed for one request.
 * It forwards the sending methods to its response and then marks itself
 * `done`, a flag that starts false and, once true, stays true.
 */
module Contexts {
  import opened Wrappers
  import opened Strings
  import opened Js
  import opened Http
  import opened Responses
  import Errors
  import FileResponder

  /** What `throw` raises: the `KauaiError`, or the error its constructor throws for a bad status. */
  datatype Raised = Kauai(error: Errors.KauaiError) | Builtin(thrown: Errors.Thrown)

  /** `done` only moves from false to true: its setter's rule. */
  function NextDone(done: bool, v: Value): (d: bool)
    ensures done ==> d
    ensures d <==> done || Truthy(v)
  {
    done || Truthy(v)
  }

  class Context {
    const response: Response
    var done: bool

    /** A new context has not answered yet. */
    constructor (response: Response)
      ensures this.response == response && !done
    {
      this.response := response;
      done := false;
    }

    /** The `done` setter: a truthy value sets the flag, nothing clears it. */
    method SetDone(v: Value)
      modifies this
      ensures done == NextDone(old(done), v)
    {
      if !done && Truthy(v) {
        done := true;
      }
    }

    /** `status(code)`: the response's `status`, whose `TypeError` passes through. */
    method Status(code: int) returns (r: Result<(), string>)
      modifies response
      ensures r.Ok? <==> IsKnownStatus(code)
      ensures r.Err? ==> r.error == "Status code " + IntToString(code) + " is invalid"
      ensures response.statusCode == if r.Ok? then code else old(response.statusCode)
      ensures response.headers == old(response.headers) && response.output == old(response.output)
      ensures response.headersSent == old(response.headersSent) && response.ended == old(response.ended)
      ensures response.cookies == old(response.cookies) && done == old(done)
    {
      r := response.Status(code);
    }

    /** `send(data)`, then `done`. */
    method Send(data: Data, utc: int -> string)
      requires response.Valid()
      modifies this, response
      ensures response.Valid() && done
      ensures !old(response.ended) ==> response.output == Finish(data, None)
      ensures !old(response.ended) ==>
                (response.headers == WithContentType(WithCookies(old(response.headers), old(response.headersSent), response.cookies, utc), old(response.headersSent), data))
      ensures old(response.ended) ==> response.output == old(response.output) && response.headers == old(response.headers)
      ensures response.ended && response.headersSent
      ensures response.statusCode == old(response.statusCode) && response.cookies == old(response.cookies)
    {
      response.Send(data, None, utc);
      done := true;
    }

    /** `json(data)`, then `done`; a failed `JSON.stringify` or a sent header leaves `done` as it was. */
    method Json(data: Errors.Json, stringify: Errors.Json -> Result<string, string>, utc: int -> string) returns (r: Result<(), string>)
      requires response.Valid()
      modifies this, response
      ensures response.Valid()
      ensures done == (old(done) || r.Ok?)
      ensures r.Ok? <==> stringify(data).Ok? && !old(response.headersSent)
      ensures stringify(data).Err? ==> r == Err(stringify(data).error)
      ensures stringify(data).Ok? && r.Err? ==> r.error == HeadersSent
      ensures r.Ok? ==> response.output == Finish(Chars(stringify(data).value), None) && response.ended && response.headersSent
      ensures r.Ok? ==> response.headers == WithCookies(old(response.headers)[ContentType := Text(CtJson)], false, response.cookies, utc)
      ensures r.Err? ==> response.headers == old(response.headers) && response.output == old(response.output)
      ensures r.Err? ==> response.headersSent == old(response.headersSent) && response.ended == old(response.ended)
      ensures response.statusCode == old(response.statusCode) && response.cookies == old(response.cookies)
    {
      r := response.Json(data, stringify, utc);
      if r.Ok? {
        done := true;
      }
    }

    /** `text(data)`, then `done`. */
    method SendText(data: string, utc: int -> string) returns (r: Result<(), string>)
      requires response.Valid()
      modifies this, response
      ensures response.Valid()
      ensures done == (old(done) || r.Ok?)
      ensures r.Ok? <==> !old(response.headersSent)
      ensures r.Ok? ==> response.output == Finish(Chars(data), None) && response.ended && response.headersSent
      ensures r.Ok? ==> response.headers == WithCookies(old(response.headers)[ContentType := Text(CtText)], false, response.cookies, utc)
      ensures r.Err? ==> r.error == HeadersSent && response.headers == old(response.headers) && response.output == old(response.output)
      ensures r.Err? ==> response.headersSent == old(response.headersSent) && response.ended == old(response.ended)
      ensures response.statusCode == old(response.statusCode) && response.cookies == old(response.cookies)
    {
      r := response.SendText(data, utc);
      if r.Ok? {
        done := true;
      }
    }

    /** `html(data)`, then `done`. */
    method Html(data: string, utc: int -> string) returns (r: Result<(), string>)
      requires response.Valid()
      modifies this, response
      ensures response.Valid()
      ensures done == (old(done) || r.Ok?)
      ensures r.Ok? <==> !old(response.headersSent)
      ensures r.Ok? ==> response.output == Finish(Chars(data), None) && response.ended && response.headersSent
      ensures r.Ok? ==> response.headers == WithCookies(old(response.headers)[ContentType := Text(CtHtml)], false, response.cookies, utc)
      ensures r.Err? ==> r.error == HeadersSent && response.headers == old(response.headers) && response.output == old(response.output)
      ensures r.Err? ==> response.headersSent == old(response.headersSent) && response.ended == old(response.ended)
      ensures response.statusCode == old(response.statusCode) && response.cookies == old(response.cookies)
    {
      r := response.Html(data, utc);
      if r.Ok? {
        done := true;
      }
    }

    /** `form(params)`, then `done`. */
    method Form(params: string, utc: int -> string) returns (r: Result<(), string>)
      requires response.Valid()
      modifies this, response
      ensures response.Valid()
      ensures done == (old(done) || r.Ok?)
      ensures r.Ok? <==> !old(response.headersSent)
      ensures r.Ok? ==> response.output == Finish(Chars(params), None) && response.ended && response.headersSent
      ensures r.Ok? ==> response.headers == WithCookies(old(response.headers)[ContentType := Text(CtForm)], false, response.cookies, utc)
      ensures r.Err? ==> r.error == HeadersSent && response.headers == old(response.headers) && response.output == old(response.output)
      ensures r.Err? ==> response.headersSent == old(response.headersSent) && response.ended == old(response.ended)
      ensures response.statusCode == old(response.statusCode) && response.cookies == old(response.cookies)
    {
      r := response.Form(params, utc);
      if r.Ok? {
        done := true;
      }
    }

    /** `sendFile(path)`, then `done`, unless the response threw. */
    method SendFile(file: FileResponder.FileStats, req: FileResponder.FileRequest, utc: int -> string) returns (r: Result<(), string>)
      requires response.Valid()
      modifies this, response
      ensures response.Valid()
      ensures done == (old(done) || r.Ok?)
      ensures r.Ok? <==> !old(response.headersSent) && !FileResponder.Decide(file, req).Failed?
      ensures old(response.headersSent) ==>
                && r == Err(HeadersSent) && response.headers == old(response.headers)
                && response.statusCode == old(response.statusCode) && response.output == old(response.output)
      ensures !old(response.headersSent) && FileResponder.Decide(file, req).Failed? ==>
                && r == Err(FileResponder.Decide(file, req).message)
                && response.headers == FileHeaders(old(response.headers), file, FileResponder.Decide(file, req), utc)
                && response.statusCode == old(response.statusCode) && response.output == old(response.output)
      ensures r.Err? ==> response.headersSent == old(response.headersSent) && response.ended == old(response.ended)
      ensures r.Ok? ==>
                && response.statusCode == StatusOf(FileResponder.Decide(file, req))
                && response.headers == WithCookies(FileHeaders(old(response.headers), file, FileResponder.Decide(file, req), utc), false, response.cookies, utc)
                && response.output == Finish(FileData(FileResponder.Decide(file, req)), None)
                && response.ended && response.headersSent
      ensures response.cookies == old(response.cookies)
    {
      r := response.SendFile(file, req, utc);
      if r.Ok? {
        done := true;
      }
    }

    /** `throw(status, options)` never returns: it raises the error the constructor builds, or the one it throws. */
    function Throw(status: int, options: Errors.Options): (e: Raised)
      ensures e.Kauai? <==> 400 <= status <= 599 && IsKnownStatus(status)
      ensures e.Kauai? ==> e.error.status == status && e.error.json == options.json
      ensures e.Kauai? ==> e.error.message == options.message.GetOr(StatusCodes[status])
      ensures e.Kauai? ==> (e.error.expose <==> options.expose == Some(true))
      ensures e.Builtin? ==> Errors.New(status, options) == Err(e.thrown)
    {
      match Errors.New(status, options)
      case Ok(error) => Kauai(error)
      case Err(thrown) => Builtin(thrown)
    }
  }

  /** The flag after a series of assignments. */
  function FoldDone(done: bool, vs: seq<Value>): bool
    decreases |vs|
  {
    if vs == [] then done else FoldDone(NextDone(done, vs[0]), vs[1..])
  }

  /** After a series of assignments the flag is set exactly when it was, or one of the values was truthy. */
  lemma {:induction false} FoldDoneTruthy(done: bool, vs: seq<Value>)
    ensures FoldDone(done, vs) <==> done || exists i :: 0 <= i < |vs| && Truthy(vs[i])
    decreases |vs|
  {
    if vs != [] {
      FoldDoneTruthy(NextDone(done, vs[0]), vs[1..]);
      assert forall i :: 1 <= i < |vs| ==> vs[i] == vs[1..][i - 1];
      if exists i :: 1 <= i < |vs| && Truthy(vs[i]) {
        var i :| 1 <= i < |vs| && Truthy(vs[i]);
        assert Truthy(vs[1..][i - 1]);
      }
    }
  }
}
