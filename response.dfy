/**
 * `KauaiResponse` (src/response.ts): the server response with a validated
 * `status`, a bulk `set` of headers, a `send` that first writes the
 * response's cookies into `Set-Cookie` and defaults the `Content-Type`, the
 * typed senders `json`, `text`, `html` and `form`, and `sendFile`.
 *
 * Headers are kept under their lower-cased names, as Node's `getHeader`
 * finds them. What `end` and `pipe` are given is recorded in `output`; once
 * the response has ended its headers count as sent.
 */
module Responses {
  import opened Wrappers
  import opened Strings
  import opened Http
  import CookieHeader
  import ContentRangeHeader
  import Errors
  import opened FileResponder

  const CtJson: string := "application/json"
  const CtText: string := "plain/text"
  const CtHtml: string := "text/html"
  const CtForm: string := "application/x-www-form-urlencoded"

  /** The lower-cased names of the headers the response writes itself. */
  const SetCookie: string := "set-cookie"
  const ContentType: string := "content-type"
  const ContentLength: string := "content-length"
  const ContentRange: string := "content-range"
  const LastModifiedHeader: string := "last-modified"
  const AcceptRanges: string := "accept-ranges"

  /** The message of the `ERR_HTTP_HEADERS_SENT` error Node's `setHeader` throws once the headers have been sent. */
  const HeadersSent: string := "Cannot set headers after they are sent to the client"

  /** A header value: a string, a number, or a list of strings. */
  datatype HeaderValue = Text(s: string) | Count(n: int) | Values(items: seq<string>)

  type Headers = map<string, HeaderValue>

  /** `getHeader(name)`. */
  function Lookup(h: Headers, key: string): Option<HeaderValue> {
    if key in h then Some(h[key]) else None
  }

  /** A header value's truthiness: a list is always truthy, `""` and `0` never. */
  predicate Present(v: Option<HeaderValue>) {
    match v
    case None => false
    case Some(Text(s)) => s != ""
    case Some(Count(n)) => n != 0
    case Some(Values(_)) => true
  }

  /** `${value}`. */
  function ValueText(v: HeaderValue): string {
    match v
    case Text(s) => s
    case Count(n) => IntToString(n)
    case Values(items) => Join(items, ",")
  }

  /** The strings an existing `Set-Cookie` contributes: none when it is falsy, its items, or its text. */
  function Earlier(existing: Option<HeaderValue>): seq<string> {
    if !Present(existing) then []
    else if existing.value.Values? then existing.value.items
    else [ValueText(existing.value)]
  }

  /** The new `Set-Cookie`: the cookie strings, after what was there. */
  function MergeCookies(existing: Option<HeaderValue>, values: seq<string>): (v: HeaderValue)
    ensures v == Values(Earlier(existing) + values)
    ensures !Present(existing) ==> v == Values(values)
  {
    if !Present(existing) then
      assert Earlier(existing) + values == values;
      Values(values)
    else
      match existing.value
      case Values(items) =>
        assert Earlier(existing) == items;
        Values(items + values)
      case Text(_) =>
        assert Earlier(existing) == [ValueText(existing.value)];
        Values([ValueText(existing.value)] + values)
      case Count(_) =>
        assert Earlier(existing) == [ValueText(existing.value)];
        Values([ValueText(existing.value)] + values)
  }

  /** `[...cookies].map((c) => c.toString())`. */
  function CookieTexts(cookies: seq<CookieHeader.Cookie>, utc: int -> string): seq<string> {
    seq(|cookies|, i requires 0 <= i < |cookies| => CookieHeader.ToString(cookies[i], utc))
  }

  /** Where a piped stream comes from: the whole file, a window of it, or another readable. */
  datatype Source = WholeFile | FileWindow(start: int, end: int) | Readable(id: nat)

  /** The argument of `send`: nothing, a string, a number or bigint, a buffer, or a stream. */
  datatype Data = Missing | Chars(s: string) | Integer(n: int) | Buffer(bytes: seq<bv8>) | Stream(source: Source)

  /** What the response was finished with. */
  datatype Output =
    | Pending
    | Ended
    | Written(text: string, encoding: Option<string>)
    | WrittenBytes(bytes: seq<bv8>)
    | Piped(source: Source)

  /** `typeof data === "undefined" || data === ""`. */
  predicate Empty(data: Data) {
    data.Missing? || data == Chars("")
  }

  /** The headers once `send` has merged the cookies. */
  function WithCookies(h: Headers, headersSent: bool, cookies: seq<CookieHeader.Cookie>, utc: int -> string): Headers {
    if !headersSent && |cookies| > 0 then h[SetCookie := MergeCookies(Lookup(h, SetCookie), CookieTexts(cookies, utc))] else h
  }

  /** The headers once `send` has defaulted the content type, which it does only for data it writes itself. */
  function WithContentType(h: Headers, headersSent: bool, data: Data): Headers {
    if Empty(data) || data.Stream? || headersSent || Present(Lookup(h, ContentType)) then h
    else h[ContentType := Text(CtText)]
  }

  /** What `end` or `pipe` receives. */
  function Finish(data: Data, encoding: Option<string>): (o: Output)
    ensures o != Pending
    ensures Empty(data) <==> o == Ended
  {
    match data
    case Missing => Ended
    case Chars(s) =>
      if s == "" then Ended
      else if encoding.Some? && encoding.value != "" then Written(s, encoding)
      else Written(s, None)
    case Integer(n) => Written(IntToString(n), None)
    case Buffer(b) => WrittenBytes(b)
    case Stream(src) => Piped(src)
  }

  /** The headers `set` leaves: each pair in turn assigned to its lower-cased name. */
  function Assigned(h: Headers, pairs: seq<(string, HeaderValue)>): Headers {
    if pairs == [] then h
    else Assigned(h, pairs[..|pairs| - 1])[ToLower(pairs[|pairs| - 1].0) := pairs[|pairs| - 1].1]
  }

  /** The value of the last pair whose name lower-cases to `key`. */
  function LastFor(pairs: seq<(string, HeaderValue)>, key: string): Option<HeaderValue> {
    if pairs == [] then None
    else if ToLower(pairs[|pairs| - 1].0) == key then Some(pairs[|pairs| - 1].1)
    else LastFor(pairs[..|pairs| - 1], key)
  }

  /** After `set`, a header holds the value of the last pair for it, and otherwise what it held before. */
  lemma {:induction false} AssignedLookup(h: Headers, pairs: seq<(string, HeaderValue)>, key: string)
    ensures Lookup(Assigned(h, pairs), key) == if LastFor(pairs, key).Some? then LastFor(pairs, key) else Lookup(h, key)
    decreases |pairs|
  {
    if pairs != [] {
      AssignedLookup(h, pairs[..|pairs| - 1], key);
    }
  }

  /** A content type already present is never replaced by `send`. */
  lemma ContentTypeKept(h: Headers, headersSent: bool, data: Data)
    requires Present(Lookup(h, ContentType))
    ensures WithContentType(h, headersSent, data) == h
  {
  }

  /** `send` with nothing to write, or with a stream, leaves the content type alone. */
  lemma NoContentTypeForEmpty(h: Headers, headersSent: bool, data: Data)
    requires Empty(data) || data.Stream?
    ensures WithContentType(h, headersSent, data) == h
  {
  }

  /** Otherwise an unset or falsy content type becomes `plain/text` while the headers are unsent. */
  lemma DefaultContentType(h: Headers, data: Data)
    requires !Empty(data) && !data.Stream? && !Present(Lookup(h, ContentType))
    ensures Lookup(WithContentType(h, false, data), ContentType) == Some(Text(CtText))
  {
  }

  /**
   * The merged `Set-Cookie` lists what was there (nothing when it was falsy)
   * followed by every cookie of the response, in order.
   */
  lemma CookiesAppended(h: Headers, cookies: seq<CookieHeader.Cookie>, utc: int -> string)
    requires |cookies| > 0
    ensures Lookup(WithCookies(h, false, cookies, utc), SetCookie) == Some(Values(Earlier(Lookup(h, SetCookie)) + CookieTexts(cookies, utc)))
    ensures forall key :: key != SetCookie ==> Lookup(WithCookies(h, false, cookies, utc), key) == Lookup(h, key)
  {
  }

  /** A scalar `Set-Cookie` is kept as the first item. */
  lemma ScalarCookieFirst(h: Headers, cookies: seq<CookieHeader.Cookie>, utc: int -> string)
    requires |cookies| > 0 && SetCookie in h && !h[SetCookie].Values? && Present(Some(h[SetCookie]))
    ensures Lookup(WithCookies(h, false, cookies, utc), SetCookie) == Some(Values([ValueText(h[SetCookie])] + CookieTexts(cookies, utc)))
  {
  }

  /** Cookies are not written once the headers are out, nor when there are none. */
  lemma NoCookiesWhenSent(h: Headers, headersSent: bool, cookies: seq<CookieHeader.Cookie>, utc: int -> string)
    requires headersSent || cookies == []
    ensures WithCookies(h, headersSent, cookies, utc) == h
  {
  }

  lemma ContentTypeName()
    ensures ToLower("Content-Type") == ContentType
  {
    var s := "Content-Type";
    assert LowerChar(s[0]) == 'c' && LowerChar(s[8]) == 't';
    assert ToLower(s) == [LowerChar(s[0])] + s[1..8] + [LowerChar(s[8])] + s[9..];
  }

  /** A content type set before `send` survives it, whatever the cookies do. */
  lemma TypedKept(h: Headers, contentType: string, cookies: seq<CookieHeader.Cookie>, data: Data, utc: int -> string)
    requires Lookup(h, ContentType) == Some(Text(contentType)) && contentType != ""
    ensures WithContentType(WithCookies(h, false, cookies, utc), false, data) == WithCookies(h, false, cookies, utc)
  {
    assert ContentType != SetCookie;
    assert Lookup(WithCookies(h, false, cookies, utc), ContentType) == Lookup(h, ContentType);
  }

  /** `stat`'s answer about the file, the request's conditions, and the decision made from them. */
  function StatusOf(o: FileOutcome): int {
    match o
    case NotModified => 304
    case Full => 200
    case Unsatisfiable(_) => 416
    case Partial(_, _, _) => 206
    case Failed(_) => 0
  }

  /** The headers `sendFile` writes before it sends: the dates, then the outcome's own. */
  function FileHeaders(h: Headers, file: FileStats, o: FileOutcome, utc: int -> string): Headers {
    var dated := h[LastModifiedHeader := Text(utc(LastModified(file.mtimeMs)))][AcceptRanges := Text("bytes")];
    match o
    case NotModified => dated
    case Full => dated[ContentLength := Count(file.size)]
    case Unsatisfiable(cr) => dated[ContentRange := Text(ContentRangeHeader.ToString(cr))]
    case Partial(s, e, cr) => dated[ContentRange := Text(ContentRangeHeader.ToString(cr))][ContentLength := Text(IntToString(e - s + 1))]
    case Failed(_) => dated
  }

  /** What `sendFile` pipes or ends with. */
  function FileData(o: FileOutcome): Data {
    match o
    case Full => Stream(WholeFile)
    case Partial(s, e, _) => Stream(FileWindow(s, e))
    case _ => Missing
  }

  /** Every answer of `sendFile` carries `Last-Modified`, cut to whole seconds, and `Accept-Ranges: bytes`. */
  lemma FileHeadersDated(h: Headers, file: FileStats, o: FileOutcome, utc: int -> string)
    ensures Lookup(FileHeaders(h, file, o, utc), LastModifiedHeader) == Some(Text(utc(LastModified(file.mtimeMs))))
    ensures Lookup(FileHeaders(h, file, o, utc), AcceptRanges) == Some(Text("bytes"))
  {
  }

  /** A 206 answer gives the window's length in `Content-Length` and the window in `Content-Range`. */
  lemma PartialHeaders(h: Headers, file: FileStats, s: int, e: int, cr: ContentRangeHeader.ContentRange, utc: int -> string)
    ensures Lookup(FileHeaders(h, file, Partial(s, e, cr), utc), ContentLength) == Some(Text(IntToString(e - s + 1)))
    ensures Lookup(FileHeaders(h, file, Partial(s, e, cr), utc), ContentRange) == Some(Text(ContentRangeHeader.ToString(cr)))
  {
  }

  class Response {
    var statusCode: int
    var headers: Headers
    var headersSent: bool
    var ended: bool
    var output: Output
    var cookies: seq<CookieHeader.Cookie>

    /** A response that has ended has sent its headers, and only an ended one has an output. */
    ghost predicate Valid()
      reads this
    {
      (ended ==> headersSent) && (ended <==> output != Pending)
    }

    constructor ()
      ensures Valid()
      ensures statusCode == 200 && headers == map[] && !headersSent && !ended && cookies == []
    {
      statusCode := 200;
      headers := map[];
      headersSent := false;
      ended := false;
      output := Pending;
      cookies := [];
    }

    /** `status(code)`: a code `STATUS_CODES` does not know is a `TypeError` and changes nothing. */
    method Status(code: int) returns (r: Result<(), string>)
      modifies this
      ensures r.Ok? <==> IsKnownStatus(code)
      ensures r.Err? ==> r.error == "Status code " + IntToString(code) + " is invalid"
      ensures statusCode == if r.Ok? then code else old(statusCode)
      ensures headers == old(headers) && headersSent == old(headersSent) && ended == old(ended)
      ensures output == old(output) && cookies == old(cookies)
    {
      if code !in StatusCodes {
        return Err("Status code " + IntToString(code) + " is invalid");
      }
      statusCode := code;
      return Ok(());
    }

    /** `setHeader(name, value)`, which Node refuses once the headers are out. */
    method SetHeader(name: string, value: HeaderValue) returns (r: Result<(), string>)
      modifies this
      ensures r.Ok? <==> !old(headersSent)
      ensures r.Err? ==> r.error == HeadersSent
      ensures headers == if r.Ok? then old(headers)[ToLower(name) := value] else old(headers)
      ensures statusCode == old(statusCode) && headersSent == old(headersSent) && ended == old(ended)
      ensures output == old(output) && cookies == old(cookies)
    {
      if headersSent {
        return Err(HeadersSent);
      }
      headers := headers[ToLower(name) := value];
      return Ok(());
    }

    /** `set(headers)`: each pair through `setHeader`, in order; the first one throws once the headers are out. */
    method Set(pairs: seq<(string, HeaderValue)>) returns (r: Result<(), string>)
      modifies this
      ensures r.Ok? <==> !old(headersSent) || pairs == []
      ensures r.Err? ==> r.error == HeadersSent
      ensures headers == if r.Ok? then Assigned(old(headers), pairs) else old(headers)
      ensures statusCode == old(statusCode) && headersSent == old(headersSent) && ended == old(ended)
      ensures output == old(output) && cookies == old(cookies)
    {
      if headersSent && pairs != [] {
        return Err(HeadersSent);
      }
      var i := 0;
      while i < |pairs|
        invariant 0 <= i <= |pairs|
        invariant headers == Assigned(old(headers), pairs[..i])
        invariant statusCode == old(statusCode) && headersSent == old(headersSent) && ended == old(ended)
        invariant output == old(output) && cookies == old(cookies)
      {
        assert pairs[..i + 1][..i] == pairs[..i];
        headers := headers[ToLower(pairs[i].0) := pairs[i].1];
        i := i + 1;
      }
      assert pairs[..|pairs|] == pairs;
      return Ok(());
    }

    /**
     * `send(data, encoding)`: nothing once the response has ended; otherwise
     * the cookies go into `Set-Cookie` while the headers are unsent, the
     * content type defaults to `plain/text` for data written directly, and
     * the response ends with the data.
     */
    method Send(data: Data, encoding: Option<string>, utc: int -> string)
      requires Valid()
      modifies this
      ensures Valid()
      ensures old(ended) ==> headers == old(headers) && output == old(output)
      ensures !old(ended) ==> headers == WithContentType(WithCookies(old(headers), old(headersSent), cookies, utc), old(headersSent), data)
      ensures !old(ended) ==> output == Finish(data, encoding)
      ensures ended && headersSent
      ensures statusCode == old(statusCode) && cookies == old(cookies)
    {
      if ended {
        return;
      }
      headers := WithContentType(WithCookies(headers, headersSent, cookies, utc), headersSent, data);
      output := Finish(data, encoding);
      ended := true;
      headersSent := true;
    }

    /** Node's `end(chunk)`: the headers go out and the response ends, once; a later call changes nothing. */
    method End(chunk: Option<string>)
      requires Valid()
      modifies this
      ensures Valid()
      ensures old(ended) ==> output == old(output)
      ensures !old(ended) ==> output == Finish(if chunk.Some? then Chars(chunk.value) else Missing, None)
      ensures ended && headersSent
      ensures statusCode == old(statusCode) && headers == old(headers) && cookies == old(cookies)
    {
      if ended {
        return;
      }
      output := Finish(if chunk.Some? then Chars(chunk.value) else Missing, None);
      ended := true;
      headersSent := true;
    }

    /** `set({ "Content-Type": type }).send(data)`, the shape of every typed sender. */
    method SendTyped(contentType: string, data: Data, utc: int -> string) returns (r: Result<(), string>)
      requires Valid() && contentType != ""
      modifies this
      ensures Valid()
      ensures r.Ok? <==> !old(headersSent)
      ensures r.Err? ==> r.error == HeadersSent && headers == old(headers) && output == old(output)
      ensures r.Err? ==> headersSent == old(headersSent) && ended == old(ended)
      ensures r.Ok? ==> headers == WithCookies(old(headers)[ContentType := Text(contentType)], false, cookies, utc)
      ensures r.Ok? ==> output == Finish(data, None) && ended && headersSent
      ensures statusCode == old(statusCode) && cookies == old(cookies)
    {
      r := SetHeader("Content-Type", Text(contentType));
      if r.Err? {
        return;
      }
      ContentTypeName();
      ghost var typed := headers;
      Send(data, None, utc);
      TypedKept(typed, contentType, cookies, data, utc);
    }

    /** `json(data)`: `JSON.stringify` (which may throw) and then `application/json`. */
    method Json(data: Errors.Json, stringify: Errors.Json -> Result<string, string>, utc: int -> string) returns (r: Result<(), string>)
      requires Valid()
      modifies this
      ensures Valid()
      ensures stringify(data).Err? ==> r == Err(stringify(data).error) && headers == old(headers) && output == old(output)
      ensures stringify(data).Ok? ==> (r.Ok? <==> !old(headersSent))
      ensures stringify(data).Ok? && r.Err? ==> r.error == HeadersSent && headers == old(headers) && output == old(output)
      ensures r.Err? ==> headersSent == old(headersSent) && ended == old(ended)
      ensures r.Ok? ==> headers == WithCookies(old(headers)[ContentType := Text(CtJson)], false, cookies, utc)
      ensures r.Ok? ==> output == Finish(Chars(stringify(data).value), None) && ended && headersSent
      ensures statusCode == old(statusCode) && cookies == old(cookies)
    {
      var msg := stringify(data);
      if msg.Err? {
        return Err(msg.error);
      }
      r := SendTyped(CtJson, Chars(msg.value), utc);
    }

    /** `text(data)`. */
    method SendText(data: string, utc: int -> string) returns (r: Result<(), string>)
      requires Valid()
      modifies this
      ensures Valid()
      ensures r.Ok? <==> !old(headersSent)
      ensures r.Ok? ==> headers == WithCookies(old(headers)[ContentType := Text(CtText)], false, cookies, utc)
      ensures r.Ok? ==> output == Finish(Chars(data), None) && ended && headersSent
      ensures r.Err? ==> r.error == HeadersSent && headers == old(headers) && output == old(output)
      ensures r.Err? ==> headersSent == old(headersSent) && ended == old(ended)
      ensures statusCode == old(statusCode) && cookies == old(cookies)
    {
      r := SendTyped(CtText, Chars(data), utc);
    }

    /** `html(data)`. */
    method Html(data: string, utc: int -> string) returns (r: Result<(), string>)
      requires Valid()
      modifies this
      ensures Valid()
      ensures r.Ok? <==> !old(headersSent)
      ensures r.Ok? ==> headers == WithCookies(old(headers)[ContentType := Text(CtHtml)], false, cookies, utc)
      ensures r.Ok? ==> output == Finish(Chars(data), None) && ended && headersSent
      ensures r.Err? ==> r.error == HeadersSent && headers == old(headers) && output == old(output)
      ensures r.Err? ==> headersSent == old(headersSent) && ended == old(ended)
      ensures statusCode == old(statusCode) && cookies == old(cookies)
    {
      r := SendTyped(CtHtml, Chars(data), utc);
    }

    /** `form(params)`, given the serialised parameters. */
    method Form(params: string, utc: int -> string) returns (r: Result<(), string>)
      requires Valid()
      modifies this
      ensures Valid()
      ensures r.Ok? <==> !old(headersSent)
      ensures r.Ok? ==> headers == WithCookies(old(headers)[ContentType := Text(CtForm)], false, cookies, utc)
      ensures r.Ok? ==> output == Finish(Chars(params), None) && ended && headersSent
      ensures r.Err? ==> r.error == HeadersSent && headers == old(headers) && output == old(output)
      ensures r.Err? ==> headersSent == old(headersSent) && ended == old(ended)
      ensures statusCode == old(statusCode) && cookies == old(cookies)
    {
      r := SendTyped(CtForm, Chars(params), utc);
    }

    /**
     * `sendFile(path)` once the file is known to be a regular file: the two
     * date headers, then the decision, then the headers, status and body it
     * calls for; a failing Content-Range construction throws after the date
     * headers are set.
     */
    method SendFile(file: FileStats, req: FileRequest, utc: int -> string) returns (r: Result<(), string>)
      requires Valid()
      modifies this
      ensures Valid()
      ensures old(headersSent) ==> r == Err(HeadersSent) && headers == old(headers) && statusCode == old(statusCode) && output == old(output)
      ensures !old(headersSent) ==> (r.Ok? <==> !Decide(file, req).Failed?)
      ensures !old(headersSent) && Decide(file, req).Failed? ==>
                && r == Err(Decide(file, req).message)
                && headers == FileHeaders(old(headers), file, Decide(file, req), utc)
                && statusCode == old(statusCode) && output == old(output)
      ensures r.Err? ==> headersSent == old(headersSent) && ended == old(ended)
      ensures r.Ok? ==>
                && statusCode == StatusOf(Decide(file, req))
                && headers == WithCookies(FileHeaders(old(headers), file, Decide(file, req), utc), false, cookies, utc)
                && output == Finish(FileData(Decide(file, req)), None) && ended && headersSent
      ensures cookies == old(cookies)
    {
      if headersSent {
        return Err(HeadersSent);
      }
      var o := Decide(file, req);
      headers := FileHeaders(headers, file, o, utc);
      if o.Failed? {
        return Err(o.message);
      }
      statusCode := StatusOf(o);
      Send(FileData(o), None, utc);
      return Ok(());
    }
  }
}
