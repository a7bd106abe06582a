/**
 * The conditional and byte-range decision of `sendFile` (src/response.ts):
 * from the file's size and modification time and the request's method,
 * `If-Modified-Since`, first `Range` and `If-Range`, the status to answer
 * with and the range it covers (sections 2.1, 3.1, 3.2, 4.2 and 4.4 of RFC
 * 7233, section 3.3 of RFC 7232). Dates are millisecond timestamps; a date
 * that does not parse is `None`, and compares false with everything.
 */
module FileResponder {
  import opened Wrappers
  import opened Js
  import opened RangeHeader
  import ContentRangeHeader

  /** What `stat` reports about the file. */
  datatype FileStats = FileStats(size: nat, mtimeMs: int)

  /** What the request supplies: its method, its conditional dates, and the first parsed range. */
  datatype FileRequest = FileRequest(
    httpMethod: Option<string>,
    ifModifiedSince: Option<int>,
    range: Option<Range>,
    ifRange: Option<int>)

  // The answer: 304 without a body; 200 with the whole file; 416 with a
  // `Content-Range` of `bytes */size`; 206 with the bytes `start..end`; or the
  // `TypeError` the Content-Range constructor throws.
  datatype FileOutcome =
    | NotModified
    | Full
    | Unsatisfiable(contentRange: ContentRangeHeader.ContentRange)
    | Partial(start: int, end: int, contentRange: ContentRangeHeader.ContentRange)
    | Failed(message: string)

  /** `new Date(mtime.toUTCString())`: the modification time cut down to whole seconds. */
  function LastModified(mtimeMs: int): (lm: int)
    ensures lm <= mtimeMs < lm + 1000
    ensures lm % 1000 == 0
  {
    (mtimeMs / 1000) * 1000
  }

  /** `method` defaulting to `GET`, compared with `GET` and `HEAD`. */
  predicate IsGetOrHead(httpMethod: Option<string>) {
    var m := httpMethod.GetOr("GET");
    m == "GET" || m == "HEAD"
  }

  /** `ims && ims.date >= lm`. */
  predicate NotModifiedSince(httpMethod: Option<string>, ifModifiedSince: Option<int>, lm: int) {
    IsGetOrHead(httpMethod) && ifModifiedSince.Some? && ifModifiedSince.value >= lm
  }

  /** `ifRange < lm`: an If-Range date older than the file asks for all of it. */
  predicate Stale(ifRange: Option<int>, lm: int) {
    ifRange.Some? && ifRange.value < lm
  }

  /** The 416 answer: `new ContentRange({ size })`, which throws for an empty file. */
  function Unsatisfied(size: nat): (r: FileOutcome)
    ensures 0 < size <= MaxSafeInteger ==> r == Unsatisfiable(ContentRangeHeader.ContentRange(None, None, ContentRangeHeader.Bytes(size)))
    ensures size == 0 ==> r == Failed("`size` is less than zero")
  {
    var cr := ContentRangeHeader.New(None, None, ContentRangeHeader.SizeNum(Int(size)));
    assert size == 0 ==> cr == Err("`size` is less than zero");
    if cr.Ok? then Unsatisfiable(cr.value) else Failed(cr.error)
  }

  /**
   * The byte window a range selects (`opts`): from the start, or 0, to the
   * last byte; an end-only range is a suffix of that many bytes; an explicit
   * end narrows the window only when it comes before the last byte.
   */
  function Window(size: nat, r: Range): (w: (int, int))
    ensures r.start.None? && r.end.Some? ==> w == (if size - r.end.value < 0 then 0 else size - r.end.value, size - 1)
    ensures r.start.Some? && r.end.Some? ==> w == (r.start.value, if r.end.value < size - 1 then r.end.value else size - 1)
    ensures r.end.None? ==> w == (r.start.GetOr(0), size - 1)
  {
    var start := r.start.GetOr(0);
    var end := size - 1;
    if r.end.Some? then
      if r.start.None? then
        var suffix := size - r.end.value;
        (if suffix < 0 then 0 else suffix, end)
      else if r.end.value < end then (start, r.end.value)
      else (start, end)
    else (start, end)
  }

  /** The 200 or 206 answer for a window: all of the file, or the window with its Content-Range. */
  function Windowed(size: nat, start: int, end: int): FileOutcome {
    if end - start + 1 == size then Full
    else
      var cr := ContentRangeHeader.New(Some(Int(start)), Some(Int(end)), ContentRangeHeader.SizeNum(Int(size)));
      if cr.Ok? then Partial(start, end, cr.value) else Failed(cr.error)
  }

  /**
   * The decision `sendFile` makes, on range bounds that are absent when
   * unset: 304, then 200 for no range or a stale If-Range, then 416 for a
   * start at or past the end, then the window.
   */
  function Decide(file: FileStats, req: FileRequest): (r: FileOutcome)
    ensures (r == NotModified) == NotModifiedSince(req.httpMethod, req.ifModifiedSince, LastModified(file.mtimeMs))
    ensures r.Partial? ==> 0 <= r.start <= r.end < file.size && r.end - r.start + 1 < file.size
    ensures r.Partial? ==> r.contentRange == ContentRangeHeader.ContentRange(Some(r.start), Some(r.end), ContentRangeHeader.Bytes(file.size))
    ensures r.Unsatisfiable? ==> r.contentRange == ContentRangeHeader.ContentRange(None, None, ContentRangeHeader.Bytes(file.size))
  {
    var lm := LastModified(file.mtimeMs);
    if NotModifiedSince(req.httpMethod, req.ifModifiedSince, lm) then NotModified
    else if req.range.None? || Stale(req.ifRange, lm) then Full
    else if req.range.value.start.Some? && req.range.value.start.value >= file.size then Unsatisfied(file.size)
    else
      var w := Window(file.size, req.range.value);
      Windowed(file.size, w.0, w.1)
  }

  // Properties of the decision

  /** 304 exactly for a GET or HEAD whose If-Modified-Since is no older than the file. */
  lemma NotModifiedExactly(file: FileStats, req: FileRequest)
    ensures Decide(file, req) == NotModified <==> NotModifiedSince(req.httpMethod, req.ifModifiedSince, LastModified(file.mtimeMs))
  {
    ContainsNoNotModified(file, req);
  }

  lemma ContainsNoNotModified(file: FileStats, req: FileRequest)
    ensures !NotModifiedSince(req.httpMethod, req.ifModifiedSince, LastModified(file.mtimeMs)) ==> Decide(file, req) != NotModified
  {
    if !NotModifiedSince(req.httpMethod, req.ifModifiedSince, LastModified(file.mtimeMs)) && req.range.Some?
      && !Stale(req.ifRange, LastModified(file.mtimeMs))
      && !(req.range.value.start.Some? && req.range.value.start.value >= file.size)
    {
      var w := Window(file.size, req.range.value);
      assert Decide(file, req) == Windowed(file.size, w.0, w.1);
    }
  }

  /** Without a range, or with an If-Range older than the file, the whole file is sent. */
  lemma FullWithoutRange(file: FileStats, req: FileRequest)
    requires !NotModifiedSince(req.httpMethod, req.ifModifiedSince, LastModified(file.mtimeMs))
    requires req.range.None? || Stale(req.ifRange, LastModified(file.mtimeMs))
    ensures Decide(file, req) == Full
  {
  }

  /** An absent or unparsable If-Range never forces the whole file: it is as if there were none. */
  lemma MissingIfRangeIgnored(file: FileStats, req: FileRequest, later: int)
    requires req.ifRange.None? && later >= LastModified(file.mtimeMs)
    ensures Decide(file, req) == Decide(file, req.(ifRange := Some(later)))
  {
  }

  // A start at or past the end of the file is unsatisfiable: 416 with `bytes */size`.
  lemma StartPastEnd(file: FileStats, req: FileRequest)
    requires !NotModifiedSince(req.httpMethod, req.ifModifiedSince, LastModified(file.mtimeMs))
    requires req.range.Some? && !Stale(req.ifRange, LastModified(file.mtimeMs))
    requires req.range.value.start.Some? && req.range.value.start.value >= file.size && 0 < file.size <= MaxSafeInteger
    ensures Decide(file, req) == Unsatisfiable(ContentRangeHeader.ContentRange(None, None, ContentRangeHeader.Bytes(file.size)))
  {
  }

  /** A range the `Range` parser can produce. */
  predicate Parsed(r: Range) {
    (Satisfiable(r) || r == Range(None, None)) && SafeBound(r.start) && SafeBound(r.end)
  }

  /** The window of a parsed range that starts inside the file lies inside the file. */
  lemma WindowInside(size: nat, r: Range)
    requires Parsed(r) && size > 0
    requires r.start.Some? ==> r.start.value < size
    ensures 0 <= Window(size, r).0 <= Window(size, r).1 < size
  {
  }

  /** A window inside the file is answered with 200 when it covers the file and with 206 otherwise. */
  lemma WindowedInside(size: nat, start: int, end: int)
    requires 0 <= start <= end < size <= MaxSafeInteger
    ensures end - start + 1 == size ==> Windowed(size, start, end) == Full
    ensures end - start + 1 != size ==> Windowed(size, start, end) == Partial(start, end,
              ContentRangeHeader.ContentRange(Some(start), Some(end), ContentRangeHeader.Bytes(size)))
  {
  }

  /**
   * For a range the parser produced, a non-empty file of a safe size is never
   * a failure: 206 covers a window strictly inside the file, with the
   * Content-Range `bytes start-end/size` and `end - start + 1` bytes.
   */
  lemma PartialInside(file: FileStats, req: FileRequest)
    requires req.range.Some? ==> Parsed(req.range.value)
    requires 0 < file.size <= MaxSafeInteger
    ensures !Decide(file, req).Failed?
    ensures Decide(file, req).Partial? ==>
      var o := Decide(file, req);
      && 0 <= o.start <= o.end < file.size
      && o.end - o.start + 1 < file.size
      && o.contentRange == ContentRangeHeader.ContentRange(Some(o.start), Some(o.end), ContentRangeHeader.Bytes(file.size))
  {
    var lm := LastModified(file.mtimeMs);
    if !NotModifiedSince(req.httpMethod, req.ifModifiedSince, lm) && req.range.Some? && !Stale(req.ifRange, lm)
      && !(req.range.value.start.Some? && req.range.value.start.value >= file.size)
    {
      var w := Window(file.size, req.range.value);
      WindowInside(file.size, req.range.value);
      WindowedInside(file.size, w.0, w.1);
    }
  }

  /** An end-only range is a suffix: the last `n` bytes, or the whole file when `n` reaches its size. */
  lemma Suffix(file: FileStats, req: FileRequest, n: int)
    requires !NotModifiedSince(req.httpMethod, req.ifModifiedSince, LastModified(file.mtimeMs))
    requires !Stale(req.ifRange, LastModified(file.mtimeMs))
    requires req.range == Some(Range(None, Some(n))) && 0 < n <= MaxSafeInteger && 0 < file.size <= MaxSafeInteger
    ensures n < file.size ==> Decide(file, req) == Partial(file.size - n, file.size - 1,
              ContentRangeHeader.ContentRange(Some(file.size - n), Some(file.size - 1), ContentRangeHeader.Bytes(file.size)))
    ensures n >= file.size ==> Decide(file, req) == Full
  {
    WindowedInside(file.size, if file.size - n < 0 then 0 else file.size - n, file.size - 1);
  }

  /** An open-ended range from `start` is the rest of the file, which is all of it from 0. */
  lemma OpenEnded(file: FileStats, req: FileRequest, start: int)
    requires !NotModifiedSince(req.httpMethod, req.ifModifiedSince, LastModified(file.mtimeMs))
    requires !Stale(req.ifRange, LastModified(file.mtimeMs))
    requires req.range == Some(Range(Some(start), None)) && 0 <= start < file.size <= MaxSafeInteger
    ensures start > 0 ==> Decide(file, req) == Partial(start, file.size - 1,
              ContentRangeHeader.ContentRange(Some(start), Some(file.size - 1), ContentRangeHeader.Bytes(file.size)))
    ensures start == 0 ==> Decide(file, req) == Full
  {
    WindowedInside(file.size, start, file.size - 1);
  }

  // The decision as written

  /**
   * The decision as src/response.ts:169-187 writes it. The range parser
   * stores a missing bound as `null`, not `undefined`, so every
   * `typeof ... !== "undefined"` test holds, a `null` start compares as 0, a
   * `null` end that is "less than" the last byte (as 0) replaces it, and a
   * `null` end counts as 0 in `end - start + 1`.
   */
  function DecideAsWritten(file: FileStats, req: FileRequest): (r: FileOutcome)
    ensures (r == NotModified) == NotModifiedSince(req.httpMethod, req.ifModifiedSince, LastModified(file.mtimeMs))
    ensures r.Partial? ==> 0 <= r.start <= r.end < file.size && r.end - r.start + 1 < file.size
    ensures r.Partial? ==> r.contentRange == ContentRangeHeader.ContentRange(Some(r.start), Some(r.end), ContentRangeHeader.Bytes(file.size))
  {
    var lm := LastModified(file.mtimeMs);
    if NotModifiedSince(req.httpMethod, req.ifModifiedSince, lm) then NotModified
    else if req.range.None? || Stale(req.ifRange, lm) then Full
    else
      var r := req.range.value;
      if r.start.GetOr(0) >= file.size then Unsatisfied(file.size)
      else
        var start := r.start.GetOr(0);
        var end: Option<int> := if r.end.GetOr(0) < file.size - 1 then r.end else Some(file.size - 1);
        if end.GetOr(0) - start + 1 == file.size then Full
        else
          var cr := ContentRangeHeader.New(Some(Int(start)), if end.Some? then Some(Int(end.value)) else None,
                                           ContentRangeHeader.SizeNum(Int(file.size)));
          if cr.Ok? then Partial(start, end.GetOr(0), cr.value) else Failed(cr.error)
  }

  /** As written, a suffix range `bytes=-n` is served as the first `n + 1` bytes. */
  lemma AsWrittenSuffix(file: FileStats, req: FileRequest, n: int)
    requires !NotModifiedSince(req.httpMethod, req.ifModifiedSince, LastModified(file.mtimeMs))
    requires !Stale(req.ifRange, LastModified(file.mtimeMs))
    requires req.range == Some(Range(None, Some(n))) && 0 < n && n + 1 < file.size <= MaxSafeInteger
    ensures DecideAsWritten(file, req) == Partial(0, n,
              ContentRangeHeader.ContentRange(Some(0), Some(n), ContentRangeHeader.Bytes(file.size)))
    ensures Decide(file, req) == Partial(file.size - n, file.size - 1,
              ContentRangeHeader.ContentRange(Some(file.size - n), Some(file.size - 1), ContentRangeHeader.Bytes(file.size)))
  {
    Suffix(file, req, n);
  }

  /** As written, an open-ended range `bytes=start-` of a file of two bytes or more throws. */
  lemma AsWrittenOpenEnded(file: FileStats, req: FileRequest, start: int)
    requires !NotModifiedSince(req.httpMethod, req.ifModifiedSince, LastModified(file.mtimeMs))
    requires !Stale(req.ifRange, LastModified(file.mtimeMs))
    requires req.range == Some(Range(Some(start), None)) && 0 <= start < file.size <= MaxSafeInteger && file.size > 1
    ensures DecideAsWritten(file, req) == Failed("`end` is missing")
    ensures !Decide(file, req).Failed?
  {
    OpenEnded(file, req, start);
  }
}
