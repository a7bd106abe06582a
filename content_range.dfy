/**
 * The `Content-Range` header (src/headers/content-range.ts): `bytes `
 * followed by `<first>-<last>` or by `*`, then `/` and the complete length,
 * itself possibly `*`, as in section 4.2 of RFC 7233.
 */
module ContentRangeHeader {
  import opened Wrappers
  import opened Strings
  import opened Js
  import RangeHeader

  /** A complete length, or `*` when it is unknown. */
  datatype Size = Star | Bytes(n: int)

  /** The `size` argument of the constructor: `"*"` or a number. */
  datatype SizeArg = StarArg | SizeNum(n: Num)

  datatype ContentRange = ContentRange(start: Option<int>, end: Option<int>, size: Size)

  /** What a successful construction guarantees. */
  predicate Valid(cr: ContentRange) {
    && (cr.start.Some? <==> cr.end.Some?)
    && (cr.start.Some? ==> 0 <= cr.start.value <= cr.end.value <= MaxSafeInteger)
    && (cr.size.Bytes? ==> 0 < cr.size.n <= MaxSafeInteger)
    && (cr.size.Bytes? && cr.end.Some? ==> cr.end.value < cr.size.n)
  }

  /** A bound the constructor accepts: absent, or a safe integer that is not negative. */
  predicate GoodBound(b: Option<Num>) {
    b.Some? ==> IsSafeInteger(b.value) && b.value.value >= 0
  }

  /** The constructor's conditions, all at once and in no particular order. */
  predicate Acceptable(start: Option<Num>, end: Option<Num>, size: SizeArg) {
    && GoodBound(start) && GoodBound(end)
    && (size.SizeNum? ==> IsSafeInteger(size.n) && size.n.value > 0)
    && (end.Some? && size.SizeNum? ==> end.value.value < size.n.value)
    && (start.Some? <==> end.Some?)
    && (start.Some? && end.Some? ==> start.value.value <= end.value.value)
  }

  /** The three messages that involve the size. */
  const SizeMessages: set<string> :=
    {"`size` is not an integer", "`size` is less than zero", "`end` is greater than `size`"}

  /**
   * `new ContentRange({ start, end, size })`: ten checks in a fixed order,
   * each failing with its own `TypeError` message; a `"*"` size skips the
   * three that involve the size.
   */
  function New(start: Option<Num>, end: Option<Num>, size: SizeArg): (r: Result<ContentRange, string>)
    ensures r.Ok? <==> Acceptable(start, end, size)
    ensures r.Ok? ==> Valid(r.value)
    ensures r.Ok? ==> r.value.start == RangeHeader.Bound(start) && r.value.end == RangeHeader.Bound(end)
    ensures r.Ok? ==> r.value.size == if size.StarArg? then Star else Bytes(size.n.value)
    ensures start.Some? && !IsSafeInteger(start.value) ==> r == Err("`start` is not an integer")
    ensures GoodBound(start) && GoodBound(end) && size.SizeNum? && !IsSafeInteger(size.n) ==> r == Err("`size` is not an integer")
    ensures size.StarArg? && r.Err? ==> r.error !in SizeMessages
  {
    if start.Some? && !IsSafeInteger(start.value) then Err("`start` is not an integer")
    else if start.Some? && start.value.value < 0 then Err("`start` is less than zero")
    else if end.Some? && !IsSafeInteger(end.value) then Err("`end` is not an integer")
    else if end.Some? && end.value.value < 0 then Err("`end` is less than zero")
    else if size.SizeNum? && !IsSafeInteger(size.n) then Err("`size` is not an integer")
    else if size.SizeNum? && size.n.value <= 0 then Err("`size` is less than zero")
    else if end.Some? && size.SizeNum? && end.value.value >= size.n.value then Err("`end` is greater than `size`")
    else if start.None? && end.Some? then Err("`start` is missing")
    else if start.Some? && end.None? then Err("`end` is missing")
    else if start.Some? && end.Some? && end.value.value < start.value.value then Err("`end` is less than `start`")
    else
      Ok(ContentRange(RangeHeader.Bound(start), RangeHeader.Bound(end),
                      if size.StarArg? then Star else Bytes(size.n.value)))
  }

  /** The constructor arguments that rebuild a content range. */
  function Bound(b: Option<int>): Option<Num> {
    if b.Some? then Some(Int(b.value)) else None
  }

  function SizeArgOf(s: Size): SizeArg {
    if s.Star? then StarArg else SizeNum(Int(s.n))
  }

  /** Every valid content range is accepted by the constructor, unchanged. */
  lemma NewAcceptsValid(cr: ContentRange)
    requires Valid(cr)
    ensures New(Bound(cr.start), Bound(cr.end), SizeArgOf(cr.size)) == Ok(cr)
  {
  }

  function SizeToString(s: Size): string {
    if s.Star? then "*" else IntToString(s.n)
  }

  // `toString()`: `bytes <start>-<end>/<size>` when both bounds exist, `bytes */<size>` otherwise.
  function ToString(cr: ContentRange): (s: string)
    ensures StartsWith(s, "bytes ")
    ensures cr.start.None? ==> s == "bytes */" + SizeToString(cr.size)
  {
    if cr.start.Some? && cr.end.Some? then
      "bytes " + IntToString(cr.start.value) + "-" + IntToString(cr.end.value) + "/" + SizeToString(cr.size)
    else
      "bytes */" + SizeToString(cr.size)
  }

  /** `Number(x)` for an element that may be missing (`Number(undefined)` is `NaN`). */
  function NumberOfPiece(x: Option<string>): Num {
    if x.Some? then NumberOf(x.value) else NaN
  }

  function At(xs: seq<string>, i: nat): Option<string> {
    if i < |xs| then Some(xs[i]) else None
  }

  /** The parsed size: the literal `*`, else its number. */
  function SizeArgOfPiece(rawSize: Option<string>): SizeArg {
    if rawSize == Some("*") then StarArg else SizeNum(NumberOfPiece(rawSize))
  }

  /** A constructor error becomes `[]` (the two `try`/`catch` blocks). */
  function Caught(r: Result<ContentRange, string>): seq<ContentRange> {
    if r.Ok? then [r.value] else []
  }

  /**
   * How `fromString` goes on once it has the trimmed `/`-pieces of the text
   * after `bytes `, its range piece being present.
   */
  function FromRangeAndSize(rawRange: string, rawSize: Option<string>): (rs: seq<ContentRange>)
    ensures |rs| <= 1 && forall cr | cr in rs :: Valid(cr)
  {
    if rawRange == "*" then Caught(New(None, None, SizeNum(NumberOfPiece(rawSize))))
    else
      var bounds := Pieces(rawRange, "-");
      var start := if |bounds| > 0 then Some(NumberOf(bounds[0])) else None;
      var end := if |bounds| > 1 then Some(NumberOf(bounds[1])) else None;
      Caught(New(start, end, SizeArgOfPiece(rawSize)))
  }

  /** The parse of the trimmed input, as written. */
  function FromTrimmedAsWritten(trimmed: string): (r: Result<seq<ContentRange>, string>)
    ensures r.Ok? ==> |r.value| <= 1
  {
    if !StartsWith(trimmed, "bytes ") then Ok([])
    else
      var pieces := Pieces(trimmed[6..], "/");
      if pieces == [] then Err("Cannot read properties of undefined (reading 'split')")
      else Ok(FromRangeAndSize(pieces[0], At(pieces, 1)))
  }

  /**
   * `ContentRange.fromString(input)` as written: when every `/`-piece is
   * empty the range piece is `undefined` and `rawRange.split` throws a
   * `TypeError` outside both `try` blocks, modelled here as `Err`.
   */
  function FromStringAsWritten(input: Option<string>): (r: Result<seq<ContentRange>, string>)
    ensures r.Ok? ==> |r.value| <= 1
  {
    if input.None? then Ok([]) else FromTrimmedAsWritten(Trim(input.value))
  }

  /** The input the guard lets through: `bytes /` makes the parser throw instead of returning `[]`. */
  lemma AsWrittenThrows()
    ensures FromStringAsWritten(Some("bytes /")).Err?
  {
    var t := "bytes /";
    assert t[0] == 'b' && t[|t| - 1] == '/';
    TrimOfTrimmed(t);
    assert t[6..] == "/";
    var parts := Split("/", "/");
    assert OccursAt("/", "/", 0);
    assert parts == [""] + Split("", "/");
    assert Split("", "/") == [""];
    assert Pieces("/", "/") == [];
  }

  /** The parse of the trimmed input, with the empty case returning `[]`. */
  function FromTrimmed(trimmed: string): (rs: seq<ContentRange>)
    ensures |rs| <= 1 && forall cr | cr in rs :: Valid(cr)
    ensures !StartsWith(trimmed, "bytes ") ==> rs == []
    ensures FromTrimmedAsWritten(trimmed).Ok? ==> rs == FromTrimmedAsWritten(trimmed).value
  {
    if !StartsWith(trimmed, "bytes ") then []
    else
      var pieces := Pieces(trimmed[6..], "/");
      if pieces == [] then [] else FromRangeAndSize(pieces[0], At(pieces, 1))
  }

  /**
   * `ContentRange.fromString(input)` with that case returning `[]`, as the
   * declared result type `[] | [ContentRange]` intends: nothing for a missing
   * input, for one whose trimmed form does not start with `bytes `, or for
   * any failed construction.
   */
  function FromString(input: Option<string>): (rs: seq<ContentRange>)
    ensures |rs| <= 1 && forall cr | cr in rs :: Valid(cr)
    ensures input.None? ==> rs == []
    ensures input.Some? && !StartsWith(Trim(input.value), "bytes ") ==> rs == []
    ensures FromStringAsWritten(input).Ok? ==> rs == FromStringAsWritten(input).value
  {
    if input.None? then [] else FromTrimmed(Trim(input.value))
  }

  /** The corrected parser rejects `bytes /` with `[]`. */
  lemma CorrectedRejects()
    ensures FromString(Some("bytes /")) == []
  {
    AsWrittenThrows();
  }

  /** A kept bound prints as a trimmed, non-empty digit string that reads back as itself. */
  lemma NatPiece(n: nat)
    ensures NatToString(n) != "" && Trimmed(NatToString(n))
    ensures '-' !in NatToString(n) && '/' !in NatToString(n) && NatToString(n) != "*"
    ensures NumberOf(NatToString(n)) == Int(n)
  {
    var s := NatToString(n);
    assert IsDigit(s[0]) && IsDigit(s[|s| - 1]);
    NatToStringValue(n);
  }

  lemma SizePiece(s: Size)
    requires s.Bytes? ==> s.n > 0
    ensures SizeToString(s) != "" && Trimmed(SizeToString(s))
    ensures '/' !in SizeToString(s)
    ensures SizeArgOfPiece(Some(SizeToString(s))) == SizeArgOf(s)
  {
    if s.Bytes? {
      NatPiece(s.n);
    }
  }

  /** The text after `bytes ` of a printed content range. */
  function Body(cr: ContentRange): string
    requires cr.start.Some? && cr.end.Some?
  {
    IntToString(cr.start.value) + "-" + IntToString(cr.end.value)
  }

  lemma BodyPieces(cr: ContentRange)
    requires Valid(cr) && cr.start.Some?
    ensures Pieces(Body(cr), "-") == [IntToString(cr.start.value), IntToString(cr.end.value)]
    ensures Body(cr) != "" && Trimmed(Body(cr)) && '/' !in Body(cr) && Body(cr) != "*"
  {
    NatPiece(cr.start.value);
    NatPiece(cr.end.value);
    PiecesTwo(IntToString(cr.start.value), '-', IntToString(cr.end.value));
    assert Body(cr)[0] == IntToString(cr.start.value)[0];
    assert Body(cr)[|Body(cr)| - 1] == IntToString(cr.end.value)[|IntToString(cr.end.value)| - 1];
  }

  lemma RangeRoundTrip(cr: ContentRange)
    requires Valid(cr) && cr.start.Some?
    ensures FromRangeAndSize(Body(cr), Some(SizeToString(cr.size))) == [cr]
  {
    BodyPieces(cr);
    NatPiece(cr.start.value);
    NatPiece(cr.end.value);
    SizePiece(cr.size);
    NewAcceptsValid(cr);
  }

  lemma StarRoundTrip(cr: ContentRange)
    requires Valid(cr) && cr.start.None? && cr.size.Bytes?
    ensures FromRangeAndSize("*", Some(SizeToString(cr.size))) == [cr]
  {
    NatPiece(cr.size.n);
    NewAcceptsValid(cr);
  }

  /** The range part of the printed text: the bounds, or `*`. */
  function RangePart(cr: ContentRange): string {
    if cr.start.Some? && cr.end.Some? then Body(cr) else "*"
  }

  lemma RangePartShape(cr: ContentRange)
    requires Valid(cr)
    ensures RangePart(cr) != "" && Trimmed(RangePart(cr)) && '/' !in RangePart(cr)
  {
    if cr.start.Some? {
      BodyPieces(cr);
    }
  }

  lemma PrintedSplit(cr: ContentRange)
    ensures ToString(cr) == "bytes " + RangePart(cr) + "/" + SizeToString(cr.size)
    ensures ToString(cr)[6..] == RangePart(cr) + "/" + SizeToString(cr.size)
  {
  }

  lemma PrintedTrimmed(cr: ContentRange)
    requires Valid(cr)
    ensures Trim(ToString(cr)) == ToString(cr)
  {
    var s := ToString(cr);
    var size := SizeToString(cr.size);
    SizePiece(cr.size);
    PrintedSplit(cr);
    assert s[|s| - 1] == size[|size| - 1];
    assert s[0] == 'b';
    TrimOfTrimmed(s);
  }

  /** The `/`-pieces of the printed text after `bytes ` are the range part and the size. */
  lemma PrintedPieces(cr: ContentRange)
    requires Valid(cr)
    ensures Pieces(ToString(cr)[6..], "/") == [RangePart(cr), SizeToString(cr.size)]
  {
    var range, size := RangePart(cr), SizeToString(cr.size);
    SizePiece(cr.size);
    RangePartShape(cr);
    PrintedSplit(cr);
    PiecesTwo(range, '/', size);
  }

  /**
   * `fromString(cr.toString())` gives back `[cr]` for every valid content
   * range except one with neither a range nor a known size, whose text
   * (a star for the range and a star for the size) the parser rejects.
   */
  lemma RoundTrip(cr: ContentRange)
    requires Valid(cr) && !(cr.start.None? && cr.size.Star?)
    ensures FromString(Some(ToString(cr))) == [cr]
  {
    PrintedTrimmed(cr);
    PrintedPieces(cr);
    FromStringOfPieces(ToString(cr), RangePart(cr), SizeToString(cr.size));
    if cr.start.Some? {
      RangeRoundTrip(cr);
    } else {
      StarRoundTrip(cr);
    }
  }

  /** A lone `*` for the size is not a number, so a star range with a star size fails to construct. */
  lemma StarStarRejected()
    ensures FromRangeAndSize("*", Some("*")) == []
  {
    assert !IsDigit('*');
    assert NumberOf("*") == NaN;
  }

  lemma FromStringOfPieces(s: string, range: string, size: string)
    requires StartsWith(s, "bytes ") && Pieces(s[6..], "/") == [range, size]
    ensures FromTrimmed(s) == FromRangeAndSize(range, Some(size))
  {
  }

  // The excluded case: `bytes */*` parses to nothing.
  lemma UnknownEverythingRejected(cr: ContentRange)
    requires Valid(cr) && cr.start.None? && cr.size.Star?
    ensures FromString(Some(ToString(cr))) == []
  {
    PrintedTrimmed(cr);
    PrintedPieces(cr);
    FromStringOfPieces(ToString(cr), RangePart(cr), SizeToString(cr.size));
    StarStarRejected();
  }
}
