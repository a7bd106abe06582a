/**
 * The `Range` request header (src/headers/range.ts): `bytes=` followed by
 * comma-separated `first-last` elements, as in sections 2.1 and 3.1 of RFC
 * 7233. Only the unit `bytes` is recognised.
 */
module RangeHeader {
  import opened Wrappers
  import opened Strings
  import opened Js

  /** The only range unit the class knows. */
  const Unit: string := "bytes"

  /** A parsed range element; a bound is `None` when it is `null`. */
  datatype Range = Range(start: Option<int>, end: Option<int>)

  /** The constructor keeps a bound only when it is a safe integer. */
  function Bound(n: Option<Num>): (r: Option<int>)
    ensures r.Some? <==> n.Some? && IsSafeInteger(n.value)
    ensures r.Some? ==> r.value == n.value.value && -MaxSafeInteger <= r.value <= MaxSafeInteger
  {
    if n.Some? && IsSafeInteger(n.value) then Some(n.value.value) else None
  }

  /** `new Range({ start, end })`, a missing bound being `None`. */
  function NewRange(start: Option<Num>, end: Option<Num>): Range {
    Range(Bound(start), Bound(end))
  }

  /** `${x ?? ""}`. */
  function BoundToString(b: Option<int>): string {
    if b.Some? then IntToString(b.value) else ""
  }

  /** `range.toString()`: `bytes=<start>-<end>`, an absent bound printing as nothing. */
  function ToString(r: Range): (s: string)
    ensures StartsWith(s, Unit + "=")
    ensures ',' !in s
  {
    var a := BoundToString(r.start);
    var b := BoundToString(r.end);
    assert ',' !in a && ',' !in b;
    Unit + "=" + a + "-" + b
  }

  /**
   * The filter of `fromString`, on the numbers of one element (`NaN` for an
   * empty or unparsable side): both numbers with `0 <= start <= end`, or a
   * start `>= 0` alone, or an end `> 0` alone (a suffix length).
   */
  predicate Kept(start: Num, end: Num) {
    || (start.Int? && end.Int? && start.value >= 0 && start.value <= end.value)
    || (start.Int? && end == NaN && start.value >= 0)
    || (start == NaN && end.Int? && end.value > 0)
  }

  /** The same three shapes, stated on a constructed range. */
  predicate Satisfiable(r: Range) {
    || (r.start.Some? && r.end.Some? && 0 <= r.start.value <= r.end.value)
    || (r.start.Some? && r.end.None? && r.start.value >= 0)
    || (r.start.None? && r.end.Some? && r.end.value > 0)
  }

  /** `Number(side)` when the trimmed side is non-empty, `NaN` when it is empty. */
  function SideNumber(side: string): Num {
    if side != "" then NumberOf(side) else NaN
  }

  /** One comma-separated element: trimmed, split on `-` (at most two parts), each side trimmed. */
  function ParseElement(element: string): (r: Option<Range>)
    ensures r.Some? ==> Satisfiable(r.value) || r.value == Range(None, None)
  {
    var parts := Split(Trim(element), "-");
    var start := SideNumber(Trim(parts[0]));
    var end := SideNumber(if |parts| > 1 then Trim(parts[1]) else "");
    if Kept(start, end) then Some(NewRange(Some(start), Some(end))) else None
  }

  /** The kept elements, in input order. */
  function ParseElements(elements: seq<string>): (rs: seq<Range>)
    ensures |rs| <= |elements|
    ensures forall r | r in rs :: Satisfiable(r) || r == Range(None, None)
  {
    var parsed := seq(|elements|, i requires 0 <= i < |elements| => ParseElement(elements[i]));
    assert forall r | r in Somes(parsed) :: Some(r) in parsed;
    Somes(parsed)
  }

  /** The parse of the trimmed input. */
  function FromTrimmed(trimmed: string): (rs: seq<Range>)
    ensures !StartsWith(trimmed, Unit + "=") ==> rs == []
    ensures forall r | r in rs :: Satisfiable(r) || r == Range(None, None)
  {
    if !StartsWith(trimmed, Unit + "=") then [] else ParseElements(Split(trimmed[6..], ","))
  }

  /**
   * `Range.fromString(input)`: nothing for a missing or empty header or one
   * that does not start with `bytes=` once trimmed; otherwise the kept
   * elements in order.
   */
  function FromString(input: Option<string>): (rs: seq<Range>)
    ensures input.None? || input == Some("") ==> rs == []
    ensures input.Some? && !StartsWith(Trim(input.value), Unit + "=") ==> rs == []
    ensures forall r | r in rs :: Satisfiable(r) || r == Range(None, None)
  {
    if input.None? || input.value == "" then [] else FromTrimmed(Trim(input.value))
  }

  /** An element is kept exactly when its two numbers pass the filter. */
  lemma ParseElementKept(element: string)
    ensures ParseElements([element]) == if ParseElement(element).Some? then [ParseElement(element).value] else []
  {
    var parsed := seq(1, i requires 0 <= i < 1 => ParseElement([element][i]));
    assert parsed == [ParseElement(element)];
    assert parsed[1..] == [];
  }

  /** A bound that the constructor keeps. */
  predicate SafeBound(b: Option<int>) {
    b.Some? ==> 0 <= b.value <= MaxSafeInteger
  }

  /** A kept bound prints as digits, an absent one as nothing. */
  lemma BoundDigits(b: Option<int>)
    requires SafeBound(b)
    ensures b.Some? ==> IsDigits(BoundToString(b))
    ensures b.None? ==> BoundToString(b) == ""
    ensures '-' !in BoundToString(b) && ',' !in BoundToString(b)
  {
  }

  lemma BoundNumber(b: Option<int>)
    requires SafeBound(b)
    ensures Trim(BoundToString(b)) == BoundToString(b)
    ensures SideNumber(BoundToString(b)) == if b.Some? then Int(b.value) else NaN
  {
    if b.Some? {
      var s := NatToString(b.value);
      assert BoundToString(b) == s;
      assert !IsWhitespace(s[0]) && !IsWhitespace(s[|s| - 1]);
      TrimOfTrimmed(s);
      NatToStringValue(b.value);
    }
  }

  /** The printed form of one element, `<start>-<end>`. */
  function Element(r: Range): string {
    BoundToString(r.start) + "-" + BoundToString(r.end)
  }

  lemma ElementNoComma(r: Range)
    requires SafeBound(r.start) && SafeBound(r.end)
    ensures ',' !in Element(r)
  {
    BoundDigits(r.start);
    BoundDigits(r.end);
  }

  lemma ElementFirst(r: Range)
    requires SafeBound(r.start) && SafeBound(r.end)
    ensures IsDigit(Element(r)[0]) || Element(r)[0] == '-'
  {
    var a := BoundToString(r.start);
    BoundDigits(r.start);
    assert Element(r)[0] == if a == "" then '-' else a[0];
  }

  lemma ElementLast(r: Range)
    requires SafeBound(r.start) && SafeBound(r.end)
    ensures IsDigit(Element(r)[|Element(r)| - 1]) || Element(r)[|Element(r)| - 1] == '-'
  {
    var b := BoundToString(r.end);
    BoundDigits(r.end);
    assert Element(r)[|Element(r)| - 1] == if b == "" then '-' else b[|b| - 1];
  }

  lemma ElementSplit(r: Range)
    requires SafeBound(r.start) && SafeBound(r.end)
    ensures Split(Element(r), "-") == [BoundToString(r.start), BoundToString(r.end)]
  {
    BoundDigits(r.start);
    BoundDigits(r.end);
    SplitAt(BoundToString(r.start), '-', BoundToString(r.end));
    SplitWithout(BoundToString(r.end), '-');
  }

  lemma ElementTrimmed(r: Range)
    requires SafeBound(r.start) && SafeBound(r.end)
    ensures Trim(Element(r)) == Element(r)
  {
    ElementFirst(r);
    ElementLast(r);
    TrimOfTrimmed(Element(r));
  }

  /** An element whose two trimmed sides are known numbers parses to the constructed range. */
  lemma ParseSides(element: string, a: string, b: string)
    requires Trim(element) == element && Split(element, "-") == [a, b]
    requires Trim(a) == a && Trim(b) == b
    ensures ParseElement(element) == if Kept(SideNumber(a), SideNumber(b)) then Some(NewRange(Some(SideNumber(a)), Some(SideNumber(b)))) else None
  {
  }

  /** The printed bounds of a satisfiable range read back as numbers that pass the filter and rebuild it. */
  lemma SidesOfBounds(r: Range)
    requires Satisfiable(r) && SafeBound(r.start) && SafeBound(r.end)
    ensures Kept(SideNumber(BoundToString(r.start)), SideNumber(BoundToString(r.end)))
    ensures NewRange(Some(SideNumber(BoundToString(r.start))), Some(SideNumber(BoundToString(r.end)))) == r
  {
    BoundNumber(r.start);
    BoundNumber(r.end);
  }

  /** The element of a satisfiable range of safe bounds parses back to that range. */
  lemma ElementRoundTrip(r: Range)
    requires Satisfiable(r) && SafeBound(r.start) && SafeBound(r.end)
    ensures ParseElement(Element(r)) == Some(r)
  {
    var a, b := BoundToString(r.start), BoundToString(r.end);
    ElementTrimmed(r);
    ElementSplit(r);
    BoundNumber(r.start);
    BoundNumber(r.end);
    ParseSides(Element(r), a, b);
    SidesOfBounds(r);
  }

  lemma PrintedTail(r: Range)
    ensures ToString(r)[6..] == Element(r)
  {
  }

  lemma PrintedTrimmed(r: Range)
    requires SafeBound(r.start) && SafeBound(r.end)
    ensures Trim(ToString(r)) == ToString(r)
  {
    var s := ToString(r);
    var c := Element(r)[|Element(r)| - 1];
    ElementLast(r);
    assert s[0] == 'b';
    assert s[|s| - 1] == c;
    assert !IsWhitespace(c);
    TrimOfTrimmed(s);
  }

  /** `Range.fromString(r.toString())` gives back exactly `[r]` for every satisfiable range of safe bounds. */
  lemma RoundTrip(r: Range)
    requires Satisfiable(r) && SafeBound(r.start) && SafeBound(r.end)
    ensures FromString(Some(ToString(r))) == [r]
  {
    var element := Element(r);
    PrintedTrimmed(r);
    PrintedTail(r);
    ElementNoComma(r);
    SplitWithout(element, ',');
    ElementRoundTrip(r);
    ParseElementKept(element);
  }
}
