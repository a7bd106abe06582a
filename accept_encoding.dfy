/**
 * The `Accept-Encoding` request header (src/headers/accept-encoding.ts):
 * comma-separated codings, each optionally weighted with `;q=`, read into
 * the known codings and ordered by weight, heaviest first, an unweighted
 * coding weighing 1 and equal weights keeping their order (section 5.3.4 of
 * RFC 7231).
 */
module AcceptEncodingHeader {
  import opened Wrappers
  import opened Strings
  import opened Decimals
  import opened Sorting

  datatype Encoding = Star | Br | Compress | Deflate | Gzip | Identity | XGzip

  function Name(e: Encoding): string {
    match e
    case Star => "*"
    case Br => "br"
    case Compress => "compress"
    case Deflate => "deflate"
    case Gzip => "gzip"
    case Identity => "identity"
    case XGzip => "x-gzip"
  }

  /** The names `fromString` keeps. */
  const Names: seq<string> := ["gzip", "x-gzip", "compress", "deflate", "br", "*", "identity"]

  /** The coding a trimmed name stands for, when it is one of the kept names. */
  function EncodingOf(name: string): (r: Option<Encoding>)
    ensures r.Some? <==> name in Names
    ensures r.Some? ==> Name(r.value) == name
  {
    if name == "gzip" then Some(Gzip)
    else if name == "x-gzip" then Some(XGzip)
    else if name == "compress" then Some(Compress)
    else if name == "deflate" then Some(Deflate)
    else if name == "br" then Some(Br)
    else if name == "*" then Some(Star)
    else if name == "identity" then Some(Identity)
    else None
  }

  /** Every coding's name is kept, and read back as that coding. */
  lemma NameRead(e: Encoding)
    ensures EncodingOf(Name(e)) == Some(e)
  {
  }

  /** One coding with its weight; `None` is a `q_value` of `null`. */
  datatype AcceptEncoding = AcceptEncoding(encoding: Encoding, q: Option<Decimal>)

  /** `toString()`: the name, followed by `;q=<weight>` when there is a weight. */
  function ToString(a: AcceptEncoding): (s: string)
    ensures StartsWith(s, Name(a.encoding))
  {
    if a.q.Some? then Name(a.encoding) + ";q=" + Text(a.q.value) else Name(a.encoding)
  }

  /** The key the sort compares: `q_value ?? 1`. */
  function Weight(a: AcceptEncoding): real {
    if a.q.Some? then Value(a.q.value) else 1.0
  }

  // Parsing

  /** The header value: one string or several, which `fromString` joins with commas. */
  datatype Input = Single(text: string) | Several(items: seq<string>)

  function Joined(input: Input): (r: string)
    ensures input.Single? ==> r == input.text
    ensures input.Several? ==> r == Join(input.items, ",")
    ensures input.Several? && |input.items| == 1 ==> r == input.items[0]
  {
    match input
    case Single(text) => text
    case Several(items) => Join(items, ",")
  }

  /**
   * One comma-separated element: trimmed and split on `;q=`; the name is the
   * trimmed first part, the weight `Number` of the trimmed second part (`NaN`,
   * hence no weight, when there is none), and an unknown name drops the element.
   */
  function ParseElement(element: string): (r: Option<AcceptEncoding>)
    ensures r.Some? ==> Name(r.value.encoding) == Trim(Split(Trim(element), ";q=")[0])
  {
    var parts := Split(Trim(element), ";q=");
    var encoding := EncodingOf(Trim(parts[0]));
    var q := if |parts| > 1 then Parse(Trim(parts[1])) else None;
    if encoding.Some? then Some(AcceptEncoding(encoding.value, q)) else None
  }

  /** The kept elements of the joined text, in input order. */
  function Unsorted(text: string): (r: seq<AcceptEncoding>)
    ensures |r| <= |Split(text, ",")|
  {
    var elements := Split(text, ",");
    Somes(seq(|elements|, i requires 0 <= i < |elements| => ParseElement(elements[i])))
  }

  /**
   * `AcceptEncoding.fromString(input)`: nothing for a missing header;
   * otherwise the kept elements, heaviest first, those of equal weight in the
   * order they were written.
   */
  function FromString(input: Option<Input>): (r: seq<AcceptEncoding>)
    ensures input.None? ==> r == []
    ensures Descending(Weight, r)
    ensures input.Some? ==> multiset(r) == multiset(Unsorted(Joined(input.value)))
    ensures input.Some? ==> forall w :: OfKey(Weight, r, w) == OfKey(Weight, Unsorted(Joined(input.value)), w)
  {
    if input.None? then []
    else
      var u := Unsorted(Joined(input.value));
      SortDescending(Weight, u);
      assert forall w :: OfKey(Weight, Sort(Weight, u), w) == OfKey(Weight, u, w) by {
        forall w ensures OfKey(Weight, Sort(Weight, u), w) == OfKey(Weight, u, w) {
          SortStable(Weight, u, w);
        }
      }
      Sort(Weight, u)
  }

  // Round trips

  /** A weight that prints as it reads: in canonical form. */
  predicate WellFormed(a: AcceptEncoding) {
    a.q.Some? ==> Canonical(a.q.value)
  }

  lemma NameTrimmed(e: Encoding)
    ensures Name(e) != "" && Trimmed(Name(e))
  {
    match e
    case Star =>
    case Br =>
    case Compress =>
    case Deflate =>
    case Gzip =>
    case Identity =>
    case XGzip =>
  }

  lemma NameSeparators(e: Encoding)
    ensures ';' !in Name(e) && ',' !in Name(e)
  {
  }

  /** A coding name and a weight without `;` split apart at `;q=`. */
  lemma WeightedSplit(e: Encoding, t: string)
    requires ';' !in t
    ensures Split(Name(e) + ";q=" + t, ";q=") == [Name(e), t]
  {
    NameSeparators(e);
    SplitAtSep(Name(e), ";q=", t);
    SplitWithoutSep(t, ";q=");
  }

  /** `name;q=t` is read as the coding weighted with `Number(t)`. */
  lemma WeightedElement(e: Encoding, t: string)
    requires Trimmed(t) && ';' !in t
    ensures ParseElement(Name(e) + ";q=" + t) == Some(AcceptEncoding(e, Parse(t)))
  {
    var s := Name(e) + ";q=" + t;
    NameTrimmed(e);
    assert s[0] == Name(e)[0];
    assert s[|s| - 1] == if t == "" then '=' else t[|t| - 1];
    TrimOfTrimmed(s);
    WeightedSplit(e, t);
    TrimOfTrimmed(Name(e));
    TrimOfTrimmed(t);
    NameRead(e);
  }

  /** A bare name is read as the unweighted coding. */
  lemma BareElement(e: Encoding)
    ensures ParseElement(Name(e)) == Some(AcceptEncoding(e, None))
  {
    NameTrimmed(e);
    NameSeparators(e);
    TrimOfTrimmed(Name(e));
    SplitWithoutSep(Name(e), ";q=");
    NameRead(e);
  }

  lemma TextShape(d: Decimal)
    requires Canonical(d)
    ensures Trimmed(Text(d)) && ';' !in Text(d) && ',' !in Text(d)
  {
    TextChars(d);
  }

  /** A printed coding reads back as itself. */
  lemma ElementRoundTrip(a: AcceptEncoding)
    requires WellFormed(a)
    ensures ParseElement(ToString(a)) == Some(a)
    ensures ',' !in ToString(a)
  {
    NameSeparators(a.encoding);
    if a.q.Some? {
      TextShape(a.q.value);
      WeightedElement(a.encoding, Text(a.q.value));
      Decimals.RoundTrip(a.q.value);
    } else {
      BareElement(a.encoding);
    }
  }

  /** `Number("")` is `0`: `name;q=` weighs nothing, and sorts last. */
  lemma EmptyWeight(e: Encoding)
    ensures ParseElement(Name(e) + ";q=") == Some(AcceptEncoding(e, Some(Decimal(0, ""))))
  {
    WeightedElement(e, "");
    assert Name(e) + ";q=" + "" == Name(e) + ";q=";
  }

  /** A weight that is not a number (`NaN`) leaves the coding unweighted. */
  lemma UnreadableWeight(e: Encoding, t: string)
    requires Trimmed(t) && ';' !in t && Parse(t).None?
    ensures ParseElement(Name(e) + ";q=" + t) == Some(AcceptEncoding(e, None))
  {
    WeightedElement(e, t);
  }


  /** The printed elements of a well-formed list, joined with commas, read back as that list. */
  lemma UnsortedRoundTrip(codings: seq<AcceptEncoding>)
    requires codings != [] && forall i :: 0 <= i < |codings| ==> WellFormed(codings[i])
    ensures Unsorted(Join(Map(ToString, codings), ",")) == codings
  {
    var texts := Map(ToString, codings);
    forall i | 0 <= i < |texts| ensures ',' !in texts[i] && ParseElement(texts[i]) == Some(codings[i]) {
      ElementRoundTrip(codings[i]);
    }
    SplitJoin(texts, ',');
    var parsed := seq(|texts|, i requires 0 <= i < |texts| => ParseElement(texts[i]));
    SomesAll(parsed, codings);
  }

  /**
   * A well-formed list already heaviest first is what `fromString` makes of
   * its printed elements, given joined or as an array.
   */
  lemma RoundTrip(codings: seq<AcceptEncoding>)
    requires codings != [] && forall i :: 0 <= i < |codings| ==> WellFormed(codings[i])
    requires Descending(Weight, codings)
    ensures FromString(Some(Single(Join(Map(ToString, codings), ",")))) == codings
    ensures FromString(Some(Several(Map(ToString, codings)))) == codings
  {
    UnsortedRoundTrip(codings);
    SortOfDescending(Weight, codings);
  }
}
