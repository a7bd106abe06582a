/**
 * The `Content-Type` header (src/headers/content-type.ts), as in section
 * 3.1.1.1 of RFC 7231: a media type with, for `multipart/form-data`, a
 * `boundary` parameter and, for every other type, an optional `charset`.
 */
module ContentTypeHeader {
  import opened Wrappers
  import opened Strings

  const Multipart: string := "multipart/form-data"

  const BoundaryMissing: string := "`boundary` is missing"

  /** A constructed value; `None` is `null`. */
  datatype ContentType = ContentType(mediaType: string, charset: Option<string>, boundary: Option<string>)

  /** What the constructor can produce: a boundary exactly for multipart, a non-empty charset only for other types. */
  predicate Valid(ct: ContentType) {
    && (ct.boundary.Some? <==> ct.mediaType == Multipart)
    && (ct.boundary.Some? ==> ct.boundary.value != "")
    && (ct.charset.Some? ==> ct.mediaType != Multipart && ct.charset.value != "")
  }

  /**
   * `new ContentType({ type, charset, boundary })`; an absent or `null`
   * parameter is `None`. A multipart type without a non-empty boundary is a
   * `TypeError`.
   */
  function New(mediaType: string, charset: Option<string>, boundary: Option<string>): (r: Result<ContentType, string>)
    ensures r.Err? <==> mediaType == Multipart && (boundary.None? || boundary.value == "")
    ensures r.Err? ==> r.error == BoundaryMissing
    ensures r.Ok? ==> Valid(r.value) && r.value.mediaType == mediaType
    ensures r.Ok? && mediaType == Multipart ==> r.value.boundary == boundary && r.value.charset.None?
    ensures r.Ok? && mediaType != Multipart ==> r.value.boundary.None?
    ensures r.Ok? && mediaType != Multipart ==> (r.value.charset.Some? <==> charset.Some? && charset.value != "")
    ensures r.Ok? && r.value.charset.Some? ==> r.value.charset == charset
  {
    if mediaType == Multipart then
      if boundary.None? || boundary.value == "" then Err(BoundaryMissing)
      else Ok(ContentType(mediaType, None, boundary))
    else if charset.Some? && charset.value != "" then Ok(ContentType(mediaType, charset, None))
    else Ok(ContentType(mediaType, None, None))
  }

  /** `type; key=value`. */
  function WithParameter(t: string, key: string, value: string): string {
    t + "; " + key + "=" + value
  }

  /** `ct.toString()`: `type; boundary=b`, else `type; charset=c`, else `type`. */
  function ToString(ct: ContentType): (s: string)
    ensures StartsWith(s, ct.mediaType)
    ensures ct.boundary.None? && (ct.charset.None? || ct.charset.value == "") ==> s == ct.mediaType
  {
    if ct.boundary.Some? then WithParameter(ct.mediaType, "boundary", ct.boundary.value)
    else if ct.charset.Some? && ct.charset.value != "" then WithParameter(ct.mediaType, "charset", ct.charset.value)
    else ct.mediaType
  }

  /** True when `s` has no upper-case ASCII letter. */
  predicate IsLower(s: string) {
    forall i :: 0 <= i < |s| ==> !('A' <= s[i] <= 'Z')
  }

  lemma LowerIsLower(s: string)
    ensures IsLower(ToLower(s))
  {
  }

  /** The charset as read: dequoted (`""` when only the quotes are there), then lower-cased. */
  function CharsetOf(value: string): (r: string)
    ensures IsLower(r)
  {
    LowerIsLower(Dequote(value));
    ToLower(Dequote(value))
  }

  /**
   * The decision on the lower-cased type and the first `=`-separated,
   * trimmed, non-empty key and value of the first parameter.
   */
  function FromParameter(mediaType: string, key: string, value: string): (r: Option<ContentType>)
    ensures r.Some? ==> Valid(r.value) && r.value.mediaType == mediaType
    ensures mediaType == Multipart ==> (r.Some? <==> ToLower(key) == "boundary" && value != "")
    ensures r.Some? && r.value.charset.Some? ==> IsLower(r.value.charset.value)
  {
    if mediaType == Multipart then
      if ToLower(key) != "boundary" || value == "" then None
      else Some(New(mediaType, None, Some(value)).value)
    else if ToLower(key) == "charset" then Some(New(mediaType, Some(CharsetOf(value)), None).value)
    else Some(New(mediaType, None, None).value)
  }

  /** The type and the first parameter, both trimmed. */
  function FromTrimmedParts(rawType: string, extra: string): (r: Option<ContentType>)
    ensures rawType == "" ==> r.None?
    ensures r.Some? ==> Valid(r.value) && r.value.mediaType == ToLower(rawType) && IsLower(r.value.mediaType)
    ensures r.Some? && r.value.charset.Some? ==> IsLower(r.value.charset.value)
  {
    if rawType == "" then None
    else
      var kv := Pieces(extra, "=");
      var key := if |kv| > 0 then kv[0] else "";
      var value := if |kv| > 1 then kv[1] else "";
      LowerIsLower(rawType);
      FromParameter(ToLower(rawType), key, value)
  }

  /** `ContentType.fromString(input)`: `null` for a missing or empty header or an empty type. */
  function FromString(input: Option<string>): (r: Option<ContentType>)
    ensures input.None? || input == Some("") ==> r.None?
    ensures r.Some? ==> Valid(r.value) && IsLower(r.value.mediaType)
    ensures r.Some? && r.value.charset.Some? ==> IsLower(r.value.charset.value)
  {
    if input.None? || input.value == "" then None
    else
      var parts := Split(input.value, ";");
      FromTrimmedParts(Trim(parts[0]), if |parts| > 1 then Trim(parts[1]) else "")
  }

  /** A type or parameter value that survives printing and parsing: non-empty, trimmed, free of `;` and `=`. */
  predicate Token(s: string) {
    s != "" && Trimmed(s) && ';' !in s && '=' !in s
  }

  /** A value `ToString` prints in a form `FromString` reads back to it. */
  predicate Printable(ct: ContentType) {
    && Valid(ct)
    && Token(ct.mediaType) && IsLower(ct.mediaType)
    && (ct.boundary.Some? ==> Token(ct.boundary.value))
    && (ct.charset.Some? ==> Token(ct.charset.value) && IsLower(ct.charset.value))
    && (ct.charset.Some? ==> !(StartsWith(ct.charset.value, "\"") && EndsWith(ct.charset.value, "\"")))
  }

  lemma KeyWords()
    ensures ToLower("boundary") == "boundary" && ToLower("charset") == "charset"
    ensures Trimmed("boundary") && '=' !in "boundary" && Trimmed("charset") && '=' !in "charset"
  {
    ToLowerOfLower("boundary");
    ToLowerOfLower("charset");
  }

  lemma ParameterSplit(t: string, key: string, value: string)
    requires Token(t) && Token(key) && Token(value)
    ensures Split(t + "; " + key + "=" + value, ";") == [t, " " + key + "=" + value]
  {
    var rest := " " + key + "=" + value;
    assert t + "; " + key + "=" + value == t + [';'] + rest;
    assert ';' !in rest;
    SplitTwo(t, ';', rest);
  }

  lemma ParameterTrim(key: string, value: string)
    requires Token(key) && Token(value)
    ensures Trim(" " + key + "=" + value) == key + "=" + value
  {
    var kv := key + "=" + value;
    assert Trimmed(kv) by {
      assert kv[0] == key[0] && kv[|kv| - 1] == value[|value| - 1];
    }
    assert " " + key + "=" + value == " " + kv;
    TrimLeadingSpace(kv);
  }

  lemma KeyValuePieces(key: string, value: string)
    requires Token(key) && Token(value)
    ensures Pieces(key + "=" + value, "=") == [key, value]
  {
    PiecesTwo(key, '=', value);
  }

  lemma ToLowerIdem(s: string)
    requires IsLower(s)
    ensures ToLower(s) == s
  {
    ToLowerOfLower(s);
  }

  lemma ReadSplit(s: string, parts: seq<string>, t: string, extra: string)
    requires s != "" && Split(s, ";") == parts && |parts| > 1 && Trim(parts[0]) == t && Trim(parts[1]) == extra
    ensures FromString(Some(s)) == FromTrimmedParts(t, extra)
  {
  }

  lemma ReadTrimmedParts(t: string, key: string, value: string)
    requires Token(t) && IsLower(t) && Token(key) && Token(value)
    ensures FromTrimmedParts(t, key + "=" + value) == FromParameter(t, key, value)
  {
    KeyValuePieces(key, value);
    ToLowerIdem(t);
  }

  /** `type; key=value` is read as the type with that one parameter. */
  lemma ReadParameter(t: string, key: string, value: string)
    requires Token(t) && IsLower(t) && Token(key) && Token(value)
    ensures FromString(Some(WithParameter(t, key, value))) == FromParameter(t, key, value)
  {
    var s := WithParameter(t, key, value);
    ParameterSplit(t, key, value);
    ParameterTrim(key, value);
    TrimOfTrimmed(t);
    ReadSplit(s, [t, " " + key + "=" + value], t, key + "=" + value);
    ReadTrimmedParts(t, key, value);
  }

  /** A bare type is read as that type with no parameter. */
  lemma ReadBare(t: string)
    requires Token(t) && IsLower(t)
    ensures FromString(Some(t)) == FromParameter(t, "", "")
  {
    SplitWithout(t, ';');
    TrimOfTrimmed(t);
    SplitWithout("", '=');
    assert Pieces("", "=") == [];
    ToLowerIdem(t);
  }

  /** Only the first parameter is read: anything after a second `;` makes no difference. */
  lemma FirstParameterOnly(t: string, extra: string, rest: string)
    requires ';' !in t && ';' !in extra
    ensures FromString(Some(t + ";" + extra + ";" + rest)) == FromString(Some(t + ";" + extra))
  {
    var long := t + ";" + extra + ";" + rest;
    var short := t + ";" + extra;
    assert long == t + [';'] + (extra + [';'] + rest);
    SplitAt(t, ';', extra + [';'] + rest);
    SplitAt(extra, ';', rest);
    assert short == t + [';'] + extra;
    SplitTwo(t, ';', extra);
    var parts := Split(long, ";");
    assert parts[0] == t && parts[1] == extra;
    ReadSplit(long, parts, Trim(t), Trim(extra));
    ReadSplit(short, [t, extra], Trim(t), Trim(extra));
  }

  /** `ContentType.fromString(ct.toString())` gives back `ct` for every printable value. */
  lemma RoundTrip(ct: ContentType)
    requires Printable(ct)
    ensures FromString(Some(ToString(ct))) == Some(ct)
  {
    KeyWords();
    if ct.boundary.Some? {
      ReadParameter(ct.mediaType, "boundary", ct.boundary.value);
    } else if ct.charset.Some? {
      var c := ct.charset.value;
      ReadParameter(ct.mediaType, "charset", c);
      ToLowerIdem(c);
      assert CharsetOf(c) == c;
    } else {
      ReadBare(ct.mediaType);
    }
  }
}
