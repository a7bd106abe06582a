/**
 * The `Authorization` request header (src/headers/authorization.ts): an
 * authentication scheme from a fixed list and the credentials after it
 * (section 4.2 of RFC 7235), read by splitting the trimmed value on single
 * spaces.
 */
module AuthorizationHeader {
  import opened Wrappers
  import opened Strings

  datatype Scheme =
    | Aws4HmacSha256 | Basic | Bearer | Digest | Hoba | Mutual | OAuth | ScramSha1 | ScramSha256 | Vapid

  function Name(s: Scheme): string {
    match s
    case Aws4HmacSha256 => "AWS4-HMAC-SHA256"
    case Basic => "Basic"
    case Bearer => "Bearer"
    case Digest => "Digest"
    case Hoba => "HOBA"
    case Mutual => "Mutual"
    case OAuth => "OAuth"
    case ScramSha1 => "SCRAM-SHA-1"
    case ScramSha256 => "SCRAM-SHA-256"
    case Vapid => "vapid"
  }

  /** The scheme names `isValidType` accepts, compared case-sensitively. */
  const SchemeNames: seq<string> := [
    "Basic", "Bearer", "Digest", "HOBA", "Mutual", "OAuth", "SCRAM-SHA-1", "SCRAM-SHA-256", "vapid",
    "AWS4-HMAC-SHA256"
  ]

  /** The scheme a token names, when it is one of the accepted names. */
  function SchemeOf(token: string): (r: Option<Scheme>)
    ensures r.Some? <==> token in SchemeNames
    ensures r.Some? ==> Name(r.value) == token
  {
    if token == "Basic" then Some(Basic)
    else if token == "Bearer" then Some(Bearer)
    else if token == "Digest" then Some(Digest)
    else if token == "HOBA" then Some(Hoba)
    else if token == "Mutual" then Some(Mutual)
    else if token == "OAuth" then Some(OAuth)
    else if token == "SCRAM-SHA-1" then Some(ScramSha1)
    else if token == "SCRAM-SHA-256" then Some(ScramSha256)
    else if token == "vapid" then Some(Vapid)
    else if token == "AWS4-HMAC-SHA256" then Some(Aws4HmacSha256)
    else None
  }

  /** `Authorization.isValidType(input)`; a missing input is not valid. */
  function IsValidType(input: Option<string>): (b: bool)
    ensures b <==> input.Some? && input.value in SchemeNames
  {
    input.Some? && SchemeOf(input.value).Some?
  }

  /** Every scheme's name is valid and names that scheme. */
  lemma NameRead(s: Scheme)
    ensures SchemeOf(Name(s)) == Some(s)
  {
  }

  /** A scheme and its credentials; `None` is `null`, the constructor's default. */
  datatype Authorization = Authorization(scheme: Scheme, credentials: Option<string>)

  /** `toString()`: `scheme credentials` when there are credentials, else the scheme alone. */
  function ToString(a: Authorization): (s: string)
    ensures StartsWith(s, Name(a.scheme))
    ensures a.credentials.None? <==> |s| == |Name(a.scheme)|
  {
    if a.credentials.Some? then Name(a.scheme) + " " + a.credentials.value else Name(a.scheme)
  }

  /**
   * `Authorization.fromString(input)`: `null` for a missing or empty header;
   * otherwise the trimmed value split on `" "`, whose first token must be an
   * accepted scheme and whose second token, `""` when absent, becomes the
   * credentials. Further tokens are ignored.
   */
  function FromString(input: Option<string>): (r: Option<Authorization>)
    ensures input.None? || input == Some("") ==> r.None?
    ensures r.Some? <==> input.Some? && input.value != "" && Split(Trim(input.value), " ")[0] in SchemeNames
    ensures r.Some? ==> Name(r.value.scheme) == Split(Trim(input.value), " ")[0] && r.value.credentials.Some?
  {
    if input.None? || input.value == "" then None
    else
      var parts := Split(Trim(input.value), " ");
      var scheme := SchemeOf(parts[0]);
      if scheme.Some? then Some(Authorization(scheme.value, Some(if |parts| > 1 then parts[1] else ""))) else None
  }

  lemma NameShape(s: Scheme)
    ensures Name(s) != "" && Trimmed(Name(s)) && ' ' !in Name(s)
  {
    NameTrimmed(s);
  }

  lemma NameTrimmed(s: Scheme)
    ensures Name(s) != "" && Trimmed(Name(s))
  {
    match s
    case Aws4HmacSha256 =>
    case Basic =>
    case Bearer =>
    case Digest =>
    case Hoba =>
    case Mutual =>
    case OAuth =>
    case ScramSha1 =>
    case ScramSha256 =>
    case Vapid =>
  }

  /** Credentials that survive the split: no space, and nothing `trim` would cut from the end. */
  predicate Token(c: string) {
    ' ' !in c && (c == "" || !IsWhitespace(c[|c| - 1]))
  }

  /** `scheme credentials` is trimmed when the credentials form a token. */
  lemma TextTrimmed(s: Scheme, c: string)
    requires Token(c)
    ensures Trim(Name(s) + " " + c) == if c == "" then Name(s) else Name(s) + " " + c
  {
    var t := Name(s) + " " + c;
    NameShape(s);
    if c == "" {
      assert t == Name(s) + " ";
      TrimTrailingSpace(Name(s));
    } else {
      assert t[0] == Name(s)[0] && t[|t| - 1] == c[|c| - 1];
      TrimOfTrimmed(t);
    }
  }

  /**
   * Reading back: an authorization with token credentials, including empty
   * ones, is what `fromString` makes of its text.
   */
  lemma RoundTrip(a: Authorization)
    requires a.credentials.Some? && Token(a.credentials.value)
    ensures FromString(Some(ToString(a))) == Some(a)
  {
    var c := a.credentials.value;
    NameShape(a.scheme);
    TextTrimmed(a.scheme, c);
    NameRead(a.scheme);
    if c == "" {
      SplitWithout(Name(a.scheme), ' ');
    } else {
      SplitAt(Name(a.scheme), ' ', c);
      SplitWithout(c, ' ');
    }
  }

  /** `fromString(text).toString()` gives back a text of the form `scheme credentials`. */
  lemma TextRoundTrip(s: Scheme, c: string)
    requires Token(c)
    ensures FromString(Some(Name(s) + " " + c)) == Some(Authorization(s, Some(c)))
    ensures ToString(FromString(Some(Name(s) + " " + c)).value) == Name(s) + " " + c
  {
    RoundTrip(Authorization(s, Some(c)));
  }

  /**
   * A bare scheme reads as empty credentials, not `null`, so that its
   * `toString` gains a trailing space.
   */
  lemma BareScheme(s: Scheme)
    ensures FromString(Some(Name(s))) == Some(Authorization(s, Some("")))
    ensures ToString(FromString(Some(Name(s))).value) == Name(s) + " "
  {
    NameShape(s);
    TrimOfTrimmed(Name(s));
    SplitWithout(Name(s), ' ');
    NameRead(s);
  }

  /** The parse of a trimmed header that splits into the scheme, a token and more. */
  lemma ReadParts(input: string, s: Scheme, c: string, tail: seq<string>)
    requires input != "" && Trim(input) == input && Split(input, " ") == [Name(s), c] + tail
    ensures FromString(Some(input)) == Some(Authorization(s, Some(c)))
  {
    NameRead(s);
  }

  lemma ExtraTrimmed(s: Scheme, more: string)
    requires more != "" && !IsWhitespace(more[|more| - 1])
    ensures Trim(Name(s) + " " + more) == Name(s) + " " + more
  {
    var t := Name(s) + " " + more;
    NameTrimmed(s);
    assert t[0] == Name(s)[0] && t[|t| - 1] == more[|more| - 1];
    TrimOfTrimmed(t);
  }

  lemma ExtraSplit(s: Scheme, c: string, rest: string)
    requires ' ' !in c
    ensures Split(Name(s) + " " + (c + " " + rest), " ") == [Name(s), c] + Split(rest, " ")
  {
    NameShape(s);
    SplitAt(Name(s), ' ', c + " " + rest);
    SplitAt(c, ' ', rest);
  }

  /** Only the second token becomes the credentials: later ones are dropped. */
  lemma ExtraTokens(s: Scheme, c: string, rest: string)
    requires c != "" && ' ' !in c && rest != "" && !IsWhitespace(rest[|rest| - 1])
    ensures FromString(Some(Name(s) + " " + c + " " + rest)) == Some(Authorization(s, Some(c)))
  {
    var more := c + " " + rest;
    var t := Name(s) + " " + more;
    assert Name(s) + " " + c + " " + rest == t;
    assert more[|more| - 1] == rest[|rest| - 1];
    ExtraTrimmed(s, more);
    ExtraSplit(s, c, rest);
    ReadParts(t, s, c, Split(rest, " "));
  }
}
