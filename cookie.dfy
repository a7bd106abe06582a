/**
 * Cookies (src/headers/cookie.ts): the `Set-Cookie` value a response sends,
 * with the attributes of section 4.1 of RFC 6265 and the `__Secure-` and
 * `__Host-` name prefixes, and the parser of a request's `Cookie` header.
 */
module CookieHeader {
  import opened Wrappers
  import opened Strings

  datatype SameSite = Lax | None_ | Strict

  function SameSiteName(s: SameSite): string {
    match s
    case Lax => "Lax"
    case None_ => "None"
    case Strict => "Strict"
  }

  /**
   * The stored fields. `expires` is a date as its millisecond timestamp;
   * `domain`, `path` and `secure` are the values given, which the getters
   * below adjust for the name prefixes.
   */
  datatype Cookie = Cookie(
    key: string,
    value: string,
    expires: Option<int>,
    maxAge: Option<int>,
    domain: Option<string>,
    path: Option<string>,
    secureFlag: bool,
    httpOnly: bool,
    sameSite: SameSite)

  /**
   * The constructor's argument. An absent optional field is `None`; `path`
   * distinguishes an absent path (`None`, which defaults to `"/"`) from an
   * explicit `null` (`Some(None)`).
   */
  datatype CookieInit = CookieInit(
    key: string,
    value: string,
    expires: Option<int>,
    maxAge: Option<int>,
    domain: Option<string>,
    path: Option<Option<string>>,
    secure: Option<bool>,
    httpOnly: Option<bool>,
    sameSite: Option<SameSite>)

  /** `new Cookie({ key, value, ... })`: the documented defaults fill every absent field. */
  function New(init: CookieInit): (c: Cookie)
    ensures c.key == init.key && c.value == init.value
    ensures init.path.None? ==> c.path == Some("/")
    ensures init.secure.None? ==> !c.secureFlag
    ensures init.httpOnly.None? ==> c.httpOnly
    ensures init.sameSite.None? ==> c.sameSite == Lax
  {
    Cookie(init.key, init.value, init.expires, init.maxAge, init.domain,
           init.path.GetOr(Some("/")), init.secure.GetOr(false), init.httpOnly.GetOr(true),
           init.sameSite.GetOr(Lax))
  }

  /** `new Cookie({ key, value })`, as the parser builds it. */
  function Plain(key: string, value: string): (c: Cookie)
    ensures c.key == key && c.value == value
  {
    New(CookieInit(key, value, None, None, None, None, None, None, None))
  }

  predicate IsHost(c: Cookie) {
    StartsWith(c.key, "__Host-")
  }

  /** The `domain` getter: a `__Host-` cookie never has a domain. */
  function Domain(c: Cookie): (d: Option<string>)
    ensures IsHost(c) ==> d.None?
    ensures !IsHost(c) ==> d == c.domain
  {
    if IsHost(c) then None else c.domain
  }

  /** The `path` getter: a `__Host-` cookie always has path `/`. */
  function Path(c: Cookie): (p: Option<string>)
    ensures IsHost(c) ==> p == Some("/")
    ensures !IsHost(c) ==> p == c.path
  {
    if IsHost(c) then Some("/") else c.path
  }

  /** The `secure` getter. */
  predicate Secure(c: Cookie) {
    StartsWith(c.key, "__Secure-") || IsHost(c) || c.sameSite == None_ || c.secureFlag
  }

  /** The defaults: no expiry, no max age, no domain, path `/`, HTTP-only, `Lax`, and secure only by prefix. */
  lemma Defaults(key: string, value: string)
    ensures var c := Plain(key, value);
      && c.expires.None? && c.maxAge.None? && Domain(c).None? && Path(c) == Some("/")
      && c.httpOnly && c.sameSite == Lax
      && (Secure(c) <==> StartsWith(key, "__Secure-") || StartsWith(key, "__Host-"))
  {
  }

  /** One `; `-separated attribute of the `Set-Cookie` text. */
  datatype Attribute =
    | MaxAge(seconds: int)
    | Expires(date: int)
    | DomainAttr(domain: string)
    | PathAttr(path: string)
    | SecureAttr
    | HttpOnlyAttr
    | SameSiteAttr(s: SameSite)

  /** The position an attribute takes in the text. */
  function Rank(a: Attribute): nat {
    match a
    case MaxAge(_) => 0
    case Expires(_) => 0
    case DomainAttr(_) => 1
    case PathAttr(_) => 2
    case SecureAttr => 3
    case HttpOnlyAttr => 4
    case SameSiteAttr(_) => 5
  }

  /** Each attribute ranks strictly below the next. */
  predicate Ascending(attrs: seq<Attribute>) {
    forall i :: 0 <= i < |attrs| - 1 ==> Rank(attrs[i]) < Rank(attrs[i + 1])
  }

  function If(b: bool, a: Attribute): Option<Attribute> {
    if b then Some(a) else None
  }

  /** Max-Age when there is one, else Expires when there is a date. */
  function Lifetime(c: Cookie): Option<Attribute> {
    if c.maxAge.Some? then Some(MaxAge(c.maxAge.value))
    else if c.expires.Some? then Some(Expires(c.expires.value))
    else None
  }

  /** The six places of the text, each holding its attribute or nothing. */
  function Slots(c: Cookie): seq<Option<Attribute>> {
    [ Lifetime(c),
      if Domain(c).Some? then Some(DomainAttr(Domain(c).value)) else None,
      if Path(c).Some? then Some(PathAttr(Path(c).value)) else None,
      If(Secure(c), SecureAttr),
      If(c.httpOnly, HttpOnlyAttr),
      Some(SameSiteAttr(c.sameSite)) ]
  }

  /** Slot `i` of `slots` (counting from `from`) only holds an attribute of rank `from + i`. */
  predicate Ranked(slots: seq<Option<Attribute>>, from: nat) {
    forall i :: 0 <= i < |slots| && slots[i].Some? ==> Rank(slots[i].value) == from + i
  }

  lemma {:induction false} RankedAscending(slots: seq<Option<Attribute>>, from: nat)
    requires Ranked(slots, from)
    ensures Ascending(Somes(slots))
    ensures Somes(slots) != [] ==> Rank(Somes(slots)[0]) >= from
    decreases |slots|
  {
    if slots != [] {
      var rest := slots[1..];
      assert Ranked(rest, from + 1) by {
        forall i | 0 <= i < |rest| && rest[i].Some? ensures Rank(rest[i].value) == from + 1 + i {
          assert rest[i] == slots[i + 1];
        }
      }
      RankedAscending(rest, from + 1);
    }
  }

  lemma SlotsRanked(c: Cookie)
    ensures |Slots(c)| == 6 && Ranked(Slots(c), 0)
  {
  }

  /** In ranked slots an attribute can only sit in the slot of its rank. */
  lemma InRanked(slots: seq<Option<Attribute>>, a: Attribute)
    requires Ranked(slots, 0)
    ensures Some(a) in slots <==> Rank(a) < |slots| && slots[Rank(a)] == Some(a)
  {
    if Some(a) in slots {
      var i :| 0 <= i < |slots| && slots[i] == Some(a);
      assert Rank(slots[i].value) == i;
    }
  }

  /** The attributes `toString` emits: the present slots, in order. */
  function Attributes(c: Cookie): (attrs: seq<Attribute>)
    ensures Ascending(attrs)
  {
    SlotsRanked(c);
    RankedAscending(Slots(c), 0);
    Somes(Slots(c))
  }

  /** An attribute appears exactly when its slot holds it. */
  lemma InAttributes(c: Cookie, a: Attribute)
    ensures a in Attributes(c) <==> Slots(c)[Rank(a)] == Some(a)
  {
    SomesMembers(Slots(c));
    SlotsRanked(c);
    InRanked(Slots(c), a);
  }

  /** `Secure` and `HttpOnly` appear exactly when the cookie is secure or HTTP-only; `SameSite` always. */
  lemma AttributesFlags(c: Cookie)
    ensures SecureAttr in Attributes(c) <==> Secure(c)
    ensures HttpOnlyAttr in Attributes(c) <==> c.httpOnly
    ensures SameSiteAttr(c.sameSite) in Attributes(c)
  {
    InAttributes(c, SecureAttr);
    InAttributes(c, HttpOnlyAttr);
    InAttributes(c, SameSiteAttr(c.sameSite));
  }

  /** `Max-Age` appears when there is one; otherwise `Expires` appears exactly when there is a date. */
  lemma AttributesLifetime(c: Cookie)
    ensures c.maxAge.Some? ==> MaxAge(c.maxAge.value) in Attributes(c)
    ensures c.maxAge.Some? || c.expires.None? ==> forall t :: Expires(t) !in Attributes(c)
    ensures c.maxAge.None? ==> forall n :: MaxAge(n) !in Attributes(c)
    ensures c.maxAge.None? && c.expires.Some? ==> Expires(c.expires.value) in Attributes(c)
  {
    if c.maxAge.Some? {
      InAttributes(c, MaxAge(c.maxAge.value));
    } else {
      forall n ensures MaxAge(n) !in Attributes(c) {
        InAttributes(c, MaxAge(n));
      }
      if c.expires.Some? {
        InAttributes(c, Expires(c.expires.value));
      }
    }
    if c.maxAge.Some? || c.expires.None? {
      forall t ensures Expires(t) !in Attributes(c) {
        InAttributes(c, Expires(t));
      }
    }
  }

  /** `Domain` and `Path` appear with the getters' values, exactly when those are present. */
  lemma AttributesLocation(c: Cookie)
    ensures forall d :: DomainAttr(d) in Attributes(c) <==> Domain(c) == Some(d)
    ensures forall p :: PathAttr(p) in Attributes(c) <==> Path(c) == Some(p)
  {
    forall d ensures DomainAttr(d) in Attributes(c) <==> Domain(c) == Some(d) {
      InAttributes(c, DomainAttr(d));
    }
    forall p ensures PathAttr(p) in Attributes(c) <==> Path(c) == Some(p) {
      InAttributes(c, PathAttr(p));
    }
  }

  /** The text of one attribute; `utc` is `Date.prototype.toUTCString`. */
  function AttributeText(a: Attribute, utc: int -> string): string {
    match a
    case MaxAge(n) => "Max-Age=" + IntToString(n)
    case Expires(t) => "Expires=" + utc(t)
    case DomainAttr(d) => "Domain=" + d
    case PathAttr(p) => "Path=" + p
    case SecureAttr => "Secure"
    case HttpOnlyAttr => "HttpOnly"
    case SameSiteAttr(s) => SameSiteText(s)
  }

  function SameSiteText(s: SameSite): string {
    "SameSite=" + SameSiteName(s)
  }

  function AttributesText(attrs: seq<Attribute>, utc: int -> string): string {
    if attrs == [] then "" else "; " + AttributeText(attrs[0], utc) + AttributesText(attrs[1..], utc)
  }

  /** `cookie.toString()`: `key=value` and then each attribute, `; `-separated, ending with `SameSite`. */
  function ToString(c: Cookie, utc: int -> string): (s: string)
    ensures StartsWith(s, c.key + "=" + c.value)
    ensures EndsWith(s, "; " + SameSiteText(c.sameSite))
  {
    var head := c.key + "=" + c.value;
    var text := AttributesText(Attributes(c), utc);
    LastIsSameSite(c);
    TextEnds(Attributes(c), c.sameSite, utc);
    EndsWithAfter(head, text, "; " + SameSiteText(c.sameSite));
    head + text
  }

  lemma TextEnds(attrs: seq<Attribute>, sameSite: SameSite, utc: int -> string)
    requires |attrs| > 0 && attrs[|attrs| - 1] == SameSiteAttr(sameSite)
    ensures EndsWith(AttributesText(attrs, utc), "; " + SameSiteText(sameSite))
  {
    var text := AttributesText(attrs, utc);
    var last := "; " + AttributeText(attrs[|attrs| - 1], utc);
    AttributesTextEnds(attrs, utc);
    assert EndsWith(text, last);
    assert last == "; " + SameSiteText(sameSite);
  }

  lemma LastIsSameSite(c: Cookie)
    ensures |Attributes(c)| > 0 && Attributes(c)[|Attributes(c)| - 1] == SameSiteAttr(c.sameSite)
  {
    var slots := Slots(c);
    assert slots == slots[..5] + [Some(SameSiteAttr(c.sameSite))];
    SomesAppend(slots[..5], [Some(SameSiteAttr(c.sameSite))]);
    assert Somes([Some(SameSiteAttr(c.sameSite))]) == [SameSiteAttr(c.sameSite)];
  }

  lemma {:induction false} AttributesTextEnds(attrs: seq<Attribute>, utc: int -> string)
    requires |attrs| > 0
    ensures EndsWith(AttributesText(attrs, utc), "; " + AttributeText(attrs[|attrs| - 1], utc))
    decreases |attrs|
  {
    var head := "; " + AttributeText(attrs[0], utc);
    var rest := AttributesText(attrs[1..], utc);
    assert AttributesText(attrs, utc) == head + rest;
    if |attrs| > 1 {
      AttributesTextEnds(attrs[1..], utc);
      assert attrs[1..][|attrs[1..]| - 1] == attrs[|attrs| - 1];
      EndsWithAfter(head, rest, "; " + AttributeText(attrs[|attrs| - 1], utc));
    } else {
      assert rest == "";
      assert head + rest == head;
    }
  }

  /** A `Cookie` header piece `key=value` split on its first `=` (at most two parts), trimmed and dequoted. */
  function PairOf(piece: string): (string, string) {
    var parts := Split(piece, "=");
    var key := Trim(parts[0]);
    var rawValue := if |parts| > 1 then Trim(parts[1]) else "";
    (key, Dequote(rawValue))
  }

  /**
   * A piece `key=value` gives its trimmed key and its trimmed, dequoted
   * value; whatever follows a second `=` is dropped by `split("=", 2)`.
   */
  lemma PairRead(key: string, value: string, rest: string)
    requires '=' !in key && '=' !in value
    ensures PairOf(key + "=" + value) == (Trim(key), Dequote(Trim(value)))
    ensures PairOf(key + "=" + value + "=" + rest) == (Trim(key), Dequote(Trim(value)))
  {
    SplitAt(key, '=', value);
    SplitWithout(value, '=');
    assert key + "=" + value + "=" + rest == key + ['='] + (value + "=" + rest);
    SplitAt(key, '=', value + "=" + rest);
    SplitAt(value, '=', rest);
  }

  predicate HasKey(cookies: seq<Cookie>, key: string) {
    exists i :: 0 <= i < |cookies| && cookies[i].key == key
  }

  /** A pair is used when both its key and its value are non-empty. */
  predicate Usable(pair: (string, string)) {
    pair.0 != "" && pair.1 != ""
  }

  /** One step of the loop: a usable pair whose key is new adds a cookie. */
  function Step(output: seq<Cookie>, pair: (string, string)): seq<Cookie> {
    if Usable(pair) && !HasKey(output, pair.0) then output + [Plain(pair.0, pair.1)] else output
  }

  /** The cookies the loop has collected after the given pairs. */
  function Collected(pairs: seq<(string, string)>): seq<Cookie>
    decreases |pairs|
  {
    if pairs == [] then [] else Step(Collected(pairs[..|pairs| - 1]), pairs[|pairs| - 1])
  }

  /** The `; `-separated pieces of the header, trimmed, empty ones dropped. */
  function PiecesOf(input: string): seq<string> {
    Pieces(Trim(input), "; ")
  }


  /** What `Cookie.fromString(input)` returns. */
  function Parse(input: Option<string>): seq<Cookie> {
    if input.None? || |input.value| < 3 then [] else Collected(Map(PairOf, PiecesOf(input.value)))
  }

  /** `output.find((c) => c.key === key)`, as a found flag. */
  method Find(output: seq<Cookie>, key: string) returns (found: bool)
    ensures found <==> HasKey(output, key)
  {
    found := false;
    var j := 0;
    while j < |output|
      invariant 0 <= j <= |output|
      invariant found <==> exists k :: 0 <= k < j && output[k].key == key
    {
      if output[j].key == key {
        found := true;
      }
      j := j + 1;
    }
  }

  /** The `for` loop of `fromString` over the pieces' pairs, pushing the first cookie of each name. */
  method Collect(pairs: seq<(string, string)>) returns (output: seq<Cookie>)
    ensures output == Collected(pairs)
    ensures DistinctKeys(output)
  {
    output := [];
    var i := 0;
    while i < |pairs|
      invariant 0 <= i <= |pairs|
      invariant output == Collected(pairs[..i])
    {
      var (key, value) := pairs[i];
      var found := Find(output, key);
      if key != "" && value != "" && !found {
        output := output + [Plain(key, value)];
      }
      assert pairs[..i + 1][..i] == pairs[..i];
      i := i + 1;
    }
    assert pairs[..|pairs|] == pairs;
    CollectedDistinct(pairs);
  }

  /** `Cookie.fromString(input)`: nothing for a missing or too short input, else the collected cookies. */
  method FromString(input: Option<string>) returns (output: seq<Cookie>)
    ensures output == Parse(input)
    ensures input.None? || |input.value| < 3 ==> output == []
    ensures DistinctKeys(output)
  {
    if input.None? || |input.value| < 3 {
      return [];
    }
    output := Collect(Map(PairOf, PiecesOf(input.value)));
  }

  /** No two cookies share a name. */
  predicate DistinctKeys(cookies: seq<Cookie>) {
    forall i, j :: 0 <= i < j < |cookies| ==> cookies[i].key != cookies[j].key
  }

  /** No two collected cookies share a name. */
  lemma {:induction false} CollectedDistinct(pairs: seq<(string, string)>)
    ensures DistinctKeys(Collected(pairs))
    decreases |pairs|
  {
    if pairs != [] {
      var init := pairs[..|pairs| - 1];
      var last := pairs[|pairs| - 1];
      var before := Collected(init);
      CollectedDistinct(init);
      if Usable(last) && !HasKey(before, last.0) {
        var r := before + [Plain(last.0, last.1)];
        assert Collected(pairs) == r;
        assert r[|before|].key == last.0;
        forall i, j | 0 <= i < j < |r| ensures r[i].key != r[j].key {
          assert r[i] == before[i];
          if j < |before| {
            assert r[j] == before[j];
          } else {
            assert r[j] == r[|before|];
            assert before[i].key != last.0;
          }
        }
      } else {
        assert Collected(pairs) == before;
      }
    }
  }

  /** Every collected cookie has a non-empty name and value. */
  lemma {:induction false} CollectedUsable(pairs: seq<(string, string)>)
    ensures forall c | c in Collected(pairs) :: c.key != "" && c.value != ""
    decreases |pairs|
  {
    if pairs != [] {
      var init := pairs[..|pairs| - 1];
      var last := pairs[|pairs| - 1];
      CollectedUsable(init);
      assert Collected(pairs) == Step(Collected(init), last);
      if Usable(last) && !HasKey(Collected(init), last.0) {
        var added := Plain(last.0, last.1);
        assert Collected(pairs) == Collected(init) + [added];
        assert added.key != "" && added.value != "";
      }
    }
  }

  /** Collecting only ever appends: earlier cookies stay where they are. */
  lemma {:induction false} CollectedGrows(pairs: seq<(string, string)>, n: nat)
    requires n <= |pairs|
    ensures var r := Collected(pairs); var q := Collected(pairs[..n]); |q| <= |r| && r[..|q|] == q
    decreases |pairs| - n
  {
    if n < |pairs| {
      var init := pairs[..|pairs| - 1];
      CollectedGrows(init, n);
      assert init[..n] == pairs[..n];
    } else {
      assert pairs[..n] == pairs;
    }
  }

  /** Every usable pair's name ends up among the collected cookies. */
  lemma {:induction false} CollectedComplete(pairs: seq<(string, string)>, j: nat)
    requires j < |pairs| && Usable(pairs[j])
    ensures HasKey(Collected(pairs), pairs[j].0)
  {
    var prefix := pairs[..j + 1];
    assert prefix[..j] == pairs[..j];
    assert prefix[j] == pairs[j];
    var r := Collected(prefix);
    assert r == Step(Collected(pairs[..j]), pairs[j]);
    if !HasKey(Collected(pairs[..j]), pairs[j].0) {
      assert r[|r| - 1].key == pairs[j].0;
    }
    assert HasKey(r, pairs[j].0);
    CollectedGrows(pairs, j + 1);
    var k :| 0 <= k < |r| && r[k].key == pairs[j].0;
    assert Collected(pairs)[k] == r[k];
  }

  /**
   * The first usable pair of a name wins: a collected cookie comes from a
   * usable pair with its name and value, and no earlier usable pair has that name.
   */
  lemma {:induction false} CollectedFirst(pairs: seq<(string, string)>, i: nat)
    requires i < |Collected(pairs)|
    ensures var c := Collected(pairs)[i];
      exists j :: 0 <= j < |pairs| && pairs[j] == (c.key, c.value)
        && forall k :: 0 <= k < j ==> !(Usable(pairs[k]) && pairs[k].0 == c.key)
    decreases |pairs|
  {
    var init := pairs[..|pairs| - 1];
    var before := Collected(init);
    var c := Collected(pairs)[i];
    if i < |before| {
      CollectedFirst(init, i);
      var j :| 0 <= j < |init| && init[j] == (c.key, c.value)
        && forall k :: 0 <= k < j ==> !(Usable(init[k]) && init[k].0 == c.key);
      assert pairs[j] == init[j];
      forall k | 0 <= k < j ensures !(Usable(pairs[k]) && pairs[k].0 == c.key) {
        assert pairs[k] == init[k];
      }
    } else {
      var j := |pairs| - 1;
      assert !HasKey(before, c.key);
      forall k | 0 <= k < j ensures !(Usable(pairs[k]) && pairs[k].0 == c.key) {
        assert pairs[k] == init[k];
        if Usable(pairs[k]) && pairs[k].0 == c.key {
          CollectedComplete(init, k);
        }
      }
    }
  }
}
