/**
 * The `Forwarded` header (src/headers/forwarded.ts), as in section 4 of RFC
 * 7239: comma-separated elements, each a `;`-separated list of `key=value`
 * directives drawn from `for`, `by`, `host`, `proto` and `secret`.
 */
module ForwardedHeader {
  import opened Wrappers
  import opened Strings

  /**
   * One element. `forNode` and `byNode` are the `for` and `by` directives; an absent (`undefined` or `null`)
   * `by`, `host`, `secret` or `proto` is `None`, which is what the constructor
   * turns both into.
   */
  datatype Forwarded = Forwarded(
    forNode: string,
    byNode: Option<string>,
    host: Option<string>,
    secret: Option<string>,
    proto: Option<string>)

  /** The directive names the parser keeps. */
  const Props: seq<string> := ["for", "by", "secret", "host", "proto"]

  /** The directive names whose values `toString` quotes when they look like `[...]`. */
  predicate IsNode(key: string) {
    key == "for" || key == "by" || key == "host"
  }

  /** A value that starts with `[` and contains `]` (an IPv6 node) is wrapped in double quotes. */
  function FormatDirective(input: string): (r: string)
    ensures StartsWith(input, "[") && ']' in input ==> r == "\"" + input + "\""
    ensures !(StartsWith(input, "[") && ']' in input) ==> r == input
  {
    if StartsWith(input, "[") && ']' in input then "\"" + input + "\"" else input
  }

  /** `v` as a directive value of `key`, for `values` that are present. */
  function Put(ds: seq<(string, string)>, key: string, value: Option<string>): seq<(string, string)> {
    if value.Some? then ds + [(key, value.value)] else ds
  }

  /** The present directives with their raw values, in the order `toString` writes them. */
  function Directives(f: Forwarded): (ds: seq<(string, string)>)
    ensures |ds| >= 1 && ds[0] == ("for", f.forNode)
  {
    var d0 := [("for", f.forNode)];
    var d1 := Put(d0, "by", f.byNode);
    var d2 := Put(d1, "host", f.host);
    var d3 := Put(d2, "secret", f.secret);
    Put(d3, "proto", f.proto)
  }

  /** The text of one directive: `key=value`, node values formatted. */
  function Shown(d: (string, string)): string {
    d.0 + "=" + (if IsNode(d.0) then FormatDirective(d.1) else d.1)
  }

  /**
   * `forwarded.toString()`: `for=...` followed by `;by=...`, `;host=...`,
   * `;secret=...` and `;proto=...` for the present ones, which is the join
   * of the shown directives with `;`.
   */
  function ToString(f: Forwarded): (s: string)
    ensures StartsWith(s, "for=" + FormatDirective(f.forNode))
  {
    var ds := Directives(f);
    var shown := seq(|ds|, i requires 0 <= i < |ds| => Shown(ds[i]));
    JoinStarts(shown, ";");
    Join(shown, ";")
  }

  lemma JoinStarts(xs: seq<string>, sep: string)
    requires |xs| >= 1
    ensures StartsWith(Join(xs, sep), xs[0])
  {
    if |xs| > 1 {
      assert Join(xs, sep) == xs[0] + (sep + Join(xs[1..], sep));
    }
  }

  /** One directive split on `=` (the second part being the value), trimmed, the key lower-cased and the value dequoted. */
  function PairOf(piece: string): (string, string) {
    var parts := Split(piece, "=");
    var key := Trim(parts[0]);
    var value := if |parts| > 1 then Trim(parts[1]) else "";
    (ToLower(key), Dequote(value))
  }

  /**
   * A directive `key=value` gives its trimmed, lower-cased key and its
   * trimmed, dequoted value; whatever follows a second `=` is dropped.
   */
  lemma PairRead(key: string, value: string, rest: string)
    requires '=' !in key && '=' !in value
    ensures PairOf(key + "=" + value) == (ToLower(Trim(key)), Dequote(Trim(value)))
    ensures PairOf(key + "=" + value + "=" + rest) == (ToLower(Trim(key)), Dequote(Trim(value)))
  {
    SplitAt(key, '=', value);
    SplitWithout(value, '=');
    assert key + "=" + value + "=" + rest == key + ['='] + (value + "=" + rest);
    SplitAt(key, '=', value + "=" + rest);
    SplitAt(value, '=', rest);
  }

  /** The filter: a known name and a non-empty value. */
  predicate Kept(pair: (string, string)) {
    pair.0 != "" && pair.1 != "" && pair.0 in Props
  }

  function KeptPairs(pairs: seq<(string, string)>): (r: seq<(string, string)>)
    ensures |r| <= |pairs|
    ensures forall p | p in r :: Kept(p) && p in pairs
    ensures (forall i :: 0 <= i < |pairs| ==> Kept(pairs[i])) ==> r == pairs
  {
    if pairs == [] then []
    else
      var rest := KeptPairs(pairs[1..]);
      assert pairs == [pairs[0]] + pairs[1..];
      if Kept(pairs[0]) then [pairs[0]] + rest else rest
  }

  /** `{ ...a, [k]: v }` on one of the five names. */
  function Assign(f: Forwarded, pair: (string, string)): Forwarded {
    var (k, v) := pair;
    if k == "for" then f.(forNode := v)
    else if k == "by" then f.(byNode := Some(v))
    else if k == "host" then f.(host := Some(v))
    else if k == "secret" then f.(secret := Some(v))
    else if k == "proto" then f.(proto := Some(v))
    else f
  }

  /** The starting point of the `reduce`: `for` is `"unknown"`. */
  const Unknown: Forwarded := Forwarded("unknown", None, None, None, None)

  /** `directives.reduce((a, [k, v]) => ({ ...a, [k]: v }), { for: "unknown" })`. */
  function Reduce(pairs: seq<(string, string)>): Forwarded
    decreases |pairs|
  {
    if pairs == [] then Unknown else Assign(Reduce(pairs[..|pairs| - 1]), pairs[|pairs| - 1])
  }


  /** The kept directives of one comma element. */
  function ElementPairs(element: string): (r: seq<(string, string)>)
    ensures forall p | p in r :: Kept(p)
  {
    KeptPairs(Map(PairOf, Split(element, ";")))
  }

  /** `#parseDirectives(element)`: `null` when no directive survives the filter. */
  function ParseDirectives(element: string): (r: Option<Forwarded>)
    ensures r.None? <==> ElementPairs(element) == []
  {
    var pairs := ElementPairs(element);
    if pairs == [] then None else Some(Reduce(pairs))
  }

  /** `Forwarded.fromString(input)`: nothing for a missing or empty header, else the parsed elements in order. */
  function FromString(input: Option<string>): (r: seq<Forwarded>)
    ensures input.None? || input == Some("") ==> r == []
    ensures input.Some? && input.value != "" ==> |r| <= |Split(input.value, ",")|
  {
    if input.None? || input.value == "" then []
    else
      var elements := Split(input.value, ",");
      Somes(seq(|elements|, i requires 0 <= i < |elements| => ParseDirectives(elements[i])))
  }

  /** The value of the last directive named `key`, if any. */
  function LastOf(pairs: seq<(string, string)>, key: string): Option<string>
    decreases |pairs|
  {
    if pairs == [] then None
    else if pairs[|pairs| - 1].0 == key then Some(pairs[|pairs| - 1].1)
    else LastOf(pairs[..|pairs| - 1], key)
  }

  /** Later directives override earlier ones: every field is its last directive's value, `for` defaulting to `"unknown"`. */
  lemma {:induction false} ReduceLastWins(pairs: seq<(string, string)>)
    ensures Reduce(pairs) == Forwarded(
      LastOf(pairs, "for").GetOr("unknown"), LastOf(pairs, "by"), LastOf(pairs, "host"),
      LastOf(pairs, "secret"), LastOf(pairs, "proto"))
    decreases |pairs|
  {
    if pairs != [] {
      ReduceLastWins(pairs[..|pairs| - 1]);
    }
  }

  /** A value `toString` and `fromString` carry unchanged: non-empty, trimmed, free of `,`, `;` and `=`, and not itself quoted. */
  predicate Token(v: string) {
    && v != "" && Trimmed(v)
    && ',' !in v && ';' !in v && '=' !in v
    && !(StartsWith(v, "\"") && EndsWith(v, "\""))
  }

  predicate WellFormed(f: Forwarded) {
    && Token(f.forNode)
    && (f.byNode.Some? ==> Token(f.byNode.value))
    && (f.host.Some? ==> Token(f.host.value))
    && (f.secret.Some? ==> Token(f.secret.value))
    && (f.proto.Some? ==> Token(f.proto.value))
  }

  /** A formatted token is trimmed, free of `,`, `;` and `=`, and dequotes back to the token. */
  lemma FormatToken(v: string)
    requires Token(v)
    ensures var r := FormatDirective(v);
      r != "" && Trimmed(r) && ',' !in r && ';' !in r && '=' !in r && Dequote(r) == v
  {
    var r := FormatDirective(v);
    if StartsWith(v, "[") && ']' in v {
      assert r[0] == '"' && r[|r| - 1] == '"';
      assert r[1..|r| - 1] == v;
    }
  }

  lemma KeyLower(k: string)
    requires k in Props
    ensures ToLower(k) == k
  {
    ToLowerOfLower(k);
  }

  lemma KeyShape(k: string)
    requires k in Props
    ensures Trimmed(k) && '=' !in k && ',' !in k && ';' !in k
  {
  }

  /** The directives of a well-formed element: known names, token values. */
  predicate GoodDirectives(ds: seq<(string, string)>) {
    forall i :: 0 <= i < |ds| ==> ds[i].0 in Props && Token(ds[i].1)
  }

  lemma GoodPut(ds: seq<(string, string)>, key: string, value: Option<string>)
    requires GoodDirectives(ds) && key in Props && (value.Some? ==> Token(value.value))
    ensures GoodDirectives(Put(ds, key, value))
  {
  }

  lemma DirectivesGood(f: Forwarded)
    requires WellFormed(f)
    ensures GoodDirectives(Directives(f))
  {
    var d0 := [("for", f.forNode)];
    GoodPut(d0, "by", f.byNode);
    var d1 := Put(d0, "by", f.byNode);
    GoodPut(d1, "host", f.host);
    var d2 := Put(d1, "host", f.host);
    GoodPut(d2, "secret", f.secret);
    var d3 := Put(d2, "secret", f.secret);
    GoodPut(d3, "proto", f.proto);
  }

  /** A shown directive is free of `,` and `;`, and reads back as itself. */
  lemma ShownPair(d: (string, string))
    requires d.0 in Props && Token(d.1)
    ensures ',' !in Shown(d) && ';' !in Shown(d)
    ensures PairOf(Shown(d)) == d
  {
    var (k, v) := d;
    var w := if IsNode(k) then FormatDirective(v) else v;
    KeyLower(k);
    KeyShape(k);
    FormatToken(v);
    assert Shown(d) == k + ['='] + w;
    SplitTwo(k, '=', w);
    TrimOfTrimmed(k);
    TrimOfTrimmed(w);
  }

  lemma ReducePut(ds: seq<(string, string)>, key: string, value: Option<string>)
    ensures Reduce(Put(ds, key, value)) == if value.Some? then Assign(Reduce(ds), (key, value.value)) else Reduce(ds)
  {
    if value.Some? {
      assert (ds + [(key, value.value)])[..|ds|] == ds;
    }
  }

  /** Folding the directives of an element rebuilds it. */
  lemma ReduceDirectives(f: Forwarded)
    ensures Reduce(Directives(f)) == f
  {
    var d0 := [("for", f.forNode)];
    assert d0[..0] == [];
    ReducePut(d0, "by", f.byNode);
    var d1 := Put(d0, "by", f.byNode);
    ReducePut(d1, "host", f.host);
    var d2 := Put(d1, "host", f.host);
    ReducePut(d2, "secret", f.secret);
    var d3 := Put(d2, "secret", f.secret);
    ReducePut(d3, "proto", f.proto);
  }

  /** The texts of the directives, in order. */
  function ShownAll(ds: seq<(string, string)>): (r: seq<string>)
    ensures |r| == |ds| && forall i :: 0 <= i < |ds| ==> r[i] == Shown(ds[i])
  {
    seq(|ds|, i requires 0 <= i < |ds| => Shown(ds[i]))
  }

  lemma ShownAllPairs(ds: seq<(string, string)>)
    requires GoodDirectives(ds)
    ensures forall i :: 0 <= i < |ds| ==> ',' !in ShownAll(ds)[i] && ';' !in ShownAll(ds)[i]
    ensures Map(PairOf, ShownAll(ds)) == ds
  {
    forall i | 0 <= i < |ds| ensures ',' !in ShownAll(ds)[i] && ';' !in ShownAll(ds)[i] && PairOf(ShownAll(ds)[i]) == ds[i] {
      ShownPair(ds[i]);
    }
  }

  lemma GoodKept(ds: seq<(string, string)>)
    requires GoodDirectives(ds)
    ensures KeptPairs(ds) == ds
  {
    assert forall i :: 0 <= i < |ds| ==> Kept(ds[i]);
  }

  /** Good directives joined with `;` contain no `,`. */
  lemma ShownNoComma(ds: seq<(string, string)>)
    requires GoodDirectives(ds)
    ensures ',' !in Join(ShownAll(ds), ";")
  {
    ShownAllPairs(ds);
    JoinExcludes(ShownAll(ds), ";", ',');
  }

  /** Good directives joined with `;` read back as themselves. */
  lemma ElementOfShown(ds: seq<(string, string)>)
    requires |ds| >= 1 && GoodDirectives(ds)
    ensures ElementPairs(Join(ShownAll(ds), ";")) == ds
  {
    var shown := ShownAll(ds);
    ShownAllPairs(ds);
    SplitJoin(shown, ';');
    assert Split(Join(shown, ";"), ";") == shown;
    GoodKept(ds);
  }

  lemma TextIsJoin(f: Forwarded)
    ensures ToString(f) == Join(ShownAll(Directives(f)), ";")
  {
  }

  /** A text without `,` that parses as one element is read as exactly that element. */
  lemma FromStringOne(s: string, f: Forwarded)
    requires s != "" && ',' !in s && ParseDirectives(s) == Some(f)
    ensures FromString(Some(s)) == [f]
  {
    SplitWithout(s, ',');
    var parsed := seq(1, i requires 0 <= i < 1 => ParseDirectives([s][i]));
    assert parsed == [Some(f)];
    assert parsed[1..] == [];
  }

  lemma ParseText(f: Forwarded)
    requires WellFormed(f)
    ensures ParseDirectives(ToString(f)) == Some(f)
  {
    DirectivesGood(f);
    TextIsJoin(f);
    ElementOfShown(Directives(f));
    ReduceDirectives(f);
  }

  /** `Forwarded.fromString(f.toString())` gives back exactly `[f]` for every well-formed element. */
  lemma RoundTrip(f: Forwarded)
    requires WellFormed(f)
    ensures FromString(Some(ToString(f))) == [f]
  {
    DirectivesGood(f);
    TextIsJoin(f);
    ShownNoComma(Directives(f));
    ParseText(f);
    FromStringOne(ToString(f), f);
  }
}
