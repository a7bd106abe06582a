/**
 * The `String.prototype` operations the header parsers are built from:
 * `trim`, `split`, `startsWith`/`endsWith`, `toLowerCase`/`toUpperCase`,
 * `join`, and decimal formatting of integers (template-literal `${n}`).
 */
module Strings {
  import opened Wrappers

  /** The WhiteSpace and LineTerminator code points of ECMAScript, which `trim` removes. */
  predicate IsWhitespace(c: char) {
    || c == '\t' || c == '\n' || c == '\U{000B}' || c == '\U{000C}' || c == '\r' || c == ' '
    || c == '\U{00A0}' || c == '\U{1680}' || ('\U{2000}' <= c <= '\U{200A}')
    || c == '\U{2028}' || c == '\U{2029}' || c == '\U{202F}' || c == '\U{205F}'
    || c == '\U{3000}' || c == '\U{FEFF}'
  }

  /** True when neither end of `s` is whitespace, so that `trim` leaves it alone. */
  predicate Trimmed(s: string) {
    s == [] || (!IsWhitespace(s[0]) && !IsWhitespace(s[|s| - 1]))
  }

  function TrimStart(s: string): (r: string)
    ensures |r| <= |s|
    ensures r == [] || !IsWhitespace(r[0])
  {
    if s != [] && IsWhitespace(s[0]) then TrimStart(s[1..]) else s
  }

  function TrimEnd(s: string): (r: string)
    ensures |r| <= |s| && (r != [] ==> r[0] == s[0])
    ensures r == [] || !IsWhitespace(r[|r| - 1])
  {
    if s != [] && IsWhitespace(s[|s| - 1]) then TrimEnd(s[..|s| - 1]) else s
  }

  /** `s.trim()`: `s` without its leading and trailing whitespace. */
  function Trim(s: string): (r: string)
    ensures Trimmed(r)
    ensures |r| <= |s|
  {
    var t := TrimStart(s);
    TrimEnd(t)
  }

  lemma TrimOfTrimmed(s: string)
    requires Trimmed(s)
    ensures Trim(s) == s
  {
  }

  /** A single leading space is all that `trim` removes from `" " + s` when `s` is trimmed. */
  lemma TrimLeadingSpace(s: string)
    requires s != "" && Trimmed(s)
    ensures Trim(" " + s) == s
  {
    assert (" " + s)[1..] == s;
    TrimOfTrimmed(s);
  }

  /** A single trailing space is all that `trim` removes from `s + " "` when `s` is trimmed. */
  lemma TrimTrailingSpace(s: string)
    requires s != "" && Trimmed(s)
    ensures Trim(s + " ") == s
  {
    var t := s + " ";
    assert t[0] == s[0];
    assert TrimStart(t) == t;
    assert t[..|t| - 1] == s;
    assert TrimEnd(t) == TrimEnd(s) == s;
  }

  predicate StartsWith(s: string, prefix: string) {
    |prefix| <= |s| && s[..|prefix|] == prefix
  }

  predicate EndsWith(s: string, suffix: string) {
    |suffix| <= |s| && s[|s| - |suffix|..] == suffix
  }

  lemma EndsWithAfter(head: string, s: string, suffix: string)
    requires EndsWith(s, suffix)
    ensures EndsWith(head + s, suffix)
  {
    assert (head + s)[|head + s| - |suffix|..] == s[|s| - |suffix|..];
  }

  /** ASCII case mapping; `toLowerCase` also maps non-ASCII letters, which the model does not. */
  function LowerChar(c: char): char {
    if 'A' <= c <= 'Z' then (c as int + 32) as char else c
  }

  function UpperChar(c: char): char {
    if 'a' <= c <= 'z' then (c as int - 32) as char else c
  }

  function ToLower(s: string): (r: string)
    ensures |r| == |s| && forall i :: 0 <= i < |s| ==> r[i] == LowerChar(s[i])
  {
    seq(|s|, i requires 0 <= i < |s| => LowerChar(s[i]))
  }

  function ToUpper(s: string): (r: string)
    ensures |r| == |s| && forall i :: 0 <= i < |s| ==> r[i] == UpperChar(s[i])
  {
    seq(|s|, i requires 0 <= i < |s| => UpperChar(s[i]))
  }

  /** True when `s` holds `sep` starting at position `i`. */
  predicate OccursAt(s: string, sep: string, i: nat) {
    i + |sep| <= |s| && s[i..i + |sep|] == sep
  }

  /** The first position at or after `from` where `sep` occurs in `s`. */
  function IndexOf(s: string, sep: string, from: nat): (r: Option<nat>)
    requires from <= |s|
    decreases |s| - from
    ensures r.Some? ==> from <= r.value && OccursAt(s, sep, r.value)
    ensures r.Some? ==> forall j :: from <= j < r.value ==> !OccursAt(s, sep, j)
    ensures r.None? ==> forall j :: from <= j <= |s| ==> !OccursAt(s, sep, j)
  {
    if OccursAt(s, sep, from) then Some(from)
    else if from == |s| then None
    else IndexOf(s, sep, from + 1)
  }

  /**
   * `s.split(sep)` for a non-empty separator: the pieces between the
   * successive leftmost occurrences of `sep`, so there is always one more
   * piece than there are occurrences.
   */
  function Split(s: string, sep: string): (r: seq<string>)
    requires |sep| > 0
    ensures |r| >= 1
    decreases |s|
  {
    match IndexOf(s, sep, 0)
    case None => [s]
    case Some(i) => [s[..i]] + Split(s[i + |sep|..], sep)
  }

  lemma SplitWithout(s: string, c: char)
    requires c !in s
    ensures Split(s, [c]) == [s]
  {
    forall j | 0 <= j < |s| ensures !OccursAt(s, [c], j) {
      assert s[j..j + 1][0] == s[j];
    }
  }

  lemma SplitAt(a: string, c: char, b: string)
    requires c !in a
    ensures Split(a + [c] + b, [c]) == [a] + Split(b, [c])
  {
    var s := a + [c] + b;
    forall j | 0 <= j < |a| ensures !OccursAt(s, [c], j) {
      assert s[j..j + 1][0] == s[j] == a[j];
    }
    assert OccursAt(s, [c], |a|) by { assert s[|a|..|a| + 1] == [c]; }
    match IndexOf(s, [c], 0)
    case None =>
      assert false;
    case Some(i) =>
      assert i == |a|;
      assert s[..i] == a;
      assert s[i + 1..] == b;
  }

  /** A separator whose first character is absent from `s` does not occur in it. */
  lemma SplitWithoutSep(s: string, sep: string)
    requires |sep| > 0 && sep[0] !in s
    ensures Split(s, sep) == [s]
  {
    forall j | 0 <= j <= |s| ensures !OccursAt(s, sep, j) {
      if OccursAt(s, sep, j) {
        assert false;
      }
    }
  }

  /** Splitting `a sep b` on `sep`, where `a` lacks the separator's first character, first cuts off `a`. */
  lemma SplitAtSep(a: string, sep: string, b: string)
    requires |sep| > 0 && sep[0] !in a
    ensures Split(a + sep + b, sep) == [a] + Split(b, sep)
  {
    var s := a + sep + b;
    forall j | 0 <= j < |a| ensures !OccursAt(s, sep, j) {
      if OccursAt(s, sep, j) {
        assert false;
      }
    }
    assert OccursAt(s, sep, |a|) by { assert s[|a|..|a| + |sep|] == sep; }
    match IndexOf(s, sep, 0)
    case None =>
      assert false;
    case Some(i) =>
      assert i == |a|;
      assert s[..i] == a;
      assert s[i + |sep|..] == b;
  }

  /** `xs.map((e) => e.trim()).filter((e) => e)`: the non-empty trimmed pieces, in order. */
  function NonEmptyTrimmed(xs: seq<string>): (r: seq<string>)
    ensures |r| <= |xs|
    ensures forall p | p in r :: p != "" && Trimmed(p)
  {
    if xs == [] then []
    else
      var t := Trim(xs[0]);
      (if t != "" then [t] else []) + NonEmptyTrimmed(xs[1..])
  }

  /** `s.split(sep).map((e) => e.trim()).filter((e) => e)`. */
  function Pieces(s: string, sep: string): seq<string>
    requires |sep| > 0
  {
    NonEmptyTrimmed(Split(s, sep))
  }

  /** A piece that is already trimmed and non-empty survives the trim-and-filter step unchanged. */
  lemma NonEmptyTrimmedKeeps(p: string, rest: seq<string>)
    requires p != "" && Trimmed(p)
    ensures NonEmptyTrimmed([p] + rest) == [p] + NonEmptyTrimmed(rest)
  {
    TrimOfTrimmed(p);
    assert ([p] + rest)[1..] == rest;
  }

  /** Splitting a trimmed, non-empty string that lacks the separator gives that string alone. */
  lemma PiecesOne(a: string, c: char)
    requires a != "" && Trimmed(a) && c !in a
    ensures Pieces(a, [c]) == [a]
  {
    SplitWithout(a, c);
    NonEmptyTrimmedKeeps(a, []);
  }

  lemma SplitTwo(a: string, c: char, b: string)
    requires c !in a && c !in b
    ensures Split(a + [c] + b, [c]) == [a, b]
  {
    SplitAt(a, c, b);
    SplitWithout(b, c);
  }

  lemma NonEmptyTrimmedTwo(a: string, b: string)
    requires a != "" && Trimmed(a) && b != "" && Trimmed(b)
    ensures NonEmptyTrimmed([a, b]) == [a, b]
  {
    NonEmptyTrimmedKeeps(b, []);
    assert [b] + [] == [b];
    NonEmptyTrimmedKeeps(a, [b]);
    assert [a] + [b] == [a, b];
  }

  /** Splitting `a c b` on `c`, both sides trimmed, non-empty and free of `c`, gives `[a, b]`. */
  lemma PiecesTwo(a: string, c: char, b: string)
    requires a != "" && Trimmed(a) && c !in a
    requires b != "" && Trimmed(b) && c !in b
    ensures Pieces(a + [c] + b, [c]) == [a, b]
  {
    SplitTwo(a, c, b);
    NonEmptyTrimmedTwo(a, b);
  }

  /** `xs.join(sep)`. */
  function Join(xs: seq<string>, sep: string): string
    decreases |xs|
  {
    if |xs| == 0 then ""
    else if |xs| == 1 then xs[0]
    else xs[0] + sep + Join(xs[1..], sep)
  }

  /** A character that is in neither the separator nor any piece is not in the joined text. */
  lemma {:induction false} JoinExcludes(xs: seq<string>, sep: string, c: char)
    requires c !in sep && forall i :: 0 <= i < |xs| ==> c !in xs[i]
    ensures c !in Join(xs, sep)
    decreases |xs|
  {
    if |xs| > 1 {
      JoinExcludes(xs[1..], sep, c);
    }
  }

  /** Splitting a join on its one-character separator gives the pieces back, when none contains it. */
  lemma {:induction false} SplitJoin(xs: seq<string>, c: char)
    requires |xs| >= 1 && forall i :: 0 <= i < |xs| ==> c !in xs[i]
    ensures Split(Join(xs, [c]), [c]) == xs
    decreases |xs|
  {
    if |xs| == 1 {
      SplitWithout(xs[0], c);
    } else {
      var rest := xs[1..];
      SplitJoin(rest, c);
      SplitAt(xs[0], c, Join(rest, [c]));
      assert xs == [xs[0]] + rest;
    }
  }

  /** Lower-casing leaves a string without upper-case ASCII letters alone. */
  lemma ToLowerOfLower(s: string)
    requires forall i :: 0 <= i < |s| ==> !('A' <= s[i] <= 'Z')
    ensures ToLower(s) == s
  {
  }

  /**
   * The dequoting step the cookie, forwarded and content-type parsers share:
   * a value that starts and ends with `"` loses both quotes, and one of at
   * most two characters becomes empty.
   */
  function Dequote(v: string): (r: string)
    ensures StartsWith(v, "\"") && EndsWith(v, "\"") ==> |r| + 2 == |v| || r == ""
    ensures !(StartsWith(v, "\"") && EndsWith(v, "\"")) ==> r == v
  {
    if StartsWith(v, "\"") && EndsWith(v, "\"") then
      if |v| > 2 then v[1..|v| - 1] else ""
    else v
  }

  predicate IsDigit(c: char) {
    '0' <= c <= '9'
  }

  /** A non-empty run of decimal digits. */
  predicate IsDigits(s: string) {
    |s| > 0 && forall i :: 0 <= i < |s| ==> IsDigit(s[i])
  }

  /** The value of a string of decimal digits (leading zeros allowed). */
  function DigitsValue(s: string): nat
    requires forall i :: 0 <= i < |s| ==> IsDigit(s[i])
    decreases |s|
  {
    if s == [] then 0
    else
      var d := s[|s| - 1];
      assert IsDigit(d);
      DigitsValue(s[..|s| - 1]) * 10 + (d as int - '0' as int)
  }

  function DigitChar(d: nat): (c: char)
    requires d < 10
    ensures IsDigit(c) && c as int - '0' as int == d
  {
    ('0' as int + d) as char
  }

  /** `${n}` for a non-negative integer: its shortest decimal digits. */
  function NatToString(n: nat): (r: string)
    ensures IsDigits(r)
    decreases n
  {
    if n < 10 then [DigitChar(n)] else NatToString(n / 10) + [DigitChar(n % 10)]
  }

  /** `${i}` for an integer. */
  function IntToString(i: int): (r: string)
    ensures i >= 0 ==> IsDigits(r)
    ensures i < 0 ==> |r| > 1 && r[0] == '-' && IsDigits(r[1..])
  {
    if i < 0 then "-" + NatToString(-i) else NatToString(i)
  }

  lemma {:induction false} NatToStringValue(n: nat)
    ensures DigitsValue(NatToString(n)) == n
    decreases n
  {
    var s := NatToString(n);
    if n >= 10 {
      NatToStringValue(n / 10);
      assert s[..|s| - 1] == NatToString(n / 10);
    }
  }

  /** A digit string contains no character other than digits. */
  lemma DigitsExclude(s: string, c: char)
    requires IsDigits(s) && !IsDigit(c)
    ensures c !in s
  {
  }
}
