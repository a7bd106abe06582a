/**
 * Non-negative decimal numbers as JavaScript's `Number()` reads them from an
 * unsigned decimal literal (`12`, `0.5`, `.5`, `5.`, and `""` as `0`), kept
 * exact: an integer part and the digits after the point. `Text` prints them
 * in plain positional form as `${n}` does for the three-decimal weights of
 * HTTP; JavaScript's exponent form (below 1e-6, from 1e21) and its rounding
 * to the shortest round-tripping digits are not modelled.
 */
module Decimals {
  import opened Wrappers
  import opened Strings

  /** Decimal digits, possibly none. */
  type Digits = s: string | AllDigits(s)

  /** The number `whole.fraction`. */
  datatype Decimal = Decimal(whole: nat, fraction: Digits)

  /** Digits only, possibly none. */
  predicate AllDigits(s: string) {
    forall i :: 0 <= i < |s| ==> IsDigit(s[i])
  }

  function Pow10(k: nat): (p: nat)
    ensures p >= 1
  {
    if k == 0 then 1 else 10 * Pow10(k - 1)
  }

  /** The value, for comparisons. */
  function Value(d: Decimal): real {
    d.whole as real + DigitsValue(d.fraction) as real / Pow10(|d.fraction|) as real
  }

  /** The one representation a number has: digits after the point, and no trailing zero among them. */
  predicate Canonical(d: Decimal) {
    d.fraction == "" || d.fraction[|d.fraction| - 1] != '0'
  }

  /** `f` without its trailing zeros. */
  function StripZeros(f: Digits): (r: Digits)
    ensures |r| <= |f| && r == f[..|r|]
    ensures r == "" || r[|r| - 1] != '0'
    ensures forall i :: |r| <= i < |f| ==> f[i] == '0'
  {
    if f != "" && f[|f| - 1] == '0' then StripZeros(f[..|f| - 1]) else f
  }

  lemma StripCanonical(f: Digits)
    requires f == "" || f[|f| - 1] != '0'
    ensures StripZeros(f) == f
  {
  }

  /**
   * `Number(s)` for a trimmed `s` that is empty (`0`) or an unsigned decimal
   * literal; `None` is `NaN`, which is what every other string gives here.
   */
  function Parse(s: string): (r: Option<Decimal>)
    ensures s == "" ==> r == Some(Decimal(0, ""))
    ensures IsDigits(s) ==> r == Some(Decimal(DigitsValue(s), ""))
    ensures r.Some? ==> Canonical(r.value)
  {
    if s == "" then Some(Decimal(0, ""))
    else if IsDigits(s) then Some(Decimal(DigitsValue(s), ""))
    else
      var parts := Split(s, ".");
      if |parts| == 2 && AllDigits(parts[0]) && AllDigits(parts[1]) && (parts[0] != "" || parts[1] != "") then
        Some(Decimal(DigitsValue(parts[0]), StripZeros(parts[1])))
      else None
  }

  /** `${n}`: the integer part, and when a non-zero fraction remains, a point and its digits without trailing zeros. */
  function Text(d: Decimal): (s: string)
    ensures StartsWith(s, NatToString(d.whole))
  {
    var f := StripZeros(d.fraction);
    NatToString(d.whole) + (if f == "" then "" else "." + f)
  }

  /** The text of a canonical number is digits with at most a point between them. */
  lemma TextChars(d: Decimal)
    requires Canonical(d)
    ensures Text(d) != "" && IsDigit(Text(d)[0]) && IsDigit(Text(d)[|Text(d)| - 1])
    ensures forall i :: 0 <= i < |Text(d)| ==> IsDigit(Text(d)[i]) || Text(d)[i] == '.'
  {
    StripCanonical(d.fraction);
  }

  /** `Number(`${d}`)` is `d` again, for a number in canonical form. */
  lemma RoundTrip(d: Decimal)
    requires Canonical(d)
    ensures Parse(Text(d)) == Some(d)
  {
    var w := NatToString(d.whole);
    StripCanonical(d.fraction);
    NatToStringValue(d.whole);
    if d.fraction != "" {
      var s := w + "." + d.fraction;
      assert Text(d) == s;
      assert s[|w|] == '.' && !IsDigit(s[|w|]);
      assert !IsDigits(s);
      assert AllDigits(w);
      DigitsExclude(w, '.');
      assert '.' !in d.fraction;
      SplitTwo(w, '.', d.fraction);
    } else {
      assert Text(d) == w + "" == w;
    }
  }
}
