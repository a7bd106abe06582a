/**
 * The `Content-Encoding` header (src/headers/content-encoding.ts): the
 * comma-separated codings applied to a body, in the order they were
 * applied, read back in the reverse order, the one to undo first (section
 * 3.1.2.2 of RFC 7231). A coding here is an accepted coding other than `*`
 * and `identity`.
 */
module ContentEncodingHeader {
  import opened Wrappers
  import opened Strings
  import opened AcceptEncodingHeader

  /** The codings a body can be encoded with. */
  type ContentCoding = e: Encoding | e != Star && e != Identity witness Gzip

  /** The names `fromString` keeps. */
  const ContentNames: seq<string> := ["gzip", "x-gzip", "compress", "deflate", "br"]

  /** The coding a trimmed name stands for, when it is one of the kept names. */
  function CodingOf(name: string): (r: Option<ContentCoding>)
    ensures r.Some? <==> name in ContentNames
    ensures r.Some? ==> Name(r.value) == name
  {
    var e := EncodingOf(name);
    if e.Some? && e.value != Star && e.value != Identity then Some(e.value) else None
  }

  /** `toString()`: a content coding carries no weight, so it prints as its name. */
  function ToString(c: ContentCoding): (s: string)
    ensures CodingOf(s) == Some(c)
  {
    NameRead(c);
    Name(c)
  }

  /** `s` back to front. */
  function Reverse<T>(s: seq<T>): (r: seq<T>)
    ensures |r| == |s| && forall i :: 0 <= i < |s| ==> r[i] == s[|s| - 1 - i]
  {
    if s == [] then [] else Reverse(s[1..]) + [s[0]]
  }

  lemma {:induction false} ReverseAppend<T>(a: seq<T>, b: seq<T>)
    ensures Reverse(a + b) == Reverse(b) + Reverse(a)
  {
    var r, l := Reverse(a + b), Reverse(b) + Reverse(a);
    assert |r| == |l|;
    forall i | 0 <= i < |r| ensures r[i] == l[i] {
      if i < |b| {
        assert l[i] == Reverse(b)[i];
      } else {
        assert l[i] == Reverse(a)[i - |b|];
      }
    }
  }

  lemma ReverseReverse<T>(s: seq<T>)
    ensures Reverse(Reverse(s)) == s
  {
  }

  /** The kept codings of the pieces, in header order. */
  function Applied(pieces: seq<string>): (r: seq<ContentCoding>)
    ensures |r| <= |pieces|
  {
    Somes(Read(pieces))
  }

  /** Each trimmed piece read as a coding, `None` for one that is not. */
  function Read(pieces: seq<string>): (r: seq<Option<ContentCoding>>)
    ensures |r| == |pieces| && forall i :: 0 <= i < |pieces| ==> r[i] == CodingOf(Trim(pieces[i]))
  {
    seq(|pieces|, i requires 0 <= i < |pieces| => CodingOf(Trim(pieces[i])))
  }

  /**
   * `ContentEncoding.fromString(input)`: nothing for a missing header;
   * otherwise the known codings of its comma-separated, trimmed pieces,
   * last applied first.
   */
  function FromString(input: Option<string>): (r: seq<ContentCoding>)
    ensures input.None? ==> r == []
    ensures input.Some? ==> |r| <= |Split(input.value, ",")|
  {
    if input.None? then [] else Reverse(Applied(Split(input.value, ",")))
  }

  lemma AppliedCons(piece: string, rest: seq<string>)
    ensures Applied([piece] + rest) == Applied([piece]) + Applied(rest)
  {
    var all := [piece] + rest;
    assert all[0] == piece && all[1..] == rest;
    assert Read(all) == Read([piece]) + Read(rest);
    SomesAppend(Read([piece]), Read(rest));
  }

  /**
   * The header lists codings in the order they were applied: a coding written
   * before a comma comes after everything written behind it.
   */
  lemma ReadBackwards(a: string, b: string)
    requires ',' !in a
    ensures FromString(Some(a + "," + b)) == FromString(Some(b)) + FromString(Some(a))
  {
    SplitAt(a, ',', b);
    SplitWithout(a, ',');
    AppliedCons(a, Split(b, ","));
    ReverseAppend(Applied([a]), Applied(Split(b, ",")));
  }

  /** A printed coding holds no comma and reads back as itself. */
  lemma PrintedCoding(c: ContentCoding)
    ensures ',' !in ToString(c) && CodingOf(Trim(ToString(c))) == Some(c)
  {
    NameTrimmed(c);
    NameSeparators(c);
    TrimOfTrimmed(Name(c));
  }


  /** Codings joined with commas in the order applied read back last applied first. */
  lemma RoundTrip(codings: seq<ContentCoding>)
    requires codings != []
    ensures FromString(Some(Join(Map(ToString, codings), ","))) == Reverse(codings)
  {
    var names := Map(ToString, codings);
    forall i | 0 <= i < |names| ensures ',' !in names[i] && CodingOf(Trim(names[i])) == Some(codings[i]) {
      PrintedCoding(codings[i]);
    }
    SplitJoin(names, ',');
    var parsed := seq(|names|, i requires 0 <= i < |names| => CodingOf(Trim(names[i])));
    SomesAll(parsed, codings);
  }
}
