/**
 * The stable sort `Array.prototype.sort` performs under a comparator
 * `(a, b) => key(b) - key(a)`: heaviest key first, elements of equal key in
 * their original order. Written as an insertion sort over a key function.
 */
module Sorting {
  /** No element has a larger key than the one before it. */
  predicate Descending<T>(key: T -> real, s: seq<T>) {
    forall i :: 0 < i < |s| ==> key(s[i - 1]) >= key(s[i])
  }

  /** `x` placed before the first element whose key it matches or exceeds. */
  function Insert<T>(key: T -> real, x: T, s: seq<T>): (r: seq<T>)
    ensures |r| == |s| + 1
    ensures r[0] == x || (s != [] && r[0] == s[0])
    ensures multiset(r) == multiset(s) + multiset{x}
  {
    if s == [] || key(x) >= key(s[0]) then [x] + s
    else
      assert s == [s[0]] + s[1..];
      [s[0]] + Insert(key, x, s[1..])
  }

  /** The sorted list: each element inserted into the sorted rest. */
  function Sort<T>(key: T -> real, xs: seq<T>): (r: seq<T>)
    ensures |r| == |xs|
    ensures multiset(r) == multiset(xs)
  {
    if xs == [] then []
    else
      assert xs == [xs[0]] + xs[1..];
      Insert(key, xs[0], Sort(key, xs[1..]))
  }

  /** The elements whose key is `w`, in order. */
  function OfKey<T>(key: T -> real, s: seq<T>, w: real): seq<T> {
    if s == [] then [] else (if key(s[0]) == w then [s[0]] else []) + OfKey(key, s[1..], w)
  }

  lemma {:induction false} OfKeyAppend<T>(key: T -> real, a: seq<T>, b: seq<T>, w: real)
    ensures OfKey(key, a + b, w) == OfKey(key, a, w) + OfKey(key, b, w)
    decreases |a|
  {
    if a == [] {
      assert a + b == b;
    } else {
      var c := a + b;
      assert c[0] == a[0] && c[1..] == a[1..] + b;
      OfKeyAppend(key, a[1..], b, w);
      var h := if key(a[0]) == w then [a[0]] else [];
      assert OfKey(key, c, w) == h + OfKey(key, a[1..] + b, w);
      assert OfKey(key, a, w) == h + OfKey(key, a[1..], w);
    }
  }

  lemma {:induction false} InsertDescending<T>(key: T -> real, x: T, s: seq<T>)
    requires Descending(key, s)
    ensures Descending(key, Insert(key, x, s))
    decreases |s|
  {
    if s != [] && key(x) < key(s[0]) {
      InsertDescending(key, x, s[1..]);
    }
  }

  lemma OfKeyOne<T>(key: T -> real, a: T, w: real)
    ensures OfKey(key, [a], w) == if key(a) == w then [a] else []
  {
    assert [a][1..] == [];
  }

  /** The filter of a list is that of its head followed by that of its rest. */
  lemma OfKeyCons<T>(key: T -> real, a: T, s: seq<T>, w: real)
    ensures OfKey(key, [a] + s, w) == OfKey(key, [a], w) + OfKey(key, s, w)
  {
    OfKeyOne(key, a, w);
    assert ([a] + s)[1..] == s;
  }

  /** Two runs at most one of which is non-empty can be swapped. */
  lemma SwapOne<T>(a: seq<T>, b: seq<T>, c: seq<T>)
    requires a == [] || b == []
    ensures a + (b + c) == b + (a + c)
  {
  }

  /** Passing over a heavier head keeps the elements of each key in order. */
  lemma InsertPast<T>(key: T -> real, x: T, s: seq<T>, w: real)
    requires s != [] && key(x) < key(s[0])
    requires OfKey(key, Insert(key, x, s[1..]), w) == OfKey(key, [x], w) + OfKey(key, s[1..], w)
    ensures OfKey(key, Insert(key, x, s), w) == OfKey(key, [x], w) + OfKey(key, s, w)
  {
    var head, rest := s[0], s[1..];
    var r := Insert(key, x, rest);
    var t := [head] + r;
    assert Insert(key, x, s) == t;
    OfKeyCons(key, head, r, w);
    OfKeyCons(key, head, rest, w);
    assert s == [head] + rest;
    OfKeyOne(key, head, w);
    OfKeyOne(key, x, w);
    SwapOne(OfKey(key, [head], w), OfKey(key, [x], w), OfKey(key, rest, w));
  }

  /** Inserting `x` puts it in front of every element of its key, and leaves their order alone. */
  lemma {:induction false} InsertOfKey<T>(key: T -> real, x: T, s: seq<T>, w: real)
    ensures OfKey(key, Insert(key, x, s), w) == OfKey(key, [x], w) + OfKey(key, s, w)
    decreases |s|
  {
    if s == [] || key(x) >= key(s[0]) {
      OfKeyAppend(key, [x], s, w);
    } else {
      InsertOfKey(key, x, s[1..], w);
      InsertPast(key, x, s, w);
    }
  }

  /** The sort yields keys in descending order. */
  lemma {:induction false} SortDescending<T>(key: T -> real, xs: seq<T>)
    ensures Descending(key, Sort(key, xs))
    decreases |xs|
  {
    if xs != [] {
      SortDescending(key, xs[1..]);
      InsertDescending(key, xs[0], Sort(key, xs[1..]));
    }
  }

  /** The sort is stable: the elements of each key keep their input order. */
  lemma {:induction false} SortStable<T>(key: T -> real, xs: seq<T>, w: real)
    ensures OfKey(key, Sort(key, xs), w) == OfKey(key, xs, w)
    decreases |xs|
  {
    if xs != [] {
      SortStable(key, xs[1..], w);
      InsertOfKey(key, xs[0], Sort(key, xs[1..]), w);
      OfKeyAppend(key, [xs[0]], xs[1..], w);
      assert xs == [xs[0]] + xs[1..];
    }
  }

  /** A list already in descending order is left as it is. */
  lemma {:induction false} SortOfDescending<T>(key: T -> real, xs: seq<T>)
    requires Descending(key, xs)
    ensures Sort(key, xs) == xs
    decreases |xs|
  {
    if xs != [] {
      SortOfDescending(key, xs[1..]);
      assert xs == [xs[0]] + xs[1..];
    }
  }

  /** Adjacent order gives order between any two positions. */
  lemma {:induction false} DescendingPairs<T>(key: T -> real, s: seq<T>)
    requires Descending(key, s)
    ensures forall i, j :: 0 <= i < j < |s| ==> key(s[i]) >= key(s[j])
    decreases |s|
  {
    if s != [] {
      DescendingPairs(key, s[1..]);
      forall i, j | 0 <= i < j < |s| ensures key(s[i]) >= key(s[j]) {
        if i > 0 {
          assert s[i] == s[1..][i - 1] && s[j] == s[1..][j - 1];
        } else if j > 1 {
          assert s[1] == s[1..][0] && s[j] == s[1..][j - 1];
        }
      }
    }
  }
}
