/**
 * The application's middleware stack (`#stack` in src/binden.ts and
 * src/kauai.ts): an ordered list of entries, each a non-empty list of
 * middlewares and routers under one path matcher. `use` adds to the last
 * entry when its matcher is deep-equal to the new one and pushes a new entry
 * otherwise; `off` takes items out again and closes the gap an emptied entry
 * leaves. Together they keep two neighbouring entries from ever having
 * equal matchers.
 */
module Stacks {
  import opened Wrappers
  import opened Middlewares
  import Routing

  /** The two versions of the dispatcher: `Binden`, and its predecessor `Kauai`. */
  datatype Variant = Binden | Kauai

  /**
   * An entry's path: `null` (every path), a string compared with the
   * pathname, or a regular expression by its source and flags. Datatype
   * equality is `isDeepStrictEqual` on these.
   */
  datatype Matcher = Null | Path(s: string) | Pattern(source: string, flags: string)

  /** A stack item: a middleware, or a router held by reference. */
  datatype Item = MwItem(m: Middleware) | RouterItem(r: Routing.Router)

  datatype Entry = Entry(items: seq<Item>, matcher: Matcher)

  type Stack = seq<Entry>

  /** An item argument: a `Middleware` or `Router`, or any other value. */
  datatype UseArg = Supported(item: Item) | Unsupported

  /** The first argument of `use` and `off`: an item, a string, a regular expression, or anything else. */
  datatype PathArg = PathItem(item: Item) | PathText(s: string) | PathRegex(source: string, flags: string) | PathOther

  /**
   * The matcher a path argument gives: a regular expression is re-created,
   * with the flags forced to `u` by `Binden` and kept by `Kauai`; a
   * non-empty string is itself; anything else is `null`.
   */
  function MatcherOf(variant: Variant, path: PathArg): (m: Matcher)
    ensures path.PathRegex? <==> m.Pattern?
    ensures m.Pattern? ==> m.source == path.source && m.flags == if variant == Binden then "u" else path.flags
    ensures m.Path? <==> path.PathText? && path.s != ""
    ensures m.Path? ==> m.s == path.s
  {
    match path
    case PathRegex(source, flags) => Pattern(source, if variant == Binden then "u" else flags)
    case PathText(s) => if s != "" then Path(s) else Null
    case _ => Null
  }

  /** The items `use` and `off` work on: the first argument joins the rest when it is an item. */
  function Arguments(path: PathArg, args: seq<UseArg>): (items: seq<UseArg>)
    ensures path.PathItem? ==> items == [Supported(path.item)] + args
    ensures !path.PathItem? ==> items == args
  {
    if path.PathItem? then [Supported(path.item)] + args else args
  }

  predicate AllSupported(args: seq<UseArg>) {
    forall i :: 0 <= i < |args| ==> args[i].Supported?
  }

  function ItemsOf(args: seq<UseArg>): (items: seq<Item>)
    requires AllSupported(args)
    ensures |items| == |args| && forall i :: 0 <= i < |args| ==> args[i] == Supported(items[i])
  {
    seq(|args|, i requires 0 <= i < |args| => args[i].item)
  }

  /** The stack's invariant: no entry is empty and no two neighbours have equal matchers. */
  predicate Compact(s: Stack) {
    && (forall i :: 0 <= i < |s| ==> s[i].items != [])
    && (forall i :: 0 < i < |s| ==> s[i - 1].matcher != s[i].matcher)
  }

  /** `Binden` only ever stores regular expressions with the flags `u`. */
  predicate UnicodeOnly(s: Stack) {
    forall e | e in s :: e.matcher.Pattern? ==> e.matcher.flags == "u"
  }

  /** All items of the stack, entry after entry. */
  function Flatten(s: Stack): seq<Item> {
    if s == [] then [] else Flatten(s[..|s| - 1]) + s[|s| - 1].items
  }

  /** The stack after `use` of items under matcher `m`. */
  function Attach(s: Stack, items: seq<Item>, m: Matcher): Stack {
    if |s| > 0 && s[|s| - 1].matcher == m then s[..|s| - 1] + [Entry(s[|s| - 1].items + items, m)]
    else s + [Entry(items, m)]
  }

  /**
   * `use` touches only the last entry: it grows that entry when its matcher
   * is the new one, and otherwise pushes a new entry; no earlier entry changes.
   */
  lemma AttachShape(s: Stack, items: seq<Item>, m: Matcher)
    ensures |s| > 0 && s[|s| - 1].matcher == m ==>
              |Attach(s, items, m)| == |s| && Attach(s, items, m)[|s| - 1] == Entry(s[|s| - 1].items + items, m)
    ensures !(|s| > 0 && s[|s| - 1].matcher == m) ==>
              |Attach(s, items, m)| == |s| + 1 && Attach(s, items, m)[|s|] == Entry(items, m)
    ensures forall i :: 0 <= i < |s| - 1 ==> Attach(s, items, m)[i] == s[i]
  {
  }

  /** `use` keeps the stack compact. */
  lemma AttachCompact(s: Stack, items: seq<Item>, m: Matcher)
    requires Compact(s) && items != []
    ensures Compact(Attach(s, items, m))
  {
  }

  /** `use` keeps `Binden`'s regular expressions Unicode-only. */
  lemma AttachUnicode(s: Stack, items: seq<Item>, m: Matcher)
    requires UnicodeOnly(s) && (m.Pattern? ==> m.flags == "u")
    ensures UnicodeOnly(Attach(s, items, m))
  {
  }

  /** The items of a stack with an entry put after it. */
  lemma FlattenPush(s: Stack, e: Entry)
    ensures Flatten(s + [e]) == Flatten(s) + e.items
  {
    assert (s + [e])[..|s|] == s;
  }

  /** `use` adds exactly its items, after all the others. */
  lemma AttachItems(s: Stack, items: seq<Item>, m: Matcher)
    ensures Flatten(Attach(s, items, m)) == Flatten(s) + items
  {
    if |s| > 0 && s[|s| - 1].matcher == m {
      var init := s[..|s| - 1];
      FlattenPush(init, Entry(s[|s| - 1].items + items, m));
      assert s == init + [s[|s| - 1]];
      FlattenPush(init, s[|s| - 1]);
    } else {
      FlattenPush(s, Entry(items, m));
    }
  }

  // ----- off -----

  /** Whether entry `e` is where `off` looks for `arg`: the matcher is the one asked for and the item is in it. */
  predicate Holds(e: Entry, m: Matcher, arg: UseArg) {
    e.matcher == m && arg.Supported? && arg.item in e.items
  }

  /** The highest entry below `n` that holds the item. */
  function HolderBelow(s: Stack, m: Matcher, arg: UseArg, n: nat): (r: Option<nat>)
    requires n <= |s|
    ensures r.Some? ==> r.value < n && Holds(s[r.value], m, arg) && forall j :: r.value < j < n ==> !Holds(s[j], m, arg)
    ensures r.None? ==> forall j :: 0 <= j < n ==> !Holds(s[j], m, arg)
  {
    if n == 0 then None
    else if Holds(s[n - 1], m, arg) then Some(n - 1)
    else HolderBelow(s, m, arg, n - 1)
  }

  /** The entry `off` takes the item from: the highest one that holds it. */
  function Holder(s: Stack, m: Matcher, arg: UseArg): Option<nat> {
    HolderBelow(s, m, arg, |s|)
  }

  /** `xs` without position `k`: `arr.splice(k, 1)`. */
  function RemoveAt(xs: seq<Item>, k: nat): (r: seq<Item>)
    requires k < |xs|
    ensures |r| == |xs| - 1
  {
    xs[..k] + xs[k + 1..]
  }

  /**
   * The stack once entry `i` has been emptied: between two entries with
   * equal matchers the later one joins the earlier, and both the emptied
   * and the joined entry go; otherwise only the emptied entry goes.
   */
  function Close(s: Stack, i: nat): (r: Stack)
    requires i < |s|
  {
    if 0 < i < |s| - 1 && s[i - 1].matcher == s[i + 1].matcher then
      s[..i - 1] + [Entry(s[i - 1].items + s[i + 1].items, s[i - 1].matcher)] + s[i + 2..]
    else s[..i] + s[i + 1..]
  }

  /** One item of `off`: the stack after it and what it removed (the item, or nothing). */
  function DetachOne(s: Stack, m: Matcher, arg: UseArg): (r: (Stack, seq<Item>))
    ensures Holder(s, m, arg).None? <==> r.1 == []
    ensures Holder(s, m, arg).None? ==> r.0 == s
    ensures Holder(s, m, arg).Some? ==> r.1 == [arg.item]
  {
    match Holder(s, m, arg)
    case None => (s, [])
    case Some(i) =>
      var k := Routing.LastIndex(s[i].items, arg.item).value;
      var rest := RemoveAt(s[i].items, k);
      if rest == [] then (Close(s, i), [arg.item]) else (s[i := Entry(rest, m)], [arg.item])
  }

  /** `off` of several items, one after the other, each against the stack the previous one left. */
  function DetachAll(s: Stack, m: Matcher, args: seq<UseArg>): (r: (Stack, seq<Item>))
    ensures |r.1| <= |args|
  {
    if args == [] then (s, [])
    else
      var previous := DetachAll(s, m, args[..|args| - 1]);
      var last := DetachOne(previous.0, m, args[|args| - 1]);
      (last.0, previous.1 + last.1)
  }

  /** Compact but for entry `i`, which may be empty: the state once `off` has emptied it. */
  predicate CompactBut(s: Stack, i: nat) {
    && (forall j :: 0 <= j < |s| && j != i ==> s[j].items != [])
    && (forall j :: 0 < j < |s| ==> s[j - 1].matcher != s[j].matcher)
  }

  /** Taking out entry `i` keeps the rest compact when its two neighbours differ. */
  lemma DropCompact(s: Stack, i: nat)
    requires i < |s| && CompactBut(s, i)
    requires 0 < i < |s| - 1 ==> s[i - 1].matcher != s[i + 1].matcher
    ensures Compact(s[..i] + s[i + 1..])
  {
    var r := s[..i] + s[i + 1..];
    assert forall j :: 0 <= j < i ==> r[j] == s[j];
    assert forall j :: i <= j < |r| ==> r[j] == s[j + 1];
  }

  /** Taking out entry `i` between two equal matchers and joining them keeps the rest compact. */
  lemma MergeCompact(s: Stack, i: nat)
    requires 0 < i < |s| - 1 && CompactBut(s, i) && s[i - 1].matcher == s[i + 1].matcher
    ensures Compact(s[..i - 1] + [Entry(s[i - 1].items + s[i + 1].items, s[i - 1].matcher)] + s[i + 2..])
  {
    var e := Entry(s[i - 1].items + s[i + 1].items, s[i - 1].matcher);
    var r := s[..i - 1] + [e] + s[i + 2..];
    assert forall j :: 0 <= j < i - 1 ==> r[j] == s[j];
    assert r[i - 1] == e;
    assert forall j :: i <= j < |r| ==> r[j] == s[j + 2];
    if i + 2 < |s| {
      assert r[i] == s[i + 2];
      assert s[i + 1].matcher != s[i + 2].matcher;
    }
  }

  /** Closing the gap of an emptied entry leaves a compact stack. */
  lemma CloseCompact(s: Stack, i: nat)
    requires i < |s| && CompactBut(s, i)
    ensures Compact(Close(s, i))
  {
    if 0 < i < |s| - 1 && s[i - 1].matcher == s[i + 1].matcher {
      MergeCompact(s, i);
    } else {
      DropCompact(s, i);
    }
  }

  /** Each item of `off` keeps the stack compact. */
  lemma DetachOneCompact(s: Stack, m: Matcher, arg: UseArg)
    requires Compact(s)
    ensures Compact(DetachOne(s, m, arg).0)
  {
    var h := Holder(s, m, arg);
    if h.Some? {
      var i := h.value;
      var k := Routing.LastIndex(s[i].items, arg.item).value;
      var rest := RemoveAt(s[i].items, k);
      if rest == [] {
        assert CompactBut(s, i);
        CloseCompact(s, i);
      } else {
        var r := s[i := Entry(rest, m)];
        assert forall j :: 0 <= j < |s| ==> r[j].matcher == s[j].matcher;
      }
    }
  }

  /** `off` keeps the stack compact. */
  lemma {:induction false} DetachAllCompact(s: Stack, m: Matcher, args: seq<UseArg>)
    requires Compact(s)
    ensures Compact(DetachAll(s, m, args).0)
    decreases |args|
  {
    if args != [] {
      DetachAllCompact(s, m, args[..|args| - 1]);
      DetachOneCompact(DetachAll(s, m, args[..|args| - 1]).0, m, args[|args| - 1]);
    }
  }

  /** Each item of `off` keeps `Binden`'s regular expressions Unicode-only. */
  lemma DetachOneUnicode(s: Stack, m: Matcher, arg: UseArg)
    requires UnicodeOnly(s)
    ensures UnicodeOnly(DetachOne(s, m, arg).0)
  {
    var h := Holder(s, m, arg);
    if h.Some? {
      var i := h.value;
      var rest := RemoveAt(s[i].items, Routing.LastIndex(s[i].items, arg.item).value);
      var r := DetachOne(s, m, arg).0;
      if rest == [] && 0 < i < |s| - 1 && s[i - 1].matcher == s[i + 1].matcher {
        var pre, post := s[..i - 1], s[i + 2..];
        assert r == pre + [Entry(s[i - 1].items + s[i + 1].items, s[i - 1].matcher)] + post;
        assert s[i - 1] in s;
        assert forall e | e in pre || e in post :: e in s;
      } else if rest == [] {
        var pre, post := s[..i], s[i + 1..];
        assert r == pre + post;
        assert forall e | e in pre || e in post :: e in s;
      } else {
        var pre, post := s[..i], s[i + 1..];
        assert r == pre + [Entry(rest, s[i].matcher)] + post;
        assert s[i] in s;
        assert forall e | e in pre || e in post :: e in s;
      }
    }
  }

  lemma {:induction false} DetachAllUnicode(s: Stack, m: Matcher, args: seq<UseArg>)
    requires UnicodeOnly(s)
    ensures UnicodeOnly(DetachAll(s, m, args).0)
    decreases |args|
  {
    if args != [] {
      DetachAllUnicode(s, m, args[..|args| - 1]);
      DetachOneUnicode(DetachAll(s, m, args[..|args| - 1]).0, m, args[|args| - 1]);
    }
  }

  lemma {:induction false} FlattenAppend(a: Stack, b: Stack)
    ensures Flatten(a + b) == Flatten(a) + Flatten(b)
    decreases |b|
  {
    if b == [] {
      assert a + b == a;
    } else {
      var init := b[..|b| - 1];
      assert (a + b)[..|a + b| - 1] == a + init;
      assert (a + b)[|a + b| - 1] == b[|b| - 1];
      FlattenAppend(a, init);
      assert Flatten(a + b) == Flatten(a + init) + b[|b| - 1].items;
      assert Flatten(b) == Flatten(init) + b[|b| - 1].items;
    }
  }

  /** The items of a stack cut in three are those of the three parts. */
  lemma FlattenThree(pre: Stack, mid: Stack, post: Stack)
    ensures Flatten(pre + mid + post) == Flatten(pre) + Flatten(mid) + Flatten(post)
  {
    FlattenAppend(pre + mid, post);
    FlattenAppend(pre, mid);
  }

  lemma FlattenOne(e: Entry)
    ensures Flatten([e]) == e.items
  {
    FlattenPush([], e);
    assert [] + [e] == [e];
  }

  lemma FlattenTriple(a: Entry, e: Entry, b: Entry)
    ensures Flatten([a, e, b]) == a.items + e.items + b.items
  {
    FlattenOne(a);
    FlattenPush([a], e);
    assert [a] + [e] == [a, e];
    FlattenPush([a, e], b);
    assert [a, e] + [b] == [a, e, b];
  }

  /** Taking item `k` out of an entry removes just that item from the stack. */
  lemma UpdateItems(pre: Stack, e: Entry, post: Stack, k: nat)
    requires k < |e.items|
    ensures multiset(Flatten(pre + [e] + post)) ==
              multiset(Flatten(pre + [Entry(RemoveAt(e.items, k), e.matcher)] + post)) + multiset{e.items[k]}
  {
    var e' := Entry(RemoveAt(e.items, k), e.matcher);
    FlattenThree(pre, [e], post);
    FlattenOne(e);
    FlattenThree(pre, [e'], post);
    FlattenOne(e');
    assert e.items == e.items[..k] + [e.items[k]] + e.items[k + 1..];
  }

  /** Dropping an entry that held only `x` removes just `x` from the stack. */
  lemma DropItems(pre: Stack, e: Entry, post: Stack, x: Item)
    requires e.items == [x]
    ensures multiset(Flatten(pre + [e] + post)) == multiset(Flatten(pre + post)) + multiset{x}
  {
    FlattenThree(pre, [e], post);
    FlattenOne(e);
    FlattenAppend(pre, post);
  }

  /** Dropping an entry that held only `x` and joining its neighbours removes just `x` from the stack. */
  lemma MergeItems(pre: Stack, a: Entry, e: Entry, b: Entry, post: Stack, x: Item)
    requires e.items == [x]
    ensures multiset(Flatten(pre + [a, e, b] + post)) ==
              multiset(Flatten(pre + [Entry(a.items + b.items, a.matcher)] + post)) + multiset{x}
  {
    var joined := Entry(a.items + b.items, a.matcher);
    FlattenThree(pre, [a, e, b], post);
    FlattenTriple(a, e, b);
    FlattenThree(pre, [joined], post);
    FlattenOne(joined);
  }

  /** Each item of `off` removes at most that one item from the stack and keeps every other. */
  lemma DetachOneItems(s: Stack, m: Matcher, arg: UseArg)
    ensures multiset(Flatten(s)) == multiset(Flatten(DetachOne(s, m, arg).0)) + multiset(DetachOne(s, m, arg).1)
  {
    var h := Holder(s, m, arg);
    if h.Some? {
      var i := h.value;
      var xs := s[i].items;
      var k := Routing.LastIndex(xs, arg.item).value;
      var rest := RemoveAt(xs, k);
      var r := DetachOne(s, m, arg).0;
      assert multiset(DetachOne(s, m, arg).1) == multiset{arg.item};
      if rest == [] {
        assert xs == [arg.item];
        if 0 < i < |s| - 1 && s[i - 1].matcher == s[i + 1].matcher {
          var pre, post := s[..i - 1], s[i + 2..];
          assert s == pre + [s[i - 1], s[i], s[i + 1]] + post;
          assert r == pre + [Entry(s[i - 1].items + s[i + 1].items, s[i - 1].matcher)] + post;
          MergeItems(pre, s[i - 1], s[i], s[i + 1], post, arg.item);
        } else {
          var pre, post := s[..i], s[i + 1..];
          assert s == pre + [s[i]] + post;
          assert r == pre + post;
          DropItems(pre, s[i], post, arg.item);
        }
      } else {
        var pre, post := s[..i], s[i + 1..];
        assert s == pre + [s[i]] + post;
        assert r == pre + [Entry(rest, s[i].matcher)] + post;
        UpdateItems(pre, s[i], post, k);
      }
    }
  }

  /** `off` removes exactly the items it returns, and nothing else leaves the stack. */
  lemma {:induction false} DetachAllItems(s: Stack, m: Matcher, args: seq<UseArg>)
    ensures multiset(Flatten(s)) == multiset(Flatten(DetachAll(s, m, args).0)) + multiset(DetachAll(s, m, args).1)
    decreases |args|
  {
    if args != [] {
      var previous := DetachAll(s, m, args[..|args| - 1]);
      DetachAllItems(s, m, args[..|args| - 1]);
      DetachOneItems(previous.0, m, args[|args| - 1]);
    }
  }

  /** Everything `off` returns was among the requested items. */
  lemma {:induction false} DetachAllRequested(s: Stack, m: Matcher, args: seq<UseArg>)
    ensures forall x :: x in DetachAll(s, m, args).1 ==> Supported(x) in args
    decreases |args|
  {
    if args != [] {
      DetachAllRequested(s, m, args[..|args| - 1]);
      assert forall a :: a in args[..|args| - 1] ==> a in args;
    }
  }

  /** Nothing comes off an empty stack. */
  lemma {:induction false} DetachFromEmpty(m: Matcher, args: seq<UseArg>)
    ensures DetachAll([], m, args) == ([], [])
    decreases |args|
  {
    if args != [] {
      DetachFromEmpty(m, args[..|args| - 1]);
    }
  }

  /** The holder is the entry found by scanning down from `n` until one holds the item. */
  lemma {:induction false} HolderIs(s: Stack, m: Matcher, arg: UseArg, n: nat, i: nat)
    requires i < n <= |s| && Holds(s[i], m, arg)
    requires forall j :: i < j < n ==> !Holds(s[j], m, arg)
    ensures HolderBelow(s, m, arg, n) == Some(i)
    decreases n
  {
    if n - 1 != i {
      HolderIs(s, m, arg, n - 1, i);
    }
  }

  /** The loop of `use` that checks every item before anything changes. */
  method CheckItems(args: seq<UseArg>) returns (all: bool)
    ensures all <==> AllSupported(args)
  {
    var k := 0;
    while k < |args|
      invariant 0 <= k <= |args|
      invariant forall j :: 0 <= j < k ==> args[j].Supported?
    {
      if args[k].Unsupported? {
        return false;
      }
      k := k + 1;
    }
    return true;
  }

  /**
   * The inner loop of `off` for one item: scan the entries from the last
   * down, take the item's last occurrence out of the first entry with the
   * matcher that holds it, and close the entry if that emptied it.
   */
  method Detach(s: Stack, m: Matcher, arg: UseArg) returns (r: Stack, found: seq<Item>)
    ensures (r, found) == DetachOne(s, m, arg)
  {
    var i := |s|;
    while i > 0
      invariant 0 <= i <= |s|
      invariant forall j :: i <= j < |s| ==> !Holds(s[j], m, arg)
    {
      i := i - 1;
      if s[i].matcher == m && arg.Supported? {
        var index := Routing.LastIndex(s[i].items, arg.item);
        if index.Some? {
          HolderIs(s, m, arg, |s|, i);
          var rest := RemoveAt(s[i].items, index.value);
          found := [arg.item];
          if rest != [] {
            r := s[i := Entry(rest, m)];
          } else {
            r := Close(s, i);
          }
          return;
        }
      }
    }
    return s, [];
  }

  /** The outer loop of `off`: each item in turn, against the stack the previous one left. */
  method DetachEach(s: Stack, m: Matcher, args: seq<UseArg>) returns (r: Stack, removed: seq<Item>)
    ensures (r, removed) == DetachAll(s, m, args)
  {
    r, removed := s, [];
    var k := 0;
    while k < |args|
      invariant 0 <= k <= |args|
      invariant (r, removed) == DetachAll(s, m, args[..k])
    {
      assert args[..k + 1][..k] == args[..k];
      var found;
      r, found := Detach(r, m, args[k]);
      removed := removed + found;
      k := k + 1;
    }
    assert args[..k] == args;
  }
}
