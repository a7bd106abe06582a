/**
 * `Router` (src/router.ts): middlewares per request method, in a `Map`
 * kept in insertion order, and a `guarded` flag that makes the dispatcher
 * answer 405 for a method the router does not serve.
 */
module Routing {
  import opened Wrappers
  import opened Strings
  import opened Js
  import opened Http
  import opened Middlewares

  /** An argument of `on` or `off`: a middleware, or any other value. */
  datatype Arg = Mw(m: Middleware) | NotMiddleware

  /** The method map: entries in insertion order. */
  type Table = seq<(string, seq<Middleware>)>

  predicate DistinctKeys(t: Table) {
    forall i, j :: 0 <= i < j < |t| ==> t[i].0 != t[j].0
  }

  /** The position of `key` in the map, if it is there. */
  function Find(t: Table, key: string): (r: Option<nat>)
    ensures r.Some? ==> r.value < |t| && t[r.value].0 == key
    ensures r.None? ==> forall i :: 0 <= i < |t| ==> t[i].0 != key
  {
    FindBelow(t, key, |t|)
  }

  function FindBelow(t: Table, key: string, n: nat): (r: Option<nat>)
    requires n <= |t|
    ensures r.Some? ==> r.value < n && t[r.value].0 == key
    ensures r.None? ==> forall i :: 0 <= i < n ==> t[i].0 != key
  {
    if n == 0 then None
    else if t[n - 1].0 == key then Some(n - 1)
    else FindBelow(t, key, n - 1)
  }

  /** `map.get(key)`. */
  function Lookup(t: Table, key: string): Option<seq<Middleware>> {
    var i := Find(t, key);
    if i.Some? then Some(t[i.value].1) else None
  }

  /** A method's list on the map: that of the upper-cased name, or `[]` when it has none. */
  function MethodList(t: Table, httpMethod: string): (mws: seq<Middleware>)
    ensures DistinctKeys(t) ==> forall i :: 0 <= i < |t| && t[i].0 == ToUpper(httpMethod) ==> mws == t[i].1
    ensures (forall i :: 0 <= i < |t| ==> t[i].0 != ToUpper(httpMethod)) ==> mws == []
  {
    var i := Find(t, ToUpper(httpMethod));
    if i.Some? then t[i.value].1 else []
  }

  /** `middlewares.find((m) => !m.disabled)` finds something. */
  predicate HasEnabled(mws: seq<Middleware>) {
    exists i :: 0 <= i < |mws| && !mws[i].disabled
  }

  /** The methods with an enabled middleware, in the map's order. */
  function Enabled(t: Table): (ms: seq<string>)
    ensures forall m :: m in ms <==> exists i :: 0 <= i < |t| && t[i].0 == m && HasEnabled(t[i].1)
  {
    if t == [] then []
    else
      var rest := Enabled(t[..|t| - 1]);
      assert forall i :: 0 <= i < |t| - 1 ==> t[..|t| - 1][i] == t[i];
      if HasEnabled(t[|t| - 1].1) then rest + [t[|t| - 1].0] else rest
  }

  /** Under distinct keys no method is listed twice, as in the `Set` the getter returns. */
  lemma {:induction false} EnabledDistinct(t: Table)
    requires DistinctKeys(t)
    ensures forall i, j :: 0 <= i < j < |Enabled(t)| ==> Enabled(t)[i] != Enabled(t)[j]
  {
    if t != [] {
      var init := t[..|t| - 1];
      assert DistinctKeys(init);
      EnabledDistinct(init);
      assert t[|t| - 1].0 !in Enabled(init);
    }
  }

  /** The map after `on(method, ...mws)`: the method's list extended, or a new entry at the end. */
  function Appended(t: Table, key: string, mws: seq<Middleware>): Table {
    var i := Find(t, key);
    if i.Some? then t[i.value := (key, t[i.value].1 + mws)] else t + [(key, mws)]
  }

  /** `on` extends the method's list (an absent one counting as empty) and touches no other method. */
  lemma AppendedGet(t: Table, key: string, mws: seq<Middleware>, other: string)
    requires DistinctKeys(t)
    ensures DistinctKeys(Appended(t, key, mws))
    ensures Lookup(Appended(t, key, mws), key) == Some(Lookup(t, key).GetOr([]) + mws)
    ensures other != key ==> Lookup(Appended(t, key, mws), other) == Lookup(t, other)
  {
    var a := Appended(t, key, mws);
    var i := Find(t, key);
    if i.Some? {
      assert forall j :: 0 <= j < |t| ==> a[j].0 == t[j].0;
      assert DistinctKeys(a);
      FindUnique(a, i.value);
      FindUnique(t, i.value);
    } else {
      assert forall j :: 0 <= j < |t| ==> a[j] == t[j];
      assert DistinctKeys(a);
      assert a[..|a| - 1] == t;
      assert Lookup(t, key).GetOr([]) + mws == mws;
    }
    var k := Find(t, other);
    if other != key {
      if k.Some? {
        assert a[k.value].0 == other;
        FindUnique(a, k.value);
      } else if i.None? {
        assert a[..|a| - 1] == t;
      } else {
        assert forall j :: 0 <= j < |a| ==> a[j].0 != other;
      }
    }
  }

  lemma FindUnique(t: Table, i: nat)
    requires DistinctKeys(t) && i < |t|
    ensures Find(t, t[i].0) == Some(i)
  {
  }

  /** `xs.lastIndexOf(x)`. */
  function LastIndex<T(==)>(xs: seq<T>, x: T): (r: Option<nat>)
    ensures r.Some? ==> r.value < |xs| && xs[r.value] == x && forall k :: r.value < k < |xs| ==> xs[k] != x
    ensures r.None? <==> x !in xs
  {
    LastIndexBelow(xs, x, |xs|)
  }

  function LastIndexBelow<T(==)>(xs: seq<T>, x: T, n: nat): (r: Option<nat>)
    requires n <= |xs|
    ensures r.Some? ==> r.value < n && xs[r.value] == x && forall k :: r.value < k < n ==> xs[k] != x
    ensures r.None? <==> forall k :: 0 <= k < n ==> xs[k] != x
  {
    if n == 0 then None
    else if xs[n - 1] == x then Some(n - 1)
    else LastIndexBelow(xs, x, n - 1)
  }

  /** `xs.splice(i, 1)`, the remaining elements. */
  function Without<T>(xs: seq<T>, i: nat): (r: seq<T>)
    requires i < |xs|
    ensures |r| == |xs| - 1
  {
    xs[..i] + xs[i + 1..]
  }

  lemma WithoutSplits<T>(xs: seq<T>, i: nat)
    requires i < |xs|
    ensures multiset(Without(xs, i)) + multiset{xs[i]} == multiset(xs)
  {
    assert xs == xs[..i] + [xs[i]] + xs[i + 1..];
  }

  /** What the loop of `off` leaves and removes: one last occurrence per requested middleware, in order. */
  datatype Removal = Removal(rest: seq<Middleware>, removed: seq<Middleware>)

  function RemoveEach(mws: seq<Middleware>, args: seq<Arg>): (r: Removal)
    ensures |r.removed| <= |args|
  {
    if args == [] then Removal(mws, [])
    else
      var r := RemoveEach(mws, args[..|args| - 1]);
      var step := RemoveOne(r.rest, args[|args| - 1]);
      Removal(step.rest, r.removed + step.removed)
  }

  function RemoveOne(mws: seq<Middleware>, arg: Arg): (r: Removal)
    ensures |r.removed| <= 1
    ensures r.removed == [] <==> arg.NotMiddleware? || arg.m !in mws
    ensures r.removed != [] ==> r.removed == [arg.m]
  {
    if arg.NotMiddleware? then Removal(mws, [])
    else
      var i := LastIndex(mws, arg.m);
      if i.Some? then Removal(Without(mws, i.value), [arg.m]) else Removal(mws, [])
  }

  /** The removal is a split of the list: what stays and what goes make up the list again. */
  lemma {:induction false} RemoveEachSplits(mws: seq<Middleware>, args: seq<Arg>)
    ensures multiset(RemoveEach(mws, args).rest) + multiset(RemoveEach(mws, args).removed) == multiset(mws)
  {
    if args != [] {
      RemoveEachSplits(mws, args[..|args| - 1]);
      var r := RemoveEach(mws, args[..|args| - 1]);
      var step := RemoveOne(r.rest, args[|args| - 1]);
      if step.removed != [] {
        WithoutSplits(r.rest, LastIndex(r.rest, args[|args| - 1].m).value);
      }
      assert multiset(step.rest) + multiset(step.removed) == multiset(r.rest);
      assert multiset(r.removed + step.removed) == multiset(r.removed) + multiset(step.removed);
    }
  }

  /** One step of the removal loop. */
  lemma RemoveEachLast(mws: seq<Middleware>, args: seq<Arg>, k: nat)
    requires k < |args|
    ensures RemoveEach(mws, args[..k + 1]) ==
      var r := RemoveEach(mws, args[..k]);
      var step := RemoveOne(r.rest, args[k]);
      Removal(step.rest, r.removed + step.removed)
  {
    assert args[..k + 1][..k] == args[..k];
  }

  /** Nothing more can be removed from an emptied list: the early `return` of `off` loses nothing. */
  lemma {:induction false} RemoveFromEmpty(mws: seq<Middleware>, args: seq<Arg>, k: nat)
    requires k <= |args| && RemoveEach(mws, args[..k]).rest == []
    ensures RemoveEach(mws, args) == RemoveEach(mws, args[..k])
    decreases |args| - k
  {
    if k < |args| {
      assert args[..k + 1][..k] == args[..k];
      RemoveFromEmpty(mws, args, k + 1);
    } else {
      assert args[..k] == args;
    }
  }

  /** Each removed middleware was asked for: the removed list is a subsequence of the requested ones. */
  lemma {:induction false} RemovedRequested(mws: seq<Middleware>, args: seq<Arg>)
    ensures forall x :: x in RemoveEach(mws, args).removed ==> Mw(x) in args
  {
    if args != [] {
      RemovedRequested(mws, args[..|args| - 1]);
      assert forall a :: a in args[..|args| - 1] ==> a in args;
    }
  }

  /** The map after `off` took `rest` out of the method at `i`: an emptied list loses its entry. */
  function Detached(t: Table, i: nat, rest: seq<Middleware>): Table
    requires i < |t|
  {
    if rest == [] then t[..i] + t[i + 1..] else t[i := (t[i].0, rest)]
  }

  /**
   * The map and the removed middlewares after `off(method, ...args)` for a
   * supported method: nothing happens to a method without middlewares.
   */
  function OffResult(t: Table, key: string, args: seq<Arg>): (Table, seq<Middleware>) {
    var i := Find(t, key);
    if i.None? || t[i.value].1 == [] then (t, [])
    else
      var removal := RemoveEach(t[i.value].1, args);
      (Detached(t, i.value, removal.rest), removal.removed)
  }

  lemma OffResultAt(t: Table, key: string, i: nat, args: seq<Arg>)
    requires Find(t, key) == Some(i) && t[i].1 != []
    ensures OffResult(t, key, args) == (Detached(t, i, RemoveEach(t[i].1, args).rest), RemoveEach(t[i].1, args).removed)
  {
  }

  /** Every request method string Node's parser accepts. */
  predicate Supported(httpMethod: string) {
    httpMethod in Methods
  }

  /** All arguments are middlewares; then these are they. */
  predicate AllMiddleware(args: seq<Arg>) {
    forall i :: 0 <= i < |args| ==> args[i].Mw?
  }

  function MiddlewaresOf(args: seq<Arg>): (mws: seq<Middleware>)
    requires AllMiddleware(args)
    ensures |mws| == |args| && forall i :: 0 <= i < |args| ==> args[i] == Mw(mws[i])
  {
    if args == [] then [] else [args[0].m] + MiddlewaresOf(args[1..])
  }

  /** The loop of `on` that checks each argument before anything changes. */
  method CheckMiddlewares(args: seq<Arg>) returns (all: bool)
    ensures all <==> AllMiddleware(args)
  {
    var k := 0;
    while k < |args|
      invariant 0 <= k <= |args|
      invariant forall j :: 0 <= j < k ==> args[j].Mw?
    {
      if args[k].NotMiddleware? {
        return false;
      }
      k := k + 1;
    }
    return true;
  }

  /**
   * The loop of `off`: each middleware argument in turn loses its last
   * occurrence, and the loop stops as soon as the list is empty.
   */
  method RemoveAll(list: seq<Middleware>, args: seq<Arg>) returns (rest: seq<Middleware>, removed: seq<Middleware>)
    ensures Removal(rest, removed) == RemoveEach(list, args)
  {
    rest, removed := list, [];
    var k := 0;
    while k < |args| && rest != []
      invariant 0 <= k <= |args|
      invariant RemoveEach(list, args[..k]) == Removal(rest, removed)
    {
      RemoveEachLast(list, args, k);
      if args[k].Mw? {
        var index := LastIndex(rest, args[k].m);
        if index.Some? {
          rest := Without(rest, index.value);
          removed := removed + [args[k].m];
        }
      }
      k := k + 1;
    }
    if rest == [] {
      RemoveFromEmpty(list, args, k);
    } else {
      assert args[..k] == args;
    }
  }

  class Router {
    var guarded: bool
    var table: Table

    ghost predicate Valid()
      reads this
    {
      DistinctKeys(table)
    }

    /** `new Router({ guarded })`, coercing the option to a boolean. */
    constructor (guardedOption: Js.Value)
      ensures Valid()
      ensures guarded == Truthy(guardedOption) && table == []
    {
      guarded := Truthy(guardedOption);
      table := [];
    }

    /** The `guarded` setter, coercing to a boolean. */
    method SetGuarded(v: Js.Value)
      modifies this
      ensures guarded == Truthy(v) && table == old(table)
    {
      guarded := Truthy(v);
    }

    /** The `methods` getter: every method with a middleware that is not disabled, in the map's order. */
    method GetMethods() returns (ms: seq<string>)
      ensures ms == Enabled(table)
    {
      ms := [];
      var i := 0;
      while i < |table|
        invariant 0 <= i <= |table|
        invariant ms == Enabled(table[..i])
      {
        assert table[..i + 1][..i] == table[..i];
        var found := false;
        var k := 0;
        while k < |table[i].1|
          invariant 0 <= k <= |table[i].1|
          invariant found <==> exists j :: 0 <= j < k && !table[i].1[j].disabled
        {
          if !table[i].1[k].disabled {
            found := true;
          }
          k := k + 1;
        }
        if found {
          ms := ms + [table[i].0];
        }
        i := i + 1;
      }
      assert table[..|table|] == table;
    }

    /** `middlewares(method)`: the list of the upper-cased method, or `[]` when it has none. */
    function Middlewares(httpMethod: string): (mws: seq<Middleware>)
      reads this
      ensures Valid() ==> forall i :: 0 <= i < |table| && table[i].0 == ToUpper(httpMethod) ==> mws == table[i].1
      ensures (forall i :: 0 <= i < |table| ==> table[i].0 != ToUpper(httpMethod)) ==> mws == []
    {
      MethodList(table, httpMethod)
    }

    /**
     * `on(method, ...mws)`: a method outside `METHODS` or an argument that
     * is not a middleware is a `TypeError` that changes nothing; otherwise
     * the middlewares are appended to the method's list.
     */
    method On(httpMethod: string, args: seq<Arg>) returns (r: Result<(), string>)
      requires Valid()
      modifies this
      ensures Valid()
      ensures !Supported(httpMethod) ==> r == Err("Method " + httpMethod + " is not supported")
      ensures Supported(httpMethod) && !AllMiddleware(args) ==> r == Err("Middleware is not supported")
      ensures r.Ok? <==> Supported(httpMethod) && AllMiddleware(args)
      ensures r.Ok? ==> table == Appended(old(table), httpMethod, MiddlewaresOf(args))
      ensures r.Err? ==> table == old(table)
      ensures guarded == old(guarded)
    {
      if httpMethod !in Methods {
        return Err("Method " + httpMethod + " is not supported");
      }
      var all := CheckMiddlewares(args);
      if !all {
        return Err("Middleware is not supported");
      }
      var mws := MiddlewaresOf(args);
      AppendedGet(table, httpMethod, mws, httpMethod);
      table := Appended(table, httpMethod, mws);
      return Ok(());
    }

    /**
     * `off(method, ...mws)`: a method outside `METHODS` is a `TypeError`;
     * a method without middlewares gives `[]`; otherwise the last occurrence
     * of each requested middleware is removed, the removed ones are returned
     * in request order, and an emptied list loses its entry.
     */
    method Off(httpMethod: string, args: seq<Arg>) returns (r: Result<seq<Middleware>, string>)
      requires Valid()
      modifies this
      ensures Valid()
      ensures r.Err? <==> !Supported(httpMethod)
      ensures r.Err? ==> r.error == "Method " + httpMethod + " is not supported" && table == old(table)
      ensures r.Ok? ==> table == OffResult(old(table), httpMethod, args).0 && r.value == OffResult(old(table), httpMethod, args).1
      ensures guarded == old(guarded)
    {
      if httpMethod !in Methods {
        return Err("Method " + httpMethod + " is not supported");
      }
      var found := Find(table, httpMethod);
      if found.None? || table[found.value].1 == [] {
        return Ok([]);
      }
      var i := found.value;
      var t0 := table;
      var mws, removed := RemoveAll(table[i].1, args);
      OffResultAt(t0, httpMethod, i, args);
      DetachedValid(t0, i, mws);
      table := Detached(t0, i, mws);
      return Ok(removed);
    }

    /** The verb shorthands: `on` with that method. */
    method Delete(args: seq<Arg>) returns (r: Result<(), string>)
      requires Valid()
      modifies this
      ensures Valid()
      ensures r.Ok? <==> AllMiddleware(args)
      ensures r.Ok? ==> table == Appended(old(table), "DELETE", MiddlewaresOf(args))
      ensures r.Err? ==> r.error == "Middleware is not supported" && table == old(table)
      ensures guarded == old(guarded)
    {
      assert Methods[5] == "DELETE";
      r := On("DELETE", args);
    }

    method Get(args: seq<Arg>) returns (r: Result<(), string>)
      requires Valid()
      modifies this
      ensures Valid()
      ensures r.Ok? <==> AllMiddleware(args)
      ensures r.Ok? ==> table == Appended(old(table), "GET", MiddlewaresOf(args))
      ensures r.Err? ==> r.error == "Middleware is not supported" && table == old(table)
      ensures guarded == old(guarded)
    {
      assert Methods[6] == "GET";
      r := On("GET", args);
    }

    method Head(args: seq<Arg>) returns (r: Result<(), string>)
      requires Valid()
      modifies this
      ensures Valid()
      ensures r.Ok? <==> AllMiddleware(args)
      ensures r.Ok? ==> table == Appended(old(table), "HEAD", MiddlewaresOf(args))
      ensures r.Err? ==> r.error == "Middleware is not supported" && table == old(table)
      ensures guarded == old(guarded)
    {
      assert Methods[7] == "HEAD";
      r := On("HEAD", args);
    }

    method Options(args: seq<Arg>) returns (r: Result<(), string>)
      requires Valid()
      modifies this
      ensures Valid()
      ensures r.Ok? <==> AllMiddleware(args)
      ensures r.Ok? ==> table == Appended(old(table), "OPTIONS", MiddlewaresOf(args))
      ensures r.Err? ==> r.error == "Middleware is not supported" && table == old(table)
      ensures guarded == old(guarded)
    {
      assert Methods[17] == "OPTIONS";
      r := On("OPTIONS", args);
    }

    method Patch(args: seq<Arg>) returns (r: Result<(), string>)
      requires Valid()
      modifies this
      ensures Valid()
      ensures r.Ok? <==> AllMiddleware(args)
      ensures r.Ok? ==> table == Appended(old(table), "PATCH", MiddlewaresOf(args))
      ensures r.Err? ==> r.error == "Middleware is not supported" && table == old(table)
      ensures guarded == old(guarded)
    {
      assert Methods[18] == "PATCH";
      r := On("PATCH", args);
    }

    method Post(args: seq<Arg>) returns (r: Result<(), string>)
      requires Valid()
      modifies this
      ensures Valid()
      ensures r.Ok? <==> AllMiddleware(args)
      ensures r.Ok? ==> table == Appended(old(table), "POST", MiddlewaresOf(args))
      ensures r.Err? ==> r.error == "Middleware is not supported" && table == old(table)
      ensures guarded == old(guarded)
    {
      assert Methods[19] == "POST";
      r := On("POST", args);
    }

    method Put(args: seq<Arg>) returns (r: Result<(), string>)
      requires Valid()
      modifies this
      ensures Valid()
      ensures r.Ok? <==> AllMiddleware(args)
      ensures r.Ok? ==> table == Appended(old(table), "PUT", MiddlewaresOf(args))
      ensures r.Err? ==> r.error == "Middleware is not supported" && table == old(table)
      ensures guarded == old(guarded)
    {
      assert Methods[23] == "PUT";
      r := On("PUT", args);
    }

    method Trace(args: seq<Arg>) returns (r: Result<(), string>)
      requires Valid()
      modifies this
      ensures Valid()
      ensures r.Ok? <==> AllMiddleware(args)
      ensures r.Ok? ==> table == Appended(old(table), "TRACE", MiddlewaresOf(args))
      ensures r.Err? ==> r.error == "Middleware is not supported" && table == old(table)
      ensures guarded == old(guarded)
    {
      assert Methods[29] == "TRACE";
      r := On("TRACE", args);
    }
  }

  /** Taking middlewares out of a method keeps the keys distinct. */
  lemma DetachedValid(t: Table, i: nat, rest: seq<Middleware>)
    requires DistinctKeys(t) && i < |t|
    ensures DistinctKeys(Detached(t, i, rest))
  {
    if rest == [] {
      var d := t[..i] + t[i + 1..];
      assert forall j :: 0 <= j < |d| ==> d[j] == if j < i then t[j] else t[j + 1];
    }
  }

  /** A method that `off` empties no longer has an entry, so it leaves `methods`. */
  lemma EmptiedLeaves(t: Table, i: nat, key: string)
    requires DistinctKeys(t) && i < |t| && t[i].0 == key
    ensures Lookup(Detached(t, i, []), key).None?
    ensures key !in Enabled(Detached(t, i, []))
  {
    var d := Detached(t, i, []);
    assert forall j :: 0 <= j < |d| ==> d[j] == if j < i then t[j] else t[j + 1];
  }
}
