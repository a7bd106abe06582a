/**
 * The request walk of `#handle` and `#runMiddleware` (src/binden.ts,
 * src/kauai.ts), on values. A context is its identity, the request's
 * pathname and method, and its `done` flag; what a middleware's `run` does
 * is an oracle that answers, for a middleware and the context it is given,
 * whether it returned a context or threw, and how it left the given one.
 * Routers are seen through their `guarded` flag and method map as they are
 * when the walk reaches them.
 */
module Walks {
  import opened Wrappers
  import opened Strings
  import opened Js
  import opened Middlewares
  import Routing
  import Errors
  import opened Stacks

  datatype Ctx = Ctx(id: nat, pathname: string, httpMethod: Option<string>, done: bool)

  /**
   * A thrown value, as far as the error handler reads it: an object with
   * its `status`, `expose`, `json` (an object, or absent or falsy) and
   * `message` members, or `null`/`undefined`.
   */
  datatype ErrorValue =
    | ErrorObject(status: Value, expose: Value, json: Option<Errors.Json>, message: Value)
    | NullValue

  /** What `run` did: returned a context or something else (`None`), or threw; `after` is the given context afterwards. */
  datatype Run = Returned(replacement: Option<Ctx>, after: Ctx) | Threw(error: ErrorValue, after: Ctx)

  /** A `KauaiError` as a thrown value. */
  function ErrorOf(e: Errors.KauaiError): ErrorValue {
    ErrorObject(Number(Int(e.status)), Bool(e.expose), e.json, Str(e.message))
  }

  /**
   * `#runMiddleware(middleware, context)`: a disabled middleware does not
   * run and the context stays; a returned context replaces the given one;
   * a throw is swallowed, keeping the given context, when the middleware
   * ignores errors, and passes on otherwise.
   */
  function RunMiddleware(m: Middleware, ctx: Ctx, run: (Middleware, Ctx) -> Run): (r: Result<Ctx, ErrorValue>)
    ensures m.disabled ==> r == Ok(ctx)
    ensures r.Err? <==> !m.disabled && run(m, ctx).Threw? && !m.ignoreErrors
    ensures r.Err? ==> r.error == run(m, ctx).error
    ensures !m.disabled && run(m, ctx).Returned? && run(m, ctx).replacement.Some? ==> r == Ok(run(m, ctx).replacement.value)
    ensures !m.disabled && run(m, ctx).Returned? && run(m, ctx).replacement.None? ==> r == Ok(run(m, ctx).after)
    ensures !m.disabled && run(m, ctx).Threw? && m.ignoreErrors ==> r == Ok(run(m, ctx).after)
  {
    if m.disabled then Ok(ctx)
    else
      match run(m, ctx)
      case Returned(replacement, after) => Ok(if replacement.Some? then replacement.value else after)
      case Threw(error, after) => if m.ignoreErrors then Ok(after) else Err(error)
  }

  /** Where the walk stands: still going, answered, refused with `405` and its `Allow`, or failed. */
  datatype Step = Continue(ctx: Ctx) | Finished(ctx: Ctx) | NotAllowed(allow: string) | Raised(error: ErrorValue)

  /** One middleware: it runs, and the walk returns when the context it leaves is done. */
  function Visit(m: Middleware, ctx: Ctx, run: (Middleware, Ctx) -> Run): (s: Step)
    ensures s.Continue? || s.Finished? ==> RunMiddleware(m, ctx, run) == Ok(s.ctx)
    ensures s.Continue? ==> !s.ctx.done
    ensures s.Finished? ==> s.ctx.done
    ensures !s.NotAllowed?
  {
    match RunMiddleware(m, ctx, run)
    case Ok(next) => if next.done then Finished(next) else Continue(next)
    case Err(e) => Raised(e)
  }

  /**
   * A router's method list, run in order: it never refuses, it finishes on a
   * done context, and only an enabled middleware that does not ignore errors
   * makes it fail.
   */
  function Chain(mws: seq<Middleware>, ctx: Ctx, run: (Middleware, Ctx) -> Run): (s: Step)
    ensures !s.NotAllowed?
    ensures s.Finished? ==> s.ctx.done
    ensures s.Raised? ==> exists m :: m in mws && !m.disabled && !m.ignoreErrors
  {
    if mws == [] then Continue(ctx)
    else
      var init := Chain(mws[..|mws| - 1], ctx, run);
      if init.Continue? then Visit(mws[|mws| - 1], init.ctx, run) else init
  }

  /** An item as the walk sees it: a middleware, or a router's `guarded` flag and method map. */
  datatype ItemView = MwView(m: Middleware) | RouterView(guarded: bool, table: Routing.Table)

  datatype EntryView = EntryView(items: seq<ItemView>, matcher: Matcher)

  /** The methods a guarded router allows: its `methods`, and `HEAD` after them when `GET` is there and `auto_head` is on. */
  function Allowed(methods: seq<string>, autoHead: bool): (ms: seq<string>)
    ensures forall x :: x in ms <==> x in methods || (x == "HEAD" && autoHead && "GET" in methods)
  {
    if autoHead && "GET" in methods && "HEAD" !in methods then methods + ["HEAD"] else methods
  }

  /** The request method, `GET` when it is missing. */
  function MethodOf(ctx: Ctx): string {
    ctx.httpMethod.GetOr("GET")
  }

  /** The method whose list a router runs: `GET` for `HEAD` when `auto_head` is on. */
  function ChainMethod(httpMethod: string, autoHead: bool): string {
    if httpMethod == "HEAD" && autoHead then "GET" else httpMethod
  }

  /**
   * One item: a middleware runs; a guarded router with at least one method
   * refuses a method it does not allow, and otherwise a router runs the
   * list of the request's method.
   */
  function ItemStep(v: ItemView, ctx: Ctx, autoHead: bool, run: (Middleware, Ctx) -> Run): (s: Step)
    ensures s.Finished? ==> s.ctx.done
    ensures s.NotAllowed? <==> v.RouterView? && v.guarded && Routing.Enabled(v.table) != [] &&
                               MethodOf(ctx) !in Allowed(Routing.Enabled(v.table), autoHead)
    ensures s.NotAllowed? ==> s.allow == Join(Allowed(Routing.Enabled(v.table), autoHead), ", ")
  {
    match v
    case MwView(m) => Visit(m, ctx, run)
    case RouterView(guarded, table) =>
      var methods := Routing.Enabled(table);
      var allowed := Allowed(methods, autoHead);
      if guarded && |methods| > 0 && MethodOf(ctx) !in allowed then NotAllowed(Join(allowed, ", "))
      else Chain(Routing.MethodList(table, ChainMethod(MethodOf(ctx), autoHead)), ctx, run)
  }

  /** An entry's items, in order; only a guarded router among them can refuse. */
  function Items(vs: seq<ItemView>, ctx: Ctx, autoHead: bool, run: (Middleware, Ctx) -> Run): (s: Step)
    ensures s.Finished? ==> s.ctx.done
    ensures s.NotAllowed? ==> exists v :: v in vs && v.RouterView? && v.guarded
  {
    if vs == [] then Continue(ctx)
    else
      var init := Items(vs[..|vs| - 1], ctx, autoHead, run);
      if init.Continue? then ItemStep(vs[|vs| - 1], init.ctx, autoHead, run) else init
  }

  /** Whether an entry applies to a pathname: `null` always, a string when equal, a pattern when its `test` says so. */
  predicate Matches(m: Matcher, pathname: string, test: (string, string, string) -> bool) {
    match m
    case Null => true
    case Path(s) => s == pathname
    case Pattern(source, flags) => test(source, flags, pathname)
  }

  /** One entry: its items run when its matcher applies to the pathname. */
  function EntryStep(e: EntryView, ctx: Ctx, autoHead: bool, run: (Middleware, Ctx) -> Run, test: (string, string, string) -> bool): (s: Step)
    ensures s.Finished? ==> s.ctx.done
    ensures !s.Continue? ==> Matches(e.matcher, ctx.pathname, test)
    ensures s.NotAllowed? ==> exists v :: v in e.items && v.RouterView? && v.guarded
  {
    if Matches(e.matcher, ctx.pathname, test) then Items(e.items, ctx, autoHead, run) else Continue(ctx)
  }

  /** The whole walk over the entries; a walk that is still going at the end is a `404`. */
  function Entries(es: seq<EntryView>, ctx: Ctx, autoHead: bool, run: (Middleware, Ctx) -> Run, test: (string, string, string) -> bool): (s: Step)
    ensures s.Finished? ==> s.ctx.done
    ensures s.NotAllowed? ==> exists e, v :: e in es && v in e.items && v.RouterView? && v.guarded
  {
    if es == [] then Continue(ctx)
    else
      var init := Entries(es[..|es| - 1], ctx, autoHead, run, test);
      if init.Continue? then EntryStep(es[|es| - 1], init.ctx, autoHead, run, test) else init
  }

  // ----- views of the stack -----

  /** The routers held among some items. */
  ghost function RoutersIn(items: seq<Item>): set<Routing.Router> {
    set i | 0 <= i < |items| && items[i].RouterItem? :: items[i].r
  }

  /** The routers held anywhere in the stack. */
  ghost function Routers(s: Stack): set<Routing.Router> {
    set i, j | 0 <= i < |s| && 0 <= j < |s[i].items| && s[i].items[j].RouterItem? :: s[i].items[j].r
  }

  function ItemViewOf(it: Item): ItemView
    reads if it.RouterItem? then {it.r} else {}
  {
    match it
    case MwItem(m) => MwView(m)
    case RouterItem(r) => RouterView(r.guarded, r.table)
  }

  /** An entry as the walk sees it, its routers read now. */
  function EntryViewOf(e: Entry): (v: EntryView)
    reads RoutersIn(e.items)
    ensures v.matcher == e.matcher && |v.items| == |e.items|
    ensures forall j :: 0 <= j < |e.items| ==> v.items[j] == ItemViewOf(e.items[j])
  {
    EntryView(seq(|e.items|, j requires 0 <= j < |e.items| reads RoutersIn(e.items) => ItemViewOf(e.items[j])), e.matcher)
  }

  /** The stack as the walk sees it. */
  function ViewOf(s: Stack): (vs: seq<EntryView>)
    reads Routers(s)
    ensures |vs| == |s| && forall i :: 0 <= i < |s| ==> vs[i] == EntryViewOf(s[i])
  {
    seq(|s|, i requires 0 <= i < |s| reads Routers(s) => EntryViewOf(s[i]))
  }

  // ----- properties of the walk -----

  /** One more middleware of a list that is still going. */
  lemma ChainNext(mws: seq<Middleware>, ctx: Ctx, run: (Middleware, Ctx) -> Run, k: nat)
    requires k < |mws| && Chain(mws[..k], ctx, run).Continue?
    ensures Chain(mws[..k + 1], ctx, run) == Visit(mws[k], Chain(mws[..k], ctx, run).ctx, run)
  {
    assert mws[..k + 1][..k] == mws[..k];
  }

  /** One more item of an entry that is still going. */
  lemma ItemsNext(vs: seq<ItemView>, ctx: Ctx, autoHead: bool, run: (Middleware, Ctx) -> Run, k: nat)
    requires k < |vs| && Items(vs[..k], ctx, autoHead, run).Continue?
    ensures Items(vs[..k + 1], ctx, autoHead, run) == ItemStep(vs[k], Items(vs[..k], ctx, autoHead, run).ctx, autoHead, run)
  {
    assert vs[..k + 1][..k] == vs[..k];
  }

  /** One more entry of a walk that is still going. */
  lemma EntriesNext(es: seq<EntryView>, ctx: Ctx, autoHead: bool, run: (Middleware, Ctx) -> Run, test: (string, string, string) -> bool, k: nat)
    requires k < |es| && Entries(es[..k], ctx, autoHead, run, test).Continue?
    ensures Entries(es[..k + 1], ctx, autoHead, run, test) == EntryStep(es[k], Entries(es[..k], ctx, autoHead, run, test).ctx, autoHead, run, test)
  {
    assert es[..k + 1][..k] == es[..k];
  }

  /** Once the list stops, the rest of it does not run: a prefix that stops gives the result of the whole list. */
  lemma {:induction false} ChainStops(mws: seq<Middleware>, ctx: Ctx, run: (Middleware, Ctx) -> Run, k: nat)
    requires k <= |mws| && !Chain(mws[..k], ctx, run).Continue?
    ensures Chain(mws, ctx, run) == Chain(mws[..k], ctx, run)
    decreases |mws| - k
  {
    if k < |mws| {
      var init := mws[..|mws| - 1];
      assert init[..k] == mws[..k];
      ChainStops(init, ctx, run, k);
    } else {
      assert mws[..k] == mws;
    }
  }

  lemma {:induction false} ItemsStop(vs: seq<ItemView>, ctx: Ctx, autoHead: bool, run: (Middleware, Ctx) -> Run, k: nat)
    requires k <= |vs| && !Items(vs[..k], ctx, autoHead, run).Continue?
    ensures Items(vs, ctx, autoHead, run) == Items(vs[..k], ctx, autoHead, run)
    decreases |vs| - k
  {
    if k < |vs| {
      var init := vs[..|vs| - 1];
      assert init[..k] == vs[..k];
      ItemsStop(init, ctx, autoHead, run, k);
    } else {
      assert vs[..k] == vs;
    }
  }

  lemma {:induction false} EntriesStop(es: seq<EntryView>, ctx: Ctx, autoHead: bool, run: (Middleware, Ctx) -> Run, test: (string, string, string) -> bool, k: nat)
    requires k <= |es| && !Entries(es[..k], ctx, autoHead, run, test).Continue?
    ensures Entries(es, ctx, autoHead, run, test) == Entries(es[..k], ctx, autoHead, run, test)
    decreases |es| - k
  {
    if k < |es| {
      var init := es[..|es| - 1];
      assert init[..k] == es[..k];
      EntriesStop(init, ctx, autoHead, run, test, k);
    } else {
      assert es[..k] == es;
    }
  }

  /** A finished walk ends on a done context; one still going is not done, unless nothing ran. */
  lemma {:induction false} ChainDone(mws: seq<Middleware>, ctx: Ctx, run: (Middleware, Ctx) -> Run)
    ensures Chain(mws, ctx, run).Finished? ==> Chain(mws, ctx, run).ctx.done
    ensures Chain(mws, ctx, run).Continue? && !ctx.done ==> !Chain(mws, ctx, run).ctx.done
    ensures !Chain(mws, ctx, run).NotAllowed?
    decreases |mws|
  {
    if mws != [] {
      ChainDone(mws[..|mws| - 1], ctx, run);
    }
  }

  lemma ItemStepDone(v: ItemView, ctx: Ctx, autoHead: bool, run: (Middleware, Ctx) -> Run)
    ensures ItemStep(v, ctx, autoHead, run).Finished? ==> ItemStep(v, ctx, autoHead, run).ctx.done
    ensures ItemStep(v, ctx, autoHead, run).Continue? && !ctx.done ==> !ItemStep(v, ctx, autoHead, run).ctx.done
  {
    if v.RouterView? {
      ChainDone(Routing.MethodList(v.table, ChainMethod(MethodOf(ctx), autoHead)), ctx, run);
    }
  }

  lemma {:induction false} ItemsDone(vs: seq<ItemView>, ctx: Ctx, autoHead: bool, run: (Middleware, Ctx) -> Run)
    ensures Items(vs, ctx, autoHead, run).Finished? ==> Items(vs, ctx, autoHead, run).ctx.done
    ensures Items(vs, ctx, autoHead, run).Continue? && !ctx.done ==> !Items(vs, ctx, autoHead, run).ctx.done
    decreases |vs|
  {
    if vs != [] {
      var init := Items(vs[..|vs| - 1], ctx, autoHead, run);
      ItemsDone(vs[..|vs| - 1], ctx, autoHead, run);
      if init.Continue? {
        ItemStepDone(vs[|vs| - 1], init.ctx, autoHead, run);
      }
    }
  }

  /**
   * The walk returns exactly when a middleware leaves a done context: a
   * finished walk ends on a done context, and a walk from a fresh context
   * that is still going at the end (the `404`) has never been marked done.
   */
  lemma {:induction false} EntriesDone(es: seq<EntryView>, ctx: Ctx, autoHead: bool, run: (Middleware, Ctx) -> Run, test: (string, string, string) -> bool)
    ensures Entries(es, ctx, autoHead, run, test).Finished? ==> Entries(es, ctx, autoHead, run, test).ctx.done
    ensures Entries(es, ctx, autoHead, run, test).Continue? && !ctx.done ==> !Entries(es, ctx, autoHead, run, test).ctx.done
    decreases |es|
  {
    if es != [] {
      var init := Entries(es[..|es| - 1], ctx, autoHead, run, test);
      EntriesDone(es[..|es| - 1], ctx, autoHead, run, test);
      if init.Continue? && Matches(es[|es| - 1].matcher, init.ctx.pathname, test) {
        ItemsDone(es[|es| - 1].items, init.ctx, autoHead, run);
      }
    }
  }

  /** An entry that does not match the pathname is passed over with the context unchanged. */
  lemma SkippedEntry(e: EntryView, ctx: Ctx, autoHead: bool, run: (Middleware, Ctx) -> Run, test: (string, string, string) -> bool)
    requires !Matches(e.matcher, ctx.pathname, test)
    ensures EntryStep(e, ctx, autoHead, run, test) == Continue(ctx)
  {
  }

  /** A router that is not guarded, or has no method with an enabled middleware, never answers `405`. */
  lemma NoRefusal(guarded: bool, table: Routing.Table, ctx: Ctx, autoHead: bool, run: (Middleware, Ctx) -> Run)
    requires !guarded || Routing.Enabled(table) == []
    ensures !ItemStep(RouterView(guarded, table), ctx, autoHead, run).NotAllowed?
  {
    ChainDone(Routing.MethodList(table, ChainMethod(MethodOf(ctx), autoHead)), ctx, run);
  }

  /**
   * A guarded router with methods refuses a request method it does not
   * allow with `405`, listing its methods (and `HEAD` after `GET` under
   * `auto_head`) in `Allow`; a method it allows runs that method's list.
   */
  lemma Refusal(table: Routing.Table, ctx: Ctx, autoHead: bool, run: (Middleware, Ctx) -> Run)
    requires Routing.Enabled(table) != []
    ensures MethodOf(ctx) !in Routing.Enabled(table) && !(MethodOf(ctx) == "HEAD" && autoHead && "GET" in Routing.Enabled(table)) ==>
              ItemStep(RouterView(true, table), ctx, autoHead, run) == NotAllowed(Join(Allowed(Routing.Enabled(table), autoHead), ", "))
    ensures MethodOf(ctx) in Routing.Enabled(table) ==>
              ItemStep(RouterView(true, table), ctx, autoHead, run) == Chain(Routing.MethodList(table, ChainMethod(MethodOf(ctx), autoHead)), ctx, run)
  {
  }

  /** With `auto_head` on, a `HEAD` request runs the router's `GET` list. */
  lemma HeadRunsGet(guarded: bool, table: Routing.Table, ctx: Ctx, run: (Middleware, Ctx) -> Run)
    requires ctx.httpMethod == Some("HEAD")
    requires !guarded || "GET" in Routing.Enabled(table) || Routing.Enabled(table) == []
    ensures ItemStep(RouterView(guarded, table), ctx, true, run) == Chain(Routing.MethodList(table, "GET"), ctx, run)
  {
  }
}
