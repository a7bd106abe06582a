/**
 * The application object, the same in both versions of the library
 * (`Binden` in src/binden.ts, `Kauai` in src/kauai.ts) up to the points the
 * `Variant` selects: its stack of entries, `use` and `off` that edit it, the
 * `stack` getter, the request walk `#handle`, and the default
 * `#errorHandler`.
 */
module Apps {
  import opened Wrappers
  import opened Strings
  import opened Js
  import opened Middlewares
  import Routing
  import Errors
  import opened Responses
  import opened Stacks
  import opened Walks
  import opened ErrorHandling

  // ----- the errors the walk raises itself -----

  /** The `KauaiError(404)` the walk throws when nothing answered. */
  const NotFound: ErrorValue := ErrorObject(Number(Int(404)), Bool(false), None, Str("Not Found"))

  /** The `KauaiError(405)` the walk throws when a guarded router refuses the method. */
  const MethodNotAllowed: ErrorValue := ErrorObject(Number(Int(405)), Bool(false), None, Str("Method Not Allowed"))

  /** `NotFound` is what the `KauaiError` constructor builds for `404` with no options. */
  lemma NotFoundIsKauai()
    ensures Errors.New(404, Errors.NoOptions).Ok? && ErrorOf(Errors.New(404, Errors.NoOptions).value) == NotFound
  {
    assert Http.StatusCodes[404] == "Not Found";
  }

  /** `MethodNotAllowed` is what the `KauaiError` constructor builds for `405` with no options. */
  lemma MethodNotAllowedIsKauai()
    ensures Errors.New(405, Errors.NoOptions).Ok? && ErrorOf(Errors.New(405, Errors.NoOptions).value) == MethodNotAllowed
  {
    assert Http.StatusCodes[405] == "Method Not Allowed";
  }

  /** What `set` throws once the headers are out: Node's error, known here by its message only. */
  const HeadersSentError: ErrorValue := ErrorObject(Undefined, Undefined, None, Str(HeadersSent))

  /**
   * How `#handle` settles: the context a middleware finished on, the error a
   * middleware threw, `404` for a walk that ran out, and `405` for a refused
   * method, unless writing `Allow` threw first.
   */
  function Outcome(w: Step, headersSent: bool): (r: Result<Ctx, ErrorValue>)
    ensures r.Ok? <==> w.Finished?
    ensures w.Raised? ==> r == Err(w.error)
    ensures w.Continue? ==> r == Err(NotFound)
    ensures w.NotAllowed? ==> r == Err(if headersSent then HeadersSentError else MethodNotAllowed)
  {
    match w
    case Finished(c) => Ok(c)
    case Raised(e) => Err(e)
    case Continue(_) => Err(NotFound)
    case NotAllowed(_) => Err(if headersSent then HeadersSentError else MethodNotAllowed)
  }

  // ----- the walk, step by step -----

  /** A router's list for one method: each middleware in turn, until one leaves the context done or throws. */
  method RunChain(mws: seq<Middleware>, ctx: Ctx, run: (Middleware, Ctx) -> Run) returns (s: Step)
    ensures s == Chain(mws, ctx, run)
  {
    s := Continue(ctx);
    var k := 0;
    while k < |mws| && s.Continue?
      invariant 0 <= k <= |mws|
      invariant s == Chain(mws[..k], ctx, run)
    {
      ChainNext(mws, ctx, run, k);
      s := Visit(mws[k], s.ctx, run);
      k := k + 1;
    }
    if k < |mws| {
      ChainStops(mws, ctx, run, k);
    } else {
      assert mws[..k] == mws;
    }
  }

  /**
   * One item of an entry: a middleware runs; a router first checks the
   * method when it is guarded and has methods, then runs the list of the
   * method (of `GET` for `HEAD` under `auto_head`).
   */
  method RunItem(it: Item, ctx: Ctx, autoHead: bool, run: (Middleware, Ctx) -> Run) returns (s: Step)
    ensures s == ItemStep(ItemViewOf(it), ctx, autoHead, run)
  {
    match it
    case MwItem(m) =>
      s := Visit(m, ctx, run);
    case RouterItem(router) =>
      var methods := router.GetMethods();
      var httpMethod := MethodOf(ctx);
      if router.guarded && |methods| > 0 {
        var allowed := Allowed(methods, autoHead);
        if httpMethod !in allowed {
          return NotAllowed(Join(allowed, ", "));
        }
      }
      var mws := router.Middlewares(ChainMethod(httpMethod, autoHead));
      s := RunChain(mws, ctx, run);
  }

  /** An entry whose matcher applies: its items in order, until one stops the walk. */
  method RunItems(e: Entry, ctx: Ctx, autoHead: bool, run: (Middleware, Ctx) -> Run) returns (s: Step)
    ensures s == Items(EntryViewOf(e).items, ctx, autoHead, run)
  {
    ghost var vs := EntryViewOf(e).items;
    s := Continue(ctx);
    var k := 0;
    while k < |e.items| && s.Continue?
      invariant 0 <= k <= |e.items|
      invariant s == Items(vs[..k], ctx, autoHead, run)
    {
      ItemsNext(vs, ctx, autoHead, run, k);
      s := RunItem(e.items[k], s.ctx, autoHead, run);
      k := k + 1;
    }
    assert |vs| == |e.items|;
    if k < |vs| {
      ItemsStop(vs, ctx, autoHead, run, k);
    } else {
      assert vs[..k] == vs;
    }
    assert EntryViewOf(e).items == vs;
  }

  /** `#handle`'s loop over the entries: an entry runs when its matcher applies to the pathname the context has then. */
  method RunEntries(stack: Stack, ctx: Ctx, autoHead: bool, run: (Middleware, Ctx) -> Run, test: (string, string, string) -> bool)
    returns (s: Step)
    ensures s == Entries(old(ViewOf(stack)), ctx, autoHead, run, test)
  {
    ghost var es := ViewOf(stack);
    s := Continue(ctx);
    var k := 0;
    while k < |stack| && s.Continue?
      invariant 0 <= k <= |stack|
      invariant s == Entries(es[..k], ctx, autoHead, run, test)
    {
      EntriesNext(es, ctx, autoHead, run, test, k);
      if Matches(stack[k].matcher, s.ctx.pathname, test) {
        assert es[k] == EntryViewOf(stack[k]);
        s := RunItems(stack[k], s.ctx, autoHead, run);
        assert es[k] == EntryViewOf(stack[k]);
      }
      k := k + 1;
    }
    if k < |es| {
      EntriesStop(es, ctx, autoHead, run, test, k);
    } else {
      assert es[..k] == es;
    }
  }

  /** An entry as the `stack` getter copies it: `Binden` re-creates a pattern with the `u` flag, `Kauai` keeps its flags. */
  function CopyEntry(variant: Variant, e: Entry): (c: Entry)
    ensures c.items == e.items
    ensures e.matcher.Pattern? ==> c.matcher == Pattern(e.matcher.source, if variant == Binden then "u" else e.matcher.flags)
    ensures !e.matcher.Pattern? ==> c.matcher == e.matcher
  {
    if e.matcher.Pattern? && variant == Binden then Entry(e.items, Pattern(e.matcher.source, "u")) else e
  }

  class App {
    const variant: Variant
    /** `#auto_head`. */
    const autoHead: bool
    /** Whether an `error_handler` was given. */
    const custom: bool
    /** `#stack`. */
    var entries: Stack

    /** No entry is empty, neighbours differ in matcher, and `Binden`'s patterns all carry the `u` flag. */
    ghost predicate Valid()
      reads this
    {
      Compact(entries) && (variant == Binden ==> UnicodeOnly(entries))
    }

    /** An empty stack; `auto_head` is on when it is not given, and otherwise as truthy as the value given. */
    constructor (variant: Variant, autoHead: Option<Value>, custom: bool)
      ensures Valid() && entries == []
      ensures this.variant == variant && this.custom == custom
      ensures this.autoHead <==> autoHead.None? || Truthy(autoHead.value)
    {
      this.variant := variant;
      this.autoHead := autoHead.None? || Truthy(autoHead.value);
      this.custom := custom;
      entries := [];
    }

    /** The `stack` getter: a copy of every entry, which for a valid stack is the stack itself. */
    function StackCopy(): (s: Stack)
      reads this
      ensures |s| == |entries| && forall i :: 0 <= i < |s| ==> s[i] == CopyEntry(variant, entries[i])
      ensures Valid() ==> s == entries
    {
      seq(|entries|, i requires 0 <= i < |entries| reads this => CopyEntry(variant, entries[i]))
    }

    /**
     * `use(path, ...items)`: nothing when there is no item; a `TypeError`
     * before any change when an argument is not a middleware or a router;
     * otherwise the items join the last entry when its matcher is the
     * path's, or a new entry at the end.
     */
    method Use(path: PathArg, args: seq<UseArg>) returns (r: Result<(), string>)
      requires Valid()
      modifies this
      ensures Valid()
      ensures r.Err? <==> Arguments(path, args) != [] && !AllSupported(Arguments(path, args))
      ensures r.Err? ==> r.error == "Unsupported Middleware/Router" && entries == old(entries)
      ensures r.Ok? && Arguments(path, args) == [] ==> entries == old(entries)
      ensures r.Ok? && Arguments(path, args) != [] ==>
                entries == Attach(old(entries), ItemsOf(Arguments(path, args)), MatcherOf(variant, path))
    {
      var items := Arguments(path, args);
      if items == [] {
        return Ok(());
      }
      var all := CheckItems(items);
      if !all {
        return Err("Unsupported Middleware/Router");
      }
      var m := MatcherOf(variant, path);
      AttachCompact(entries, ItemsOf(items), m);
      if variant == Binden {
        AttachUnicode(entries, ItemsOf(items), m);
      }
      entries := Attach(entries, ItemsOf(items), m);
      return Ok(());
    }

    /**
     * `off(path, ...items)`: for each item in turn, its last occurrence in
     * the last entry with the path's matcher that holds it is taken out; an
     * entry left empty goes, and its neighbours merge when their matchers
     * agree. The result lists what came out, in order.
     */
    method Off(path: PathArg, args: seq<UseArg>) returns (removed: seq<Item>)
      requires Valid()
      modifies this
      ensures Valid()
      ensures (entries, removed) == DetachAll(old(entries), MatcherOf(variant, path), Arguments(path, args))
    {
      var items := Arguments(path, args);
      var m := MatcherOf(variant, path);
      if !path.PathItem? && (args == [] || entries == []) {
        DetachFromEmpty(m, items);
        return [];
      }
      DetachAllCompact(entries, m, items);
      if variant == Binden {
        DetachAllUnicode(entries, m, items);
      }
      entries, removed := DetachEach(entries, m, items);
    }

    /**
     * `#handle`: the walk over the stack as it is now. A refused method
     * first writes `Allow` with the allowed methods, and the walk settles as
     * `Outcome` says.
     */
    method Handle(response: Response, ctx: Ctx, run: (Middleware, Ctx) -> Run, test: (string, string, string) -> bool)
      returns (r: Result<Ctx, ErrorValue>)
      requires response.Valid()
      modifies response
      ensures response.Valid()
      ensures r == Outcome(Entries(old(ViewOf(entries)), ctx, autoHead, run, test), old(response.headersSent))
      ensures var w := Entries(old(ViewOf(entries)), ctx, autoHead, run, test);
              response.headers == (if w.NotAllowed? && !old(response.headersSent)
                                   then Assigned(old(response.headers), [("Allow", Text(w.allow))])
                                   else old(response.headers))
      ensures response.statusCode == old(response.statusCode) && response.output == old(response.output)
      ensures response.ended == old(response.ended) && response.headersSent == old(response.headersSent)
    {
      var w := RunEntries(entries, ctx, autoHead, run, test);
      match w {
      case Finished(c) =>
        r := Ok(c);
      case Raised(e) =>
        r := Err(e);
      case Continue(_) =>
        r := Err(NotFound);
      case NotAllowed(allow) =>
        var written := response.Set([("Allow", Text(allow))]);
        r := Err(if written.Err? then HeadersSentError else MethodNotAllowed);
      }
    }

    /**
     * `#errorHandler`: the decision `Resolve` makes, carried out on the
     * response. `Binden` reads properties off a thrown `null` and crashes,
     * which is not modelled: it is excluded here.
     */
    method ErrorHandler(response: Response, error: ErrorValue, stringify: Errors.Json -> Result<string, string>)
      returns (a: Answer)
      requires response.Valid() && (variant == Binden ==> !error.NullValue?)
      modifies response
      ensures response.Valid()
      ensures a == Resolve(variant, custom, old(response.ended), old(response.headersSent),
                           old(Lookup(response.headers, ContentType)), error, stringify)
      ensures a.Delegate? || a.Destroy? ==>
                (response.output == old(response.output) && response.ended == old(response.ended))
      ensures a.EndOnly? ==> response.output == Finish(Missing, None)
      ensures a.Reply? ==>
                (response.statusCode == a.status && response.ended &&
                 response.output == Finish(if a.body.Some? then Chars(a.body.value) else Missing, None))
      ensures response.headers == if a.Reply? && a.contentType.Some?
                                  then old(response.headers)[ContentType := Text(a.contentType.value)]
                                  else old(response.headers)
      ensures !a.Reply? ==> response.statusCode == old(response.statusCode)
    {
      if custom {
        return Delegate;
      }
      if response.ended {
        return Destroy;
      }
      if response.headersSent {
        response.End(None);
        return EndOnly;
      }
      var status := ErrorStatus(error);
      KnownDefault();
      var _ := response.Status(status);
      var contentType, body := WriteBody(response, error, stringify);
      return Reply(status, contentType, body);
    }

    /** The part of `#errorHandler` after the status: the checks on `expose`, `json` and `message`, and the end of the response. */
    method WriteBody(response: Response, error: ErrorValue, stringify: Errors.Json -> Result<string, string>)
      returns (contentType: Option<string>, body: Option<string>)
      requires response.Valid() && !response.ended && !response.headersSent
      modifies response
      ensures response.Valid() && response.ended
      ensures (contentType, body) == Body(variant, old(Lookup(response.headers, ContentType)), error, stringify)
      ensures response.output == Finish(if body.Some? then Chars(body.value) else Missing, None)
      ensures response.headers == if contentType.Some? then old(response.headers)[ContentType := Text(contentType.value)] else old(response.headers)
      ensures response.statusCode == old(response.statusCode)
    {
      if !Exposed(error) {
        response.End(None);
        return None, None;
      }
      ContentTypeName();
      if error.json.Some? {
        var text := stringify(error.json.value);
        if text.Ok? {
          var _ := response.SetHeader("Content-Type", Text(CtJson));
          response.End(Some(text.value));
          return Some(CtJson), Some(text.value);
        }
        response.End(None);
        return None, None;
      }
      if !(error.message.Str? && error.message.s != "") {
        response.End(None);
        return None, None;
      }
      contentType := None;
      if SetsText(variant, Lookup(response.headers, ContentType)) {
        var _ := response.SetHeader("Content-Type", Text(CtText));
        contentType := Some(CtText);
      }
      response.End(Some(error.message.s));
      body := Some(error.message.s);
    }
  }

  // ----- the walk and the handler together -----

  /** A walk that runs out, answered by the default handler on a fresh response: `404` and no body. */
  lemma NotFoundReply(variant: Variant, contentType: Option<HeaderValue>, stringify: Errors.Json -> Result<string, string>)
    ensures Resolve(variant, false, false, false, contentType, NotFound, stringify) == Reply(404, None, None)
  {
    NotFoundIsKauai();
    OwnErrorAnswer(variant, 404, contentType, stringify);
  }

  /** A refused method, answered by the default handler on a fresh response: `405` and no body. */
  lemma NotAllowedReply(variant: Variant, contentType: Option<HeaderValue>, stringify: Errors.Json -> Result<string, string>)
    ensures Resolve(variant, false, false, false, contentType, MethodNotAllowed, stringify) == Reply(405, None, None)
  {
    MethodNotAllowedIsKauai();
    OwnErrorAnswer(variant, 405, contentType, stringify);
  }

  /** `#handle` settles without an error exactly when a middleware left the context done, and then on that context. */
  lemma SettlesDone(stack: Stack, ctx: Ctx, autoHead: bool, run: (Middleware, Ctx) -> Run, test: (string, string, string) -> bool, headersSent: bool)
    ensures var r := Outcome(Entries(ViewOf(stack), ctx, autoHead, run, test), headersSent);
            r.Ok? ==> r.value.done
  {
    EntriesDone(ViewOf(stack), ctx, autoHead, run, test);
  }
}
