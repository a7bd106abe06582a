# binden: a verified model of the dispatcher, router, responder and header objects

This project models the core of `binden`, a small HTTP framework for Node.js,
and proves properties of that model. It also covers `Kauai`, the older
version of the same framework, which still ships next to `Binden`. The modelled
parts are these.

- **The dispatcher** (`Binden` in src/binden.ts, `Kauai` in src/kauai.ts) is the
  class `Apps.App`. The two versions differ in three ways, so the class carries a
  `Variant` constant that selects between them:
  - `Binden` re-creates every regular expression path with the flag `u`;
    `Kauai` keeps the path's own flags.
  - `Kauai` answers a thrown `null` or `undefined` with 500.
  - `Binden` writes `plain/text` only when there is no `Content-Type` at all;
    `Kauai` also writes it when the existing one is falsy.
- **The stack** is an ordered sequence of entries. Each entry is a list of items
  (a middleware or a router) and a matcher (none, a path, or a
  pattern with flags).
  - `use` appends the items to the last entry when its matcher is equal to the
    new one, and pushes a new entry otherwise.
  - `off` removes one occurrence per requested item, scanning from the last
    entry. When an entry becomes empty it is closed: it is merged with its
    neighbours when their matchers are equal, and dropped otherwise.
  - The invariant both keep (`Stacks.Compact`) is that no entry is empty and no
    two adjacent entries have equal matchers.
  Both operations are imperative methods. Each loop runs on values
  (`Stacks.Detach`, `Stacks.DetachEach`, `Stacks.CheckItems`) and is proved
  against the functions `Stacks.Attach`, `Stacks.DetachOne` and
  `Stacks.DetachAll`.
- **The request walk** `#handle` is `Apps.App.Handle`, with loops in
  `Apps.RunEntries`, `Apps.RunItems`, `Apps.RunItem` and `Apps.RunChain`. They
  are proved against the functions in module `Walks`.
  - What a middleware does to a context is an oracle `run`, and a regular
    expression test is an oracle `test`.
  - A context is the value `Ctx` (its identity, `done` flag, method and
    pathname).
  - The walk ends in one of four ways: finished (`done`), refused with 405 and
    an `Allow` list, an error raised by a middleware, or falling through to 404.
- **The error handler** `#errorHandler` is the decision `ErrorHandling.Resolve`,
  carried out on a response object by `Apps.App.ErrorHandler`.
- **The router** (src/router.ts) is the class `Routing.Router`. Its
  `Map<string, Middleware[]>` is a sequence of `(method, middlewares)` pairs in
  insertion order, because that order decides the `methods` set and hence the
  `Allow` header.
- **The response** (src/response.ts) is the class `Responses.Response`. It models
  `status`, `set`, `send`, the typed senders and `sendFile`.
  - `send`: the cookie merge and the `Content-Type` default.
  - `sendFile`: the conditional and byte-range decision, the pure function
    `FileResponder.Decide`. It follows sections 2.1, 3.1, 4.2 and 4.4 of RFC 7233
    and section 3.3 of RFC 7232.
- **The context** (src/context.ts) is the class `Contexts.Context`. Its `done`
  flag only moves from false to true.
- **The error class** (src/error.ts) is `Errors.New`. It validates its status,
  and it is the error that both `Binden` and `Kauai` throw. src/error.ts defines
  the class as `KauaiError`, while src/binden.ts imports it under the name
  `BindenError`; the model treats the two names as one class.
- **The header objects** (src/headers/) are datatypes with their parsers and
  printers: `Range`, `Content-Range`, `Cookie`, `Forwarded`, `Content-Type`,
  `Accept-Encoding`, `Content-Encoding` and `Authorization`. Where a header
  prints and parses back, a round-trip lemma says so.

Foreign functions are parameters:
- `JSON.stringify`, as a function that may fail;
- `RegExp.prototype.test`;
- `Date.prototype.toUTCString`.

Node's `STATUS_CODES` table is a constant map (`Http.StatusCodes`), and so is
its `METHODS` list. `Number()` is modelled on plain decimal digit strings
(`Js.NumberOf`); anything else is `NaN`. Quality values are exact decimals
(`Decimals.Decimal`).

## Model

| member | source | states |
|---|---|---|
| Apps.App.constructor | src/binden.ts:28-32 | A new application has an empty stack that satisfies the stack invariant; `auto_head` is on unless a falsy value is given; a custom error handler is installed exactly when one is passed |
| Apps.App.StackCopy | src/binden.ts:34-39 | The `stack` getter returns one copy per entry with the same items; a pattern matcher comes back with flag `u` under `Binden` and its own flags under `Kauai`; under the stack invariant the copy equals the stack |
| Apps.CopyEntry | src/kauai.ts:61-66 | One entry of the getter's copy: same items, a pattern re-created (with `u` under `Binden`, own flags under `Kauai`), any other matcher unchanged |
| Apps.App.Use | src/binden.ts:73-104 | `use` fails with "Unsupported Middleware/Router" exactly when some argument is neither a middleware nor a router, and the stack is then unchanged; with no items it is a no-op; otherwise the stack becomes the old one with the items attached under the path's matcher; the stack invariant is kept |
| Apps.App.Off | src/binden.ts:108-160 | `off` leaves the stack and returns the removed items exactly as `DetachAll` computes them from the old stack, the path's matcher and the requested items; the stack invariant is kept |
| Apps.App.Handle | src/binden.ts:172-219 | The walk's result is `Outcome` of the walk over the stack; only a 405 refusal changes the response, by setting `Allow` to the joined methods when headers are not yet sent; status, body and sent/ended flags are untouched |
| Apps.Outcome | src/binden.ts:185-218 | A walk succeeds exactly when a middleware finished it; a middleware's error is passed on unchanged; falling through is the 404 error; a refusal is the 405 error, or the "headers sent" error when `set` cannot write `Allow` |
| Apps.RunEntries | src/binden.ts:175-216 | The loop over the stack's entries computes `Walks.Entries` over the stack as it was at the start |
| Apps.RunItems | src/binden.ts:180-214 | The loop over one entry's items computes `Walks.Items` of that entry |
| Apps.RunItem | src/binden.ts:181-213 | One item: a router's method set, the 405 refusal with the allowed list, the method chain (HEAD looking up GET when `auto_head` is on), or a single middleware, as `Walks.ItemStep` states |
| Apps.RunChain | src/binden.ts:200-206 | The loop over a method's middlewares computes `Walks.Chain`: it stops at the first middleware that raises or leaves `done` true |
| Apps.NotFoundIsKauai | src/binden.ts:218 | The 404 error the walk throws is a valid error object with status 404, not exposed, no JSON, message "Not Found" |
| Apps.MethodNotAllowedIsKauai | src/binden.ts:193 | The 405 error the walk throws is a valid error object with status 405, not exposed, no JSON, message "Method Not Allowed" |
| Apps.NotFoundReply | src/binden.ts:238-253 | Without a custom handler, on a fresh response, the walk's 404 is answered with status 404 and no body |
| Apps.NotAllowedReply | src/binden.ts:238-253 | Without a custom handler, on a fresh response, the walk's 405 is answered with status 405 and no body |
| Apps.SettlesDone | src/binden.ts:203-212 | Whenever a walk succeeds, the context it ends with is marked `done` |
| Apps.App.ErrorHandler | src/binden.ts:222-280 | The handler's answer is `Resolve` of the custom flag, the response's ended and headers-sent flags, its `Content-Type` and the error; the response afterwards has that answer's status, content type and body, and it is left untouched when the answer is to delegate or destroy |
| Apps.App.WriteBody | src/binden.ts:247-278 | After the status is set, the response ends with the content type and body that `Body` chooses, and the status is unchanged |
| Stacks.MatcherOf | src/binden.ts:80-85 | A regular expression path becomes a pattern with the same source, with flag `u` under `Binden` and its own flags under `Kauai`; a non-empty string becomes a path matcher; anything else is the null matcher |
| Stacks.Arguments | src/binden.ts:74-75 | A path that is itself a middleware or router is put in front of the items |
| Stacks.CheckItems | src/binden.ts:87-91 | The validation loop succeeds exactly when every argument is a middleware or router |
| Stacks.AttachShape | src/binden.ts:93-102 | `use` extends the last entry when its matcher equals the new one, and pushes a new entry otherwise; no earlier entry is touched |
| Stacks.AttachItems | src/binden.ts:93-102 | After `use` the stack's items, read in order, are the old ones followed by the new ones |
| Stacks.AttachCompact | src/binden.ts:93-102 | `use` keeps the invariant: no empty entry, no two adjacent entries with equal matchers |
| Stacks.AttachUnicode | src/binden.ts:80-85 | Under `Binden` every pattern in the stack keeps flag `u` after `use` |
| Stacks.HolderBelow | src/binden.ts:127-133 | The entry `off` removes from is the highest-indexed one with an equal matcher that contains the item; none exists exactly when no such entry does |
| Stacks.DetachOne | src/binden.ts:127-155 | Removing one item: nothing is removed and the stack is unchanged exactly when no entry holds it; otherwise exactly that item is removed |
| Stacks.Detach | src/binden.ts:127-155 | The descending loop for one item computes `DetachOne`: the last occurrence in the holder entry is spliced out and an emptied entry is closed |
| Stacks.DetachAll | src/binden.ts:124-157 | Requests are served one after the other; no more items are removed than were requested |
| Stacks.DetachEach | src/binden.ts:124-159 | The loop over the requested items computes `DetachAll` |
| Stacks.DetachFromEmpty | src/binden.ts:111-112 | `off` on an empty stack removes nothing and leaves it empty |
| Stacks.CloseCompact | src/binden.ts:137-151 | Closing an emptied entry, by merging its equal neighbours or by dropping it, gives back the invariant |
| Stacks.DetachOneCompact | src/binden.ts:127-155 | Removing one item keeps the invariant |
| Stacks.DetachAllCompact | src/binden.ts:124-159 | `off` keeps the invariant |
| Stacks.DetachOneUnicode | src/binden.ts:137-151 | Under `Binden` removing one item keeps every pattern's flag `u`, merges included |
| Stacks.DetachAllUnicode | src/binden.ts:124-159 | Under `Binden` `off` keeps every pattern's flag `u` |
| Stacks.DetachOneItems | src/binden.ts:127-155 | No item is lost or invented: the items left plus the item removed are the items before, as a multiset |
| Stacks.DetachAllItems | src/binden.ts:124-159 | The items left plus the items `off` returns are exactly the items before, as a multiset |
| Stacks.DetachAllRequested | src/binden.ts:124-159 | Every item `off` returns was requested |
| Walks.RunMiddleware | src/binden.ts:282-304 | A disabled middleware returns the context without running; a returned context replaces the current one, otherwise the current one goes on; a throw is swallowed exactly when `ignore_errors` is set and the middleware is enabled, and is passed on otherwise |
| Walks.Visit | src/binden.ts:200-212 | One middleware step goes on when the resulting context is not `done`, finishes when it is, and never refuses |
| Walks.Allowed | src/binden.ts:185-191 | The `Allow` list holds the router's methods, plus HEAD exactly when GET is there and `auto_head` is on |
| Walks.Chain | src/binden.ts:200-206 | A method list run in order never refuses, finishes only on a `done` context, and fails only through an enabled middleware that does not ignore errors |
| Walks.ItemStep | src/binden.ts:181-213 | One item finishes only on a `done` context; it refuses with 405 exactly when it is a guarded router with enabled methods that do not allow the request method, and then `Allow` is the allowed list joined with `, ` |
| Walks.Items | src/binden.ts:180-214 | An entry's items finish only on a `done` context, and refuse only when a guarded router is among them |
| Walks.EntryStep | src/binden.ts:176-214 | An entry does anything only when its matcher applies to the pathname; it finishes only on a `done` context and refuses only through a guarded router among its items |
| Walks.Entries | src/binden.ts:175-218 | The walk over the stack finishes only on a `done` context and refuses only through a guarded router in some entry; a walk still going at the end is the 404 |
| Walks.SkippedEntry | src/binden.ts:176-179 | An entry whose matcher does not match the pathname leaves the context as it is |
| Walks.NoRefusal | src/binden.ts:185 | A router that is not guarded, or has no enabled method, never refuses with 405 |
| Walks.Refusal | src/binden.ts:185-198 | A guarded router with methods refuses a method outside the allowed list, with the joined allowed list; an allowed method runs the chain of the method looked up |
| Walks.HeadRunsGet | src/binden.ts:197-198 | With `auto_head` on, a HEAD request that gets past the guard runs the GET middlewares |
| Walks.ChainStops | src/binden.ts:200-206 | Once a prefix of a chain ends the walk, the middlewares after it do not matter |
| Walks.ItemsStop | src/binden.ts:180-213 | Once a prefix of an entry's items ends the walk, the later items do not matter |
| Walks.EntriesStop | src/binden.ts:175-216 | Once a prefix of the stack ends the walk, the later entries do not matter |
| Walks.ChainDone | src/binden.ts:200-206 | A finished chain ends on a `done` context, a chain that goes on from an unfinished context leaves it unfinished, and a chain never refuses |
| Walks.ItemStepDone | src/binden.ts:180-213 | The same for a single item |
| Walks.ItemsDone | src/binden.ts:180-214 | The same for an entry's items |
| Walks.EntriesDone | src/binden.ts:175-218 | The same for the whole stack: 404 is raised only when nothing finished |
| ErrorHandling.ErrorStatus | src/binden.ts:238-243 | The answer's status is one `STATUS_CODES` knows, or 500 |
| ErrorHandling.NumberValue | src/binden.ts:238 | `Number(error.status)`: `undefined` and objects give `NaN`, and only a number can give a negative value |
| ErrorHandling.StatusText | src/binden.ts:238-243 | A status given as a number, or as its decimal text, converts back to that status |
| ErrorHandling.Body | src/binden.ts:247-278 | A content type is chosen only together with a body |
| ErrorHandling.Resolve | src/binden.ts:225-278 | The handler replies exactly when there is no custom handler, the response has not ended and no headers are sent; a reply's status is one `STATUS_CODES` knows, a body goes out only for an exposed error, and a content type only with a body |
| ErrorHandling.ResolveOrder | src/binden.ts:225-237 | A custom handler takes every error; otherwise an ended response is destroyed, a response with sent headers is just ended, and only a fresh one gets a reply, each exactly in that case |
| ErrorHandling.ReplyStatus | src/binden.ts:238-245 | A reply's status is the error's own when it converts to a known code, and 500 otherwise |
| ErrorHandling.KnownDefault | src/binden.ts:240-243 | The default status 500 is in `STATUS_CODES` |
| ErrorHandling.BodyOnlyWhenExposed | src/binden.ts:247-278 | A body goes out only for an exposed error; it is the stringified JSON with `application/json` when there is a `json` member, and otherwise the error's non-empty message |
| ErrorHandling.JsonFirst | src/binden.ts:255-266 | A `json` member wins over the message; when it does not stringify, the reply has neither body nor content type |
| ErrorHandling.TextTypeDiffers | src/binden.ts:268-278 | A message reply sets `plain/text` when there is no content type and leaves a non-empty one alone; on an empty one `Kauai` sets it and `Binden` does not |
| ErrorHandling.NullAnswer | src/kauai.ts:262-272 | Under `Kauai` a thrown `null` or `undefined` is answered with 500 and no body |
| ErrorHandling.OwnErrorAnswer | src/binden.ts:238-253 | Every error built with default options is answered with its own status and no body |
| Errors.New | src/error.ts:14-32 | The constructor succeeds exactly for a known status in 400..599; otherwise it throws, checking in order: `RangeError` above 599, `TypeError` for an unknown code, `RangeError` below 400; the message defaults to the `STATUS_CODES` text, `expose` is true only when given true, and `json` is kept |
| Middlewares.New | src/middleware.ts:12-18 | `disabled` and `ignore_errors` default to false and are set only when given true |
| Contexts.NextDone | src/context.ts:55-59 | The `done` setter never clears the flag, and sets it exactly when it was set or the value is truthy |
| Contexts.FoldDoneTruthy | src/context.ts:55-59 | After any series of assignments the flag is set exactly when it started set or one of the values was truthy |
| Contexts.Context.constructor | src/context.ts:23-28 | A new context is not `done` and holds the given response |
| Contexts.Context.SetDone | src/context.ts:55-59 | The setter moves the flag as `NextDone` says |
| Contexts.Context.Status | src/context.ts:34-37 | `status` succeeds exactly for a known code and sets it on the response; otherwise it fails with "Status code … is invalid"; headers, cookies, body, the sent and ended flags and `done` are unchanged |
| Contexts.Context.Send | src/context.ts:65-70 | `send` does what the response's `send` does (no change after the end; otherwise the cookies and default type go into the headers and the body is the data), the response is sent and ended with status and cookies untouched, and the context is `done` |
| Contexts.Context.Json | src/context.ts:72-75 | `json` sends the stringified data as `application/json` and ends the response; it fails with the stringify error or the headers-sent error, leaving headers, body and flags as they were; status and cookies are untouched; the context becomes `done` exactly when it succeeds |
| Contexts.Context.SendText | src/context.ts:77-80 | `text` sends the data as `plain/text` and ends the response; it fails only with the headers-sent error, leaving headers, body and flags as they were; status and cookies are untouched; the context becomes `done` exactly when it succeeds |
| Contexts.Context.Html | src/context.ts:82-85 | `html` sends the data as `text/html` and ends the response; it fails only with the headers-sent error, leaving headers, body and flags as they were; status and cookies are untouched; the context becomes `done` exactly when it succeeds |
| Contexts.Context.Form | src/context.ts:87-90 | `form` sends the parameters as `application/x-www-form-urlencoded` and ends the response; it fails only with the headers-sent error, leaving headers, body and flags as they were; status and cookies are untouched; the context becomes `done` exactly when it succeeds |
| Contexts.Context.SendFile | src/context.ts:93-96 | `sendFile` fails with the headers-sent error changing nothing, or with the content-range error after setting only the file headers; otherwise the response gets the status, headers and body window `Decide` chooses and ends; cookies are untouched; the context becomes `done` exactly when it succeeds |
| Contexts.Context.Throw | src/context.ts:98-100 | `throw` raises the error the constructor builds from the status and options, or the error the constructor throws |
| Routing.Router.constructor | src/router.ts:12-15 | A new router has no methods, and `guarded` is the option coerced to a boolean |
| Routing.Router.SetGuarded | src/router.ts:21-23 | The setter coerces any value to a boolean and leaves the methods alone |
| Routing.Enabled | src/router.ts:26-36 | A method is listed exactly when its list holds a middleware that is not disabled; an empty list does not count |
| Routing.EnabledDistinct | src/router.ts:26-36 | No method is listed twice |
| Routing.Router.GetMethods | src/router.ts:26-36 | The getter's loop computes `Enabled` of the table |
| Routing.MethodList | src/router.ts:38-42 | The lookup returns the list stored under the upper-cased method, and nothing when no such method is stored |
| Routing.Router.Middlewares | src/router.ts:38-42 | The same, on the router's own table |
| Routing.CheckMiddlewares | src/router.ts:49-53 | The validation loop succeeds exactly when every argument is a middleware |
| Routing.Router.On | src/router.ts:44-64 | `on` fails for a method outside `METHODS`, then for any argument that is not a middleware, and changes nothing then; otherwise the method's list is extended in order, or created |
| Routing.AppendedGet | src/router.ts:55-61 | `on` extends the method's list (an absent list counting as empty) and leaves every other method's list unchanged |
| Routing.LastIndex | src/router.ts:79 | `lastIndexOf`: the index of the last occurrence, and none exactly when the value is absent |
| Routing.RemoveOne | src/router.ts:79-82 | One request removes that middleware exactly when it is present, and nothing otherwise |
| Routing.RemoveEach | src/router.ts:78-89 | Requests are served in order; no more middlewares are removed than requested |
| Routing.RemoveAll | src/router.ts:78-89 | The removal loop computes `RemoveEach` |
| Routing.RemoveEachSplits | src/router.ts:78-89 | What is left plus what is removed is the original list, as a multiset |
| Routing.RemovedRequested | src/router.ts:78-89 | Every removed middleware was requested |
| Routing.RemoveFromEmpty | src/router.ts:84-87 | Once the list is empty the remaining requests change nothing, so the early return loses nothing |
| Routing.Router.Off | src/router.ts:66-92 | `off` fails exactly for a method outside `METHODS`, changing nothing; otherwise the table and the removed middlewares are those of `OffResult`: the list loses the requested middlewares and is deleted once empty |
| Routing.OffResultAt | src/router.ts:71-91 | On a stored method, `off` removes from that method's list and deletes the entry when nothing is left |
| Routing.DetachedValid | src/router.ts:84-86 | Updating or deleting a method's entry keeps the methods distinct |
| Routing.EmptiedLeaves | src/router.ts:84-86 | A method whose list was emptied and deleted is no longer in `methods` |
| Routing.Router.Delete | src/router.ts:94-96 | `delete(...)` is `on("DELETE", ...)`: the middlewares are appended to the DELETE list exactly when every argument is a middleware; otherwise it fails with "Middleware is not supported" and the table is unchanged; `guarded` is kept |
| Routing.Router.Get | src/router.ts:98-100 | `get(...)` is `on("GET", ...)`: the middlewares are appended to the GET list exactly when every argument is a middleware; otherwise it fails with "Middleware is not supported" and the table is unchanged; `guarded` is kept |
| Routing.Router.Head | src/router.ts:102-104 | `head(...)` is `on("HEAD", ...)`: the middlewares are appended to the HEAD list exactly when every argument is a middleware; otherwise it fails with "Middleware is not supported" and the table is unchanged; `guarded` is kept |
| Routing.Router.Options | src/router.ts:106-108 | `options(...)` is `on("OPTIONS", ...)`: the middlewares are appended to the OPTIONS list exactly when every argument is a middleware; otherwise it fails with "Middleware is not supported" and the table is unchanged; `guarded` is kept |
| Routing.Router.Patch | src/router.ts:110-112 | `patch(...)` is `on("PATCH", ...)`: the middlewares are appended to the PATCH list exactly when every argument is a middleware; otherwise it fails with "Middleware is not supported" and the table is unchanged; `guarded` is kept |
| Routing.Router.Post | src/router.ts:114-116 | `post(...)` is `on("POST", ...)`: the middlewares are appended to the POST list exactly when every argument is a middleware; otherwise it fails with "Middleware is not supported" and the table is unchanged; `guarded` is kept |
| Routing.Router.Put | src/router.ts:118-120 | `put(...)` is `on("PUT", ...)`: the middlewares are appended to the PUT list exactly when every argument is a middleware; otherwise it fails with "Middleware is not supported" and the table is unchanged; `guarded` is kept |
| Routing.Router.Trace | src/router.ts:122-124 | `trace(...)` is `on("TRACE", ...)`: the middlewares are appended to the TRACE list exactly when every argument is a middleware; otherwise it fails with "Middleware is not supported" and the table is unchanged; `guarded` is kept |
| Responses.Response.constructor | src/response.ts:22-27 | A fresh response has status 200, no headers, nothing sent and an empty cookie set |
| Responses.Response.Status | src/response.ts:30-37 | `status` succeeds exactly for a code in `STATUS_CODES` and then sets it; otherwise it fails with "Status code … is invalid" and leaves the code as it was |
| Responses.Response.SetHeader | src/response.ts:43-48 | Writing a header fails once headers are sent; otherwise the lower-cased name gets the value |
| Responses.Response.Set | src/response.ts:40-52 | `set` writes the pairs in order, a later pair for a name winning; it fails, changing nothing, when headers are sent and there is anything to write |
| Responses.AssignedLookup | src/response.ts:40-52 | After `set`, a name holds the last value given for it, or its old value when none was given |
| Responses.Response.Send | src/response.ts:55-106 | `send` after the end changes nothing; otherwise the cookies are merged into `Set-Cookie`, `plain/text` is the default type for non-empty, non-stream data, and the response ends with the data |
| Responses.Response.End | src/response.ts:103-105 | Ending sends the headers and the chunk once; ending an ended response changes nothing; status, headers and cookies are untouched |
| Responses.MergeCookies | src/response.ts:65-77 | The new `Set-Cookie` is the earlier values followed by the cookie strings, or just the cookie strings when there was none |
| Responses.CookiesAppended | src/response.ts:65-77 | With cookies and unsent headers, `Set-Cookie` becomes the earlier values followed by the cookies, and no other header changes |
| Responses.ScalarCookieFirst | src/response.ts:73-75 | A single earlier `Set-Cookie` value comes first, followed by the cookies |
| Responses.NoCookiesWhenSent | src/response.ts:65 | With headers sent, or no cookies, the headers are untouched |
| Responses.ContentTypeKept | src/response.ts:89-91 | An existing `Content-Type` is never replaced by `send` |
| Responses.NoContentTypeForEmpty | src/response.ts:79-87 | No data, the empty string or a stream gets no `Content-Type` |
| Responses.DefaultContentType | src/response.ts:89-91 | Other data without a `Content-Type` gets `plain/text` |
| Responses.Finish | src/response.ts:79-105 | The response ends, and it ends with no body exactly for no data or the empty string |
| Responses.Response.SendTyped | src/response.ts:115-127 | The typed senders set their `Content-Type` (failing once headers are sent), then send the data, which keep that type |
| Responses.TypedKept | src/response.ts:115-117 | The type a typed sender sets survives `send`'s default |
| Responses.Response.Json | src/response.ts:109-112 | `json` fails with the stringify error, changing nothing, when the data does not stringify; otherwise it sends the text as `application/json` and ends, failing with the headers-sent error, changing nothing, only when headers are sent; status and cookies are untouched |
| Responses.Response.SendText | src/response.ts:115-117 | `text` sends the data as `plain/text` and ends the response; it fails with the headers-sent error, changing nothing, exactly when headers are sent; status and cookies are untouched |
| Responses.Response.Html | src/response.ts:120-122 | `html` sends the data as `text/html` and ends the response; it fails with the headers-sent error, changing nothing, exactly when headers are sent; status and cookies are untouched |
| Responses.Response.Form | src/response.ts:125-127 | `form` sends the parameters as `application/x-www-form-urlencoded` and ends the response; it fails with the headers-sent error, changing nothing, exactly when headers are sent; status and cookies are untouched |
| Responses.Response.SendFile | src/response.ts:130-198 | With headers sent, `sendFile` fails and changes nothing; otherwise it sets the date headers, then either fails with the content-range constructor's error, leaving status, body and flags as they were, or gets the status, headers and body window that `Decide` chooses and ends; cookies are untouched |
| Responses.FileHeadersDated | src/response.ts:143-146 | `Last-Modified` and `Accept-Ranges: bytes` are always set |
| Responses.PartialHeaders | src/response.ts:192-197 | A 206 carries `Content-Length` = end − start + 1 and the printed `Content-Range` |
| FileResponder.LastModified | src/response.ts:143-144 | `Last-Modified` is the modification time cut down to whole seconds |
| FileResponder.Decide | src/response.ts:148-198 | The corrected decision: 304 exactly under the `If-Modified-Since` condition; a 206 covers `start..end` inside the file, strictly less than all of it, with the `Content-Range` `bytes start-end/size`; a 416 carries `bytes */size` |
| FileResponder.NotModifiedExactly | src/response.ts:153-157 | The answer is 304 exactly when the method is GET or HEAD and `If-Modified-Since` is not earlier than `Last-Modified` |
| FileResponder.ContainsNoNotModified | src/response.ts:153-157 | Without those conditions the answer is never 304 |
| FileResponder.FullWithoutRange | src/response.ts:159-168 | With no first range, or an `If-Range` strictly earlier than `Last-Modified`, the whole file is sent |
| FileResponder.MissingIfRangeIgnored | src/response.ts:164-166 | An absent or unreadable `If-Range` decides the same as one that is not earlier, so it never forces the whole file |
| FileResponder.Unsatisfied | src/response.ts:169-172 | The 416 answer carries `bytes */size`; for an empty file its constructor fails instead |
| FileResponder.StartPastEnd | src/response.ts:169-172 | A range starting at or past the size is answered with 416 and `bytes */size` |
| FileResponder.Window | src/response.ts:174-183 | The window is 0..size−1 by default; an end alone is a suffix starting at max(0, size − end); an explicit end narrows the window only when it is below size − 1 |
| FileResponder.WindowInside | src/response.ts:174-183 | For a parsed range with a start inside the file, the window lies inside the file |
| FileResponder.WindowedInside | src/response.ts:187-197 | A window covering the whole file gives 200, any other gives 206 with `bytes start-end/size` |
| FileResponder.PartialInside | src/response.ts:185-197 | For any parsed range and non-empty file the answer never fails, and a 206 covers a strict sub-window of the file |
| FileResponder.Suffix | src/response.ts:176-179 | `bytes=-n` is served as the last n bytes, or the whole file when n is at least the size |
| FileResponder.OpenEnded | src/response.ts:174-183 | `bytes=start-` is served from start to the last byte, as the whole file when start is 0 |
| FileResponder.AsWrittenSuffix | src/response.ts:174-187 | As written, `bytes=-n` is served as the first n + 1 bytes; the corrected decision serves the last n |
| FileResponder.DecideAsWritten | src/response.ts:148-198 | The decision as written, with a missing bound counting as 0: 304 exactly under the `If-Modified-Since` condition; a 206 still lies inside the file with its matching `Content-Range` |
| FileResponder.AsWrittenOpenEnded | src/response.ts:174-193 | As written, `bytes=start-` on a file of two or more bytes fails with "`end` is missing"; the corrected decision does not fail |
| RangeHeader.Bound | src/headers/range.ts:13-19 | The constructor keeps a bound exactly when it is a safe integer |
| RangeHeader.ToString | src/headers/range.ts:33-35 | The printed range starts with `bytes=` |
| RangeHeader.ParseElement | src/headers/range.ts:48-66 | A kept element is one of the three accepted shapes (both bounds with 0 ≤ start ≤ end, a start ≥ 0 alone, an end > 0 alone) |
| RangeHeader.ParseElementKept | src/headers/range.ts:60-66 | An element is kept exactly when it passes the filter |
| RangeHeader.ParseElements | src/headers/range.ts:48-66 | Only elements of the accepted shapes are kept, never more than there were |
| RangeHeader.FromTrimmed | src/headers/range.ts:42-66 | Input without the `bytes=` prefix gives nothing |
| RangeHeader.FromString | src/headers/range.ts:37-67 | A missing or empty header, or one without the `bytes=` prefix once trimmed, gives nothing; every range kept has an accepted shape |
| RangeHeader.ElementRoundTrip | src/headers/range.ts:33-66 | An element printed from a range of an accepted shape parses back to that range |
| RangeHeader.RoundTrip | src/headers/range.ts:33-67 | `fromString(r.toString())` is exactly `[r]` for every range of an accepted shape with safe bounds |
| ContentRangeHeader.New | src/headers/content-range.ts:10-39 | The constructor succeeds exactly for acceptable bounds and size, and then keeps both bounds or neither; its errors come in the source's order with the source's messages |
| ContentRangeHeader.NewAcceptsValid | src/headers/content-range.ts:10-39 | Every valid content range is accepted by the constructor from its own fields |
| ContentRangeHeader.ToString | src/headers/content-range.ts:45-49 | The printed form starts with `bytes `, and is `bytes */size` without bounds |
| ContentRangeHeader.FromRangeAndSize | src/headers/content-range.ts:68-87 | At most one content range comes out of a range piece and a size piece, and it is valid; a constructor error gives nothing |
| ContentRangeHeader.FromTrimmedAsWritten | src/headers/content-range.ts:56-87 | As written, the parse gives at most one content range when it does not throw |
| ContentRangeHeader.FromStringAsWritten | src/headers/content-range.ts:51-88 | The same for `fromString` as written |
| ContentRangeHeader.AsWrittenThrows | src/headers/content-range.ts:62-76 | As written, `bytes /` makes the parser throw instead of returning nothing |
| ContentRangeHeader.FromTrimmed | src/headers/content-range.ts:56-87 | The corrected parse gives at most one valid content range, nothing without the `bytes ` prefix, and agrees with the written one wherever that one does not throw |
| ContentRangeHeader.FromString | src/headers/content-range.ts:51-88 | The corrected `fromString` gives nothing for a missing input or a missing `bytes ` prefix, at most one valid content range otherwise, and agrees with the written one wherever that one does not throw |
| ContentRangeHeader.CorrectedRejects | src/headers/content-range.ts:62-76 | The corrected parser answers `bytes /` with nothing |
| ContentRangeHeader.RangeRoundTrip | src/headers/content-range.ts:76-87 | A valid content range with bounds, given as pieces, reads back as itself |
| ContentRangeHeader.StarRoundTrip | src/headers/content-range.ts:68-73 | A valid content range without bounds and with a numeric size, given as pieces, reads back as itself |
| ContentRangeHeader.RoundTrip | src/headers/content-range.ts:45-87 | `fromString(cr.toString())` is exactly `[cr]` for every valid content range except `bytes */*` |
| ContentRangeHeader.StarStarRejected | src/headers/content-range.ts:68-73 | `bytes */*` is printed but not read back, because `Number("*")` is not an integer |
| ContentRangeHeader.UnknownEverythingRejected | src/headers/content-range.ts:19-35 | No content range with neither bounds nor known size reads back |
| CookieHeader.New | src/headers/cookie.ts:24-44 | The constructor keeps key and value and defaults path to `/`, secure to false, http-only to true and same-site to `Lax` |
| CookieHeader.Plain | src/headers/cookie.ts:127 | A cookie built from a key and a value only keeps both |
| CookieHeader.Defaults | src/headers/cookie.ts:24-77 | A plain cookie has no expiry, no max-age, no domain, path `/`, is http-only and `Lax`, and is secure exactly for a `__Secure-` or `__Host-` key |
| CookieHeader.Domain | src/headers/cookie.ts:62-64 | A `__Host-` cookie has no domain; any other has its own |
| CookieHeader.Path | src/headers/cookie.ts:66-68 | A `__Host-` cookie has path `/`; any other has its own |
| CookieHeader.Attributes | src/headers/cookie.ts:87-101 | The attributes appear in the fixed order Max-Age or Expires, Domain, Path, Secure, HttpOnly, SameSite |
| CookieHeader.InAttributes | src/headers/cookie.ts:87-101 | An attribute is printed exactly when its slot holds it |
| CookieHeader.AttributesFlags | src/headers/cookie.ts:97-99 | `Secure` is printed exactly when the cookie is secure, `HttpOnly` exactly when it is http-only, and `SameSite` always |
| CookieHeader.AttributesLifetime | src/headers/cookie.ts:89-94 | `Max-Age` is printed when set, and `Expires` only when there is an expiry and no max-age |
| CookieHeader.AttributesLocation | src/headers/cookie.ts:95-96 | `Domain` and `Path` are printed exactly when the derived domain and path exist |
| CookieHeader.ToString | src/headers/cookie.ts:87-101 | The printed cookie starts with `key=value` and ends with its `SameSite` attribute |
| CookieHeader.LastIsSameSite | src/headers/cookie.ts:99 | The last attribute is always `SameSite` |
| CookieHeader.PairRead | src/headers/cookie.ts:117-124 | A piece `key=value` gives its trimmed key and its trimmed, dequoted value; anything after a second `=` is dropped, as `split("=", 2)` does |
| CookieHeader.Find | src/headers/cookie.ts:126 | The search loop finds a cookie exactly when the output already holds that key |
| CookieHeader.Collect | src/headers/cookie.ts:114-131 | The collecting loop computes `Collected`, and no key repeats |
| CookieHeader.FromString | src/headers/cookie.ts:103-132 | `fromString` computes `Parse`; a missing input or one shorter than three characters gives nothing; no key repeats |
| CookieHeader.CollectedDistinct | src/headers/cookie.ts:126-128 | The parsed cookies have distinct keys |
| CookieHeader.CollectedUsable | src/headers/cookie.ts:126 | Every parsed cookie has a non-empty key and value |
| CookieHeader.CollectedGrows | src/headers/cookie.ts:114-131 | Later pieces only add cookies at the end |
| CookieHeader.CollectedComplete | src/headers/cookie.ts:126-128 | Every pair with a non-empty key and value gives a cookie of that key |
| CookieHeader.CollectedFirst | src/headers/cookie.ts:126-128 | A parsed cookie is the first usable pair with its key |
| ForwardedHeader.FormatDirective | src/headers/forwarded.ts:70-72 | A value is quoted exactly when it starts with `[` and contains `]` |
| ForwardedHeader.Directives | src/headers/forwarded.ts:44-56 | The printed directives start with `for`, followed by the present ones among by, host, secret and proto, in that order |
| ForwardedHeader.ToString | src/headers/forwarded.ts:44-56 | The printed header starts with `for=` and the formatted node |
| ForwardedHeader.KeptPairs | src/headers/forwarded.ts:92 | Only pairs with a non-empty key among the five properties and a non-empty value survive, in order |
| ForwardedHeader.PairRead | src/headers/forwarded.ts:77-90 | A directive `key=value` gives its trimmed, lower-cased key and its trimmed, dequoted value; anything after a second `=` is dropped |
| ForwardedHeader.ElementPairs | src/headers/forwarded.ts:77-92 | Every pair of an element that survives is a kept one |
| ForwardedHeader.ParseDirectives | src/headers/forwarded.ts:74-98 | An element is dropped exactly when none of its directives survive |
| ForwardedHeader.ReduceLastWins | src/headers/forwarded.ts:94-98 | Each property takes its last surviving value, and `for` defaults to `unknown` |
| ForwardedHeader.FromString | src/headers/forwarded.ts:58-68 | A missing or empty header gives nothing; no more entries than comma elements |
| ForwardedHeader.FromStringOne | src/headers/forwarded.ts:58-68 | A header without a comma whose directives parse reads as exactly that one entry |
| ForwardedHeader.ReduceDirectives | src/headers/forwarded.ts:44-98 | Folding the printed directives gives back the value |
| ForwardedHeader.ParseText | src/headers/forwarded.ts:44-98 | The printed header of a well-formed value parses back to it as one element |
| ForwardedHeader.RoundTrip | src/headers/forwarded.ts:44-98 | `fromString(f.toString())` is exactly `[f]` for every well-formed value |
| ContentTypeHeader.New | src/headers/content-type.ts:12-24 | The constructor fails with "`boundary` is missing" exactly for multipart without a non-empty boundary; the boundary is kept only for multipart, the charset only for other types and only when non-empty |
| ContentTypeHeader.ToString | src/headers/content-type.ts:38-44 | The printed type starts with the media type and is just that without parameters |
| ContentTypeHeader.CharsetOf | src/headers/content-type.ts:73-78 | The charset read is lower-case |
| ContentTypeHeader.FromParameter | src/headers/content-type.ts:64-82 | Multipart is accepted exactly with a `boundary` key and a non-empty value; anything read is valid and its charset lower-case |
| ContentTypeHeader.FromTrimmedParts | src/headers/content-type.ts:53-82 | An empty type gives nothing; the type read is the lower-cased raw type |
| ContentTypeHeader.FromString | src/headers/content-type.ts:46-83 | A missing or empty input gives nothing; anything read is valid with a lower-case type and charset |
| ContentTypeHeader.FirstParameterOnly | src/headers/content-type.ts:51 | Parameters after the first one are ignored |
| ContentTypeHeader.ReadParameter | src/headers/content-type.ts:51-82 | A printed type with one parameter reads as that parameter |
| ContentTypeHeader.ReadBare | src/headers/content-type.ts:51-82 | A bare type reads as that type without parameters |
| ContentTypeHeader.RoundTrip | src/headers/content-type.ts:38-83 | `fromString(ct.toString())` gives back every printable content type |
| AcceptEncodingHeader.EncodingOf | src/headers/accept-encoding.ts:46-63 | A name is kept exactly when it is one of the seven listed encodings |
| AcceptEncodingHeader.NameRead | src/headers/accept-encoding.ts:46-63 | Every encoding's name reads back as itself |
| AcceptEncodingHeader.ToString | src/headers/accept-encoding.ts:32-35 | The printed form starts with the encoding's name |
| AcceptEncodingHeader.Joined | src/headers/accept-encoding.ts:38-44 | A string input is read as it is, and an array input is joined with `,` first, so a one-element array reads as its element |
| AcceptEncodingHeader.ParseElement | src/headers/accept-encoding.ts:56-69 | A kept element's encoding is the trimmed part before `;q=` |
| AcceptEncodingHeader.WeightedElement | src/headers/accept-encoding.ts:58-69 | `enc;q=v` reads as that encoding with the weight read from `v` |
| AcceptEncodingHeader.BareElement | src/headers/accept-encoding.ts:58-69 | `enc` alone reads with no weight |
| AcceptEncodingHeader.EmptyWeight | src/headers/accept-encoding.ts:61 | An empty weight reads as 0, because `Number("")` is 0 |
| AcceptEncodingHeader.UnreadableWeight | src/headers/accept-encoding.ts:64-67 | An unreadable weight becomes no weight |
| AcceptEncodingHeader.Unsorted | src/headers/accept-encoding.ts:56-69 | No more codings than comma pieces |
| AcceptEncodingHeader.FromString | src/headers/accept-encoding.ts:37-71 | A missing input gives nothing; the output is the filtered codings, ordered by weight descending (no weight counting as 1), with ties in input order |
| AcceptEncodingHeader.ElementRoundTrip | src/headers/accept-encoding.ts:32-69 | A printed coding reads back as itself |
| AcceptEncodingHeader.UnsortedRoundTrip | src/headers/accept-encoding.ts:32-69 | Printed codings joined with `,` read back, in order |
| AcceptEncodingHeader.RoundTrip | src/headers/accept-encoding.ts:32-71 | Codings already ordered by weight read back as themselves from a joined string and from an array |
| Sorting.Sort | src/headers/accept-encoding.ts:70 | The sort is a permutation |
| Sorting.SortDescending | src/headers/accept-encoding.ts:70 | The sort orders by weight descending |
| Sorting.SortStable | src/headers/accept-encoding.ts:70 | The sort keeps the input order among equal weights |
| Sorting.SortOfDescending | src/headers/accept-encoding.ts:70 | An already ordered input is left as it is |
| Sorting.InsertDescending | src/headers/accept-encoding.ts:70 | Inserting one coding into an ordered list keeps it ordered by weight descending |
| Sorting.DescendingPairs | src/headers/accept-encoding.ts:70 | In a list ordered by weight descending, every coding weighs at least as much as every coding after it, not only its neighbour |
| Decimals.Parse | src/headers/accept-encoding.ts:61 | The empty string reads as 0, digits read as their integer value, and what is read is in canonical form |
| Decimals.RoundTrip | src/headers/accept-encoding.ts:34 | A weight printed in canonical form reads back exactly |
| ContentEncodingHeader.CodingOf | src/headers/content-encoding.ts:26-31 | A name is kept exactly when it is one of the five listed codings (`*` and `identity` excluded) |
| ContentEncodingHeader.ToString | src/headers/content-encoding.ts:13-19 | The printed coding is its name, which reads back as itself |
| ContentEncodingHeader.FromString | src/headers/content-encoding.ts:21-34 | A missing input gives nothing; no more codings than comma pieces |
| ContentEncodingHeader.ReadBackwards | src/headers/content-encoding.ts:28-33 | The codings come out in reverse input order |
| ContentEncodingHeader.RoundTrip | src/headers/content-encoding.ts:21-34 | Printed codings joined with `,` read back reversed |
| AuthorizationHeader.IsValidType | src/headers/authorization.ts:53-69 | A type is valid exactly when it is one of the ten listed scheme names |
| AuthorizationHeader.SchemeOf | src/headers/authorization.ts:53-69 | Every listed name, and only those, reads as its scheme |
| AuthorizationHeader.NameRead | src/headers/authorization.ts:53-69 | Every scheme's name reads back as itself |
| AuthorizationHeader.ToString | src/headers/authorization.ts:35-39 | The printed form starts with the scheme, and is just the scheme exactly when there are no credentials |
| AuthorizationHeader.FromString | src/headers/authorization.ts:41-51 | A missing or empty input gives nothing; otherwise a value comes out exactly when the first space-separated token of the trimmed input is a listed scheme, and it always has credentials |
| AuthorizationHeader.RoundTrip | src/headers/authorization.ts:35-50 | `fromString(a.toString())` gives back every value with plain credentials |
| AuthorizationHeader.TextRoundTrip | src/headers/authorization.ts:35-50 | `fromString("Type creds").toString()` is the input unchanged |
| AuthorizationHeader.BareScheme | src/headers/authorization.ts:46-50 | A bare scheme reads with empty credentials, so it prints back with a trailing space |
| AuthorizationHeader.ExtraTokens | src/headers/authorization.ts:46 | Tokens after the credentials are ignored |
| Js.NumberOf | src/headers/range.ts:57-58 | `Number()` gives an integer exactly for a digit string, and a non-negative one |

## Left out

- I/O: the socket, TLS and server set-up (`createServer`, `createSecureServer`,
  `#requestListener`), the logger, and src/request.ts are not part of this model.
- `sendFile`'s file access (`stat`, the URL and protocol checks, the is-file
  check, `createReadStream`) is left out. The file's size and modification time
  are parameters, and so are the parsed `If-Modified-Since` and `If-Range`
  dates. A date that does not parse is absent.
- src/headers/if-modified-since.ts (date parsing) is not part of this model.
- Streams: `send` with a `Readable` ends the response with a stream marker; piping
  and stream errors are left out.
- Asynchrony: the walk is sequential, because each middleware is awaited before
  the next one starts.
- What a middleware does to the response is not modelled. A middleware's
  outcome (a returned context, `done`, a throw) is an oracle. A context that a
  middleware returns keeps the response of the context it replaces.
- `Number()` is modelled only on decimal digit strings, and on decimals for
  quality values. Hex, exponents, signs, `Infinity` and IEEE rounding are
  left out: any other text is `NaN`. `ErrorHandling.NumberValue` gives `NaN`
  for every object. JavaScript converts an object through its string form, so
  `Number([404])` is 404 there. The model does not follow that path.
- `Decimals.Text` (and so `AcceptEncodingHeader.ToString`) prints a weight as
  its exact decimal digits. JavaScript switches to exponent form below 1e-6 and
  from 1e21, and rounds to the shortest form that reads back (about 17 significant
  digits). Neither is modelled. This only matters for weights outside the
  three-decimal quality values of RFC 7231 section 5.3.1. Every other number
  printed (`Max-Age`, range bounds, sizes) is an integer.
- `toLowerCase`/`toUpperCase` are modelled on ASCII letters only. `trim`
  removes exactly ECMAScript's WhiteSpace and LineTerminator code points
  (`Strings.IsWhitespace`). Strings are sequences of characters, not UTF-16 units.
- Regular expressions: a pattern is its source and flags. Whether it matches is
  an oracle. Its `lastIndex` state and the `SyntaxError` that
  `new RegExp(p, "u")` throws for some sources are left out.
- Changing a middleware's flags, or a router's methods, after it was added is
  left out, and so is changing them while a walk is running.
- The `json` getter of the error class returns a shallow copy. A JSON value
  here is immutable, so the copy is the value itself.
- Header names are lower-cased. Node's header-name validation is left out.
- `set` takes an ordered list of pairs. JavaScript's `for … in` order over
  the object's keys is assumed to be that order.
- Node's `ERR_HTTP_HEADERS_SENT` error is represented by its message, "Cannot set
  headers after they are sent to the client" (`Responses.HeadersSent`). Its
  `code` property is not modelled.
- `#errorHandler` when `json` is truthy but not an object is left out. An error's
  `json` member is either absent or a JSON object.
- Apps.App.ErrorHandler: under `Binden` the requires clause excludes a thrown
  `null` or `undefined`. The handler reads `.status` of it and crashes with a
  `TypeError` inside the `catch` handler. `Kauai` uses optional chaining and is
  modelled for that case (`ErrorHandling.NullAnswer`).
- Apps.App.Handle: states the walk over the stack and router tables as they are
  when `#handle` starts. A router edited by a middleware during the walk is not
  captured.
- Apps.RunEntries: states the walk over the stack's view at the start, for the
  same reason.
- ErrorHandling.Body: its contract only says that a content type comes with a
  body. What the body is lives in `ErrorHandling.BodyOnlyWhenExposed`,
  `ErrorHandling.JsonFirst` and `ErrorHandling.TextTypeDiffers`.
- AuthorizationHeader.FromString: a bare scheme reads with empty credentials,
  `""`, as in the source (`AuthorizationHeader.BareScheme`). Its `toString` then
  has a trailing space, so the printed header is not the input.
- ContentRangeHeader.RoundTrip: excludes `bytes */*`, which the source prints
  but cannot read back (`ContentRangeHeader.StarStarRejected`).

## Findings

| source | as written | input that shows it | evidently intended | confidence | as-written member | corrected member |
|---|---|---|---|---|---|---|
| src/headers/content-range.ts:62-76 | `fromString` reads `rawRange.split(...)` outside both `try` blocks; when every `/`-piece of the text after `bytes ` is empty, `rawRange` is `undefined` and the call throws a `TypeError` | `ContentRange.fromString("bytes /")` | return `[]`, as the declared result type `[] \| [ContentRange]` and every other rejected input do | not executed | ContentRangeHeader.AsWrittenThrows | ContentRangeHeader.CorrectedRejects |
| src/response.ts:169-187 | `sendFile` tests `typeof range.start !== "undefined"` and `typeof range.end !== "undefined"`, but src/headers/range.ts:13-19 stores a missing bound as `null`, so the tests always pass and `null` counts as 0 | a 10-byte file with `Range: bytes=-3` is served bytes 0-3; with `Range: bytes=5-` the `ContentRange` constructor throws "`end` is missing" | `bytes=-3` serves the last 3 bytes (section 2.1 of RFC 7233), `bytes=5-` serves bytes 5-9 | not executed | FileResponder.AsWrittenSuffix | FileResponder.Suffix |
