/**
 * `Middleware` (src/middleware.ts): a unit of request handling with two
 * flags, `disabled` and `ignore_errors`. Its behaviour (`run`) belongs to
 * each subclass and is not part of this module; `id` stands for the
 * object's identity, which is how the stack and the routers find it again.
 */
module Middlewares {
  import opened Wrappers

  datatype Middleware = Middleware(id: nat, disabled: bool, ignoreErrors: bool)

  /** The constructor's options; an absent one is `None`. */
  datatype MiddlewareParams = MiddlewareParams(disabled: Option<bool>, ignoreErrors: Option<bool>)

  /** `new Middleware(params)`: both flags default to `false`. */
  function New(id: nat, params: MiddlewareParams): (m: Middleware)
    ensures m.id == id
    ensures m.disabled <==> params.disabled == Some(true)
    ensures m.ignoreErrors <==> params.ignoreErrors == Some(true)
  {
    Middleware(id, params.disabled.GetOr(false), params.ignoreErrors.GetOr(false))
  }
}
