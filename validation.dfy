/**
 * The checks the callback makes before it contacts anything: the HTTP method,
 * the two body fields, then the configured client secret.
 */
module Validation {
  import opened Wrappers

  /** A JSON value as the handler sees it; a key absent from the body reads as `Undefined`. */
  datatype JsValue = Undefined | Null | Boolean(b: bool) | Number(n: int) | Str(s: string) | Composite

  /** JavaScript truthiness (JSON numbers are never NaN). */
  predicate Truthy(v: JsValue)
  {
    match v
    case Undefined => false
    case Null => false
    case Boolean(b) => b
    case Number(n) => n != 0
    case Str(s) => s != ""
    case Composite => true
  }

  datatype Body = Body(code: JsValue, redirectUri: JsValue)

  /** An incoming request: its method and its parsed body, `None` when the body is falsy. */
  datatype Request = Request(httpMethod: string, body: Option<Body>)

  const MethodNotAllowed: string := "Method not allowed"
  const MissingCode: string := "Missing authorization code"
  const MissingRedirectUri: string := "Missing redirect_uri"
  const SecretNotConfigured: string := "TRUELAYER_CLIENT_SECRET not configured"

  /**
   * What the checks decide: answer the preflight, refuse with a status and an
   * error, or go on to the token exchange with the code, redirect URI and secret.
   */
  datatype Verdict =
    | Preflight
    | Refuse(status: nat, error: string)
    | Admit(code: JsValue, redirectUri: JsValue, clientSecret: string)

  /** `const { code, redirect_uri } = req.body || {}`. */
  function CodeOf(req: Request): JsValue
  {
    if req.body.Some? then req.body.value.code else Undefined
  }

  function RedirectUriOf(req: Request): JsValue
  {
    if req.body.Some? then req.body.value.redirectUri else Undefined
  }

  /**
   * The ladder: each check in turn, the first that fails decides. The request
   * is admitted exactly when it is a POST carrying a truthy code and redirect
   * URI and the secret is configured, and it then carries those very values.
   */
  function Validate(req: Request, secret: Option<string>): (v: Verdict)
    ensures v.Preflight? <==> req.httpMethod == "OPTIONS"
    ensures v.Refuse? ==> v.status in {400, 405, 500}
    ensures v.Refuse? && v.status == 405 <==> req.httpMethod != "OPTIONS" && req.httpMethod != "POST"
    ensures v.Admit? <==>
      req.httpMethod == "POST" && Truthy(CodeOf(req)) && Truthy(RedirectUriOf(req)) && NonEmpty(secret)
    ensures v.Admit? ==>
      v.code == CodeOf(req) && v.redirectUri == RedirectUriOf(req) && v.clientSecret == secret.value
  {
    if req.httpMethod == "OPTIONS" then Preflight
    else if req.httpMethod != "POST" then Refuse(405, MethodNotAllowed)
    else if !Truthy(CodeOf(req)) then Refuse(400, MissingCode)
    else if !Truthy(RedirectUriOf(req)) then Refuse(400, MissingRedirectUri)
    else if !NonEmpty(secret) then Refuse(500, SecretNotConfigured)
    else Admit(CodeOf(req), RedirectUriOf(req), secret.value)
  }

  /** A POST without a code is refused for the code, whatever else is missing. */
  lemma MissingCodeFirst(req: Request, secret: Option<string>)
    requires req.httpMethod == "POST" && !Truthy(CodeOf(req))
    ensures Validate(req, secret) == Refuse(400, MissingCode)
  {
  }

  /** A POST with a code but no redirect URI is refused for the redirect URI, whatever the secret. */
  lemma MissingRedirectUriSecond(req: Request, secret: Option<string>)
    requires req.httpMethod == "POST" && Truthy(CodeOf(req)) && !Truthy(RedirectUriOf(req))
    ensures Validate(req, secret) == Refuse(400, MissingRedirectUri)
  {
  }

  /** The secret is consulted last: a well-formed POST without it is a server error. */
  lemma MissingSecretLast(req: Request, secret: Option<string>)
    requires req.httpMethod == "POST" && Truthy(CodeOf(req)) && Truthy(RedirectUriOf(req))
    requires !NonEmpty(secret)
    ensures Validate(req, secret) == Refuse(500, SecretNotConfigured)
  {
  }
}
