/**
 * The HTTP boundary: an immutable request value, JSON values as they arrive in bodies and
 * are stored in `meta`, response bodies, and the response object whose header bag the
 * middleware edits in place (Symfony's `HeaderBag::set`).
 */
module Http {
  import opened Wrappers
  import opened Text

  /** An instant, in seconds. */
  type Time = int

  /**
   * A JSON value. `JTime(t)` stands for Carbon's ISO-8601 rendering of instant `t`
   * (`now()->toISOString()`), whose formatting is not modelled.
   */
  datatype Json =
    | JNull
    | JBool(b: bool)
    | JNum(n: int)
    | JStr(s: string)
    | JTime(t: Time)
    | JList(items: seq<Json>)
    | JObject(fields: map<string, Json>)

  /**
   * An incoming request. Header names are stored lower-cased, each with its list of
   * values, as Symfony's HeaderBag keeps them; `path` has no leading slash, as
   * `$request->path()` returns it; `ip` is the client address `$request->ip()` reports; `verb` is the raw HTTP method.
   */
  datatype Request = Request(
    verb: string,
    path: string,
    headers: map<string, seq<string>>,
    ip: string,
    input: map<string, Json>)

  /** `$request->method()`: the method upper-cased. */
  function Method(r: Request): string {
    Upper(r.verb)
  }

  /** `$request->isMethod('OPTIONS')`. */
  predicate IsOptions(r: Request) {
    Method(r) == "OPTIONS"
  }

  /**
   * `$request->header($name)`: the first value under the name, or null. `key` is the
   * name as the bag stores it, lower-cased (`"user-agent"` for `User-Agent`).
   */
  function Header(r: Request, key: string): (h: Option<string>)
    ensures h.Some? <==> key in r.headers && r.headers[key] != []
    ensures h.Some? ==> h.value == r.headers[key][0]
  {
    if key in r.headers && r.headers[key] != [] then Some(r.headers[key][0]) else None
  }

  /** `$request->userAgent()`. */
  function UserAgent(r: Request): Option<string> {
    Header(r, "user-agent")
  }

  /** PHP truthiness of a header value: present and neither "" nor "0". */
  predicate Truthy(h: Option<string>) {
    h.Some? && !Falsy(h.value)
  }

  /** `$request->input($key)`: null when absent. */
  function Input(r: Request, key: string): Json {
    if key in r.input then r.input[key] else JNull
  }

  /** PHP truthiness of a decoded JSON value. */
  predicate JsonTruthy(v: Json) {
    match v
    case JNull => false
    case JBool(b) => b
    case JNum(n) => n != 0
    case JStr(s) => !Falsy(s)
    case JTime(_) => true
    case JList(items) => items != []
    case JObject(fields) => fields != map[]
  }

  /** A nullable string as a JSON value. */
  function OptText(s: Option<string>): Json {
    match s
    case Some(v) => JStr(v)
    case None => JNull
  }

  /** The `data` part of a subscribe response. */
  datatype SubscriptionData = SubscriptionData(
    subscriptionId: nat,
    email: string,
    status: string,
    requiresConfirmation: bool)

  /** The request fields the controllers' validators check, keyed in `errors` by `FieldName`. */
  datatype Field = EmailField | SourceUrlField | ReferrerField | MetaField | ReasonField

  function FieldName(f: Field): string {
    match f
    case EmailField => "email"
    case SourceUrlField => "source_url"
    case ReferrerField => "referrer"
    case MetaField => "meta"
    case ReasonField => "reason"
  }

  /** `errors`: the fields a Laravel validator rejected (messages not modelled), or field messages. */
  datatype Errors =
    | RuleErrors(fields: set<Field>)
    | FieldMessages(field: string, messages: seq<string>)

  /** Response bodies. */
  datatype Body =
    | Empty
    | HealthOk
    | CredentialError(error: string, message: string)
    | Envelope(success: bool, message: string, data: Option<SubscriptionData>, errors: Option<Errors>)
    | Page(view: string, message: string, project: Option<nat>)
    | Message(message: string)

  /** A handler's answer before middleware adds headers: status code and body. */
  datatype Reply = Reply(status: int, body: Body)

  /**
   * The response headers the core writes. The header bag keys each by its lower-cased
   * name, which `HeaderText` gives.
   */
  datatype HeaderName =
    | Vary | AllowOrigin | AllowMethods | AllowHeaders | AllowCredentials | MaxAge | ExposeHeaders
    | ContentTypeOptions | FrameOptions | XssProtection | ReferrerPolicy | ContentSecurityPolicy
    | RateLimitLimit | RateLimitRemaining | RetryAfter | RateLimitReset

  function HeaderText(n: HeaderName): string {
    match n
    case Vary => "vary"
    case AllowOrigin => "access-control-allow-origin"
    case AllowMethods => "access-control-allow-methods"
    case AllowHeaders => "access-control-allow-headers"
    case AllowCredentials => "access-control-allow-credentials"
    case MaxAge => "access-control-max-age"
    case ExposeHeaders => "access-control-expose-headers"
    case ContentTypeOptions => "x-content-type-options"
    case FrameOptions => "x-frame-options"
    case XssProtection => "x-xss-protection"
    case ReferrerPolicy => "referrer-policy"
    case ContentSecurityPolicy => "content-security-policy"
    case RateLimitLimit => "x-ratelimit-limit"
    case RateLimitRemaining => "x-ratelimit-remaining"
    case RetryAfter => "retry-after"
    case RateLimitReset => "x-ratelimit-reset"
  }

  type Headers = map<HeaderName, seq<string>>

  /**
   * Symfony `HeaderBag::set($name, $value, $replace)`: without `replace`, the value is
   * appended to the ones already there.
   */
  function SetHeader(h: Headers, key: HeaderName, value: string, replace: bool): Headers {
    h[key := if replace || key !in h then [value] else h[key] + [value]]
  }

  /** A response under construction; middleware edits its header bag in place. */
  class Response {
    var status: int
    var body: Body
    var headers: Headers

    constructor (status: int, body: Body)
      ensures this.status == status && this.body == body && headers == map[]
    {
      this.status := status;
      this.body := body;
      headers := map[];
    }

    /** `$response->headers->set($name, $value, $replace)`. */
    method Set(key: HeaderName, value: string, replace: bool)
      modifies this
      ensures headers == SetHeader(old(headers), key, value, replace)
      ensures status == old(status) && body == old(body)
    {
      headers := SetHeader(headers, key, value, replace);
    }
  }
}
