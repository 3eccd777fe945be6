/**
 * `ProjectCors`: the origin check against the attached project, the preflight answer,
 * and the CORS and security headers added to every response the handler produces.
 */
module Cors {
  import opened Wrappers
  import opened Text
  import opened Http
  import opened Projects

  const MethodsValue := "GET, POST, PUT, DELETE, OPTIONS"
  const HeadersValue := "Content-Type, Accept, Authorization, X-Requested-With, X-Project-ID, X-Api-Key, Origin"
  const ExposeValue := "Content-Length, Content-Type, X-Subscription-ID"
  const ViolationMessage := "CORS policy violation: Origin not allowed"

  /** `$request->header('Origin')`. */
  function Origin(r: Request): Option<string> {
    Header(r, "origin")
  }

  /**
   * The middleware's `isOriginAllowed($project, $origin)`: no project denies, a falsy
   * origin is allowed, otherwise the lower-cased origin goes to the project's check.
   */
  function CorsAllows(project: Option<Project>, origin: Option<string>): (allowed: bool)
    ensures project.None? ==> !allowed
    ensures project.Some? && !Truthy(origin) ==> allowed
    ensures project.Some? && Truthy(origin) ==> (allowed <==> OriginAllowed(project.value, origin.value))
  {
    OriginCaseIgnoredIf(project, origin);
    project.Some? && (!Truthy(origin) || OriginAllowed(project.value, Lower(origin.value)))
  }

  lemma OriginCaseIgnoredIf(project: Option<Project>, origin: Option<string>)
    ensures project.Some? && origin.Some? ==>
              OriginAllowed(project.value, Lower(origin.value)) == OriginAllowed(project.value, origin.value)
  {
    if project.Some? && origin.Some? {
      OriginCaseIgnored(project.value, origin.value);
    }
  }

  /**
   * `in_array('*', $allowedOrigins)` on the list the header code builds: the attribute
   * when truthy, decoded when it is a JSON string, `[]` otherwise.
   */
  predicate ListsWildcard(project: Option<Project>) {
    project.Some? && OriginEntries(project.value.allowedOrigins).Some? &&
    "*" in OriginEntries(project.value.allowedOrigins).value
  }

  /**
   * The `Access-Control-Allow-Origin` value: `*` when the list holds `*`, otherwise the
   * Origin header as sent, not lower-cased. With no Origin header the bag stores null;
   * here that is the empty string.
   */
  function AllowOriginValue(project: Option<Project>, origin: Option<string>): (v: string)
    ensures v == "*" <==> ListsWildcard(project) || origin == Some("*")
  {
    if ListsWildcard(project) then "*" else if origin.Some? then origin.value else ""
  }

  /** A non-OPTIONS request is refused before the handler when it has an origin that is not allowed. */
  function Violation(project: Option<Project>, r: Request): (v: bool)
    ensures v <==> Truthy(Origin(r)) && (project.None? || !OriginAllowed(project.value, Origin(r).value))
  {
    Truthy(Origin(r)) && !CorsAllows(project, Origin(r))
  }

  const ViolationReply := Reply(403, Envelope(false, ViolationMessage, None, None))

  /** Without a project every origin is refused, including a missing one. */
  lemma NoProjectNoOrigin(origin: Option<string>)
    ensures !CorsAllows(None, origin)
  {
  }

  /** With a project attached, a request without an Origin header is allowed and never a violation. */
  lemma NoOriginAllowed(p: Project, r: Request)
    requires !Truthy(Origin(r))
    ensures CorsAllows(Some(p), Origin(r)) && !Violation(Some(p), r)
  {
  }

  // ---------------------------------------------------------------------------------
  // handlePreflightRequest

  /** The header bag of an allowed preflight answer. */
  function PreflightHeaders(project: Option<Project>, origin: Option<string>): Headers {
    map[AllowOrigin := [AllowOriginValue(project, origin)],
        AllowMethods := [MethodsValue],
        AllowHeaders := [HeadersValue],
        AllowCredentials := ["false"],
        MaxAge := ["86400"],
        Vary := ["Origin"]]
  }

  /** `handlePreflightRequest`: 403 with an empty body, or 204 with the preflight headers. */
  method Preflight(project: Option<Project>, r: Request) returns (resp: Response)
    ensures fresh(resp) && resp.body == Empty
    ensures CorsAllows(project, Origin(r)) ==> resp.status == 204 && resp.headers == PreflightHeaders(project, Origin(r))
    ensures !CorsAllows(project, Origin(r)) ==> resp.status == 403 && resp.headers == map[]
  {
    var origin := Origin(r);
    if !CorsAllows(project, origin) {
      resp := new Response(403, Empty);
      return;
    }
    resp := new Response(204, Empty);
    resp.Set(AllowOrigin, AllowOriginValue(project, origin), true);
    resp.Set(AllowMethods, MethodsValue, true);
    resp.Set(AllowHeaders, HeadersValue, true);
    resp.Set(AllowCredentials, "false", true);
    resp.Set(MaxAge, "86400", true);
    resp.Set(Vary, "Origin", true);
  }

  /** An allowed preflight echoes `*` exactly when the list holds it, the origin as sent otherwise. */
  lemma PreflightAllowOrigin(project: Option<Project>, r: Request)
    requires Truthy(Origin(r))
    ensures PreflightHeaders(project, Origin(r))[AllowOrigin] ==
            [if ListsWildcard(project) then "*" else Origin(r).value]
  {
  }

  // ---------------------------------------------------------------------------------
  // addSecurityHeaders

  /** The five security headers in the order the loop sets them. */
  const SecurityHeaders: seq<(HeaderName, string)> := [
    (ContentTypeOptions, "nosniff"),
    (FrameOptions, "DENY"),
    (XssProtection, "1; mode=block"),
    (ReferrerPolicy, "strict-origin-when-cross-origin"),
    (ContentSecurityPolicy, "default-src 'none'; frame-ancestors 'none';")]

  /** Each of `pairs` set in turn without replacing. */
  function SetAll(h: Headers, pairs: seq<(HeaderName, string)>): Headers
    decreases |pairs|
  {
    if pairs == [] then h else SetAll(SetHeader(h, pairs[0].0, pairs[0].1, false), pairs[1..])
  }

  lemma SetAllSnoc(h: Headers, pairs: seq<(HeaderName, string)>, last: (HeaderName, string))
    ensures SetAll(h, pairs + [last]) == SetHeader(SetAll(h, pairs), last.0, last.1, false)
    decreases |pairs|
  {
    if pairs != [] {
      assert (pairs + [last])[1..] == pairs[1..] + [last];
      SetAllSnoc(SetHeader(h, pairs[0].0, pairs[0].1, false), pairs[1..], last);
    }
  }

  /** `addSecurityHeaders`: the loop over the five headers, none of them replacing a value. */
  method AddSecurityHeaders(resp: Response)
    modifies resp
    ensures resp.headers == SetAll(old(resp.headers), SecurityHeaders)
    ensures resp.status == old(resp.status) && resp.body == old(resp.body)
  {
    for i := 0 to |SecurityHeaders|
      invariant resp.headers == SetAll(old(resp.headers), SecurityHeaders[..i])
      invariant resp.status == old(resp.status) && resp.body == old(resp.body)
    {
      var (name, value) := SecurityHeaders[i];
      SetAllSnoc(old(resp.headers), SecurityHeaders[..i], SecurityHeaders[i]);
      assert SecurityHeaders[..i + 1] == SecurityHeaders[..i] + [SecurityHeaders[i]];
      resp.Set(name, value, false);
    }
    assert SecurityHeaders[..|SecurityHeaders|] == SecurityHeaders;
  }

  /** Setting names other than `k` without replacing leaves the header `k` as it was. */
  lemma {:induction false} SetAllKeepsOthers(h: Headers, pairs: seq<(HeaderName, string)>, k: HeaderName)
    requires forall i :: 0 <= i < |pairs| ==> pairs[i].0 != k
    ensures k in SetAll(h, pairs) <==> k in h
    ensures k in h ==> SetAll(h, pairs)[k] == h[k]
    decreases |pairs|
  {
    if pairs != [] {
      assert pairs[0].0 != k;
      assert forall i :: 0 <= i < |pairs[1..]| ==> pairs[1..][i] == pairs[i + 1];
      SetAllKeepsOthers(SetHeader(h, pairs[0].0, pairs[0].1, false), pairs[1..], k);
    }
  }

  /** Among distinct names set without replacing, the `n`-th gets its value appended to what was there. */
  lemma {:induction false} SetAllAppendsAt(h: Headers, pairs: seq<(HeaderName, string)>, n: nat)
    requires forall i, j :: 0 <= i < j < |pairs| ==> pairs[i].0 != pairs[j].0
    requires n < |pairs|
    ensures pairs[n].0 in SetAll(h, pairs)
    ensures SetAll(h, pairs)[pairs[n].0] == if pairs[n].0 in h then h[pairs[n].0] + [pairs[n].1] else [pairs[n].1]
    decreases |pairs|
  {
    var h1 := SetHeader(h, pairs[0].0, pairs[0].1, false);
    assert forall i :: 0 <= i < |pairs[1..]| ==> pairs[1..][i] == pairs[i + 1];
    if n == 0 {
      SetAllKeepsOthers(h1, pairs[1..], pairs[0].0);
    } else {
      SetAllAppendsAt(h1, pairs[1..], n - 1);
    }
  }

  /** The security headers end up on every response, each after any value the handler set. */
  lemma SecurityHeadersPresent(h: Headers, n: nat)
    requires n < |SecurityHeaders|
    ensures SecurityHeaders[n].0 in SetAll(h, SecurityHeaders)
    ensures SetAll(h, SecurityHeaders)[SecurityHeaders[n].0] ==
            if SecurityHeaders[n].0 in h then h[SecurityHeaders[n].0] + [SecurityHeaders[n].1] else [SecurityHeaders[n].1]
  {
    SetAllAppendsAt(h, SecurityHeaders, n);
  }

  /** A header that is not one of the five is left as it was by `addSecurityHeaders`. */
  lemma SecurityHeadersKeepOthers(h: Headers, k: HeaderName)
    requires !IsSecurityHeader(k)
    ensures k in SetAll(h, SecurityHeaders) <==> k in h
    ensures k in h ==> SetAll(h, SecurityHeaders)[k] == h[k]
  {
    SetAllKeepsOthers(h, SecurityHeaders, k);
  }

  /** The names the security loop sets. */
  predicate IsSecurityHeader(k: HeaderName)
    ensures IsSecurityHeader(k) <==> exists i :: 0 <= i < |SecurityHeaders| && SecurityHeaders[i].0 == k
  {
    assert SecurityHeaders[0].0 == ContentTypeOptions && SecurityHeaders[1].0 == FrameOptions;
    assert SecurityHeaders[2].0 == XssProtection && SecurityHeaders[3].0 == ReferrerPolicy;
    assert SecurityHeaders[4].0 == ContentSecurityPolicy;
    k.ContentTypeOptions? || k.FrameOptions? || k.XssProtection? || k.ReferrerPolicy? || k.ContentSecurityPolicy?
  }

  // ---------------------------------------------------------------------------------
  // addCorsHeaders

  /** The headers an allowed origin adds after `Vary`, with `allowOrigin` the Allow-Origin value. */
  function AllowedHeaders(h: Headers, allowOrigin: string): Headers {
    h[AllowOrigin := [allowOrigin]]
     [AllowCredentials := ["false"]]
     [AllowMethods := [MethodsValue]]
     [AllowHeaders := [HeadersValue]]
     [ExposeHeaders := [ExposeValue]]
  }

  /**
   * The header bag `addCorsHeaders` leaves, from the one the handler produced; `allowed`
   * is the origin check's verdict and `allowOrigin` the Allow-Origin value.
   */
  function CorsHeaders(h: Headers, allowed: bool, allowOrigin: string): Headers {
    var v := SetHeader(h, Vary, "Origin", false);
    SetAll(if allowed then AllowedHeaders(v, allowOrigin) else v, SecurityHeaders)
  }

  /** `addCorsHeaders`: `Vary: Origin` appended, the allow headers when the origin is allowed, then the security headers. */
  method AddCorsHeaders(resp: Response, project: Option<Project>, r: Request)
    modifies resp
    ensures resp.headers == CorsHeaders(old(resp.headers), CorsAllows(project, Origin(r)), AllowOriginValue(project, Origin(r)))
    ensures resp.status == old(resp.status) && resp.body == old(resp.body)
  {
    var origin := Origin(r);
    resp.Set(Vary, "Origin", false);
    if CorsAllows(project, origin) {
      resp.Set(AllowOrigin, AllowOriginValue(project, origin), true);
      resp.Set(AllowCredentials, "false", true);
      resp.Set(AllowMethods, MethodsValue, true);
      resp.Set(AllowHeaders, HeadersValue, true);
      resp.Set(ExposeHeaders, ExposeValue, true);
    }
    AddSecurityHeaders(resp);
  }

  /** `Origin` is appended to whatever `Vary` the handler set. */
  lemma CorsHeadersVary(h: Headers, allowed: bool, allowOrigin: string)
    ensures Vary in CorsHeaders(h, allowed, allowOrigin)
    ensures CorsHeaders(h, allowed, allowOrigin)[Vary] == if Vary in h then h[Vary] + ["Origin"] else ["Origin"]
  {
    var v := SetHeader(h, Vary, "Origin", false);
    var a := if allowed then AllowedHeaders(v, allowOrigin) else v;
    SecurityHeadersKeepOthers(a, Vary);
  }

  /**
   * An allowed origin gets the Allow-Origin value and the exposed headers; a refused one
   * gets no Allow-Origin beyond one the handler set.
   */
  lemma CorsHeadersAllow(h: Headers, allowed: bool, allowOrigin: string)
    ensures allowed ==>
              && AllowOrigin in CorsHeaders(h, allowed, allowOrigin)
              && CorsHeaders(h, allowed, allowOrigin)[AllowOrigin] == [allowOrigin]
    ensures !allowed ==>
              (AllowOrigin in CorsHeaders(h, allowed, allowOrigin) <==> AllowOrigin in h)
  {
    var v := SetHeader(h, Vary, "Origin", false);
    SecurityHeadersKeepOthers(if allowed then AllowedHeaders(v, allowOrigin) else v, AllowOrigin);
  }

  /** An allowed origin is told credentials are off and which response headers it may read. */
  lemma CorsHeadersExpose(h: Headers, allowOrigin: string)
    ensures ExposeHeaders in CorsHeaders(h, true, allowOrigin)
    ensures CorsHeaders(h, true, allowOrigin)[ExposeHeaders] == [ExposeValue]
    ensures AllowCredentials in CorsHeaders(h, true, allowOrigin)
    ensures CorsHeaders(h, true, allowOrigin)[AllowCredentials] == ["false"]
  {
    var a := AllowedHeaders(SetHeader(h, Vary, "Origin", false), allowOrigin);
    SecurityHeadersKeepOthers(a, ExposeHeaders);
    SecurityHeadersKeepOthers(a, AllowCredentials);
  }

  /** The names `addCorsHeaders` writes. */
  predicate IsCorsHeader(k: HeaderName) {
    k.Vary? || k.AllowOrigin? || k.AllowCredentials? || k.AllowMethods? || k.AllowHeaders? ||
    k.ExposeHeaders? || IsSecurityHeader(k)
  }

  /** Any other header the inner layers set, the rate-limit headers among them, comes through unchanged. */
  lemma CorsHeadersKeep(h: Headers, allowed: bool, allowOrigin: string, k: HeaderName)
    requires !IsCorsHeader(k)
    ensures k in CorsHeaders(h, allowed, allowOrigin) <==> k in h
    ensures k in h ==> CorsHeaders(h, allowed, allowOrigin)[k] == h[k]
  {
    var v := SetHeader(h, Vary, "Origin", false);
    assert (k in v <==> k in h) && (k in h ==> v[k] == h[k]);
    var a := if allowed then AllowedHeaders(v, allowOrigin) else v;
    assert (k in a <==> k in v) && (k in v ==> a[k] == v[k]);
    SecurityHeadersKeepOthers(a, k);
  }

  /** Every forwarded response, allowed origin or not, gets each security header appended. */
  lemma CorsHeadersSecurity(h: Headers, allowed: bool, allowOrigin: string, n: nat)
    requires n < |SecurityHeaders|
    ensures SecurityHeaders[n].0 in CorsHeaders(h, allowed, allowOrigin)
    ensures CorsHeaders(h, allowed, allowOrigin)[SecurityHeaders[n].0] ==
            if SecurityHeaders[n].0 in h then h[SecurityHeaders[n].0] + [SecurityHeaders[n].1]
            else [SecurityHeaders[n].1]
  {
    var v := SetHeader(h, Vary, "Origin", false);
    var a := if allowed then AllowedHeaders(v, allowOrigin) else v;
    var k := SecurityHeaders[n].0;
    assert IsSecurityHeader(k);
    assert (k in a <==> k in h) && (k in h ==> a[k] == h[k]);
    SecurityHeadersPresent(a, n);
  }

  /** The Allow-Origin value of a forwarded response: `*` when the list holds it, else the origin as sent. */
  lemma AllowOriginEcho(project: Option<Project>, r: Request)
    requires Truthy(Origin(r))
    ensures AllowOriginValue(project, Origin(r)) == if ListsWildcard(project) then "*" else Origin(r).value
  {
  }
}
